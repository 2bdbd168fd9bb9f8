/** The expression tree as a value: the three variants of Expression
    (Number, Variable, BinOpExpression), their contents strings, and the
    equality and hash code derived from contents. */
module Terms {
  import opened Wrappers
  import opened NumberText

  /** The two operators a BinOpExpression accepts. */
  datatype Op = Plus | Times

  function OpChar(op: Op): char
  {
    match op
    case Plus => '+'
    case Times => '*'
  }

  /** Num is a Number, Var a Variable seen by its name only, BinOp a
      BinOpExpression. The stored value of a Variable lives with the objects
      (module Objects); everything here depends on names alone. */
  datatype Term =
    | Num(value: real)
    | Var(name: string)
    | BinOp(op: Op, left: Term, right: Term)

  /** The names of the variables occurring in `t`. */
  function Vars(t: Term): set<string>
  {
    match t
    case Num(_) => {}
    case Var(n) => {n}
    case BinOp(_, l, r) => Vars(l) + Vars(r)
  }

  /** The values of the numbers occurring in `t`. */
  function Values(t: Term): set<real>
  {
    match t
    case Num(v) => {v}
    case Var(_) => {}
    case BinOp(_, l, r) => Values(l) + Values(r)
  }

  /** Every variable name in `t` is a non-empty string of letters, as the
      grammar's VARIABLE token guarantees. */
  predicate NamesOk(t: Term)
  {
    match t
    case Num(_) => true
    case Var(n) => IsName(n)
    case BinOp(_, l, r) => NamesOk(l) && NamesOk(r)
  }

  /** getContents(): Double.toString of a Number, the name of a Variable,
      and for a BinOpExpression its operands' contents around the operator,
      always in parentheses. */
  function Contents(t: Term, fmt: Format): (c: string)
    ensures t.BinOp? ==> |c| > 2 && c[0] == '(' && c[|c| - 1] == ')'
  {
    match t
    case Num(v) => fmt.show(v)
    case Var(n) => n
    case BinOp(op, l, r) => "(" + Contents(l, fmt) + [OpChar(op)] + Contents(r, fmt) + ")"
  }

  /** The BinOpExpression constructor with its checkRep: any operator other
      than '+' and '*' is refused; otherwise the contents are fixed from the
      operands' contents once and for all. (A null operand cannot be written
      in the model.) */
  function NewBinOp(op: char, l: Term, r: Term): (res: Result<Term, string>)
    ensures res.Ok? <==> op == '+' || op == '*'
    ensures res.Ok? ==> res.value.BinOp? && OpChar(res.value.op) == op
                        && res.value.left == l && res.value.right == r
    ensures res.Ok? ==> forall fmt :: Contents(res.value, fmt) == "(" + Contents(l, fmt) + [op] + Contents(r, fmt) + ")"
  {
    if op == '+' then Ok(BinOp(Plus, l, r))
    else if op == '*' then Ok(BinOp(Times, l, r))
    else Err("invalid operator!")
  }

  /** equals(): two expressions are equal when their contents are. */
  predicate Equals(a: Term, b: Term, fmt: Format): (r: bool)
    ensures a == b ==> r
  {
    Contents(a, fmt) == Contents(b, fmt)
  }

  /** Java `int` arithmetic: `x` wrapped into the 32-bit two's-complement
      range. */
  function Int32(x: int): (r: int)
    ensures -0x8000_0000 <= r < 0x8000_0000
    ensures (r - x) % 0x1_0000_0000 == 0
  {
    (x + 0x8000_0000) % 0x1_0000_0000 - 0x8000_0000
  }

  /** hashCode(): 37 * 17 plus the String hash code of the contents, in
      `int` arithmetic; `stringHash` stands for String.hashCode. */
  function HashCode(t: Term, fmt: Format, stringHash: string -> int): (h: int)
    ensures -0x8000_0000 <= h < 0x8000_0000
  {
    Int32(37 * 17 + stringHash(Contents(t, fmt)))
  }

  /** Equal expressions have equal hash codes. */
  lemma EqualsImpliesEqualHash(a: Term, b: Term, fmt: Format, stringHash: string -> int)
    requires Equals(a, b, fmt)
    ensures HashCode(a, fmt, stringHash) == HashCode(b, fmt, stringHash)
  {
  }

  // ---------------------------------------------------------------------
  // Contents equality is structural equality.

  /** A string that may follow a complete leaf: empty, or starting with a
      syntax character. */
  predicate AfterAtom(s: string)
  {
    |s| == 0 || IsSyntax(s[0])
  }

  /** The index of the first syntax character of `x`, or |x| if none. */
  function SyntaxIndex(x: string): (k: nat)
    ensures k <= |x|
  {
    if |x| == 0 || IsSyntax(x[0]) then 0 else 1 + SyntaxIndex(x[1..])
  }

  /** A leaf text followed by AfterAtom text ends where the first syntax
      character is. */
  lemma {:induction false} SyntaxIndexAfterAtom(w: string, s: string)
    requires forall i :: 0 <= i < |w| ==> !IsSyntax(w[i])
    requires AfterAtom(s)
    ensures SyntaxIndex(w + s) == |w|
  {
    if |w| == 0 {
      assert w + s == s;
    } else {
      assert (w + s)[0] == w[0];
      assert (w + s)[1..] == w[1..] + s;
      SyntaxIndexAfterAtom(w[1..], s);
    }
  }

  /** Two leaf texts each followed by AfterAtom text split the same way. */
  lemma AtomSplit(w: string, s: string, w2: string, t: string)
    requires IsAtomText(w) && IsAtomText(w2) && AfterAtom(s) && AfterAtom(t)
    requires w + s == w2 + t
    ensures w == w2 && s == t
  {
    SyntaxIndexAfterAtom(w, s);
    SyntaxIndexAfterAtom(w2, t);
    assert w == (w + s)[..|w|] && w2 == (w2 + t)[..|w2|];
    assert s == (w + s)[|w|..] && t == (w2 + t)[|w2|..];
  }

  /** Contents start with '(' exactly for BinOp nodes; a leaf's contents are
      a leaf text starting with a letter exactly for a Var. */
  lemma ContentsHead(t: Term, fmt: Format)
    requires WellBehaved(fmt) && NamesOk(t)
    ensures |Contents(t, fmt)| > 0
    ensures t.BinOp? <==> Contents(t, fmt)[0] == '('
    ensures !t.BinOp? ==> IsAtomText(Contents(t, fmt)) && (t.Var? <==> IsLetter(Contents(t, fmt)[0]))
  {
    match t
    case Num(v) => assert IsNumberText(fmt.show(v));
    case Var(n) =>
    case BinOp(_, _, _) =>
  }

  /** The trees whose contents are unambiguous: letter names, and numbers
      whose Double.toString tells their values apart. */
  ghost predicate ContentsReadable(t: Term, fmt: Format, vs: set<real>)
  {
    WellBehaved(fmt) && NamesOk(t) && Values(t) <= vs && InjectiveOn(fmt.show, vs)
  }

  /** Contents are prefix-free among trees: followed by a string that starts
      with an operator or a closing parenthesis, they determine the tree. */
  lemma {:induction false} ContentsPrefix(a: Term, b: Term, s: string, t: string, fmt: Format, vs: set<real>)
    requires ContentsReadable(a, fmt, vs) && ContentsReadable(b, fmt, vs)
    requires AfterAtom(s) && AfterAtom(t)
    requires Contents(a, fmt) + s == Contents(b, fmt) + t
    ensures a == b && s == t
    decreases a, 1
  {
    ContentsHead(a, fmt);
    ContentsHead(b, fmt);
    assert (Contents(a, fmt) + s)[0] == Contents(a, fmt)[0];
    assert (Contents(b, fmt) + t)[0] == Contents(b, fmt)[0];
    if a.BinOp? {
      NodePrefix(a, b, s, t, fmt, vs);
    } else {
      AtomSplit(Contents(a, fmt), s, Contents(b, fmt), t);
      if a.Num? {
        assert fmt.show(a.value) == fmt.show(b.value);
      }
    }
  }

  /** The `BinOp` case of ContentsPrefix: strip the opening parenthesis,
      read the left operand, the operator, the right operand and the
      closing parenthesis in turn. */
  lemma {:induction false} NodePrefix(a: Term, b: Term, s: string, t: string, fmt: Format, vs: set<real>)
    requires a.BinOp? && b.BinOp?
    requires ContentsReadable(a, fmt, vs) && ContentsReadable(b, fmt, vs)
    requires AfterAtom(s) && AfterAtom(t)
    requires Contents(a, fmt) + s == Contents(b, fmt) + t
    ensures a == b && s == t
    decreases a, 0
  {
    var cl, cr := Contents(a.left, fmt), Contents(a.right, fmt);
    var cl2, cr2 := Contents(b.left, fmt), Contents(b.right, fmt);
    NodeText(cl, OpChar(a.op), cr, s);
    NodeText(cl2, OpChar(b.op), cr2, t);
    var rest := [OpChar(a.op)] + (cr + (")" + s));
    var rest2 := [OpChar(b.op)] + (cr2 + (")" + t));
    ContentsPrefix(a.left, b.left, rest, rest2, fmt, vs);
    assert a.op == b.op;
    ContentsPrefix(a.right, b.right, ")" + s, ")" + t, fmt, vs);
  }

  /** Reading a node's text: the opening parenthesis, the left operand,
      the operator, the right operand, the closing parenthesis. */
  lemma NodeText(cl: string, op: char, cr: string, s: string)
    ensures "(" + cl + [op] + cr + ")" + s == "(" + (cl + ([op] + (cr + (")" + s))))
    ensures ("(" + (cl + ([op] + (cr + (")" + s)))))[1..] == cl + ([op] + (cr + (")" + s)))
    ensures ([op] + (cr + (")" + s)))[0] == op
    ensures ([op] + (cr + (")" + s)))[1..] == cr + (")" + s)
    ensures (")" + s)[0] == ')' && (")" + s)[1..] == s
  {
  }

  /** equals() is structural equality, as its documentation promises, for
      trees with letter names and numbers whose contents differ. */
  lemma EqualsIsStructural(a: Term, b: Term, fmt: Format)
    requires WellBehaved(fmt) && NamesOk(a) && NamesOk(b)
    requires InjectiveOn(fmt.show, Values(a) + Values(b))
    ensures Equals(a, b, fmt) <==> a == b
  {
    if Equals(a, b, fmt) {
      assert Contents(a, fmt) + "" == Contents(b, fmt) + "";
      ContentsPrefix(a, b, "", "", fmt, Values(a) + Values(b));
    }
  }
}
