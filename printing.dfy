/** toString(), the printed form that Expression.parse is meant to read
    back, and a repaired printer whose output determines the tree. */
module Printing {
  import opened NumberText
  import opened Terms
  import opened Evaluation

  /** toString() as the classes write it: a Number prints its plain decimal
      text, a Variable its name, a `+` node its operands in parentheses and a
      `*` node its operands with no parentheses at all. */
  function ToString(t: Term, fmt: Format): (s: string)
    ensures t.BinOp? && t.op == Plus ==> |s| > 2 && s[0] == '(' && s[|s| - 1] == ')'
  {
    match t
    case Num(v) => fmt.plain(v)
    case Var(n) => n
    case BinOp(Plus, l, r) => "(" + ToString(l, fmt) + "+" + ToString(r, fmt) + ")"
    case BinOp(Times, l, r) => ToString(l, fmt) + "*" + ToString(r, fmt)
  }

  /** The printed form with the one repair toString needs to be read back:
      the right operand of a `*` node is put in parentheses when it is itself
      a `*` node. Everything else is printed as toString prints it. */
  function Print(t: Term, fmt: Format): (s: string)
    ensures t.BinOp? && t.op == Plus ==> |s| > 2 && s[0] == '(' && s[|s| - 1] == ')'
    decreases t, 0
  {
    match t
    case Num(v) => fmt.plain(v)
    case Var(n) => n
    case BinOp(Plus, l, r) => "(" + Print(l, fmt) + "+" + Print(r, fmt) + ")"
    case BinOp(Times, l, r) => Print(l, fmt) + "*" + Factor(r, fmt)
  }

  /** How an operand that follows a `*` is printed by Print. */
  function Factor(t: Term, fmt: Format): string
    decreases t, 1
  {
    if IsProduct(t) then "(" + Print(t, fmt) + ")" else Print(t, fmt)
  }

  predicate IsProduct(t: Term)
  {
    t.BinOp? && t.op == Times
  }

  /** The trees in which no `*` node has a `*` node as its right operand. */
  predicate PrintSafe(t: Term)
  {
    match t
    case Num(_) => true
    case Var(_) => true
    case BinOp(op, l, r) => !(op == Times && IsProduct(r)) && PrintSafe(l) && PrintSafe(r)
  }

  /** On those trees the repaired printer prints exactly what toString
      prints. */
  lemma {:induction false} PrintAgreesWithToString(t: Term, fmt: Format)
    requires PrintSafe(t)
    ensures Print(t, fmt) == ToString(t, fmt)
  {
    match t
    case Num(_) =>
    case Var(_) =>
    case BinOp(_, l, r) =>
      PrintAgreesWithToString(l, fmt);
      PrintAgreesWithToString(r, fmt);
  }

  /** The product of `a` and `b` with the factors of `b` appended to `a`
      one by one, strictly to the left: Graft(a, (b1*b2)*b3) is
      ((a*b1)*b2)*b3. */
  function Graft(a: Term, b: Term): (g: Term)
    ensures IsProduct(g)
    ensures Values(g) == Values(a) + Values(b)
    ensures NamesOk(g) <==> NamesOk(a) && NamesOk(b)
  {
    if IsProduct(b) then BinOp(Times, Graft(a, b.left), b.right) else BinOp(Times, a, b)
  }

  /** The tree toString's text stands for once its lost grouping is read as
      the grammar reads it: every product regrouped to the left. */
  function Flatten(t: Term): (f: Term)
    ensures IsProduct(f) <==> IsProduct(t)
    ensures Values(f) == Values(t)
    ensures NamesOk(f) <==> NamesOk(t)
  {
    match t
    case Num(_) => t
    case Var(_) => t
    case BinOp(Plus, l, r) => BinOp(Plus, Flatten(l), Flatten(r))
    case BinOp(Times, l, r) => Graft(Flatten(l), Flatten(r))
  }

  lemma {:induction false} GraftPrints(a: Term, b: Term, fmt: Format)
    requires PrintSafe(a) && PrintSafe(b)
    ensures PrintSafe(Graft(a, b))
    ensures Print(Graft(a, b), fmt) == Print(a, fmt) + "*" + Print(b, fmt)
  {
    if IsProduct(b) {
      GraftPrints(a, b.left, fmt);
      var pa, pl, pr := Print(a, fmt), Print(b.left, fmt), Print(b.right, fmt);
      assert Print(b, fmt) == pl + "*" + pr;
      assert pa + "*" + pl + "*" + pr == pa + "*" + (pl + "*" + pr);
    }
  }

  /** What toString prints is what the repaired printer prints for the
      flattened tree, which has no `*` node as the right operand of a `*`
      node. */
  lemma {:induction false} FlattenPrints(t: Term, fmt: Format)
    ensures PrintSafe(Flatten(t))
    ensures Print(Flatten(t), fmt) == ToString(t, fmt)
  {
    match t
    case Num(_) =>
    case Var(_) =>
    case BinOp(op, l, r) =>
      FlattenPrints(l, fmt);
      FlattenPrints(r, fmt);
      if op == Times {
        GraftPrints(Flatten(l), Flatten(r), fmt);
      }
  }

  /** Flattening changes a tree exactly when toString loses its grouping. */
  lemma {:induction false} FlattenFixed(t: Term)
    ensures Flatten(t) == t <==> PrintSafe(t)
  {
    FlattenPrints(t, Format(_ => "", _ => "", _ => 0.0));
    if PrintSafe(t) {
      FlattenKeeps(t);
    }
  }

  lemma {:induction false} FlattenKeeps(t: Term)
    requires PrintSafe(t)
    ensures Flatten(t) == t
  {
    match t
    case Num(_) =>
    case Var(_) =>
    case BinOp(_, l, r) =>
      FlattenKeeps(l);
      FlattenKeeps(r);
  }

  /** Grafting keeps the value: the product is regrouped, not changed. */
  lemma {:induction false} GraftEval(a: Term, b: Term, env: map<string, real>)
    ensures Eval(Graft(a, b), env) == Apply(Times, Eval(a, env), Eval(b, env))
  {
    if IsProduct(b) {
      GraftEval(a, b.left, env);
      TimesAssociates(Eval(a, env), Eval(b.left, env), Eval(b.right, env));
    }
  }

  /** Multiplication of reals associates. */
  lemma TimesAssociates(x: real, y: real, z: real)
    ensures Apply(Times, Apply(Times, x, y), z) == Apply(Times, x, Apply(Times, y, z))
  {
  }

  /** Regrouping products to the left keeps the value of every tree, so
      the tree toString's text reads back as is equal in value to the
      original. */
  lemma {:induction false} FlattenEval(t: Term, env: map<string, real>)
    ensures Eval(Flatten(t), env) == Eval(t, env)
  {
    match t
    case Num(_) =>
    case Var(_) =>
    case BinOp(Plus, l, r) =>
      FlattenEval(l, env);
      FlattenEval(r, env);
    case BinOp(Times, l, r) =>
      FlattenEval(l, env);
      FlattenEval(r, env);
      GraftEval(Flatten(l), Flatten(r), env);
  }

  // ---------------------------------------------------------------------
  // The repaired printed form determines the tree.

  /** The operands of a chain of `*` nodes, leftmost first:
      Factors(((a*b)*c)) == [a, b, c]. */
  function Factors(t: Term): (fs: seq<Term>)
    ensures |fs| >= 1 && (|fs| == 1 <==> !IsProduct(t))
    ensures !IsProduct(fs[0])
    ensures forall i :: 0 <= i < |fs| ==> Values(fs[i]) <= Values(t) && (NamesOk(t) ==> NamesOk(fs[i]))
  {
    if IsProduct(t) then Factors(t.left) + [t.right] else [t]
  }

  /** The printed factors joined by '*'. */
  function Join(fs: seq<Term>, fmt: Format): string
    requires |fs| > 0
  {
    if |fs| == 1 then Factor(fs[0], fmt) else Factor(fs[0], fmt) + "*" + Join(fs[1..], fmt)
  }

  lemma {:induction false} JoinSnoc(fs: seq<Term>, g: Term, fmt: Format)
    requires |fs| > 0
    ensures Join(fs + [g], fmt) == Join(fs, fmt) + "*" + Factor(g, fmt)
    decreases |fs|
  {
    if |fs| > 1 {
      assert (fs + [g])[1..] == fs[1..] + [g];
      JoinSnoc(fs[1..], g, fmt);
    }
  }

  /** A tree prints as its factors joined by '*'. */
  lemma {:induction false} PrintIsJoin(t: Term, fmt: Format)
    ensures Print(t, fmt) == Join(Factors(t), fmt)
  {
    if IsProduct(t) {
      PrintIsJoin(t.left, fmt);
      JoinSnoc(Factors(t.left), t.right, fmt);
    }
  }

  lemma {:induction false} FactorsInjective(a: Term, b: Term)
    requires Factors(a) == Factors(b)
    ensures a == b
  {
    if IsProduct(a) {
      var fa := Factors(a);
      assert fa[|fa| - 1] == a.right && fa[|fa| - 1] == b.right;
      assert fa[..|fa| - 1] == Factors(a.left) && fa[..|fa| - 1] == Factors(b.left);
      FactorsInjective(a.left, b.left);
    }
  }

  /** A string that may follow a complete tree: empty, or starting with
      '+' or ')'. A '*' would continue a product. */
  predicate AfterTree(s: string)
  {
    |s| == 0 || s[0] == '+' || s[0] == ')'
  }

  /** The trees whose printed form is unambiguous: letter names, and
      numbers whose plain text tells their values apart. */
  ghost predicate PrintReadable(t: Term, fmt: Format, vs: set<real>)
  {
    WellBehaved(fmt) && NamesOk(t) && Values(t) <= vs && InjectiveOn(fmt.plain, vs)
  }

  /** A printed factor starts with '(' exactly when it is a BinOp; otherwise
      it is a leaf text that starts with a letter exactly for a Var. */
  lemma FactorHead(f: Term, fmt: Format)
    requires WellBehaved(fmt) && NamesOk(f)
    ensures |Factor(f, fmt)| > 0
    ensures f.BinOp? <==> Factor(f, fmt)[0] == '('
    ensures !f.BinOp? ==> IsAtomText(Factor(f, fmt)) && (f.Var? <==> IsLetter(Factor(f, fmt)[0]))
  {
    match f
    case Num(v) => assert IsNumberText(fmt.plain(v));
    case Var(n) =>
    case BinOp(_, _, _) =>
  }

  lemma {:induction false} PrintPrefix(a: Term, b: Term, s: string, t: string, fmt: Format, vs: set<real>)
    requires PrintReadable(a, fmt, vs) && PrintReadable(b, fmt, vs)
    requires AfterTree(s) && AfterTree(t)
    requires Print(a, fmt) + s == Print(b, fmt) + t
    ensures a == b && s == t
    decreases |Print(a, fmt) + s|, 3
  {
    PrintIsJoin(a, fmt);
    PrintIsJoin(b, fmt);
    JoinPrefix(Factors(a), Factors(b), s, t, fmt, vs);
    FactorsInjective(a, b);
  }

  lemma {:induction false} JoinPrefix(fs: seq<Term>, gs: seq<Term>, s: string, t: string, fmt: Format, vs: set<real>)
    requires |fs| > 0 && |gs| > 0
    requires forall i :: 0 <= i < |fs| ==> PrintReadable(fs[i], fmt, vs)
    requires forall i :: 0 <= i < |gs| ==> PrintReadable(gs[i], fmt, vs)
    requires AfterTree(s) && AfterTree(t)
    requires Join(fs, fmt) + s == Join(gs, fmt) + t
    ensures fs == gs && s == t
    decreases |Join(fs, fmt) + s|, 2
  {
    JoinHead(fs, s, fmt);
    JoinHead(gs, t, fmt);
    var rf, rg := JoinRest(fs, s, fmt), JoinRest(gs, t, fmt);
    AtomPrefix(fs[0], gs[0], rf, rg, fmt, vs);
    if |fs| > 1 {
      JoinPrefix(fs[1..], gs[1..], s, t, fmt, vs);
      assert fs == [fs[0]] + fs[1..] && gs == [gs[0]] + gs[1..];
    }
  }

  /** What follows the first factor in Join(fs) + s. */
  function JoinRest(fs: seq<Term>, s: string, fmt: Format): string
    requires |fs| > 0
  {
    if |fs| == 1 then s else "*" + (Join(fs[1..], fmt) + s)
  }

  /** Join(fs) + s is the first factor followed by JoinRest, which starts
      with '*' exactly when more factors follow. */
  lemma JoinHead(fs: seq<Term>, s: string, fmt: Format)
    requires |fs| > 0 && AfterTree(s)
    ensures Join(fs, fmt) + s == Factor(fs[0], fmt) + JoinRest(fs, s, fmt)
    ensures AfterAtom(JoinRest(fs, s, fmt))
    ensures |fs| > 1 <==> |JoinRest(fs, s, fmt)| > 0 && JoinRest(fs, s, fmt)[0] == '*'
    ensures |fs| > 1 ==> Join(fs[1..], fmt) + s == JoinRest(fs, s, fmt)[1..]
  {
    if |fs| > 1 {
      StarSplit(Factor(fs[0], fmt), Join(fs[1..], fmt), s);
    }
  }

  /** Regrouping a '*'-joined string followed by `s`. */
  lemma StarSplit(a: string, j: string, s: string)
    ensures (a + "*" + j) + s == a + ("*" + (j + s))
    ensures ("*" + (j + s))[1..] == j + s
  {
  }

  lemma {:induction false} AtomPrefix(f: Term, g: Term, s: string, t: string, fmt: Format, vs: set<real>)
    requires PrintReadable(f, fmt, vs) && PrintReadable(g, fmt, vs)
    requires AfterAtom(s) && AfterAtom(t)
    requires Factor(f, fmt) + s == Factor(g, fmt) + t
    ensures f == g && s == t
    decreases |Factor(f, fmt) + s|, 1
  {
    FactorHead(f, fmt);
    FactorHead(g, fmt);
    assert (Factor(f, fmt) + s)[0] == Factor(f, fmt)[0];
    assert (Factor(g, fmt) + t)[0] == Factor(g, fmt)[0];
    if !f.BinOp? {
      AtomSplit(Factor(f, fmt), s, Factor(g, fmt), t);
      if f.Num? {
        assert fmt.plain(f.value) == fmt.plain(g.value);
      }
    } else {
      NodeFactorPrefix(f, g, s, t, fmt, vs);
    }
  }

  /** What a parenthesised factor opens with: the factor itself for a
      product, the left operand for a sum. */
  function Opening(f: Term): Term
    requires f.BinOp?
  {
    if IsProduct(f) then f else f.left
  }

  /** What follows the opening tree in a parenthesised factor followed by `s`. */
  function Closing(f: Term, s: string, fmt: Format): string
    requires f.BinOp?
  {
    if IsProduct(f) then ")" + s else "+" + (Print(f.right, fmt) + (")" + s))
  }

  lemma FactorOpens(f: Term, s: string, fmt: Format)
    requires f.BinOp?
    ensures Factor(f, fmt) + s == "(" + (Print(Opening(f), fmt) + Closing(f, s, fmt))
    ensures Print(Opening(f), fmt) + Closing(f, s, fmt) == (Factor(f, fmt) + s)[1..]
    ensures |Closing(f, s, fmt)| > 0 && (Closing(f, s, fmt)[0] == ')' <==> IsProduct(f))
    ensures AfterTree(Closing(f, s, fmt))
    ensures Values(Opening(f)) <= Values(f) && (NamesOk(f) ==> NamesOk(Opening(f)))
  {
  }

  /** Two parenthesised factors: "(" + Print(p) + rest, where p is the
      factor itself for a product and its left operand for a sum. */
  lemma {:induction false} NodeFactorPrefix(f: Term, g: Term, s: string, t: string, fmt: Format, vs: set<real>)
    requires f.BinOp? && g.BinOp?
    requires PrintReadable(f, fmt, vs) && PrintReadable(g, fmt, vs)
    requires Factor(f, fmt) + s == Factor(g, fmt) + t
    ensures f == g && s == t
    decreases |Factor(f, fmt) + s|, 0
  {
    FactorOpens(f, s, fmt);
    FactorOpens(g, t, fmt);
    PrintPrefix(Opening(f), Opening(g), Closing(f, s, fmt), Closing(g, t, fmt), fmt, vs);
    if IsProduct(f) {
      assert s == Closing(f, s, fmt)[1..] && t == Closing(g, t, fmt)[1..];
    } else {
      SumRightPrefix(f, g, s, t, fmt, vs);
    }
  }

  /** Two sums whose left operands agree: read the right operands. */
  lemma {:induction false} SumRightPrefix(f: Term, g: Term, s: string, t: string, fmt: Format, vs: set<real>)
    requires f.BinOp? && g.BinOp? && f.op == Plus && g.op == Plus && f.left == g.left
    requires PrintReadable(f, fmt, vs) && PrintReadable(g, fmt, vs)
    requires "+" + (Print(f.right, fmt) + (")" + s)) == "+" + (Print(g.right, fmt) + (")" + t))
    ensures f == g && s == t
    decreases |Print(f.right, fmt) + s| + 2, 3
  {
    var rf := "+" + (Print(f.right, fmt) + (")" + s));
    var rg := "+" + (Print(g.right, fmt) + (")" + t));
    assert Print(f.right, fmt) + (")" + s) == rf[1..];
    assert Print(g.right, fmt) + (")" + t) == rg[1..];
    PrintPrefix(f.right, g.right, ")" + s, ")" + t, fmt, vs);
    assert s == (")" + s)[1..] && t == (")" + t)[1..];
  }

  /** The repaired printed form determines the tree: two trees print alike
      exactly when they are the same tree. This is what a printer needs for
      parse(print(e)) to give e back. */
  lemma PrintInjective(a: Term, b: Term, fmt: Format)
    requires WellBehaved(fmt) && NamesOk(a) && NamesOk(b)
    requires InjectiveOn(fmt.plain, Values(a) + Values(b))
    ensures Print(a, fmt) == Print(b, fmt) <==> a == b
  {
    if Print(a, fmt) == Print(b, fmt) {
      assert Print(a, fmt) + "" == Print(b, fmt) + "";
      PrintPrefix(a, b, "", "", fmt, Values(a) + Values(b));
    }
  }

  /** toString as written does not determine the tree: x*(y*z) and (x*y)*z
      print alike although their contents, and hence equals(), differ. */
  lemma ToStringCollides(fmt: Format)
    ensures var a := BinOp(Times, Var("x"), BinOp(Times, Var("y"), Var("z")));
            var b := BinOp(Times, BinOp(Times, Var("x"), Var("y")), Var("z"));
            ToString(a, fmt) == ToString(b, fmt) == "x*y*z"
            && Contents(a, fmt) == "(x*(y*z))" && Contents(b, fmt) == "((x*y)*z)"
            && !Equals(a, b, fmt)
  {
    CollidingTexts(fmt);
    CollidingContents(fmt);
    assert "(x*(y*z))"[1] != "((x*y)*z)"[1];
  }

  lemma CollidingTexts(fmt: Format)
    ensures ToString(BinOp(Times, Var("x"), BinOp(Times, Var("y"), Var("z"))), fmt) == "x*y*z"
    ensures ToString(BinOp(Times, BinOp(Times, Var("x"), Var("y")), Var("z")), fmt) == "x*y*z"
  {
    assert ToString(BinOp(Times, Var("y"), Var("z")), fmt) == "y*z";
    assert ToString(BinOp(Times, Var("x"), Var("y")), fmt) == "x*y";
  }

  lemma CollidingContents(fmt: Format)
    ensures Contents(BinOp(Times, Var("x"), BinOp(Times, Var("y"), Var("z"))), fmt) == "(x*(y*z))"
    ensures Contents(BinOp(Times, BinOp(Times, Var("x"), Var("y")), Var("z")), fmt) == "((x*y)*z)"
  {
    assert Contents(BinOp(Times, Var("y"), Var("z")), fmt) == "(y*z)";
    assert Contents(BinOp(Times, Var("x"), Var("y")), fmt) == "(x*y)";
  }
}
