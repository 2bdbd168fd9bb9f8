/** buildAST and parse: from the concrete parse tree of the expression
    grammar to an expression tree, folding sums and products to the left. */
module Building {
  import opened Wrappers
  import opened NumberText
  import opened Terms
  import opened Printing
  import opened Objects

  /** The grammar's nonterminals and terminals. */
  datatype Sym = ROOT | PRIMITIVE | SUM | PRODUCT | VARIABLE | NUMBER | WHITESPACE

  /** A node of the concrete parse tree: its symbol, the text it spans and
      its children in input order. */
  datatype ParseTree = Node(name: Sym, contents: string, children: seq<ParseTree>)

  /** childrenByName: the children carrying symbol `n`, in order. */
  function ChildrenByName(t: ParseTree, n: Sym): (cs: seq<ParseTree>)
    ensures forall c :: c in cs <==> c in t.children && c.name == n
  {
    Keep(t.children, n)
  }

  function Keep(cs: seq<ParseTree>, n: Sym): (ks: seq<ParseTree>)
    ensures forall c :: c in ks <==> c in cs && c.name == n
    ensures |ks| <= |cs|
  {
    if |cs| == 0 then []
    else (if cs[0].name == n then [cs[0]] else []) + Keep(cs[1..], n)
  }

  /** The runtime exceptions buildAST throws. */
  datatype BuildError =
    | NoPrimitiveChild   // a PRIMITIVE with no NUMBER, VARIABLE or SUM child
    | EmptySum           // a SUM with no PRODUCT child
    | EmptyProduct       // a PRODUCT with no PRIMITIVE child
    | RootWithoutSum     // get(0) on the empty list of a ROOT's SUM children
    | Whitespace         // buildAST reached a WHITESPACE node

  /** `xs` combined with `op`, strictly to the left: ((x1 op x2) op ...) op xn. */
  function LeftChain(op: Op, xs: seq<Term>): Term
    requires |xs| > 0
  {
    if |xs| == 1 then xs[0] else BinOp(op, LeftChain(op, xs[..|xs| - 1]), xs[|xs| - 1])
  }

  /** The operands of the top `k` levels of a left chain, leftmost first:
      the inverse of LeftChain. */
  function Unchain(op: Op, t: Term, k: nat): seq<Term>
    requires k > 0
  {
    if k == 1 then [t]
    else if t.BinOp? && t.op == op then Unchain(op, t.left, k - 1) + [t.right]
    else [t]
  }

  /** A left chain takes its operands apart again, in order. */
  lemma {:induction false} UnchainLeftChain(op: Op, xs: seq<Term>)
    requires |xs| > 0
    ensures Unchain(op, LeftChain(op, xs), |xs|) == xs
  {
    if |xs| > 1 {
      UnchainLeftChain(op, xs[..|xs| - 1]);
      assert xs[..|xs| - 1] + [xs[|xs| - 1]] == xs;
    }
  }

  /** buildAST. A NUMBER becomes a Number of its parsed text and a VARIABLE a
      Variable of its text; a PRIMITIVE builds its first NUMBER child, else
      its first VARIABLE child, else its first SUM child; a SUM adds up its
      PRODUCT children and a PRODUCT multiplies its PRIMITIVE children, both
      strictly to the left; a ROOT builds its first SUM child. The error of
      the first child that fails is the error of the whole. */
  function Build(t: ParseTree, fmt: Format): (r: Result<Term, BuildError>)
    ensures t.name == NUMBER || t.name == VARIABLE ==> r.Ok?
    ensures r.Ok? ==> t.name != WHITESPACE
    decreases t, 1
  {
    match t.name
    case NUMBER => Ok(Num(fmt.read(t.contents)))
    case VARIABLE => Ok(Var(t.contents))
    case PRIMITIVE =>
      var nums, vars, sums := ChildrenByName(t, NUMBER), ChildrenByName(t, VARIABLE), ChildrenByName(t, SUM);
      if |nums| > 0 then assert nums[0] in t.children; Build(nums[0], fmt)
      else if |vars| > 0 then assert vars[0] in t.children; Build(vars[0], fmt)
      else if |sums| > 0 then assert sums[0] in t.children; Build(sums[0], fmt)
      else Err(NoPrimitiveChild)
    case SUM => Fold(t, Plus, ChildrenByName(t, PRODUCT), EmptySum, fmt)
    case PRODUCT => Fold(t, Times, ChildrenByName(t, PRIMITIVE), EmptyProduct, fmt)
    case ROOT =>
      var sums := ChildrenByName(t, SUM);
      if |sums| > 0 then assert sums[0] in t.children; Build(sums[0], fmt) else Err(RootWithoutSum)
    case WHITESPACE => Err(Whitespace)
  }

  /** The SUM and PRODUCT cases: build the children, then chain them. */
  function Fold(t: ParseTree, op: Op, cs: seq<ParseTree>, empty: BuildError, fmt: Format): Result<Term, BuildError>
    requires forall i :: 0 <= i < |cs| ==> cs[i] in t.children
    decreases t, 0, |cs| + 1
  {
    match BuildList(t, cs, fmt)
    case Err(e) => Err(e)
    case Ok(xs) => if |xs| == 0 then Err(empty) else Ok(LeftChain(op, xs))
  }

  /** The children `cs` built in order: all of them, or the error of the
      first that fails. */
  function BuildList(t: ParseTree, cs: seq<ParseTree>, fmt: Format): (r: Result<seq<Term>, BuildError>)
    requires forall i :: 0 <= i < |cs| ==> cs[i] in t.children
    ensures r.Ok? ==> |r.value| == |cs|
    ensures r.Ok? ==> forall i :: 0 <= i < |cs| ==> cs[i] in t.children && Build(cs[i], fmt) == Ok(r.value[i])
    decreases t, 0, |cs|
  {
    if |cs| == 0 then Ok([])
    else
      match BuildList(t, cs[..|cs| - 1], fmt)
      case Err(e) => Err(e)
      case Ok(xs) =>
        assert cs[|cs| - 1] in t.children;
        match Build(cs[|cs| - 1], fmt)
        case Err(e) => Err(e)
        case Ok(x) => Ok(xs + [x])
  }

  /** A failure among the first `k` children is the failure of all of them. */
  lemma {:induction false} BuildListPrefixErr(t: ParseTree, cs: seq<ParseTree>, k: nat, fmt: Format)
    requires forall i :: 0 <= i < |cs| ==> cs[i] in t.children
    requires k <= |cs| && BuildList(t, cs[..k], fmt).Err?
    ensures BuildList(t, cs, fmt) == BuildList(t, cs[..k], fmt)
  {
    if k == |cs| {
      assert cs[..k] == cs;
    } else {
      var init := cs[..|cs| - 1];
      assert init[..k] == cs[..k];
      BuildListPrefixErr(t, init, k, fmt);
    }
  }

  /** One more child: BuildList of the first i + 1 children from BuildList
      of the first i. */
  lemma BuildListStep(t: ParseTree, cs: seq<ParseTree>, i: nat, fmt: Format)
    requires forall j :: 0 <= j < |cs| ==> cs[j] in t.children
    requires i < |cs| && BuildList(t, cs[..i], fmt).Ok?
    ensures Build(cs[i], fmt).Err? ==> BuildList(t, cs[..i + 1], fmt) == Err(Build(cs[i], fmt).error)
    ensures Build(cs[i], fmt).Ok? ==>
              BuildList(t, cs[..i + 1], fmt) == Ok(BuildList(t, cs[..i], fmt).value + [Build(cs[i], fmt).value])
  {
    assert cs[..i + 1][..i] == cs[..i];
  }

  lemma LeftChainSnoc(op: Op, xs: seq<Term>, x: Term)
    requires |xs| > 0
    ensures LeftChain(op, xs + [x]) == BinOp(op, LeftChain(op, xs), x)
  {
    assert (xs + [x])[..|xs|] == xs;
  }

  /** The children are built left to right and the first failure wins. */
  lemma {:induction false} BuildListFirstError(t: ParseTree, cs: seq<ParseTree>, fmt: Format)
    requires forall i :: 0 <= i < |cs| ==> cs[i] in t.children
    requires BuildList(t, cs, fmt).Err?
    ensures exists i :: 0 <= i < |cs| && Build(cs[i], fmt) == Err(BuildList(t, cs, fmt).error)
                        && forall j :: 0 <= j < i ==> Build(cs[j], fmt).Ok?
  {
    var init := cs[..|cs| - 1];
    if BuildList(t, init, fmt).Err? {
      BuildListFirstError(t, init, fmt);
      var i :| 0 <= i < |init| && Build(init[i], fmt) == Err(BuildList(t, init, fmt).error)
               && forall j :: 0 <= j < i ==> Build(init[j], fmt).Ok?;
      assert cs[i] == init[i];
      assert forall j :: 0 <= j < i ==> cs[j] == init[j];
    } else {
      assert forall j :: 0 <= j < |cs| - 1 ==> cs[j] == init[j];
    }
  }

  /** The symbol whose children a SUM or a PRODUCT chains, and the
      operator it chains them with. */
  function OperandSym(s: Sym): Sym
  {
    if s == SUM then PRODUCT else PRIMITIVE
  }

  function ChainOp(s: Sym): Op
  {
    if s == SUM then Plus else Times
  }

  /** A SUM with product children p1..pn builds to ((p1+p2)+...)+pn and a
      PRODUCT with primitive children to ((p1*p2)*...)*pn: the result has
      exactly n operands along its left spine, the i-th being what the i-th
      child builds to, so a single child is returned unchanged. With no such
      child, or with a child that fails, the node fails. */
  lemma ChainBuild(t: ParseTree, fmt: Format)
    requires t.name == SUM || t.name == PRODUCT
    ensures var cs := ChildrenByName(t, OperandSym(t.name));
            (|cs| == 0 ==> Build(t, fmt) == Err(if t.name == SUM then EmptySum else EmptyProduct))
            && (Build(t, fmt).Ok? <==> |cs| > 0 && forall i :: 0 <= i < |cs| ==> Build(cs[i], fmt).Ok?)
            && (Build(t, fmt).Ok? ==>
                  var ops := Unchain(ChainOp(t.name), Build(t, fmt).value, |cs|);
                  |ops| == |cs| && forall i :: 0 <= i < |cs| ==> Build(cs[i], fmt) == Ok(ops[i]))
  {
    var cs := ChildrenByName(t, OperandSym(t.name));
    if BuildList(t, cs, fmt).Err? {
      BuildListFirstError(t, cs, fmt);
    } else if |cs| > 0 {
      UnchainLeftChain(ChainOp(t.name), BuildList(t, cs, fmt).value);
    }
  }

  // ---------------------------------------------------------------------
  // Trees the grammar produces.

  /** Every child of `t` is named `n` or is whitespace. */
  predicate OnlyChildren(t: ParseTree, n: Sym)
  {
    forall i :: 0 <= i < |t.children| ==> t.children[i].name in {n, WHITESPACE}
  }

  /** The parse trees of the grammar root ::= sum, sum ::= product ('+'
      product)*, product ::= primitive ('*' primitive)*, primitive ::=
      number | variable | '(' sum ')', with whitespace children anywhere,
      letter-only variable names and number tokens that are number texts. */
  predicate Shaped(t: ParseTree)
    decreases t
  {
    match t.name
    case NUMBER => |t.children| == 0 && IsNumberText(t.contents)
    case VARIABLE => |t.children| == 0 && IsName(t.contents)
    case PRIMITIVE =>
      var nums, vars, sums := ChildrenByName(t, NUMBER), ChildrenByName(t, VARIABLE), ChildrenByName(t, SUM);
      |nums| + |vars| + |sums| == 1
      && (forall i :: 0 <= i < |t.children| ==> t.children[i].name in {NUMBER, VARIABLE, SUM, WHITESPACE})
      && (if |nums| == 1 then assert nums[0] in t.children; Shaped(nums[0])
          else if |vars| == 1 then assert vars[0] in t.children; Shaped(vars[0])
          else assert sums[0] in t.children; Shaped(sums[0]))
    case SUM =>
      var ps := ChildrenByName(t, PRODUCT);
      |ps| > 0 && OnlyChildren(t, PRODUCT) && forall i :: 0 <= i < |ps| ==> assert ps[i] in t.children; Shaped(ps[i])
    case PRODUCT =>
      var ps := ChildrenByName(t, PRIMITIVE);
      |ps| > 0 && OnlyChildren(t, PRIMITIVE) && forall i :: 0 <= i < |ps| ==> assert ps[i] in t.children; Shaped(ps[i])
    case ROOT =>
      var sums := ChildrenByName(t, SUM);
      |sums| == 1 && OnlyChildren(t, SUM) && assert sums[0] in t.children; Shaped(sums[0])
    case WHITESPACE => false
  }

  /** Every tree the grammar produces builds without error, into a tree
      whose variable names are letter strings. */
  lemma {:induction false} BuildShaped(t: ParseTree, fmt: Format)
    requires Shaped(t)
    ensures Build(t, fmt).Ok? && NamesOk(Build(t, fmt).value)
    decreases t, 1
  {
    match t.name
    case NUMBER =>
    case VARIABLE =>
    case PRIMITIVE =>
      var nums, vars, sums := ChildrenByName(t, NUMBER), ChildrenByName(t, VARIABLE), ChildrenByName(t, SUM);
      if |nums| > 0 {
        assert nums[0] in t.children;
        BuildShaped(nums[0], fmt);
      } else if |vars| > 0 {
        assert vars[0] in t.children;
        BuildShaped(vars[0], fmt);
      } else {
        assert sums[0] in t.children;
        BuildShaped(sums[0], fmt);
      }
    case SUM =>
      BuildListShaped(t, ChildrenByName(t, PRODUCT), fmt);
      LeftChainNames(Plus, BuildList(t, ChildrenByName(t, PRODUCT), fmt).value);
    case PRODUCT =>
      BuildListShaped(t, ChildrenByName(t, PRIMITIVE), fmt);
      LeftChainNames(Times, BuildList(t, ChildrenByName(t, PRIMITIVE), fmt).value);
    case ROOT =>
      var sums := ChildrenByName(t, SUM);
      assert sums[0] in t.children;
      BuildShaped(sums[0], fmt);
  }

  lemma {:induction false} BuildListShaped(t: ParseTree, cs: seq<ParseTree>, fmt: Format)
    requires forall i :: 0 <= i < |cs| ==> cs[i] in t.children && Shaped(cs[i])
    ensures BuildList(t, cs, fmt).Ok?
    ensures forall i :: 0 <= i < |cs| ==> NamesOk(BuildList(t, cs, fmt).value[i])
    decreases t, 0, |cs|
  {
    if |cs| > 0 {
      BuildListShaped(t, cs[..|cs| - 1], fmt);
      BuildShaped(cs[|cs| - 1], fmt);
    }
  }

  lemma {:induction false} LeftChainNames(op: Op, xs: seq<Term>)
    requires |xs| > 0 && forall i :: 0 <= i < |xs| ==> NamesOk(xs[i])
    ensures NamesOk(LeftChain(op, xs))
  {
    if |xs| > 1 {
      LeftChainNames(op, xs[..|xs| - 1]);
    }
  }

  // ---------------------------------------------------------------------
  // buildAST on objects, and parse.

  /** buildAST, allocating a new Variable for every VARIABLE token; the
      SUM and PRODUCT cases are the loops of buildAST's SUM and PRODUCT cases. */
  method BuildAST(t: ParseTree, fmt: Format) returns (r: Result<Expr, BuildError>)
    ensures r.Ok? <==> Build(t, fmt).Ok?
    ensures r.Err? ==> Build(t, fmt) == Err(r.error)
    ensures r.Ok? ==> Build(t, fmt) == Ok(Erase(r.value)) && fresh(Cells(r.value)) && Unset(r.value)
    decreases t, 2
  {
    match t.name
    case NUMBER =>
      r := Ok(Lit(fmt.read(t.contents)));
    case VARIABLE =>
      var x := new Variable(t.contents);
      r := Ok(Ref(x));
    case PRIMITIVE =>
      var nums, vars, sums := ChildrenByName(t, NUMBER), ChildrenByName(t, VARIABLE), ChildrenByName(t, SUM);
      if |nums| > 0 {
        assert nums[0] in t.children;
        r := BuildAST(nums[0], fmt);
      } else if |vars| > 0 {
        assert vars[0] in t.children;
        r := BuildAST(vars[0], fmt);
      } else if |sums| > 0 {
        assert sums[0] in t.children;
        r := BuildAST(sums[0], fmt);
      } else {
        r := Err(NoPrimitiveChild);
      }
    case SUM =>
      r := BuildChain(t, Plus, ChildrenByName(t, PRODUCT), EmptySum, fmt);
    case PRODUCT =>
      r := BuildChain(t, Times, ChildrenByName(t, PRIMITIVE), EmptyProduct, fmt);
    case ROOT =>
      var sums := ChildrenByName(t, SUM);
      if |sums| > 0 {
        assert sums[0] in t.children;
        r := BuildAST(sums[0], fmt);
      } else {
        r := Err(RootWithoutSum);
      }
    case WHITESPACE =>
      r := Err(Whitespace);
  }

  /** The loop over the children of a SUM or a PRODUCT: the first child's
      tree, then a new node joining the tree so far with the next child's. */
  method BuildChain(t: ParseTree, op: Op, cs: seq<ParseTree>, empty: BuildError, fmt: Format)
    returns (r: Result<Expr, BuildError>)
    requires forall i :: 0 <= i < |cs| ==> cs[i] in t.children
    ensures r.Ok? <==> Fold(t, op, cs, empty, fmt).Ok?
    ensures r.Err? ==> Fold(t, op, cs, empty, fmt) == Err(r.error)
    ensures r.Ok? ==> Fold(t, op, cs, empty, fmt) == Ok(Erase(r.value)) && fresh(Cells(r.value)) && Unset(r.value)
    decreases t, 1
  {
    var result: Option<Expr> := None;
    ghost var xs: seq<Term> := [];
    var i := 0;
    while i < |cs|
      invariant 0 <= i <= |cs|
      invariant BuildList(t, cs[..i], fmt) == Ok(xs)
      invariant result.None? <==> i == 0
      invariant result.Some? ==>
                  |xs| > 0 && LeftChain(op, xs) == Erase(result.value)
                  && fresh(Cells(result.value)) && Unset(result.value)
    {
      var next := ChainStep(t, op, cs, i, result, xs, empty, fmt);
      if next.Err? {
        return Err(next.error);
      }
      xs := BuildList(t, cs[..i + 1], fmt).value;
      result := Some(next.value);
      i := i + 1;
    }
    assert cs[..i] == cs;
    FoldOk(t, op, cs, xs, empty, fmt);
    if result.None? {
      return Err(empty);
    }
    return Ok(result.value);
  }

  /** One iteration of the loop: build child i and join it to the tree so
      far. */
  method ChainStep(t: ParseTree, op: Op, cs: seq<ParseTree>, i: nat, acc: Option<Expr>, ghost xs: seq<Term>,
                   empty: BuildError, fmt: Format)
    returns (r: Result<Expr, BuildError>)
    requires forall j :: 0 <= j < |cs| ==> cs[j] in t.children
    requires i < |cs| && BuildList(t, cs[..i], fmt) == Ok(xs)
    requires acc.None? <==> i == 0
    requires acc.Some? ==> |xs| > 0 && LeftChain(op, xs) == Erase(acc.value) && Unset(acc.value)
    ensures r.Err? ==> Fold(t, op, cs, empty, fmt) == Err(r.error)
    ensures r.Ok? ==> BuildList(t, cs[..i + 1], fmt).Ok?
                      && LeftChain(op, BuildList(t, cs[..i + 1], fmt).value) == Erase(r.value)
                      && Unset(r.value)
    ensures r.Ok? ==> forall x :: x in Cells(r.value) ==> fresh(x) || (acc.Some? && x in Cells(acc.value))
    decreases t, 0
  {
    if acc.Some? {
      CellsAllocated(acc.value);
    }
    var c := BuildAST(cs[i], fmt);
    if c.Err? {
      FoldFails(t, op, cs, i, empty, fmt);
      return Err(c.error);
    }
    BuildListStep(t, cs, i, fmt);
    if acc.None? {
      return Ok(c.value);
    }
    LeftChainSnoc(op, xs, Erase(c.value));
    UnsetBin(op, acc.value, c.value);
    return Ok(Bin(op, acc.value, c.value));
  }

  /** The node when all its children build: the empty-node error, or the
      left chain of their trees. */
  lemma FoldOk(t: ParseTree, op: Op, cs: seq<ParseTree>, xs: seq<Term>, empty: BuildError, fmt: Format)
    requires forall j :: 0 <= j < |cs| ==> cs[j] in t.children
    requires BuildList(t, cs, fmt) == Ok(xs)
    ensures |xs| == 0 ==> Fold(t, op, cs, empty, fmt) == Err(empty)
    ensures |xs| > 0 ==> Fold(t, op, cs, empty, fmt) == Ok(LeftChain(op, xs))
  {
  }

  /** The loop's early exit: when the first i children build and child i
      fails, the whole node fails with child i's error. */
  lemma FoldFails(t: ParseTree, op: Op, cs: seq<ParseTree>, i: nat, empty: BuildError, fmt: Format)
    requires forall j :: 0 <= j < |cs| ==> cs[j] in t.children
    requires i < |cs| && BuildList(t, cs[..i], fmt).Ok? && Build(cs[i], fmt).Err?
    ensures Fold(t, op, cs, empty, fmt) == Err(Build(cs[i], fmt).error)
  {
    BuildListStep(t, cs, i, fmt);
    BuildListPrefixErr(t, cs, i + 1, fmt);
  }

  /** What parse reports: the parser's failure as IllegalArgumentException,
      or a runtime exception of buildAST, which is not an
      IllegalArgumentException. */
  datatype ParseError = IllegalArgument | Internal(error: BuildError)

  /** parse(input), with the parser the grammar compiles to given as
      `parser` (None when it throws UnableToParseException). */
  function Parse(input: string, parser: string -> Option<ParseTree>, fmt: Format): (r: Result<Term, ParseError>)
    ensures r == Err(IllegalArgument) <==> parser(input).None?
    ensures r.Ok? || r.error.IllegalArgument? || Build(parser(input).value, fmt).Err?
  {
    match parser(input)
    case None => Err(IllegalArgument)
    case Some(tree) =>
      match Build(tree, fmt)
      case Err(e) => Err(Internal(e))
      case Ok(t) => Ok(t)
  }

  /** Whatever the parser returns by the grammar, parse succeeds with a tree
      of letter names. */
  lemma ParseShaped(input: string, parser: string -> Option<ParseTree>, fmt: Format)
    requires parser(input).Some? && Shaped(parser(input).value)
    ensures Parse(input, parser, fmt).Ok? && NamesOk(Parse(input, parser, fmt).value)
  {
    BuildShaped(parser(input).value, fmt);
  }

  /** parse on objects: the tree of new objects buildAST makes. */
  method ParseAST(input: string, parser: string -> Option<ParseTree>, fmt: Format) returns (r: Result<Expr, ParseError>)
    ensures r.Ok? <==> Parse(input, parser, fmt).Ok?
    ensures r.Err? ==> Parse(input, parser, fmt) == Err(r.error)
    ensures r.Ok? ==> Parse(input, parser, fmt) == Ok(Erase(r.value)) && fresh(Cells(r.value)) && Unset(r.value)
  {
    match parser(input)
    case None =>
      r := Err(IllegalArgument);
    case Some(tree) =>
      var b := BuildAST(tree, fmt);
      match b
      case Err(e) => r := Err(Internal(e));
      case Ok(e) => r := Ok(e);
  }

  // ---------------------------------------------------------------------
  // toString does not read back.

  /** A PRIMITIVE holding a single variable token. */
  function VarPrimitive(n: string): ParseTree
  {
    Node(PRIMITIVE, n, [Node(VARIABLE, n, [])])
  }

  /** The parse tree of "a*(b*c)" for variable names a, b, c: a product
      whose second factor is a parenthesised sum of one product. */
  function NestedProduct(a: string, b: string, c: string): ParseTree
  {
    var text := NestedText(a, b, c);
    Node(ROOT, text, [Node(SUM, text, [Node(PRODUCT, text, [VarPrimitive(a), Paren(b, c)])])])
  }

  function NestedText(a: string, b: string, c: string): string
  {
    a + "*(" + b + "*" + c + ")"
  }

  /** "(b*c)" as a primitive. */
  function Paren(b: string, c: string): ParseTree
  {
    Node(PRIMITIVE, "(" + b + "*" + c + ")",
      [Node(SUM, b + "*" + c, [Node(PRODUCT, b + "*" + c, [VarPrimitive(b), VarPrimitive(c)])])])
  }

  /** The parse tree of "a*b*c": one product of three factors. */
  function FlatProduct(a: string, b: string, c: string): ParseTree
  {
    Node(ROOT, a + "*" + b + "*" + c,
      [Node(SUM, a + "*" + b + "*" + c,
        [Node(PRODUCT, a + "*" + b + "*" + c, [VarPrimitive(a), VarPrimitive(b), VarPrimitive(c)])])])
  }

  lemma {:induction false} KeepAll(cs: seq<ParseTree>, n: Sym)
    requires forall i :: 0 <= i < |cs| ==> cs[i].name == n
    ensures Keep(cs, n) == cs
  {
    if |cs| > 0 {
      KeepAll(cs[1..], n);
    }
  }

  lemma {:induction false} KeepNone(cs: seq<ParseTree>, n: Sym)
    requires forall i :: 0 <= i < |cs| ==> cs[i].name != n
    ensures Keep(cs, n) == []
  {
    if |cs| > 0 {
      KeepNone(cs[1..], n);
    }
  }

  /** Children that all build make a list of their trees, in order. */
  lemma {:induction false} BuildListAllOk(t: ParseTree, cs: seq<ParseTree>, xs: seq<Term>, fmt: Format)
    requires forall i :: 0 <= i < |cs| ==> cs[i] in t.children
    requires |xs| == |cs| && forall i :: 0 <= i < |cs| ==> Build(cs[i], fmt) == Ok(xs[i])
    ensures BuildList(t, cs, fmt) == Ok(xs)
  {
    if |cs| > 0 {
      BuildListAllOk(t, cs[..|cs| - 1], xs[..|xs| - 1], fmt);
      assert xs[..|xs| - 1] + [xs[|xs| - 1]] == xs;
    }
  }

  lemma VarPrimitiveBuilds(n: string, fmt: Format)
    requires IsName(n)
    ensures Shaped(VarPrimitive(n)) && Build(VarPrimitive(n), fmt) == Ok(Var(n))
  {
    var p := VarPrimitive(n);
    KeepNone(p.children, NUMBER);
    KeepNone(p.children, SUM);
    KeepAll(p.children, VARIABLE);
  }

  /** A PRODUCT of primitives that build to `xs` builds to their left
      chain. */
  lemma ProductBuilds(text: string, ps: seq<ParseTree>, xs: seq<Term>, fmt: Format)
    requires |ps| > 0 && |xs| == |ps|
    requires forall i :: 0 <= i < |ps| ==> ps[i].name == PRIMITIVE && Shaped(ps[i]) && Build(ps[i], fmt) == Ok(xs[i])
    ensures Shaped(Node(PRODUCT, text, ps)) && Build(Node(PRODUCT, text, ps), fmt) == Ok(LeftChain(Times, xs))
  {
    var p := Node(PRODUCT, text, ps);
    KeepAll(ps, PRIMITIVE);
    assert ChildrenByName(p, PRIMITIVE) == ps;
    assert Shaped(p) by {
      assert OnlyChildren(p, PRIMITIVE);
    }
    BuildListAllOk(p, ps, xs, fmt);
    assert Build(p, fmt) == Fold(p, Times, ps, EmptyProduct, fmt);
  }

  /** A SUM of a single PRODUCT builds to what that PRODUCT builds to. */
  lemma SumOfOneBuilds(text: string, p: ParseTree, fmt: Format)
    requires p.name == PRODUCT && Shaped(p) && Build(p, fmt).Ok?
    ensures Shaped(Node(SUM, text, [p])) && Build(Node(SUM, text, [p]), fmt) == Build(p, fmt)
  {
    var s := Node(SUM, text, [p]);
    KeepAll(s.children, PRODUCT);
    assert ChildrenByName(s, PRODUCT) == [p];
    BuildListAllOk(s, [p], [Build(p, fmt).value], fmt);
  }

  /** A ROOT over a single SUM builds to what that SUM builds to. */
  lemma RootOfOneBuilds(text: string, s: ParseTree, fmt: Format)
    requires s.name == SUM && Shaped(s)
    ensures Shaped(Node(ROOT, text, [s])) && Build(Node(ROOT, text, [s]), fmt) == Build(s, fmt)
  {
    var r := Node(ROOT, text, [s]);
    KeepAll(r.children, SUM);
    assert ChildrenByName(r, SUM) == [s];
  }

  /** A PRIMITIVE over a single SUM, "(" sum ")", builds to what that SUM
      builds to. */
  lemma PrimitiveOfSumBuilds(text: string, s: ParseTree, fmt: Format)
    requires s.name == SUM && Shaped(s)
    ensures Shaped(Node(PRIMITIVE, text, [s])) && Build(Node(PRIMITIVE, text, [s]), fmt) == Build(s, fmt)
  {
    var p := Node(PRIMITIVE, text, [s]);
    KeepNone(p.children, NUMBER);
    KeepNone(p.children, VARIABLE);
    KeepAll(p.children, SUM);
    assert ChildrenByName(p, SUM) == [s];
  }

  lemma LeftChainPair(op: Op, a: Term, b: Term)
    ensures LeftChain(op, [a, b]) == BinOp(op, a, b)
  {
    assert [a, b][..1] == [a];
  }

  lemma ParenBuilds(b: string, c: string, fmt: Format)
    requires IsName(b) && IsName(c)
    ensures Shaped(Paren(b, c)) && Build(Paren(b, c), fmt) == Ok(BinOp(Times, Var(b), Var(c)))
  {
    var pb, pc := VarPrimitive(b), VarPrimitive(c);
    var text := b + "*" + c;
    VarPrimitiveBuilds(b, fmt);
    VarPrimitiveBuilds(c, fmt);
    LeftChainPair(Times, Var(b), Var(c));
    var prod := Node(PRODUCT, text, [pb, pc]);
    ProductBuilds(text, [pb, pc], [Var(b), Var(c)], fmt);
    SumOfOneBuilds(text, prod, fmt);
    PrimitiveOfSumBuilds("(" + b + "*" + c + ")", Node(SUM, text, [prod]), fmt);
  }

  lemma NestedProductBuilds(a: string, b: string, c: string, fmt: Format)
    requires IsName(a) && IsName(b) && IsName(c)
    ensures Shaped(NestedProduct(a, b, c))
    ensures Build(NestedProduct(a, b, c), fmt) == Ok(BinOp(Times, Var(a), BinOp(Times, Var(b), Var(c))))
  {
    var pa, bc := VarPrimitive(a), BinOp(Times, Var(b), Var(c));
    var text := NestedText(a, b, c);
    VarPrimitiveBuilds(a, fmt);
    ParenBuilds(b, c, fmt);
    LeftChainPair(Times, Var(a), bc);
    var prod := Node(PRODUCT, text, [pa, Paren(b, c)]);
    ProductBuilds(text, [pa, Paren(b, c)], [Var(a), bc], fmt);
    SumOfOneBuilds(text, prod, fmt);
    RootOfOneBuilds(text, Node(SUM, text, [prod]), fmt);
  }

  lemma FlatProductBuilds(a: string, b: string, c: string, fmt: Format)
    requires IsName(a) && IsName(b) && IsName(c)
    ensures Shaped(FlatProduct(a, b, c))
    ensures Build(FlatProduct(a, b, c), fmt) == Ok(BinOp(Times, BinOp(Times, Var(a), Var(b)), Var(c)))
  {
    var pa, pb, pc := VarPrimitive(a), VarPrimitive(b), VarPrimitive(c);
    var text := a + "*" + b + "*" + c;
    VarPrimitiveBuilds(a, fmt);
    VarPrimitiveBuilds(b, fmt);
    VarPrimitiveBuilds(c, fmt);
    var xs := [Var(a), Var(b), Var(c)];
    assert LeftChain(Times, xs) == BinOp(Times, BinOp(Times, Var(a), Var(b)), Var(c)) by {
      assert xs[..2] == [Var(a), Var(b)];
      assert xs[..2][..1] == [Var(a)];
      assert LeftChain(Times, xs[..2]) == BinOp(Times, Var(a), Var(b));
    }
    var prod := Node(PRODUCT, text, [pa, pb, pc]);
    ProductBuilds(text, [pa, pb, pc], xs, fmt);
    SumOfOneBuilds(text, prod, fmt);
    RootOfOneBuilds(text, Node(SUM, text, [prod]), fmt);
  }

  /** The right operand of a `*` node that buildAST returns can be a `*`
      node, and then toString does not read back: a*(b*c) is built as
      a*(b*c) and printed as "a*b*c", which parses to (a*b)*c, a tree with
      other contents, so not equal to it. */
  lemma ToStringRoundTripFails(a: string, b: string, c: string, parser: string -> Option<ParseTree>, fmt: Format)
    requires IsName(a) && IsName(b) && IsName(c)
    requires parser(a + "*" + b + "*" + c) == Some(FlatProduct(a, b, c))
    ensures Shaped(NestedProduct(a, b, c)) && Shaped(FlatProduct(a, b, c))
    ensures var e := BinOp(Times, Var(a), BinOp(Times, Var(b), Var(c)));
            Build(NestedProduct(a, b, c), fmt) == Ok(e) && !PrintSafe(e)
            && ToString(e, fmt) == a + "*" + b + "*" + c
            && Parse(ToString(e, fmt), parser, fmt).Ok?
            && !Equals(Parse(ToString(e, fmt), parser, fmt).value, e, fmt)
  {
    NestedProductBuilds(a, b, c, fmt);
    FlatProductBuilds(a, b, c, fmt);
    var e := BinOp(Times, Var(a), BinOp(Times, Var(b), Var(c)));
    var f := BinOp(Times, BinOp(Times, Var(a), Var(b)), Var(c));
    NestedToString(a, b, c, fmt);
    ContentsSecondChar(Times, Var(a), BinOp(Times, Var(b), Var(c)), fmt);
    ContentsSecondChar(Times, BinOp(Times, Var(a), Var(b)), Var(c), fmt);
    assert Contents(e, fmt)[1] == a[0];
    assert Contents(f, fmt)[1] == '(';
  }

  /** toString of a*(b*c) is "a*b*c". */
  lemma NestedToString(a: string, b: string, c: string, fmt: Format)
    ensures ToString(BinOp(Times, Var(a), BinOp(Times, Var(b), Var(c))), fmt) == a + "*" + b + "*" + c
  {
    assert ToString(BinOp(Times, Var(b), Var(c)), fmt) == b + "*" + c;
    assert a + "*" + (b + "*" + c) == a + "*" + b + "*" + c;
  }

  /** The contents of a node start with '(' and then the contents of its
      left operand. */
  lemma ContentsSecondChar(op: Op, l: Term, r: Term, fmt: Format)
    requires |Contents(l, fmt)| > 0
    ensures |Contents(BinOp(op, l, r), fmt)| > 1 && Contents(BinOp(op, l, r), fmt)[1] == Contents(l, fmt)[0]
  {
    var cl := Contents(l, fmt);
    assert Contents(BinOp(op, l, r), fmt) == "(" + (cl + ([OpChar(op)] + Contents(r, fmt) + ")"));
  }

  /** The repaired printer reads back on the same tree: it prints
      "a*(b*c)", which parses to a*(b*c) again. */
  lemma PrintRoundTrip(a: string, b: string, c: string, parser: string -> Option<ParseTree>, fmt: Format)
    requires IsName(a) && IsName(b) && IsName(c)
    requires parser(NestedText(a, b, c)) == Some(NestedProduct(a, b, c))
    ensures var e := BinOp(Times, Var(a), BinOp(Times, Var(b), Var(c)));
            Print(e, fmt) == NestedText(a, b, c) && Parse(Print(e, fmt), parser, fmt) == Ok(e)
  {
    NestedProductBuilds(a, b, c, fmt);
    var bc := BinOp(Times, Var(b), Var(c));
    var e := BinOp(Times, Var(a), bc);
    assert Factor(Var(c), fmt) == c;
    assert Print(bc, fmt) == b + "*" + c;
    assert Factor(bc, fmt) == "(" + b + "*" + c + ")";
    assert Print(e, fmt) == a + "*" + ("(" + b + "*" + c + ")");
    assert a + "*" + ("(" + b + "*" + c + ")") == a + "*(" + b + "*" + c + ")";
  }
}
