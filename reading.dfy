/** Reading a printed expression back: the text a parse tree of the
    expression grammar spans, and the proof that every such tree of the
    repaired printer's text builds to the tree that was printed, while a
    tree of toString's text builds to the flattened tree. */
module Reading {
  import opened Wrappers
  import opened NumberText
  import opened Terms
  import opened Printing
  import opened Building

  /** The text a parse tree spans, whitespace left out: a token's own text,
      "(" sum ")" for a parenthesised primitive, and the operands of a sum
      or a product joined by the operator the grammar puts between them. */
  function Yield(t: ParseTree): string
    decreases t, 1
  {
    match t.name
    case NUMBER => t.contents
    case VARIABLE => t.contents
    case PRIMITIVE =>
      var nums, vars, sums := ChildrenByName(t, NUMBER), ChildrenByName(t, VARIABLE), ChildrenByName(t, SUM);
      if |nums| > 0 then assert nums[0] in t.children; Yield(nums[0])
      else if |vars| > 0 then assert vars[0] in t.children; Yield(vars[0])
      else if |sums| > 0 then assert sums[0] in t.children; "(" + Yield(sums[0]) + ")"
      else ""
    case SUM => YieldJoin(t, ChildrenByName(t, PRODUCT), '+')
    case PRODUCT => YieldJoin(t, ChildrenByName(t, PRIMITIVE), '*')
    case ROOT =>
      var sums := ChildrenByName(t, SUM);
      if |sums| > 0 then assert sums[0] in t.children; Yield(sums[0]) else ""
    case WHITESPACE => ""
  }

  /** The texts of the children `cs` joined by `sep`. */
  function YieldJoin(t: ParseTree, cs: seq<ParseTree>, sep: char): string
    requires forall i :: 0 <= i < |cs| ==> cs[i] in t.children
    decreases t, 0, |cs|
  {
    if |cs| == 0 then ""
    else if |cs| == 1 then assert cs[0] in t.children; Yield(cs[0])
    else assert cs[0] in t.children; Yield(cs[0]) + [sep] + YieldJoin(t, cs[1..], sep)
  }

  /** A parse tree the grammar gives for `input`: rooted at ROOT, shaped by
      the grammar's rules, and spanning exactly `input`. */
  ghost predicate Grammatical(t: ParseTree, input: string)
  {
    t.name == ROOT && Shaped(t) && Yield(t) == input
  }

  /** The parser accepts `input` and returns a parse tree of it. */
  ghost predicate ParsesByGrammar(parser: string -> Option<ParseTree>, input: string)
  {
    parser(input).Some? && Grammatical(parser(input).value, input)
  }

  /** `read` gives every value of `vs` back from its plain text. */
  ghost predicate ReadsBack(fmt: Format, vs: set<real>)
  {
    forall v :: v in vs ==> fmt.read(fmt.plain(v)) == v
  }

  /** A plain text that reads back tells its value apart from the others. */
  lemma ReadsBackInjective(fmt: Format, vs: set<real>)
    requires ReadsBack(fmt, vs)
    ensures InjectiveOn(fmt.plain, vs)
  {
  }

  /** The trees whose printed form reads back: letter names, and numbers
      among `vs`, whose plain text `read` turns into the number again. */
  ghost predicate Readable(t: Term, fmt: Format, vs: set<real>)
  {
    WellBehaved(fmt) && NamesOk(t) && Values(t) <= vs && ReadsBack(fmt, vs)
  }

  /** A string that may follow a complete sum: empty, or a closing
      parenthesis. */
  predicate AfterSum(s: string)
  {
    |s| == 0 || s[0] == ')'
  }

  /** The trees `xs` printed and joined by '+': the text between the
      parentheses of a printed sum, or a single printed tree. */
  function PlusJoin(xs: seq<Term>, fmt: Format): string
    requires |xs| > 0
  {
    if |xs| == 1 then Print(xs[0], fmt) else Print(xs[0], fmt) + "+" + PlusJoin(xs[1..], fmt)
  }

  /** What follows the first child in YieldJoin(t, cs, sep) + s. */
  function YieldRest(t: ParseTree, cs: seq<ParseTree>, sep: char, s: string): string
    requires |cs| > 0 && forall i :: 0 <= i < |cs| ==> cs[i] in t.children
  {
    if |cs| == 1 then s else [sep] + (YieldJoin(t, cs[1..], sep) + s)
  }

  /** What follows the first tree in PlusJoin(xs) + s. */
  function PlusRest(xs: seq<Term>, s: string, fmt: Format): string
    requires |xs| > 0
  {
    if |xs| == 1 then s else "+" + (PlusJoin(xs[1..], fmt) + s)
  }

  /** Regrouping a text joined by `c` and followed by `s`. */
  lemma SepSplit(a: string, c: char, j: string, s: string)
    ensures (a + [c] + j) + s == a + ([c] + (j + s))
    ensures ([c] + (j + s))[0] == c && ([c] + (j + s))[1..] == j + s
  {
  }

  lemma YieldHead(t: ParseTree, cs: seq<ParseTree>, sep: char, s: string)
    requires |cs| > 0 && forall i :: 0 <= i < |cs| ==> cs[i] in t.children
    ensures YieldJoin(t, cs, sep) + s == Yield(cs[0]) + YieldRest(t, cs, sep, s)
    ensures |cs| == 1 ==> YieldRest(t, cs, sep, s) == s
    ensures |cs| > 1 ==> |YieldRest(t, cs, sep, s)| > 0 && YieldRest(t, cs, sep, s)[0] == sep
                         && YieldRest(t, cs, sep, s)[1..] == YieldJoin(t, cs[1..], sep) + s
  {
    if |cs| > 1 {
      SepSplit(Yield(cs[0]), sep, YieldJoin(t, cs[1..], sep), s);
    }
  }

  lemma PlusHead(xs: seq<Term>, s: string, fmt: Format)
    requires |xs| > 0
    ensures PlusJoin(xs, fmt) + s == Print(xs[0], fmt) + PlusRest(xs, s, fmt)
    ensures |xs| == 1 ==> PlusRest(xs, s, fmt) == s
    ensures |xs| > 1 ==> |PlusRest(xs, s, fmt)| > 0 && PlusRest(xs, s, fmt)[0] == '+'
                         && PlusRest(xs, s, fmt)[1..] == PlusJoin(xs[1..], fmt) + s
  {
    if |xs| > 1 {
      SepSplit(Print(xs[0], fmt), '+', PlusJoin(xs[1..], fmt), s);
    }
  }

  /** A left chain of the factors of a tree is the tree. */
  lemma {:induction false} LeftChainFactors(x: Term)
    ensures LeftChain(Times, Factors(x)) == x
  {
    if IsProduct(x) {
      LeftChainFactors(x.left);
      LeftChainSnoc(Times, Factors(x.left), x.right);
    }
  }

  /** The trees printed between the parentheses of a printed factor that is
      a node: the product itself, or the two operands of a sum. */
  function Inside(f: Term): (xs: seq<Term>)
    requires f.BinOp?
    ensures 0 < |xs| <= 2
    ensures forall i :: 0 <= i < |xs| ==> Values(xs[i]) <= Values(f) && (NamesOk(f) ==> NamesOk(xs[i]))
  {
    if IsProduct(f) then [f] else [f.left, f.right]
  }

  lemma InsideText(f: Term, s: string, fmt: Format)
    requires f.BinOp?
    ensures Factor(f, fmt) + s == "(" + (PlusJoin(Inside(f), fmt) + (")" + s))
    ensures LeftChain(Plus, Inside(f)) == f
  {
    if !IsProduct(f) {
      var pl, pr := Print(f.left, fmt), Print(f.right, fmt);
      assert PlusJoin(Inside(f), fmt) == pl + "+" + pr;
      assert "(" + pl + "+" + pr + ")" + s == "(" + ((pl + "+" + pr) + (")" + s));
      LeftChainPair(Plus, f.left, f.right);
    }
  }

  // ---------------------------------------------------------------------
  // Every parse tree of a printed text builds to the printed tree.
  // Each level reads its text followed by the rest of the input `s`, and
  // the printed text followed by `s2`; the rests start with a character
  // that ends that level, and come out equal.

  /** A token: the leaf text followed by a syntax character is the printed
      leaf, and it builds to that leaf. */
  lemma LeafReads(leaf: ParseTree, f: Term, s: string, s2: string, fmt: Format, vs: set<real>)
    requires (leaf.name == NUMBER || leaf.name == VARIABLE) && Shaped(leaf)
    requires Readable(f, fmt, vs) && AfterAtom(s) && AfterAtom(s2)
    requires leaf.contents + s == Factor(f, fmt) + s2
    ensures Build(leaf, fmt) == Ok(f) && s == s2
  {
    FactorHead(f, fmt);
    var w := leaf.contents;
    assert IsAtomText(w);
    assert (w + s)[0] == w[0] && (Factor(f, fmt) + s2)[0] == Factor(f, fmt)[0];
    AtomSplit(w, s, Factor(f, fmt), s2);
    if f.Num? {
      assert f.value in vs;
    }
  }

  lemma {:induction false} PrimitiveReads(p: ParseTree, f: Term, s: string, s2: string, fmt: Format, vs: set<real>)
    requires p.name == PRIMITIVE && Shaped(p) && Readable(f, fmt, vs)
    requires AfterAtom(s) && AfterAtom(s2)
    requires Yield(p) + s == Factor(f, fmt) + s2
    ensures Build(p, fmt) == Ok(f) && s == s2
    decreases p, 1
  {
    var nums, vars, sums := ChildrenByName(p, NUMBER), ChildrenByName(p, VARIABLE), ChildrenByName(p, SUM);
    if |nums| > 0 {
      assert nums[0] in nums;
      LeafReads(nums[0], f, s, s2, fmt, vs);
    } else if |vars| > 0 {
      assert vars[0] in vars;
      LeafReads(vars[0], f, s, s2, fmt, vs);
    } else {
      assert sums[0] in sums;
      ParenReads(p, sums[0], f, s, s2, fmt, vs);
    }
  }

  /** A parenthesised primitive: its sum reads the printed node inside the
      parentheses. */
  lemma {:induction false} ParenReads(p: ParseTree, sum: ParseTree, f: Term, s: string, s2: string, fmt: Format, vs: set<real>)
    requires p.name == PRIMITIVE && Shaped(p) && Readable(f, fmt, vs)
    requires |ChildrenByName(p, NUMBER)| == 0 && |ChildrenByName(p, VARIABLE)| == 0
    requires |ChildrenByName(p, SUM)| > 0 && sum == ChildrenByName(p, SUM)[0]
    requires AfterAtom(s2)
    requires Yield(p) + s == Factor(f, fmt) + s2
    ensures Build(p, fmt) == Ok(f) && s == s2
    decreases p, 0
  {
    assert sum in ChildrenByName(p, SUM);
    var y := Yield(sum);
    assert Yield(p) == "(" + y + ")";
    var text := "(" + (y + (")" + s));
    assert Yield(p) + s == text;
    FactorHead(f, fmt);
    assert (Factor(f, fmt) + s2)[0] == Factor(f, fmt)[0];
    assert f.BinOp?;
    InsideText(f, s2, fmt);
    var xs := Inside(f);
    var prods := ChildrenByName(sum, PRODUCT);
    assert text[1..] == y + (")" + s);
    assert y + (")" + s) == PlusJoin(xs, fmt) + (")" + s2);
    SumListReads(sum, prods, xs, ")" + s, ")" + s2, fmt, vs);
    assert s == (")" + s)[1..];
    BuildListAllOk(sum, prods, xs, fmt);
    assert Build(sum, fmt) == Fold(sum, Plus, prods, EmptySum, fmt);
  }

  /** The children `cs` build, in order, to the trees `xs`. */
  predicate BuildsTo(cs: seq<ParseTree>, xs: seq<Term>, fmt: Format)
  {
    |cs| == |xs| && forall i :: 0 <= i < |cs| ==> Build(cs[i], fmt) == Ok(xs[i])
  }

  lemma BuildsToCons(cs: seq<ParseTree>, xs: seq<Term>, fmt: Format)
    requires |cs| > 0 && |xs| > 0 && Build(cs[0], fmt) == Ok(xs[0])
    requires |cs| == 1 ==> |xs| == 1
    requires |cs| > 1 ==> BuildsTo(cs[1..], xs[1..], fmt)
    ensures BuildsTo(cs, xs, fmt)
  {
    if |cs| > 1 {
      assert forall i :: 1 <= i < |cs| ==> cs[i] == cs[1..][i - 1] && xs[i] == xs[1..][i - 1];
    }
  }

  /** The products of a sum read the printed trees `xs` joined by '+'. */
  lemma {:induction false} SumListReads(t: ParseTree, cs: seq<ParseTree>, xs: seq<Term>, s: string, s2: string,
                                        fmt: Format, vs: set<real>)
    requires |cs| > 0 && |xs| > 0
    requires forall i :: 0 <= i < |cs| ==> cs[i] in t.children && cs[i].name == PRODUCT && Shaped(cs[i])
    requires forall i :: 0 <= i < |xs| ==> Readable(xs[i], fmt, vs)
    requires AfterSum(s) && AfterSum(s2)
    requires YieldJoin(t, cs, '+') + s == PlusJoin(xs, fmt) + s2
    ensures BuildsTo(cs, xs, fmt) && s == s2
    decreases t, 0, |cs|
  {
    SumRests(t, cs, xs, s, s2, fmt);
    ProductReads(cs[0], xs[0], YieldRest(t, cs, '+', s), PlusRest(xs, s2, fmt), fmt, vs);
    if |cs| > 1 {
      SumListReads(t, cs[1..], xs[1..], s, s2, fmt, vs);
    }
    BuildsToCons(cs, xs, fmt);
  }

  /** The first product of a sum and the first printed tree, each followed
      by what comes after it. */
  lemma SumRests(t: ParseTree, cs: seq<ParseTree>, xs: seq<Term>, s: string, s2: string, fmt: Format)
    requires |cs| > 0 && |xs| > 0 && forall i :: 0 <= i < |cs| ==> cs[i] in t.children
    requires AfterSum(s) && AfterSum(s2)
    requires YieldJoin(t, cs, '+') + s == PlusJoin(xs, fmt) + s2
    ensures var r, r2 := YieldRest(t, cs, '+', s), PlusRest(xs, s2, fmt);
            Yield(cs[0]) + r == Print(xs[0], fmt) + r2 && AfterTree(r) && AfterTree(r2)
            && (r == r2 ==> (|cs| > 1 <==> |xs| > 1) && (|cs| == 1 ==> s == s2)
                            && (|cs| > 1 ==> YieldJoin(t, cs[1..], '+') + s == PlusJoin(xs[1..], fmt) + s2))
  {
    YieldHead(t, cs, '+', s);
    PlusHead(xs, s2, fmt);
  }

  /** The first primitive of a product and the first printed factor, each
      followed by what comes after it. */
  lemma FactorRests(t: ParseTree, cs: seq<ParseTree>, fs: seq<Term>, s: string, s2: string, fmt: Format)
    requires |cs| > 0 && |fs| > 0 && forall i :: 0 <= i < |cs| ==> cs[i] in t.children
    requires AfterTree(s) && AfterTree(s2)
    requires YieldJoin(t, cs, '*') + s == Join(fs, fmt) + s2
    ensures var r, r2 := YieldRest(t, cs, '*', s), JoinRest(fs, s2, fmt);
            Yield(cs[0]) + r == Factor(fs[0], fmt) + r2 && AfterAtom(r) && AfterAtom(r2)
            && (r == r2 ==> (|cs| > 1 <==> |fs| > 1) && (|cs| == 1 ==> s == s2)
                            && (|cs| > 1 ==> YieldJoin(t, cs[1..], '*') + s == Join(fs[1..], fmt) + s2))
  {
    YieldHead(t, cs, '*', s);
    JoinHead(fs, s2, fmt);
  }

  /** A product reads a printed tree: its primitives read the tree's
      factors, and their left chain is the tree. */
  lemma {:induction false} ProductReads(p: ParseTree, x: Term, s: string, s2: string, fmt: Format, vs: set<real>)
    requires p.name == PRODUCT && Shaped(p) && Readable(x, fmt, vs)
    requires AfterTree(s) && AfterTree(s2)
    requires Yield(p) + s == Print(x, fmt) + s2
    ensures Build(p, fmt) == Ok(x) && s == s2
    decreases p, 1
  {
    var ps := ChildrenByName(p, PRIMITIVE);
    var fs := Factors(x);
    PrintIsJoin(x, fmt);
    assert forall i :: 0 <= i < |ps| ==> ps[i] in ps;
    FactorListReads(p, ps, fs, s, s2, fmt, vs);
    BuildListAllOk(p, ps, fs, fmt);
    LeftChainFactors(x);
    assert Build(p, fmt) == Fold(p, Times, ps, EmptyProduct, fmt);
  }

  /** The primitives of a product read the printed factors `fs` joined by
      '*'. */
  lemma {:induction false} FactorListReads(t: ParseTree, cs: seq<ParseTree>, fs: seq<Term>, s: string, s2: string,
                                           fmt: Format, vs: set<real>)
    requires |cs| > 0 && |fs| > 0
    requires forall i :: 0 <= i < |cs| ==> cs[i] in t.children && cs[i].name == PRIMITIVE && Shaped(cs[i])
    requires forall i :: 0 <= i < |fs| ==> Readable(fs[i], fmt, vs)
    requires AfterTree(s) && AfterTree(s2)
    requires YieldJoin(t, cs, '*') + s == Join(fs, fmt) + s2
    ensures BuildsTo(cs, fs, fmt) && s == s2
    decreases t, 0, |cs|
  {
    FactorRests(t, cs, fs, s, s2, fmt);
    PrimitiveReads(cs[0], fs[0], YieldRest(t, cs, '*', s), JoinRest(fs, s2, fmt), fmt, vs);
    if |cs| > 1 {
      FactorListReads(t, cs[1..], fs[1..], s, s2, fmt, vs);
    }
    BuildsToCons(cs, fs, fmt);
  }

  /** The core of the round trip: every parse tree the grammar gives for the
      repaired printer's text of `e` builds to `e` itself. */
  lemma GrammaticalBuilds(t: ParseTree, e: Term, fmt: Format)
    requires WellBehaved(fmt) && NamesOk(e) && ReadsBack(fmt, Values(e))
    requires Grammatical(t, Print(e, fmt))
    ensures Build(t, fmt) == Ok(e)
  {
    RootSum(t, Print(e, fmt));
    var sum := ChildrenByName(t, SUM)[0];
    var prods := ChildrenByName(sum, PRODUCT);
    assert YieldJoin(sum, prods, '+') + "" == PlusJoin([e], fmt) + "";
    SumListReads(sum, prods, [e], "", "", fmt, Values(e));
    BuildListAllOk(sum, prods, [e], fmt);
    assert Build(sum, fmt) == Fold(sum, Plus, prods, EmptySum, fmt);
  }

  /** A grammatical tree is a root over one sum, whose products span the
      whole input. */
  lemma RootSum(t: ParseTree, input: string)
    requires Grammatical(t, input)
    ensures var sums := ChildrenByName(t, SUM);
            |sums| == 1 && sums[0].name == SUM && Shaped(sums[0])
            && (forall fmt :: Build(t, fmt) == Build(sums[0], fmt))
            && var prods := ChildrenByName(sums[0], PRODUCT);
               (forall i :: 0 <= i < |prods| ==> prods[i] in sums[0].children && prods[i].name == PRODUCT && Shaped(prods[i]))
               && |prods| > 0 && YieldJoin(sums[0], prods, '+') == input
  {
    var sums := ChildrenByName(t, SUM);
    var sum := sums[0];
    assert sum in sums;
    var prods := ChildrenByName(sum, PRODUCT);
    assert forall i :: 0 <= i < |prods| ==> prods[i] in prods;
    assert Yield(t) == Yield(sum) == YieldJoin(sum, prods, '+');
  }

  /** toString's promise, e.equals(parse(e.toString())), kept by the
      repaired printer: whatever parse tree the parser returns for the
      printed text, parse gives back the very tree that was printed. */
  lemma PrintReadsBack(e: Term, parser: string -> Option<ParseTree>, fmt: Format)
    requires WellBehaved(fmt) && NamesOk(e) && ReadsBack(fmt, Values(e))
    requires ParsesByGrammar(parser, Print(e, fmt))
    ensures Parse(Print(e, fmt), parser, fmt) == Ok(e)
    ensures Equals(Parse(Print(e, fmt), parser, fmt).value, e, fmt)
  {
    GrammaticalBuilds(parser(Print(e, fmt)).value, e, fmt);
  }

  /** toString as written reads back as the flattened tree, so the promise
      e.equals(parse(e.toString())) holds exactly for the trees in which no
      `*` node has a `*` node as its right operand. */
  lemma ToStringReadsBack(e: Term, parser: string -> Option<ParseTree>, fmt: Format)
    requires WellBehaved(fmt) && NamesOk(e) && ReadsBack(fmt, Values(e))
    requires ParsesByGrammar(parser, ToString(e, fmt))
    ensures Parse(ToString(e, fmt), parser, fmt) == Ok(Flatten(e))
    ensures InjectiveOn(fmt.show, Values(e)) ==>
              (Equals(Parse(ToString(e, fmt), parser, fmt).value, e, fmt) <==> PrintSafe(e))
  {
    FlattenPrints(e, fmt);
    FlattenFixed(e);
    PrintReadsBack(Flatten(e), parser, fmt);
    if InjectiveOn(fmt.show, Values(e)) {
      EqualsIsStructural(Flatten(e), e, fmt);
    }
  }

  // ---------------------------------------------------------------------
  // The hypothesis of the round trip is met: the parse tree of a*(b*c).

  lemma VarPrimitiveYield(n: string)
    ensures Yield(VarPrimitive(n)) == n
  {
    var p := VarPrimitive(n);
    KeepAll(p.children, VARIABLE);
    KeepNone(p.children, NUMBER);
  }

  /** A node over a single child spans what the child spans, in
      parentheses for a primitive over a sum. */
  lemma SingleChildYield(n: Sym, text: string, c: ParseTree)
    requires (n, c.name) in {(ROOT, SUM), (SUM, PRODUCT), (PRIMITIVE, SUM)}
    ensures Yield(Node(n, text, [c])) == if n == PRIMITIVE then "(" + Yield(c) + ")" else Yield(c)
  {
    var t := Node(n, text, [c]);
    KeepAll(t.children, c.name);
    if n == PRIMITIVE {
      KeepNone(t.children, NUMBER);
      KeepNone(t.children, VARIABLE);
    }
  }

  /** A product of two primitives spans their texts joined by '*'. */
  lemma PairProductYield(text: string, p: ParseTree, q: ParseTree)
    requires p.name == PRIMITIVE && q.name == PRIMITIVE
    ensures Yield(Node(PRODUCT, text, [p, q])) == Yield(p) + "*" + Yield(q)
  {
    var t := Node(PRODUCT, text, [p, q]);
    KeepAll(t.children, PRIMITIVE);
    assert t.children[1..] == [q];
    assert YieldJoin(t, [p, q], '*') == Yield(p) + "*" + YieldJoin(t, [q], '*');
  }

  lemma ParenYield(b: string, c: string)
    ensures Yield(Paren(b, c)) == "(" + (b + "*" + c) + ")"
  {
    var inner := b + "*" + c;
    var pb, pc := VarPrimitive(b), VarPrimitive(c);
    var prod := Node(PRODUCT, inner, [pb, pc]);
    var sum := Node(SUM, inner, [prod]);
    VarPrimitiveYield(b);
    VarPrimitiveYield(c);
    PairProductYield(inner, pb, pc);
    assert Yield(prod) == inner;
    SingleChildYield(SUM, inner, prod);
    assert Yield(sum) == inner;
    SingleChildYield(PRIMITIVE, "(" + b + "*" + c + ")", sum);
    assert Paren(b, c) == Node(PRIMITIVE, "(" + b + "*" + c + ")", [sum]);
  }

  /** A root over a sum of one product spans what the product spans. */
  lemma RootOfProductYield(text: string, prod: ParseTree)
    requires prod.name == PRODUCT
    ensures Yield(Node(ROOT, text, [Node(SUM, text, [prod])])) == Yield(prod)
  {
    SingleChildYield(SUM, text, prod);
    SingleChildYield(ROOT, text, Node(SUM, text, [prod]));
  }

  /** The text the parse tree of "a*(b*c)" spans. */
  lemma NestedProductYield(a: string, b: string, c: string)
    ensures Yield(NestedProduct(a, b, c)) == NestedText(a, b, c)
  {
    var text := NestedText(a, b, c);
    var pa, pbc := VarPrimitive(a), Paren(b, c);
    var prod := Node(PRODUCT, text, [pa, pbc]);
    VarPrimitiveYield(a);
    ParenYield(b, c);
    PairProductYield(text, pa, pbc);
    NestedTextParts(a, b, c);
    assert Yield(prod) == text;
    RootOfProductYield(text, prod);
    assert NestedProduct(a, b, c) == Node(ROOT, text, [Node(SUM, text, [prod])]);
  }

  lemma NestedTextParts(a: string, b: string, c: string)
    ensures a + "*" + ("(" + (b + "*" + c) + ")") == NestedText(a, b, c)
  {
  }

  /** The parse tree of "a*(b*c)" is a parse tree of the grammar for that
      text, so a parser returning it meets the hypothesis of PrintReadsBack
      for the printed form of a*(b*c). */
  lemma NestedProductGrammatical(a: string, b: string, c: string, parser: string -> Option<ParseTree>, fmt: Format)
    requires IsName(a) && IsName(b) && IsName(c)
    requires parser(NestedText(a, b, c)) == Some(NestedProduct(a, b, c))
    ensures Grammatical(NestedProduct(a, b, c), NestedText(a, b, c))
    ensures ParsesByGrammar(parser, Print(BinOp(Times, Var(a), BinOp(Times, Var(b), Var(c))), fmt))
  {
    NestedProductBuilds(a, b, c, fmt);
    PrintRoundTrip(a, b, c, parser, fmt);
    NestedProductYield(a, b, c);
  }
}
