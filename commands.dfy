/** The two string commands: differentiate and simplify, each parsing its
    input, echoing it back when the parser refuses it. */
module Commands {
  import opened Wrappers
  import opened NumberText
  import opened Terms
  import opened Printing
  import opened Evaluation
  import opened Differentiation
  import Objects
  import opened Building
  import opened Reading

  /** differentiate(expression, variable): deriv.toString() of the parsed
      expression's derivative; the input itself when parse throws
      IllegalArgumentException; a runtime exception of buildAST is not
      caught. */
  function Differentiate(input: string, x: string, parser: string -> Option<ParseTree>, fmt: Format)
    : (r: Result<string, BuildError>)
    ensures parser(input).None? ==> r == Ok(input)
    ensures r.Err? <==> Parse(input, parser, fmt).Err? && Parse(input, parser, fmt).error.Internal?
    ensures Parse(input, parser, fmt).Ok? ==> r == Ok(ToString(Derivative(Parse(input, parser, fmt).value, x), fmt))
  {
    match Parse(input, parser, fmt)
    case Err(IllegalArgument) => Ok(input)
    case Err(Internal(e)) => Err(e)
    case Ok(t) => Ok(ToString(Derivative(t, x), fmt))
  }

  /** differentiate with the derivative printed by the repaired printer. */
  function DifferentiateRepaired(input: string, x: string, parser: string -> Option<ParseTree>, fmt: Format)
    : (r: Result<string, BuildError>)
    ensures parser(input).None? ==> r == Ok(input)
    ensures r.Err? <==> Parse(input, parser, fmt).Err? && Parse(input, parser, fmt).error.Internal?
    ensures Parse(input, parser, fmt).Ok? ==> r == Ok(Print(Derivative(Parse(input, parser, fmt).value, x), fmt))
  {
    match Parse(input, parser, fmt)
    case Err(IllegalArgument) => Ok(input)
    case Err(Internal(e)) => Err(e)
    case Ok(t) => Ok(Print(Derivative(t, x), fmt))
  }

  /** The derivative of a tree in which no `*` node has a `*` node as its
      right operand has that property too: the right operands of the
      product rule's `*` nodes are derivatives, which are never products. */
  lemma {:induction false} DerivativePrintSafe(t: Term, x: string)
    requires PrintSafe(t)
    ensures PrintSafe(Derivative(t, x))
  {
    match t
    case Num(_) =>
    case Var(_) =>
    case BinOp(_, u, v) =>
      DerivativePrintSafe(u, x);
      DerivativePrintSafe(v, x);
  }

  /** On those inputs the command as written and the repaired one answer
      alike. */
  lemma DifferentiatesAgree(input: string, x: string, parser: string -> Option<ParseTree>, fmt: Format)
    requires Parse(input, parser, fmt).Ok? && PrintSafe(Parse(input, parser, fmt).value)
    ensures Differentiate(input, x, parser, fmt) == DifferentiateRepaired(input, x, parser, fmt)
  {
    var t := Parse(input, parser, fmt).value;
    DerivativePrintSafe(t, x);
    PrintAgreesWithToString(Derivative(t, x), fmt);
  }

  /** The repaired command keeps the promise of its documentation: its
      output parses back to an expression equal to the derivative. */
  lemma DifferentiateReadsBack(input: string, x: string, parser: string -> Option<ParseTree>, fmt: Format)
    requires Parse(input, parser, fmt).Ok?
    requires var t := Parse(input, parser, fmt).value;
             WellBehaved(fmt) && NamesOk(t) && ReadsBack(fmt, Values(t) + {0.0, 1.0})
    requires ParsesByGrammar(parser, DifferentiateRepaired(input, x, parser, fmt).value)
    ensures var out := DifferentiateRepaired(input, x, parser, fmt).value;
            var d := Derivative(Parse(input, parser, fmt).value, x);
            Parse(out, parser, fmt) == Ok(d) && Equals(Parse(out, parser, fmt).value, d, fmt)
  {
    var t := Parse(input, parser, fmt).value;
    DerivativeValues(t, x);
    PrintReadsBack(Derivative(t, x), parser, fmt);
  }

  /** The command as written reads back as the flattened derivative: equal
      to the derivative exactly when the derivative has no `*` node as the
      right operand of a `*` node, which holds for every input without one,
      and equal to it in value under every environment in any case. */
  lemma DifferentiateToStringReadsBack(input: string, x: string, parser: string -> Option<ParseTree>, fmt: Format)
    requires Parse(input, parser, fmt).Ok?
    requires var t := Parse(input, parser, fmt).value;
             WellBehaved(fmt) && NamesOk(t) && ReadsBack(fmt, Values(t) + {0.0, 1.0})
             && InjectiveOn(fmt.show, Values(t) + {0.0, 1.0})
    requires ParsesByGrammar(parser, Differentiate(input, x, parser, fmt).value)
    ensures var out := Differentiate(input, x, parser, fmt).value;
            var t := Parse(input, parser, fmt).value;
            var d := Derivative(t, x);
            Parse(out, parser, fmt) == Ok(Flatten(d))
            && (Equals(Parse(out, parser, fmt).value, d, fmt) <==> PrintSafe(d))
            && (PrintSafe(t) ==> Equals(Parse(out, parser, fmt).value, d, fmt))
            && forall env: map<string, real> :: Eval(Parse(out, parser, fmt).value, env) == Eval(d, env)
  {
    var t := Parse(input, parser, fmt).value;
    DerivativeValues(t, x);
    ToStringReadsBack(Derivative(t, x), parser, fmt);
    if PrintSafe(t) {
      DerivativePrintSafe(t, x);
    }
    forall env: map<string, real> {
      FlattenEval(Derivative(t, x), env);
    }
  }

  /** The input a*(b*c)*x: the product rule copies a*(b*c) into the
      derivative, toString drops its parentheses, and what differentiate
      returns parses to an expression that is not equal to the derivative;
      the repaired command returns another text. */
  lemma DifferentiateNestedFails(parser: string -> Option<ParseTree>, fmt: Format)
    requires Parse("a*(b*c)*x", parser, fmt) == Ok(NestedInput())
    requires WellBehaved(fmt) && ReadsBack(fmt, {0.0, 1.0}) && InjectiveOn(fmt.show, {0.0, 1.0})
    requires ParsesByGrammar(parser, Differentiate("a*(b*c)*x", "x", parser, fmt).value)
    ensures var out := Differentiate("a*(b*c)*x", "x", parser, fmt).value;
            Parse(out, parser, fmt).Ok?
            && !Equals(Parse(out, parser, fmt).value, Derivative(NestedInput(), "x"), fmt)
    ensures Differentiate("a*(b*c)*x", "x", parser, fmt) != DifferentiateRepaired("a*(b*c)*x", "x", parser, fmt)
  {
    var t := NestedInput();
    var d := Derivative(t, "x");
    NestedInputFacts();
    DifferentiateToStringReadsBack("a*(b*c)*x", "x", parser, fmt);
    FlattenPrints(d, fmt);
    FlattenFixed(d);
    ReadsBackInjective(fmt, {0.0, 1.0});
    PrintInjective(d, Flatten(d), fmt);
  }

  /** The input a*(b*c)*x has letter names and no numbers, and its
      derivative keeps the product b*c as the right operand of a `*` node. */
  lemma NestedInputFacts()
    ensures NamesOk(NestedInput()) && Values(NestedInput()) + {0.0, 1.0} == {0.0, 1.0}
    ensures Values(Derivative(NestedInput(), "x")) <= {0.0, 1.0}
    ensures !PrintSafe(Derivative(NestedInput(), "x"))
  {
    var t := NestedInput();
    var d := Derivative(t, "x");
    assert d.left.left == BinOp(Times, Var("a"), BinOp(Times, Var("b"), Var("c")));
    assert IsName("a") && IsName("b") && IsName("c") && IsName("x");
    DerivativeValues(t, "x");
  }

  /** The tree of a*(b*c)*x. */
  function NestedInput(): Term
  {
    BinOp(Times, BinOp(Times, Var("a"), BinOp(Times, Var("b"), Var("c"))), Var("x"))
  }

  /** The output of the repaired command names the derivative: two parsed
      inputs give the same output exactly when their derivatives are the
      same tree. */
  lemma DifferentiateDeterminesDerivative(i1: string, i2: string, x: string, parser: string -> Option<ParseTree>, fmt: Format)
    requires Parse(i1, parser, fmt).Ok? && Parse(i2, parser, fmt).Ok?
    requires WellBehaved(fmt)
    requires var t1, t2 := Parse(i1, parser, fmt).value, Parse(i2, parser, fmt).value;
             NamesOk(t1) && NamesOk(t2) && InjectiveOn(fmt.plain, Values(t1) + Values(t2) + {0.0, 1.0})
    ensures var t1, t2 := Parse(i1, parser, fmt).value, Parse(i2, parser, fmt).value;
            DifferentiateRepaired(i1, x, parser, fmt) == DifferentiateRepaired(i2, x, parser, fmt)
            <==> Derivative(t1, x) == Derivative(t2, x)
  {
    var t1, t2 := Parse(i1, parser, fmt).value, Parse(i2, parser, fmt).value;
    var d1, d2 := Derivative(t1, x), Derivative(t2, x);
    DerivativeValues(t1, x);
    DerivativeValues(t2, x);
    PrintInjective(d1, d2, fmt);
  }

  /** The numbers of a derivative are numbers of the tree, 0 and 1. */
  lemma {:induction false} DerivativeValues(t: Term, x: string)
    ensures Values(Derivative(t, x)) <= Values(t) + {0.0, 1.0}
  {
    match t
    case Num(_) =>
    case Var(_) =>
    case BinOp(_, u, v) =>
      DerivativeValues(u, x);
      DerivativeValues(v, x);
  }

  /** The example of the command's documentation: d(x*x)/dx prints as
      "(x*1.0+x*1.0)" when 1.0 prints as "1.0". */
  lemma DifferentiateSquare(parser: string -> Option<ParseTree>, fmt: Format)
    requires Parse("x*x", parser, fmt) == Ok(BinOp(Times, Var("x"), Var("x")))
    requires fmt.plain(1.0) == "1.0"
    ensures Differentiate("x*x", "x", parser, fmt) == Ok("(x*1.0+x*1.0)")
  {
    DerivativeOfSquare();
    var p := BinOp(Times, Var("x"), Num(1.0));
    assert ToString(p, fmt) == "x*1.0";
    assert ToString(BinOp(Plus, p, p), fmt) == "(" + "x*1.0" + "+" + "x*1.0" + ")";
    assert "(" + "x*1.0" + "+" + "x*1.0" + ")" == "(x*1.0+x*1.0)";
    assert Parse("x*x", parser, fmt).value == BinOp(Times, Var("x"), Var("x"));
    assert Derivative(BinOp(Times, Var("x"), Var("x")), "x") == BinOp(Plus, p, p);
  }

  /** The cube: d(x*x*x)/dx prints as "(x*x*1.0+x*(x*1.0+x*1.0))", the
      sum on the right of the second product in its own parentheses. */
  lemma DifferentiateCube(parser: string -> Option<ParseTree>, fmt: Format)
    requires Parse("x*x*x", parser, fmt) == Ok(BinOp(Times, BinOp(Times, Var("x"), Var("x")), Var("x")))
    requires fmt.plain(1.0) == "1.0"
    ensures Differentiate("x*x*x", "x", parser, fmt) == Ok("(x*x*1.0+x*(x*1.0+x*1.0))")
  {
    var x, one := Var("x"), Num(1.0);
    var sq := BinOp(Times, x, x);
    var d := CubeDerivative(x, one);
    assert Derivative(BinOp(Times, sq, x), "x") == d by {
      DerivativeOfSquare();
    }
    CubeText("x", 1.0, fmt);
    assert Parse("x*x*x", parser, fmt).value == BinOp(Times, sq, x);
    assert Differentiate("x*x*x", "x", parser, fmt) == Ok(ToString(d, fmt));
    CubeLiteral("x", "1.0");
  }

  /** CubeText spelled out for the name x and the text 1.0. This lemma and
      the four below it only regroup string literals, one concatenation at
      a time, so that the solver never has to join the whole text at once. */
  lemma CubeLiteral(n: string, o: string)
    requires n == "x" && o == "1.0"
    ensures "(" + (n + "*" + (n + "*" + o)) + "+" + (n + "*" + ("(" + (n + "*" + o) + "+" + (n + "*" + o) + ")")) + ")"
            == "(x*x*1.0+x*(x*1.0+x*1.0))"
  {
    SquareTermText();
    SquareSumText();
    CubeTermsText();
    CubeSumText();
  }

  lemma SquareTermText()
    ensures "x" + "*" + "1.0" == "x*1.0"
  {
  }

  lemma SquareSumText()
    ensures "(" + "x*1.0" + "+" + "x*1.0" + ")" == "(x*1.0+x*1.0)"
  {
  }

  lemma CubeTermsText()
    ensures "x" + "*" + "x*1.0" == "x*x*1.0" && "x" + "*" + "(x*1.0+x*1.0)" == "x*(x*1.0+x*1.0)"
  {
    assert "x" + "*" == "x*";
    assert "x*" + "x*1.0" == "x*x*1.0";
    assert "x*" + "(x*1.0+x*1.0)" == "x*(x*1.0+x*1.0)";
  }

  lemma CubeSumText()
    ensures "(" + "x*x*1.0" + "+" + "x*(x*1.0+x*1.0)" + ")" == "(x*x*1.0+x*(x*1.0+x*1.0))"
  {
  }

  /** The derivative of x*x*x by the rules, over x and the number 1. */
  function CubeDerivative(x: Term, one: Term): Term
  {
    var p := BinOp(Times, x, one);
    BinOp(Plus, BinOp(Times, BinOp(Times, x, x), one), BinOp(Times, x, BinOp(Plus, p, p)))
  }

  /** The printed form of CubeDerivative, piece by piece. */
  lemma CubeText(n: string, v: real, fmt: Format)
    ensures var o := fmt.plain(v);
            ToString(CubeDerivative(Var(n), Num(v)), fmt)
            == "(" + (n + "*" + (n + "*" + o)) + "+" + (n + "*" + ("(" + (n + "*" + o) + "+" + (n + "*" + o) + ")")) + ")"
  {
    var o := fmt.plain(v);
    var x, one := Var(n), Num(v);
    var p := BinOp(Times, x, one);
    assert ToString(p, fmt) == n + "*" + o;
    assert ToString(BinOp(Plus, p, p), fmt) == "(" + (n + "*" + o) + "+" + (n + "*" + o) + ")";
    assert ToString(BinOp(Times, x, x), fmt) == n + "*" + n;
    assert ToString(BinOp(Times, BinOp(Times, x, x), one), fmt) == n + "*" + n + "*" + o;
    assert n + "*" + n + "*" + o == n + "*" + (n + "*" + o);
  }

  /** What simplify prints for the tree it simplified: the plain decimal
      text of a number, and the contents of anything else. */
  function SimplifiedText(t: Term, env: map<string, real>, fmt: Format): (s: string)
    ensures Vars(t) <= env.Keys ==> s == fmt.plain(Eval(t, env))
    ensures !(Vars(t) <= env.Keys) ==> s == Contents(PartialEval(t, env), fmt)
  {
    PartialEvalFolds(t, env);
    var r := PartialEval(t, env);
    if r.Num? then fmt.plain(r.value) else Contents(r, fmt)
  }

  /** The output is a number exactly when every variable of the expression
      is bound, and then it is the expression's value. */
  lemma SimplifiedTextNumeric(t: Term, env: map<string, real>, fmt: Format)
    requires WellBehaved(fmt) && NamesOk(t)
    ensures IsNumberText(SimplifiedText(t, env, fmt)) <==> Vars(t) <= env.Keys
    ensures Vars(t) <= env.Keys ==> SimplifiedText(t, env, fmt) == fmt.plain(Eval(t, env))
  {
    PartialEvalFolds(t, env);
    var r := PartialEval(t, env);
    if !r.Num? {
      ContentsHead(r, fmt);
    }
  }

  /** simplify(expression, environment) as the command defines it. */
  function SimplifyCommand(input: string, env: map<string, real>, parser: string -> Option<ParseTree>, fmt: Format)
    : (r: Result<string, BuildError>)
    ensures parser(input).None? ==> r == Ok(input)
    ensures r.Err? <==> Parse(input, parser, fmt).Err? && Parse(input, parser, fmt).error.Internal?
    ensures Parse(input, parser, fmt).Ok? ==> r == Ok(SimplifiedText(Parse(input, parser, fmt).value, env, fmt))
  {
    match Parse(input, parser, fmt)
    case Err(IllegalArgument) => Ok(input)
    case Err(Internal(e)) => Err(e)
    case Ok(t) => Ok(SimplifiedText(t, env, fmt))
  }

  /** simplify: parse into new objects, simplify them, and print the value
      when the result reports one, its contents otherwise. */
  method Simplify(input: string, env: map<string, real>, parser: string -> Option<ParseTree>, fmt: Format)
    returns (out: Result<string, BuildError>)
    ensures out == SimplifyCommand(input, env, parser, fmt)
  {
    var ast := ParseAST(input, parser, fmt);
    match ast
    case Err(IllegalArgument) =>
      out := Ok(input);
    case Err(Internal(e)) =>
      out := Err(e);
    case Ok(e) =>
      Objects.CellsAllocated(e);
      Objects.SimpFresh(e, env);
      Objects.SimpValue(e, env);
      var rv := Objects.Simplify(e, env);
      var val := Objects.Value(rv);
      if val.None? {
        out := Ok(Contents(Objects.Erase(rv), fmt));
      } else {
        out := Ok(fmt.plain(val.value));
      }
  }

  /** On a grammatical input, simplify answers with a number exactly when
      the environment binds every variable of the expression. */
  lemma SimplifyNumeric(input: string, env: map<string, real>, parser: string -> Option<ParseTree>, fmt: Format)
    requires WellBehaved(fmt) && parser(input).Some? && Shaped(parser(input).value)
    ensures SimplifyCommand(input, env, parser, fmt).Ok?
    ensures IsNumberText(SimplifyCommand(input, env, parser, fmt).value)
            <==> Vars(Parse(input, parser, fmt).value) <= env.Keys
  {
    ParseShaped(input, parser, fmt);
    SimplifiedTextNumeric(Parse(input, parser, fmt).value, env, fmt);
  }
}
