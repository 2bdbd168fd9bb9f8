/** derivative(var): the constant, variable, sum and product rules, with no
    simplification of the result. */
module Differentiation {
  import opened Terms
  import opened Evaluation

  /** d c/dx = 0, dx/dx = 1, d y/dx = 0 for another name y (compared case
      by case-sensitive string equality), d(u+v)/dx = du/dx + dv/dx and
      d(u*v)/dx = u*(dv/dx) + v*(du/dx), in exactly this operand order. The
      result uses no variable the input does not. */
  function Derivative(t: Term, x: string): (d: Term)
    ensures Vars(d) <= Vars(t)
    ensures NamesOk(t) ==> NamesOk(d)
  {
    match t
    case Num(_) => Num(0.0)
    case Var(n) => if n == x then Num(1.0) else Num(0.0)
    case BinOp(Plus, u, v) => BinOp(Plus, Derivative(u, x), Derivative(v, x))
    case BinOp(Times, u, v) =>
      BinOp(Plus, BinOp(Times, u, Derivative(v, x)), BinOp(Times, v, Derivative(u, x)))
  }

  /** Multiplication of reals, kept behind a name so that the expansion
      lemmas below only ever multiply inside ProductExpansion. */
  function Mul(a: real, b: real): real
  {
    Apply(Times, a, b)
  }

  /** The second-order rest of the expansion of `t` around x = a. */
  function Remainder(t: Term, x: string, env: map<string, real>, a: real, h: real): real
  {
    match t
    case Num(_) => 0.0
    case Var(_) => 0.0
    case BinOp(Plus, u, v) => Remainder(u, x, env, a, h) + Remainder(v, x, env, a, h)
    case BinOp(Times, u, v) =>
      var at := env[x := a];
      ProductRest(Eval(u, at), Eval(Derivative(u, x), at), Remainder(u, x, env, a, h),
                  Eval(v, at), Eval(Derivative(v, x), at), Remainder(v, x, env, a, h), h)
  }

  /** The rest of the product of p + h*dp + h*h*rp and q + h*dq + h*h*rq
      beyond its first-order part. */
  function ProductRest(p: real, dp: real, rp: real, q: real, dq: real, rq: real, h: real): real
  {
    dp * dq + p * rq + rp * q + h * (dp * rq + rp * dq) + h * h * rp * rq
  }

  /** The first-order expansion of a value: e == e0 + h*d + h*h*r. */
  predicate Expands(e: real, e0: real, d: real, r: real, h: real)
  {
    e == e0 + Mul(h, d) + Mul(Mul(h, h), r)
  }

  /** The product of two first-order expansions is the first-order
      expansion of the product, with the rest ProductRest gives it. */
  lemma ProductExpansion(eu: real, ev: real, p: real, dp: real, rp: real, q: real, dq: real, rq: real, h: real)
    requires Expands(eu, p, dp, rp, h)
    requires Expands(ev, q, dq, rq, h)
    ensures Expands(Mul(eu, ev), Mul(p, q), Mul(p, dq) + Mul(q, dp), ProductRest(p, dp, rp, q, dq, rq, h), h)
  {
  }

  /** The sum of two first-order expansions is the first-order expansion
      of the sum. */
  lemma SumExpansion(eu: real, ev: real, p: real, dp: real, rp: real, q: real, dq: real, rq: real, h: real)
    requires Expands(eu, p, dp, rp, h)
    requires Expands(ev, q, dq, rq, h)
    ensures Expands(eu + ev, p + q, dp + dq, rp + rq, h)
  {
  }

  /** The derivative is the derivative: for every point a and step h, the
      value of `t` at a + h is its value at a, plus h times the value of the
      derivative at a, plus h squared times a remainder. (The trees are
      polynomials, so the remainder is itself a polynomial in h.) */
  lemma {:induction false} DerivativeExpansion(t: Term, x: string, env: map<string, real>, a: real, h: real)
    ensures Expands(Eval(t, env[x := a + h]), Eval(t, env[x := a]), Eval(Derivative(t, x), env[x := a]),
                    Remainder(t, x, env, a, h), h)
  {
    match t
    case Num(_) =>
    case Var(_) =>
    case BinOp(Plus, u, v) =>
      DerivativeExpansion(u, x, env, a, h);
      DerivativeExpansion(v, x, env, a, h);
      var at, ah := env[x := a], env[x := a + h];
      SumExpansion(Eval(u, ah), Eval(v, ah),
                   Eval(u, at), Eval(Derivative(u, x), at), Remainder(u, x, env, a, h),
                   Eval(v, at), Eval(Derivative(v, x), at), Remainder(v, x, env, a, h), h);
    case BinOp(Times, u, v) =>
      DerivativeExpansion(u, x, env, a, h);
      DerivativeExpansion(v, x, env, a, h);
      var at, ah := env[x := a], env[x := a + h];
      ProductExpansion(Eval(u, ah), Eval(v, ah),
                       Eval(u, at), Eval(Derivative(u, x), at), Remainder(u, x, env, a, h),
                       Eval(v, at), Eval(Derivative(v, x), at), Remainder(v, x, env, a, h), h);
  }

  /** A tree that does not mention x has a derivative that evaluates to
      zero everywhere. */
  lemma {:induction false} DerivativeOfConstant(t: Term, x: string, env: map<string, real>)
    requires x !in Vars(t)
    ensures Eval(Derivative(t, x), env) == 0.0
  {
    match t
    case Num(_) =>
    case Var(_) =>
    case BinOp(_, u, v) =>
      DerivativeOfConstant(u, x, env);
      DerivativeOfConstant(v, x, env);
  }

  /** The tree of d(x*x)/dx that the command prints as "(x*1.0+x*1.0)". */
  lemma DerivativeOfSquare()
    ensures Derivative(BinOp(Times, Var("x"), Var("x")), "x")
         == BinOp(Plus, BinOp(Times, Var("x"), Num(1.0)), BinOp(Times, Var("x"), Num(1.0)))
  {
  }
}
