/** What simplify computes on a freshly built tree, where no Variable holds
    a value yet: substitution of the bound variables and folding of every
    node whose two operands became numbers. */
module Evaluation {
  import opened Terms

  /** The arithmetic of a `+` or `*` node. */
  function Apply(op: Op, x: real, y: real): real
  {
    match op
    case Plus => x + y
    case Times => x * y
  }

  /** The value of a tree, reading a variable from `env`. (A variable that
      `env` does not bind reads as zero; the lemmas that relate Eval to
      simplify require every variable to be bound.) */
  function Eval(t: Term, env: map<string, real>): real
  {
    match t
    case Num(v) => v
    case Var(n) => if n in env then env[n] else 0.0
    case BinOp(op, l, r) => Apply(op, Eval(l, env), Eval(r, env))
  }

  /** simplify(env) on a fresh tree: a Number is copied, a bound Variable
      becomes a Number with its value and an unbound one is returned as it
      is, and a BinOp simplifies its left operand, then its right one, and
      folds them into a Number when both became numbers. The result keeps
      exactly the unbound variables. */
  function PartialEval(t: Term, env: map<string, real>): (r: Term)
    ensures Vars(r) == Vars(t) - env.Keys
    ensures NamesOk(t) ==> NamesOk(r)
  {
    match t
    case Num(v) => Num(v)
    case Var(n) => if n in env then Num(env[n]) else Var(n)
    case BinOp(op, l, r) =>
      var x := PartialEval(l, env);
      var y := PartialEval(r, env);
      if x.Num? && y.Num? then Num(Apply(op, x.value, y.value)) else BinOp(op, x, y)
  }

  /** The result is a single number exactly when every variable of the tree
      is bound, and that number is the tree's value. */
  lemma {:induction false} PartialEvalFolds(t: Term, env: map<string, real>)
    ensures PartialEval(t, env).Num? <==> Vars(t) <= env.Keys
    ensures Vars(t) <= env.Keys ==> PartialEval(t, env) == Num(Eval(t, env))
  {
    match t
    case Num(_) =>
    case Var(_) =>
    case BinOp(op, l, r) =>
      PartialEvalFolds(l, env);
      PartialEvalFolds(r, env);
  }

  /** Partial evaluation keeps the meaning of the tree: under any
      environment that agrees with `env` on its keys and binds every other
      variable, the result has the value of the original tree. */
  lemma {:induction false} PartialEvalSound(t: Term, env: map<string, real>, full: map<string, real>)
    requires Vars(t) <= full.Keys
    requires forall n :: n in env ==> n in full && full[n] == env[n]
    ensures Eval(PartialEval(t, env), full) == Eval(t, full)
  {
    match t
    case Num(_) =>
    case Var(_) =>
    case BinOp(op, l, r) =>
      PartialEvalSound(l, env, full);
      PartialEvalSound(r, env, full);
  }

  /** Simplifying twice under the same environment changes nothing more: no
      bound variable is left and every node that could fold has folded. */
  lemma {:induction false} PartialEvalIdempotent(t: Term, env: map<string, real>)
    ensures PartialEval(PartialEval(t, env), env) == PartialEval(t, env)
  {
    match t
    case Num(_) =>
    case Var(_) =>
    case BinOp(op, l, r) =>
      PartialEvalIdempotent(l, env);
      PartialEvalIdempotent(r, env);
  }
}
