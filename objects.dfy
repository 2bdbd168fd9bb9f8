/** The expression objects: Number and BinOpExpression never change after
    construction, while a Variable carries a value field that simplify
    overwrites and that later simplify calls read back. */
module Objects {
  import opened Wrappers
  import opened Terms
  import opened Evaluation

  /** A Variable object. `val` is None while the field holds NaN, the value
      it gets at construction; simplify stores a bound value in it. */
  class Variable {
    const name: string
    var val: Option<real>

    constructor (name: string)
      ensures this.name == name && val == None
    {
      this.name := name;
      val := None;
    }

    /** Variable.simplify: bound in `env`, the variable remembers the value
        and a new Number holding it is returned; unbound, the object itself
        is returned and its value is left as it was. */
    method Simplify(env: map<string, real>) returns (r: Expr)
      modifies if name in env then {this} else {}
      ensures name in env ==> val == Some(env[name]) && r == Lit(env[name])
      ensures name !in env ==> val == old(val) && r == Ref(this)
    {
      if name in env {
        val := Some(env[name]);
        r := Lit(env[name]);
      } else {
        r := Ref(this);
      }
    }
  }

  /** An expression object: a Number, a reference to a Variable object (two
      references may share one object), or a BinOpExpression. */
  datatype Expr =
    | Lit(value: real)
    | Ref(cell: Variable)
    | Bin(op: Op, left: Expr, right: Expr)

  /** The Variable objects an expression refers to. */
  function Cells(e: Expr): set<Variable>
  {
    match e
    case Lit(_) => {}
    case Ref(x) => {x}
    case Bin(_, l, r) => Cells(l) + Cells(r)
  }

  /** Every object an expression refers to exists. */
  lemma {:induction false} CellsAllocated(e: Expr)
    ensures forall x :: x in Cells(e) ==> allocated(x)
  {
    match e
    case Lit(_) =>
    case Ref(_) =>
    case Bin(_, l, r) =>
      CellsAllocated(l);
      CellsAllocated(r);
  }

  /** The Variable objects of `e` whose names `env` does not bind. */
  function Unbound(e: Expr, env: map<string, real>): set<Variable>
  {
    set x | x in Cells(e) && x.name !in env
  }

  /** No Variable of `e` holds a value: every one is as its constructor
      left it. */
  predicate Unset(e: Expr)
    reads Cells(e)
  {
    forall x :: x in Cells(e) ==> x.val == None
  }

  /** A node over two value-free operands is value-free. */
  lemma UnsetBin(op: Op, a: Expr, b: Expr)
    requires Unset(a) && Unset(b)
    ensures Cells(Bin(op, a, b)) == Cells(a) + Cells(b) && Unset(Bin(op, a, b))
  {
  }

  /** The Variable objects of `e` whose names `env` binds: the ones
      simplify(env) writes. */
  function Bound(e: Expr, env: map<string, real>): set<Variable>
  {
    set x | x in Cells(e) && x.name in env
  }

  /** The tree of names and numbers an expression object stands for: what
      getContents and toString see. */
  function Erase(e: Expr): (t: Term)
    ensures Vars(t) == set x | x in Cells(e) :: x.name
  {
    match e
    case Lit(v) => Num(v)
    case Ref(x) => Var(x.name)
    case Bin(op, l, r) => BinOp(op, Erase(l), Erase(r))
  }

  /** getValue(): a Number's value, a Variable's stored value (None for
      NaN), and for a BinOpExpression always None, since its value field is
      never written. */
  function Value(e: Expr): (v: Option<real>)
    reads Cells(e)
    ensures v.Some? ==> e.Lit? || e.Ref?
  {
    match e
    case Lit(v) => Some(v)
    case Ref(x) => x.val
    case Bin(_, _, _) => None
  }

  /** What simplify(env) returns, read off the objects as they are before
      the call. A node folds into a Number when both simplified operands
      report a value; an operand that stays a Variable reports whatever that
      object stored in an earlier call. Only unbound variables are read:
      the bound ones are replaced by their values. */
  function Simp(e: Expr, env: map<string, real>): (r: Expr)
    reads Unbound(e, env)
    ensures Cells(r) <= Unbound(e, env)
  {
    match e
    case Lit(v) => Lit(v)
    case Ref(x) => if x.name in env then Lit(env[x.name]) else Ref(x)
    case Bin(op, l, r) =>
      var a := Simp(l, env);
      var b := Simp(r, env);
      var va, vb := Value(a), Value(b);
      if va.Some? && vb.Some? then Lit(Apply(op, va.value, vb.value)) else Bin(op, a, b)
  }

  /** simplify(env) on an expression object: the left operand first, then
      the right one, storing every bound value in its Variable. It writes
      no other object. */
  method Simplify(e: Expr, env: map<string, real>) returns (r: Expr)
    modifies Bound(e, env)
    ensures r == old(Simp(e, env))
    ensures Cells(r) <= Unbound(e, env)
    ensures forall x :: x in Bound(e, env) ==> x.val == Some(env[x.name])
  {
    match e
    case Lit(v) =>
      r := Lit(v);
    case Ref(x) =>
      r := x.Simplify(env);
    case Bin(op, l, rt) =>
      CellsAllocated(e);
      assert Bound(e, env) == Bound(l, env) + Bound(rt, env);
      assert Unbound(e, env) == Unbound(l, env) + Unbound(rt, env);
      var a := Simplify(l, env);
      assert Simp(rt, env) == old(Simp(rt, env)) by {
        assert forall x :: x in Unbound(rt, env) ==> x !in Bound(l, env) && old(allocated(x));
      }
      var b := Simplify(rt, env);
      var va, vb := Value(a), Value(b);
      if va.Some? && vb.Some? {
        r := Lit(Apply(op, va.value, vb.value));
      } else {
        r := Bin(op, a, b);
      }
  }

  /** Where no Variable of `e` holds a value yet, as after parsing,
      simplify computes exactly PartialEval. */
  lemma {:induction false} SimpFresh(e: Expr, env: map<string, real>)
    requires Unset(e)
    ensures Erase(Simp(e, env)) == PartialEval(Erase(e), env)
  {
    match e
    case Lit(_) =>
    case Ref(_) =>
    case Bin(op, l, r) =>
      SimpFresh(l, env);
      SimpFresh(r, env);
      SimpValue(l, env);
      SimpValue(r, env);
  }

  /** On fresh objects a simplified expression reports a value exactly when
      it is a Number. */
  lemma SimpValue(e: Expr, env: map<string, real>)
    requires Unset(e)
    ensures Value(Simp(e, env)).Some? <==> Simp(e, env).Lit?
  {
  }

  /** A Variable bound by one simplify call keeps its value: simplifying
      x + 2.0 under {x: 3.0} and then again under the empty environment
      gives 5.0 both times, while on a freshly parsed copy the second call
      would leave x + 2.0 alone. */
  method StaleValue() returns (first: Expr, second: Expr)
    ensures first == Lit(5.0) && second == Lit(5.0)
    ensures PartialEval(BinOp(Plus, Var("x"), Num(2.0)), map[]) == BinOp(Plus, Var("x"), Num(2.0))
  {
    var x := new Variable("x");
    var e := Bin(Plus, Ref(x), Lit(2.0));
    assert Cells(e) == {x};
    first := Simplify(e, map["x" := 3.0]);
    second := Simplify(e, map[]);
  }
}
