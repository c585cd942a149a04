/**
 The recursive factorial procedure of scheme.py lines 88-93. It can call
 itself only because its `lambda` holds the top-level environment by
 reference and `fact` is bound there after the procedure is built. The
 main lemma shows that calling it on any n >= 1, with enough fuel, yields
 n!.
 */
module Factorial {
  import opened Syntax
  import opened Substitution
  import opened Primitives
  import opened Environments
  import opened Evaluator
  import opened Semantics

  function Fact(n: nat): nat {
    if n == 0 then 1 else n * Fact(n - 1)
  }

  /** `(if (= n 1) 1 (* n (fact (- n 1))))` */
  const FactBody: Expr :=
    List([IfKw,
          List([Sym("="), Sym("n"), Int(1)]),
          Int(1),
          List([Sym("*"), Sym("n"), List([Sym("fact"), List([Sym("-"), Sym("n"), Int(1)])])])])

  /** `(lambda (n) <FactBody>)` */
  const FactLambda: Expr := List([LambdaKw, List([Sym("n")]), FactBody])

  /** `(define fact <FactLambda>)` */
  const FactDefine: Expr := List([DefineKw, Sym("fact"), FactLambda])

  /** The procedure that evaluating `FactLambda` in environment `cap`
      creates as procedure number `id`. */
  function FactProc(cap: nat, id: nat): Expr {
    Closure(List([Sym("n")]), [FactBody], cap, id)
  }

  function CondAt(n: int): Expr { List([Sym("="), Int(n), Int(1)]) }
  function SubAt(n: int): Expr { List([Sym("-"), Int(n), Int(1)]) }
  function RecAt(n: int): Expr { List([Sym("fact"), SubAt(n)]) }
  function MulAt(n: int): Expr { List([Sym("*"), Int(n), RecAt(n)]) }

  /** The body with the parameter replaced by the number `n`. */
  function BodyAt(n: int): Expr { List([IfKw, CondAt(n), Int(1), MulAt(n)]) }

  /** Substitution into a tuple, given the substitution of each element. */
  lemma SubstituteTuple(xs: seq<Expr>, s: string, v: Expr, ys: seq<Expr>)
    requires |xs| == |ys|
    requires forall k :: 0 <= k < |xs| ==> Substitute(xs[k], Sym(s), v) == ys[k]
    ensures Substitute(List(xs), Sym(s), v) == List(ys)
  {
    SubstituteCases(List(xs), s, v);
  }

  lemma SubstituteBody(n: int)
    ensures Substitute(FactBody, Sym("n"), Int(n)) == BodyAt(n)
  {
    var v := Int(n);
    forall a | a in [Sym("="), Sym("-"), Sym("*"), Sym("fact"), Int(1), IfKw]
      ensures Substitute(a, Sym("n"), v) == a
    {
      SubstituteCases(a, "n", v);
    }
    SubstituteCases(Sym("n"), "n", v);
    var cond := [Sym("="), Sym("n"), Int(1)];
    SubstituteTuple(cond, "n", v, CondAt(n).items);
    var sub := [Sym("-"), Sym("n"), Int(1)];
    SubstituteTuple(sub, "n", v, SubAt(n).items);
    var rec := [Sym("fact"), List(sub)];
    SubstituteTuple(rec, "n", v, RecAt(n).items);
    var mul := [Sym("*"), Sym("n"), List(rec)];
    SubstituteTuple(mul, "n", v, MulAt(n).items);
    SubstituteTuple(FactBody.items, "n", v, BodyAt(n).items);
  }

  /** The factorial program holds no procedure, so it refers to no
      environment. */
  lemma FactBodyClosed(b: Bound)
    ensures Closed(FactBody, b)
  {
    var sub := List([Sym("-"), Sym("n"), Int(1)]);
    assert Closed(sub, b);
    var rec := List([Sym("fact"), sub]);
    assert Closed(rec, b);
    assert Closed(List([Sym("*"), Sym("n"), rec]), b);
    assert Closed(List([Sym("="), Sym("n"), Int(1)]), b);
  }

  /** `g` is a procedure made from `FactLambda`, in whatever environment. */
  predicate IsFact(g: Expr) {
    g.Closure? && g.params == List([Sym("n")]) && g.body == [FactBody]
  }

  /** The environment holds what the body looks up, with `fact` bound to `g`. */
  predicate FactReady(env: Env, g: Expr) {
    && "=" in env && env["="] == Prim(Eq)
    && "*" in env && env["*"] == Prim(Mul)
    && "-" in env && env["-"] == Prim(Sub)
    && "fact" in env && env["fact"] == g
  }

  /** A store in which calling `g` runs the factorial program: `g` is the
      procedure and its captured environment binds `fact` to `g` itself. */
  predicate Ready(st: Store, g: Expr) {
    WellFormed(st) && IsFact(g) && g.env < |st.envs| && FactReady(st.envs[g.env], g)
  }

  /** The procedure is a closed value, since the store binds it, and a fresh
      copy of its environment is ready for it too. */
  lemma FrameReady(st: Store, g: Expr)
    requires Ready(st, g)
    ensures IsValue(g) && Closed(g, Limits(st))
    ensures var st1 := NewFrame(st, g.env);
            Ready(st1, g) && FactReady(st1.envs[|st.envs|], g)
  {
    assert g == st.envs[g.env]["fact"];
  }

  /** The instantiated body and its parts hold no procedure. */
  lemma InstancesClosed(n: int, b: Bound)
    ensures Closed(BodyAt(n), b) && Closed(MulAt(n), b)
  {
    assert Closed(SubAt(n), b);
    assert Closed(RecAt(n), b);
    assert Closed(CondAt(n), b);
  }

  /** Calling the procedure pairs its one parameter with the argument and
      runs its one-expression body. */
  lemma CallRunsBody(fuel: nat, n: int, st: Store, g: Expr)
    requires Ready(st, g)
    ensures IsValue(g) && Closed(g, Limits(st)) && Closed(FactBody, Limits(st))
    ensures Call(fuel, g, [Int(n)], st) == RunBody(fuel, [(Sym("n"), Int(n))], [FactBody], g.env, st)
  {
    FrameReady(st, g);
    FactBodyClosed(Limits(st));
    assert Zip([Sym("n")], [Int(n)]) == [(Sym("n"), Int(n))];
  }

  /** Calling the procedure substitutes the argument into the body and
      evaluates it in a fresh copy of the captured environment. */
  lemma CallUnfolds(fuel: nat, n: int, st: Store, g: Expr)
    requires Ready(st, g)
    ensures var st1 := NewFrame(st, g.env);
            && Closed(BodyAt(n), Limits(st1))
            && Call(fuel, g, [Int(n)], st) == Eval(fuel, BodyAt(n), |st.envs|, st1)
  {
    var pairs := [(Sym("n"), Int(n))];
    CallRunsBody(fuel, n, st, g);
    assert BindAll(FactBody, pairs) == BodyAt(n) by {
      SubstituteBody(n);
      assert BindAll(FactBody, pairs) == BindAll(Substitute(FactBody, Sym("n"), Int(n)), pairs[1..]);
    }
    BodyExpressionsIsolated(fuel, pairs, FactBody, [], g.env, st);
    assert [FactBody] + [] == [FactBody];
  }

  /** `(if (= n 1) 1 (* n ...))` with the number n: 1 when n is 1, otherwise
      the product form, evaluated with one unit of fuel less. */
  lemma IfStep(fuel: nat, n: int, m: nat, st: Store, g: Expr)
    requires WellFormed(st) && m < |st.envs| && FactReady(st.envs[m], g) && fuel >= 3
    requires Closed(BodyAt(n), Limits(st)) && Closed(MulAt(n), Limits(st))
    ensures n == 1 ==> Eval(fuel, BodyAt(n), m, st) == Normal(Int(1), st)
    ensures n != 1 ==> Eval(fuel, BodyAt(n), m, st) == Eval(fuel - 1, MulAt(n), m, st)
  {
    InstancesClosed(n, Limits(st));
    assert BodyAt(n).items[1] == CondAt(n) && BodyAt(n).items[3] == MulAt(n);
    assert Eval(fuel - 1, CondAt(n), m, st) == Normal(Bool(n == 1), st) by {
      PrimitiveApplication(fuel - 1, "=", Int(n), Int(1), m, st);
    }
    IfSelects(fuel, CondAt(n), Int(1), MulAt(n), m, st);
    SelfEvaluating(fuel - 1, Int(1), m, st);
  }

  /** `(fact (- n 1))` with the number n looks `fact` up again and calls it
      on n - 1. */
  lemma RecursiveCall(fuel: nat, n: int, m: nat, st: Store, g: Expr)
    requires WellFormed(st) && m < |st.envs| && fuel >= 3
    requires "-" in st.envs[m] && st.envs[m]["-"] == Prim(Sub)
    requires "fact" in st.envs[m] && st.envs[m]["fact"] == g
    ensures IsValue(g) && Closed(g, Limits(st))
    ensures Eval(fuel, RecAt(n), m, st) == Call(fuel - 1, g, [Int(n - 1)], st)
  {
    assert Eval(fuel - 1, SubAt(n), m, st) == Normal(Int(n - 1), st) by {
      PrimitiveApplication(fuel - 1, "-", Int(n), Int(1), m, st);
    }
    OneArgument(fuel - 1, SubAt(n), m, st);
    assert Eval(fuel - 1, Sym("fact"), m, st) == Normal(g, st) by {
      SymbolLookup(fuel - 1, "fact", m, st);
    }
    assert [Sym("fact")] + [SubAt(n)] == [Sym("fact"), SubAt(n)];
    ApplicationOrder(fuel, Sym("fact"), [SubAt(n)], m, st);
  }

  /** `(* n e)` multiplies n by the value of `e`, here the recursive call. */
  lemma MultiplyStep(fuel: nat, n: int, k: int, m: nat, st: Store, st2: Store)
    requires WellFormed(st) && m < |st.envs| && "*" in st.envs[m] && st.envs[m]["*"] == Prim(Mul)
    requires Closed(MulAt(n), Limits(st)) && fuel >= 2
    requires Eval(fuel - 1, RecAt(n), m, st) == Normal(Int(k), st2)
    ensures Eval(fuel, MulAt(n), m, st) == Normal(Int(n * k), st2)
  {
    assert MulAt(n).items[2] == RecAt(n);
    PrimitiveOfEvaluated(fuel, "*", Int(n), RecAt(n), Int(k), m, st, st2);
  }

  /** A call on n other than 1 reaches the product form, evaluated in the
      fresh copy of the captured environment. */
  lemma CallReachesProduct(fuel: nat, n: int, st: Store, g: Expr)
    requires Ready(st, g) && n != 1 && fuel >= 3
    ensures var st1 := NewFrame(st, g.env);
            && Closed(MulAt(n), Limits(st1))
            && Call(fuel, g, [Int(n)], st) == Eval(fuel - 1, MulAt(n), |st.envs|, st1)
  {
    var st1 := NewFrame(st, g.env);
    FrameReady(st, g);
    InstancesClosed(n, Limits(st1));
    CallUnfolds(fuel, n, st, g);
    IfStep(fuel, n, |st.envs|, st1, g);
  }

  /** The product form multiplies n by what the recursive call on n - 1
      returns. */
  lemma ProductOfRecursiveCall(fuel: nat, n: int, k: int, m: nat, st: Store, g: Expr, st2: Store)
    requires WellFormed(st) && m < |st.envs| && FactReady(st.envs[m], g)
    requires Closed(MulAt(n), Limits(st)) && fuel >= 4
    requires Call(fuel - 2, g, [Int(n - 1)], st) == Normal(Int(k), st2)
    ensures Eval(fuel, MulAt(n), m, st) == Normal(Int(n * k), st2)
  {
    RecursiveCall(fuel - 1, n, m, st, g);
    MultiplyStep(fuel, n, k, m, st, st2);
  }

  /** Calling `g` on n returns n!. */
  predicate ReturnsFactorial(fuel: nat, n: nat, st: Store, g: Expr) {
    && Ready(st, g)
    && var r := Call(fuel, g, [Int(n)], st);
       r.Normal? && r.value == Int(Fact(n))
  }

  /** The call on 1 returns 1. */
  lemma BaseStep(fuel: nat, st: Store, g: Expr)
    requires Ready(st, g) && fuel >= 3
    ensures Call(fuel, g, [Int(1)], st) == Normal(Int(1), NewFrame(st, g.env))
    ensures ReturnsFactorial(fuel, 1, st, g)
  {
    FrameReady(st, g);
    CallUnfolds(fuel, 1, st, g);
    InstancesClosed(1, Limits(NewFrame(st, g.env)));
    IfStep(fuel, 1, |st.envs|, NewFrame(st, g.env), g);
  }

  /** A call on n >= 2 returns n! when the recursive call on n - 1, made in
      the fresh copy of the captured environment, returns (n - 1)!. */
  lemma CallStep(fuel: nat, n: nat, st: Store, g: Expr, st1: Store)
    requires Ready(st, g) && n >= 2 && fuel >= 5
    requires st1 == NewFrame(st, g.env)
    requires ReturnsFactorial(fuel - 3, n - 1, st1, g)
    ensures ReturnsFactorial(fuel, n, st, g)
  {
    var rr := Call(fuel - 3, g, [Int(n - 1)], st1);
    CallReachesProduct(fuel, n, st, g);
    ProductOfRecursiveCall(fuel - 1, n, Fact(n - 1), |st.envs|, st1, g, rr.store);
  }

  /** The factorial procedure called on any n >= 1 returns n!, given fuel
      proportional to n. */
  lemma {:induction false} FactCorrect(fuel: nat, n: nat, st: Store, g: Expr)
    requires Ready(st, g) && n >= 1 && fuel >= 3 * n + 2
    ensures ReturnsFactorial(fuel, n, st, g)
    decreases n
  {
    FrameReady(st, g);
    if n == 1 {
      BaseStep(fuel, st, g);
    } else {
      var st1 := NewFrame(st, g.env);
      FactCorrect(fuel - 3, n - 1, st1, g);
      CallStep(fuel, n, st, g, st1);
    }
  }
}
