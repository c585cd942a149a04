/**
 The evaluator (`seval`, scheme.py lines 41-66), the applier (`sapply`,
 lines 69-72) and procedure calls (`Procedure.__call__`, lines 32-39), as
 mutually recursive functions over an explicit store of environments.
 Evaluation may diverge, so every function takes fuel; `Eval` spends one
 unit each time it descends into a compound form.

 Every function requires a well-formed store and an expression whose
 procedures refer to existing environments, and promises the same of the
 store and value it returns, so a procedure's captured environment always
 exists when it is called.
 */
module Evaluator {
  import opened Syntax
  import opened Substitution
  import opened Primitives
  import opened Environments

  /** The end of an evaluation. The store is returned on both paths: a
      `define` performed before an exception stays in effect. */
  datatype Outcome<+T> = Normal(value: T, store: Store) | Abrupt(fault: Fault, store: Store)

  /** What every evaluation in environment `env` guarantees: the store stays
      well formed, no environment other than `env` that existed before is
      changed, and a result is a value whose procedures refer to existing
      environments. */
  predicate Sound(st: Store, env: nat, r: Outcome<Expr>) {
    && WellFormed(r.store)
    && OnlyTouches(st, r.store, env)
    && (r.Normal? ==> IsValue(r.value) && Closed(r.value, Limits(r.store)))
  }

  /** Evaluates `e` in environment `env`. Numbers, booleans and procedures
      evaluate to themselves, a symbol to its binding, `define`, `if` and
      `lambda` forms are special, any other tuple is an application, and
      every other expression (a primitive or "no value" spliced in by
      substitution) is a bad expression. */
  function Eval(fuel: nat, e: Expr, env: nat, st: Store): (r: Outcome<Expr>)
    requires WellFormed(st) && env < |st.envs| && Closed(e, Limits(st))
    ensures Sound(st, env, r)
    decreases fuel, 0, 0
  {
    if fuel == 0 then Abrupt(OutOfFuel, st)
    else match e
      case Int(_) => Normal(e, st)
      case Bool(_) => Normal(e, st)
      case Closure(_, _, _, _) => Normal(e, st)
      case Sym(s) =>
        if s in st.envs[env] then Normal(st.envs[env][s], st) else Abrupt(Raised, st)
      case List(xs) =>
        if |xs| == 0 then Abrupt(Raised, st)
        else if xs[0] == DefineKw then EvalDefine(fuel - 1, xs, env, st)
        else if xs[0] == IfKw then EvalIf(fuel - 1, xs, env, st)
        else if xs[0] == LambdaKw then EvalLambda(xs, env, st)
        else Apply(fuel - 1, xs[0], xs[1..], env, st)
      case Prim(_) => Abrupt(Raised, st)
      case Nothing => Abrupt(Raised, st)
  }

  /** `(define name e)`: evaluates `e` here and binds `name` to the result in
      this same environment; the form itself has no value. A name that is not
      a symbol is stored under a key no symbol lookup can reach, so it binds
      nothing visible. */
  function EvalDefine(fuel: nat, xs: seq<Expr>, env: nat, st: Store): (r: Outcome<Expr>)
    requires WellFormed(st) && env < |st.envs| && AllClosed(xs, Limits(st))
    ensures Sound(st, env, r)
    ensures r.Normal? ==> r.value == Nothing
    decreases fuel, 1, 0
  {
    if |xs| < 3 then Abrupt(Raised, st)
    else
      var rv := Eval(fuel, xs[2], env, st);
      if rv.Abrupt? then rv
      else match xs[1]
        case Sym(name) =>
          var st2 := Bind(rv.store, env, name, rv.value);
          OnlyTouchesTrans(st, rv.store, st2, env);
          Normal(Nothing, st2)
        case _ => Normal(Nothing, rv.store)
  }

  /** `(if c t e)`: evaluates `c`, then exactly one branch chosen by the
      truthiness of its value. */
  function EvalIf(fuel: nat, xs: seq<Expr>, env: nat, st: Store): (r: Outcome<Expr>)
    requires WellFormed(st) && env < |st.envs| && AllClosed(xs, Limits(st))
    ensures Sound(st, env, r)
    decreases fuel, 1, 0
  {
    if |xs| < 4 then Abrupt(Raised, st)
    else
      var rc := Eval(fuel, xs[1], env, st);
      if rc.Abrupt? then rc
      else
        var branch := if Truthy(rc.value) then xs[2] else xs[3];
        ClosedGrows(branch, Limits(st), Limits(rc.store));
        var rb := Eval(fuel, branch, env, rc.store);
        OnlyTouchesTrans(st, rc.store, rb.store, env);
        rb
  }

  /** `(lambda params b1 ... bk)`: a procedure holding the parameter part,
      the body and a reference to the current environment. Nothing is
      evaluated and no environment changes. */
  function EvalLambda(xs: seq<Expr>, env: nat, st: Store): (r: Outcome<Expr>)
    requires WellFormed(st) && env < |st.envs| && AllClosed(xs, Limits(st))
    ensures Sound(st, env, r)
    ensures r.store.envs == st.envs
    ensures r.Normal? ==> r.value.Closure? && r.value.env == env
    ensures r.Normal? ==> r.value.id == st.made && r.store.made == st.made + 1
  {
    if |xs| < 2 then Abrupt(Raised, st)
    else
      var st1 := st.(made := st.made + 1);
      LambdaWellFormed(xs, env, st, st1);
      Normal(Closure(xs[1], xs[2..], env, st.made), st1)
  }

  /** Handing out the next procedure number keeps the store well formed,
      and the new procedure is closed in the grown store. */
  lemma LambdaWellFormed(xs: seq<Expr>, env: nat, st: Store, st1: Store)
    requires WellFormed(st) && env < |st.envs| && AllClosed(xs, Limits(st)) && |xs| >= 2
    requires st1 == st.(made := st.made + 1)
    ensures WellFormed(st1)
    ensures Closed(Closure(xs[1], xs[2..], env, st.made), Limits(st1))
  {
    WellFormedGrows(st, st1);
    AllClosedGrows(xs, Limits(st), Limits(st1));
    assert Closed(xs[1], Limits(st1));
    assert forall k :: 0 <= k < |xs[2..]| ==> xs[2..][k] == xs[k + 2];
  }

  /** Evaluates the operator, then the arguments from left to right, all in
      the same environment, and returns the callee's result unchanged. */
  function Apply(fuel: nat, op: Expr, args: seq<Expr>, env: nat, st: Store): (r: Outcome<Expr>)
    requires WellFormed(st) && env < |st.envs|
    requires Closed(op, Limits(st)) && AllClosed(args, Limits(st))
    ensures Sound(st, env, r)
    decreases fuel, 3, 0
  {
    var ro := Eval(fuel, op, env, st);
    if ro.Abrupt? then ro
    else
      AllClosedGrows(args, Limits(st), Limits(ro.store));
      var ra := EvalArgs(fuel, args, env, ro.store);
      if ra.Abrupt? then Abrupt(ra.fault, ra.store)
      else
        ClosedGrows(ro.value, Limits(ro.store), Limits(ra.store));
        var rc := Call(fuel, ro.value, ra.value, ra.store);
        OnlyTouchesTrans(st, ro.store, ra.store, env);
        rc
  }

  /** Evaluates argument expressions from left to right, stopping at the
      first that fails. */
  function EvalArgs(fuel: nat, args: seq<Expr>, env: nat, st: Store): (r: Outcome<seq<Expr>>)
    requires WellFormed(st) && env < |st.envs| && AllClosed(args, Limits(st))
    ensures WellFormed(r.store) && OnlyTouches(st, r.store, env)
    ensures r.Normal? ==> |r.value| == |args| && AllValues(r.value) && AllClosed(r.value, Limits(r.store))
    decreases fuel, 1, |args|
  {
    if |args| == 0 then Normal([], st)
    else
      var r0 := Eval(fuel, args[0], env, st);
      if r0.Abrupt? then Abrupt(r0.fault, r0.store)
      else
        AllClosedGrows(args[1..], Limits(st), Limits(r0.store));
        var rs := EvalArgs(fuel, args[1..], env, r0.store);
        OnlyTouchesTrans(st, r0.store, rs.store, env);
        if rs.Abrupt? then rs
        else
          ClosedGrows(r0.value, Limits(r0.store), Limits(rs.store));
          Normal([r0.value] + rs.value, rs.store)
  }

  /** Calls an evaluated operator. A primitive needs exactly two arguments.
      A procedure pairs its parameters with the arguments, stopping at the
      shorter list, and runs its body; it raises when the body is empty or
      the parameter part cannot be iterated. Anything else is not callable.
      No environment that existed before the call is changed by it. */
  function Call(fuel: nat, f: Expr, args: seq<Expr>, st: Store): (r: Outcome<Expr>)
    requires WellFormed(st) && IsValue(f) && Closed(f, Limits(st))
    requires AllValues(args) && AllClosed(args, Limits(st))
    ensures WellFormed(r.store) && Untouched(st, r.store)
    ensures r.Normal? ==> IsValue(r.value) && Closed(r.value, Limits(r.store))
    decreases fuel, 2, 0
  {
    match f
    case Prim(op) =>
      if |args| != 2 then Abrupt(Raised, st)
      else (
        match ApplyPrim(op, args[0], args[1])
        case Ok(v) => Normal(v, st)
        case Err(fault) => Abrupt(fault, st))
    case Closure(params, body, cap, _) =>
      if |body| == 0 then Abrupt(Raised, st)
      else (
        match ParamNames(params)
        case None => Abrupt(Raised, st)
        case Some(names) =>
          var pairs := Zip(names, args);
          assert PairsClosed(pairs, Limits(st)) by {
            assert Closed(params, Limits(st));
            forall k | 0 <= k < |names| ensures Closed(names[k], Limits(st)) {
              if params.Sym? {
                assert names[k] == Sym([params.name[k]]);
              } else {
                assert params.List? && names[k] == params.items[k];
              }
            }
          }
          RunBody(fuel, pairs, body, cap, st))
    case _ => Abrupt(Raised, st)
  }

  /** Runs body expressions in order. Each one has the parameter pairs
      substituted into it and is evaluated in a fresh copy of the captured
      environment, so a `define` in one body expression is not seen by the
      next; the value of the last one is the result. */
  function RunBody(fuel: nat, pairs: seq<(Expr, Expr)>, body: seq<Expr>, cap: nat, st: Store): (r: Outcome<Expr>)
    requires WellFormed(st) && cap < |st.envs| && |body| > 0
    requires AllClosed(body, Limits(st)) && PairsClosed(pairs, Limits(st))
    ensures WellFormed(r.store) && Untouched(st, r.store)
    ensures r.Normal? ==> IsValue(r.value) && Closed(r.value, Limits(r.store))
    decreases fuel, 1, |body|
  {
    var st1 := NewFrame(st, cap);
    ClosedGrows(body[0], Limits(st), Limits(st1));
    PairsClosedGrows(pairs, Limits(st), Limits(st1));
    BindAllClosed(body[0], pairs, Limits(st1));
    var r1 := Eval(fuel, BindAll(body[0], pairs), |st.envs|, st1);
    if r1.Abrupt? || |body| == 1 then r1
    else
      AllClosedGrows(body[1..], Limits(st), Limits(r1.store));
      PairsClosedGrows(pairs, Limits(st), Limits(r1.store));
      var rest := RunBody(fuel, pairs, body[1..], cap, r1.store);
      rest
  }
}
