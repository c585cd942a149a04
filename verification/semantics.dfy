/**
 Properties of evaluation, one per kind of expression, and of procedure
 calls.
 */
module Semantics {
  import opened Syntax
  import opened Substitution
  import opened Primitives
  import opened Environments
  import opened Evaluator

  /** Numbers, booleans and procedures evaluate to themselves and change
      nothing. */
  lemma SelfEvaluating(fuel: nat, e: Expr, env: nat, st: Store)
    requires WellFormed(st) && env < |st.envs| && Closed(e, Limits(st))
    requires fuel >= 1 && (e.Int? || e.Bool? || e.Closure?)
    ensures Eval(fuel, e, env, st) == Normal(e, st)
  {
  }

  /** A symbol evaluates to its binding in the current environment; an
      unbound symbol raises. Neither changes the store. */
  lemma SymbolLookup(fuel: nat, s: string, env: nat, st: Store)
    requires WellFormed(st) && env < |st.envs| && fuel >= 1
    ensures s in st.envs[env] ==> Eval(fuel, Sym(s), env, st) == Normal(st.envs[env][s], st)
    ensures s !in st.envs[env] ==> Eval(fuel, Sym(s), env, st) == Abrupt(Raised, st)
  {
  }

  /** A primitive operator or the "no value" of `define`, spliced into an
      expression by substitution, is a bad expression; so is the empty
      tuple. */
  lemma BadExpressions(fuel: nat, e: Expr, env: nat, st: Store)
    requires WellFormed(st) && env < |st.envs| && fuel >= 1
    requires e.Prim? || e.Nothing? || e == List([])
    ensures Eval(fuel, e, env, st) == Abrupt(Raised, st)
  {
  }

  /** `(define n e)` evaluates `e` in the current environment and binds `n`
      to the result in that same environment: afterwards `n` evaluates to the
      value, every other binding is as `e` left it, no other existing
      environment changes, and the form yields no value. If `e` fails the
      whole form fails the same way. */
  lemma DefineBinds(fuel: nat, n: string, e: Expr, env: nat, st: Store)
    requires WellFormed(st) && env < |st.envs| && Closed(e, Limits(st)) && fuel >= 1
    ensures var rv := Eval(fuel - 1, e, env, st);
            var r := Eval(fuel, List([DefineKw, Sym(n), e]), env, st);
            && (rv.Abrupt? ==> r == rv)
            && (rv.Normal? ==>
                  && r.Normal? && r.value == Nothing
                  && r.store.envs[env] == rv.store.envs[env][n := rv.value]
                  && OnlyTouches(st, r.store, env)
                  && Eval(1, Sym(n), env, r.store) == Normal(rv.value, r.store))
  {
    var xs := [DefineKw, Sym(n), e];
    assert AllClosed(xs, Limits(st));
    assert Eval(fuel, List(xs), env, st) == EvalDefine(fuel - 1, xs, env, st);
  }

  /** A `define`, `if` or `lambda` form that is too short raises before
      anything in it is evaluated, so the store is unchanged. */
  lemma ShortSpecialForms(fuel: nat, xs: seq<Expr>, env: nat, st: Store)
    requires WellFormed(st) && env < |st.envs| && AllClosed(xs, Limits(st)) && fuel >= 1
    requires || (|xs| >= 1 && xs[0] == DefineKw && |xs| < 3)
             || (|xs| >= 1 && xs[0] == IfKw && |xs| < 4)
             || (|xs| >= 1 && xs[0] == LambdaKw && |xs| < 2)
    ensures Eval(fuel, List(xs), env, st) == Abrupt(Raised, st)
  {
  }

  /** `(if c t e)` evaluates `c` and then exactly the branch its truthiness
      selects, in the store `c` left behind; if `c` fails, so does the form. */
  lemma IfSelects(fuel: nat, c: Expr, t: Expr, f: Expr, env: nat, st: Store)
    requires WellFormed(st) && env < |st.envs| && fuel >= 1
    requires Closed(c, Limits(st)) && Closed(t, Limits(st)) && Closed(f, Limits(st))
    ensures var rc := Eval(fuel - 1, c, env, st);
            rc.Normal? ==> Closed(t, Limits(rc.store)) && Closed(f, Limits(rc.store))
    ensures var rc := Eval(fuel - 1, c, env, st);
            var r := Eval(fuel, List([IfKw, c, t, f]), env, st);
            && (rc.Abrupt? ==> r == rc)
            && (rc.Normal? && Truthy(rc.value) ==> r == Eval(fuel - 1, t, env, rc.store))
            && (rc.Normal? && !Truthy(rc.value) ==> r == Eval(fuel - 1, f, env, rc.store))
  {
    var xs := [IfKw, c, t, f];
    assert AllClosed(xs, Limits(st));
    var rc := Eval(fuel - 1, c, env, st);
    if rc.Normal? {
      ClosedGrows(t, Limits(st), Limits(rc.store));
      ClosedGrows(f, Limits(st), Limits(rc.store));
    }
    assert Eval(fuel, List(xs), env, st) == EvalIf(fuel - 1, xs, env, st);
  }

  /** The branch that is not taken is never evaluated: replacing it by any
      other expression, even one that would raise or diverge, does not change
      the outcome. */
  lemma IfIgnoresUntaken(fuel: nat, c: Expr, t: Expr, f: Expr, t2: Expr, f2: Expr, env: nat, st: Store)
    requires WellFormed(st) && env < |st.envs| && fuel >= 1
    requires Closed(c, Limits(st)) && Closed(t, Limits(st)) && Closed(f, Limits(st))
    requires Closed(t2, Limits(st)) && Closed(f2, Limits(st))
    ensures var rc := Eval(fuel - 1, c, env, st);
            rc.Normal? && Truthy(rc.value) ==>
              Eval(fuel, List([IfKw, c, t, f]), env, st) == Eval(fuel, List([IfKw, c, t, f2]), env, st)
    ensures var rc := Eval(fuel - 1, c, env, st);
            !(rc.Normal? && Truthy(rc.value)) ==>
              Eval(fuel, List([IfKw, c, t, f]), env, st) == Eval(fuel, List([IfKw, c, t2, f]), env, st)
  {
    IfSelects(fuel, c, t, f, env, st);
    IfSelects(fuel, c, t, f2, env, st);
    IfSelects(fuel, c, t2, f, env, st);
  }

  /** `(lambda ps b1 ... bk)` evaluates nothing: it yields a new procedure
      holding `ps`, the body and the id of the current environment (a
      reference, not a copy), and leaves every environment as it was. */
  lemma LambdaCaptures(fuel: nat, ps: Expr, body: seq<Expr>, env: nat, st: Store)
    requires WellFormed(st) && env < |st.envs| && fuel >= 1
    requires Closed(ps, Limits(st)) && AllClosed(body, Limits(st))
    ensures Eval(fuel, List([LambdaKw, ps] + body), env, st)
         == Normal(Closure(ps, body, env, st.made), st.(made := st.made + 1))
  {
    var xs := [LambdaKw, ps] + body;
    assert xs[2..] == body;
    assert AllClosed(xs, Limits(st));
  }

  /** A `lambda` form makes a procedure that is `==` to no value the store
      held before: procedures compare by identity, and each evaluation of a
      `lambda` form makes a new one. */
  lemma LambdaIsFresh(fuel: nat, ps: Expr, body: seq<Expr>, env: nat, st: Store, v: Expr)
    requires WellFormed(st) && env < |st.envs| && fuel >= 1
    requires Closed(ps, Limits(st)) && AllClosed(body, Limits(st)) && Closed(v, Limits(st))
    ensures var r := Eval(fuel, List([LambdaKw, ps] + body), env, st);
            r.Normal? && !PyEq(r.value, v) && !PyEq(v, r.value)
  {
    LambdaCaptures(fuel, ps, body, env, st);
    NewProcedureDistinct(v, Closure(ps, body, env, st.made), Limits(st));
  }

  /** Comparing whatever a name is bound to with a procedure made on the
      spot by a `lambda` form gives false, even when the name is bound to a
      procedure with the same parameters and body. */
  lemma CompareWithNewProcedure(fuel: nat, f: string, ps: Expr, body: seq<Expr>, env: nat, st: Store)
    requires WellFormed(st) && env < |st.envs| && fuel >= 2
    requires "=" in st.envs[env] && st.envs[env]["="] == Prim(Eq) && f in st.envs[env]
    requires Closed(ps, Limits(st)) && AllClosed(body, Limits(st))
    ensures Eval(fuel, List([Sym("="), Sym(f), List([LambdaKw, ps] + body)]), env, st)
         == Normal(Bool(false), st.(made := st.made + 1))
  {
    var lam := List([LambdaKw, ps] + body);
    var clo := Closure(ps, body, env, st.made);
    var v := st.envs[env][f];
    LambdaArgument(fuel - 1, f, ps, body, env, st);
    SymbolLookup(fuel - 1, "=", env, st);
    assert [Sym("=")] + [Sym(f), lam] == [Sym("="), Sym(f), lam];
    ApplicationOrder(fuel, Sym("="), [Sym(f), lam], env, st);
    NewProcedureDistinct(v, clo, Limits(st));
  }

  /** The arguments of that comparison: the name's binding, then the new
      procedure. */
  lemma LambdaArgument(fuel: nat, f: string, ps: Expr, body: seq<Expr>, env: nat, st: Store)
    requires WellFormed(st) && env < |st.envs| && fuel >= 1 && f in st.envs[env]
    requires Closed(ps, Limits(st)) && AllClosed(body, Limits(st))
    ensures Closed(List([LambdaKw, ps] + body), Limits(st))
    ensures EvalArgs(fuel, [Sym(f), List([LambdaKw, ps] + body)], env, st)
         == Normal([st.envs[env][f], Closure(ps, body, env, st.made)], st.(made := st.made + 1))
  {
    var lam := List([LambdaKw, ps] + body);
    assert Closed(lam, Limits(st)) by {
      assert forall k :: 0 <= k < |body| ==> lam.items[k + 2] == body[k];
    }
    SymbolLookup(fuel, f, env, st);
    LambdaCaptures(fuel, ps, body, env, st);
    TwoArguments(fuel, Sym(f), lam, env, st);
  }

  /** An application evaluates the operator first, then the arguments from
      left to right in the store the operator left, and returns the callee's
      result unchanged; the first failure ends it. */
  lemma ApplicationOrder(fuel: nat, op: Expr, args: seq<Expr>, env: nat, st: Store)
    requires WellFormed(st) && env < |st.envs| && fuel >= 1
    requires Closed(op, Limits(st)) && AllClosed(args, Limits(st))
    requires op != DefineKw && op != IfKw && op != LambdaKw
    ensures var ro := Eval(fuel - 1, op, env, st);
            ro.Normal? ==> AllClosed(args, Limits(ro.store))
    ensures var ro := Eval(fuel - 1, op, env, st);
            ro.Normal? ==>
              var ra := EvalArgs(fuel - 1, args, env, ro.store);
              ra.Normal? ==> Closed(ro.value, Limits(ra.store))
    ensures var ro := Eval(fuel - 1, op, env, st);
            var r := Eval(fuel, List([op] + args), env, st);
            && (ro.Abrupt? ==> r == ro)
            && (ro.Normal? ==>
                  var ra := EvalArgs(fuel - 1, args, env, ro.store);
                  && (ra.Abrupt? ==> r == Abrupt(ra.fault, ra.store))
                  && (ra.Normal? ==> r == Call(fuel - 1, ro.value, ra.value, ra.store)))
  {
    var xs := [op] + args;
    assert xs[0] == op && xs[1..] == args;
    assert AllClosed(xs, Limits(st));
    var ro := Eval(fuel - 1, op, env, st);
    if ro.Normal? {
      AllClosedGrows(args, Limits(st), Limits(ro.store));
      var ra := EvalArgs(fuel - 1, args, env, ro.store);
      if ra.Normal? {
        ClosedGrows(ro.value, Limits(ro.store), Limits(ra.store));
      }
    }
  }

  predicate AllNumbers(es: seq<Expr>) {
    forall k :: 0 <= k < |es| ==> IsNumber(es[k])
  }

  /** Number and boolean arguments evaluate to themselves, in order, without
      touching the store. */
  lemma {:induction false} LiteralArguments(fuel: nat, args: seq<Expr>, env: nat, st: Store)
    requires WellFormed(st) && env < |st.envs| && fuel >= 1 && AllNumbers(args)
    ensures EvalArgs(fuel, args, env, st) == Normal(args, st)
    decreases |args|
  {
    if |args| > 0 {
      assert AllNumbers(args[1..]);
      LiteralArguments(fuel, args[1..], env, st);
      assert [args[0]] + args[1..] == args;
    }
  }

  /** Two arguments that evaluate normally, one after the other. */
  lemma TwoArguments(fuel: nat, a: Expr, b: Expr, env: nat, st: Store)
    requires WellFormed(st) && env < |st.envs| && Closed(a, Limits(st)) && Closed(b, Limits(st))
    requires Eval(fuel, a, env, st).Normal?
    ensures var ra := Eval(fuel, a, env, st);
            Closed(b, Limits(ra.store))
    ensures var ra := Eval(fuel, a, env, st);
            var rb := Eval(fuel, b, env, ra.store);
            rb.Normal? ==> EvalArgs(fuel, [a, b], env, st) == Normal([ra.value, rb.value], rb.store)
  {
    var ra := Eval(fuel, a, env, st);
    ClosedGrows(b, Limits(st), Limits(ra.store));
    assert [a, b][1..] == [b];
    var rb := Eval(fuel, b, env, ra.store);
    if rb.Normal? {
      OneArgument(fuel, b, env, ra.store);
      assert EvalArgs(fuel, [b], env, ra.store) == Normal([rb.value], rb.store);
      assert [ra.value] + [rb.value] == [ra.value, rb.value];
    }
  }

  /** A single argument that evaluates normally. */
  lemma OneArgument(fuel: nat, a: Expr, env: nat, st: Store)
    requires WellFormed(st) && env < |st.envs| && Closed(a, Limits(st))
    requires Eval(fuel, a, env, st).Normal?
    ensures var ra := Eval(fuel, a, env, st);
            EvalArgs(fuel, [a], env, st) == Normal([ra.value], ra.store)
  {
    var ra := Eval(fuel, a, env, st);
    assert [a][1..] == [];
    assert EvalArgs(fuel, [], env, ra.store) == Normal([], ra.store);
    assert [ra.value] + [] == [ra.value];
  }

  /** Applying a symbol bound to a primitive to two number operands gives
      the primitive's native result and leaves the store unchanged. */
  lemma PrimitiveApplication(fuel: nat, s: string, a: Expr, b: Expr, env: nat, st: Store)
    requires WellFormed(st) && env < |st.envs| && fuel >= 2
    requires Sym(s) != DefineKw && Sym(s) != IfKw && Sym(s) != LambdaKw
    requires s in st.envs[env] && st.envs[env][s].Prim?
    requires IsNumber(a) && IsNumber(b)
    ensures Eval(fuel, List([Sym(s), a, b]), env, st)
         == match ApplyPrim(st.envs[env][s].op, a, b)
            case Ok(v) => Normal(v, st)
            case Err(fault) => Abrupt(fault, st)
  {
    ApplicationOrder(fuel, Sym(s), [a, b], env, st);
    assert [Sym(s)] + [a, b] == [Sym(s), a, b];
    LiteralArguments(fuel - 1, [a, b], env, st);
  }

  /** The same with a second operand that has to be evaluated first: the
      primitive is applied to its value, in the store it left behind. */
  lemma PrimitiveOfEvaluated(fuel: nat, s: string, a: Expr, e: Expr, v: Expr, env: nat, st: Store, st2: Store)
    requires WellFormed(st) && env < |st.envs| && fuel >= 2
    requires Sym(s) != DefineKw && Sym(s) != IfKw && Sym(s) != LambdaKw
    requires s in st.envs[env] && st.envs[env][s].Prim?
    requires IsNumber(a) && Closed(e, Limits(st)) && IsNumber(v)
    requires Eval(fuel - 1, e, env, st) == Normal(v, st2)
    ensures Eval(fuel, List([Sym(s), a, e]), env, st)
         == match ApplyPrim(st.envs[env][s].op, a, v)
            case Ok(w) => Normal(w, st2)
            case Err(fault) => Abrupt(fault, st2)
  {
    var ra := EvalArgs(fuel - 1, [a, e], env, st);
    assert ra == Normal([a, v], st2) by {
      SelfEvaluating(fuel - 1, a, env, st);
      TwoArguments(fuel - 1, a, e, env, st);
    }
    assert Eval(fuel - 1, Sym(s), env, st) == Normal(st.envs[env][s], st) by {
      SymbolLookup(fuel - 1, s, env, st);
    }
    assert [Sym(s)] + [a, e] == [Sym(s), a, e];
    ApplicationOrder(fuel, Sym(s), [a, e], env, st);
  }

  /** Applying a name to a name calls the first one's binding on the second
      one's, in the same store. */
  lemma NameApplication(fuel: nat, f: string, x: string, env: nat, st: Store)
    requires WellFormed(st) && env < |st.envs| && fuel >= 2
    requires Sym(f) != DefineKw && Sym(f) != IfKw && Sym(f) != LambdaKw
    requires f in st.envs[env] && x in st.envs[env]
    ensures Eval(fuel, List([Sym(f), Sym(x)]), env, st) == Call(fuel - 1, st.envs[env][f], [st.envs[env][x]], st)
  {
    assert Eval(fuel - 1, Sym(f), env, st) == Normal(st.envs[env][f], st) by {
      SymbolLookup(fuel - 1, f, env, st);
    }
    assert EvalArgs(fuel - 1, [Sym(x)], env, st) == Normal([st.envs[env][x]], st) by {
      SymbolLookup(fuel - 1, x, env, st);
      OneArgument(fuel - 1, Sym(x), env, st);
    }
    assert [Sym(f)] + [Sym(x)] == [Sym(f), Sym(x)];
    ApplicationOrder(fuel, Sym(f), [Sym(x)], env, st);
  }

  /** A parameter part that is a string names one parameter per character:
      the procedure behaves exactly like one whose parameter part is the
      tuple of those one-character names. */
  lemma StringParameters(fuel: nat, s: string, body: seq<Expr>, cap: nat, id: nat, args: seq<Expr>, st: Store)
    requires WellFormed(st) && Closed(Closure(Sym(s), body, cap, id), Limits(st))
    requires AllValues(args) && AllClosed(args, Limits(st))
    ensures Closed(Closure(List(CharSymbols(s)), body, cap, id), Limits(st))
    ensures Call(fuel, Closure(Sym(s), body, cap, id), args, st)
         == Call(fuel, Closure(List(CharSymbols(s)), body, cap, id), args, st)
  {
  }

  /** A procedure call never changes an environment that existed before it,
      in particular not the captured one; so a second call of the same
      procedure starts from exactly the bindings the first one started from,
      and cannot see what the first call defined. */
  lemma CallsDoNotInterfere(fuel: nat, f: Expr, args: seq<Expr>, st: Store)
    requires WellFormed(st) && f.Closure? && Closed(f, Limits(st))
    requires AllValues(args) && AllClosed(args, Limits(st))
    ensures f.env < |st.envs|
    ensures var r := Call(fuel, f, args, st);
            && f.env < |r.store.envs|
            && r.store.envs[f.env] == st.envs[f.env]
            && NewFrame(r.store, f.env).envs[|r.store.envs|] == NewFrame(st, f.env).envs[|st.envs|]
  {
  }

  /** Each body expression is evaluated in a fresh copy of the captured
      environment. After the first one succeeds, the rest of the body runs
      from the store it left, in which the captured environment is
      unchanged, so its `define`s are invisible to the next expression. */
  lemma BodyExpressionsIsolated(fuel: nat, pairs: seq<(Expr, Expr)>, b: Expr, rest: seq<Expr>, cap: nat, st: Store)
    requires WellFormed(st) && cap < |st.envs|
    requires Closed(b, Limits(st)) && AllClosed(rest, Limits(st)) && PairsClosed(pairs, Limits(st))
    ensures var st1 := NewFrame(st, cap);
            Closed(BindAll(b, pairs), Limits(st1))
    ensures var st1 := NewFrame(st, cap);
            var r1 := Eval(fuel, BindAll(b, pairs), |st.envs|, st1);
            && r1.store.envs[cap] == st.envs[cap]
            && (rest == [] ==> RunBody(fuel, pairs, [b] + rest, cap, st) == r1)
            && (r1.Abrupt? ==> RunBody(fuel, pairs, [b] + rest, cap, st) == r1)
            && (r1.Normal? && rest != [] ==>
                  AllClosed(rest, Limits(r1.store)) && PairsClosed(pairs, Limits(r1.store)) &&
                  RunBody(fuel, pairs, [b] + rest, cap, st) == RunBody(fuel, pairs, rest, cap, r1.store))
  {
    var st1 := NewFrame(st, cap);
    ClosedGrows(b, Limits(st), Limits(st1));
    PairsClosedGrows(pairs, Limits(st), Limits(st1));
    BindAllClosed(b, pairs, Limits(st1));
    var r1 := Eval(fuel, BindAll(b, pairs), |st.envs|, st1);
    var body := [b] + rest;
    assert body[0] == b && body[1..] == rest;
    assert AllClosed(body, Limits(st));
    if r1.Normal? && rest != [] {
      AllClosedGrows(rest, Limits(st), Limits(r1.store));
      PairsClosedGrows(pairs, Limits(st), Limits(r1.store));
    }
  }

  /** A procedure with an empty body raises when called (its result variable
      is never assigned); so does one whose parameter part cannot be
      iterated. Numbers, booleans and "no value" cannot be called, and a
      primitive needs exactly two arguments. */
  lemma CallFailures(fuel: nat, f: Expr, args: seq<Expr>, st: Store)
    requires WellFormed(st) && IsValue(f) && Closed(f, Limits(st))
    requires AllValues(args) && AllClosed(args, Limits(st))
    requires || (f.Closure? && (f.body == [] || !(f.params.List? || f.params.Sym?)))
             || f.Int? || f.Bool? || f.Nothing?
             || (f.Prim? && |args| != 2)
    ensures Call(fuel, f, args, st) == Abrupt(Raised, st)
  {
  }

  /** Arguments beyond the parameters are silently dropped. */
  lemma ExtraArgumentsIgnored(fuel: nat, f: Expr, args: seq<Expr>, more: seq<Expr>, st: Store)
    requires WellFormed(st) && f.Closure? && Closed(f, Limits(st))
    requires f.params.List? && |f.params.items| <= |args|
    requires AllValues(args + more) && AllClosed(args + more, Limits(st))
    ensures AllValues(args) && AllClosed(args, Limits(st))
    ensures Call(fuel, f, args + more, st) == Call(fuel, f, args, st)
  {
    assert forall k :: 0 <= k < |args| ==> args[k] == (args + more)[k];
    var ps := f.params.items;
    assert Zip(ps, args + more) == Zip(ps, args);
  }

  /** Parameters beyond the arguments receive no substitution: the call is
      the same as a call of the procedure without them, so they remain
      symbols in the body and are looked up when evaluated. */
  lemma ExtraParametersUnbound(fuel: nat, f: Expr, args: seq<Expr>, st: Store)
    requires WellFormed(st) && f.Closure? && Closed(f, Limits(st))
    requires f.params.List? && |f.params.items| >= |args|
    requires AllValues(args) && AllClosed(args, Limits(st))
    ensures var g := f.(params := List(f.params.items[..|args|]));
            Closed(g, Limits(st)) && Call(fuel, f, args, st) == Call(fuel, g, args, st)
  {
    var ps := f.params.items;
    var g := f.(params := List(ps[..|args|]));
    assert Closed(f.params, Limits(st));
    assert Closed(g.params, Limits(st));
    assert Zip(ps, args) == Zip(ps[..|args|], args);
  }
}
