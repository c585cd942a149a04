/**
 The example session at the end of scheme.py (lines 74-94), replayed on the
 model. Each example is first shown for any store whose current environment
 holds the bindings it uses, and then for the session itself, which runs in
 the top-level environment (id 0 of the initial store) and continues each
 statement from the store the previous one left.
 */
module Script {
  import opened Syntax
  import opened Substitution
  import opened Primitives
  import opened Environments
  import opened Evaluator
  import opened Semantics
  import opened Factorial

  function Call3(op: string, a: Expr, b: Expr): Expr {
    List([Sym(op), a, b])
  }

  /** Environment `env` of `st` binds `s` to the primitive `op`. */
  predicate Binds(st: Store, env: nat, s: string, op: PrimOp) {
    env < |st.envs| && s in st.envs[env] && st.envs[env][s] == Prim(op)
  }

  /** `(+ 1 (* 2 3))` is 7: the inner application is an argument of the
      outer one. */
  lemma NestedSumIn(fuel: nat, st: Store, env: nat)
    requires WellFormed(st) && Binds(st, env, "+", Add) && Binds(st, env, "*", Mul) && fuel >= 3
    ensures Eval(fuel, Call3("+", Int(1), Call3("*", Int(2), Int(3))), env, st) == Normal(Int(7), st)
  {
    PrimitiveApplication(fuel - 1, "*", Int(2), Int(3), env, st);
    PrimitiveOfEvaluated(fuel, "+", Int(1), Call3("*", Int(2), Int(3)), Int(6), env, st, st);
  }

  /** `(if (< 2 3) 4 5)` is 4. */
  lemma ThenBranchIn(fuel: nat, st: Store, env: nat)
    requires WellFormed(st) && Binds(st, env, "<", Lt) && fuel >= 3
    ensures Eval(fuel, List([IfKw, Call3("<", Int(2), Int(3)), Int(4), Int(5)]), env, st) == Normal(Int(4), st)
  {
    PrimitiveApplication(fuel - 1, "<", Int(2), Int(3), env, st);
    IfSelects(fuel, Call3("<", Int(2), Int(3)), Int(4), Int(5), env, st);
    SelfEvaluating(fuel - 1, Int(4), env, st);
  }

  /** `(if (> 2 3) 4 5)` is 5. */
  lemma ElseBranchIn(fuel: nat, st: Store, env: nat)
    requires WellFormed(st) && Binds(st, env, ">", Gt) && fuel >= 3
    ensures Eval(fuel, List([IfKw, Call3(">", Int(2), Int(3)), Int(4), Int(5)]), env, st) == Normal(Int(5), st)
  {
    PrimitiveApplication(fuel - 1, ">", Int(2), Int(3), env, st);
    IfSelects(fuel, Call3(">", Int(2), Int(3)), Int(4), Int(5), env, st);
    SelfEvaluating(fuel - 1, Int(5), env, st);
  }

  /** `(lambda (n) ...)` creates the factorial procedure, numbered by the
      store's counter, holding the current environment. */
  lemma FactLambdaIn(fuel: nat, st: Store, env: nat)
    requires WellFormed(st) && env < |st.envs| && fuel >= 1
    ensures Closed(FactLambda, Limits(st))
    ensures Eval(fuel, FactLambda, env, st) == Normal(FactProc(env, st.made), st.(made := st.made + 1))
  {
    FactBodyClosed(Limits(st));
    assert Closed(FactLambda, Limits(st));
    assert FactLambda == List([LambdaKw, List([Sym("n")])] + [FactBody]);
    LambdaCaptures(fuel, List([Sym("n")]), [FactBody], env, st);
  }

  /** Evaluating `(define fact (lambda (n) ...))` binds, in the current
      environment, a new procedure that holds that same environment. */
  lemma DefineFactIn(fuel: nat, st: Store, env: nat)
    requires WellFormed(st) && env < |st.envs| && fuel >= 2
    ensures Closed(FactDefine, Limits(st))
    ensures Eval(fuel, FactDefine, env, st)
         == Normal(Nothing, Store(st.envs[env := st.envs[env]["fact" := FactProc(env, st.made)]], st.made + 1))
  {
    FactLambdaIn(fuel - 1, st, env);
    assert Closed(FactDefine, Limits(st));
    DefineBinds(fuel, "fact", FactLambda, env, st);
  }

  /** `(fact n)` calls `fact` on n's value, so it returns whatever that
      call returns. */
  lemma FactByName(fuel: nat, k: nat, st: Store, g: Expr)
    requires Ready(st, g) && "n" in st.envs[g.env] && st.envs[g.env]["n"] == Int(k)
    requires fuel >= 2 && ReturnsFactorial(fuel - 1, k, st, g)
    ensures var r := Eval(fuel, List([Sym("fact"), Sym("n")]), g.env, st);
            r.Normal? && r.value == Int(Fact(k))
  {
    assert st.envs[g.env]["fact"] == g;
    NameApplication(fuel, "fact", "n", g.env, st);
  }

  /** `(fact n)` with `fact` ready and n bound to a positive integer k is
      k factorial. */
  lemma FactOfNameIn(fuel: nat, k: nat, st: Store, g: Expr)
    requires Ready(st, g) && "n" in st.envs[g.env] && st.envs[g.env]["n"] == Int(k)
    requires k >= 1 && fuel >= 3 * k + 3
    ensures var r := Eval(fuel, List([Sym("fact"), Sym("n")]), g.env, st);
            r.Normal? && r.value == Int(Fact(k))
  {
    FactCorrect(fuel - 1, k, st, g);
    FactByName(fuel, k, st, g);
  }

  /** The top level after `(define x 13)`. */
  function AfterX(): (st: Store)
    ensures WellFormed(st) && |st.envs| == 1
  {
    Store([PrimitiveTable()["x" := Int(13)]], 0)
  }

  /** The top level after `(define fact ...)`: the procedure captured the
      top level itself and is procedure number 0. */
  function AfterFact(): (st: Store)
    ensures WellFormed(st) && |st.envs| == 1
  {
    FactBodyClosed(Bound(1, 1));
    Store([AfterX().envs[0]["fact" := FactProc(0, 0)]], 1)
  }

  /** The top level after `(define n 5)`. */
  function AfterN(): (st: Store)
    ensures WellFormed(st) && |st.envs| == 1
  {
    Store([AfterFact().envs[0]["n" := Int(5)]], 1)
  }

  /** `seval(23, {}) == 23` and `seval("x", {"x": 23}) == 23`. */
  lemma Atoms(empty: Store, xs: Store)
    requires empty == Store([map[]], 0) && xs == Store([map["x" := Int(23)]], 0)
    ensures Eval(1, Int(23), 0, empty) == Normal(Int(23), empty)
    ensures Eval(1, Sym("x"), 0, xs) == Normal(Int(23), xs)
  {
    assert WellFormed(xs) by {
      assert forall x | x in xs.envs[0] :: xs.envs[0][x] == Int(23);
    }
    SymbolLookup(1, "x", 0, xs);
  }

  /** `(+ 1 2)` is 3 at the top level. */
  lemma SumExample(fuel: nat, st: Store)
    requires st == Initial() && fuel >= 2
    ensures Eval(fuel, Call3("+", Int(1), Int(2)), 0, st) == Normal(Int(3), st)
  {
    PrimitiveApplication(fuel, "+", Int(1), Int(2), 0, st);
  }

  /** `(+ 1 (* 2 3))` is 7 at the top level. */
  lemma NestedSumExample(fuel: nat, st: Store)
    requires st == Initial() && fuel >= 3
    ensures Eval(fuel, Call3("+", Int(1), Call3("*", Int(2), Int(3))), 0, st) == Normal(Int(7), st)
  {
    NestedSumIn(fuel, st, 0);
  }

  /** `(define x 13)` binds x at the top level and has no value. */
  lemma DefineX(fuel: nat, st: Store, st1: Store)
    requires st == Initial() && st1 == AfterX() && fuel >= 2
    ensures Eval(fuel, List([DefineKw, Sym("x"), Int(13)]), 0, st) == Normal(Nothing, st1)
  {
    DefineBinds(fuel, "x", Int(13), 0, st);
    SelfEvaluating(fuel - 1, Int(13), 0, st);
  }

  /** After `(define x 13)`, x evaluates to 13. */
  lemma LookupX(fuel: nat, st1: Store)
    requires st1 == AfterX() && fuel >= 1
    ensures Eval(fuel, Sym("x"), 0, st1) == Normal(Int(13), st1)
  {
    SymbolLookup(fuel, "x", 0, st1);
  }

  /** `(if (< 2 3) 4 5)`, evaluated after `(define x 13)`, is 4. */
  lemma ThenExample(fuel: nat, st: Store)
    requires st == AfterX() && fuel >= 3
    ensures Eval(fuel, List([IfKw, Call3("<", Int(2), Int(3)), Int(4), Int(5)]), 0, st) == Normal(Int(4), st)
  {
    ThenBranchIn(fuel, st, 0);
  }

  /** `(if (> 2 3) 4 5)`, evaluated after `(define x 13)`, is 5. */
  lemma ElseExample(fuel: nat, st: Store)
    requires st == AfterX() && fuel >= 3
    ensures Eval(fuel, List([IfKw, Call3(">", Int(2), Int(3)), Int(4), Int(5)]), 0, st) == Normal(Int(5), st)
  {
    ElseBranchIn(fuel, st, 0);
  }

  /** Substituting 2 for x in `(* (+ x y) (x))` replaces both occurrences,
      including the one nested two tuples deep. */
  lemma SubstitutionExample()
    ensures Substitute(List([Sym("*"), Call3("+", Sym("x"), Sym("y")), List([Sym("x")])]), Sym("x"), Int(2))
         == List([Sym("*"), Call3("+", Int(2), Sym("y")), List([Int(2)])])
  {
    var v := Int(2);
    SubstituteCases(Sym("x"), "x", v);
    SubstituteCases(Sym("y"), "x", v);
    SubstituteCases(Sym("*"), "x", v);
    SubstituteCases(Sym("+"), "x", v);
    SubstituteTuple([Sym("+"), Sym("x"), Sym("y")], "x", v, [Sym("+"), Int(2), Sym("y")]);
    SubstituteTuple([Sym("x")], "x", v, [Int(2)]);
    SubstituteTuple([Sym("*"), Call3("+", Sym("x"), Sym("y")), List([Sym("x")])], "x", v,
                    [Sym("*"), Call3("+", Int(2), Sym("y")), List([Int(2)])]);
  }

  /** `(define fact ...)`, run after `(define x 13)`, binds procedure number
      0, which holds the top level itself. */
  lemma DefineFactExample(fuel: nat, st: Store, st1: Store)
    requires st == AfterX() && st1 == AfterFact() && fuel >= 2
    ensures Closed(FactDefine, Limits(st))
    ensures Eval(fuel, FactDefine, 0, st) == Normal(Nothing, st1)
  {
    DefineFactIn(fuel, st, 0);
  }

  /** `(define n 5)` then binds n beside it. */
  lemma DefineNExample(fuel: nat, st1: Store, st2: Store)
    requires st1 == AfterFact() && st2 == AfterN() && fuel >= 2
    ensures Eval(fuel, List([DefineKw, Sym("n"), Int(5)]), 0, st1) == Normal(Nothing, st2)
  {
    SelfEvaluating(fuel - 1, Int(5), 0, st1);
    DefineBinds(fuel, "n", Int(5), 0, st1);
  }

  /** After the two definitions the top level is ready for the call, and
      binds n to 5. */
  lemma SessionReady(st2: Store)
    requires st2 == AfterN()
    ensures Ready(st2, FactProc(0, 0))
    ensures "n" in st2.envs[0] && st2.envs[0]["n"] == Int(5)
  {
  }

  /** Finally `(fact n)` is 120. */
  lemma FactExample(fuel: nat, st2: Store)
    requires st2 == AfterN() && fuel >= 18
    ensures var r := Eval(fuel, List([Sym("fact"), Sym("n")]), 0, st2);
            r.Normal? && r.value == Int(120)
  {
    SessionReady(st2);
    FactOfNameIn(fuel, 5, st2, FactProc(0, 0));
    assert Fact(5) == 120;
  }
}
