/**
 Environments and the store that holds them. The host program shares a
 dictionary between the top level and every procedure created there, and
 copies it on each call; the model gives each dictionary an id (its index
 in the store), so that a procedure can hold its environment by reference
 and a `define` is seen by everyone who holds the same id.
 */
module Environments {
  import opened Syntax
  import opened Primitives

  type Env = map<string, Expr>

  /** `envs[id]` is the environment with that id; `made` counts the
      procedures created so far and numbers the next one. */
  datatype Store = Store(envs: seq<Env>, made: nat)

  /** The environment ids and procedure numbers handed out so far. */
  function Limits(st: Store): Bound {
    Bound(|st.envs|, st.made)
  }

  /** Every binding holds a value, and every procedure reachable from the
      store refers to an environment that exists and carries a number that
      has already been handed out. */
  predicate WellFormed(st: Store) {
    forall i, x :: 0 <= i < |st.envs| && x in st.envs[i] ==>
      IsValue(st.envs[i][x]) && Closed(st.envs[i][x], Limits(st))
  }

  /** The store at start-up: environment 0 is the primitive table. */
  function Initial(): (st: Store)
    ensures WellFormed(st) && |st.envs| == 1 && st.made == 0
    ensures forall x :: x in st.envs[0] ==> st.envs[0][x].Prim?
    ensures forall op: PrimOp :: Prim(op) in st.envs[0].Values
  {
    TableBindsEveryOperator();
    Store([PrimitiveTable()], 0)
  }

  /** `st2` is a later store: no environment and no procedure number is
      given back. */
  predicate Extends(st: Store, st2: Store) {
    |st.envs| <= |st2.envs| && st.made <= st2.made
  }

  /** No environment of `st` other than `env` differs in `st2`. */
  predicate OnlyTouches(st: Store, st2: Store, env: nat) {
    Extends(st, st2) &&
    forall i :: 0 <= i < |st.envs| && i != env ==> st2.envs[i] == st.envs[i]
  }

  /** No environment of `st` differs in `st2`. */
  predicate Untouched(st: Store, st2: Store) {
    Extends(st, st2) &&
    forall i :: 0 <= i < |st.envs| ==> st2.envs[i] == st.envs[i]
  }

  lemma OnlyTouchesTrans(a: Store, b: Store, c: Store, env: nat)
    requires OnlyTouches(a, b, env) && OnlyTouches(b, c, env)
    ensures OnlyTouches(a, c, env)
  {
  }

  /** A store extended by new environments is well formed when the old part
      was and the new environments hold closed values. */
  lemma WellFormedGrows(st: Store, st2: Store)
    requires WellFormed(st) && Untouched(st, st2)
    requires forall i, x :: |st.envs| <= i < |st2.envs| && x in st2.envs[i] ==>
      IsValue(st2.envs[i][x]) && Closed(st2.envs[i][x], Limits(st2))
    ensures WellFormed(st2)
  {
    forall i, x | 0 <= i < |st2.envs| && x in st2.envs[i]
      ensures IsValue(st2.envs[i][x]) && Closed(st2.envs[i][x], Limits(st2))
    {
      if i < |st.envs| {
        ClosedGrows(st.envs[i][x], Limits(st), Limits(st2));
      }
    }
  }

  /** A fresh copy of environment `cap`, which gets id `|st.envs|`; the
      copied environment itself is not affected by anything later done to
      the copy. */
  function NewFrame(st: Store, cap: nat): (r: Store)
    requires WellFormed(st) && cap < |st.envs|
    ensures WellFormed(r)
    ensures |r.envs| == |st.envs| + 1 && r.made == st.made
    ensures r.envs[|st.envs|] == st.envs[cap]
    ensures Untouched(st, r)
  {
    var r := Store(st.envs + [st.envs[cap]], st.made);
    CopyWellFormed(st, cap, r);
    r
  }

  lemma CopyWellFormed(st: Store, cap: nat, r: Store)
    requires WellFormed(st) && cap < |st.envs|
    requires r == Store(st.envs + [st.envs[cap]], st.made)
    ensures WellFormed(r)
  {
    forall x | x in r.envs[|st.envs|]
      ensures IsValue(r.envs[|st.envs|][x]) && Closed(r.envs[|st.envs|][x], Limits(r))
    {
      ClosedGrows(st.envs[cap][x], Limits(st), Limits(r));
    }
    WellFormedGrows(st, r);
  }

  /** `define`'s effect: binds `name` to `v` in environment `env`, in place. */
  function Bind(st: Store, env: nat, name: string, v: Expr): (r: Store)
    requires WellFormed(st) && env < |st.envs|
    requires IsValue(v) && Closed(v, Limits(st))
    ensures WellFormed(r)
    ensures |r.envs| == |st.envs| && r.made == st.made
    ensures name in r.envs[env] && r.envs[env][name] == v
    ensures r.envs[env].Keys == st.envs[env].Keys + {name}
    ensures forall x :: x in st.envs[env] && x != name ==> r.envs[env][x] == st.envs[env][x]
    ensures OnlyTouches(st, r, env)
  {
    Store(st.envs[env := st.envs[env][name := v]], st.made)
  }
}
