/**
 Parameter binding by textual substitution (scheme.py lines 18-24 and the
 pairing loop of a procedure call, lines 33-35). Substitution is purely
 structural: it knows nothing about scope, so a nested `lambda` that reuses
 a parameter name is rewritten as well.
 */
module Substitution {
  import opened Syntax

  /** Replaces every sub-expression that is `==` to `name` by `v`; the
      comparison is made before descending into a tuple. */
  function Substitute(e: Expr, name: Expr, v: Expr): Expr
    decreases e
  {
    if PyEq(e, name) then v
    else match e
      case List(xs) => List(seq(|xs|, k requires 0 <= k < |xs| => Substitute(xs[k], name, v)))
      case _ => e
  }

  /** The symbol `s` appears somewhere in `e`. */
  predicate Occurs(e: Expr, s: string)
    decreases e
  {
    e == Sym(s) || (e.List? && exists k :: 0 <= k < |e.items| && Occurs(e.items[k], s))
  }

  /** The three cases of substitution for a symbol name: the symbol itself
      becomes the value, a tuple becomes a tuple of the same length with each
      element substituted in place, and any other atom (a number, another
      symbol, an embedded procedure) is returned unchanged. */
  lemma SubstituteCases(e: Expr, s: string, v: Expr)
    ensures e == Sym(s) ==> Substitute(e, Sym(s), v) == v
    ensures e.List? ==>
      && Substitute(e, Sym(s), v).List?
      && |Substitute(e, Sym(s), v).items| == |e.items|
      && forall k :: 0 <= k < |e.items| ==> Substitute(e, Sym(s), v).items[k] == Substitute(e.items[k], Sym(s), v)
    ensures !e.List? && e != Sym(s) ==> Substitute(e, Sym(s), v) == e
  {
    PyEqSymbol(e, s);
  }

  /** Substituting a name that does not occur returns the input unchanged. */
  lemma {:induction false} SubstituteAbsent(e: Expr, s: string, v: Expr)
    requires !Occurs(e, s)
    ensures Substitute(e, Sym(s), v) == e
    decreases e
  {
    PyEqSymbol(e, s);
    if e.List? {
      var xs := e.items;
      forall k | 0 <= k < |xs| ensures Substitute(xs[k], Sym(s), v) == xs[k] {
        SubstituteAbsent(xs[k], s, v);
      }
      assert Substitute(e, Sym(s), v).items == xs;
    }
  }

  /** Which symbols occur after a substitution: `t` occurs in the result
      exactly when it occurred in `e` away from the replaced symbol, or the
      replaced symbol occurred and `t` occurs in the value. */
  lemma {:induction false} SubstituteOccurs(e: Expr, s: string, v: Expr, t: string)
    ensures Occurs(Substitute(e, Sym(s), v), t) <==>
      (t != s && Occurs(e, t)) || (Occurs(e, s) && Occurs(v, t))
    decreases e
  {
    PyEqSymbol(e, s);
    if e != Sym(s) && e.List? {
      var xs := e.items;
      var r := Substitute(e, Sym(s), v);
      forall k | 0 <= k < |xs|
        ensures Occurs(r.items[k], t) <==> (t != s && Occurs(xs[k], t)) || (Occurs(xs[k], s) && Occurs(v, t))
      {
        SubstituteOccurs(xs[k], s, v, t);
      }
      if Occurs(r, t) {
        var k :| 0 <= k < |xs| && Occurs(r.items[k], t);
        assert Occurs(xs[k], t) || Occurs(xs[k], s);
      }
      if t != s && Occurs(e, t) {
        var k :| 0 <= k < |xs| && Occurs(xs[k], t);
        assert Occurs(r.items[k], t);
      }
      if Occurs(e, s) && Occurs(v, t) {
        var k :| 0 <= k < |xs| && Occurs(xs[k], s);
        assert Occurs(r.items[k], t);
      }
    }
  }

  /** When the value does not mention the name, substitution removes the
      name entirely. */
  lemma SubstituteRemoves(e: Expr, s: string, v: Expr)
    requires !Occurs(v, s)
    ensures !Occurs(Substitute(e, Sym(s), v), s)
  {
    SubstituteOccurs(e, s, v, s);
  }

  /** Substitution is idempotent when the value does not mention the name. */
  lemma SubstituteIdempotent(e: Expr, s: string, v: Expr)
    requires !Occurs(v, s)
    ensures Substitute(Substitute(e, Sym(s), v), Sym(s), v) == Substitute(e, Sym(s), v)
  {
    SubstituteRemoves(e, s, v);
    SubstituteAbsent(Substitute(e, Sym(s), v), s, v);
  }

  /** Substitution knows nothing of scope: inside a nested `lambda` whose
      parameter has the same name, the parameter list itself is rewritten
      along with the body. */
  lemma SubstituteIgnoresScope(s: string, v: Expr, b: Expr)
    requires Sym(s) != LambdaKw
    ensures Substitute(List([LambdaKw, List([Sym(s)]), b]), Sym(s), v)
         == List([LambdaKw, List([v]), Substitute(b, Sym(s), v)])
  {
    var xs := [LambdaKw, List([Sym(s)]), b];
    var ps := Substitute(List([Sym(s)]), Sym(s), v);
    SubstituteCases(Sym(s), s, v);
    SubstituteCases(List([Sym(s)]), s, v);
    assert ps.items == [v];
    SubstituteCases(LambdaKw, s, v);
    SubstituteCases(List(xs), s, v);
    assert Substitute(List(xs), Sym(s), v).items == [LambdaKw, List([v]), Substitute(b, Sym(s), v)];
  }

  /** Substitution introduces no environment reference that neither the
      expression nor the value already had. */
  lemma {:induction false} SubstituteClosed(e: Expr, name: Expr, v: Expr, b: Bound)
    requires Closed(e, b) && Closed(v, b)
    ensures Closed(Substitute(e, name, v), b)
    decreases e
  {
    if !PyEq(e, name) && e.List? {
      forall k | 0 <= k < |e.items| ensures Closed(Substitute(e.items[k], name, v), b) {
        SubstituteClosed(e.items[k], name, v, b);
      }
    }
  }

  /** The host language's `zip`: pairs elements position by position and
      stops at the shorter sequence, silently dropping the rest. */
  function Zip(names: seq<Expr>, args: seq<Expr>): (ps: seq<(Expr, Expr)>)
    ensures |ps| == if |names| <= |args| then |names| else |args|
    ensures forall k :: 0 <= k < |ps| ==> ps[k] == (names[k], args[k])
  {
    if |names| == 0 || |args| == 0 then []
    else [(names[0], args[0])] + Zip(names[1..], args[1..])
  }

  /** What iterating over a procedure's parameter part yields: the elements
      of a tuple, or the one-character strings of a string. Anything else is
      not iterable and makes the call raise. */
  function ParamNames(p: Expr): (r: Option<seq<Expr>>)
    ensures r.Some? <==> p.List? || p.Sym?
    ensures p.List? ==> r == Some(p.items)
    ensures p.Sym? ==> |r.value| == |p.name| && forall k :: 0 <= k < |p.name| ==> r.value[k] == Sym([p.name[k]])
  {
    match p
    case List(xs) => Some(xs)
    case Sym(s) => Some(CharSymbols(s))
    case _ => None
  }

  /** The one-character symbols of a string, in order. */
  function CharSymbols(s: string): (r: seq<Expr>)
    ensures |r| == |s| && forall k :: 0 <= k < |s| ==> r[k] == Sym([s[k]])
  {
    seq(|s|, k requires 0 <= k < |s| => Sym([s[k]]))
  }

  /** Substitutes the (name, value) pairs one after another, the first pair
      first, each into the result of the previous one. */
  function BindAll(e: Expr, pairs: seq<(Expr, Expr)>): Expr
    decreases |pairs|
  {
    if |pairs| == 0 then e
    else BindAll(Substitute(e, pairs[0].0, pairs[0].1), pairs[1..])
  }

  predicate PairsClosed(pairs: seq<(Expr, Expr)>, b: Bound) {
    forall k :: 0 <= k < |pairs| ==> Closed(pairs[k].0, b) && Closed(pairs[k].1, b)
  }

  lemma PairsClosedGrows(pairs: seq<(Expr, Expr)>, b: Bound, c: Bound)
    requires Within(b, c) && PairsClosed(pairs, b)
    ensures PairsClosed(pairs, c)
  {
    forall k | 0 <= k < |pairs| ensures Closed(pairs[k].0, c) && Closed(pairs[k].1, c) {
      ClosedGrows(pairs[k].0, b, c);
      ClosedGrows(pairs[k].1, b, c);
    }
  }

  lemma {:induction false} BindAllClosed(e: Expr, pairs: seq<(Expr, Expr)>, b: Bound)
    requires Closed(e, b) && PairsClosed(pairs, b)
    ensures Closed(BindAll(e, pairs), b)
    decreases |pairs|
  {
    if |pairs| > 0 {
      SubstituteClosed(e, pairs[0].0, pairs[0].1, b);
      BindAllClosed(Substitute(e, pairs[0].0, pairs[0].1), pairs[1..], b);
    }
  }

  /** Every name of a pair is a symbol and no value mentions any of them. */
  predicate SymbolBindings(pairs: seq<(Expr, Expr)>) {
    (forall k :: 0 <= k < |pairs| ==> pairs[k].0.Sym?) &&
    forall j, k :: 0 <= j < |pairs| && 0 <= k < |pairs| ==> !Occurs(pairs[k].1, pairs[j].0.name)
  }

  /** After binding, none of the bound names is left in the expression. */
  lemma {:induction false} BindAllRemoves(e: Expr, pairs: seq<(Expr, Expr)>, j: int)
    requires SymbolBindings(pairs) && 0 <= j < |pairs|
    ensures !Occurs(BindAll(e, pairs), pairs[j].0.name)
    decreases |pairs|
  {
    var s := pairs[0].0.name;
    var e' := Substitute(e, Sym(s), pairs[0].1);
    if j == 0 {
      SubstituteRemoves(e, s, pairs[0].1);
      BindAllKeepsAbsent(e', pairs[1..], s);
    } else {
      assert SymbolBindings(pairs[1..]) by {
        forall a, b | 0 <= a < |pairs[1..]| && 0 <= b < |pairs[1..]|
          ensures !Occurs(pairs[1..][b].1, pairs[1..][a].0.name)
        {
          assert pairs[1..][b] == pairs[b + 1] && pairs[1..][a] == pairs[a + 1];
        }
      }
      assert pairs[1..][j - 1] == pairs[j];
      BindAllRemoves(e', pairs[1..], j - 1);
    }
  }

  /** A name that is absent stays absent while values that do not mention it
      are substituted in. */
  lemma {:induction false} BindAllKeepsAbsent(e: Expr, pairs: seq<(Expr, Expr)>, s: string)
    requires !Occurs(e, s)
    requires forall k :: 0 <= k < |pairs| ==> !Occurs(pairs[k].1, s)
    ensures !Occurs(BindAll(e, pairs), s)
    decreases |pairs|
  {
    if |pairs| > 0 {
      var e' := Substitute(e, pairs[0].0, pairs[0].1);
      if pairs[0].0.Sym? {
        SubstituteOccurs(e, pairs[0].0.name, pairs[0].1, s);
      } else {
        SubstituteNonSymbolKeepsAbsent(e, pairs[0].0, pairs[0].1, s);
      }
      BindAllKeepsAbsent(e', pairs[1..], s);
    }
  }

  lemma {:induction false} SubstituteNonSymbolKeepsAbsent(e: Expr, name: Expr, v: Expr, s: string)
    requires !Occurs(e, s) && !Occurs(v, s)
    ensures !Occurs(Substitute(e, name, v), s)
    decreases e
  {
    if !PyEq(e, name) && e.List? {
      var r := Substitute(e, name, v);
      forall k | 0 <= k < |e.items| ensures !Occurs(r.items[k], s) {
        SubstituteNonSymbolKeepsAbsent(e.items[k], name, v, s);
      }
    }
  }
}
