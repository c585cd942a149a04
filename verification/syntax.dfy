/**
 The expression language of the evaluator. Expressions are already-built
 nested tuples; because procedure calls splice evaluated values into the
 tuples by substitution, one datatype holds both the syntax (symbols and
 compound forms) and the runtime values (numbers, booleans, procedures,
 primitive operators and the "no value" result of `define`).
 */
module Syntax {

  datatype Option<+T> = None | Some(value: T)

  /** The ten binary operators of the primitive table. */
  datatype PrimOp = Add | Sub | Mul | Div | Ne | Eq | Gt | Lt | Le | Ge

  datatype Expr =
    | Int(i: int)
    | Bool(b: bool)
    | Sym(name: string)
    /** A compound form: a tuple of expressions. */
    | List(items: seq<Expr>)
    /** A user-defined procedure: its parameter part (normally a tuple of
        symbols), its body expressions, the id of the environment it captured
        by reference, and a creation number that makes two procedures equal
        exactly when they are the same object. */
    | Closure(params: Expr, body: seq<Expr>, env: nat, id: nat)
    /** A primitive operator taken from the primitive table. */
    | Prim(op: PrimOp)
    /** The "no value" that `define` returns. */
    | Nothing

  /** Why an evaluation stopped without a value: the host raised an exception
      (unbound symbol, bad expression, wrong arity, type error, ...); a
      division produced a floating-point number, which the model does not
      represent; or the evaluation ran out of fuel. */
  datatype Fault = Raised | FloatResult | OutOfFuel

  const DefineKw: Expr := Sym("define")
  const IfKw: Expr := Sym("if")
  const LambdaKw: Expr := Sym("lambda")

  /** The results an evaluation can produce. Symbols and compound forms are
      never results. */
  predicate IsValue(e: Expr) {
    e.Int? || e.Bool? || e.Closure? || e.Prim? || e.Nothing?
  }

  predicate AllValues(es: seq<Expr>) {
    forall k :: 0 <= k < |es| ==> IsValue(es[k])
  }

  /** Booleans are integers in the host language. */
  predicate IsNumber(e: Expr) {
    e.Int? || e.Bool?
  }

  function NumVal(e: Expr): int
    requires IsNumber(e)
  {
    if e.Int? then e.i else if e.b then 1 else 0
  }

  /** The host language's `==`: numbers compare by value (so `1 == True`),
      tuples element by element, symbols by their text, and procedures and
      primitives by identity. */
  predicate PyEq(a: Expr, b: Expr)
    decreases a
  {
    if IsNumber(a) && IsNumber(b) then NumVal(a) == NumVal(b)
    else if a.List? && b.List? then
      |a.items| == |b.items| && forall k :: 0 <= k < |a.items| ==> PyEq(a.items[k], b.items[k])
    else a == b
  }

  /** The host language's truthiness, as used by `if`: a number is true
      when it is not zero, a tuple or a string when it is not empty, a
      procedure or primitive always, and "no value" never. */
  function Truthy(v: Expr): (t: bool)
    ensures IsNumber(v) ==> (t <==> NumVal(v) != 0)
    ensures v.List? ==> (t <==> v.items != [])
    ensures v.Closure? || v.Prim? ==> t
    ensures v.Nothing? ==> !t
  {
    match v
    case Int(i) => i != 0
    case Bool(b) => b
    case Sym(s) => |s| > 0
    case List(xs) => |xs| > 0
    case Nothing => false
    case Closure(_, _, _, _) => true
    case Prim(_) => true
  }

  /** Truthiness read the other way round: a value is false exactly when it
      is `==` to 0 (so `False` too) or to "no value". */
  lemma TruthyIsNotFalsy(v: Expr)
    requires IsValue(v)
    ensures Truthy(v) <==> !PyEq(v, Int(0)) && !PyEq(v, Nothing)
  {
  }

  /** What a value may refer to: environment ids below `envs`, and procedure
      numbers below `made`, the number the next procedure will get. */
  datatype Bound = Bound(envs: nat, made: nat)

  predicate Within(b: Bound, c: Bound) {
    b.envs <= c.envs && b.made <= c.made
  }

  /** Every procedure inside `e` refers to an environment that exists and
      carries a number already handed out. */
  predicate Closed(e: Expr, b: Bound) {
    match e
    case List(xs) => forall k :: 0 <= k < |xs| ==> Closed(xs[k], b)
    case Closure(p, body, env, id) =>
      env < b.envs && id < b.made && Closed(p, b) && forall k :: 0 <= k < |body| ==> Closed(body[k], b)
    case _ => true
  }

  predicate AllClosed(es: seq<Expr>, b: Bound) {
    forall k :: 0 <= k < |es| ==> Closed(es[k], b)
  }

  lemma {:induction false} ClosedGrows(e: Expr, b: Bound, c: Bound)
    requires Within(b, c) && Closed(e, b)
    ensures Closed(e, c)
    decreases e
  {
    match e
    case List(xs) =>
      forall k | 0 <= k < |xs| ensures Closed(xs[k], c) {
        ClosedGrows(xs[k], b, c);
      }
    case Closure(p, body, env, _) =>
      ClosedGrows(p, b, c);
      forall k | 0 <= k < |body| ensures Closed(body[k], c) {
        ClosedGrows(body[k], b, c);
      }
    case _ =>
  }

  lemma AllClosedGrows(es: seq<Expr>, b: Bound, c: Bound)
    requires Within(b, c) && AllClosed(es, b)
    ensures AllClosed(es, c)
  {
    forall k | 0 <= k < |es| ensures Closed(es[k], c) {
      ClosedGrows(es[k], b, c);
    }
  }

  /** A procedure numbered `made` or later is a new object: it is not `==`
      to any value built before it. */
  lemma NewProcedureDistinct(v: Expr, p: Expr, b: Bound)
    requires Closed(v, b) && p.Closure? && p.id >= b.made
    ensures !PyEq(p, v) && !PyEq(v, p)
  {
  }

  /** Comparing with a symbol is plain equality: no other expression is
      `==` to a string. */
  lemma PyEqSymbol(e: Expr, s: string)
    ensures PyEq(e, Sym(s)) <==> e == Sym(s)
  {
  }

  /** `==` is reflexive on every expression, including nested tuples. */
  lemma {:induction false} PyEqReflexive(e: Expr)
    ensures PyEq(e, e)
    decreases e
  {
    if e.List? {
      forall k | 0 <= k < |e.items| ensures PyEq(e.items[k], e.items[k]) {
        PyEqReflexive(e.items[k]);
      }
    }
  }

  /** `==` is symmetric on every expression. */
  lemma {:induction false} PyEqSymmetric(a: Expr, b: Expr)
    ensures PyEq(a, b) <==> PyEq(b, a)
    decreases a
  {
    if a.List? && b.List? && |a.items| == |b.items| {
      forall k | 0 <= k < |a.items| ensures PyEq(a.items[k], b.items[k]) <==> PyEq(b.items[k], a.items[k]) {
        PyEqSymmetric(a.items[k], b.items[k]);
      }
    }
  }
}
