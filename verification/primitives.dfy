/**
 The primitive table (scheme.py lines 5-16): ten binary operators with the
 host language's arithmetic and comparison semantics on integers and
 booleans.
 */
module Primitives {
  import opened Syntax

  datatype Result<+T> = Ok(value: T) | Err(fault: Fault)

  /** The initial top-level environment. */
  function PrimitiveTable(): map<string, Expr> {
    map[
      "+" := Prim(Add), "-" := Prim(Sub), "*" := Prim(Mul), "/" := Prim(Div),
      "!=" := Prim(Ne), "=" := Prim(Eq), ">" := Prim(Gt), "<" := Prim(Lt),
      "<=" := Prim(Le), ">=" := Prim(Ge)
    ]
  }

  /** Calls a primitive on two evaluated operands. Equality and inequality
      accept any operands; the other operators need numbers and raise a type
      error otherwise. Arithmetic on booleans yields integers. Division
      raises on a zero divisor and otherwise produces a floating-point
      number, which lies outside the model. */
  function ApplyPrim(op: PrimOp, x: Expr, y: Expr): (r: Result<Expr>)
    requires IsValue(x) && IsValue(y)
    ensures r.Ok? <==> op == Eq || op == Ne || (op != Div && IsNumber(x) && IsNumber(y))
    ensures r.Ok? && op in {Add, Sub, Mul} ==> r.value.Int?
    ensures r.Ok? && op !in {Add, Sub, Mul} ==> r.value.Bool?
    ensures r.Err? && op == Div ==> (r.fault == FloatResult <==> IsNumber(x) && IsNumber(y) && NumVal(y) != 0)
    ensures r.Err? && op != Div ==> r.fault == Raised
  {
    match op
    case Eq => Ok(Bool(PyEq(x, y)))
    case Ne => Ok(Bool(!PyEq(x, y)))
    case _ =>
      if !(IsNumber(x) && IsNumber(y)) then Err(Raised)
      else
        var a, b := NumVal(x), NumVal(y);
        match op
        case Add => Ok(Int(a + b))
        case Sub => Ok(Int(a - b))
        case Mul => Ok(Int(a * b))
        case Div => if b == 0 then Err(Raised) else Err(FloatResult)
        case Gt => Ok(Bool(a > b))
        case Lt => Ok(Bool(a < b))
        case Le => Ok(Bool(a <= b))
        case Ge => Ok(Bool(a >= b))
  }

  /** Every operator of the model is bound in the table under some name,
      and the table binds nothing but primitives. */
  lemma TableCoversOperators(op: PrimOp)
    ensures exists x :: x in PrimitiveTable() && PrimitiveTable()[x] == Prim(op)
    ensures forall x :: x in PrimitiveTable() ==> PrimitiveTable()[x].Prim?
  {
    var t := PrimitiveTable();
    match op
    case Add => assert t["+"] == Prim(Add);
    case Sub => assert t["-"] == Prim(Sub);
    case Mul => assert t["*"] == Prim(Mul);
    case Div => assert t["/"] == Prim(Div);
    case Ne => assert t["!="] == Prim(Ne);
    case Eq => assert t["="] == Prim(Eq);
    case Gt => assert t[">"] == Prim(Gt);
    case Lt => assert t["<"] == Prim(Lt);
    case Le => assert t["<="] == Prim(Le);
    case Ge => assert t[">="] == Prim(Ge);
  }

  lemma TableBindsEveryOperator()
    ensures forall op: PrimOp :: Prim(op) in PrimitiveTable().Values
    ensures forall x :: x in PrimitiveTable() ==> PrimitiveTable()[x].Prim?
  {
    forall op: PrimOp ensures Prim(op) in PrimitiveTable().Values {
      TableCoversOperators(op);
    }
    TableCoversOperators(Add);
  }

  /** On numbers `+` and `-` behave as integer arithmetic on the operands'
      values: `+` commutes, `-` undoes `+`, and `<` and `=` agree with the
      sign of the difference. */
  lemma AdditiveOperators(x: Expr, y: Expr)
    requires IsNumber(x) && IsNumber(y)
    ensures ApplyPrim(Add, x, y) == ApplyPrim(Add, y, x)
    ensures ApplyPrim(Sub, ApplyPrim(Add, x, y).value, y) == Ok(Int(NumVal(x)))
    ensures ApplyPrim(Lt, x, y).value.b <==> NumVal(ApplyPrim(Sub, x, y).value) < 0
    ensures ApplyPrim(Eq, x, y).value.b <==> NumVal(ApplyPrim(Sub, x, y).value) == 0
  {
  }

  /** On numbers `*` is integer multiplication: it commutes, has `1` as
      its unit and distributes over `+`. */
  lemma MultiplicativeOperators(x: Expr, y: Expr, z: Expr)
    requires IsNumber(x) && IsNumber(y) && IsNumber(z)
    ensures ApplyPrim(Mul, x, y) == ApplyPrim(Mul, y, x)
    ensures ApplyPrim(Mul, x, Int(1)) == Ok(Int(NumVal(x)))
    ensures ApplyPrim(Mul, x, ApplyPrim(Add, y, z).value)
         == ApplyPrim(Add, ApplyPrim(Mul, x, y).value, ApplyPrim(Mul, x, z).value)
  {
    var a, b, c := NumVal(x), NumVal(y), NumVal(z);
    assert ApplyPrim(Mul, x, y) == Ok(Int(a * b)) && ApplyPrim(Mul, y, x) == Ok(Int(b * a));
    assert ApplyPrim(Mul, x, z) == Ok(Int(a * c));
    var s := ApplyPrim(Add, y, z).value;
    assert s == Int(b + c);
    assert ApplyPrim(Mul, x, s) == Ok(Int(a * (b + c)));
    assert ApplyPrim(Add, Int(a * b), Int(a * c)) == Ok(Int(a * b + a * c));
    Distributes(a, b, c);
  }

  lemma Distributes(a: int, b: int, c: int)
    ensures a * (b + c) == a * b + a * c
  {
  }

  /** `!=` is the negation of `=`, and `=` is symmetric. */
  lemma EqualityOperators(x: Expr, y: Expr)
    requires IsValue(x) && IsValue(y)
    ensures ApplyPrim(Ne, x, y).value == Bool(!ApplyPrim(Eq, x, y).value.b)
    ensures ApplyPrim(Eq, x, y) == ApplyPrim(Eq, y, x)
  {
    PyEqSymmetric(x, y);
  }

  /** On numbers the orderings agree with each other: `>` is `<` with the
      operands swapped, `<=` is `<` or `=`, and `>=` is the negation of `<`. */
  lemma OrderingOperators(x: Expr, y: Expr)
    requires IsNumber(x) && IsNumber(y)
    ensures ApplyPrim(Gt, x, y) == ApplyPrim(Lt, y, x)
    ensures ApplyPrim(Le, x, y).value.b <==> ApplyPrim(Lt, x, y).value.b || ApplyPrim(Eq, x, y).value.b
    ensures ApplyPrim(Ge, x, y).value.b <==> !ApplyPrim(Lt, x, y).value.b
  {
  }
}
