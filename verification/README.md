# A model of the scheme.py mini-Scheme evaluator

scheme.py is a small evaluator for a Scheme-like language. It works on
expressions that are already nested tuples; there is no reader. It has
these parts:

- a primitive table of ten binary operators;
- textual `substitute` for parameter binding;
- `Procedure` objects, which hold a parameter part, a body and the
  environment they were created in;
- `seval`, with the special forms `define`, `if` and `lambda`;
- `sapply`, for application.

The file ends with a short session of assertions that culminates in a
recursive factorial.

This project models the whole evaluator in Dafny as pure functions over
immutable data and proves the behaviour of each form.

- **Syntax** (`syntax.dfy`): one `Expr` datatype for syntax and runtime
  values alike. Substitution splices values into expression trees, so a
  procedure or a primitive can appear inside an expression, exactly as in
  the host program. The module also models the host language's `==`
  (`PyEq`: numbers by value with `True == 1`, tuples element by element,
  symbols by their text, procedures and primitives by identity) and its
  truthiness.
- **Substitution** (`substitution.dfy`):
  - `Substitute` and its algebra: cases, absence, occurrence, removal,
    idempotence, no notion of scope;
  - the `zip` pairing of parameters with arguments;
  - the in-order threading of the pairs through a body expression.
- **Primitives** (`primitives.dfy`): the operator table and the operators'
  integer and boolean semantics, including their type errors.
- **Environments** (`environments.dfy`): environments live in a store and
  are addressed by id.
  - A `lambda` holds its environment's id, so a later `define` in that
    environment is visible to the procedure. This is what lets `fact`
    call itself.
  - A call copies the captured environment into a fresh id.
  - `Store.made` numbers procedures as they are created, which models
    object identity. Every procedure reachable from the store has a number
    below `made`, and a `lambda` takes `made` itself, so a new procedure is
    never `==` to any value that existed before it.
- **Evaluator** (`evaluator.dfy`):
  - `Eval`, `EvalDefine`, `EvalIf`, `EvalLambda`, `Apply`, `EvalArgs`,
    `Call` and `RunBody` are mutually recursive and bounded by fuel.
  - Every exception becomes an abrupt outcome that carries the store,
    because a `define` performed before an exception stays in effect.
  - A well-formedness invariant shows that every procedure's captured
    environment exists and that its number has already been handed out.
- **Semantics** (`semantics.dfy`): one lemma per behaviour of the
  evaluator, each stated for any store, environment and sufficient fuel.
- **Factorial** (`factorial.dfy`): the recursive `fact` program. Called on
  any n >= 1 with fuel proportional to n, it returns n!. For n < 1 the base
  case is never reached.
- **Script** (`script.dfy`): the module-level assertions, replayed as
  lemmas on the session's successive top-level stores, ending with
  `(fact n)` = 120.

scheme.py makes a fresh copy of the captured environment for each body
expression, because lines 37-38 are inside the loop of line 33. So a
`define` in one body expression is not visible to the next;
`Semantics.BodyExpressionsIsolated` states this.

Fuel is the only parameter that stands in for a host resource: running out
of fuel is the outcome `OutOfFuel`, where the host would exhaust its
recursion limit. No input, output, clock or randomness is involved. The
session's results are restated as lemmas rather than checked at run time.

## Model

| member | source | states |
|---|---|---|
| Syntax.TruthyIsNotFalsy | scheme.py:56 | a value is false exactly when it is `==` to 0 (which includes `False`) or to "no value"; every other value, any procedure or primitive and any non-empty tuple, is true |
| Syntax.NewProcedureDistinct | scheme.py:60-63 | a procedure whose number is at least every number handed out is `==` to no value built from those numbers, in either order |
| Syntax.PyEqSymbol | scheme.py:19 | comparing an expression with a symbol name using `==` is plain structural equality: only that symbol matches |
| Syntax.PyEqReflexive | scheme.py:19 | `==` holds between an expression and itself, nested tuples included |
| Syntax.PyEqSymmetric | scheme.py:19 | `==` is symmetric on all expressions |
| Substitution.SubstituteCases | scheme.py:18-24 | the name itself becomes the value; a tuple becomes a tuple of the same length with each element substituted in place; any other atom, an embedded procedure included, is unchanged |
| Substitution.SubstituteAbsent | scheme.py:18-24 | substituting a name that occurs nowhere returns the expression unchanged |
| Substitution.SubstituteOccurs | scheme.py:18-24 | a symbol occurs in the result exactly when it occurred away from the replaced name, or the name occurred and the symbol occurs in the value |
| Substitution.SubstituteRemoves | scheme.py:18-24 | when the value does not mention the name, no occurrence of the name survives |
| Substitution.SubstituteIdempotent | scheme.py:18-24 | substituting twice is the same as once when the value does not mention the name |
| Substitution.SubstituteIgnoresScope | scheme.py:18-24 | a nested `lambda` whose parameter reuses the name has its parameter list and body rewritten too |
| Substitution.Zip | scheme.py:34 | pairing stops at the shorter list, and pair k holds the k-th name and the k-th argument |
| Substitution.BindAllRemoves | scheme.py:33-35 | after all pairs are substituted in order, none of the parameter names is left in the body expression |
| Substitution.BindAllKeepsAbsent | scheme.py:33-35 | a symbol absent from the body and from every argument is absent after binding |
| Primitives.ApplyPrim | scheme.py:5-16 | a primitive succeeds exactly for `=`/`!=` on anything and for the other operators on numbers; arithmetic yields integers and comparisons booleans; `/` raises on a zero divisor and otherwise yields a float; every other failure is a type error |
| Primitives.TableCoversOperators | scheme.py:5-16 | every operator is bound in the table under some name, and the table binds nothing but primitives |
| Primitives.AdditiveOperators | scheme.py:6-13 | on numbers `+` commutes, `-` undoes `+`, `<` holds exactly when the difference is negative, and `=` exactly when it is zero |
| Primitives.MultiplicativeOperators | scheme.py:6-8 | on numbers `*` commutes, has 1 as its unit and distributes over `+` |
| Primitives.EqualityOperators | scheme.py:10-11 | `!=` is the negation of `=`, and `=` is symmetric |
| Primitives.OrderingOperators | scheme.py:12-15 | on numbers, `>` is `<` swapped, `<=` is `<` or `=`, and `>=` is not `<` |
| Environments.Initial | scheme.py:5-16 | the start-up store has one environment, holds no procedure yet, binds only primitives and binds every one of them |
| Environments.NewFrame | scheme.py:38 | the copy gets a new id and holds the captured environment's bindings; every existing environment is unchanged |
| Environments.Bind | scheme.py:50 | the name is bound to the value, every other key of that environment keeps its value, the key set grows by the name alone, and no other environment changes |
| Evaluator.Eval | scheme.py:41-66 | evaluation keeps the store well formed, changes no existing environment other than the current one, and a normal result is a value whose procedures refer to existing environments |
| Evaluator.EvalDefine | scheme.py:47-51 | `define` changes only the current environment and has no value |
| Evaluator.EvalIf | scheme.py:52-59 | `if` changes only the current environment |
| Evaluator.EvalLambda | scheme.py:60-63 | `lambda` changes no environment and yields a procedure holding the current environment's id and the next unused number, which it then marks as used |
| Evaluator.Apply | scheme.py:69-72 | application changes no existing environment other than the current one |
| Evaluator.EvalArgs | scheme.py:71 | the arguments evaluate to a list of values of the same length |
| Evaluator.Call | scheme.py:32-39 | a call changes no environment that existed before it and returns a value |
| Evaluator.RunBody | scheme.py:33-39 | running a body changes no environment that existed before it |
| Semantics.SelfEvaluating | scheme.py:42-43 | integers, booleans and procedures evaluate to themselves and change nothing |
| Semantics.SymbolLookup | scheme.py:44-45 | a bound symbol evaluates to its binding and an unbound one raises; neither changes the store |
| Semantics.BadExpressions | scheme.py:41-66 | a primitive or "no value" spliced into an expression, and the empty tuple, raise without changing the store |
| Semantics.DefineBinds | scheme.py:47-51 | `(define n e)` evaluates `e` here; on success n is bound to its value in this same environment, every other binding is as `e` left it, no other environment changes, the form has no value, and n then evaluates to the value; on failure the form fails the same way |
| Semantics.ShortSpecialForms | scheme.py:47-63 | a `define`, `if` or `lambda` form missing its parts raises before evaluating anything |
| Semantics.IfSelects | scheme.py:52-59 | `if` evaluates the condition, then exactly the branch its truthiness selects in the store the condition left; a failing condition fails the form |
| Semantics.IfIgnoresUntaken | scheme.py:56-59 | replacing the branch not taken by any expression, even one that raises or diverges, leaves the outcome unchanged |
| Semantics.LambdaCaptures | scheme.py:60-63 | `lambda` evaluates nothing and yields a new procedure holding the parameters, the body and a reference to the current environment |
| Semantics.LambdaIsFresh | scheme.py:60-63 | the procedure a `lambda` form yields is `==` to no value that the store could hold before, in either order |
| Semantics.CompareWithNewProcedure | scheme.py:60-63 | `(= f (lambda ...))` is false for whatever f is bound to, a procedure with the same text included |
| Semantics.ApplicationOrder | scheme.py:64-72 | an application evaluates the operator, then the arguments left to right from the store the operator left, and returns the callee's outcome unchanged; the first failure ends it |
| Semantics.LiteralArguments | scheme.py:71 | number arguments evaluate to themselves in order without touching the store |
| Semantics.TwoArguments | scheme.py:71 | two arguments are evaluated one after the other, the second in the store the first left |
| Semantics.OneArgument | scheme.py:71 | a single argument list evaluates to the argument's value |
| Semantics.PrimitiveApplication | scheme.py:64-72 | applying a symbol bound to a primitive to two numbers yields the primitive's result and leaves the store unchanged |
| Semantics.PrimitiveOfEvaluated | scheme.py:64-72 | the same with a second operand that is evaluated first, in the store it leaves |
| Semantics.NameApplication | scheme.py:64-72 | `(f x)` with both names bound calls f's binding on x's binding in the same store |
| Semantics.StringParameters | scheme.py:34 | a procedure whose parameter part is a string behaves exactly like one whose parameter part is the tuple of that string's one-character names |
| Semantics.CallsDoNotInterfere | scheme.py:37-38 | a call leaves the captured environment unchanged, so a second call starts from the same bindings as the first |
| Semantics.BodyExpressionsIsolated | scheme.py:33-39 | each body expression runs in a fresh copy of the captured environment, its `define`s are invisible to the next one, and the last expression's outcome is the call's |
| Semantics.CallFailures | scheme.py:32-39 | a procedure with an empty body or a non-iterable parameter part raises, as do non-callable operators and primitives given other than two arguments |
| Semantics.ExtraArgumentsIgnored | scheme.py:34 | arguments beyond the parameters are dropped |
| Semantics.ExtraParametersUnbound | scheme.py:34 | parameters beyond the arguments are left unsubstituted, as if absent |
| Factorial.SubstituteBody | scheme.py:89 | substituting a number for n in the factorial body yields the instantiated body |
| Factorial.CallUnfolds | scheme.py:32-39 | calling `fact` evaluates the instantiated body in a fresh copy of the captured environment |
| Factorial.IfStep | scheme.py:89 | the body yields 1 when n is 1 and the product form otherwise |
| Factorial.RecursiveCall | scheme.py:89 | `(fact (- n 1))` looks `fact` up again and calls it on n - 1 |
| Factorial.MultiplyStep | scheme.py:89 | the product form multiplies n by the value of the recursive call |
| Factorial.CallStep | scheme.py:88-89 | if the recursive call on n - 1 returns (n - 1)!, the call on n returns n! |
| Factorial.FactCorrect | scheme.py:88-93 | the procedure bound to `fact` in its own environment, called on any n >= 1 with fuel at least 3n + 2, returns n! |
| Script.Atoms | scheme.py:74-75 | 23 evaluates to 23, and x bound to 23 evaluates to 23 |
| Script.SumExample | scheme.py:76 | `(+ 1 2)` is 3 at the top level |
| Script.NestedSumIn | scheme.py:77 | `(+ 1 (* 2 3))` is 7 wherever `+` and `*` are the primitives |
| Script.NestedSumExample | scheme.py:77 | `(+ 1 (* 2 3))` is 7 at the top level |
| Script.DefineX | scheme.py:79 | `(define x 13)` has no value and binds x at the top level |
| Script.LookupX | scheme.py:80 | after it, x evaluates to 13 |
| Script.ThenBranchIn | scheme.py:82 | `(if (< 2 3) 4 5)` is 4 wherever `<` is the primitive |
| Script.ThenExample | scheme.py:82 | `(if (< 2 3) 4 5)` is 4 in the session |
| Script.ElseBranchIn | scheme.py:83 | `(if (> 2 3) 4 5)` is 5 wherever `>` is the primitive |
| Script.ElseExample | scheme.py:83 | `(if (> 2 3) 4 5)` is 5 in the session |
| Script.SubstitutionExample | scheme.py:85 | substituting 2 for x in `(* (+ x y) (x))` gives `(* (+ 2 y) (2))` |
| Script.FactLambdaIn | scheme.py:89 | the factorial `lambda` yields a new procedure holding the current environment |
| Script.DefineFactIn | scheme.py:88-91 | `(define fact ...)` binds the new procedure in the very environment it holds |
| Script.DefineFactExample | scheme.py:91 | in the session, `fact` becomes procedure number 0, holding the top level |
| Script.DefineNExample | scheme.py:92 | `(define n 5)` then binds n beside it |
| Script.SessionReady | scheme.py:91-92 | after both definitions, calling `fact` runs the factorial program and n is 5 |
| Script.FactByName | scheme.py:93 | `(fact n)` returns what calling `fact` on n's value returns |
| Script.FactOfNameIn | scheme.py:93 | `(fact n)` with n bound to k >= 1 returns k! |
| Script.FactExample | scheme.py:93-94 | in the session, `(fact n)` returns 120 |

## Left out

- Floating point: `/` on numbers with a non-zero divisor produces a float in the host language. The model records this as the fault `FloatResult` and does not compute the quotient. No other path produces a float, and float literals are not part of `Expr`.
- Exception kinds: KeyError, IndexError, TypeError, RuntimeError, ZeroDivisionError and UnboundLocalError are all the single fault `Raised`, because no caller distinguishes them.
- The host recursion limit: it is replaced by fuel. Evaluation that the host would abort with RecursionError, or that would run forever, ends with `OutOfFuel`.
- `define` with a name that is not a symbol: the host stores it under a key that no symbol lookup can reach. The model binds nothing, which no later evaluation can tell apart.
- Line 79: the script compares the value of `(define x 13)` with 7 and discards the comparison. The model states the define's effect and its lack of a value (`Script.DefineX`) and leaves the comparison out.
- Primitives.ApplyPrim: its contract says which operands succeed and the type of the result; the values are stated as relations between the operators by `Primitives.AdditiveOperators`, `Primitives.MultiplicativeOperators`, `Primitives.OrderingOperators` and `Primitives.EqualityOperators`, and division's quotient is not computed.
- Factorial.FactCorrect: says nothing about n < 1, where the recursion never reaches its base case and the host would exhaust its stack.
