# tinypy statement evaluator in Dafny

This project models the statement evaluator of tinypy, a small Python
interpreter (`tinypy/AST/stmt.py`). It covers:

- function definitions and calls;
- `if` and `while`;
- assignment, and augmented assignment with its operator table;
- the `return`, `pass`, `continue` and `break` statements, and the
  control-flow marks they produce.

The interpreter's state is one process-wide "current namespace" pointer and
a set of namespaces. Each namespace maps names to values and may link to an
outer namespace. Here all namespaces live in one store (`Memory.State`), and
an index into the store stands for a reference to a namespace.

The project has two layers:

- **Semantics.** Module `Semantics` gives a big-step semantics as functions
  from a state to a new state and an outcome. A failed evaluation ends in an
  error outcome, and the state is kept as it was when the error arose.
- **Evaluator.** The class `Evaluator.Interpreter` holds the store and the
  current pointer as fields. Its methods update them in place, one method
  per `eval` of the source, with the same loops. Each method is proved to
  compute exactly what the corresponding `Semantics` function describes.

Modules `Properties` and `Scenarios` prove what the source promises about
these semantics.

The model follows the code, including its quirks:

- **The wrong namespace is restored after a call.** The namespace made
  current again after a call is the one that was current when the `def`
  ran (stmt.py:38, 62), not the caller's.
- **Errors never restore.** An error leaves current whichever namespace was
  current when it arose. For a wrong argument count that is the function's
  own namespace; for an error after an inner call in the body it is the
  namespace that inner call restored.
- **One namespace per `def`.** The namespace is created once, when the
  `def` runs (stmt.py:39), and is shared by every call of that function.
- **Tests compare with `True`.** An `if` or `while` test succeeds when the
  value equals `True` (stmt.py:92, 123). Of the values this model has, that
  holds for `True` and `1` only; in Python a float `1.0` (as from `2/2`)
  would also pass, but floats are not modelled.
- **`if` keeps `pass` marks and None values.** The list an `if` returns
  holds its `pass` marks and the None of its assignments (stmt.py:99-102).

The system's documented design differs from the code on three points, and
the model follows the code:

- It says a call works in a fresh child namespace. The code does not: every
  call of one function shares the namespace made by its `def`.
  `Scenarios.CounterCountsAcrossCalls` shows the documented counter example
  returning 1, then 2.
- It says the call restores the caller's namespace on every exit path. The
  code does not: it restores the definition-time namespace, and only on
  success.
- It says a name bound in a function body is invisible after the call. The
  code keeps it hidden only partly. The body binds into the function's own
  namespace, and after the call the definition-time namespace, its outer
  one, is current again, so the name stays hidden from there
  (`Scenarios.LocalStaysHidden`). But once an inner call in the body has
  moved the current namespace, later assignments in the body bind in that
  namespace instead (`Scenarios.AssignAfterInnerCallIsGlobal`). A recursive
  call, or code whose namespace is nested inside the function's, also sees
  the body's names.

Evaluation need not terminate. Every semantic function therefore takes a
fuel bound. Going one level down (from a statement to what it contains, from
an operator or a call to its operands and body) uses one unit, and so does
each further `while` iteration. The statements of one list, and the
arguments of one call, all get the same fuel. Fuel thus bounds nesting depth
and the number of loop iterations, not the number of nodes evaluated.
Running out is the error `OutOfFuel`.

## Model

| member | source | states |
|---|---|---|
| Ast.EqualsTrue | tinypy/AST/stmt.py:92 | the `== True` test of `if` (and of `while`, stmt.py:123) holds exactly for the values that are numbers equal to 1, `True` counting as 1: among the model's values, `True` and the integer 1 |
| Ast.ControlMark | tinypy/AST/stmt.py:196-234 | each control statement yields the mark of its own kind (return, pass, continue, break, and only that one); a return mark carries the statement's expression unevaluated |
| Ast.AugAssignStmt | tinypy/AST/stmt.py:169-188 | `name op= value` is built exactly when `op` is a key of the operator table, as the assignment whose target is `name` in store context and whose value is the table's operator applied to `name` in load context and `value` |
| Ast.OpTableRoundTrip | tinypy/AST/stmt.py:170-181 | every operator class has a symbol in the table that maps back to it, and every symbol in the table is that operator's own symbol |
| Ast.OpTableHasTenEntries | tinypy/AST/stmt.py:170-181 | the table's keys are exactly the ten augmented-assignment symbols |
| Memory.Initial | tinypy/AST/stmt.py:14-16 | evaluation starts with one global namespace, current, with no outer namespace, in a valid store |
| Memory.Lookup | tinypy/AST/stmt.py:18-21 | a name bound in the namespace is found there; otherwise lookup follows the outer link; whatever is found refers only to existing namespaces |
| Memory.Bind | tinypy/AST/stmt.py:165 | `set` adds or overwrites exactly one name in exactly one namespace; every other namespace, every other name and the outer link are unchanged; store validity is preserved |
| Memory.BindAll | tinypy/AST/stmt.py:49-50 | binding the parameters changes only the function's namespace, keeps its outer link and keeps the store valid |
| Memory.BindAllKeys | tinypy/AST/stmt.py:49-50 | after binding, the namespace holds exactly its earlier names plus the parameter names |
| Memory.BindAllLastWins | tinypy/AST/stmt.py:49-50 | each parameter is bound to the argument at its last position in the parameter list |
| Memory.BindAllKeepsOthers | tinypy/AST/stmt.py:49-50 | a name that is not a parameter keeps the value it had in the function's namespace |
| Memory.LookupBelowUnaffected | tinypy/AST/stmt.py:38-39 | binding into a namespace never changes a lookup that starts from an older namespace, because outer links only lead to older namespaces |
| Memory.LookupOtherName | tinypy/AST/stmt.py:165 | binding one name never changes the lookup of another name, from any namespace |
| Memory.LookupAfterAppend | tinypy/AST/stmt.py:39 | creating a namespace changes no existing lookup |
| Memory.LookupFallsBack | tinypy/AST/stmt.py:38-42 | a name missing from a namespace resolves as in its outer namespace |
| Arith.FloorMod | tinypy/AST/stmt.py:175 | the remainder of `%` has the sign of the divisor and is smaller than it in magnitude |
| Arith.IntOp | tinypy/AST/stmt.py:170-181 | an integer operator that succeeds yields an integer |
| Arith.Apply | tinypy/AST/stmt.py:170-181 | an operator that succeeds yields a number; an operand that is not a number is an error |
| Semantics.Collect | tinypy/AST/stmt.py:99-102 | adding a result to a clean result list (no nested lists, no mark but `pass`) keeps it clean, when the result is a clean list, which is spliced in, or a non-list result that is not a `return`, `break` or `continue` mark, which is appended |
| Semantics.EvalExpr | tinypy/AST/stmt.py:184-187 | evaluating an expression keeps the store valid and only grows it, and any value it yields refers only to existing namespaces |
| Semantics.EvalBinOp | tinypy/AST/stmt.py:187 | evaluating an operator node keeps the store valid and only grows it, and a value it yields is a number |
| Semantics.EvalCall | tinypy/AST/stmt.py:41-63 | evaluating a call node keeps the store valid and only grows it, and the value refers only to existing namespaces |
| Semantics.EvalArgs | tinypy/AST/stmt.py:41 | arguments are evaluated left to right: the values extend the ones already computed, one per argument, and refer only to existing namespaces |
| Semantics.Invoke | tinypy/AST/stmt.py:41-63 | a wrong argument count fails with an arity error naming the function and both counts, before any binding, with the function's namespace left current; a call that succeeds leaves the definition-time namespace current, whatever namespace the caller had current; the store stays valid |
| Semantics.RunBody | tinypy/AST/stmt.py:52-60 | running a body keeps the store valid and only grows it, and the value it returns refers only to existing namespaces |
| Semantics.ExecStmt | tinypy/AST/stmt.py:196-221 | executing a statement keeps the store valid and only grows it, and a list result never holds a nested list nor a `return`, `break` or `continue` mark |
| Semantics.DefineFunction | tinypy/AST/stmt.py:36-68 | a `def` creates exactly one namespace, empty and linked to the current one, and adds exactly one binding, the function name to the new function value, to the current namespace; nothing else changes |
| Semantics.ExecIf | tinypy/AST/stmt.py:88-104 | an `if` yields either a list with no nested lists and no mark but `pass`, or a control mark other than `pass` |
| Semantics.RunIf | tinypy/AST/stmt.py:92-104 | the loop over a branch yields either a list with no nested lists and no mark but `pass`, or a control mark other than `pass` |
| Semantics.RunWhile | tinypy/AST/stmt.py:120-146 | a `while` never yields a `break` or `continue` mark: it yields a list with no nested lists and no mark but `pass`, or a `return` mark |
| Semantics.RunIteration | tinypy/AST/stmt.py:124-142 | one pass over a loop body yields the results collected so far, with no nested lists and no mark but `pass`, or a `return` mark |
| Semantics.ExecAssign | tinypy/AST/stmt.py:162-165 | an assignment that succeeds yields None and keeps the store valid |
| Evaluator.Interpreter.constructor | tinypy/AST/stmt.py:14-16 | a new interpreter holds exactly the initial state |
| Evaluator.Interpreter.Eval | tinypy/AST/stmt.py:184-187 | the new state and the outcome are exactly those of `Semantics.EvalExpr` |
| Evaluator.Interpreter.EvalBinOpNode | tinypy/AST/stmt.py:187 | the new state and the outcome are exactly those of `Semantics.EvalBinOp` |
| Evaluator.Interpreter.EvalCallNode | tinypy/AST/stmt.py:41 | the new state and the outcome are exactly those of `Semantics.EvalCall` |
| Evaluator.Interpreter.EvalArguments | tinypy/AST/stmt.py:41 | the argument loop computes exactly `Semantics.EvalArgs` |
| Evaluator.Interpreter.Call | tinypy/AST/stmt.py:41-63 | `container` updates the store and the current pointer exactly as `Semantics.Invoke` describes |
| Evaluator.Interpreter.BindParameters | tinypy/AST/stmt.py:49-50 | the `zip` loop leaves the store exactly as `Memory.BindAll` and does not move the current pointer |
| Evaluator.Interpreter.ExecBody | tinypy/AST/stmt.py:52-60 | the body loop computes exactly `Semantics.RunBody` |
| Evaluator.Interpreter.Exec | tinypy/AST/stmt.py:196-221 | the new state and the outcome are exactly those of `Semantics.ExecStmt` |
| Evaluator.Interpreter.ExecFunctionDef | tinypy/AST/stmt.py:36-68 | a `def` leaves exactly the state `Semantics.DefineFunction` describes and yields None |
| Evaluator.Interpreter.ExecIfStmt | tinypy/AST/stmt.py:88-104 | `IfStmt.eval` computes exactly `Semantics.ExecIf` |
| Evaluator.Interpreter.ExecBranch | tinypy/AST/stmt.py:92-104 | the loop over the chosen branch computes exactly `Semantics.RunIf` from an empty result list |
| Evaluator.Interpreter.ExecWhileStmt | tinypy/AST/stmt.py:120-146 | `WhileStmt.eval` computes exactly `Semantics.RunWhile` from an empty result list |
| Evaluator.Interpreter.TestAndRunBody | tinypy/AST/stmt.py:123-144 | one test and one pass over the body either end the loop with the outcome `Semantics.RunWhile` gives, or leave a state from which the rest of the loop gives that same outcome |
| Evaluator.Interpreter.ExecLoopBody | tinypy/AST/stmt.py:124-142 | the inner loop with its `shouldBreak` flag computes exactly `Semantics.RunIteration` |
| Evaluator.Interpreter.ExecAssignStmt | tinypy/AST/stmt.py:162-165 | `AssignStmt.eval` computes exactly `Semantics.ExecAssign` |
| Properties.BodyStopsAtReturn | tinypy/AST/stmt.py:54-60 | statements after any statement that always yields a `return` mark (a `return`, or a nested statement such as an `if` whose branches both return) are never evaluated: removing them changes neither the outcome nor the state |
| Properties.BodyHandlesMarks | tinypy/AST/stmt.py:54-60 | whatever statement is next in a body, a `return` mark it yields, literal or out of a nested `if` or `while`, ends the body with the mark's expression evaluated in the state reached, or None without one; an error ends it too; any other result, including a `break`, `continue` or `pass` mark, is ignored and the body goes on |
| Properties.BodyEndsAtHead | tinypy/AST/stmt.py:54-60 | when the first statement of a body yields a `return` mark or an error, the statements after it make no difference |
| Properties.ControlStatementsCut | tinypy/AST/stmt.py:196-234 | `return`, `break` and `continue` cut a statement list short from any state, `return` ends a function body from any state, and `pass` does not cut short |
| Properties.IfOfCuttingBranches | tinypy/AST/stmt.py:88-104 | an `if` whose two branches each begin with a statement that always cuts short (or always returns) does so itself, so marks pass out of nested statements |
| Properties.CallBindsParameter | tinypy/AST/stmt.py:49-50 | a body that returns a parameter returns the argument at that parameter's last position |
| Properties.CallSeesEarlierLocals | tinypy/AST/stmt.py:39-50 | a name an earlier call left in the function's namespace, and that is not a parameter, is still there when the next call's body starts |
| Properties.IfStopsAtMark | tinypy/AST/stmt.py:92-97 | in an `if` branch, statements after any statement that always yields a `return`, `break` or `continue` mark (literal or nested) are never evaluated |
| Properties.IfReturnsMark | tinypy/AST/stmt.py:92-102 | whatever statement is next in an `if` branch, a `return`, `break` or `continue` mark it yields, or an error, is the result of the `if` in the state reached so far; any other result is collected and the branch goes on |
| Properties.IfCollectsInOrder | tinypy/AST/stmt.py:99-104 | an `if` branch only adds results after the ones already collected |
| Properties.IfKeepsPassMarks | tinypy/AST/stmt.py:95-102 | a `pass` in an `if` branch is appended to the result list as a Pass mark |
| Properties.IfTakesOneBranch | tinypy/AST/stmt.py:89-92 | when the test equals True the else branch has no influence on the outcome, and otherwise the body has none |
| Properties.IfComparesWithTrue | tinypy/AST/stmt.py:92 | a test of `1` runs the body, and a test of `2` runs the else branch |
| Properties.PassStopsAtMark | tinypy/AST/stmt.py:125-137 | in a pass over a `while` body, statements after any statement that always yields a `return`, `break` or `continue` mark (literal or nested) are never evaluated |
| Properties.PassHandlesMarks | tinypy/AST/stmt.py:125-142 | whatever statement is next in a pass over a `while` body, a `break` mark it yields ends the pass and asks to leave the loop, a `continue` mark ends the pass and asks for the next test, a `return` mark leaves with the mark, an error propagates, each in that statement's state; any other result is collected and the pass goes on |
| Properties.WhileBreakEndsLoop | tinypy/AST/stmt.py:123-146 | when the test holds and the first body statement yields a `break` mark (a `break`, or e.g. an `if` whose taken branch breaks), the loop ends in that statement's state with nothing added to its results |
| Properties.WhileContinueRetests | tinypy/AST/stmt.py:123-133 | when the test holds and the first body statement yields a `continue` mark, the loop goes straight back to the test from that statement's state and adds nothing to the results |
| Properties.WhileReturnLeaves | tinypy/AST/stmt.py:123-137 | when the test holds and the first body statement yields a `return` mark, that mark, in that state, is the loop's result at once |
| Properties.WhileFollowsPass | tinypy/AST/stmt.py:123-146 | however a pass over the body ends, at any position and from a literal or nested statement, the loop does what it asks: after a `break` it ends with the results collected, after a `return` mark it yields the mark, otherwise it tests again; a test that is not True ends it with the results so far |
| Properties.ReturnInLoopEndsBody | tinypy/AST/stmt.py:54-60 | for any `while` in a function body, a mark the loop yields (from a `return` at any position of its body, on any pass) is a Return mark, the statements after the loop are never evaluated, and the body's value is the return's expression evaluated where the loop left off, or None without one |
| Properties.PassOnlyRound | tinypy/AST/stmt.py:125-142 | a pass over a body made only of `pass` statements changes no state and does not break the loop |
| Properties.PassLoopNeverEnds | tinypy/AST/stmt.py:123-146 | `while True:` over a body of `pass` statements never ends, whatever the fuel bound |
| Properties.AssignTargetFirst | tinypy/AST/stmt.py:163-164 | the target is evaluated before the value: if the target fails, the value cannot influence the outcome |
| Properties.AssignThenLoad | tinypy/AST/stmt.py:162-165 | `x = e` succeeds exactly when `e` evaluates; then `x` reads back as `e`'s value, in the namespace current after `e` was evaluated |
| Properties.AssignKeepsOtherNames | tinypy/AST/stmt.py:165 | `x = e` binds only in the current namespace and changes the lookup of no other name, from any namespace |
| Properties.AugAssignApplies | tinypy/AST/stmt.py:183-188 | `x op= n` stores the table operator applied to the value of `x` and `n` back into `x` in the current namespace; an operator error leaves the state unchanged |
| Properties.AugAddIncrements | tinypy/AST/stmt.py:169-188 | `x += n` on an integer `x` leaves `x` bound to the sum |
| Properties.DefineThenLookup | tinypy/AST/stmt.py:36-68 | after a `def`, the name resolves to the new function; every other name resolves as before; and from the function's new namespace every name resolves as in the namespace where the `def` ran |
| Scenarios.CounterIncrements | tinypy/AST/stmt.py:39-63 | each call of `counter` (`n = n + 1; return n`) increments the `n` kept in its namespace, returns it and leaves the global namespace current |
| Scenarios.CounterCountsAcrossCalls | tinypy/AST/stmt.py:39-63 | with `n = 0` in its namespace, `counter()` returns 1 and then 2: the calls share one namespace |
| Scenarios.InnerCallReturnsToGlobal | tinypy/AST/stmt.py:38-62 | a call made inside another function leaves the namespace current where the callee's `def` ran (here the global one) |
| Scenarios.AssignOneInGlobal | tinypy/AST/stmt.py:162-165 | `x = 1` with the global namespace current binds `x` in it |
| Scenarios.AssignAfterInnerCallIsGlobal | tinypy/AST/stmt.py:38-165 | in `def f(): g(); x = 1` the assignment binds `x` in the global namespace, not in `f`'s own |
| Scenarios.LocalStaysHidden | tinypy/AST/stmt.py:38-165 | in `def h(): y = 2`, called from the global namespace, `y` is bound in `h`'s own namespace and the call returns to the global namespace, where `y` is not visible |

## Left out

- `runtime.Memory` and `runtime.Errors` are not part of this model. A namespace is a map plus an optional outer index, with only `set` and lookup. A Python `TypeError` for a wrong argument count is the `ArityError` outcome with the name and both counts, not a message string.
- `AST/expr.py` is not part of this model. Expressions are reduced to names, integer, boolean and None literals, the ten binary operator nodes and call nodes.
- Arithmetic is over unbounded integers, with `True` and `False` counted as 1 and 0, and `&`, `|`, `^` of two booleans giving a boolean.
- `/` yields a float in Python and is the `Unmodelled` error, except that dividing by zero is `ZeroDivision`. Arithmetic on strings is `Unmodelled`. Any other non-number operand is `UnsupportedOperand`.
- Non-termination is bounded by fuel. A program that Python runs forever ends here in `OutOfFuel`. The model does not show that any program which finishes has a fuel bound large enough to reach the same result.
- `tinypy/shell/shell.py` is not part of this model: the prompt loop, the lexer and parser, and their error listeners are I/O and foreign library code.
- Python's closure mechanics (`*args`, the nested `def container`) are not modelled. A function value is a record of its name, parameter names, body, own namespace and definition-time namespace.
- An assignment whose target does not evaluate to a name is the `BadTarget` error. The tree builder only ever produces name targets; Python would store a non-string key.
- `Ast.Stmt` has an `ExprStmt` case. It stands for an expression node evaluated where a statement is expected, as in a call on a line of its own.
- Memory.Grows states only that the store never shrinks. The source never reassigns a namespace's outer link, but the model does not carry that fact across evaluation.
- Properties.BodyStopsAtReturn, and likewise `IfStopsAtMark` and `PassStopsAtMark`, need the statement to yield its mark from every state. A statement that yields a mark only in some states, such as `if d: break`, is covered where it stands by `BodyHandlesMarks`, `IfReturnsMark` and `PassHandlesMarks`, which take the mark from the outcome in the state actually reached.
- Arith.FloorMod states the sign and the bound of the remainder, but not that the dividend minus the remainder is a multiple of the divisor.
- Python exceptions propagate to the shell. Here an error is an outcome that every enclosing construct passes up unchanged, with no clean-up.
