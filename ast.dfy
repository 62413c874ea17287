/** The abstract syntax the statement evaluator works on, the values it produces,
    the control-flow marks of `return`/`break`/`continue`/`pass`, and the
    construction-time desugaring of augmented assignment. */
module Ast {

  datatype Option<+T> = None | Some(value: T)

  /** Runtime values. `Function` is the closure built by evaluating a `def`:
      its parameter names and body, the namespace created for it (`scope`) and
      the namespace that was current when the `def` ran (`defScope`).
      Namespaces are identified by their index in the interpreter's store. */
  datatype Value =
    | NoneValue
    | IntValue(i: int)
    | BoolValue(b: bool)
    | StrValue(s: string)
    | Function(name: string, params: seq<string>, body: seq<Stmt>, scope: nat, defScope: nat)

  /** Load context resolves a name; store context yields the identifier itself. */
  datatype Ctx = Load | Store

  /** The ten binary operator node classes. */
  datatype Operator =
    | AddOp | SubOp | MultOp | DivOp | ModOp
    | BitAndOp | BitOrOp | BitXorOp | LshiftOp | RshiftOp

  datatype Expr =
    | Name(id: string, ctx: Ctx)
    | IntLit(i: int)
    | BoolLit(b: bool)
    | NoneLit
    | BinOp(op: Operator, left: Expr, right: Expr)
    | Call(func: Expr, args: seq<Expr>)

  datatype Stmt =
    | FunctionDef(name: string, args: seq<string>, body: seq<Stmt>)
    | IfStmt(test: Expr, body: seq<Stmt>, orelse: seq<Stmt>)
    | WhileStmt(test: Expr, body: seq<Stmt>)
    | AssignStmt(target: Expr, value: Expr)
    | ReturnStmt(expr: Option<Expr>)
    | PassStmt
    | ContinueStmt
    | BreakStmt
      /** an expression node standing in a statement list */
    | ExprStmt(e: Expr)
  {
    predicate IsControlFlow() {
      ReturnStmt? || PassStmt? || ContinueStmt? || BreakStmt?
    }
  }

  /** A control-flow mark; a `Return` carries its expression unevaluated. */
  datatype Mark = Return(toEval: Option<Expr>) | Break | Continue | Pass

  /** What evaluating a statement gives: a plain value (None for assignments
      and definitions), a control-flow mark, or the list built by `if`/`while`. */
  datatype Result = Plain(v: Value) | Signal(m: Mark) | Items(xs: seq<Result>)

  datatype Error =
    | NameError(name: string)
      /** wrong number of arguments: function name, parameter count, argument count */
    | ArityError(func: string, expected: nat, given: nat)
    | NotCallable
    | UnsupportedOperand
    | ZeroDivision
    | NegativeShift
      /** an operation whose result is outside the model (floats, string arithmetic) */
    | Unmodelled
      /** an assignment target that does not evaluate to a name */
    | BadTarget
    | OutOfFuel

  datatype Outcome<+T> = Ok(value: T) | Raise(error: Error)

  /** Python's numbers among the values: `bool` is a subclass of `int`. */
  predicate IsNumber(v: Value) {
    v.IntValue? || v.BoolValue?
  }

  /** The integer a number stands for: `True` is 1 and `False` is 0. */
  function AsInt(v: Value): int
    requires IsNumber(v)
  {
    if v.IntValue? then v.i else if v.b then 1 else 0
  }

  /** Python's `v == True`, the test of an `if` or `while`: since `True` is
      the number 1, it holds exactly for the numbers equal to 1 (`True` and
      the integer 1), and for nothing else in this model (not for 2, not for
      a non-empty string). */
  function EqualsTrue(v: Value): (r: bool)
    ensures r <==> IsNumber(v) && AsInt(v) == 1
  {
    v == BoolValue(true) || v == IntValue(1)
  }

  /** The mark produced by evaluating one of the four control-flow statements. */
  function ControlMark(s: Stmt): (m: Mark)
    requires s.IsControlFlow()
    ensures s.ReturnStmt? <==> m.Return?
    ensures s.PassStmt? <==> m.Pass?
    ensures s.ContinueStmt? <==> m.Continue?
    ensures s.BreakStmt? <==> m.Break?
    ensures m.Return? ==> m.toEval == s.expr
  {
    match s
    case ReturnStmt(e) => Return(e)
    case PassStmt => Pass
    case ContinueStmt => Continue
    case BreakStmt => Break
  }

  /** The augmented-assignment operator table. */
  const OpTable: map<string, Operator> := map[
    "+=" := AddOp, "-=" := SubOp, "*=" := MultOp, "/=" := DivOp, "%=" := ModOp,
    "&=" := BitAndOp, "|=" := BitOrOp, "^=" := BitXorOp, "<<=" := LshiftOp, ">>=" := RshiftOp
  ]

  /** The augmented-assignment symbol of each operator. */
  function AugSymbol(op: Operator): string {
    match op
    case AddOp => "+="
    case SubOp => "-="
    case MultOp => "*="
    case DivOp => "/="
    case ModOp => "%="
    case BitAndOp => "&="
    case BitOrOp => "|="
    case BitXorOp => "^="
    case LshiftOp => "<<="
    case RshiftOp => ">>="
  }

  /** Builds the tree for `name op= value`: a plain assignment whose target is
      `name` in store context and whose value applies the operator to `name`
      in load context and `value`. An operator missing from the table is the
      lookup failure of the constructor (None). */
  function AugAssignStmt(name: string, value: Expr, op: string): (r: Option<Stmt>)
    ensures r.Some? <==> op in OpTable
    ensures r.Some? ==> r.value.AssignStmt? && r.value.target == Name(name, Store)
    ensures r.Some? ==> r.value.value == BinOp(OpTable[op], Name(name, Load), value)
  {
    if op in OpTable then
      Some(AssignStmt(Name(name, Store), BinOp(OpTable[op], Name(name, Load), value)))
    else
      None
  }

  /** Every operator has exactly one entry, and the table holds nothing else. */
  lemma OpTableRoundTrip(op: Operator, s: string)
    ensures AugSymbol(op) in OpTable && OpTable[AugSymbol(op)] == op
    ensures s in OpTable ==> AugSymbol(OpTable[s]) == s
  {
  }

  lemma OpTableHasTenEntries()
    ensures OpTable.Keys == {"+=", "-=", "*=", "/=", "%=", "&=", "|=", "^=", "<<=", ">>="}
  {
  }
}
