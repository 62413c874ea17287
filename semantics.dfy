/** Big-step semantics of statements and expressions, as functions of the
    interpreter state. This is the specification that the imperative
    evaluator in class `Evaluator.Interpreter` is proved to implement, and
    what the lemmas in module Properties are about.

    Evaluation may not terminate (a `while` loop, unbounded recursion), so
    every function takes a fuel bound: going one level down (from a
    statement to what it contains, from an operator or call to its operands
    and body) uses one unit, as does each further `while` iteration, while
    the statements of one list and the arguments of one call all get the
    same fuel. Fuel therefore bounds nesting depth and the number of loop
    iterations, not the number of nodes evaluated; running out is the
    `OutOfFuel` error. An error stops evaluation with the state as it was when the error
    arose: nothing is rolled back and the current namespace is not restored. */
module Semantics {
  import opened Ast
  import opened Memory
  import opened Arith

  /** The state after an evaluation, and its outcome. */
  datatype Step<+T> = Step(st: State, out: Outcome<T>)

  /** How the inner loop over a `while` body ended: at the end of the body or
      on `continue` (shouldBreak false), on `break` (shouldBreak true), or on a
      `return` mark, which leaves the whole statement. */
  datatype Round = Round(acc: seq<Result>, shouldBreak: bool) | Returned(mark: Mark)

  /** A result list as an `if` or `while` hands it back: no element is itself
      a list, and the only mark an element can be is Pass (a `break`,
      `continue` or `return` mark always cuts the list short instead). */
  ghost predicate Flat(xs: seq<Result>) {
    xs == [] ||
    (Flat(xs[..|xs| - 1]) && !xs[|xs| - 1].Items? &&
     (xs[|xs| - 1].Signal? ==> xs[|xs| - 1].m.Pass?))
  }

  lemma {:induction false} FlatConcat(a: seq<Result>, b: seq<Result>)
    ensures Flat(a) && Flat(b) ==> Flat(a + b)
    decreases |b|
  {
    if b != [] {
      var n := |b| - 1;
      FlatConcat(a, b[..n]);
      assert (a + b)[..|a + b| - 1] == a + b[..n];
      assert (a + b)[|a + b| - 1] == b[n];
    } else {
      assert a + b == a;
    }
  }

  /** Adds one statement result to a result list: a list is spliced in, any
      other result (a value, None, a Pass mark) is appended. */
  function Collect(acc: seq<Result>, x: Result): (r: seq<Result>)
    ensures Flat(acc) && (x.Items? ==> Flat(x.xs)) && (x.Signal? ==> x.m.Pass?) ==> Flat(r)
  {
    if x.Items? then
      FlatConcat(acc, x.xs);
      acc + x.xs
    else
      assert (acc + [x])[..|acc|] == acc;
      acc + [x]
  }

  function EvalExpr(fuel: nat, st: State, e: Expr): (r: Step<Value>)
    requires Valid(st)
    ensures Valid(r.st) && Grows(st, r.st)
    ensures r.out.Ok? ==> ValueIn(r.out.value, |r.st.store|)
    decreases fuel, 0, 0
  {
    if fuel == 0 then Step(st, Raise(OutOfFuel))
    else match e
      case Name(id, ctx) =>
        if ctx == Store then Step(st, Ok(StrValue(id)))
        else (match Lookup(st.store, st.current, id)
          case Some(v) => Step(st, Ok(v))
          case None => Step(st, Raise(NameError(id))))
      case IntLit(i) => Step(st, Ok(IntValue(i)))
      case BoolLit(b) => Step(st, Ok(BoolValue(b)))
      case NoneLit => Step(st, Ok(NoneValue))
      case BinOp(op, left, right) => EvalBinOp(fuel - 1, st, op, left, right)
      case Call(func, args) => EvalCall(fuel - 1, st, func, args)
  }

  /** A binary operator node: left operand, then right operand, then the operator. */
  function EvalBinOp(fuel: nat, st: State, op: Operator, left: Expr, right: Expr): (r: Step<Value>)
    requires Valid(st)
    ensures Valid(r.st) && Grows(st, r.st)
    ensures r.out.Ok? ==> IsNumber(r.out.value)
    decreases fuel, 2, 0
  {
    var a := EvalExpr(fuel, st, left);
    if a.out.Raise? then Step(a.st, Raise(a.out.error))
    else
      var b := EvalExpr(fuel, a.st, right);
      if b.out.Raise? then Step(b.st, Raise(b.out.error))
      else Step(b.st, Apply(op, a.out.value, b.out.value))
  }

  /** A call node: the callee, then the arguments left to right, then the call. */
  function EvalCall(fuel: nat, st: State, func: Expr, args: seq<Expr>): (r: Step<Value>)
    requires Valid(st)
    ensures Valid(r.st) && Grows(st, r.st)
    ensures r.out.Ok? ==> ValueIn(r.out.value, |r.st.store|)
    decreases fuel, 4, 0
  {
    var f := EvalExpr(fuel, st, func);
    if f.out.Raise? then Step(f.st, Raise(f.out.error))
    else
      var xs := EvalArgs(fuel, f.st, args, []);
      if xs.out.Raise? then Step(xs.st, Raise(xs.out.error))
      else if !f.out.value.Function? then Step(xs.st, Raise(NotCallable))
      else Invoke(fuel, xs.st, f.out.value, xs.out.value)
  }

  /** Evaluates call arguments left to right, appending their values to `acc`. */
  function EvalArgs(fuel: nat, st: State, es: seq<Expr>, acc: seq<Value>): (r: Step<seq<Value>>)
    requires Valid(st) && AllIn(acc, |st.store|)
    ensures Valid(r.st) && Grows(st, r.st)
    ensures r.out.Ok? ==> |r.out.value| == |acc| + |es| && r.out.value[..|acc|] == acc
    ensures r.out.Ok? ==> AllIn(r.out.value, |r.st.store|)
    decreases fuel, 1, |es|
  {
    if es == [] then Step(st, Ok(acc))
    else
      var h := EvalExpr(fuel, st, es[0]);
      if h.out.Raise? then Step(h.st, Raise(h.out.error))
      else EvalArgs(fuel, h.st, es[1..], acc + [h.out.value])
  }

  /** Calling a function value (the `container` closure): the function's own
      namespace becomes current, the argument count is checked, parameters are
      bound in that namespace, the body runs, and the namespace that was
      current when the `def` ran becomes current again. */
  function Invoke(fuel: nat, st: State, f: Value, args: seq<Value>): (r: Step<Value>)
    requires Valid(st) && f.Function? && ValueIn(f, |st.store|)
    requires AllIn(args, |st.store|)
    ensures Valid(r.st) && Grows(st, r.st)
    ensures r.out.Ok? ==> ValueIn(r.out.value, |r.st.store|)
    ensures |args| != |f.params| ==>
              r == Step(st.(current := f.scope), Raise(ArityError(f.name, |f.params|, |args|)))
    ensures r.out.Ok? ==> r.st.current == f.defScope
    decreases fuel, 3, 0
  {
    var entered := st.(current := f.scope);
    if |args| != |f.params| then
      Step(entered, Raise(ArityError(f.name, |f.params|, |args|)))
    else
      var bound := entered.(store := BindAll(st.store, f.scope, f.params, args));
      var b := RunBody(fuel, bound, f.body);
      if b.out.Raise? then b
      else Step(b.st.(current := f.defScope), b.out)
  }

  /** Runs a function body: the first `return` mark ends it with the mark's
      expression evaluated (None when it has none); other marks are ignored. */
  function RunBody(fuel: nat, st: State, body: seq<Stmt>): (r: Step<Value>)
    requires Valid(st)
    ensures Valid(r.st) && Grows(st, r.st)
    ensures r.out.Ok? ==> ValueIn(r.out.value, |r.st.store|)
    decreases fuel, 1, |body|
  {
    if body == [] then Step(st, Ok(NoneValue))
    else
      var s := ExecStmt(fuel, st, body[0]);
      if s.out.Raise? then Step(s.st, Raise(s.out.error))
      else if s.out.value.Signal? && s.out.value.m.Return? then
        (match s.out.value.m.toEval
          case None => Step(s.st, Ok(NoneValue))
          case Some(e) => EvalExpr(fuel, s.st, e))
      else RunBody(fuel, s.st, body[1..])
  }

  function ExecStmt(fuel: nat, st: State, s: Stmt): (r: Step<Result>)
    requires Valid(st)
    ensures Valid(r.st) && Grows(st, r.st)
    ensures r.out.Ok? && r.out.value.Items? ==> Flat(r.out.value.xs)
    decreases fuel, 0, 0
  {
    if fuel == 0 then Step(st, Raise(OutOfFuel))
    else match s
      case FunctionDef(name, args, body) => Step(DefineFunction(st, name, args, body), Ok(Plain(NoneValue)))
      case IfStmt(test, body, orelse) => ExecIf(fuel - 1, st, test, body, orelse)
      case WhileStmt(test, body) => RunWhile(fuel - 1, st, test, body, [])
      case AssignStmt(target, value) => ExecAssign(fuel - 1, st, target, value)
      case ReturnStmt(_) => Step(st, Ok(Signal(ControlMark(s))))
      case PassStmt => Step(st, Ok(Signal(ControlMark(s))))
      case ContinueStmt => Step(st, Ok(Signal(ControlMark(s))))
      case BreakStmt => Step(st, Ok(Signal(ControlMark(s))))
      case ExprStmt(e) =>
        var v := EvalExpr(fuel - 1, st, e);
        if v.out.Raise? then Step(v.st, Raise(v.out.error))
        else Step(v.st, Ok(Plain(v.out.value)))
  }

  /** Evaluating a `def`: one new namespace whose outer is the current one, and
      one binding, of the function name, in the current namespace. */
  function DefineFunction(st: State, name: string, params: seq<string>, body: seq<Stmt>): (r: State)
    requires Valid(st)
    ensures Valid(r) && Grows(st, r)
    ensures r.current == st.current
    ensures |r.store| == |st.store| + 1
    ensures r.store[|st.store|] == Namespace(map[], Some(st.current))
    ensures r.store[st.current].outer == st.store[st.current].outer
    ensures r.store[st.current].bindings.Keys == st.store[st.current].bindings.Keys + {name}
    ensures r.store[st.current].bindings[name] == Function(name, params, body, |st.store|, st.current)
    ensures forall x :: x in st.store[st.current].bindings && x != name ==>
              r.store[st.current].bindings[x] == st.store[st.current].bindings[x]
    ensures forall i :: 0 <= i < |st.store| && i != st.current ==> r.store[i] == st.store[i]
  {
    var previous := st.current;
    var scope := |st.store|;
    var store := st.store + [Namespace(map[], Some(previous))];
    State(Bind(store, previous, name, Function(name, params, body, scope, previous)), previous)
  }

  function ExecIf(fuel: nat, st: State, test: Expr, body: seq<Stmt>, orelse: seq<Stmt>): (r: Step<Result>)
    requires Valid(st)
    ensures Valid(r.st) && Grows(st, r.st)
    ensures r.out.Ok? && r.out.value.Items? ==> Flat(r.out.value.xs)
    ensures r.out.Ok? ==> r.out.value.Items? || (r.out.value.Signal? && !r.out.value.m.Pass?)
    decreases fuel, 2, 0
  {
    var t := EvalExpr(fuel, st, test);
    if t.out.Raise? then Step(t.st, Raise(t.out.error))
    else RunIf(fuel, t.st, if EqualsTrue(t.out.value) then body else orelse, [])
  }

  /** The loop over the chosen branch of an `if`: the first mark other than
      Pass is returned at once; every other result is collected. */
  function RunIf(fuel: nat, st: State, stmts: seq<Stmt>, acc: seq<Result>): (r: Step<Result>)
    requires Valid(st)
    ensures Valid(r.st) && Grows(st, r.st)
    ensures Flat(acc) && r.out.Ok? && r.out.value.Items? ==> Flat(r.out.value.xs)
    ensures r.out.Ok? ==> r.out.value.Items? || (r.out.value.Signal? && !r.out.value.m.Pass?)
    decreases fuel, 1, |stmts|
  {
    if stmts == [] then Step(st, Ok(Items(acc)))
    else
      var s := ExecStmt(fuel, st, stmts[0]);
      if s.out.Raise? then s
      else if s.out.value.Signal? && !s.out.value.m.Pass? then s
      else RunIf(fuel, s.st, stmts[1..], Collect(acc, s.out.value))
  }

  /** The `while` loop from its current state, with the results collected so far. */
  function RunWhile(fuel: nat, st: State, test: Expr, body: seq<Stmt>, acc: seq<Result>): (r: Step<Result>)
    requires Valid(st)
    ensures Valid(r.st) && Grows(st, r.st)
    ensures Flat(acc) && r.out.Ok? && r.out.value.Items? ==> Flat(r.out.value.xs)
    ensures r.out.Ok? ==> r.out.value.Items? || (r.out.value.Signal? && r.out.value.m.Return?)
    decreases fuel, 2, 0
  {
    if fuel == 0 then Step(st, Raise(OutOfFuel))
    else
      var t := EvalExpr(fuel, st, test);
      if t.out.Raise? then Step(t.st, Raise(t.out.error))
      else if !EqualsTrue(t.out.value) then Step(t.st, Ok(Items(acc)))
      else
        var it := RunIteration(fuel, t.st, body, acc);
        if it.out.Raise? then Step(it.st, Raise(it.out.error))
        else match it.out.value
          case Returned(m) => Step(it.st, Ok(Signal(m)))
          case Round(acc', shouldBreak) =>
            if shouldBreak then Step(it.st, Ok(Items(acc')))
            else RunWhile(fuel - 1, it.st, test, body, acc')
  }

  /** One pass of the inner loop over a `while` body. */
  function RunIteration(fuel: nat, st: State, stmts: seq<Stmt>, acc: seq<Result>): (r: Step<Round>)
    requires Valid(st)
    ensures Valid(r.st) && Grows(st, r.st)
    ensures Flat(acc) && r.out.Ok? && r.out.value.Round? ==> Flat(r.out.value.acc)
    ensures r.out.Ok? && r.out.value.Returned? ==> r.out.value.mark.Return?
    decreases fuel, 1, |stmts|
  {
    if stmts == [] then Step(st, Ok(Round(acc, false)))
    else
      var s := ExecStmt(fuel, st, stmts[0]);
      if s.out.Raise? then Step(s.st, Raise(s.out.error))
      else
        var x := s.out.value;
        if x.Signal? && x.m.Break? then Step(s.st, Ok(Round(acc, true)))
        else if x.Signal? && x.m.Continue? then Step(s.st, Ok(Round(acc, false)))
        else if x.Signal? && x.m.Return? then Step(s.st, Ok(Returned(x.m)))
        else RunIteration(fuel, s.st, stmts[1..], Collect(acc, x))
  }

  /** Assignment: the target (a name in store context) is evaluated first, then
      the value; the binding goes into whatever namespace is current after the
      value has been evaluated. */
  function ExecAssign(fuel: nat, st: State, target: Expr, value: Expr): (r: Step<Result>)
    requires Valid(st)
    ensures Valid(r.st) && Grows(st, r.st)
    ensures r.out.Ok? ==> r.out.value == Plain(NoneValue)
    decreases fuel, 2, 0
  {
    var l := EvalExpr(fuel, st, target);
    if l.out.Raise? then Step(l.st, Raise(l.out.error))
    else
      var v := EvalExpr(fuel, l.st, value);
      if v.out.Raise? then Step(v.st, Raise(v.out.error))
      else if !l.out.value.StrValue? then Step(v.st, Raise(BadTarget))
      else Step(v.st.(store := Bind(v.st.store, v.st.current, l.out.value.s, v.out.value)), Ok(Plain(NoneValue)))
  }
}
