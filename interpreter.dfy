/** The evaluator as the source runs it: one interpreter object holding every
    namespace and the process-wide current-namespace pointer, whose methods
    update them in place, one `eval` per node class. Each method is proved to
    compute exactly what the functions of module Semantics describe. */
module Evaluator {
  import opened Ast
  import opened Memory
  import opened Arith
  import opened Semantics

  class Interpreter {
    /** every namespace created so far; a namespace is named by its index */
    var store: seq<Namespace>
    /** the current namespace */
    var current: nat

    function Snapshot(): State
      reads this
    {
      State(store, current)
    }

    ghost predicate Valid()
      reads this
    {
      Memory.Valid(Snapshot())
    }

    /** A fresh interpreter has only the global namespace, and it is current. */
    constructor ()
      ensures Valid() && Snapshot() == Initial()
    {
      store := [Namespace(map[], None)];
      current := 0;
    }

    method Eval(fuel: nat, e: Expr) returns (out: Outcome<Value>)
      requires Valid()
      modifies this
      ensures Valid()
      ensures Step(Snapshot(), out) == EvalExpr(fuel, old(Snapshot()), e)
      decreases fuel, 0, 0
    {
      if fuel == 0 {
        return Raise(OutOfFuel);
      }
      match e
      case Name(id, ctx) =>
        if ctx == Store {
          out := Ok(StrValue(id));
        } else {
          var v := Lookup(store, current, id);
          out := if v.Some? then Ok(v.value) else Raise(NameError(id));
        }
      case IntLit(i) => out := Ok(IntValue(i));
      case BoolLit(b) => out := Ok(BoolValue(b));
      case NoneLit => out := Ok(NoneValue);
      case BinOp(op, left, right) => out := EvalBinOpNode(fuel - 1, op, left, right);
      case Call(func, args) => out := EvalCallNode(fuel - 1, func, args);
    }

    method EvalBinOpNode(fuel: nat, op: Operator, left: Expr, right: Expr) returns (out: Outcome<Value>)
      requires Valid()
      modifies this
      ensures Valid()
      ensures Step(Snapshot(), out) == EvalBinOp(fuel, old(Snapshot()), op, left, right)
      decreases fuel, 2, 0
    {
      ghost var before := Snapshot();
      var a := Eval(fuel, left);
      if a.Raise? {
        return Raise(a.error);
      }
      ghost var afterLeft := Snapshot();
      var b := Eval(fuel, right);
      if b.Raise? {
        return Raise(b.error);
      }
      out := Apply(op, a.value, b.value);
      assert EvalBinOp(fuel, before, op, left, right) == Step(Snapshot(), out) by {
        assert EvalExpr(fuel, before, left) == Step(afterLeft, a);
        assert EvalExpr(fuel, afterLeft, right) == Step(Snapshot(), b);
      }
    }

    method EvalCallNode(fuel: nat, func: Expr, args: seq<Expr>) returns (out: Outcome<Value>)
      requires Valid()
      modifies this
      ensures Valid()
      ensures Step(Snapshot(), out) == EvalCall(fuel, old(Snapshot()), func, args)
      decreases fuel, 4, 0
    {
      var f := Eval(fuel, func);
      if f.Raise? {
        return Raise(f.error);
      }
      var xs := EvalArguments(fuel, args);
      if xs.Raise? {
        return Raise(xs.error);
      }
      if !f.value.Function? {
        return Raise(NotCallable);
      }
      out := Call(fuel, f.value, xs.value);
    }

    method EvalArguments(fuel: nat, es: seq<Expr>) returns (out: Outcome<seq<Value>>)
      requires Valid()
      modifies this
      ensures Valid()
      ensures Step(Snapshot(), out) == EvalArgs(fuel, old(Snapshot()), es, [])
      decreases fuel, 1, 0
    {
      var values := [];
      var i := 0;
      while i < |es|
        invariant 0 <= i <= |es|
        invariant Valid() && AllIn(values, |store|)
        invariant EvalArgs(fuel, old(Snapshot()), es, []) == EvalArgs(fuel, Snapshot(), es[i..], values)
      {
        assert es[i..][1..] == es[i + 1..];
        var v := Eval(fuel, es[i]);
        if v.Raise? {
          return Raise(v.error);
        }
        values := values + [v.value];
        i := i + 1;
      }
      out := Ok(values);
    }

    /** The `container` closure of a function value. */
    method Call(fuel: nat, f: Value, args: seq<Value>) returns (out: Outcome<Value>)
      requires Valid() && f.Function? && ValueIn(f, |store|) && AllIn(args, |store|)
      modifies this
      ensures Valid()
      ensures Step(Snapshot(), out) == Invoke(fuel, old(Snapshot()), f, args)
      decreases fuel, 3, 0
    {
      current := f.scope;
      if |args| != |f.params| {
        return Raise(ArityError(f.name, |f.params|, |args|));
      }
      BindParameters(f.scope, f.params, args);
      var returnValue := ExecBody(fuel, f.body);
      if returnValue.Raise? {
        return returnValue;
      }
      current := f.defScope;
      out := returnValue;
    }

    /** The `zip` loop of `container`: binds each parameter to its argument
        in namespace `id`. */
    method BindParameters(id: nat, params: seq<string>, args: seq<Value>)
      requires id < |store| && |params| == |args|
      modifies this
      ensures current == old(current)
      ensures store == BindAll(old(store), id, params, args)
    {
      var i := 0;
      while i < |params|
        invariant 0 <= i <= |params|
        invariant current == old(current)
        invariant store == BindAll(old(store), id, params[..i], args[..i])
      {
        assert params[..i + 1][..i] == params[..i];
        assert args[..i + 1][..i] == args[..i];
        store := Bind(store, id, params[i], args[i]);
        i := i + 1;
      }
      assert params[..i] == params && args[..i] == args;
    }

    /** The loop over a function body inside `container`. */
    method ExecBody(fuel: nat, body: seq<Stmt>) returns (out: Outcome<Value>)
      requires Valid()
      modifies this
      ensures Valid()
      ensures Step(Snapshot(), out) == RunBody(fuel, old(Snapshot()), body)
      decreases fuel, 1, 0
    {
      var returnValue := NoneValue;
      var j := 0;
      while j < |body|
        invariant 0 <= j <= |body|
        invariant Valid()
        invariant RunBody(fuel, old(Snapshot()), body) == RunBody(fuel, Snapshot(), body[j..])
      {
        assert body[j..][1..] == body[j + 1..];
        var res := Exec(fuel, body[j]);
        if res.Raise? {
          return Raise(res.error);
        }
        if res.value.Signal? && res.value.m.Return? {
          if res.value.m.toEval.Some? {
            var v := Eval(fuel, res.value.m.toEval.value);
            if v.Raise? {
              return Raise(v.error);
            }
            returnValue := v.value;
          }
          break;
        }
        j := j + 1;
      }
      out := Ok(returnValue);
    }

    method Exec(fuel: nat, s: Stmt) returns (out: Outcome<Result>)
      requires Valid()
      modifies this
      ensures Valid()
      ensures Step(Snapshot(), out) == ExecStmt(fuel, old(Snapshot()), s)
      decreases fuel, 0, 0
    {
      if fuel == 0 {
        return Raise(OutOfFuel);
      }
      match s
      case FunctionDef(name, args, body) => out := ExecFunctionDef(name, args, body);
      case IfStmt(test, body, orelse) => out := ExecIfStmt(fuel - 1, test, body, orelse);
      case WhileStmt(test, body) => out := ExecWhileStmt(fuel - 1, test, body);
      case AssignStmt(target, value) => out := ExecAssignStmt(fuel - 1, target, value);
      case ReturnStmt(_) => out := Ok(Signal(ControlMark(s)));
      case PassStmt => out := Ok(Signal(ControlMark(s)));
      case ContinueStmt => out := Ok(Signal(ControlMark(s)));
      case BreakStmt => out := Ok(Signal(ControlMark(s)));
      case ExprStmt(e) =>
        var v := Eval(fuel - 1, e);
        out := if v.Raise? then Raise(v.error) else Ok(Plain(v.value));
    }

    method ExecFunctionDef(name: string, params: seq<string>, body: seq<Stmt>) returns (out: Outcome<Result>)
      requires Valid()
      modifies this
      ensures Valid()
      ensures Snapshot() == DefineFunction(old(Snapshot()), name, params, body)
      ensures out == Ok(Plain(NoneValue))
    {
      var previousNamespace := current;
      var namespace := |store|;
      store := store + [Namespace(map[], Some(previousNamespace))];
      store := Bind(store, previousNamespace, name, Function(name, params, body, namespace, previousNamespace));
      out := Ok(Plain(NoneValue));
    }

    method ExecIfStmt(fuel: nat, test: Expr, body: seq<Stmt>, orelse: seq<Stmt>) returns (out: Outcome<Result>)
      requires Valid()
      modifies this
      ensures Valid()
      ensures Step(Snapshot(), out) == ExecIf(fuel, old(Snapshot()), test, body, orelse)
      decreases fuel, 2, 0
    {
      var t := Eval(fuel, test);
      if t.Raise? {
        return Raise(t.error);
      }
      out := ExecBranch(fuel, if EqualsTrue(t.value) then body else orelse);
    }

    /** The loop over the chosen branch of an `if`. */
    method ExecBranch(fuel: nat, stmts: seq<Stmt>) returns (out: Outcome<Result>)
      requires Valid()
      modifies this
      ensures Valid()
      ensures Step(Snapshot(), out) == RunIf(fuel, old(Snapshot()), stmts, [])
      decreases fuel, 1, 0
    {
      ghost var start := Snapshot();
      var result := [];
      var i := 0;
      while i < |stmts|
        invariant 0 <= i <= |stmts|
        invariant Valid()
        invariant RunIf(fuel, start, stmts, []) == RunIf(fuel, Snapshot(), stmts[i..], result)
      {
        assert stmts[i..][1..] == stmts[i + 1..];
        ghost var before := Snapshot();
        var evalResult := Exec(fuel, stmts[i]);
        assert ExecStmt(fuel, before, stmts[i]) == Step(Snapshot(), evalResult);
        if evalResult.Raise? || (evalResult.value.Signal? && !evalResult.value.m.Pass?) {
          assert RunIf(fuel, before, stmts[i..], result) == Step(Snapshot(), evalResult);
          return evalResult;
        }
        var collected := if evalResult.value.Items? then result + evalResult.value.xs else result + [evalResult.value];
        assert collected == Collect(result, evalResult.value);
        assert RunIf(fuel, before, stmts[i..], result) == RunIf(fuel, Snapshot(), stmts[i + 1..], collected);
        result := collected;
        i := i + 1;
      }
      out := Ok(Items(result));
    }

    method ExecWhileStmt(fuel: nat, test: Expr, body: seq<Stmt>) returns (out: Outcome<Result>)
      requires Valid()
      modifies this
      ensures Valid()
      ensures Step(Snapshot(), out) == RunWhile(fuel, old(Snapshot()), test, body, [])
      decreases fuel, 2, 0
    {
      ghost var goal := RunWhile(fuel, Snapshot(), test, body, []);
      var result := [];
      var fl: nat := fuel;
      while true
        invariant fl <= fuel
        invariant Valid()
        invariant goal == RunWhile(fl, Snapshot(), test, body, result)
        decreases fl
      {
        var done, o, next := TestAndRunBody(fl, test, body, result);
        if done {
          return o;
        }
        assert goal == RunWhile(fl - 1, Snapshot(), test, body, next);
        result := next;
        fl := fl - 1;
      }
    }

    /** One pass of the `while` loop: the test, then (when it equals True) the
        body once; with no fuel left, the loop fails instead. `done` says the
        loop is over, with outcome `out`; otherwise the loop goes on with the
        results `next`. */
    method TestAndRunBody(fuel: nat, test: Expr, body: seq<Stmt>, result: seq<Result>)
      returns (done: bool, out: Outcome<Result>, next: seq<Result>)
      requires Valid()
      modifies this
      ensures Valid()
      ensures done ==> Step(Snapshot(), out) == RunWhile(fuel, old(Snapshot()), test, body, result)
      ensures !done ==> fuel > 0
      ensures !done ==> RunWhile(fuel, old(Snapshot()), test, body, result) == RunWhile(fuel - 1, Snapshot(), test, body, next)
      decreases fuel, 1, 1
    {
      next := result;
      if fuel == 0 {
        return true, Raise(OutOfFuel), next;
      }
      var t := Eval(fuel, test);
      if t.Raise? {
        return true, Raise(t.error), next;
      }
      if !EqualsTrue(t.value) {
        return true, Ok(Items(result)), next;
      }
      var round := ExecLoopBody(fuel, body, result);
      if round.Raise? {
        return true, Raise(round.error), next;
      }
      if round.value.Returned? {
        return true, Ok(Signal(round.value.mark)), next;
      }
      if round.value.shouldBreak {
        return true, Ok(Items(round.value.acc)), next;
      }
      return false, Ok(Items(round.value.acc)), round.value.acc;
    }

    /** The inner loop over a `while` body: `break` sets the flag that ends
        the whole loop, `continue` ends this pass, `pass` is collected like any
        other result, and a `return` mark leaves at once. */
    method ExecLoopBody(fuel: nat, body: seq<Stmt>, acc: seq<Result>) returns (out: Outcome<Round>)
      requires Valid()
      modifies this
      ensures Valid()
      ensures Step(Snapshot(), out) == RunIteration(fuel, old(Snapshot()), body, acc)
      decreases fuel, 1, 0
    {
      var result := acc;
      var shouldBreak := false;
      var i := 0;
      while i < |body|
        invariant 0 <= i <= |body|
        invariant Valid() && !shouldBreak
        invariant RunIteration(fuel, old(Snapshot()), body, acc) == RunIteration(fuel, Snapshot(), body[i..], result)
      {
        assert body[i..][1..] == body[i + 1..];
        var evalResult := Exec(fuel, body[i]);
        if evalResult.Raise? {
          return Raise(evalResult.error);
        }
        if evalResult.value.Signal? {
          match evalResult.value.m
          case Break =>
            shouldBreak := true;
            break;
          case Continue =>
            break;
          case Pass =>
          case Return(_) =>
            return Ok(Returned(evalResult.value.m));
        }
        if evalResult.value.Items? {
          result := result + evalResult.value.xs;
        } else {
          result := result + [evalResult.value];
        }
        i := i + 1;
      }
      out := Ok(Round(result, shouldBreak));
    }

    method ExecAssignStmt(fuel: nat, target: Expr, value: Expr) returns (out: Outcome<Result>)
      requires Valid()
      modifies this
      ensures Valid()
      ensures Step(Snapshot(), out) == ExecAssign(fuel, old(Snapshot()), target, value)
      decreases fuel, 2, 0
    {
      ghost var before := Snapshot();
      var lValue := Eval(fuel, target);
      if lValue.Raise? {
        return Raise(lValue.error);
      }
      ghost var afterTarget := Snapshot();
      var rValue := Eval(fuel, value);
      if rValue.Raise? {
        return Raise(rValue.error);
      }
      if !lValue.value.StrValue? {
        return Raise(BadTarget);
      }
      ghost var afterValue := Snapshot();
      store := Bind(store, current, lValue.value.s, rValue.value);
      out := Ok(Plain(NoneValue));
      assert ExecAssign(fuel, before, target, value) == Step(Snapshot(), out) by {
        assert EvalExpr(fuel, before, target) == Step(afterTarget, lValue);
        assert EvalExpr(fuel, afterTarget, value) == Step(afterValue, rValue);
      }
    }
  }
}
