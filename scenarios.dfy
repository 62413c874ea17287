/** Small programs that show the consequences of how a call handles
    namespaces: one namespace per `def`, shared by every call, and the
    namespace current at the `def` made current again after each call. */
module Scenarios {
  import opened Ast
  import opened Memory
  import opened Arith
  import opened Semantics

  /** `def counter(): n = n + 1; return n`, defined in the global namespace 0,
      with its own namespace at index 1. */
  function CounterBody(): seq<Stmt> {
    [ AssignStmt(Name("n", Store), BinOp(AddOp, Name("n", Load), IntLit(1))),
      ReturnStmt(Some(Name("n", Load))) ]
  }

  function Counter(): Value {
    Function("counter", [], CounterBody(), 1, 0)
  }

  /** Each call of `counter` adds one to the `n` kept in its namespace,
      returns the new value and leaves the global namespace current. */
  lemma CounterIncrements(fuel: nat, st: State, k: int)
    requires Valid(st) && fuel >= 3 && 1 < |st.store|
    requires "n" in st.store[1].bindings && st.store[1].bindings["n"] == IntValue(k)
    ensures var r := Invoke(fuel, st, Counter(), []);
      && r.out == Ok(IntValue(k + 1))
      && r.st == State(Bind(st.store, 1, "n", IntValue(k + 1)), 0)
  {
    var entered := State(st.store, 1);
    assert BindAll(st.store, 1, [], []) == st.store;
    var rhs := BinOp(AddOp, Name("n", Load), IntLit(1));
    assert EvalExpr(fuel - 2, entered, Name("n", Load)) == Step(entered, Ok(IntValue(k)));
    assert EvalExpr(fuel - 2, entered, IntLit(1)) == Step(entered, Ok(IntValue(1)));
    assert Apply(AddOp, IntValue(k), IntValue(1)) == Ok(IntValue(k + 1));
    assert EvalBinOp(fuel - 2, entered, AddOp, Name("n", Load), IntLit(1)) == Step(entered, Ok(IntValue(k + 1)));
    assert EvalExpr(fuel - 1, entered, rhs) == Step(entered, Ok(IntValue(k + 1)));
    assert EvalExpr(fuel - 1, entered, Name("n", Store)) == Step(entered, Ok(StrValue("n")));
    var after := State(Bind(st.store, 1, "n", IntValue(k + 1)), 1);
    assert ExecStmt(fuel, entered, CounterBody()[0]) == Step(after, Ok(Plain(NoneValue)));
    assert ExecStmt(fuel, after, CounterBody()[1]) == Step(after, Ok(Signal(Return(Some(Name("n", Load))))));
    assert EvalExpr(fuel, after, Name("n", Load)) == Step(after, Ok(IntValue(k + 1)));
    assert RunBody(fuel, after, CounterBody()[1..]) == Step(after, Ok(IntValue(k + 1)));
    assert RunBody(fuel, entered, CounterBody()) == Step(after, Ok(IntValue(k + 1)));
  }

  /** With `n = 0` in its namespace, `counter()` returns 1 and then 2: the two
      calls share one namespace. */
  lemma CounterCountsAcrossCalls(fuel: nat, st: State)
    requires Valid(st) && fuel >= 3 && 1 < |st.store|
    requires "n" in st.store[1].bindings && st.store[1].bindings["n"] == IntValue(0)
    ensures var first := Invoke(fuel, st, Counter(), []);
      && first.out == Ok(IntValue(1))
      && Invoke(fuel, first.st, Counter(), []).out == Ok(IntValue(2))
  {
    CounterIncrements(fuel, st, 0);
    var first := Invoke(fuel, st, Counter(), []);
    CounterIncrements(fuel, first.st, 1);
  }

  /** `def g(): pass` with namespace 1 and `def f(): g(); x = 1` with
      namespace 2, both defined in the global namespace 0. */
  function G(): Value {
    Function("g", [], [PassStmt], 1, 0)
  }

  function F(): Value {
    Function("f", [], [ExprStmt(Call(Name("g", Load), [])), AssignStmt(Name("x", Store), IntLit(1))], 2, 0)
  }

  /** Inside `f`, the expression `g()` evaluates to None and leaves the
      global namespace current, with the store unchanged. */
  lemma InnerCallReturnsToGlobal(fuel: nat, st: State)
    requires Valid(st) && fuel >= 2 && 2 < |st.store|
    requires st.store[2].outer == Some(0) && "g" !in st.store[2].bindings
    requires "g" in st.store[0].bindings && st.store[0].bindings["g"] == G()
    ensures EvalExpr(fuel, State(st.store, 2), Call(Name("g", Load), [])) == Step(State(st.store, 0), Ok(NoneValue))
  {
    var inF := State(st.store, 2);
    assert BindAll(st.store, 1, [], []) == st.store;
    assert Lookup(st.store, 2, "g") == Some(G());
    assert EvalExpr(fuel - 1, inF, Name("g", Load)) == Step(inF, Ok(G()));
    assert EvalArgs(fuel - 1, inF, [], []) == Step(inF, Ok([]));
    var inG := State(st.store, 1);
    assert ExecStmt(fuel - 1, inG, PassStmt) == Step(inG, Ok(Signal(Pass)));
    assert RunBody(fuel - 1, inG, [PassStmt][1..]) == Step(inG, Ok(NoneValue));
    assert RunBody(fuel - 1, inG, [PassStmt]) == Step(inG, Ok(NoneValue));
    assert Invoke(fuel - 1, inF, G(), []) == Step(State(st.store, 0), Ok(NoneValue));
  }

  /** `x = 1` with the global namespace current binds `x` there. */
  lemma AssignOneInGlobal(fuel: nat, store: seq<Namespace>)
    requires Valid(State(store, 0)) && fuel >= 2
    ensures ExecStmt(fuel, State(store, 0), AssignStmt(Name("x", Store), IntLit(1)))
         == Step(State(Bind(store, 0, "x", IntValue(1)), 0), Ok(Plain(NoneValue)))
  {
    var global := State(store, 0);
    assert EvalExpr(fuel - 1, global, Name("x", Store)) == Step(global, Ok(StrValue("x")));
    assert EvalExpr(fuel - 1, global, IntLit(1)) == Step(global, Ok(IntValue(1)));
  }

  /** The call `g()` inside `f` makes the global namespace current again, so
      the assignment that follows it in `f`'s body binds `x` in the global
      namespace, not in `f`'s own: a name bound in a function body is still
      visible after the call returns. */
  lemma AssignAfterInnerCallIsGlobal(fuel: nat, st: State)
    requires Valid(st) && fuel >= 3 && 2 < |st.store|
    requires st.store[2].outer == Some(0) && "g" !in st.store[2].bindings
    requires "g" in st.store[0].bindings && st.store[0].bindings["g"] == G()
    ensures var r := Invoke(fuel, st, F(), []);
      && r.out == Ok(NoneValue)
      && r.st.current == 0
      && "x" in r.st.store[0].bindings && r.st.store[0].bindings["x"] == IntValue(1)
      && r.st.store[2] == st.store[2]
  {
    var body := F().body;
    var inF := State(st.store, 2);
    assert BindAll(st.store, 2, [], []) == st.store;
    InnerCallReturnsToGlobal(fuel - 1, st);
    var back := State(st.store, 0);
    assert ExecStmt(fuel, inF, body[0]) == Step(back, Ok(Plain(NoneValue)));
    var done := State(Bind(st.store, 0, "x", IntValue(1)), 0);
    AssignOneInGlobal(fuel, st.store);
    assert ExecStmt(fuel, back, body[1]) == Step(done, Ok(Plain(NoneValue)));
    assert RunBody(fuel, done, body[2..]) == Step(done, Ok(NoneValue));
    assert RunBody(fuel, back, body[1..]) == Step(done, Ok(NoneValue));
    assert RunBody(fuel, inF, body) == Step(done, Ok(NoneValue));
  }

  /** `def h(): y = 2` with namespace 1, defined in the global namespace 0. */
  function H(): Value {
    Function("h", [], [AssignStmt(Name("y", Store), IntLit(2))], 1, 0)
  }

  /** Without an inner call, a name bound in a function body stays in the
      function's own namespace: after `h()` returns to the global namespace,
      `y` is bound in `h`'s namespace but not visible from the global one. */
  lemma LocalStaysHidden(fuel: nat, st: State)
    requires Valid(st) && fuel >= 2 && 1 < |st.store|
    requires "y" !in st.store[0].bindings && st.store[0].outer == None
    ensures var r := Invoke(fuel, st, H(), []);
      && r.out == Ok(NoneValue)
      && r.st.current == 0
      && Lookup(r.st.store, 0, "y") == None
      && "y" in r.st.store[1].bindings && r.st.store[1].bindings["y"] == IntValue(2)
  {
    var body := H().body;
    var inH := State(st.store, 1);
    assert BindAll(st.store, 1, [], []) == st.store;
    assert EvalExpr(fuel - 1, inH, Name("y", Store)) == Step(inH, Ok(StrValue("y")));
    assert EvalExpr(fuel - 1, inH, IntLit(2)) == Step(inH, Ok(IntValue(2)));
    var done := State(Bind(st.store, 1, "y", IntValue(2)), 1);
    assert ExecStmt(fuel, inH, body[0]) == Step(done, Ok(Plain(NoneValue)));
    assert RunBody(fuel, done, body[1..]) == Step(done, Ok(NoneValue));
    assert RunBody(fuel, inH, body) == Step(done, Ok(NoneValue));
    assert done.store[0] == st.store[0];
  }
}
