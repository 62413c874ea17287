/** Properties of the statement semantics: how control-flow marks cut the
    evaluation of a statement list short, how `if` and `while` pick and repeat
    their bodies, what assignment and augmented assignment leave in the
    namespaces, and what a `def` makes visible. */
module Properties {
  import opened Ast
  import opened Memory
  import opened Arith
  import opened Semantics

  /** The outcome of a statement that ends a function body: an error, or a
      Return mark. */
  ghost predicate EndsBody(r: Step<Result>) {
    r.out.Ok? ==> r.out.value.Signal? && r.out.value.m.Return?
  }

  /** The outcome of a statement that cuts an `if` branch, or a pass over a
      `while` body, short: an error, or a Return, Break or Continue mark. */
  ghost predicate Cuts(r: Step<Result>) {
    r.out.Ok? ==> r.out.value.Signal? && !r.out.value.m.Pass?
  }

  /** `s` ends a function body from whatever state it is reached in. */
  ghost predicate AlwaysEndsBody(fuel: nat, s: Stmt) {
    forall st {:trigger ExecStmt(fuel, st, s)} :: Valid(st) ==> EndsBody(ExecStmt(fuel, st, s))
  }

  /** `s` cuts an `if` branch or a loop pass short from whatever state it is
      reached in. */
  ghost predicate AlwaysCuts(fuel: nat, s: Stmt) {
    forall st {:trigger ExecStmt(fuel, st, s)} :: Valid(st) ==> Cuts(ExecStmt(fuel, st, s))
  }

  /** `return`, `break` and `continue` always cut a list short, and `return`
      always ends a function body; `pass` does neither. */
  lemma ControlStatementsCut(fuel: nat, s: Stmt)
    requires s.IsControlFlow()
    ensures !s.PassStmt? ==> AlwaysCuts(fuel, s)
    ensures s.ReturnStmt? ==> AlwaysEndsBody(fuel, s)
    ensures fuel > 0 ==> !AlwaysCuts(fuel, s) || !s.PassStmt?
  {
    forall st | Valid(st)
      ensures !s.PassStmt? ==> Cuts(ExecStmt(fuel, st, s))
      ensures s.ReturnStmt? ==> EndsBody(ExecStmt(fuel, st, s))
    {
    }
    if fuel > 0 && s.PassStmt? {
      assert !Cuts(ExecStmt(fuel, Initial(), s));
    }
  }

  /** An `if` whose two branches each begin with a statement that always cuts
      short (or always ends a body) does so itself: marks come out of nested
      statements as they come out of literal ones. */
  lemma IfOfCuttingBranches(fuel: nat, test: Expr, s1: Stmt, rest1: seq<Stmt>, s2: Stmt, rest2: seq<Stmt>)
    requires fuel > 0
    ensures AlwaysCuts(fuel - 1, s1) && AlwaysCuts(fuel - 1, s2) ==>
      AlwaysCuts(fuel, IfStmt(test, [s1] + rest1, [s2] + rest2))
    ensures AlwaysEndsBody(fuel - 1, s1) && AlwaysEndsBody(fuel - 1, s2) ==>
      AlwaysEndsBody(fuel, IfStmt(test, [s1] + rest1, [s2] + rest2))
  {
    var s := IfStmt(test, [s1] + rest1, [s2] + rest2);
    forall st | Valid(st)
      ensures AlwaysCuts(fuel - 1, s1) && AlwaysCuts(fuel - 1, s2) ==> Cuts(ExecStmt(fuel, st, s))
      ensures AlwaysEndsBody(fuel - 1, s1) && AlwaysEndsBody(fuel - 1, s2) ==> EndsBody(ExecStmt(fuel, st, s))
    {
      var t := EvalExpr(fuel - 1, st, test);
      if t.out.Ok? {
        var b := if EqualsTrue(t.out.value) then [s1] + rest1 else [s2] + rest2;
        var x := ExecStmt(fuel - 1, t.st, b[0]);
        assert b[0] == if EqualsTrue(t.out.value) then s1 else s2;
        assert Cuts(x) ==> RunIf(fuel - 1, t.st, b, []) == x;
      }
    }
  }

  /** Statements after one that always ends a function body (a `return`, or
      an `if` whose branches both return) are never evaluated. */
  lemma {:induction false} BodyStopsAtReturn(fuel: nat, st: State, pre: seq<Stmt>, s: Stmt, post: seq<Stmt>)
    requires Valid(st) && AlwaysEndsBody(fuel, s)
    ensures RunBody(fuel, st, pre + [s] + post) == RunBody(fuel, st, pre + [s])
    decreases |pre|
  {
    if pre != [] {
      assert pre + [s] + post == [pre[0]] + (pre[1..] + [s] + post);
      assert pre + [s] == [pre[0]] + (pre[1..] + [s]);
      BodyHandlesMarks(fuel, st, pre[0], pre[1..] + [s] + post);
      BodyHandlesMarks(fuel, st, pre[0], pre[1..] + [s]);
      var x := ExecStmt(fuel, st, pre[0]);
      if x.out.Ok? {
        BodyStopsAtReturn(fuel, x.st, pre[1..], s, post);
      }
    } else {
      assert pre + [s] + post == [s] + post;
      assert pre + [s] == [s] + [];
      assert EndsBody(ExecStmt(fuel, st, s));
      BodyEndsAtHead(fuel, st, s, post);
    }
  }

  /** A head statement whose outcome ends the body makes the statements
      after it irrelevant. */
  lemma BodyEndsAtHead(fuel: nat, st: State, s: Stmt, post: seq<Stmt>)
    requires Valid(st) && EndsBody(ExecStmt(fuel, st, s))
    ensures RunBody(fuel, st, [s] + post) == RunBody(fuel, st, [s] + [])
  {
    BodyHandlesMarks(fuel, st, s, post);
    BodyHandlesMarks(fuel, st, s, []);
  }

  /** One unfolding of `RunBody`, stated for readability: whatever
      statement heads a function body, a Return mark it yields (a literal
      `return`, or one coming out of a nested `if` or `while`) ends the
      body with the mark's expression evaluated in the state reached, or
      None without one; an error ends it too; any other result is dropped
      and the body goes on. */
  lemma BodyHandlesMarks(fuel: nat, st: State, s: Stmt, rest: seq<Stmt>)
    requires Valid(st)
    ensures var r := ExecStmt(fuel, st, s);
      r.out.Ok? && r.out.value == Signal(Return(None)) ==>
        RunBody(fuel, st, [s] + rest) == Step(r.st, Ok(NoneValue))
    ensures var r := ExecStmt(fuel, st, s);
      r.out.Ok? && r.out.value.Signal? && r.out.value.m.Return? && r.out.value.m.toEval.Some? ==>
        RunBody(fuel, st, [s] + rest) == EvalExpr(fuel, r.st, r.out.value.m.toEval.value)
    ensures var r := ExecStmt(fuel, st, s);
      r.out.Raise? ==> RunBody(fuel, st, [s] + rest) == Step(r.st, Raise(r.out.error))
    ensures var r := ExecStmt(fuel, st, s);
      r.out.Ok? && !(r.out.value.Signal? && r.out.value.m.Return?) ==>
        RunBody(fuel, st, [s] + rest) == RunBody(fuel, r.st, rest)
  {
    assert ([s] + rest)[0] == s && ([s] + rest)[1..] == rest;
  }

  /** A call binds every parameter, in the function's own namespace, to the
      argument at its last position: a body that returns a parameter returns
      that argument. */
  lemma CallBindsParameter(fuel: nat, st: State, f: Value, args: seq<Value>, j: nat)
    requires Valid(st) && f.Function? && ValueIn(f, |st.store|) && AllIn(args, |st.store|)
    requires |args| == |f.params| && fuel > 0 && j < |f.params|
    requires forall k :: j < k < |f.params| ==> f.params[k] != f.params[j]
    requires f.body == [ReturnStmt(Some(Name(f.params[j], Load)))]
    ensures Invoke(fuel, st, f, args).out == Ok(args[j])
  {
    BindAllLastWins(st.store, f.scope, f.params, args, j);
    var bound := State(BindAll(st.store, f.scope, f.params, args), f.scope);
    var x := f.params[j];
    assert ExecStmt(fuel, bound, f.body[0]) == Step(bound, Ok(Signal(Return(Some(Name(x, Load))))));
    assert EvalExpr(fuel, bound, Name(x, Load)) == Step(bound, Ok(args[j]));
    assert RunBody(fuel, bound, f.body) == Step(bound, Ok(args[j]));
  }

  /** All calls of one function value share one namespace: a name an earlier
      call left there, and that is not a parameter, is still bound when the
      next call's body starts. */
  lemma CallSeesEarlierLocals(fuel: nat, st: State, f: Value, args: seq<Value>, x: string)
    requires Valid(st) && f.Function? && ValueIn(f, |st.store|) && AllIn(args, |st.store|)
    requires |args| == |f.params| && fuel > 0
    requires x in st.store[f.scope].bindings && x !in f.params
    requires f.body == [ReturnStmt(Some(Name(x, Load)))]
    ensures Invoke(fuel, st, f, args).out == Ok(st.store[f.scope].bindings[x])
  {
    BindAllKeepsOthers(st.store, f.scope, f.params, args, x);
    var bound := State(BindAll(st.store, f.scope, f.params, args), f.scope);
    var v := st.store[f.scope].bindings[x];
    assert ExecStmt(fuel, bound, f.body[0]) == Step(bound, Ok(Signal(Return(Some(Name(x, Load))))));
    assert EvalExpr(fuel, bound, Name(x, Load)) == Step(bound, Ok(v));
    assert RunBody(fuel, bound, f.body) == Step(bound, Ok(v));
  }

  /** In a branch of an `if`, statements after one that always cuts short
      (a `return`, `break` or `continue`, or a nested statement that always
      yields one of those marks) are never evaluated. */
  lemma {:induction false} IfStopsAtMark(fuel: nat, st: State, pre: seq<Stmt>, s: Stmt, post: seq<Stmt>, acc: seq<Result>)
    requires Valid(st) && AlwaysCuts(fuel, s)
    ensures RunIf(fuel, st, pre + [s] + post, acc) == RunIf(fuel, st, pre + [s], acc)
    decreases |pre|
  {
    var full := pre + [s] + post;
    var cut := pre + [s];
    assert full[0] == cut[0];
    if pre != [] {
      assert full[1..] == pre[1..] + [s] + post;
      assert cut[1..] == pre[1..] + [s];
      var x := ExecStmt(fuel, st, pre[0]);
      if x.out.Ok? {
        IfStopsAtMark(fuel, x.st, pre[1..], s, post, Collect(acc, x.out.value));
      }
    } else {
      assert Cuts(ExecStmt(fuel, st, s));
    }
  }

  /** One unfolding of `RunIf`, stated for readability: whatever statement
      comes next in an `if` branch, a Return, Break or Continue mark it
      yields, or an error, is itself the result of the `if`, in the state
      reached so far; any other result is collected and the
      branch goes on. */
  lemma IfReturnsMark(fuel: nat, st: State, s: Stmt, rest: seq<Stmt>, acc: seq<Result>)
    requires Valid(st)
    ensures var r := ExecStmt(fuel, st, s);
      Cuts(r) ==> RunIf(fuel, st, [s] + rest, acc) == r
    ensures var r := ExecStmt(fuel, st, s);
      !Cuts(r) ==> RunIf(fuel, st, [s] + rest, acc) == RunIf(fuel, r.st, rest, Collect(acc, r.out.value))
  {
    assert ([s] + rest)[0] == s && ([s] + rest)[1..] == rest;
  }

  /** In one pass over a `while` body, statements after one that always cuts
      short are never evaluated. */
  lemma {:induction false} PassStopsAtMark(fuel: nat, st: State, pre: seq<Stmt>, s: Stmt, post: seq<Stmt>, acc: seq<Result>)
    requires Valid(st) && AlwaysCuts(fuel, s)
    ensures RunIteration(fuel, st, pre + [s] + post, acc) == RunIteration(fuel, st, pre + [s], acc)
    decreases |pre|
  {
    var full := pre + [s] + post;
    var cut := pre + [s];
    assert full[0] == cut[0];
    if pre != [] {
      assert full[1..] == pre[1..] + [s] + post;
      assert cut[1..] == pre[1..] + [s];
      var x := ExecStmt(fuel, st, pre[0]);
      if x.out.Ok? {
        PassStopsAtMark(fuel, x.st, pre[1..], s, post, Collect(acc, x.out.value));
      }
    } else {
      assert Cuts(ExecStmt(fuel, st, s));
    }
  }

  /** One unfolding of `RunIteration`, stated for readability: whatever
      statement comes next in a pass over a `while` body, a Break mark it
      yields ends the pass asking to leave the loop, a Continue mark ends
      it asking for the next test, a Return mark leaves with the mark, and
      an error propagates, all in the state that statement reached; any
      other result is collected and the pass goes on. */
  lemma PassHandlesMarks(fuel: nat, st: State, s: Stmt, rest: seq<Stmt>, acc: seq<Result>)
    requires Valid(st)
    ensures var r := ExecStmt(fuel, st, s);
      r.out == Ok(Signal(Break)) ==> RunIteration(fuel, st, [s] + rest, acc) == Step(r.st, Ok(Round(acc, true)))
    ensures var r := ExecStmt(fuel, st, s);
      r.out == Ok(Signal(Continue)) ==> RunIteration(fuel, st, [s] + rest, acc) == Step(r.st, Ok(Round(acc, false)))
    ensures var r := ExecStmt(fuel, st, s);
      r.out.Ok? && r.out.value.Signal? && r.out.value.m.Return? ==>
        RunIteration(fuel, st, [s] + rest, acc) == Step(r.st, Ok(Returned(r.out.value.m)))
    ensures var r := ExecStmt(fuel, st, s);
      r.out.Raise? ==> RunIteration(fuel, st, [s] + rest, acc) == Step(r.st, Raise(r.out.error))
    ensures var r := ExecStmt(fuel, st, s);
      !Cuts(r) ==> RunIteration(fuel, st, [s] + rest, acc) == RunIteration(fuel, r.st, rest, Collect(acc, r.out.value))
  {
    assert ([s] + rest)[0] == s && ([s] + rest)[1..] == rest;
  }

  /** The results an `if` branch collects extend the list it started with:
      results are only ever added at the end. */
  lemma {:induction false} IfCollectsInOrder(fuel: nat, st: State, stmts: seq<Stmt>, acc: seq<Result>)
    requires Valid(st)
    ensures var r := RunIf(fuel, st, stmts, acc);
      r.out.Ok? && r.out.value.Items? ==> acc <= r.out.value.xs
    decreases |stmts|
  {
    if stmts != [] {
      var x := ExecStmt(fuel, st, stmts[0]);
      if x.out.Ok? && !(x.out.value.Signal? && !x.out.value.m.Pass?) {
        IfCollectsInOrder(fuel, x.st, stmts[1..], Collect(acc, x.out.value));
      }
    }
  }

  /** One unfolding of `RunIf`, stated for readability: a `pass` in an `if`
      branch is not skipped, it leaves a Pass mark in the list the `if`
      returns. */
  lemma IfKeepsPassMarks(fuel: nat, st: State, rest: seq<Stmt>, acc: seq<Result>)
    requires Valid(st) && fuel > 0
    ensures RunIf(fuel, st, [PassStmt] + rest, acc) == RunIf(fuel, st, rest, acc + [Signal(Pass)])
  {
    assert ([PassStmt] + rest)[1..] == rest;
  }

  /** `if` evaluates its test once and runs exactly one branch: the body when
      the test value equals True, the else branch otherwise; the branch not
      taken has no influence on the outcome. */
  lemma IfTakesOneBranch(fuel: nat, st: State, test: Expr, body: seq<Stmt>, orelse: seq<Stmt>, other: seq<Stmt>)
    requires Valid(st)
    ensures var t := EvalExpr(fuel, st, test);
      t.out.Ok? && EqualsTrue(t.out.value) ==>
        ExecIf(fuel, st, test, body, orelse) == ExecIf(fuel, st, test, body, other)
    ensures var t := EvalExpr(fuel, st, test);
      t.out.Ok? && !EqualsTrue(t.out.value) ==>
        ExecIf(fuel, st, test, body, orelse) == ExecIf(fuel, st, test, other, orelse)
  {
  }

  /** The test is compared with True, not converted to a truth value: `1`
      selects the body, but `2` selects the else branch. */
  lemma IfComparesWithTrue(fuel: nat, st: State, body: seq<Stmt>, orelse: seq<Stmt>)
    requires Valid(st) && fuel > 0
    ensures ExecIf(fuel, st, IntLit(1), body, orelse) == RunIf(fuel, st, body, [])
    ensures ExecIf(fuel, st, IntLit(2), body, orelse) == RunIf(fuel, st, orelse, [])
  {
  }

  /** One unfolding of `RunWhile`, stated for readability: however a pass
      over the body ends (a Break, Continue or Return mark at any position,
      from a literal statement or out of a nested one), the loop does what
      the mark asks: Break leaves it with what was collected, Return leaves
      it with the mark, anything else tests again. */
  lemma WhileFollowsPass(fuel: nat, st: State, test: Expr, body: seq<Stmt>, acc: seq<Result>)
    requires Valid(st) && fuel > 0
    ensures var t := EvalExpr(fuel, st, test);
      t.out.Ok? && EqualsTrue(t.out.value) ==>
        var it := RunIteration(fuel, t.st, body, acc);
        && (it.out.Ok? && it.out.value.Round? && it.out.value.shouldBreak ==>
              RunWhile(fuel, st, test, body, acc) == Step(it.st, Ok(Items(it.out.value.acc))))
        && (it.out.Ok? && it.out.value.Round? && !it.out.value.shouldBreak ==>
              RunWhile(fuel, st, test, body, acc) == RunWhile(fuel - 1, it.st, test, body, it.out.value.acc))
        && (it.out.Ok? && it.out.value.Returned? ==>
              RunWhile(fuel, st, test, body, acc) == Step(it.st, Ok(Signal(it.out.value.mark))))
    ensures var t := EvalExpr(fuel, st, test);
      t.out.Ok? && !EqualsTrue(t.out.value) ==> RunWhile(fuel, st, test, body, acc) == Step(t.st, Ok(Items(acc)))
  {
  }

  /** A `while` whose body begins with a statement yielding a Break mark (a
      `break`, or an `if` taking a branch that breaks) ends the loop with
      what was collected before the pass. */
  lemma WhileBreakEndsLoop(fuel: nat, st: State, test: Expr, s: Stmt, rest: seq<Stmt>, acc: seq<Result>)
    requires Valid(st) && fuel > 0
    ensures var t := EvalExpr(fuel, st, test);
      t.out.Ok? && EqualsTrue(t.out.value) && ExecStmt(fuel, t.st, s).out == Ok(Signal(Break)) ==>
        RunWhile(fuel, st, test, [s] + rest, acc) == Step(ExecStmt(fuel, t.st, s).st, Ok(Items(acc)))
  {
    var t := EvalExpr(fuel, st, test);
    if t.out.Ok? && EqualsTrue(t.out.value) {
      PassHandlesMarks(fuel, t.st, s, rest, acc);
    }
  }

  /** A `while` whose body begins with a statement yielding a Continue mark
      goes straight back to the test, in the state that statement reached. */
  lemma WhileContinueRetests(fuel: nat, st: State, test: Expr, s: Stmt, rest: seq<Stmt>, acc: seq<Result>)
    requires Valid(st) && fuel > 0
    ensures var t := EvalExpr(fuel, st, test);
      t.out.Ok? && EqualsTrue(t.out.value) && ExecStmt(fuel, t.st, s).out == Ok(Signal(Continue)) ==>
        RunWhile(fuel, st, test, [s] + rest, acc) == RunWhile(fuel - 1, ExecStmt(fuel, t.st, s).st, test, [s] + rest, acc)
  {
    var t := EvalExpr(fuel, st, test);
    if t.out.Ok? && EqualsTrue(t.out.value) {
      PassHandlesMarks(fuel, t.st, s, rest, acc);
    }
  }

  /** A Return mark out of a `while` body leaves the loop at once: the mark
      is the loop's result and nothing collected so far is returned. */
  lemma WhileReturnLeaves(fuel: nat, st: State, test: Expr, s: Stmt, rest: seq<Stmt>, acc: seq<Result>)
    requires Valid(st) && fuel > 0
    ensures var t := EvalExpr(fuel, st, test);
      var r := ExecStmt(fuel, t.st, s);
      t.out.Ok? && EqualsTrue(t.out.value) && r.out.Ok? && r.out.value.Signal? && r.out.value.m.Return? ==>
        RunWhile(fuel, st, test, [s] + rest, acc) == r
  {
    var t := EvalExpr(fuel, st, test);
    if t.out.Ok? && EqualsTrue(t.out.value) {
      PassHandlesMarks(fuel, t.st, s, rest, acc);
    }
  }

  /** A `return` reached anywhere inside a `while` (at any position of the
      body, on any pass) in a function body ends the whole body: whatever
      mark the loop yields is a Return mark, the statements after the loop
      are never evaluated, and the call's value is the return's expression
      evaluated where the loop left off (None without one). */
  lemma ReturnInLoopEndsBody(fuel: nat, st: State, test: Expr, body: seq<Stmt>, rest: seq<Stmt>)
    requires Valid(st)
    ensures var r := ExecStmt(fuel, st, WhileStmt(test, body));
      r.out.Ok? && r.out.value.Signal? ==>
        && r.out.value.m.Return?
        && RunBody(fuel, st, [WhileStmt(test, body)] + rest) == RunBody(fuel, st, [WhileStmt(test, body)])
        && RunBody(fuel, st, [WhileStmt(test, body)] + rest)
           == match r.out.value.m.toEval
                case None => Step(r.st, Ok(NoneValue))
                case Some(e) => EvalExpr(fuel, r.st, e)
  {
    var loop := WhileStmt(test, body);
    BodyHandlesMarks(fuel, st, loop, rest);
    BodyHandlesMarks(fuel, st, loop, []);
    assert [loop] + [] == [loop];
  }

  /** One pass over a body made only of `pass` statements leaves the state
      alone and ends without `break`. */
  lemma {:induction false} PassOnlyRound(fuel: nat, st: State, body: seq<Stmt>, acc: seq<Result>)
    requires Valid(st) && fuel > 0
    requires forall i :: 0 <= i < |body| ==> body[i] == PassStmt
    ensures var r := RunIteration(fuel, st, body, acc);
      r.st == st && r.out.Ok? && r.out.value.Round? && !r.out.value.shouldBreak
    decreases |body|
  {
    if body != [] {
      PassOnlyRound(fuel, st, body[1..], Collect(acc, Signal(Pass)));
    }
  }

  /** `while True:` over a body of `pass` statements never ends: whatever the
      bound on the number of steps, evaluation runs out of it. */
  lemma {:induction false} PassLoopNeverEnds(fuel: nat, st: State, body: seq<Stmt>, acc: seq<Result>)
    requires Valid(st)
    requires forall i :: 0 <= i < |body| ==> body[i] == PassStmt
    ensures RunWhile(fuel, st, BoolLit(true), body, acc).out == Raise(OutOfFuel)
    decreases fuel
  {
    if fuel > 0 {
      PassOnlyRound(fuel, st, body, acc);
      var it := RunIteration(fuel, st, body, acc);
      PassLoopNeverEnds(fuel - 1, st, body, it.out.value.acc);
    }
  }

  /** After `x = e`, reading `x` gives the value of `e`. The assignment
      succeeds exactly when `e` evaluates, and the binding goes into the
      namespace that is current once `e` has been evaluated. */
  lemma AssignThenLoad(fuel: nat, st: State, x: string, value: Expr)
    requires Valid(st) && fuel > 0
    ensures var r := ExecAssign(fuel, st, Name(x, Store), value);
      var v := EvalExpr(fuel, st, value);
      && (r.out.Ok? <==> v.out.Ok?)
      && (v.out.Ok? ==>
            && r.st.current == v.st.current
            && EvalExpr(fuel, r.st, Name(x, Load)) == Step(r.st, Ok(v.out.value)))
  {
  }

  /** The target is evaluated before the value: when the target fails, the
      value is never evaluated and cannot influence the outcome. */
  lemma AssignTargetFirst(fuel: nat, st: State, target: Expr, value: Expr, other: Expr)
    requires Valid(st)
    ensures EvalExpr(fuel, st, target).out.Raise? ==>
      ExecAssign(fuel, st, target, value) == ExecAssign(fuel, st, target, other)
  {
  }

  /** Assignment to `x` changes no other name, seen from any namespace. */
  lemma AssignKeepsOtherNames(fuel: nat, st: State, x: string, value: Expr, y: string, id: nat)
    requires Valid(st) && fuel > 0 && x != y
    ensures var r := ExecAssign(fuel, st, Name(x, Store), value);
      var v := EvalExpr(fuel, st, value);
      && (v.out.Ok? ==> r.st.store == Bind(v.st.store, v.st.current, x, v.out.value))
      && (v.out.Ok? && id < |v.st.store| ==> Lookup(r.st.store, id, y) == Lookup(v.st.store, id, y))
  {
    var v := EvalExpr(fuel, st, value);
    if v.out.Ok? && id < |v.st.store| {
      LookupOtherName(v.st.store, id, v.st.current, x, v.out.value, y);
    }
  }

  /** `x op= n` evaluates `x` and `n`, applies the table's operator and
      stores the result back into `x` in the current namespace; an operator
      error leaves the state untouched. */
  lemma AugAssignApplies(fuel: nat, st: State, x: string, n: int, op: string)
    requires Valid(st) && fuel >= 3 && op in OpTable
    requires Lookup(st.store, st.current, x).Some?
    ensures var a := Lookup(st.store, st.current, x).value;
      var res := Apply(OpTable[op], a, IntValue(n));
      ExecStmt(fuel, st, AugAssignStmt(x, IntLit(n), op).value) ==
        if res.Raise? then Step(st, Raise(res.error))
        else Step(st.(store := Bind(st.store, st.current, x, res.value)), Ok(Plain(NoneValue)))
  {
    var a := Lookup(st.store, st.current, x).value;
    var rhs := BinOp(OpTable[op], Name(x, Load), IntLit(n));
    assert AugAssignStmt(x, IntLit(n), op).value == AssignStmt(Name(x, Store), rhs);
    assert EvalExpr(fuel - 2, st, Name(x, Load)) == Step(st, Ok(a));
    assert EvalExpr(fuel - 2, st, IntLit(n)) == Step(st, Ok(IntValue(n)));
    assert EvalExpr(fuel - 1, st, rhs) == Step(st, Apply(OpTable[op], a, IntValue(n)));
    assert EvalExpr(fuel - 1, st, Name(x, Store)) == Step(st, Ok(StrValue(x)));
  }

  /** `x += n` on an integer `x` leaves `x` bound to the sum. */
  lemma AugAddIncrements(fuel: nat, st: State, x: string, a: int, n: int)
    requires Valid(st) && fuel >= 3
    requires Lookup(st.store, st.current, x) == Some(IntValue(a))
    ensures var r := ExecStmt(fuel, st, AugAssignStmt(x, IntLit(n), "+=").value);
      r.out == Ok(Plain(NoneValue)) && Lookup(r.st.store, r.st.current, x) == Some(IntValue(a + n))
  {
    AugAssignApplies(fuel, st, x, n, "+=");
  }

  /** After a `def`, the function name resolves to the new function value in
      the namespace that was current; every other name resolves as before;
      and, seen from the function's fresh namespace, every name resolves as in
      the namespace where the `def` ran. */
  lemma DefineThenLookup(st: State, name: string, params: seq<string>, body: seq<Stmt>, y: string)
    requires Valid(st)
    ensures var r := DefineFunction(st, name, params, body);
      && Lookup(r.store, r.current, name) == Some(Function(name, params, body, |st.store|, st.current))
      && (y != name ==> Lookup(r.store, r.current, y) == Lookup(st.store, st.current, y))
      && Lookup(r.store, |st.store|, y) == Lookup(r.store, st.current, y)
  {
    var ns := Namespace(map[], Some(st.current));
    var grown := st.store + [ns];
    assert StoreOk(grown) by {
      forall i, x | 0 <= i < |grown| && x in grown[i].bindings
        ensures ValueIn(grown[i].bindings[x], |grown|)
      {
        assert i < |st.store| && grown[i] == st.store[i];
      }
    }
    var f := Function(name, params, body, |st.store|, st.current);
    if y != name {
      LookupAfterAppend(st.store, ns, st.current, y);
      LookupOtherName(grown, st.current, st.current, name, f, y);
    }
    var r := DefineFunction(st, name, params, body);
    LookupFallsBack(r.store, |st.store|, st.current, y);
  }
}
