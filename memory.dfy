/** Namespaces: a map from names to values plus an optional outer namespace.
    All namespaces live in one store; a namespace is identified by its index,
    which plays the part of an object reference. A namespace is always created
    with the then-current namespace as its outer one, so an outer link points
    to a smaller index. */
module Memory {
  import opened Ast

  datatype Namespace = Namespace(bindings: map<string, Value>, outer: Option<nat>)

  /** The namespace store and the process-wide current-namespace pointer. */
  datatype State = State(store: seq<Namespace>, current: nat)

  /** A value refers only to namespaces that exist. */
  ghost predicate ValueIn(v: Value, n: nat) {
    v.Function? ==> v.scope < n && v.defScope < n
  }

  ghost predicate AllIn(vs: seq<Value>, n: nat) {
    forall i :: 0 <= i < |vs| ==> ValueIn(vs[i], n)
  }

  /** Outer links point to smaller indices, and bound values refer only to
      namespaces that exist. */
  ghost predicate StoreOk(store: seq<Namespace>) {
    && (forall i :: 0 <= i < |store| && store[i].outer.Some? ==> store[i].outer.value < i)
    && (forall i, x :: 0 <= i < |store| && x in store[i].bindings ==> ValueIn(store[i].bindings[x], |store|))
  }

  ghost predicate Valid(st: State) {
    st.current < |st.store| && StoreOk(st.store)
  }

  /** The store only grows: no namespace is ever removed. */
  ghost predicate Grows(st: State, st': State) {
    |st.store| <= |st'.store|
  }

  /** The process starts with one global namespace, current, with no outer. */
  function Initial(): (st: State)
    ensures Valid(st) && st.store[st.current].outer == None
  {
    State([Namespace(map[], None)], 0)
  }

  /** Name lookup: own bindings first, then the outer chain. */
  function Lookup(store: seq<Namespace>, id: nat, name: string): (r: Option<Value>)
    requires StoreOk(store) && id < |store|
    ensures name in store[id].bindings ==> r == Some(store[id].bindings[name])
    ensures r.Some? ==> ValueIn(r.value, |store|)
    decreases id
  {
    if name in store[id].bindings then Some(store[id].bindings[name])
    else match store[id].outer
      case None => None
      case Some(o) => Lookup(store, o, name)
  }

  /** `set`: writes into the bindings of namespace `id` only. */
  function Bind(store: seq<Namespace>, id: nat, name: string, v: Value): (r: seq<Namespace>)
    requires id < |store|
    ensures |r| == |store|
    ensures forall i :: 0 <= i < |store| && i != id ==> r[i] == store[i]
    ensures r[id].outer == store[id].outer
    ensures r[id].bindings.Keys == store[id].bindings.Keys + {name}
    ensures name in r[id].bindings && r[id].bindings[name] == v
    ensures forall x :: x in store[id].bindings && x != name ==> r[id].bindings[x] == store[id].bindings[x]
    ensures StoreOk(store) && ValueIn(v, |store|) ==> StoreOk(r)
  {
    store[id := store[id].(bindings := store[id].bindings[name := v])]
  }

  /** Binds each parameter to its argument, left to right, into namespace `id`
      (the `zip` loop of a call); when a parameter name repeats, the last
      occurrence wins. */
  function BindAll(store: seq<Namespace>, id: nat, params: seq<string>, args: seq<Value>): (r: seq<Namespace>)
    requires id < |store| && |params| == |args|
    ensures |r| == |store|
    ensures forall i :: 0 <= i < |store| && i != id ==> r[i] == store[i]
    ensures r[id].outer == store[id].outer
    ensures StoreOk(store) && AllIn(args, |store|) ==> StoreOk(r)
    decreases |params|
  {
    if params == [] then store
    else
      var n := |params| - 1;
      var prefix := BindAll(store, id, params[..n], args[..n]);
      assert AllIn(args, |store|) ==> AllIn(args[..n], |store|) && ValueIn(args[n], |store|);
      Bind(prefix, id, params[n], args[n])
  }

  /** After binding, the namespace holds its old names and every parameter. */
  lemma {:induction false} BindAllKeys(store: seq<Namespace>, id: nat, params: seq<string>, args: seq<Value>)
    requires id < |store| && |params| == |args|
    ensures BindAll(store, id, params, args)[id].bindings.Keys == store[id].bindings.Keys + set p | p in params
    decreases |params|
  {
    if params != [] {
      var n := |params| - 1;
      BindAllKeys(store, id, params[..n], args[..n]);
      assert params == params[..n] + [params[n]];
    }
  }

  /** Each parameter ends up bound to the argument at its last occurrence. */
  lemma {:induction false} BindAllLastWins(store: seq<Namespace>, id: nat, params: seq<string>, args: seq<Value>, j: nat)
    requires id < |store| && |params| == |args| && j < |params|
    requires forall k :: j < k < |params| ==> params[k] != params[j]
    ensures params[j] in BindAll(store, id, params, args)[id].bindings
    ensures BindAll(store, id, params, args)[id].bindings[params[j]] == args[j]
    decreases |params|
  {
    var n := |params| - 1;
    var prefix := BindAll(store, id, params[..n], args[..n]);
    assert BindAll(store, id, params, args) == Bind(prefix, id, params[n], args[n]);
    if j < n {
      assert params[..n][j] == params[j] && args[..n][j] == args[j];
      assert params[n] != params[j];
      BindAllLastWins(store, id, params[..n], args[..n], j);
    }
  }

  /** A name that is not a parameter keeps its binding. */
  lemma {:induction false} BindAllKeepsOthers(store: seq<Namespace>, id: nat, params: seq<string>, args: seq<Value>, x: string)
    requires id < |store| && |params| == |args|
    requires x in store[id].bindings && x !in params
    ensures x in BindAll(store, id, params, args)[id].bindings
    ensures BindAll(store, id, params, args)[id].bindings[x] == store[id].bindings[x]
    decreases |params|
  {
    if params != [] {
      var n := |params| - 1;
      BindAllKeepsOthers(store, id, params[..n], args[..n], x);
    }
  }

  /** Binding a name into namespace `j` cannot change what a lookup from a
      namespace with a smaller index finds: its outer chain only descends. */
  lemma {:induction false} LookupBelowUnaffected(store: seq<Namespace>, id: nat, j: nat, x: string, v: Value, name: string)
    requires StoreOk(store) && id < j < |store| && ValueIn(v, |store|)
    ensures StoreOk(Bind(store, j, x, v))
    ensures Lookup(Bind(store, j, x, v), id, name) == Lookup(store, id, name)
    decreases id
  {
    var store' := Bind(store, j, x, v);
    if name !in store[id].bindings {
      match store[id].outer
      case None =>
      case Some(o) => LookupBelowUnaffected(store, o, j, x, v, name);
    }
  }

  /** Binding one name never changes the lookup of another. */
  lemma {:induction false} LookupOtherName(store: seq<Namespace>, id: nat, j: nat, x: string, v: Value, name: string)
    requires StoreOk(store) && id < |store| && j < |store| && ValueIn(v, |store|) && name != x
    ensures StoreOk(Bind(store, j, x, v))
    ensures Lookup(Bind(store, j, x, v), id, name) == Lookup(store, id, name)
    decreases id
  {
    if name !in store[id].bindings {
      match store[id].outer
      case None =>
      case Some(o) => LookupOtherName(store, o, j, x, v, name);
    }
  }

  /** Adding a namespace at the end of the store changes no existing lookup. */
  lemma {:induction false} LookupAfterAppend(store: seq<Namespace>, ns: Namespace, id: nat, name: string)
    requires StoreOk(store) && StoreOk(store + [ns]) && id < |store|
    ensures Lookup(store + [ns], id, name) == Lookup(store, id, name)
    decreases id
  {
    assert (store + [ns])[id] == store[id];
    if name !in store[id].bindings {
      match store[id].outer
      case None =>
      case Some(o) => LookupAfterAppend(store, ns, o, name);
    }
  }

  /** One unfolding of `Lookup`, stated for readability: a name missing from
      a namespace is resolved in its outer namespace. This is how a function
      body sees the bindings of the namespace its `def` ran in. */
  lemma LookupFallsBack(store: seq<Namespace>, id: nat, o: nat, name: string)
    requires StoreOk(store) && id < |store| && store[id].outer == Some(o)
    requires name !in store[id].bindings
    ensures Lookup(store, id, name) == Lookup(store, o, name)
  {
  }
}
