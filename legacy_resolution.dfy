/** The older revision of the container (src/index.ts): descriptors that
    carry the key they are stored under, a `resolve` that takes the
    descriptor as an argument, and `build`, which resolves the queue of
    registered descriptors. As in module Resolution, each operation is a
    function of the container's own tables and the unchanging tables of its
    ancestors. */
module LegacyResolution {
  import opened Values
  import opened Scope
  import Dependency

  /** `{ type, value, valueType }`: `valueType` is the key under which the
      product is looked up and stored when the descriptor is listed as an
      inner dependency. */
  datatype Descriptor = Descriptor(kind: Dependency.DependencyType, value: Value, valueType: Value)

  /** `asClass`: the class is its own key. */
  function AsClass(value: Value): (d: Descriptor)
    ensures d.kind == Dependency.CLASS && d.value == value && d.valueType == value
  {
    Descriptor(Dependency.CLASS, value, value)
  }

  /** `asFactory`: the key is given separately, since a factory's product is
      not the factory. */
  function AsFactory(value: Value, valueType: Value): (d: Descriptor)
    ensures d.kind == Dependency.FACTORY && d.value == value && d.valueType == valueType
  {
    Descriptor(Dependency.FACTORY, value, valueType)
  }

  /** `asValue`: the value is its own key. */
  function AsValue(value: Value): (d: Descriptor)
    ensures d.kind == Dependency.VALUE && d.value == value && d.valueType == value
  {
    Descriptor(Dependency.VALUE, value, value)
  }

  /** The tag and the value of a descriptor: what the builders of
      src/dependency.ts record. */
  function Untyped(d: Descriptor): (u: Dependency.Dependency)
    ensures u.kind == d.kind && u.value == d.value
  {
    Dependency.Dependency(d.kind, d.value)
  }

  /** Both revisions' builders record the same tag and value; only the
      older one adds a key, and only its factory builder can make that key
      differ from the value. */
  lemma BuildersAgree(value: Value, valueType: Value)
    ensures Untyped(AsClass(value)) == Dependency.AsClass(value)
    ensures Untyped(AsFactory(value, valueType)) == Dependency.AsFactory(value)
    ensures Untyped(AsValue(value)) == Dependency.AsValue(value)
    ensures AsFactory(value, valueType).valueType == value <==> valueType == value
  {
  }

  /** What running user code would give, and the DEPENDENCIES arrays of the
      values that have one. `new value()` and `value()` are foreign code, so
      the instance and the factory's result are given as functions of the
      value; the instance is an object, as `new` always gives one. */
  datatype World = World(
    inner: map<Value, seq<Descriptor>>,
    construct: Value -> Instance,
    call: Value -> Value)

  /** The DEPENDENCIES property of a value: its array when it has one,
      `undefined` otherwise. An array is an object, hence truthy; only that
      truthiness is ever read, so one stand-in object, with an id no other
      object of this model uses, represents every array. */
  function Slot(w: World): (slot: Value -> Value)
    ensures forall v :: Truthy(slot(v)) <==> v in w.inner
  {
    v => if v in w.inner then Obj(11, "[]") else Undefined
  }

  /** `hasDependencies` of src/index.ts, the same test as in
      src/dependency.ts, over the world's DEPENDENCIES arrays. */
  function HasDependencies(w: World, v: Value): (r: bool)
    ensures r <==> v != Undefined && v != Null && v in w.inner
  {
    Dependency.HasDependencies(v, Slot(w))
  }

  /** The inner dependencies `resolve` iterates over. */
  function Inner(w: World, v: Value): (ds: seq<Descriptor>)
    ensures forall e | e in ds :: e.valueType in Mentioned(w)
  {
    if HasDependencies(w, v) then (assert w.inner[v] in w.inner.Values; w.inner[v]) else []
  }

  datatype Error =
    | CircularDependency(name: Value)
    | UnknownType(kind: Dependency.DependencyType)
    | NonRegisteredPlainValue

  /** The outcome of an operation together with the container's tables after it. */
  datatype Run<+T> = Run(result: Result<T, Error>, after: Tables)

  /** Every key an inner dependency can be resolved under. */
  ghost function Mentioned(w: World): set<Value> {
    set ds, e | ds in w.inner.Values && e in ds :: e.valueType
  }

  /** The termination measure: keys that could still be marked in flight. */
  ghost function Measure(w: World, name: Value, t: Tables): set<Value> {
    (Mentioned(w) + {name}) - Flagged(t)
  }

  lemma MarkShrinks(w: World, name: Value, t: Tables)
    requires !IsResolving(t, name)
    ensures Mentioned(w) - Flagged(Mark(t, name)) < Measure(w, name, t)
  {
    assert name in Measure(w, name, t);
  }

  /** `registry.set(name, value)` followed by clearing the in-flight flag:
      an unconditional overwrite. */
  function Store(t: Tables, name: Value, value: Value): (s: Tables)
    ensures Lookup(s.registry, name) == value && name in s.resolving && !s.resolving[name]
    ensures forall x :: x != name ==> Lookup(s.registry, x) == Lookup(t.registry, x)
    ensures s.registry.Keys == t.registry.Keys + {name}
    ensures s.forced == t.forced
    ensures Flagged(s) == Flagged(t) - {name}
  {
    var s := Tables(t.registry[name := value], t.resolving[name := false], t.forced);
    assert Flagged(s) == Flagged(t) - {name} by {
      forall x ensures x in Flagged(s) <==> x in Flagged(t) - {name} {
        if x != name { assert x in s.resolving <==> x in t.resolving; }
      }
    }
    s
  }

  /** `resolve(name, d)` run on a container whose own tables are `t`:
        1. a truthy `get(name)` is returned as it is;
        2. a name already in flight is a circular dependency;
        3. otherwise the name is marked in flight; a value that is not a
           function is an error; the inner dependencies of a function are
           resolved in order, each under its own `valueType`; then a factory
           is called or a class instantiated, the product is stored under
           `name` and the flag is cleared; any other tag is an error.
      Nothing is rolled back on failure. */
  function Resolve(t: Tables, outer: seq<Tables>, w: World, name: Value, d: Descriptor): (run: Run<Value>)
    ensures run.after.forced == t.forced
    ensures Flagged(t) <= Flagged(run.after)
    ensures run.result.Ok? ==> Flagged(run.after) == Flagged(t)
    decreases Measure(w, name, t), 0
  {
    var existing := Get([t] + outer, name);
    if Truthy(existing) then Run(Ok(existing), t)
    else if IsResolving(t, name) then Run(Err(CircularDependency(name)), t)
    else
      var marked := Mark(t, name);
      MarkShrinks(w, name, t);
      if !d.value.Fn? then Run(Err(NonRegisteredPlainValue), marked)
      else
        var deps := ResolveInner(marked, outer, w, Inner(w, d.value));
        if deps.result.Err? then Run(Err(deps.result.error), deps.after)
        else Finish(deps.after, w, name, d)
  }

  /** What follows the inner dependencies: call the factory or instantiate
      the class and store the product; any other tag is an error. */
  function Finish(t: Tables, w: World, name: Value, d: Descriptor): (run: Run<Value>)
    ensures run.result.Ok? <==> d.kind != Dependency.VALUE
    ensures run.result.Ok? ==>
      && run.result.value == (if d.kind == Dependency.FACTORY then w.call(d.value) else w.construct(d.value))
      && Lookup(run.after.registry, name) == run.result.value
    ensures run.after.forced == t.forced
    ensures run.result.Err? ==> run.after == t && run.result.error == UnknownType(d.kind)
    ensures run.result.Ok? ==> Flagged(run.after) == Flagged(t) - {name}
  {
    if d.kind == Dependency.FACTORY then
      var value := w.call(d.value);
      Run(Ok(value), Store(t, name, value))
    else if d.kind == Dependency.CLASS then
      var value := w.construct(d.value);
      Run(Ok(value), Store(t, name, value))
    else
      assert d.kind == Dependency.VALUE;
      Run(Err(UnknownType(d.kind)), t)
  }

  /** The loop over the inner dependencies: each is resolved under its
      `valueType`, and the first failure ends the loop. */
  function ResolveInner(t: Tables, outer: seq<Tables>, w: World, ds: seq<Descriptor>): (run: Run<()>)
    requires forall e | e in ds :: e.valueType in Mentioned(w)
    ensures run.after.forced == t.forced
    ensures Flagged(t) <= Flagged(run.after)
    ensures run.result.Ok? ==> Flagged(run.after) == Flagged(t)
    decreases Mentioned(w) - Flagged(t), |ds| + 1
  {
    if ds == [] then Run(Ok(()), t)
    else
      var first := Resolve(t, outer, w, ds[0].valueType, ds[0]);
      if first.result.Err? then Run(Err(first.result.error), first.after)
      else
        var rest := ResolveInner(first.after, outer, w, ds[1..]);
        Run(rest.result, rest.after)
  }

  /** `build`: the queued registrations are resolved one at a time, in
      queue order, and the first failure ends the build. */
  function Build(t: Tables, outer: seq<Tables>, w: World, queue: seq<(Value, Descriptor)>): (run: Run<()>)
    ensures run.after.forced == t.forced
    decreases |queue|
  {
    if queue == [] then Run(Ok(()), t)
    else
      var first := Resolve(t, outer, w, queue[0].0, queue[0].1);
      if first.result.Err? then Run(Err(first.result.error), first.after)
      else Build(first.after, outer, w, queue[1..])
  }

  /** A name whose `get` is truthy resolves to that value and changes nothing. */
  lemma MemoHit(t: Tables, outer: seq<Tables>, w: World, name: Value, d: Descriptor)
    requires Truthy(Get([t] + outer, name))
    ensures Resolve(t, outer, w, name, d) == Run(Ok(Get([t] + outer, name)), t)
  {
  }

  /** A name met again while it is in flight is a circular dependency
      naming it; nothing changes. */
  lemma CycleReported(t: Tables, outer: seq<Tables>, w: World, name: Value, d: Descriptor)
    requires !Truthy(Get([t] + outer, name)) && IsResolving(t, name)
    ensures Resolve(t, outer, w, name, d) == Run(Err(CircularDependency(name)), t)
  {
  }

  /** A descriptor whose value is not a function, met for a name that is not
      found, is refused after the name has been marked: the flag stays
      `true`, so resolving the name again reports a cycle. */
  lemma PlainValueRejected(t: Tables, outer: seq<Tables>, w: World, name: Value, d: Descriptor, again: Descriptor)
    requires !Truthy(Get([t] + outer, name)) && !IsResolving(t, name)
    requires !d.value.Fn?
    ensures var run := Resolve(t, outer, w, name, d);
      && run == Run(Err(NonRegisteredPlainValue), Mark(t, name))
      && Resolve(run.after, outer, w, name, again) == Run(Err(CircularDependency(name)), run.after)
  {
    var marked := Mark(t, name);
    GetIgnoresFlags(t, marked, outer, name);
  }

  /** The outcome of a fresh resolution of a function: on success the
      product is what the factory returns or the class instantiates, it is
      stored under the name whether or not the name was already in the
      registry, and the flag is `false`. A tag other than FACTORY or CLASS
      fails once the inner dependencies are resolved. On any failure the flag
      stays `true`. */
  lemma FreshOutcome(t: Tables, outer: seq<Tables>, w: World, name: Value, d: Descriptor)
    requires !Truthy(Get([t] + outer, name)) && !IsResolving(t, name)
    requires d.value.Fn?
    ensures var run := Resolve(t, outer, w, name, d);
      && (run.result.Ok? ==>
            && d.kind != Dependency.VALUE
            && run.result.value == (if d.kind == Dependency.FACTORY then w.call(d.value) else w.construct(d.value))
            && Lookup(run.after.registry, name) == run.result.value
            && name in run.after.resolving && !run.after.resolving[name])
      && (run.result.Err? ==> IsResolving(run.after, name))
      && (d.kind == Dependency.VALUE && ResolveInner(Mark(t, name), outer, w, Inner(w, d.value)).result.Ok? ==>
            run.result == Err(UnknownType(Dependency.VALUE)))
  {
    var marked := Mark(t, name);
    var deps := ResolveInner(marked, outer, w, Inner(w, d.value));
    assert name in Flagged(marked);
    assert name in Flagged(deps.after);
  }

  /** Resolving a name whose product is truthy twice in the same container
      yields the identical value, and the second call changes nothing. */
  lemma Idempotent(t: Tables, outer: seq<Tables>, w: World, name: Value, d: Descriptor, again: Descriptor)
    requires Resolve(t, outer, w, name, d).result.Ok?
    requires Truthy(Resolve(t, outer, w, name, d).result.value)
    ensures var run := Resolve(t, outer, w, name, d);
      Resolve(run.after, outer, w, name, again) == run
  {
    var run := Resolve(t, outer, w, name, d);
    if !Truthy(Get([t] + outer, name)) {
      FreshOutcome(t, outer, w, name, d);
      assert ([run.after] + outer)[1..] == outer == ([t] + outer)[1..];
      assert Get([run.after] + outer, name) == run.result.value;
    }
  }

  /** A CLASS descriptor is instantiated at most once per container: the
      instance is an object, so once resolved the name is found by lookup. */
  lemma ClassResolvedOnce(t: Tables, outer: seq<Tables>, w: World, name: Value, d: Descriptor, again: Descriptor)
    requires d.kind == Dependency.CLASS
    requires Resolve(t, outer, w, name, d).result.Ok?
    ensures var run := Resolve(t, outer, w, name, d);
      Resolve(run.after, outer, w, name, again) == run
  {
    if !Truthy(Get([t] + outer, name)) {
      FreshOutcome(t, outer, w, name, d);
    }
    Idempotent(t, outer, w, name, d, again);
  }

  /** A falsy product is not a memo hit either, but since storing is an
      overwrite the second resolution of a function without inner
      dependencies succeeds again, with the same product. */
  lemma FalsyProductReResolved(t: Tables, outer: seq<Tables>, w: World, name: Value, d: Descriptor)
    requires !Truthy(Get([t] + outer, name)) && !IsResolving(t, name)
    requires d.value.Fn? && d.value !in w.inner && d.kind == Dependency.FACTORY
    requires !Truthy(w.call(d.value))
    ensures var run := Resolve(t, outer, w, name, d);
      && run.result == Ok(w.call(d.value))
      && Resolve(run.after, outer, w, name, d).result == run.result
  {
    var run := Resolve(t, outer, w, name, d);
    assert Inner(w, d.value) == [];
    assert ResolveInner(Mark(t, name), outer, w, []) == Run(Ok(()), Mark(t, name));
    assert run.after == Store(Mark(t, name), name, w.call(d.value));
    assert ([run.after] + outer)[1..] == outer == ([t] + outer)[1..];
    assert !Truthy(Get([run.after] + outer, name));
    assert !IsResolving(run.after, name);
  }

  /** Inner dependencies are resolved strictly in list order. */
  lemma {:induction false} InnerInOrder(t: Tables, outer: seq<Tables>, w: World, a: seq<Descriptor>, b: seq<Descriptor>)
    requires forall e | e in a + b :: e.valueType in Mentioned(w)
    ensures ResolveInner(t, outer, w, a + b) ==
      var first := ResolveInner(t, outer, w, a);
      if first.result.Err? then first else ResolveInner(first.after, outer, w, b)
    decreases |a|
  {
    if a == [] {
      assert a + b == b;
    } else {
      assert (a + b)[0] == a[0];
      assert (a + b)[1..] == a[1..] + b;
      var head := Resolve(t, outer, w, a[0].valueType, a[0]);
      if head.result.Ok? {
        InnerInOrder(head.after, outer, w, a[1..], b);
      }
    }
  }

  /** Building a queue is building its first part, then, unless that
      failed, the rest from the tables the first part left: a registration
      is resolved only after every earlier one succeeded. */
  lemma {:induction false} BuildInOrder(t: Tables, outer: seq<Tables>, w: World, a: seq<(Value, Descriptor)>, b: seq<(Value, Descriptor)>)
    ensures Build(t, outer, w, a + b) ==
      var first := Build(t, outer, w, a);
      if first.result.Err? then first else Build(first.after, outer, w, b)
    decreases |a|
  {
    if a == [] {
      assert a + b == b;
    } else {
      assert (a + b)[0] == a[0];
      assert (a + b)[1..] == a[1..] + b;
      var head := Resolve(t, outer, w, a[0].0, a[0].1);
      if head.result.Ok? {
        BuildInOrder(head.after, outer, w, a[1..], b);
      }
    }
  }
}
