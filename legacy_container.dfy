/** The container of the older revision (src/index.ts): the same three
    tables as the current one plus a queue of registrations waiting for
    `build`. Each method is proved to leave the tables the pure semantics
    in module LegacyResolution computes. */
module LegacyContainer {
  import opened Values
  import opened Scope
  import opened LegacyResolution
  import Dependency

  class Container {
    const parent: Container?
    var registry: map<Value, Value>
    var registerQueue: seq<(Value, Descriptor)>
    var resolving: map<Value, bool>
    var forced: map<Value, Value>

    /** The parent, the grandparent and so on. */
    ghost const Ancestors: set<Container>
    ghost const depth: nat

    /** The parent links form a finite chain that never leads back to this
        container. */
    ghost predicate Linked()
      decreases depth
    {
      && (parent == null ==> Ancestors == {})
      && (parent != null ==>
            && parent.depth < depth
            && Ancestors == {parent} + parent.Ancestors
            && this !in Ancestors
            && parent.Linked())
    }

    /** `new Container()` created inside the scope of `parent` (or of none). */
    constructor (parent: Container?)
      requires parent != null ==> parent.Linked()
      ensures Linked() && this.parent == parent
      ensures registry == map[] && registerQueue == [] && resolving == map[] && forced == map[]
    {
      this.parent := parent;
      registry, registerQueue, resolving, forced := map[], [], map[], map[];
      Ancestors := if parent == null then {} else {parent} + parent.Ancestors;
      depth := if parent == null then 0 else parent.depth + 1;
    }

    function Tables(): Tables
      reads this
    {
      Scope.Tables(registry, resolving, forced)
    }

    /** The tables of this container and of each ancestor, nearest first. */
    ghost function Chain(): (c: seq<Scope.Tables>)
      reads this, Ancestors
      requires Linked()
      ensures c != [] && c[0] == Tables()
      decreases depth
    {
      [Tables()] + (if parent == null then [] else parent.Chain())
    }

    /** The tables of the ancestors, nearest first. */
    ghost function Outer(): (o: seq<Scope.Tables>)
      reads Ancestors
      requires Linked()
      ensures o == [] <==> parent == null
    {
      if parent == null then [] else parent.Chain()
    }

    /** `get`: the same four-step lookup as in the current revision. */
    function Get(name: Value): (r: Value)
      reads this, Ancestors
      requires Linked()
      ensures r == Scope.Get(Chain(), name)
      decreases depth
    {
      Or(Lookup(forced, name),
         Or(if parent != null then Lookup(parent.forced, name) else Undefined,
            Or(Lookup(registry, name),
               if parent != null then parent.Get(name) else Undefined)))
    }

    /** `register`: a VALUE descriptor is stored at once, overwriting any
        earlier entry; any other is queued for `build`, in arrival order. */
    method Register(name: Value, d: Descriptor)
      requires Linked()
      modifies this
      ensures d.kind == Dependency.VALUE ==>
        registry == old(registry)[name := d.value] && registerQueue == old(registerQueue)
      ensures d.kind != Dependency.VALUE ==>
        registry == old(registry) && registerQueue == old(registerQueue) + [(name, d)]
      ensures resolving == old(resolving) && forced == old(forced)
      ensures d.kind == Dependency.VALUE && Truthy(d.value) && NoneTruthy(Candidates(Chain(), name)[..2]) ==>
        Get(name) == d.value
    {
      if d.kind == Dependency.VALUE {
        registry := registry[name := d.value];
        ghost var c := Candidates(Chain(), name);
        assert c[2] == d.value;
        if Truthy(d.value) && NoneTruthy(c[..2]) {
          FirstTruthyIsEarliest(c, 2);
        }
        return;
      }
      registerQueue := registerQueue + [(name, d)];
    }

    /** `mock`: always overwrites the forced value. */
    method Mock(name: Value, value: Value)
      requires Linked()
      modifies this
      ensures Tables() == Scope.Mock(old(Tables()), name, value)
      ensures registerQueue == old(registerQueue)
      ensures Truthy(value) ==> Get(name) == value
    {
      forced := forced[name := value];
    }

    /** `build`: resolves the queued registrations in queue order; the first
        failure ends it. The queue itself is left as it is. */
    method Build(w: World) returns (r: Result<(), Error>)
      requires Linked()
      modifies this
      ensures Run(r, Tables()) == LegacyResolution.Build(old(Tables()), Outer(), w, old(registerQueue))
      ensures registerQueue == old(registerQueue)
    {
      ghost var start, outer := Tables(), Outer();
      var queue := registerQueue;
      for i := 0 to |queue|
        invariant Outer() == outer && registerQueue == queue
        invariant LegacyResolution.Build(start, outer, w, queue)
               == LegacyResolution.Build(Tables(), outer, w, queue[i..])
      {
        assert queue[i..][0] == queue[i] && queue[i..][1..] == queue[i + 1..];
        var entry := Resolve(queue[i].0, queue[i].1, w);
        if entry.Err? {
          return Err(entry.error);
        }
      }
      return Ok(());
    }

    /** `resolve(name, d)`: a truthy lookup is returned as it is, a name in
        flight is a cycle, anything else is resolved afresh. */
    method Resolve(name: Value, d: Descriptor, w: World) returns (r: Result<Value, Error>)
      requires Linked()
      modifies this
      ensures Run(r, Tables()) == LegacyResolution.Resolve(old(Tables()), Outer(), w, name, d)
      ensures Outer() == old(Outer()) && registerQueue == old(registerQueue)
      decreases Measure(w, name, Tables()), 1
    {
      assert Chain() == [Tables()] + Outer();
      var existing := Get(name);
      if Truthy(existing) {
        return Ok(existing);
      }
      if name in resolving && resolving[name] {
        return Err(CircularDependency(name));
      }
      r := ResolveFresh(name, d, w);
    }

    /** The rest of `resolve` for a name that is neither found nor in
        flight: flag it, refuse a value that is not a function, resolve the
        inner dependencies, then call or instantiate and store. */
    method ResolveFresh(name: Value, d: Descriptor, w: World) returns (r: Result<Value, Error>)
      requires Linked()
      requires !Truthy(Scope.Get([Tables()] + Outer(), name)) && !IsResolving(Tables(), name)
      modifies this
      ensures Run(r, Tables()) == LegacyResolution.Resolve(old(Tables()), Outer(), w, name, d)
      ensures Outer() == old(Outer()) && registerQueue == old(registerQueue)
      decreases Measure(w, name, Tables()), 0
    {
      ghost var start, outer := Tables(), Outer();
      resolving := resolving[name := true];
      assert Outer() == outer;
      assert Tables() == Mark(start, name);
      MarkShrinks(w, name, start);
      if !d.value.Fn? {
        return Err(NonRegisteredPlainValue);
      }
      ghost var marked := Tables();
      var inner := if HasDependencies(w, d.value) then w.inner[d.value] else [];
      assert inner == Inner(w, d.value);
      var deps := ResolveInner(inner, w);
      ghost var walked := LegacyResolution.ResolveInner(marked, outer, w, inner);
      assert Run(deps, Tables()) == walked;
      if deps.Err? {
        return Err(deps.error);
      }
      r := Finish(name, d, w);
    }

    /** The loop over `dependency.value[DEPENDENCIES]`: each inner
        dependency is resolved under its `valueType`, in list order. */
    method ResolveInner(ds: seq<Descriptor>, w: World) returns (r: Result<(), Error>)
      requires Linked()
      requires forall e | e in ds :: e.valueType in Mentioned(w)
      modifies this
      ensures Run(r, Tables()) == LegacyResolution.ResolveInner(old(Tables()), Outer(), w, ds)
      ensures Outer() == old(Outer()) && registerQueue == old(registerQueue)
      decreases Mentioned(w) - Flagged(Tables()), |ds| + 1
    {
      ghost var start, outer := Tables(), Outer();
      ghost var queue := registerQueue;
      for i := 0 to |ds|
        invariant Outer() == outer && registerQueue == queue
        invariant Flagged(Tables()) == Flagged(start)
        invariant LegacyResolution.ResolveInner(start, outer, w, ds)
               == LegacyResolution.ResolveInner(Tables(), outer, w, ds[i..])
      {
        assert ds[i..][0] == ds[i] && ds[i..][1..] == ds[i + 1..];
        assert Measure(w, ds[i].valueType, Tables()) == Mentioned(w) - Flagged(start);
        ghost var first := LegacyResolution.Resolve(Tables(), outer, w, ds[i].valueType, ds[i]);
        assert LegacyResolution.ResolveInner(Tables(), outer, w, ds[i..])
            == if first.result.Err? then Run(Err(first.result.error), first.after)
               else LegacyResolution.ResolveInner(first.after, outer, w, ds[i + 1..]);
        var sub := Resolve(ds[i].valueType, ds[i], w);
        if sub.Err? {
          return Err(sub.error);
        }
      }
      return Ok(());
    }

    /** Calls the factory or instantiates the class, stores the product
        under `name` and clears the flag; any other tag is an error. */
    method Finish(name: Value, d: Descriptor, w: World) returns (r: Result<Value, Error>)
      requires Linked()
      modifies this
      ensures Run(r, Tables()) == LegacyResolution.Finish(old(Tables()), w, name, d)
      ensures Outer() == old(Outer()) && registerQueue == old(registerQueue)
    {
      var value: Value;
      if d.kind == Dependency.FACTORY {
        value := w.call(d.value);           // await dependency.value()
      } else if d.kind == Dependency.CLASS {
        value := w.construct(d.value);      // new dependency.value()
      } else {
        return Err(UnknownType(d.kind));
      }
      registry := registry[name := value];
      resolving := resolving[name := false];
      return Ok(value);
    }
  }

  const ApiClass := Fn(24, "Api")
  const LoggerKey := Str("logger")
  const MakeLogger := Fn(25, "makeLogger")
  const Logger := Obj(7, "{}")
  const Api := Obj(8, "{}")

  /** The class Api lists one inner dependency, a logger factory stored
      under its own key. */
  const ApiWorld := World(
    map[ApiClass := [AsFactory(MakeLogger, LoggerKey)]],
    v => if v == ApiClass then Api else Obj(9, "{}"),
    v => if v == MakeLogger then Logger else Undefined)

  /** Resolving the logger while Api is in flight: nothing is found, so the
      factory is called and its product stored under the logger's key. */
  lemma LoggerResolves(marked: Tables)
    requires marked == Mark(Empty, ApiClass)
    ensures LegacyResolution.Resolve(marked, [], ApiWorld, LoggerKey, AsFactory(MakeLogger, LoggerKey))
         == Run(Ok(Logger), Store(Mark(marked, LoggerKey), LoggerKey, Logger))
  {
    assert [marked] + [] == [marked] && [marked][1..] == [];
    assert Scope.Get([marked], LoggerKey) == Undefined;
    assert !IsResolving(marked, LoggerKey);
    assert Inner(ApiWorld, MakeLogger) == [];
    var marked2 := Mark(marked, LoggerKey);
    assert LegacyResolution.ResolveInner(marked2, [], ApiWorld, []) == Run(Ok(()), marked2);
  }

  /** The tables once Api is built: Api and then the logger flagged, the
      logger stored and unflagged, then Api stored and unflagged. */
  const ApiBuilt := Store(Store(Mark(Mark(Empty, ApiClass), LoggerKey), LoggerKey, Logger), ApiClass, Api)

  /** The inner dependencies of Api, run while Api is in flight: the logger
      alone, which succeeds. */
  lemma ApiInnerResolves(marked: Tables)
    requires marked == Mark(Empty, ApiClass)
    ensures LegacyResolution.ResolveInner(marked, [], ApiWorld, [AsFactory(MakeLogger, LoggerKey)])
         == Run(Ok(()), Store(Mark(marked, LoggerKey), LoggerKey, Logger))
  {
    LoggerResolves(marked);
    var logged := Store(Mark(marked, LoggerKey), LoggerKey, Logger);
    assert [AsFactory(MakeLogger, LoggerKey)][1..] == [];
    assert LegacyResolution.ResolveInner(logged, [], ApiWorld, []) == Run(Ok(()), logged);
  }

  /** Resolving Api in an empty container with no parent: the logger is made
      first and stored under its key, then the class is instantiated and
      stored under itself. */
  lemma ApiResolves()
    ensures LegacyResolution.Resolve(Empty, [], ApiWorld, ApiClass, AsClass(ApiClass)) == Run(Ok(Api), ApiBuilt)
  {
    assert [Empty] + [] == [Empty] && [Empty][1..] == [];
    assert Scope.Get([Empty], ApiClass) == Undefined;
    var marked := Mark(Empty, ApiClass);
    assert Inner(ApiWorld, ApiClass) == [AsFactory(MakeLogger, LoggerKey)];
    ApiInnerResolves(marked);
  }

  /** What the built tables hold: Api under itself, the logger under its
      key, and no mocks. */
  lemma ApiBuiltHolds()
    ensures Lookup(ApiBuilt.registry, ApiClass) == Api && Lookup(ApiBuilt.registry, LoggerKey) == Logger
    ensures ApiBuilt.forced == map[]
  {
  }

  /** Building a queue that holds only the class Api is resolving it. */
  lemma BuildApi()
    ensures LegacyResolution.Build(Empty, [], ApiWorld, [(ApiClass, AsClass(ApiClass))]) == Run(Ok(()), ApiBuilt)
  {
    ApiResolves();
    assert [(ApiClass, AsClass(ApiClass))][1..] == [];
  }

  /** `register` and `build` on a fresh container with no parent: the build
      succeeds and leaves the tables of ApiBuilt. */
  method RegisterAndBuild() returns (scope: Container, built: Result<(), Error>)
    ensures fresh(scope) && scope.Linked() && scope.parent == null
    ensures built == Ok(()) && scope.Tables() == ApiBuilt
  {
    scope := new Container(null);
    scope.Register(ApiClass, AsClass(ApiClass));
    assert scope.Tables() == Empty && scope.Outer() == [];
    assert scope.registerQueue == [(ApiClass, AsClass(ApiClass))];
    BuildApi();
    built := scope.Build(ApiWorld);
  }

  /** After `register` and `build`, the class is found under its own key,
      and the logger it needed under the logger's key. */
  method BuildScenario() returns (built: Result<(), Error>, api: Value, logger: Value)
    ensures built == Ok(()) && api == Api && logger == Logger
  {
    var scope;
    scope, built := RegisterAndBuild();
    assert scope.Chain() == [ApiBuilt];
    ApiBuiltHolds();
    GetWithoutParent(ApiBuilt, ApiClass);
    GetWithoutParent(ApiBuilt, LoggerKey);
    api := scope.Get(ApiClass);
    logger := scope.Get(LoggerKey);
  }
}
