/** The current container (src/container.ts): a class that owns its three
    tables and updates them in place, with an explicit parent in place of
    the ambient one. Each method is proved to leave the tables the pure
    semantics in module Resolution computes. */
module CurrentContainer {
  import opened Values
  import opened Scope
  import opened Resolution
  import Utils

  class Container {
    const parent: Container?
    var registry: map<Value, Value>
    var resolving: map<Value, bool>
    var forced: map<Value, Value>

    /** The parent, the grandparent and so on. */
    ghost const Ancestors: set<Container>
    ghost const depth: nat

    /** The parent links form a finite chain that never leads back to this
        container; it depends on constant fields only, so it holds for good
        once the constructor has established it. */
    ghost predicate Linked()
      decreases depth
    {
      && (parent == null ==> Ancestors == {})
      && (parent != null ==>
            && parent.depth < depth
            && Ancestors == {parent} + parent.Ancestors
            && this !in Ancestors
            && parent.Linked())
    }

    /** `new Container()` run inside the scope of `parent` (or of none). */
    constructor (parent: Container?)
      requires parent != null ==> parent.Linked()
      ensures Linked() && this.parent == parent
      ensures registry == map[] && resolving == map[] && forced == map[]
    {
      this.parent := parent;
      registry, resolving, forced := map[], map[], map[];
      Ancestors := if parent == null then {} else {parent} + parent.Ancestors;
      depth := if parent == null then 0 else parent.depth + 1;
    }

    function Tables(): Tables
      reads this
    {
      Scope.Tables(registry, resolving, forced)
    }

    /** The tables of this container and of each ancestor, nearest first. */
    ghost function Chain(): (c: seq<Scope.Tables>)
      reads this, Ancestors
      requires Linked()
      ensures c != [] && c[0] == Tables()
      decreases depth
    {
      [Tables()] + (if parent == null then [] else parent.Chain())
    }

    /** The tables of the ancestors, nearest first. */
    ghost function Outer(): (o: seq<Scope.Tables>)
      reads Ancestors
      requires Linked()
      ensures o == [] <==> parent == null
    {
      if parent == null then [] else parent.Chain()
    }

    /** `get`: own forced, parent's forced, own registry, then the parent's
        `get`, first truthy wins. */
    function Get(k: Value): (r: Value)
      reads this, Ancestors
      requires Linked()
      ensures r == Scope.Get(Chain(), k)
      decreases depth
    {
      Or(Lookup(forced, k),
         Or(if parent != null then Lookup(parent.forced, k) else Undefined,
            Or(Lookup(registry, k),
               if parent != null then parent.Get(k) else Undefined)))
    }

    /** `set`: fails when the key is already in this container's own
        registry, otherwise adds exactly that entry. */
    method Set(k: Value, v: Value) returns (r: Result<(), Error>)
      modifies this
      ensures r.Err? <==> k in old(registry)
      ensures r.Err? ==> r.error == AlreadyRegistered(k) && registry == old(registry)
      ensures r.Ok? ==> registry == old(registry)[k := v]
      ensures resolving == old(resolving) && forced == old(forced)
    {
      if k in registry {
        return Err(AlreadyRegistered(k));
      }
      registry := registry[k := v];
      return Ok(());
    }

    /** `mock`: always overwrites the forced value; a truthy mock is what
        `get` returns from now on, whatever the registries hold. */
    method Mock(k: Value, v: Value)
      requires Linked()
      modifies this
      ensures Tables() == Scope.Mock(old(Tables()), k, v)
      ensures Truthy(v) ==> Get(k) == v
    {
      forced := forced[k := v];
    }

    /** `resolve(k)`: the recursive walk started with an empty call tree.
        Only this container's tables change; the ancestors' stay as they were. */
    method Resolve(k: Value, cat: Catalog) returns (r: Result<Value, Error>)
      requires Linked()
      modifies this
      ensures Run(r, Tables()) == ResolveKey(old(Tables()), Outer(), cat, k, [])
      ensures Outer() == old(Outer())
    {
      r := ResolveWithMetadata(k, [], cat);
    }

    /** `resolveWithMetadata`: a truthy lookup is returned as it is, a key
        already in flight is a cycle, any other key is resolved afresh. */
    method ResolveWithMetadata(k: Value, callTree: seq<Value>, cat: Catalog) returns (r: Result<Value, Error>)
      requires Linked()
      modifies this
      ensures Run(r, Tables()) == ResolveKey(old(Tables()), Outer(), cat, k, callTree)
      ensures Outer() == old(Outer())
      decreases Measure(cat, k, Tables()), 1
    {
      assert Chain() == [Tables()] + Outer();
      var existing := Get(k);
      if Truthy(existing) {
        return Ok(existing);
      }
      if k in resolving && resolving[k] {
        return Err(CircularDependency(callTree + [k]));
      }
      r := ResolveFresh(k, callTree, cat);
    }

    /** The rest of `resolveWithMetadata` for a key that is neither found nor
        in flight: flag it, resolve its dependencies in order, then build and
        store it. */
    method ResolveFresh(k: Value, callTree: seq<Value>, cat: Catalog) returns (r: Result<Value, Error>)
      requires Linked()
      requires !Truthy(Scope.Get([Tables()] + Outer(), k)) && !IsResolving(Tables(), k)
      modifies this
      ensures Run(r, Tables()) == ResolveKey(old(Tables()), Outer(), cat, k, callTree)
      ensures Outer() == old(Outer())
      decreases Measure(cat, k, Tables()), 0
    {
      ghost var start, outer := Tables(), Outer();
      resolving := resolving[k := true];
      assert Outer() == outer;
      ghost var marked := Tables();
      assert marked == Mark(start, k);
      MarkShrinks(cat, k, start);
      var deps := ResolveDependencies(Dependencies(cat, k), callTree + [k], cat);
      ghost var walked := ResolveDeps(marked, outer, cat, Dependencies(cat, k), callTree + [k]);
      assert Run(deps, Tables()) == walked;
      if deps.Err? {
        return Err(deps.error);
      }
      r := Construct(k, callTree, cat);
    }

    /** The `for` loop of `resolveWithMetadata`: each declared dependency is
        resolved in list order, and the first failure ends the loop. */
    method ResolveDependencies(deps: seq<Value>, callTree: seq<Value>, cat: Catalog) returns (r: Result<(), Error>)
      requires Linked()
      requires forall d | d in deps :: d in Mentioned(cat)
      modifies this
      ensures Run(r, Tables()) == ResolveDeps(old(Tables()), Outer(), cat, deps, callTree)
      ensures Outer() == old(Outer())
      decreases Mentioned(cat) - Flagged(Tables()), |deps| + 1
    {
      ghost var start := Tables();
      ghost var outer := Outer();
      for i := 0 to |deps|
        invariant Outer() == outer
        invariant Flagged(Tables()) == Flagged(start)
        invariant ResolveDeps(start, outer, cat, deps, callTree)
               == ResolveDeps(Tables(), outer, cat, deps[i..], callTree)
      {
        assert deps[i..][0] == deps[i] && deps[i..][1..] == deps[i + 1..];
        assert Measure(cat, deps[i], Tables()) == Mentioned(cat) - Flagged(start);
        ghost var first := ResolveKey(Tables(), outer, cat, deps[i], callTree);
        assert ResolveDeps(Tables(), outer, cat, deps[i..], callTree)
            == if first.result.Err? then Run(Err(first.result.error), first.after)
               else ResolveDeps(first.after, outer, cat, deps[i + 1..], callTree);
        var sub := ResolveWithMetadata(deps[i], callTree, cat);
        assert Outer() == outer;
        if sub.Err? {
          return Err(sub.error);
        }
      }
      return Ok(());
    }

    /** Makes the product, rejects an undefined one, stores it with `set`
        and clears the key's flag. */
    method Construct(k: Value, callTree: seq<Value>, cat: Catalog) returns (r: Result<Value, Error>)
      requires Linked()
      modifies this
      ensures Run(r, Tables()) == Resolution.Construct(old(Tables()), cat, k, callTree)
      ensures Outer() == old(Outer())
    {
      var value: Value;
      if k in cat && cat[k].kind.Class? {
        value := cat[k].kind.instance;      // new dependency()
      } else if k in cat && cat[k].kind.Factory? {
        value := cat[k].kind.result;        // await dependency()
      } else {
        value := k;
      }
      if value == Undefined {
        return Err(ResolvedToUndefined(k, callTree + [k]));
      }
      var stored := Set(k, value);
      if stored.Err? {
        return Err(stored.error);
      }
      resolving := resolving[k := false];
      return Ok(value);
    }
  }

  /** `getDep`: the lookup in the current container, failing when there is
      no current container or when nothing truthy is found. */
  function GetDep(current: Container?, k: Value): (r: Result<Value, Error>)
    reads if current == null then {} else {current} + current.Ancestors
    requires current != null ==> current.Linked()
    ensures current == null ==> r == Err(ContainerNotFound)
    ensures current != null ==>
      (r.Ok? <==> !NoneTruthy(Candidates(current.Chain(), k)))
    ensures current != null && r.Ok? ==> r.value == FirstTruthy(Candidates(current.Chain(), k))
    ensures current != null && r.Err? ==> r.error == NotFound(k)
  {
    if current == null then Err(ContainerNotFound)
    else
      var dependency := current.Get(k);
      FirstTruthyFindsNothing(Candidates(current.Chain(), k));
      if !Truthy(dependency) then Err(NotFound(k)) else Ok(dependency)
  }

  /** `setDep`: `set` on the current container. */
  method SetDep(current: Container?, k: Value, v: Value) returns (r: Result<(), Error>)
    modifies current
    ensures current == null ==> r == Err(ContainerNotFound)
    ensures current != null ==> (r.Err? <==> k in old(current.registry))
    ensures current != null && r.Ok? ==> current.registry == old(current.registry)[k := v]
    ensures current != null && r.Err? ==> r.error == AlreadyRegistered(k) && current.registry == old(current.registry)
    ensures current != null ==> current.resolving == old(current.resolving) && current.forced == old(current.forced)
  {
    if current == null {
      return Err(ContainerNotFound);
    }
    r := current.Set(k, v);
  }

  /** `mockDep`: `mock` on the current container. */
  method MockDep(current: Container?, k: Value, v: Value) returns (r: Result<(), Error>)
    requires current != null ==> current.Linked()
    modifies current
    ensures current == null <==> r == Err(ContainerNotFound)
    ensures current != null ==> current.Tables() == Scope.Mock(old(current.Tables()), k, v)
  {
    if current == null {
      return Err(ContainerNotFound);
    }
    current.Mock(k, v);
    return Ok(());
  }

  /** `resolveDep`: `resolve` on the current container. */
  method ResolveDep(current: Container?, k: Value, cat: Catalog) returns (r: Result<Value, Error>)
    requires current != null ==> current.Linked()
    modifies current
    ensures current == null ==> r == Err(ContainerNotFound)
    ensures current != null ==>
      Run(r, current.Tables()) == ResolveKey(old(current.Tables()), current.Outer(), cat, k, [])
  {
    if current == null {
      return Err(ContainerNotFound);
    }
    r := current.Resolve(k, cat);
  }

  const ClassA := Fn(21, "A")
  const ClassB := Fn(22, "B")

  /** A needs B and B needs A. */
  const CycleCatalog: Catalog :=
    map[ClassA := Meta(Class(Obj(4, "{}")), [ClassB]), ClassB := Meta(Class(Obj(5, "{}")), [ClassA])]

  /** In an empty root container, resolving A fails with the call tree A, B, A. */
  lemma CycleFromEmpty()
    ensures ResolveKey(Empty, [], CycleCatalog, ClassA, []).result == Err(CircularDependency([ClassA, ClassB, ClassA]))
  {
    assert [Empty] + [] == [Empty] && [Empty][1..] == [];
    assert Scope.Get([Empty], ClassA) == Undefined && Scope.Get([Empty], ClassB) == Undefined;
    TwoKeyCycle(Empty, [], CycleCatalog, ClassA, ClassB, []);
    assert [] + [ClassA, ClassB, ClassA] == [ClassA, ClassB, ClassA];
  }

  /** Two classes that depend on each other: resolving the first fails with
      the chain A -> B -> A. */
  method CircularScenario() returns (r: Result<Value, Error>, chainText: string)
    ensures r == Err(CircularDependency([Fn(21, "A"), Fn(22, "B"), Fn(21, "A")]))
    ensures chainText == "A -> B -> A"
  {
    var scope := new Container(null);
    assert scope.Tables() == Empty && scope.Outer() == [];
    CycleFromEmpty();
    r := scope.Resolve(ClassA, CycleCatalog);
    chainText := Utils.SerializeCallTree(r.error.callTree);
    Utils.CycleChainText(ClassA, ClassB);
  }

  const ConfigKey := Str("config")
  const Settings := Obj(1, "{\"URL\":\"https://example.com\"}")
  const ApiKey := Fn(10, "Api")
  const ApiCatalog: Catalog := map[ApiKey := Meta(Class(Obj(2, "{}")), [ConfigKey])]

  /** In a container holding only the settings, resolving the class that
      depends on them finds the settings by lookup and stores a new instance. */
  lemma ApiResolves(t: Tables)
    requires t == Scope.Tables(map[ConfigKey := Settings], map[], map[])
    ensures ResolveKey(t, [], ApiCatalog, ApiKey, []).result == Ok(Obj(2, "{}"))
  {
    var cat := ApiCatalog;
    assert [t] + [] == [t] && [t][1..] == [];
    assert Scope.Get([t], ApiKey) == Undefined;
    var marked := Mark(t, ApiKey);
    assert [marked] + [] == [marked] && [marked][1..] == [];
    assert Scope.Get([marked], ConfigKey) == Settings;
    MemoHit(marked, [], cat, ConfigKey, [ApiKey]);
    assert Dependencies(cat, ApiKey) == [ConfigKey] && [ConfigKey][1..] == [];
    assert ResolveDeps(marked, [], cat, [ConfigKey], [ApiKey]) == Run(Ok(()), marked);
    assert !IsResolving(t, ApiKey) && ApiKey !in marked.registry && [] + [ApiKey] == [ApiKey];
    assert Product(cat, ApiKey) == Obj(2, "{}");
    assert Resolution.Construct(marked, cat, ApiKey, []).result == Ok(Obj(2, "{}"));
  }

  /** A class that depends on a plain value registered with `set`: it is
      built once per scope and resolving it again returns the same instance. */
  method InjectionScenario() returns (api: Result<Value, Error>, again: Result<Value, Error>, config: Value)
    ensures api == Ok(Obj(2, "{}")) && again == api
    ensures config == Settings
  {
    var scope := new Container(null);
    var registered := scope.Set(ConfigKey, Settings);
    ghost var t := scope.Tables();
    assert scope.Outer() == [];
    ApiResolves(t);
    api := scope.Resolve(ApiKey, ApiCatalog);
    Idempotent(t, [], ApiCatalog, ApiKey, [], []);
    again := scope.Resolve(ApiKey, ApiCatalog);
    config := scope.Get(ConfigKey);
  }

  /** A child scope that mocks a value sees the mock, while the parent keeps
      its own registered value. */
  method ChildMockScenario() returns (mockedInChild: Value, configInParent: Value)
    ensures mockedInChild == Obj(3, "{\"URL\":\"MOCKED\"}")
    ensures configInParent == Settings
  {
    var mocked := Obj(3, "{\"URL\":\"MOCKED\"}");
    var scope := new Container(null);
    var registered := scope.Set(ConfigKey, Settings);
    var child := new Container(scope);
    child.Mock(ConfigKey, mocked);
    mockedInChild := child.Get(ConfigKey);
    configInParent := scope.Get(ConfigKey);
  }

  /** Resolving in a child scope writes only the child's tables: the parent
      still finds nothing under the key. */
  method ChildScopeScenario() returns (inChild: Result<Value, Error>, seenByChild: Value, seenByParent: Value)
    ensures inChild == Ok(Obj(6, "{}")) && seenByChild == Obj(6, "{}")
    ensures seenByParent == Undefined
  {
    var apiKey := ApiKey;
    var cat := map[apiKey := Meta(Factory(Obj(6, "{}")), [])];
    var parent := new Container(null);
    var child := new Container(parent);
    assert child.Outer() == [Empty];
    inChild := child.Resolve(apiKey, cat);
    seenByChild := child.Get(apiKey);
    seenByParent := parent.Get(apiKey);
  }

  /** A factory whose product is falsy is stored but never found again: the
      second resolution runs the factory again and `set` refuses the key. */
  method FalsyProductScenario() returns (first: Result<Value, Error>, second: Result<Value, Error>)
    ensures first == Ok(Num(0))
    ensures second == Err(AlreadyRegistered(Fn(23, "zero")))
  {
    var zero := Fn(23, "zero");
    var cat := map[zero := Meta(Factory(Num(0)), [])];
    var scope := new Container(null);
    first := scope.Resolve(zero, cat);
    second := scope.Resolve(zero, cat);
  }
}
