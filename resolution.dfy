/** What `set` and `resolve` of the current container (src/container.ts) do
    to a container's own tables, as functions of the tables before the call
    and the unchanging tables of its ancestors. */
module Resolution {
  import opened Values
  import opened Scope

  /** How a key is turned into a product. `new dependency()` and
      `await dependency()` run user code, so the instance a class yields and
      the value a factory returns are given rather than computed. The
      instance is an object, as `new` always gives one. */
  datatype Kind = Class(instance: Instance) | Factory(result: Value) | Plain

  /** What the descriptor queries report of a key: its kind and the keys it
      declares it depends on, in order. */
  datatype Meta = Meta(kind: Kind, deps: seq<Value>)

  /** Keys that are not in the catalog are plain values with no dependencies. */
  type Catalog = map<Value, Meta>

  datatype Error =
    | AlreadyRegistered(key: Value)
    | CircularDependency(callTree: seq<Value>)
    | ResolvedToUndefined(key: Value, callTree: seq<Value>)
    | NotFound(key: Value)
    | ContainerNotFound

  /** The outcome of an operation together with the container's tables after it. */
  datatype Run<+T> = Run(result: Result<T, Error>, after: Tables)

  /** `getDependencies(k)` when `hasDependencies(k)`, otherwise nothing. */
  function Dependencies(cat: Catalog, k: Value): (deps: seq<Value>)
    ensures forall d | d in deps :: d in Mentioned(cat)
  {
    if k in cat then (assert cat[k] in cat.Values; cat[k].deps) else []
  }

  /** The product: a new instance for a class, the factory's result for a
      factory, and the key itself for anything else. */
  function Product(cat: Catalog, k: Value): (p: Value)
    ensures k in cat && cat[k].kind.Class? ==> p == cat[k].kind.instance
    ensures k in cat && cat[k].kind.Factory? ==> p == cat[k].kind.result
    ensures k !in cat || cat[k].kind.Plain? ==> p == k
  {
    if k !in cat then k
    else match cat[k].kind
      case Class(instance) => instance
      case Factory(result) => result
      case Plain => k
  }

  /** Every entry of `before` is still in `after`, with the same value. */
  predicate Grows(before: map<Value, Value>, after: map<Value, Value>) {
    forall x :: x in before ==> x in after && after[x] == before[x]
  }

  /** `set`: a write-once insert into the container's own registry. Ancestors
      are not consulted, so a key of a parent may be shadowed. */
  function Define(t: Tables, k: Value, v: Value): (r: Result<Tables, Error>)
    ensures r.Err? <==> k in t.registry
    ensures r.Err? ==> r.error == AlreadyRegistered(k)
    ensures r.Ok? ==> r.value.registry.Keys == t.registry.Keys + {k} && Lookup(r.value.registry, k) == v
    ensures r.Ok? ==> Grows(t.registry, r.value.registry)
    ensures r.Ok? ==> r.value.resolving == t.resolving && r.value.forced == t.forced
  {
    if k in t.registry then Err(AlreadyRegistered(k))
    else Ok(t.(registry := t.registry[k := v]))
  }

  /** Every key some descriptor declares as a dependency: the only keys a
      nested resolution can start from. */
  ghost function Mentioned(cat: Catalog): set<Value> {
    set m, d | m in cat.Values && d in m.deps :: d
  }

  /** The termination measure: keys that could still be marked in-flight. */
  ghost function Measure(cat: Catalog, k: Value, t: Tables): set<Value> {
    (Mentioned(cat) + {k}) - Flagged(t)
  }

  /** Marking a key that is not in flight shrinks the termination measure. */
  lemma MarkShrinks(cat: Catalog, k: Value, t: Tables)
    requires !IsResolving(t, k)
    ensures Mentioned(cat) - Flagged(Mark(t, k)) < Measure(cat, k, t)
  {
    assert k in Measure(cat, k, t);
  }

  /** `resolveWithMetadata(k, callTree)` run on a container whose own tables
      are `t` and whose ancestors' tables are `outer`:
        1. a truthy `get(k)` is returned as it is;
        2. a key already in flight is a circular dependency, reported with
           the call tree extended by the key;
        3. otherwise the key is marked in flight, its dependencies are
           resolved in order with the call tree extended by the key, the
           product is made, an undefined product is rejected, the product is
           stored with `set` and the flag is cleared.
      Nothing is rolled back on failure. */
  function ResolveKey(t: Tables, outer: seq<Tables>, cat: Catalog, k: Value, callTree: seq<Value>): (run: Run<Value>)
    ensures run.after.forced == t.forced
    ensures Grows(t.registry, run.after.registry)
    ensures Flagged(t) <= Flagged(run.after)
    ensures run.result.Ok? ==> Flagged(run.after) == Flagged(t)
    ensures forall x :: x in Flagged(t) && x !in t.registry ==> x !in run.after.registry
    decreases Measure(cat, k, t), 0
  {
    var existing := Get([t] + outer, k);
    if Truthy(existing) then Run(Ok(existing), t)
    else if IsResolving(t, k) then Run(Err(CircularDependency(callTree + [k])), t)
    else
      var marked := Mark(t, k);
      MarkShrinks(cat, k, t);
      var deps := ResolveDeps(marked, outer, cat, Dependencies(cat, k), callTree + [k]);
      if deps.result.Err? then Run(Err(deps.result.error), deps.after)
      else Construct(deps.after, cat, k, callTree)
  }

  /** What follows the dependencies: the product is made, an undefined one is
      rejected, it is stored with `set` and the key's flag is cleared. */
  function Construct(t: Tables, cat: Catalog, k: Value, callTree: seq<Value>): (run: Run<Value>)
    ensures run.result.Err? <==> Product(cat, k) == Undefined || k in t.registry
    ensures run.result.Err? ==>
      run.result.error == (if Product(cat, k) == Undefined then ResolvedToUndefined(k, callTree + [k]) else AlreadyRegistered(k))
    ensures run.result.Ok? ==> run.result.value == Product(cat, k) && Lookup(run.after.registry, k) == run.result.value
    ensures run.after.forced == t.forced
    ensures Grows(t.registry, run.after.registry)
    ensures forall x :: x != k ==> (x in run.after.registry <==> x in t.registry)
    ensures run.result.Err? ==> run.after == t
    ensures run.result.Ok? ==> Flagged(run.after) == Flagged(t) - {k}
  {
    var value := Product(cat, k);
    if value == Undefined then Run(Err(ResolvedToUndefined(k, callTree + [k])), t)
    else match Define(t, k, value)
      case Err(e) => Run(Err(e), t)
      case Ok(stored) =>
        var done := stored.(resolving := stored.resolving[k := false]);
        assert Flagged(done) == Flagged(t) - {k} by {
          forall x ensures x in Flagged(done) <==> x in Flagged(t) - {k} {
            if x != k { assert x in done.resolving <==> x in stored.resolving; }
          }
        }
        Run(Ok(value), done)
  }

  /** The `for` loop over the dependencies: each is resolved in turn, and the
      first failure ends the loop. */
  function ResolveDeps(t: Tables, outer: seq<Tables>, cat: Catalog, deps: seq<Value>, callTree: seq<Value>): (run: Run<()>)
    requires forall d | d in deps :: d in Mentioned(cat)
    ensures run.after.forced == t.forced
    ensures Grows(t.registry, run.after.registry)
    ensures Flagged(t) <= Flagged(run.after)
    ensures run.result.Ok? ==> Flagged(run.after) == Flagged(t)
    ensures forall x :: x in Flagged(t) && x !in t.registry ==> x !in run.after.registry
    decreases Mentioned(cat) - Flagged(t), |deps| + 1
  {
    if deps == [] then Run(Ok(()), t)
    else
      var first := ResolveKey(t, outer, cat, deps[0], callTree);
      if first.result.Err? then Run(Err(first.result.error), first.after)
      else
        var rest := ResolveDeps(first.after, outer, cat, deps[1..], callTree);
        Run(rest.result, rest.after)
  }

  /** A key whose `get` is truthy resolves to that value and changes nothing:
      no table is written and no constructor or factory runs. */
  lemma MemoHit(t: Tables, outer: seq<Tables>, cat: Catalog, k: Value, callTree: seq<Value>)
    requires Truthy(Get([t] + outer, k))
    ensures ResolveKey(t, outer, cat, k, callTree) == Run(Ok(Get([t] + outer, k)), t)
  {
  }

  /** A key met again while it is in flight is a circular dependency whose
      report is the call tree followed by the key; nothing changes. */
  lemma CycleReported(t: Tables, outer: seq<Tables>, cat: Catalog, k: Value, callTree: seq<Value>)
    requires !Truthy(Get([t] + outer, k)) && IsResolving(t, k)
    ensures ResolveKey(t, outer, cat, k, callTree) == Run(Err(CircularDependency(callTree + [k])), t)
  {
  }

  /** The outcome of a fresh resolution (lookup falsy, key not in flight).
      On success the product is the kind's product, never undefined, it is
      stored under the key and the key's flag is `false`. On failure the
      key's flag stays `true` and the key is in the registry only if it
      already was. */
  lemma FreshOutcome(t: Tables, outer: seq<Tables>, cat: Catalog, k: Value, callTree: seq<Value>)
    requires !Truthy(Get([t] + outer, k)) && !IsResolving(t, k)
    ensures var run := ResolveKey(t, outer, cat, k, callTree);
      && (run.result.Ok? ==>
            && run.result.value == Product(cat, k) != Undefined
            && Lookup(run.after.registry, k) == run.result.value
            && k in run.after.resolving && !run.after.resolving[k])
      && (run.result.Err? ==>
            && IsResolving(run.after, k)
            && (k in run.after.registry <==> k in t.registry))
  {
    var run := ResolveKey(t, outer, cat, k, callTree);
    var marked := Mark(t, k);
    var deps := ResolveDeps(marked, outer, cat, Dependencies(cat, k), callTree + [k]);
    assert k in Flagged(marked);
    assert k in Flagged(deps.after);
    if k !in t.registry {
      assert k !in deps.after.registry;
    }
  }

  /** A product that is undefined is rejected once the dependencies have
      been resolved: the error names the key and the call tree extended by
      it, and nothing is stored under the key. */
  lemma UndefinedProductRejected(t: Tables, outer: seq<Tables>, cat: Catalog, k: Value, callTree: seq<Value>)
    requires !Truthy(Get([t] + outer, k)) && !IsResolving(t, k)
    requires ResolveDeps(Mark(t, k), outer, cat, Dependencies(cat, k), callTree + [k]).result.Ok?
    requires Product(cat, k) == Undefined
    ensures var run := ResolveKey(t, outer, cat, k, callTree);
      && run.result == Err(ResolvedToUndefined(k, callTree + [k]))
      && run.after == ResolveDeps(Mark(t, k), outer, cat, Dependencies(cat, k), callTree + [k]).after
      && (k in run.after.registry <==> k in t.registry)
  {
    FreshOutcome(t, outer, cat, k, callTree);
  }

  /** Resolving a key whose product is truthy twice in the same container
      yields the identical value, and the second call changes nothing. */
  lemma Idempotent(t: Tables, outer: seq<Tables>, cat: Catalog, k: Value, callTree: seq<Value>, again: seq<Value>)
    requires ResolveKey(t, outer, cat, k, callTree).result.Ok?
    requires Truthy(ResolveKey(t, outer, cat, k, callTree).result.value)
    ensures var run := ResolveKey(t, outer, cat, k, callTree);
      ResolveKey(run.after, outer, cat, k, again) == run
  {
    var run := ResolveKey(t, outer, cat, k, callTree);
    if !Truthy(Get([t] + outer, k)) {
      FreshOutcome(t, outer, cat, k, callTree);
      assert ([run.after] + outer)[1..] == outer == ([t] + outer)[1..];
      assert Get([run.after] + outer, k) == run.result.value;
    }
  }

  /** A class key is built at most once per container: its instance is an
      object, so once resolved it is found by lookup and never rebuilt. */
  lemma ClassResolvedOnce(t: Tables, outer: seq<Tables>, cat: Catalog, k: Value, callTree: seq<Value>, again: seq<Value>)
    requires k in cat && cat[k].kind.Class?
    requires ResolveKey(t, outer, cat, k, callTree).result.Ok?
    ensures var run := ResolveKey(t, outer, cat, k, callTree);
      ResolveKey(run.after, outer, cat, k, again) == run
  {
    if !Truthy(Get([t] + outer, k)) {
      FreshOutcome(t, outer, cat, k, callTree);
    }
    Idempotent(t, outer, cat, k, callTree, again);
  }

  /** Presence is tested by truthiness, so a falsy product is not a memo hit:
      resolving the same key again in the same container re-runs it and then
      fails, since `set` refuses the key it stored the first time. */
  lemma FalsyProductIsNotMemoised(t: Tables, outer: seq<Tables>, cat: Catalog, k: Value, callTree: seq<Value>, again: seq<Value>)
    requires !Truthy(Get([t] + outer, k))
    requires ResolveKey(t, outer, cat, k, callTree).result.Ok?
    requires !Truthy(ResolveKey(t, outer, cat, k, callTree).result.value)
    ensures var run := ResolveKey(t, outer, cat, k, callTree);
      ResolveKey(run.after, outer, cat, k, again).result.Err?
  {
    var run := ResolveKey(t, outer, cat, k, callTree);
    FreshOutcome(t, outer, cat, k, callTree);
    assert ([run.after] + outer)[1..] == outer == ([t] + outer)[1..];
    assert !Truthy(Get([run.after] + outer, k));
    var marked := Mark(run.after, k);
    var deps := ResolveDeps(marked, outer, cat, Dependencies(cat, k), again + [k]);
    assert k in run.after.registry;
    if deps.result.Ok? {
      assert k in deps.after.registry;
    }
  }

  /** Two keys that each list the other first form a cycle: resolving the
      first reports the chain first, second, first after the call tree. */
  lemma TwoKeyCycle(t: Tables, outer: seq<Tables>, cat: Catalog, a: Value, b: Value, callTree: seq<Value>)
    requires a != b
    requires a in cat && cat[a].deps != [] && cat[a].deps[0] == b
    requires b in cat && cat[b].deps != [] && cat[b].deps[0] == a
    requires !Truthy(Get([t] + outer, a)) && !Truthy(Get([t] + outer, b))
    requires !IsResolving(t, a) && !IsResolving(t, b)
    ensures ResolveKey(t, outer, cat, a, callTree).result == Err(CircularDependency(callTree + [a, b, a]))
  {
    var ma := Mark(t, a);
    var mb := Mark(ma, b);
    GetIgnoresFlags(t, ma, outer, b);
    GetIgnoresFlags(t, mb, outer, a);
    assert IsResolving(mb, a);
    assert !IsResolving(ma, b);
    assert callTree + [a] + [b] + [a] == callTree + [a, b, a];
    var inner := ResolveKey(mb, outer, cat, a, callTree + [a] + [b]);
    assert inner.result == Err(CircularDependency(callTree + [a, b, a]));
    var depsB := ResolveDeps(mb, outer, cat, cat[b].deps, callTree + [a] + [b]);
    assert depsB.result == Err(CircularDependency(callTree + [a, b, a]));
    var viaB := ResolveKey(ma, outer, cat, b, callTree + [a]);
    assert viaB.result == inner.result;
    var depsA := ResolveDeps(ma, outer, cat, cat[a].deps, callTree + [a]);
    assert depsA.result == Err(CircularDependency(callTree + [a, b, a]));
  }

  /** Dependencies are resolved strictly in list order: running a list is
      running its first part, then, unless that failed, the rest from the
      tables the first part left. */
  lemma {:induction false} DepsInOrder(t: Tables, outer: seq<Tables>, cat: Catalog, a: seq<Value>, b: seq<Value>, callTree: seq<Value>)
    requires forall d | d in a + b :: d in Mentioned(cat)
    ensures ResolveDeps(t, outer, cat, a + b, callTree) ==
      var first := ResolveDeps(t, outer, cat, a, callTree);
      if first.result.Err? then first else ResolveDeps(first.after, outer, cat, b, callTree)
    decreases |a|
  {
    if a == [] {
      assert a + b == b;
    } else {
      assert (a + b)[0] == a[0];
      assert (a + b)[1..] == a[1..] + b;
      var head := ResolveKey(t, outer, cat, a[0], callTree);
      if head.result.Ok? {
        DepsInOrder(head.after, outer, cat, a[1..], b, callTree);
      }
    }
  }
}
