# buba: a scoped dependency-injection container, modelled in Dafny

buba resolves *dependencies*: classes, factories and plain values. A
container (a *scope*) keeps three tables:

- `registry`: resolved products, one per key.
- `resolvingDependencies`: in-flight flags, used to detect cycles.
- `forcedDependencies`: mocks.

A container created inside another one has that one as its parent.

- `get` looks a key up in this order: own mock, parent's mock, own registry,
  then the parent's whole `get`. The first truthy value wins.
- `resolve` returns what `get` finds. A key that is already in flight is
  reported as a circular dependency with its call tree. Any other key is
  flagged, its declared dependencies are resolved in order, and then it is
  built (a class is instantiated, a factory called, anything else used as
  it is), stored, and unflagged.

The repository holds two revisions of the container, and both are modelled:

- **src/container.ts** is the current one. It has write-once `set` and an
  `undefined` check on products.
- **src/index.ts** is the older one. Descriptors carry a `valueType` key,
  `register` queues descriptors for `build`, and storing a product
  overwrites whatever is there.

## Files

- `values.dfy` (module `Values`): JavaScript values, truthiness, `||`, `Map.get`.
- `utils.dfy` (module `Utils`): `serializeDependencyName` and `serializeCallTree` (src/utils.ts).
- `dependency.dfy` (module `Dependency`): the descriptor builders and `hasDependencies` (src/dependency.ts).
- `scope.dfy` (module `Scope`): the three tables and the lookup `get` over a chain of containers. The lookup is the same in both revisions.
- `resolution.dfy` (module `Resolution`): `set` and `resolve` of src/container.ts as pure functions of the container's own tables and its ancestors' tables.
- `container.dfy` (module `CurrentContainer`): the class of src/container.ts. It has fields updated in place, and every method is proved to end in the state the functions of `Resolution` compute. The module also holds `getDep`, `setDep`, `mockDep` and `resolveDep`.
- `legacy_resolution.dfy` (module `LegacyResolution`): the descriptors, `resolve` and `build` of src/index.ts as pure functions.
- `legacy_container.dfy` (module `LegacyContainer`): the class of src/index.ts, whose methods are proved against `LegacyResolution`.

### How the model is put together

- **Keys and values.** Both are `Values.Value`. Objects and functions are
  identified by an id, and they carry the name under which they are printed.
- **User code.** Constructors and factories are user code, so their products
  are given rather than run:
  - For src/container.ts, a `Catalog` maps each key to its kind (class with
    its instance, factory with its result, or plain) and to its declared
    dependencies.
  - For src/index.ts, a `World` gives each function's DEPENDENCIES array,
    and gives the instance `new` makes and the value the factory returns.
- **The parent.** The ambient parent is a constructor argument.
- **Termination.** `resolve` terminates because each nested call either
  returns at once or flags a key that was not flagged before. The measure
  is the set of keys that are declared as dependencies and not yet flagged.

### Mocks are consulted only one level up

One might expect a mock to reach every container below the one that holds
it. The code consults its own mock, then the parent's mock, then its own
registry entry, and only then delegates to the parent. A grandchild whose own registry
holds a truthy value for a key therefore ignores its grandparent's mock.
The model follows the code:

- `Scope.GrandchildRegistryShadowsMock` proves this case.
- `Scope.MockVisibility` states exactly when a mock wins.

### Presence is truthiness

`get` and `resolve` test presence with `||` and `if (existing)`. A stored
product that is falsy (`0`, `""`, `false`, `null`) is therefore never found
again, and the two revisions react differently:

- In src/container.ts, resolving such a key a second time builds it again,
  and then `set` refuses the key. See `Resolution.FalsyProductIsNotMemoised`
  and `CurrentContainer.FalsyProductScenario`.
- In src/index.ts, the store overwrites the entry, so the second resolution
  succeeds. See `LegacyResolution.FalsyProductReResolved`.

## Model

| member | source | states |
|---|---|---|
| Values.Truthy | src/container.ts:52 | the presence test `if (existing)`: false exactly for undefined, null, false, 0 and "" |
| Values.Or | src/container.ts:31-36 | `a || b` is one of its operands, and is truthy exactly when either operand is |
| Utils.SerializeDependencyName | src/utils.ts:1-14 | a string names itself; a function or object renders as its name; null takes the object branch and renders as "null"; booleans and other primitives render through toString; undefined is returned as it is and joins as the empty string |
| Utils.Names | src/utils.ts:16-18 | the map step: one name per key of the call tree, in order |
| Utils.Join | src/utils.ts:17 | `join` of no parts is "", and of one part is that part, with no separator |
| Utils.SerializeCallTree | src/utils.ts:16-18 | an empty call tree renders as "", a single key as its name with no separator; longer trees are covered by SerializeSnoc |
| Utils.SerializeSnoc | src/utils.ts:16-18 | appending a key to a non-empty tree appends " -> " and the key's name, so names keep their order and n keys carry n-1 arrows |
| Utils.JoinSnoc | src/utils.ts:17 | `join` of a list extended by one part is the old join, the separator and the part |
| Utils.CycleChainText | src/utils.ts:16-18 | the call tree a, b, a of a two-key cycle renders as a's name, " -> ", b's name, " -> ", a's name |
| Dependency.AsClass | src/dependency.ts:26-31 | the descriptor is tagged CLASS and holds the given value |
| Dependency.AsFactory | src/dependency.ts:32-37 | the descriptor is tagged FACTORY and holds the given value |
| Dependency.AsValue | src/dependency.ts:38-43 | the descriptor is tagged VALUE and holds the given value |
| Dependency.BuildersAreDistinct | src/dependency.ts:26-43 | no two builders produce the same descriptor, and each builder is injective |
| Dependency.HasDependencies | src/dependency.ts:45-49 | false for undefined and null; otherwise true exactly when the DEPENDENCIES slot is truthy |
| Scope.IsResolving | src/container.ts:55 | the key is in flight exactly when `resolvingDependencies.get(k)` is truthy, undefined counting as absent |
| Scope.ParentForced | src/container.ts:33 | `parentContainer?.forcedDependencies.get(k)`: undefined without a parent, else the parent's forced value or undefined |
| Scope.Mark | src/container.ts:62 | setting the in-flight flag adds exactly the key to the flagged set and touches no other table |
| Scope.Mock | src/container.ts:39-41 | the forced value of the key becomes the given value whatever it was; other keys and the other tables are unchanged |
| Scope.Candidates | src/container.ts:30-37 | the values `get` inspects: three per container of the chain |
| Scope.FirstTruthy | src/container.ts:30-37 | the reference lookup: the first truthy candidate, or undefined |
| Scope.FirstTruthyIsEarliest | src/container.ts:30-37 | the reference lookup returns the earliest truthy candidate |
| Scope.FirstTruthyOfFalsy | src/container.ts:30-37 | with no truthy candidate the reference lookup is undefined |
| Scope.FirstTruthyFindsNothing | src/container.ts:30-37 | the reference lookup is falsy exactly when no candidate is truthy |
| Scope.FirstTruthyAppend | src/container.ts:30-37 | the lookup over two lists tries the first list, then the second only if nothing in the first is truthy |
| Scope.Get | src/container.ts:30-37 | the `||` chain over a chain of containers equals the first truthy candidate of the whole chain, and is undefined when there is none |
| Scope.GetWithoutParent | src/container.ts:30-37 | a container with no parent finds its forced value, else its registry entry, else undefined |
| Scope.CandidatesBeforeMock | src/container.ts:32-33 | a mock at depth j first appears at a fixed position among the candidates, and everything before that position is unchanged |
| Scope.CandidatesBeforeDeepMock | src/container.ts:32-35 | the same for a mock two or more levels up |
| Scope.MockVisibility | src/container.ts:30-41 | a truthy mock at depth j is what `get` returns exactly when no earlier candidate is truthy; otherwise the earlier value wins. At depths 0 and 1 the mock wins even over a registry entry |
| Scope.GrandchildRegistryShadowsMock | src/container.ts:30-37 | a grandchild's own truthy registry entry hides its grandparent's mock |
| Scope.GetIgnoresFlags | src/container.ts:30-37 | the in-flight flags never affect lookup |
| Resolution.Dependencies | src/container.ts:63-69 | the declared dependencies of a key (none when it declares none) |
| Resolution.Product | src/container.ts:70-77 | a class yields its instance, a factory its result, anything else the key itself |
| Resolution.Define | src/container.ts:19-28 | write-once insert: fails with AlreadyRegistered exactly when the key is in the own registry; otherwise adds that one entry and keeps every other |
| Resolution.MarkShrinks | src/container.ts:62 | flagging a key that is not in flight shrinks the termination measure |
| Resolution.ResolveKey | src/container.ts:47-90 | resolution never touches mocks, never removes or changes a stored entry, never clears another key's flag; on success every flag is as before |
| Resolution.Construct | src/container.ts:70-89 | building fails exactly when the product is undefined (ResolvedToUndefined with the extended call tree) or the key is already in the own registry (AlreadyRegistered), and then leaves the tables as they were; success returns the product, stores it under the key, adds no other key and clears only the key's flag |
| Resolution.ResolveDeps | src/container.ts:63-69 | the dependency loop keeps the same invariants as resolution |
| Resolution.MemoHit | src/container.ts:51-54 | a truthy `get` is returned as it is and nothing changes |
| Resolution.CycleReported | src/container.ts:55-61 | a key in flight fails with the call tree extended by the key, and nothing changes |
| Resolution.FreshOutcome | src/container.ts:62-89 | a fresh success returns the key's product, which is not undefined, stores it under the key and leaves the flag false; a failure leaves the flag true and stores nothing new under the key |
| Resolution.UndefinedProductRejected | src/container.ts:78-86 | an undefined product fails with the key and the extended call tree, after the dependencies, and stores nothing under the key |
| Resolution.Idempotent | src/container.ts:51-89 | after a successful resolution with a truthy product, resolving the key again returns the identical value and changes nothing |
| Resolution.ClassResolvedOnce | src/container.ts:51-89 | a class is built at most once per container: after any successful resolution of a class key, resolving it again returns the identical instance and changes nothing |
| Resolution.FalsyProductIsNotMemoised | src/container.ts:51-87 | after a resolution with a falsy product, resolving the key again fails |
| Resolution.TwoKeyCycle | src/container.ts:55-67 | two keys that each list the other first fail with the call tree A, B, A |
| Resolution.DepsInOrder | src/container.ts:63-69 | dependencies run strictly in list order: a list is its first part, then the rest unless the first part failed |
| CurrentContainer.Container.constructor | src/container.ts:13-17 | a new container has empty tables and the given parent |
| CurrentContainer.Container.Get | src/container.ts:30-37 | `get` on the class equals the chain lookup over this container and its ancestors |
| CurrentContainer.Container.Set | src/container.ts:19-28 | fails with AlreadyRegistered, leaving the registry as it was, exactly when the key is already registered locally; otherwise adds exactly that entry |
| CurrentContainer.Container.Mock | src/container.ts:39-41 | overwrites the forced value; a truthy mock is what `get` returns afterwards |
| CurrentContainer.Container.Resolve | src/container.ts:43-92 | the result and the new tables are those of resolution with an empty call tree; ancestors are not written |
| CurrentContainer.Container.ResolveWithMetadata | src/container.ts:47-61 | memo hit, cycle or fresh resolution, ending in the state resolution computes |
| CurrentContainer.Container.ResolveFresh | src/container.ts:62-89 | flag, dependencies, build and store, ending in the state resolution computes |
| CurrentContainer.Container.ResolveDependencies | src/container.ts:63-69 | the `for` loop ends in the state the dependency loop computes and stops at the first failure |
| CurrentContainer.Container.Construct | src/container.ts:70-89 | makes the product, rejects undefined, stores it with `set` and clears the flag, as the building step computes |
| CurrentContainer.GetDep | src/container.ts:116-128 | fails with ContainerNotFound without a current container; otherwise succeeds exactly when some candidate is truthy, with the first one, and fails with NotFound otherwise |
| CurrentContainer.SetDep | src/container.ts:130-132 | `set` on the current container, or ContainerNotFound |
| CurrentContainer.MockDep | src/container.ts:134-136 | `mock` on the current container, or ContainerNotFound |
| CurrentContainer.ResolveDep | src/container.ts:138-140 | `resolve` on the current container, or ContainerNotFound |
| CurrentContainer.CycleFromEmpty | src/container.ts:55-61 | in an empty root container, resolving A where A needs B and B needs A fails with the call tree A, B, A |
| CurrentContainer.CircularScenario | src/container.ts:55-61 | resolving A where A needs B and B needs A fails with the call tree A, B, A, which renders as "A -> B -> A" |
| CurrentContainer.ApiResolves | src/container.ts:47-89 | a class that needs a registered value finds it by lookup and is built |
| CurrentContainer.InjectionScenario | src/container.ts:43-92 | the class is built once; resolving it again returns the same instance; the registered value stays visible |
| CurrentContainer.ChildMockScenario | src/container.ts:30-41 | a child that mocks a value sees the mock, and the parent keeps its registered value |
| CurrentContainer.ChildScopeScenario | src/container.ts:43-92 | resolving in a child stores in the child only, so the parent still finds nothing |
| CurrentContainer.FalsyProductScenario | src/container.ts:51-87 | a factory returning 0 resolves once, and the second resolution fails with AlreadyRegistered |
| LegacyResolution.AsClass | src/index.ts:35-41 | tagged CLASS, with the class as both value and key |
| LegacyResolution.AsFactory | src/index.ts:43-52 | tagged FACTORY, with the factory as value and the given key |
| LegacyResolution.AsValue | src/index.ts:54-60 | tagged VALUE, with the value as both value and key |
| LegacyResolution.BuildersAgree | src/index.ts:35-60 | the older builders record the same tag and value as those of src/dependency.ts; only the factory builder's key can differ from its value |
| LegacyResolution.Slot | src/index.ts:148 | `value[DEPENDENCIES]` is truthy exactly when the value has a DEPENDENCIES array |
| LegacyResolution.HasDependencies | src/index.ts:144-149 | true exactly when the value is neither undefined nor null and has a DEPENDENCIES array |
| LegacyResolution.Inner | src/index.ts:114-115 | the inner dependencies iterated over, each keyed within the termination measure |
| LegacyResolution.MarkShrinks | src/index.ts:112 | flagging a name that is not in flight shrinks the termination measure |
| LegacyResolution.Store | src/index.ts:121-122 | the store overwrites: the name maps to the product whatever it held, every other entry is kept, and only the name's flag is cleared |
| LegacyResolution.Resolve | src/index.ts:102-135 | resolution never touches mocks and never clears another name's flag; on success every flag is as before |
| LegacyResolution.Finish | src/index.ts:119-131 | succeeds exactly for FACTORY and CLASS, returning the factory's result or the new instance and storing it under the name, clearing only the name's flag; a VALUE tag fails with UnknownType and changes nothing |
| LegacyResolution.ResolveInner | src/index.ts:114-118 | the inner loop keeps the same invariants as resolution |
| LegacyResolution.Build | src/index.ts:83-87 | building never touches mocks |
| LegacyResolution.MemoHit | src/index.ts:103-106 | a truthy `get` is returned as it is and nothing changes |
| LegacyResolution.CycleReported | src/index.ts:107-111 | a name in flight fails with a circular dependency naming it, and nothing changes |
| LegacyResolution.PlainValueRejected | src/index.ts:112-134 | a non-function value fails after the name is flagged, the flag stays true, and resolving the name again reports a cycle |
| LegacyResolution.FreshOutcome | src/index.ts:112-131 | a fresh success calls the factory or instantiates the class, stores the product under the name even if the name was present, and clears the flag; a VALUE tag fails with UnknownType; any failure leaves the flag true |
| LegacyResolution.Idempotent | src/index.ts:103-130 | after a successful resolution with a truthy product, resolving the name again returns it and changes nothing |
| LegacyResolution.ClassResolvedOnce | src/index.ts:103-130 | a CLASS descriptor is instantiated at most once per container: after any successful resolution, resolving the name again returns the identical instance and changes nothing |
| LegacyResolution.FalsyProductReResolved | src/index.ts:103-123 | a factory with a falsy product and no inner dependencies resolves again successfully, with the same product |
| LegacyResolution.InnerInOrder | src/index.ts:114-118 | inner dependencies run strictly in list order |
| LegacyResolution.BuildInOrder | src/index.ts:83-87 | a queue is built in order: its first part, then the rest unless the first part failed |
| LegacyContainer.Container.constructor | src/index.ts:69-74 | a new container has empty tables, an empty queue and the given parent |
| LegacyContainer.Container.Get | src/index.ts:89-96 | the same chain lookup as the current revision |
| LegacyContainer.Container.Register | src/index.ts:76-82 | a VALUE descriptor overwrites the registry entry and leaves the queue; any other is appended to the queue and leaves the registry; a registered truthy value is what `get` returns unless a mock hides it |
| LegacyContainer.Container.Mock | src/index.ts:98-100 | overwrites the forced value; a truthy mock is what `get` returns afterwards |
| LegacyContainer.Container.Build | src/index.ts:83-87 | the loop ends in the state `build` computes over the queue, and leaves the queue as it was |
| LegacyContainer.Container.Resolve | src/index.ts:102-111 | memo hit, cycle or fresh resolution, ending in the state resolution computes |
| LegacyContainer.Container.ResolveFresh | src/index.ts:112-135 | flag, plain-value check, inner dependencies, then call or instantiate and store, as resolution computes |
| LegacyContainer.Container.ResolveInner | src/index.ts:114-118 | the loop over the DEPENDENCIES array ends in the state the inner loop computes |
| LegacyContainer.Container.Finish | src/index.ts:119-131 | calls or instantiates and stores, or fails with UnknownType, as the final step computes |
| LegacyContainer.LoggerResolves | src/index.ts:119-123 | a factory listed as an inner dependency is called and stored under its key |
| LegacyContainer.ApiInnerResolves | src/index.ts:114-118 | the class's single inner dependency resolves |
| LegacyContainer.ApiResolves | src/index.ts:102-130 | the class is built after its inner dependency, and both products are stored |
| LegacyContainer.ApiBuiltHolds | src/index.ts:121-127 | after the build, both keys hold their products and there are no mocks |
| LegacyContainer.BuildApi | src/index.ts:83-87 | building a queue holding only the class is resolving it |
| LegacyContainer.RegisterAndBuild | src/index.ts:76-87 | `register` queues the class, and `build` succeeds with both products stored |
| LegacyContainer.BuildScenario | src/index.ts:76-96 | after `register` and `build`, `get` finds the class's instance and the logger it needed |

## Left out

- Ambient scopes through `AsyncLocalStorage` (`run`, `scope`, and the
  lookup in `getContainer`) are left out. The parent is a constructor
  argument, and the current container is an argument of
  `getDep`/`setDep`/`mockDep`/`resolveDep`.
- The global `containerMap`, `counter`, container ids, and the exported
  `getContainer`/`dependency` of src/index.ts are left out. They are
  process-global registries, and with an explicit parent they are no
  longer needed.
- `async`/`await` and Promises are not modelled. Each `resolve` or
  `build` runs its awaits in order, and the model follows that order.
  Concurrent calls on one container are not modelled: a second resolution
  of a key started while the first is still awaiting (say, both halves of
  `Promise.all([c.resolve(f), c.resolve(f)])`) finds the key in flight and
  reports a circular dependency although there is no cycle.
- A constructor or factory that throws or rejects is not modelled: the
  `Catalog` and the `World` always yield a value. In the source that
  failure propagates out of `resolve` with the key's in-flight flag left
  `true`, like every other failure after the flag is set.
- Running user constructors and factories is not modelled. A class's
  instance and a factory's result are given values (`Catalog`, `World`).
  A class's instance is always an object (`Values.Instance`), since `new`
  always yields one; a factory's result may be any value.
  As a consequence the model does not capture that `new` makes a fresh
  object on each call, nor any effects of user code.
- `isDependentClass`, `isDependentFactory` and `getDependencies` are
  imported by src/container.ts but not present in its src/dependency.ts.
  They are abstracted by the `Catalog`.
- The function branch (a regular expression over the function's source
  text) and the object branch (`JSON.stringify`) of
  `serializeDependencyName` are not modelled. Both render as the value's
  given name.
- Truthiness ignores NaN, -0 and BigInt, since numbers are integers here.
- src/types.ts and src/constants.ts hold only types and constants, with
  no behaviour.
- Exact error-message text is not modelled. Errors are a datatype that
  carries the key or the call tree.
- The test file targets a different revision of the API, so it is not
  modelled.
- LegacyResolution.World: a DEPENDENCIES slot that holds something other
  than an array is not modelled. An array is always truthy.
- LegacyResolution.Build: its contract states only that mocks are
  untouched. Its order and its stop at the first failure are stated by
  `LegacyResolution.BuildInOrder` and by the method `LegacyContainer.Container.Build`.
