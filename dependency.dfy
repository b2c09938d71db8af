/** Dependency descriptors (src/dependency.ts): a value tagged with how the
    container should turn it into a product. */
module Dependency {
  import opened Values

  datatype DependencyType = CLASS | FACTORY | VALUE

  /** `{ type, value }`. */
  datatype Dependency = Dependency(kind: DependencyType, value: Value)

  /** `asClass`: a class to be instantiated. */
  function AsClass(value: Value): (d: Dependency)
    ensures d.kind == CLASS && d.value == value
  {
    Dependency(CLASS, value)
  }

  /** `asFactory`: a function to be called. */
  function AsFactory(value: Value): (d: Dependency)
    ensures d.kind == FACTORY && d.value == value
  {
    Dependency(FACTORY, value)
  }

  /** `asValue`: a value used as it is. */
  function AsValue(value: Value): (d: Dependency)
    ensures d.kind == VALUE && d.value == value
  {
    Dependency(VALUE, value)
  }

  /** The three builders never agree: a descriptor tells which builder made it
      and from which value. */
  lemma BuildersAreDistinct(a: Value, b: Value)
    ensures AsClass(a) != AsFactory(b) && AsClass(a) != AsValue(b) && AsFactory(a) != AsValue(b)
    ensures AsClass(a) == AsClass(b) || AsFactory(a) == AsFactory(b) || AsValue(a) == AsValue(b) ==> a == b
  {
  }

  /** `hasDependencies`: `Boolean(v?.[DEPENDENCIES])`. `slot` gives the
      value's DEPENDENCIES property, which optional chaining never reads on
      `undefined` or `null`. */
  function HasDependencies(v: Value, slot: Value -> Value): (r: bool)
    ensures r ==> v != Undefined && v != Null
    ensures v != Undefined && v != Null ==> (r <==> Truthy(slot(v)))
  {
    match v
    case Undefined => false
    case Null => false
    case _ => Truthy(slot(v))
  }
}
