/** JavaScript values as the container sees them: every key, stored value,
    mock and product is one of these. */
module Values {

  /** A JavaScript value. Objects and functions (classes included) are
      compared by identity, which `id` stands for; `name` is how the value
      renders in a diagnostic (a function's name, an object's JSON text). */
  datatype Value =
    | Undefined
    | Null
    | Bool(b: bool)
    | Num(n: int)
    | Str(s: string)
    | Obj(id: nat, name: string)
    | Fn(id: nat, name: string)

  /** The falsy values of JavaScript that this model can express. */
  const Falsy: set<Value> := {Undefined, Null, Bool(false), Num(0), Str("")}

  /** JavaScript truthiness: `undefined`, `null`, `false`, `0` and `""` are
      falsy, everything else is truthy. */
  predicate Truthy(v: Value)
    ensures Truthy(v) <==> v !in Falsy
  {
    match v
    case Undefined => false
    case Null => false
    case Bool(b) => b
    case Num(n) => n != 0
    case Str(s) => s != ""
    case Obj(_, _) => true
    case Fn(_, _) => true
  }

  /** What `new C()` yields: always an object, whatever the constructor does
      with its arguments. */
  type Instance = v: Value | v.Obj? witness Obj(0, "{}")

  /** JavaScript's `a || b`: the first operand when it is truthy, else the second. */
  function Or(a: Value, b: Value): (r: Value)
    ensures r == a || r == b
    ensures Truthy(r) <==> Truthy(a) || Truthy(b)
  {
    if Truthy(a) then a else b
  }

  /** `Map.prototype.get`: the stored value, or `undefined` for a missing key. */
  function Lookup(m: map<Value, Value>, k: Value): (r: Value) {
    if k in m then m[k] else Undefined
  }

  /** A thrown error or a returned value. */
  datatype Result<+T, +E> = Ok(value: T) | Err(error: E)
}
