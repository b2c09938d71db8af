/** Rendering of dependency names and call trees for error messages
    (src/utils.ts). */
module Utils {
  import opened Values

  /** The text `serializeCallTree` puts between two names. */
  const Arrow := " -> "

  /** The decimal digits of a natural number, as `Number.prototype.toString` gives them. */
  function Digits(n: nat): (r: string)
    decreases n
  {
    if n < 10 then ["0123456789"[n]] else Digits(n / 10) + ["0123456789"[n % 10]]
  }

  /** `serializeDependencyName`: a string is its own name; a function renders
      as its name and an object as its JSON text (both abstracted by the
      value's name); `null` is an object to `typeof`, so it takes the object
      branch and renders as the JSON text "null"; other primitives render
      through `toString`, except `undefined`, which the source returns as it
      is and `Array.prototype.join` renders as the empty string. */
  function SerializeDependencyName(v: Value): (r: string)
    ensures v.Str? ==> r == v.s
    ensures v.Fn? || v.Obj? ==> r == v.name
    ensures v == Null ==> r == "null"
    ensures v == Undefined ==> r == ""
    ensures v.Bool? ==> r == (if v.b then "true" else "false")
  {
    match v
    case Str(s) => s
    case Fn(_, name) => name
    case Obj(_, name) => name
    case Bool(b) => if b then "true" else "false"
    case Num(n) => if n < 0 then "-" + Digits(-n) else Digits(n)
    case Undefined => ""
    case Null => "null"
  }

  /** `Array.prototype.join`. */
  function Join(parts: seq<string>, sep: string): (r: string)
    ensures parts == [] ==> r == ""
    ensures |parts| == 1 ==> r == parts[0]
    decreases |parts|
  {
    if parts == [] then ""
    else if |parts| == 1 then parts[0]
    else parts[0] + sep + Join(parts[1..], sep)
  }

  /** The name of every key in a call tree, in order. */
  function Names(tree: seq<Value>): (r: seq<string>)
    ensures |r| == |tree|
    ensures forall i :: 0 <= i < |tree| ==> r[i] == SerializeDependencyName(tree[i])
  {
    seq(|tree|, i requires 0 <= i < |tree| => SerializeDependencyName(tree[i]))
  }

  /** `serializeCallTree`: the names of the keys joined by " -> ". */
  function SerializeCallTree(tree: seq<Value>): (r: string)
    ensures tree == [] ==> r == ""
    ensures |tree| == 1 ==> r == SerializeDependencyName(tree[0])
  {
    Join(Names(tree), Arrow)
  }

  lemma {:induction false} JoinSnoc(parts: seq<string>, p: string, sep: string)
    requires parts != []
    ensures Join(parts + [p], sep) == Join(parts, sep) + sep + p
    decreases |parts|
  {
    if |parts| == 1 {
      assert parts + [p] == [parts[0], p];
      assert (parts + [p])[1..] == [p];
    } else {
      assert (parts + [p])[1..] == parts[1..] + [p];
      JoinSnoc(parts[1..], p, sep);
    }
  }

  /** Appending a key to a non-empty call tree appends one arrow and the
      key's name: names keep their order and a tree of n keys has n - 1
      arrows. */
  lemma SerializeSnoc(xs: seq<Value>, y: Value)
    requires xs != []
    ensures SerializeCallTree(xs + [y]) == SerializeCallTree(xs) + Arrow + SerializeDependencyName(y)
  {
    assert Names(xs + [y]) == Names(xs) + [SerializeDependencyName(y)];
    JoinSnoc(Names(xs), SerializeDependencyName(y), Arrow);
  }

  /** The call tree of a two-key cycle a, b, a renders as the name of a,
      an arrow, the name of b, an arrow and the name of a again. */
  lemma CycleChainText(a: Value, b: Value)
    ensures SerializeCallTree([a, b, a]) ==
      SerializeDependencyName(a) + Arrow + SerializeDependencyName(b) + Arrow + SerializeDependencyName(a)
  {
    assert SerializeCallTree([a]) == SerializeDependencyName(a);
    SerializeSnoc([a], b);
    assert [a, b] == [a] + [b];
    SerializeSnoc([a, b], a);
    assert [a, b, a] == [a, b] + [a];
  }
}
