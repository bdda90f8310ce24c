/** The Python values a reply parser can hand back (`json.loads` or
    `ast.literal_eval`), as far as the core inspects them. */
module Values {

  datatype Value =
    | VNone
    | VBool(b: bool)
    | VNum(x: real)
    | VStr(s: string)
      /** a list or a tuple: both slice and iterate in order */
    | VList(items: seq<Value>)
      /** a dict, as its key/value pairs in insertion order */
    | VDict(entries: seq<(string, Value)>)
      /** a set literal: neither sliceable nor JSON-serialisable */
    | VSet(members: seq<Value>)

  /** The empty list, the fallback of every defensive parse. */
  const EmptyList: Value := VList([])

  /** Python truthiness. */
  predicate Truthy(v: Value)
  {
    match v
    case VNone => false
    case VBool(b) => b
    case VNum(x) => x != 0.0
    case VStr(s) => s != ""
    case VList(items) => items != []
    case VDict(entries) => entries != []
    case VSet(members) => members != []
  }

  /** Position `i` holds the last binding of `key`. */
  predicate LastBinding(entries: seq<(string, Value)>, key: string, i: int)
  {
    0 <= i < |entries| && entries[i].0 == key
    && forall j :: i < j < |entries| ==> entries[j].0 != key
  }

  /** `d.get(key, default)`: the last binding of `key` wins, as it does
      when a parser meets a repeated key. */

  function Lookup(entries: seq<(string, Value)>, key: string, default: Value): (r: Value)
    ensures (forall i :: 0 <= i < |entries| ==> entries[i].0 != key) ==> r == default
    ensures r == default || exists i :: 0 <= i < |entries| && entries[i] == (key, r)
    ensures forall i :: LastBinding(entries, key, i) ==> r == entries[i].1
  {
    if |entries| == 0 then default
    else if entries[|entries| - 1].0 == key then entries[|entries| - 1].1
    else Lookup(entries[..|entries| - 1], key, default)
  }

  /** `json.dumps` succeeds: no set anywhere inside the value. */
  predicate Serializable(v: Value)
  {
    match v
    case VList(items) => forall i :: 0 <= i < |items| ==> Serializable(items[i])
    case VDict(entries) => forall i :: 0 <= i < |entries| ==> Serializable(entries[i].1)
    case VSet(_) => false
    case _ => true
  }
}
