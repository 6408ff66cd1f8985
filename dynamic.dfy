/**
 * The host-side dynamic value and the two adapters the decode walk builds it with
 * (`DictWrapper::Add`, `ArrayWrapper::Add`). A mapping is keyed by dynamic values; adding a
 * key that is already there replaces its value.
 */
module Dynamic {

  /** A dynamic value: nil, a scalar, an array or a mapping. */
  datatype Object =
    | Nil
    | Str(s: string)
    | Num(n: int)
    | Flag(b: bool)
    | Array(items: seq<Object>)
    | Dict(entries: map<Object, Object>)

  /** A fresh container for a repeated field: an empty mapping for a map field, else an empty array. */
  function EmptyContainer(isMap: bool): (c: Object)
    ensures isMap ==> c == Dict(map[])
    ensures !isMap ==> c == Array([])
  {
    if isMap then Dict(map[]) else Array([])
  }

  /** `DictWrapper::Add(key, value)`. */
  function DictAdd(d: Object, key: Object, value: Object): (r: Object)
    requires d.Dict?
    ensures r.Dict? && r.entries.Keys == d.entries.Keys + {key} && r.entries[key] == value
    ensures forall k :: k in d.entries && k != key ==> r.entries[k] == d.entries[k]
  {
    Dict(d.entries[key := value])
  }

  /** `ArrayWrapper::Add(value)`. */
  function ArrayAdd(a: Object, value: Object): (r: Object)
    requires a.Array?
    ensures r.Array? && |r.items| == |a.items| + 1 && r.items[|a.items|] == value
    ensures r.items[..|a.items|] == a.items
  {
    Array(a.items + [value])
  }
}
