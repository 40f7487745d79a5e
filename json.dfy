/** JSON values as Python's `json` module produces them, and the mutable `dict` that
    holds token claims. Objects keep their members in insertion order, as Python dicts do. */
module Json {

  datatype Json =
    | JNull
    | JBool(b: bool)
    | JInt(i: int)
    | JStr(s: string)
    | JArr(items: seq<Json>)
    | JObj(members: seq<Member>)

  /** One key/value pair of a JSON object. */
  datatype Member = Member(key: string, value: Json)

  /** A claim set: the top-level dict a token carries. */
  type Claims = map<string, Json>

  /** A Python `dict` object, whose entries its methods change in place. */
  class Dict {
    var entries: Claims

    constructor (init: Claims)
      ensures entries == init
    {
      entries := init;
    }

    /** `dict.copy()`: a new object with the same entries; this one is left as it was. */
    method Copy() returns (d: Dict)
      ensures fresh(d)
      ensures d.entries == entries
    {
      d := new Dict(entries);
    }

    /** `dict.update(other)`: the keys of `other` are added or overwritten, the rest kept. */
    method Update(other: Claims)
      modifies this
      ensures entries.Keys == old(entries).Keys + other.Keys
      ensures forall k :: k in other ==> entries[k] == other[k]
      ensures forall k :: k in old(entries) && k !in other ==> entries[k] == old(entries)[k]
    {
      entries := entries + other;
    }
  }
}
