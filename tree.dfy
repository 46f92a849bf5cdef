/**
 * A parsed Boost configuration, as the YAML loader hands it to the engine: strings,
 * lists, mappings with string keys (in document order), and every other scalar
 * (numbers, booleans, `null`) reduced to the one thing the engine ever asks of it,
 * its truth value.
 */
module Tree {
  import opened Text

  datatype Value =
    | Str(s: string)
    | List(items: seq<Value>)
    | Dict(entries: seq<(string, Value)>)
    | Scalar(truthy: bool)

  /** Python's truth value: empty strings, lists and mappings are false. */
  predicate Truthy(v: Value)
  {
    match v
    case Str(s) => s != []
    case List(items) => items != []
    case Dict(entries) => entries != []
    case Scalar(t) => t
  }

  /** The keys of a mapping, in document order. */
  function Keys(entries: seq<(string, Value)>): (ks: seq<string>)
    ensures |ks| == |entries|
    ensures forall i :: 0 <= i < |entries| ==> ks[i] == entries[i].0
  {
    seq(|entries|, i requires 0 <= i < |entries| => entries[i].0)
  }

  /** `mapping[key]`: the value stored under `key`. */
  function Lookup(entries: seq<(string, Value)>, key: string): (r: Option<Value>)
    ensures r.None? <==> key !in Keys(entries)
    ensures r.Some? ==> exists i :: 0 <= i < |entries| && entries[i] == (key, r.value)
  {
    if entries == [] then None
    else if entries[0].0 == key then Some(entries[0].1)
    else
      assert Keys(entries) == [entries[0].0] + Keys(entries[1..]);
      var r := Lookup(entries[1..], key);
      if r.Some? then
        var i :| 0 <= i < |entries[1..]| && entries[1..][i] == (key, r.value);
        assert entries[i + 1] == (key, r.value);
        r
      else r
  }
}
