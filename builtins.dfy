/**
 * The Python operations the engine applies to configuration values without checking
 * their type first, with the exception each one raises on a value of the wrong kind.
 */
module Builtins {
  import opened Text
  import opened Tree
  import opened Errors
  import opened Scanner

  /** `key in v`: a substring test on a string, membership on a list, a key test on a
      mapping; numbers, booleans and `None` are not containers. */
  function PyIn(key: string, v: Value): (r: Outcome<bool>)
    ensures r.Raise? <==> v.Scalar?
    ensures v.Dict? ==> r == Ok(key in Keys(v.entries))
    ensures v.Str? ==> r == Ok(Occurs(key, v.s))
  {
    match v
    case Str(s) => Ok(Occurs(key, s))
    case List(items) => Ok(Str(key) in items)
    case Dict(entries) => Ok(key in Keys(entries))
    case Scalar(_) => Raise(TypeError)
  }

  /** `v[key]` with a string key: only a mapping can be indexed by a string. */
  function PyGetItem(v: Value, key: string): (r: Outcome<Value>)
    ensures r.Ok? <==> v.Dict? && key in Keys(v.entries)
    ensures r.Ok? ==> Lookup(v.entries, key) == Some(r.value)
    ensures v.Dict? && key !in Keys(v.entries) ==> r == Raise(KeyError(key))
  {
    match v
    case Dict(entries) =>
      (match Lookup(entries, key)
       case Some(x) => Ok(x)
       case None => Raise(KeyError(key)))
    case _ => Raise(TypeError)
  }

  /** `v.items()`: only a mapping has it. */
  function Items(v: Value): (r: Outcome<seq<(string, Value)>>)
    ensures r.Ok? <==> v.Dict?
    ensures r.Ok? ==> r.value == v.entries
    ensures !v.Dict? ==> r == Raise(AttributeError)
  {
    if v.Dict? then Ok(v.entries) else Raise(AttributeError)
  }

  /** `for x in v`: the characters of a string, the items of a list, the keys of a mapping. */
  function Elements(v: Value): (r: Outcome<seq<Value>>)
    ensures r.Raise? <==> v.Scalar?
    ensures v.List? ==> r == Ok(v.items)
  {
    match v
    case Str(s) => Ok(seq(|s|, i requires 0 <= i < |s| => Str([s[i]])))
    case List(items) => Ok(items)
    case Dict(entries) => Ok(seq(|entries|, i requires 0 <= i < |entries| => Str(entries[i].0)))
    case Scalar(_) => Raise(TypeError)
  }

  /** `v.index(needle)` with a string needle: the first position in a string or a list;
      `ValueError` when there is none, `AttributeError` on a mapping or a scalar. */
  function PyIndex(v: Value, needle: string): (r: Outcome<nat>)
    ensures v.Str? && r.Ok? ==> OccursAt(v.s, needle, r.value)
    ensures v.Str? ==> (r.Ok? <==> Occurs(needle, v.s))
    ensures v.List? && r.Ok? ==> r.value < |v.items| && v.items[r.value] == Str(needle)
    ensures (v.Dict? || v.Scalar?) ==> r == Raise(AttributeError)
  {
    match v
    case Str(s) =>
      (match IndexOf(s, needle)
       case Some(p) => Ok(p)
       case None => Raise(ValueError))
    case List(items) =>
      (match FirstIndex(items, Str(needle), 0)
       case Some(p) => Ok(p)
       case None => Raise(ValueError))
    case _ => Raise(AttributeError)
  }

  /** The first index at or after `from` where `items` holds `x`. */
  function FirstIndex(items: seq<Value>, x: Value, from: nat): (r: Option<nat>)
    ensures r.Some? ==> from <= r.value < |items| && items[r.value] == x
    ensures r.None? ==> forall j :: from <= j < |items| ==> items[j] != x
    decreases |items| - from
  {
    if from >= |items| then None
    else if items[from] == x then Some(from)
    else FirstIndex(items, x, from + 1)
  }

  /** `re.findall("(?<={)(.*?)(?=})", v)`: only a string can be searched. */
  function FindAll(v: Value): (r: Outcome<seq<string>>)
    ensures r.Ok? <==> v.Str?
    ensures v.Str? ==> r == Ok(FindVariablesIn(v.s))
    ensures !v.Str? ==> r == Raise(TypeError)
  {
    if v.Str? then Ok(FindVariablesIn(v.s)) else Raise(TypeError)
  }

  /** `v.strip()`: only a string has it. */
  function StripValue(v: Value): (r: Outcome<string>)
    ensures r.Ok? <==> v.Str?
    ensures v.Str? ==> r == Ok(Strip(v.s))
    ensures !v.Str? ==> r == Raise(AttributeError)
  {
    if v.Str? then Ok(Strip(v.s)) else Raise(AttributeError)
  }
}
