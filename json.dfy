/**
 * Decoded JSON as PHP sees it after `json_decode($raw, true)`: objects become
 * string-keyed arrays, lists become integer-indexed arrays. Both kinds pass
 * PHP's `is_array`.
 */
module Json {
  import opened Wrappers

  datatype Json =
    | JNull
    | JBool(b: bool)
    | JNumber(n: int)
    | JString(s: string)
    | JArray(items: seq<Json>)
    | JObject(members: map<string, Json>)

  /** PHP's `is_array` on a decoded value. */
  predicate IsArray(j: Json) {
    j.JArray? || j.JObject?
  }

  /** PHP's `!$value` on a decoded value. */
  predicate Falsy(j: Json) {
    match j
    case JNull => true
    case JBool(b) => !b
    case JNumber(n) => n == 0
    case JString(s) => s == "" || s == "0"
    case JArray(items) => items == []
    case JObject(m) => m == map[]
  }

  /** `isset($value[$key]) && is_string($value[$key])`: the string stored under a key, if any. */
  function StringMember(j: Json, key: string): (r: Option<string>)
    ensures r.Some? <==> j.JObject? && key in j.members && j.members[key].JString?
    ensures r.Some? ==> j.members[key] == JString(r.value)
  {
    if j.JObject? && key in j.members && j.members[key].JString? then Some(j.members[key].s) else None
  }

  /** `$value[$key]` read from an array, or null when the key is not set. */
  function MemberOrNull(j: Json, key: string): Json {
    if j.JObject? && key in j.members then j.members[key] else JNull
  }

  /** A JSON list of strings, the way the label arrays are encoded. */
  function Strings(names: seq<string>): (r: Json)
    ensures r.JArray? && |r.items| == |names|
    ensures forall i :: 0 <= i < |names| ==> r.items[i] == JString(names[i])
  {
    JArray(seq(|names|, i requires 0 <= i < |names| => JString(names[i])))
  }

  /** The strings of a JSON list whose every element is a string. */
  function AsStrings(j: Json): (r: Option<seq<string>>)
    ensures r.Some? <==> j.JArray? && forall i :: 0 <= i < |j.items| ==> j.items[i].JString?
    ensures r.Some? ==> Strings(r.value) == j
  {
    if j.JArray? && forall i :: 0 <= i < |j.items| ==> j.items[i].JString? then
      Some(seq(|j.items|, i requires 0 <= i < |j.items| => j.items[i].s))
    else
      None
  }

  /**
   * `array_map(function (array $element) { ... }, $value)` on an array: the
   * callback's `array` parameter type makes PHP throw a TypeError (None here)
   * as soon as one element is not itself an array; otherwise every element is
   * mapped and the keys and their order are kept.
   */
  function ArrayMap(j: Json, f: Json -> Json): (r: Option<Json>)
    requires IsArray(j)
    ensures j.JArray? ==> (r.Some? <==> forall i :: 0 <= i < |j.items| ==> IsArray(j.items[i]))
    ensures j.JObject? ==> (r.Some? <==> forall k :: k in j.members ==> IsArray(j.members[k]))
    ensures r.Some? && j.JArray? ==>
      r.value.JArray? && |r.value.items| == |j.items| &&
      forall i :: 0 <= i < |j.items| ==> r.value.items[i] == f(j.items[i])
    ensures r.Some? && j.JObject? ==>
      r.value.JObject? && r.value.members.Keys == j.members.Keys &&
      forall k :: k in j.members ==> r.value.members[k] == f(j.members[k])
  {
    match j
    case JArray(items) =>
      if forall i :: 0 <= i < |items| ==> IsArray(items[i]) then
        Some(JArray(seq(|items|, i requires 0 <= i < |items| => f(items[i]))))
      else
        None
    case JObject(m) =>
      if forall k :: k in m ==> IsArray(m[k]) then
        Some(JObject(map k | k in m :: f(m[k])))
      else
        None
  }

  /**
   * `if (isset($data[$key]) && is_array($data[$key])) { $data[$key] = array_map($f, $data[$key]); }`:
   * None when the callback refuses an element; every other key is kept.
   */
  function MapArrayMember(data: map<string, Json>, key: string, f: Json -> Json): (r: Option<map<string, Json>>)
    ensures !(key in data && IsArray(data[key])) ==> r == Some(data)
    ensures key in data && IsArray(data[key]) ==>
      (r.Some? <==> ArrayMap(data[key], f).Some?) &&
      (r.Some? ==> r.value == data[key := ArrayMap(data[key], f).value])
  {
    if key in data && IsArray(data[key]) then
      match ArrayMap(data[key], f)
      case None => None
      case Some(mapped) => Some(data[key := mapped])
    else
      Some(data)
  }
}
