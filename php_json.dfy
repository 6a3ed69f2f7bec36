/**
 * The values that PHP's `json_decode($text, true)` hands to the client:
 * JSON objects and lists both become PHP arrays, which are ordered.  An
 * object is therefore kept as the sequence of its members, in document
 * order.  The functions below are the three PHP operations the client
 * applies to such values: boolean conversion (`!$x`, `if ($x)`), reading
 * a string key (`$x['key']`) and iterating with `foreach`.
 */
module PhpJson {
  import opened Wrappers

  datatype Json =
    | JNull
    | JBool(b: bool)
    | JInt(i: int)
    | JFloat(x: real)
    | JString(s: string)
    | JList(items: seq<Json>)
    | JObject(members: seq<Member>)

  datatype Member = Member(key: string, value: Json)

  /** PHP's conversion to bool: null, false, 0, 0.0, "", "0" and the empty array are false. */
  predicate Truthy(v: Json) {
    match v
    case JNull => false
    case JBool(b) => b
    case JInt(i) => i != 0
    case JFloat(x) => x != 0.0
    case JString(s) => s != "" && s != "0"
    case JList(items) => |items| != 0
    case JObject(members) => |members| != 0
  }

  /** True when some member of `ms` has the key `key` (PHP's `array_key_exists`). */
  predicate HasKey(ms: seq<Member>, key: string) {
    exists i :: 0 <= i < |ms| && ms[i].key == key
  }

  /** The value stored under `key`, or None when no member has that key. */
  function Find(ms: seq<Member>, key: string): (r: Option<Json>)
    ensures r.None? <==> !HasKey(ms, key)
    ensures r.Some? ==> exists i :: 0 <= i < |ms| && ms[i] == Member(key, r.value)
  {
    if |ms| == 0 then None
    else if ms[0].key == key then Some(ms[0].value)
    else
      var rest := Find(ms[1..], key);
      assert forall i :: 0 <= i < |ms| - 1 ==> ms[1..][i] == ms[i + 1];
      assert HasKey(ms, key) ==> HasKey(ms[1..], key) by {
        if HasKey(ms, key) {
          var i :| 0 <= i < |ms| && ms[i].key == key;
          assert i != 0 && ms[1..][i - 1].key == key;
        }
      }
      rest
  }

  /**
   * `$v[key]` for a string key: the member value for an array that has the
   * key, otherwise null (PHP warns and reads null for a missing key or for
   * an offset on null, a boolean or a number; a list has only integer keys).
   */
  function Get(v: Json, key: string): (r: Json)
    ensures v.JObject? && HasKey(v.members, key) ==> exists i :: 0 <= i < |v.members| && v.members[i] == Member(key, r)
    ensures !(v.JObject? && HasKey(v.members, key)) ==> r == JNull
  {
    match v
    case JObject(ms) =>
      (match Find(ms, key)
       case Some(x) => x
       case None => JNull)
    case _ => JNull
  }

  /** The values `foreach ($v as $x)` visits, in order; a non-array is not iterated. */
  function Elements(v: Json): (r: seq<Json>)
    ensures forall x :: x in r ==> x < v
  {
    match v
    case JList(items) => items
    case JObject(ms) => seq(|ms|, i requires 0 <= i < |ms| => ms[i].value)
    case _ => []
  }
}
