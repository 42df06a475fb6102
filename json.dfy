/**
 * JSON values as `json.loads` produces them, and the Python operations the
 * engine applies to them: truthiness, `key in v`, `v[key]`, `v.get`,
 * `len(v)`, `v == n`, `v <= 0`, `isinstance` and item assignment. Each
 * operation raises the exception Python raises on a value of the wrong type.
 */
module Json {
  import opened Wrappers
  import Text

  datatype JsonValue =
    | JNull
    | JBool(b: bool)
    | JInt(i: int)
    | JReal(r: real)
    | JString(s: string)
    | JArray(items: seq<JsonValue>)
    | JObject(members: seq<Member>)

  /** One key of an object, in insertion order. */
  datatype Member = Member(key: string, value: JsonValue)

  /** `json.loads` is not modelled: an oracle gives the parsed value, or None when Python would raise. */
  type Parser = string -> Option<JsonValue>

  /** Python's `bool(v)`. */
  predicate Truthy(v: JsonValue) {
    match v
    case JNull => false
    case JBool(b) => b
    case JInt(i) => i != 0
    case JReal(r) => r != 0.0
    case JString(s) => |s| > 0
    case JArray(items) => |items| > 0
    case JObject(ms) => |ms| > 0
  }

  function Keys(ms: seq<Member>): (ks: seq<string>)
    ensures |ks| == |ms|
    ensures forall i :: 0 <= i < |ms| ==> ks[i] == ms[i].key
  {
    if ms == [] then [] else [ms[0].key] + Keys(ms[1..])
  }

  /** The value bound to `key`: the first member with that key (parsed objects have distinct keys). */
  function Find(ms: seq<Member>, key: string): (r: Option<JsonValue>)
    ensures r.Some? <==> key in Keys(ms)
  {
    if ms == [] then None
    else if ms[0].key == key then Some(ms[0].value)
    else Find(ms[1..], key)
  }

  predicate HasKey(ms: seq<Member>, key: string) {
    Find(ms, key).Some?
  }

  function Lookup(ms: seq<Member>, key: string): JsonValue
    requires HasKey(ms, key)
  {
    Find(ms, key).value
  }

  /** The members with `key` bound to `x`: replaced in place when present, appended otherwise. */
  function Assign(ms: seq<Member>, key: string, x: JsonValue): (r: seq<Member>)
    ensures Find(r, key) == Some(x)
    ensures forall k :: k != key ==> Find(r, k) == Find(ms, k)
    ensures |r| == if HasKey(ms, key) then |ms| else |ms| + 1
  {
    if ms == [] then [Member(key, x)]
    else if ms[0].key == key then [Member(key, x)] + ms[1..]
    else [ms[0]] + Assign(ms[1..], key, x)
  }

  /** Python's `key in v`: a key of a dict, an element of a list, a substring of a str; `TypeError` otherwise. */
  function In(key: string, v: JsonValue): (r: Result<bool>)
    ensures r.Raise? <==> !(v.JObject? || v.JArray? || v.JString?)
    ensures v.JObject? ==> r == Ok(HasKey(v.members, key))
    ensures r.Raise? ==> r.error == TypeError
  {
    match v
    case JObject(ms) => Ok(HasKey(ms, key))
    case JArray(items) => Ok(JString(key) in items)
    case JString(s) => Ok(Text.Contains(s, key))
    case _ => Raise(TypeError)
  }

  /** Python's `v[key]` with a str key: `KeyError` on a dict without it, `TypeError` on anything that is not a dict. */
  function GetItem(v: JsonValue, key: string): (r: Result<JsonValue>)
    ensures r.Ok? <==> v.JObject? && HasKey(v.members, key)
    ensures r.Ok? ==> r.value == Lookup(v.members, key)
    ensures r == Raise(KeyError) <==> v.JObject? && !HasKey(v.members, key)
    ensures !v.JObject? ==> r == Raise(TypeError)
  {
    match v
    case JObject(ms) => if HasKey(ms, key) then Ok(Lookup(ms, key)) else Raise(KeyError)
    case _ => Raise(TypeError)
  }

  /** The value under `key` when `key in v` finds it, for code guarded by `if key in v`. */
  function Present(v: JsonValue, key: string): (r: Result<Option<JsonValue>>)
    ensures v.JObject? ==> r == Ok(Find(v.members, key))
    ensures r.Raise? ==> r.error == TypeError
  {
    match In(key, v)
    case Raise(e) => Raise(e)
    case Ok(false) => Ok(None)
    case Ok(true) =>
      match GetItem(v, key)
      case Raise(e) => Raise(e)
      case Ok(x) => Ok(Some(x))
  }

  /** What `for x in v` visits: a list's items, a dict's keys, a str's characters; `TypeError` otherwise. */
  function Iterate(v: JsonValue): (r: Result<seq<JsonValue>>)
    ensures r.Ok? <==> (v.JArray? || v.JObject? || v.JString?)
    ensures v.JArray? ==> r == Ok(v.items)
    ensures r.Ok? ==> Len(v) == Ok(|r.value|)
  {
    match v
    case JArray(items) => Ok(items)
    case JObject(ms) => Ok(seq(|ms|, i requires 0 <= i < |ms| => JString(ms[i].key)))
    case JString(s) => Ok(seq(|s|, i requires 0 <= i < |s| => JString([s[i]])))
    case _ => Raise(TypeError)
  }

  /** `d.get(key, default)` on a dict. */
  function MemberOr(ms: seq<Member>, key: string, default: JsonValue): (r: JsonValue)
    ensures Get(JObject(ms), key, default) == Ok(r)
    ensures HasKey(ms, key) ==> r == Lookup(ms, key)
    ensures !HasKey(ms, key) ==> r == default
  {
    if HasKey(ms, key) then Lookup(ms, key) else default
  }

  /** Python's `v.get(key, default)`: only dicts have it. */
  function Get(v: JsonValue, key: string, default: JsonValue): (r: Result<JsonValue>)
    ensures r.Raise? <==> !v.JObject?
    ensures v.JObject? && !HasKey(v.members, key) ==> r == Ok(default)
  {
    match v
    case JObject(ms) => Ok(if HasKey(ms, key) then Lookup(ms, key) else default)
    case _ => Raise(AttributeError)
  }

  /** Python's `v[key] = x` with a str key: only a dict accepts it. */
  function SetItem(v: JsonValue, key: string, x: JsonValue): (r: Result<JsonValue>)
    ensures r.Ok? <==> v.JObject?
    ensures r.Ok? ==> r.value.JObject? && GetItem(r.value, key) == Ok(x)
  {
    match v
    case JObject(ms) => Ok(JObject(Assign(ms, key, x)))
    case _ => Raise(TypeError)
  }

  /** Python's `len(v)`: str, list and dict only. */
  function Len(v: JsonValue): (r: Result<nat>)
    ensures r.Ok? <==> (v.JString? || v.JArray? || v.JObject?)
  {
    match v
    case JString(s) => Ok(|s|)
    case JArray(items) => Ok(|items|)
    case JObject(ms) => Ok(|ms|)
    case _ => Raise(TypeError)
  }

  /** The number a JSON value stands for in Python arithmetic (`bool` is a subclass of `int`). */
  function NumberOf(v: JsonValue): Option<real> {
    match v
    case JBool(b) => Some(if b then 1.0 else 0.0)
    case JInt(i) => Some(i as real)
    case JReal(r) => Some(r)
    case _ => None
  }

  /** Python's `v == n` for an int `n`: `True == 1` and `1.0 == 1` hold, `"1" == 1` does not. */
  predicate EqualsInt(v: JsonValue, n: int) {
    match v
    case JBool(b) => n == if b then 1 else 0
    case JInt(i) => i == n
    case JReal(r) => r == n as real
    case _ => false
  }

  /** Python's `v <= 0`: `TypeError` for anything that is not a number. */
  function AtMostZero(v: JsonValue): (r: Result<bool>)
    ensures r.Ok? <==> NumberOf(v).Some?
    ensures r.Ok? ==> r.value == (NumberOf(v).value <= 0.0)
  {
    match NumberOf(v)
    case Some(x) => Ok(x <= 0.0)
    case None => Raise(TypeError)
  }

  /** Python's `isinstance(v, int)`, true for booleans too. */
  predicate IsInt(v: JsonValue) {
    v.JInt? || v.JBool?
  }

  /** `v.strip()`: only a str has the method. */
  function StripValue(v: JsonValue): (r: Result<string>)
    ensures r.Ok? <==> v.JString?
    ensures r.Ok? ==> r.value == Text.Strip(v.s)
  {
    match v
    case JString(s) => Ok(Text.Strip(s))
    case _ => Raise(AttributeError)
  }
}
