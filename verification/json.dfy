/**
 * JSON values as the Python scripts see them after `json.loads`, and the few
 * Python operations on them that the scripts use (`d[k]`, `d.get(k, default)`,
 * `k in d`, iteration, truthiness). A Python exception becomes `Raise`.
 */
module Json {

  /** A decoded JSON value. Numbers are mathematical reals; objects are maps. */
  datatype JValue =
    | JNull
    | JBool(b: bool)
    | JNum(x: real)
    | JStr(s: string)
    | JList(items: seq<JValue>)
    | JObj(fields: map<string, JValue>)

  /** The Python exceptions the modelled code can raise. */
  datatype PyError =
    | KeyError(key: string)
    | TypeError
    | AttributeError(attr: string)
    | IndexError

  /** A value, or the exception Python raised while computing it. */
  datatype Result<+T> = Ok(value: T) | Raise(error: PyError) {
    predicate IsFailure() {
      Raise?
    }

    function PropagateFailure<U>(): Result<U>
      requires Raise?
    {
      Raise(error)
    }

    function Extract(): T
      requires Ok?
    {
      value
    }
  }

  datatype Option<+T> = None | Some(value: T)

  /** Python truthiness (`if v:`): null, false, zero and empty containers are false. */
  predicate Truthy(v: JValue) {
    match v
    case JNull => false
    case JBool(b) => b
    case JNum(x) => x != 0.0
    case JStr(s) => s != ""
    case JList(items) => items != []
    case JObj(fields) => fields != map[]
  }

  /** `v[key]` with a string key: only a dict can be indexed by a string. */
  function Subscript(v: JValue, key: string): (r: Result<JValue>)
    ensures r.Ok? <==> v.JObj? && key in v.fields
    ensures r.Ok? ==> r.value == v.fields[key]
    ensures v.JObj? && key !in v.fields ==> r == Raise(KeyError(key))
  {
    match v
    case JObj(fields) => if key in fields then Ok(fields[key]) else Raise(KeyError(key))
    case _ => Raise(TypeError)
  }

  /** `v.get(key, default)`: only a dict has `get`. */
  function Get(v: JValue, key: string, default: JValue): (r: Result<JValue>)
    ensures r.Ok? <==> v.JObj?
    ensures v.JObj? && key in v.fields ==> r == Ok(v.fields[key])
    ensures v.JObj? && key !in v.fields ==> r == Ok(default)
  {
    match v
    case JObj(fields) => Ok(if key in fields then fields[key] else default)
    case _ => Raise(AttributeError("get"))
  }

  /** `sub` occurs in `s` as a contiguous piece (Python `sub in s` on strings). */
  predicate IsSubstring(sub: string, s: string)
    decreases |s|
  {
    sub <= s || (|s| > 0 && IsSubstring(sub, s[1..]))
  }

  /** `key in v`: dict membership, list element equality, substring on strings. */
  function Contains(v: JValue, key: string): (r: Result<bool>)
    ensures v.JObj? ==> r == Ok(key in v.fields)
    ensures r.Raise? <==> !(v.JObj? || v.JList? || v.JStr?)
  {
    match v
    case JObj(fields) => Ok(key in fields)
    case JList(items) => Ok(JStr(key) in items)
    case JStr(s) => Ok(IsSubstring(key, s))
    case _ => Raise(TypeError)
  }

  /**
   * `for x in v`: a list yields its items and a string its one-character
   * strings. Iterating a non-empty dict (which Python does over its keys, in
   * insertion order) is not modelled: maps here carry no order.
   */
  function Iterate(v: JValue): (r: Result<seq<JValue>>)
    ensures v.JList? ==> r == Ok(v.items)
    ensures r.Ok? <==> v.JList? || v.JStr? || v == JObj(map[])
  {
    match v
    case JList(items) => Ok(items)
    case JStr(s) => Ok(Characters(s))
    case JObj(fields) => if fields == map[] then Ok([]) else Raise(TypeError)
    case _ => Raise(TypeError)
  }

  /** The one-character strings of `s`, in order. */
  function Characters(s: string): (r: seq<JValue>)
    ensures |r| == |s|
    ensures forall i :: 0 <= i < |s| ==> r[i] == JStr([s[i]])
  {
    if s == [] then [] else [JStr([s[0]])] + Characters(s[1..])
  }

  /** The decimal text of a natural number, as Python's `str` prints an int. */
  function DecimalString(n: nat): (r: string)
    ensures |r| > 0
    ensures forall i :: 0 <= i < |r| ==> '0' <= r[i] <= '9'
  {
    var d := ['0', '1', '2', '3', '4', '5', '6', '7', '8', '9'];
    if n < 10 then [d[n]] else DecimalString(n / 10) + [d[n % 10]]
  }
}
