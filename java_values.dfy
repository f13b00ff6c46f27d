/**
 The untyped JSON values a JAX-RS endpoint receives in a `Map<String, Object>`, and the
 Java operations the search endpoint applies to them: `Map.get`, `Map.getOrDefault`, the
 cast `(String)` and `((Number) v).intValue()`, with the exceptions they throw.
 */
module JavaValues {
  import opened Wrappers

  /**
   A decoded JSON value. JNull is JSON `null`; JInt an integral number (Integer, Long or
   BigInteger after decoding); JList an array, whose elements may be of any shape;
   JOther a boolean or an object.
   */
  datatype JValue =
    | JNull
    | JStr(s: string)
    | JInt(n: int)
    | JList(items: seq<JValue>)
    | JOther

  type JsonObject = map<string, JValue>

  /** The exceptions the endpoint can throw while reading its parameters. */
  datatype JavaException =
    | ClassCastException
    | NullPointerException
    | IllegalArgumentException(message: string)

  const INT_MIN: int := -0x8000_0000
  const INT_MAX: int := 0x7fff_ffff

  /** `map.get(key)`: JSON null for an absent key as well as for a key bound to null. */
  function Get(m: JsonObject, key: string): JValue
  {
    if key in m then m[key] else JNull
  }

  /**
   `map.getOrDefault(key, d)`: the default only for an ABSENT key; a key bound to JSON null
   yields null, not the default.
   */
  function GetOrDefault(m: JsonObject, key: string, d: JValue): JValue
  {
    if key in m then m[key] else d
  }

  /** `(String) v`: None stands for a null reference. */
  function CastToString(v: JValue): (r: Result<Option<string>, JavaException>)
    ensures r.Ok? <==> v.JNull? || v.JStr?
    ensures r == Ok(None) <==> v == JNull
    ensures v.JStr? ==> r == Ok(Some(v.s))
    ensures r.Err? ==> r.error == ClassCastException
  {
    match v
    case JNull => Ok(None)
    case JStr(s) => Ok(Some(s))
    case _ => Err(ClassCastException)
  }

  /** The low 32 bits of n read as a two's-complement `int`, as `Number.intValue()` keeps them. */
  function Int32(n: int): (r: int)
    ensures INT_MIN <= r <= INT_MAX
    ensures (r - n) % 0x1_0000_0000 == 0
    ensures INT_MIN <= n <= INT_MAX ==> r == n
  {
    (n - INT_MIN) % 0x1_0000_0000 + INT_MIN
  }

  /** `((Number) v).intValue()`. */
  function IntValue(v: JValue): (r: Result<int, JavaException>)
    ensures r.Ok? <==> v.JInt?
    ensures r.Ok? ==> INT_MIN <= r.value <= INT_MAX
    ensures v.JInt? ==> r == Ok(Int32(v.n))
    ensures v.JInt? && INT_MIN <= v.n <= INT_MAX ==> r == Ok(v.n)
    ensures v.JNull? ==> r == Err(NullPointerException)
    ensures !v.JNull? && !v.JInt? ==> r == Err(ClassCastException)
  {
    match v
    case JNull => Err(NullPointerException)
    case JInt(n) => Ok(Int32(n))
    case _ => Err(ClassCastException)
  }
}
