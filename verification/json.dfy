/** A parsed JSON value, as org.json's `JSONTokener.nextValue()` hands it over, and the lenient
    `has`/`opt*` accessors of `JSONObject` that the API client reads fields with. */
module Json {
  import opened Wrappers
  import opened Text

  datatype Json =
    | JNull
    | JBool(b: bool)
    | JInt(i: int)
    | JReal(r: real)
    | JString(s: string)
    | JArray(items: seq<Json>)
    | JObject(fields: map<string, Json>)

  /** The fields of a `JSONObject`. */
  type Obj = map<string, Json>

  /** A response body: blank text, text the tokenizer turned into a value, or text it rejected
      (the tokenizer throws a `JSONException`). */
  datatype Body = Blank | Parsed(value: Json) | Malformed

  /** `Number.intValue()` of a double: truncation toward zero. */
  function TruncateToInt(x: real): (r: int)
    ensures x >= 0.0 ==> 0 <= r && r as real <= x < r as real + 1.0
    ensures x < 0.0 ==> r <= 0 && r as real - 1.0 < x <= r as real
  {
    if x >= 0.0 then x.Floor else -((-x).Floor)
  }

  /** `optString(key, fallback)` as the Android platform implements it: the fallback only when
      the key is absent; the text of a string; the literal text `null` for JSON null and `true` /
      `false` for a boolean; and for a number, array or object its `toString()`, which is
      org.json's own rendering and is passed in as `render`. */
  function OptString(o: Obj, key: string, fallback: string, render: Json -> string): (r: string)
    ensures key !in o ==> r == fallback
    ensures key in o && o[key].JString? ==> r == o[key].s
    ensures key in o && o[key].JNull? ==> r == "null"
    ensures key in o && o[key].JBool? ==> r == (if o[key].b then "true" else "false")
  {
    if key !in o then fallback
    else match o[key]
      case JNull => "null"
      case JBool(b) => if b then "true" else "false"
      case JString(s) => s
      case v => render(v)
  }

  /** `optInt(key, fallback)` (and `optLong`): a number truncated toward zero, a string holding an
      integer literal parsed, and the fallback for anything else. */
  function OptInt(o: Obj, key: string, fallback: int): (r: int)
    ensures key !in o ==> r == fallback
    ensures key in o && o[key].JInt? ==> r == o[key].i
    ensures key in o && (o[key].JNull? || o[key].JBool? || o[key].JArray? || o[key].JObject?) ==> r == fallback
    ensures key in o && o[key].JString? ==> r == ParseInt(o[key].s).GetOr(fallback)
    ensures key in o && o[key].JReal? ==> r == TruncateToInt(o[key].r)
  {
    if key !in o then fallback
    else match o[key]
      case JInt(i) => i
      case JReal(x) => TruncateToInt(x)
      case JString(s) => ParseInt(s).GetOr(fallback)
      case _ => fallback
  }

  /** `optDouble(key, NaN)`, with NaN written as `None`. */
  function OptDouble(o: Obj, key: string): (r: Option<real>)
    ensures key !in o ==> r == None
    ensures key in o && o[key].JReal? ==> r == Some(o[key].r)
    ensures key in o && o[key].JInt? ==> r == Some(o[key].i as real)
    ensures key in o && (o[key].JNull? || o[key].JBool? || o[key].JArray? || o[key].JObject?) ==> r == None
    ensures key in o && o[key].JString? ==>
      (r.Some? <==> ParseInt(o[key].s).Some?) && (r.Some? ==> r.value == ParseInt(o[key].s).value as real)
  {
    if key !in o then None
    else match o[key]
      case JInt(i) => Some(i as real)
      case JReal(x) => Some(x)
      case JString(s) => (match ParseInt(s) case Some(i) => Some(i as real) case None => None)
      case _ => None
  }
}
