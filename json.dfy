/** The parsed JSON document as the agent sees it through the parson library.
    Parsing itself is not modelled: a document arrives already parsed (or as
    None when parsing failed). The accessors below return what parson's
    getters return, including their fallbacks for a missing key or a value of
    the wrong type, because the agent's behaviour depends on those fallbacks. */
module Json {
  import opened Base

  /** A JSON value (RFC 8259). Numbers are parson doubles, kept here as reals. */
  datatype Json =
    | JNull
    | JBool(b: bool)
    | JNumber(r: real)
    | JString(s: string)
    | JArray(items: seq<Json>)
    | JObject(members: map<string, Json>)

  /** A `JSON_Object *` that is not NULL. */
  type Object = map<string, Json>

  /** json_value_get_object: the object behind a value, NULL for anything else. */
  function AsObject(v: Json): (r: Option<Object>)
    ensures r.Some? <==> v.JObject?
    ensures r.Some? ==> r.value == v.members
  {
    if v.JObject? then Some(v.members) else None
  }

  /** json_object_has_value: false on a NULL object; a JSON null counts as a value. */
  function HasValue(obj: Option<Object>, key: string): (r: bool)
    ensures r <==> obj.Some? && key in obj.value
  {
    obj.Some? && key in obj.value
  }

  /** json_object_get_number: 0 when the object is NULL, the key is absent or the
      value is not a number. */
  function GetNumber(obj: Option<Object>, key: string): (r: real)
    ensures r != 0.0 ==> HasValue(obj, key) && obj.value[key] == JNumber(r)
    ensures HasValue(obj, key) && obj.value[key].JNumber? ==> r == obj.value[key].r
  {
    if HasValue(obj, key) && obj.value[key].JNumber? then obj.value[key].r else 0.0
  }

  /** json_object_get_boolean: 1 or 0 for a boolean, -1 for anything else
      (NULL object, absent key, value of another type). */
  function GetBoolean(obj: Option<Object>, key: string): (r: int)
    ensures r == 1 <==> HasValue(obj, key) && obj.value[key] == JBool(true)
    ensures r == 0 <==> HasValue(obj, key) && obj.value[key] == JBool(false)
    ensures r == -1 <==> !(HasValue(obj, key) && obj.value[key].JBool?)
  {
    if HasValue(obj, key) && obj.value[key].JBool? then (if obj.value[key].b then 1 else 0) else -1
  }

  /** json_object_get_object (and json_object_dotget_object for a name without
      dots): the nested object, NULL when absent or not an object. */
  function GetObject(obj: Option<Object>, key: string): (r: Option<Object>)
    ensures r.Some? <==> HasValue(obj, key) && obj.value[key].JObject?
    ensures r.Some? ==> r.value == obj.value[key].members
  {
    if HasValue(obj, key) then AsObject(obj.value[key]) else None
  }

  /** C's conversion of an `int` to `bool`: any non-zero value is true, so
      parson's -1 ("not a boolean") reads as true. */
  function IntToBool(i: int): (b: bool)
    ensures b <==> i != 0
  {
    i != 0
  }

  /** C's `(int)` cast of a double: truncation toward zero. */
  function TruncateToInt(r: real): (i: int)
    ensures 0.0 <= r ==> 0 <= i && i as real <= r < i as real + 1.0
    ensures r < 0.0 ==> i <= 0 && i as real - 1.0 < r <= i as real
  {
    if r >= 0.0 then r.Floor else -((-r).Floor)
  }
}
