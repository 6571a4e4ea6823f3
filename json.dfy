/** The values `json.loads` produces, and the conversions between them and the
    plain string dictionaries the scraper stores. */
module JsonValues {
  import opened Wrappers

  datatype Json =
    | JNull
    | JBool(b: bool)
    | JNumber(n: real)
    | JString(s: string)
    | JArray(items: seq<Json>)
    | JObject(fields: map<string, Json>)

  /** `{}`. */
  const EmptyObject: Json := JObject(map[])

  /** A dictionary of texts as a JSON object. */
  function TextObject(m: map<string, string>): (j: Json)
    ensures j.JObject? && j.fields.Keys == m.Keys
    ensures forall k :: k in m ==> j.fields[k] == JString(m[k])
  {
    JObject(map k | k in m :: JString(m[k]))
  }

  /** Reads a JSON object whose values are all texts back as a dictionary. */
  function TextsOf(j: Json): (r: Option<map<string, string>>)
    ensures r.Some? <==> j.JObject? && forall k :: k in j.fields ==> j.fields[k].JString?
    ensures r.Some? ==> r.value.Keys == j.fields.Keys && forall k :: k in r.value ==> j.fields[k] == JString(r.value[k])
  {
    if j.JObject? && forall k :: k in j.fields ==> j.fields[k].JString? then
      Some(map k | k in j.fields :: j.fields[k].s)
    else None
  }

  /** Reading back a dictionary of texts written as JSON gives the dictionary. */
  lemma TextsOfTextObject(m: map<string, string>)
    ensures TextsOf(TextObject(m)) == Some(m)
  {
    var r := TextsOf(TextObject(m));
    assert r.value == m;
  }

  /** `value[key]` on a loaded JSON value: a non-object raises `TypeError`, a
      missing key `KeyError`. */
  function Lookup(value: Json, key: string): (r: Result<Json>)
    ensures r.Success? <==> value.JObject? && key in value.fields
    ensures r.Success? ==> r.value == value.fields[key]
    ensures !value.JObject? ==> r == Failure(TypeError)
    ensures value.JObject? && key !in value.fields ==> r == Failure(KeyError)
  {
    match value
    case JObject(fields) => if key in fields then Success(fields[key]) else Failure(KeyError)
    case _ => Failure(TypeError)
  }
}
