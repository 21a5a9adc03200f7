/** The JSON values that nlohmann::json holds, restricted to integer numbers. */
module Json {
  import opened Types

  datatype Json =
    | JNull
    | JBool(b: bool)
    | JNumber(n: int64)
    | JString(str: string)
    | JArray(items: seq<Json>)
    | JObject(fields: map<string, Json>)

  /** The three keys every message envelope carries. */
  const ID_KEY: string := "id"
  const CONTENT_KEY: string := "content"
  const TIMESTAMP_KEY: string := "timestamp"
  const REQUIRED_KEYS: set<string> := {ID_KEY, CONTENT_KEY, TIMESTAMP_KEY}

  /** `j.contains(k)`: true only for an object that has the key. */
  predicate Contains(j: Json, k: string) {
    j.JObject? && k in j.fields
  }

  /** The envelope is an object and all three required keys are present. */
  predicate HasRequiredKeys(j: Json) {
    j.JObject? && REQUIRED_KEYS <= j.fields.Keys
  }

  /** The required keys are present and hold a string, a string and a number. */
  predicate HasRequiredTypes(j: Json) {
    && HasRequiredKeys(j)
    && j.fields[ID_KEY].JString?
    && j.fields[CONTENT_KEY].JString?
    && j.fields[TIMESTAMP_KEY].JNumber?
  }
}
