/** A small JSON value type for event payloads, and the checks the payload schemas are
    built from. A key that is absent stands for `undefined`. */
module Json {
  import opened Wrappers

  datatype Json =
    | JNull
    | JBool(b: bool)
    | JNum(n: int)
    | JStr(s: string)
    | JArr(items: seq<Json>)
    | JObj(fields: map<string, Json>)

  function Field(o: map<string, Json>, key: string): Option<Json> {
    if key in o then Some(o[key]) else None
  }

  /** `yup.string().required()`: present, a string, and not empty. */
  predicate RequiredString(o: map<string, Json>, key: string) {
    key in o && o[key].JStr? && o[key].s != ""
  }

  /** `yup.string().optional()`: absent, or a string (possibly empty). */
  predicate OptionalString(o: map<string, Json>, key: string) {
    key !in o || o[key].JStr?
  }

  /** `yup.number().required()`. */
  predicate RequiredNumber(o: map<string, Json>, key: string) {
    key in o && o[key].JNum?
  }

  /** `yup.mixed().required()`: present and not null. */
  predicate RequiredPresent(o: map<string, Json>, key: string) {
    key in o && o[key] != JNull
  }

  /** `yup.object(...).required()`, before the object's own fields are checked. */
  predicate RequiredObject(o: map<string, Json>, key: string) {
    key in o && o[key].JObj?
  }

  /** The string held at a key that a schema has already found to be a string. */
  function StringAt(o: map<string, Json>, key: string): string
    requires key in o && o[key].JStr?
  {
    o[key].s
  }
}
