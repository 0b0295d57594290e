/** JSON values and the dictionaries the audit code passes around. */
module Json {

  datatype Json =
    | JNull
    | JBool(b: bool)
    | JNumber(n: real)
    | JString(s: string)
    | JArray(items: seq<Json>)
    | JObject(fields: map<string, Json>)

  /** A Python `dict` with string keys. A map has no key order, which is what `sort_keys=True` gives. */
  type Dict = map<string, Json>

  /** A dictionary object that callers share and that a callee may update in place. */
  class DictObject {
    var fields: Dict

    constructor (fields: Dict)
      ensures this.fields == fields
    {
      this.fields := fields;
    }
  }
}
