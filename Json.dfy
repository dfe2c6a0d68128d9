/** The part of `serde_json::Value` the pipeline builds: objects of strings and small integers. */
module Json {

  /** A JSON value. Numbers are the integers the code writes (`json!(1)`); floats are not used. */
  datatype Json =
    | Null
    | Bool(b: bool)
    | Number(n: int)
    | String(s: string)
    | Array(items: seq<Json>)
    | Object(fields: map<string, Json>)
}
