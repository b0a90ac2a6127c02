/** JSON values as JavaScript sees them after `res.json()`, with the two rules of the
    language that the extension leans on: truthiness and property access. */
module Json {
  import opened JsStrings

  datatype Option<+T> = None | Some(value: T)

  /** A parsed JSON value. Numbers are integral: fractional numbers are not modelled. */
  datatype Json =
    | JNull
    | JBool(b: bool)
    | JNum(n: int)
    | JStr(s: string)
    | JArr(items: seq<Json>)
    | JObj(fields: map<string, Json>)

  /** JavaScript truthiness: `null`, `false`, `0` and `""` are falsy; arrays and objects,
      even empty ones, are truthy. */
  predicate Truthy(j: Json)
  {
    match j
    case JNull => false
    case JBool(b) => b
    case JNum(n) => n != 0
    case JStr(s) => s != ""
    case JArr(_) => true
    case JObj(_) => true
  }

  /** `j[key]` on a value that is not null: `None` stands for `undefined`. Arrays, strings,
      numbers and booleans have none of the keys the extension reads. */
  function Get(j: Json, key: string): (r: Option<Json>)
    ensures r.Some? <==> j.JObj? && key in j.fields
    ensures r.Some? ==> r.value == j.fields[key]
  {
    if j.JObj? && key in j.fields then Some(j.fields[key]) else None
  }

  /** `j[key]` used as a condition: present and truthy. */
  predicate TruthyAt(j: Json, key: string)
  {
    Get(j, key).Some? && Truthy(Get(j, key).value)
  }

  /** `String(j)`, the coercion applied when a value is assigned to a DOM string property. */
  function ToJsString(j: Json): (r: string)
    ensures j.JStr? ==> r == j.s
    decreases j
  {
    match j
    case JNull => "null"
    case JBool(b) => if b then "true" else "false"
    case JNum(n) => IntToString(n)
    case JStr(s) => s
    case JArr(items) =>
      // `Array.prototype.join(",")`: null elements print as the empty string
      JoinComma(seq(|items|, i requires 0 <= i < |items| =>
                      if items[i].JNull? then "" else ToJsString(items[i])))
    case JObj(_) => "[object Object]"
  }

  function JoinComma(parts: seq<string>): string
  {
    if parts == [] then ""
    else if |parts| == 1 then parts[0]
    else parts[0] + "," + JoinComma(parts[1..])
  }
}
