/** The JSON values a request body can carry, and the JavaScript coercions the handlers apply to them. */
module Json {
  import opened Wrappers
  import opened Text

  /** A parsed JSON value; numbers are kept to the integers. */
  datatype Json = JNull | JBool(b: bool) | JNum(n: int) | JStr(s: string) | JArr(items: seq<Json>) | JObj

  /** JavaScript truthiness (`!value` is false). */
  predicate Truthy(j: Json) {
    match j
    case JNull => false
    case JBool(b) => b
    case JNum(n) => n != 0
    case JStr(s) => s != ""
    case JArr(_) => true
    case JObj => true
  }

  /**
   * The string a string method such as `.trim()` or `.toLowerCase()` is called on; `None` when the value
   * is not a string, where the call throws a TypeError.
   */
  function StringArg(j: Json): (r: Option<string>)
    ensures r.Some? <==> j.JStr?
    ensures r.Some? ==> j == JStr(r.value)
  {
    if j.JStr? then Some(j.s) else None
  }

  /** The string that `+` with a string operand turns `j` into (`String(j)`). */
  function ToJsString(j: Json): string
    decreases j, 1
  {
    match j
    case JNull => "null"
    case JBool(b) => if b then "true" else "false"
    case JNum(n) => IntToDecimal(n)
    case JStr(s) => s
    case JArr(items) => ElementsToString(items, j)
    case JObj => "[object Object]"
  }

  /** `Array.prototype.toString`: the elements joined by commas, `null` elements as the empty string. */
  function ElementsToString(items: seq<Json>, whole: Json): string
    requires forall i :: 0 <= i < |items| ==> items[i] < whole
    decreases whole, 0, |items|
  {
    if items == [] then ""
    else
      var last := items[|items| - 1];
      var shown := if last.JNull? then "" else ToJsString(last);
      if |items| == 1 then shown
      else ElementsToString(items[..|items| - 1], whole) + "," + shown
  }
}
