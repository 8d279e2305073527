/** JSON values as the client sees them after `JSON.parse`, with the two
    JavaScript conversions the client applies to them: truthiness (`if (x)`)
    and string conversion (`'...' + x`). Numbers are modelled as integers. */
module Json {
  import opened Options
  import opened Text

  datatype Json =
    | JNull
    | JBool(b: bool)
    | JNum(n: int)
    | JStr(s: string)
    | JArr(items: seq<Json>)
    | JObj(fields: seq<(string, Json)>)

  /** Index of the last binding of `key` among `fields`, if any. */
  function LastIndexOf(fields: seq<(string, Json)>, key: string): (r: Option<nat>)
    ensures r.None? <==> forall i :: 0 <= i < |fields| ==> fields[i].0 != key
    ensures r.Some? ==> r.value < |fields| && fields[r.value].0 == key
    ensures r.Some? ==> forall i :: r.value < i < |fields| ==> fields[i].0 != key
    decreases |fields|
  {
    if fields == [] then None
    else if fields[|fields| - 1].0 == key then Some(|fields| - 1)
    else LastIndexOf(fields[..|fields| - 1], key)
  }

  /** Property access `j.key`: the value of the last binding of `key` in an
      object (`JSON.parse` keeps the last of duplicate keys); `undefined` for
      a missing key and for every other non-null value. Reading a property
      of `null` throws, so callers decide that case before calling. */
  function Get(j: Json, key: string): (r: Option<Json>)
    requires !j.JNull?
    ensures r.Some? <==> j.JObj? && LastIndexOf(j.fields, key).Some?
    ensures r.Some? ==> r.value == j.fields[LastIndexOf(j.fields, key).value].1
  {
    if j.JObj? then
      match LastIndexOf(j.fields, key)
      case Some(i) => Some(j.fields[i].1)
      case None => None
    else None
  }

  /** JavaScript truthiness of a possibly undefined value. */
  predicate Truthy(v: Option<Json>) {
    match v
    case None => false
    case Some(JNull) => false
    case Some(JBool(b)) => b
    case Some(JNum(n)) => n != 0
    case Some(JStr(s)) => s != ""
    case Some(JArr(_)) => true
    case Some(JObj(_)) => true
  }

  /** JavaScript `String(v)`, which is also what `'text' + v` appends. */
  function JsString(v: Option<Json>): string {
    match v
    case None => "undefined"
    case Some(j) => JsonText(j)
  }

  function JsonText(j: Json): string
    decreases j, 0
  {
    match j
    case JNull => "null"
    case JBool(b) => if b then "true" else "false"
    case JNum(n) => IntToString(n)
    case JStr(s) => s
    case JArr(items) => CommaJoin(seq(|items|, i requires 0 <= i < |items| => ElementText(items[i])))
    case JObj(_) => "[object Object]"
  }

  /** `Array.prototype.join` renders a null element as the empty string. */
  function ElementText(j: Json): string
    decreases j, 1
  {
    if j.JNull? then "" else JsonText(j)
  }

  function CommaJoin(parts: seq<string>): string {
    if |parts| == 0 then ""
    else if |parts| == 1 then parts[0]
    else parts[0] + "," + CommaJoin(parts[1..])
  }
}
