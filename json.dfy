/** JSON-shaped JavaScript values as the handlers and forms see them after `JSON.parse`. */
module Json {
  import opened Wrappers
  import opened Assoc
  import Decimal
  import Text

  /** Numbers are integers in this model (fractional numbers are not modelled). Objects keep insertion order. */
  datatype Value =
    | JNull
    | JBool(b: bool)
    | JNum(n: int)
    | JStr(s: string)
    | JArr(items: seq<Value>)
    | JObj(fields: Dict<Value>)

  /** JavaScript truthiness of a possibly-`undefined` value (None is `undefined`). */
  predicate Truthy(v: Option<Value>) {
    match v
    case None => false
    case Some(JNull) => false
    case Some(JBool(b)) => b
    case Some(JNum(n)) => n != 0
    case Some(JStr(s)) => s != ""
    case Some(_) => true
  }

  /** Reading property `k` of a value that is not `null`: objects look the key up, other values have none of the keys used here. */
  function Field(v: Value, k: string): Option<Value> {
    if v.JObj? then Get(v.fields, k) else None
  }

  /** `String(v)`. */
  function ToJsString(v: Value): string {
    match v
    case JNull => "null"
    case JBool(b) => if b then "true" else "false"
    case JNum(n) => Decimal.IntToString(n)
    case JStr(s) => s
    case JArr(items) =>
      Text.Join(seq(|items|, i requires 0 <= i < |items| => if items[i] == JNull then "" else ToJsString(items[i])), ",")
    case JObj(_) => "[object Object]"
  }

  /** `Number(s)` on a string, restricted to integers: white space around is ignored, a blank string is 0,
      an optionally negative run of decimal digits is its value, anything else is `NaN` (None). */
  function StringToNumber(s: string): Option<int> {
    var t := Text.Trim(s);
    if t == "" then Some(0) else Decimal.ParseDecimal(t)
  }

  /** A non-empty string without white space is its own trim. */
  lemma TrimNoSpace(s: string)
    requires s != [] && forall i :: 0 <= i < |s| ==> !Text.IsSpace(s[i])
    ensures Text.Trim(s) == s
  {
  }

  /** What `Number(String(n))` gives back. */
  lemma StringToNumberOfInt(n: int)
    ensures StringToNumber(Decimal.IntToString(n)) == Some(n)
  {
    var s := Decimal.IntToString(n);
    Decimal.IntToStringRoundTrip(n);
    assert forall i :: 0 <= i < |s| ==> !Text.IsSpace(s[i]) by {
      forall i | 0 <= i < |s| ensures !Text.IsSpace(s[i]) {
        if n < 0 && i > 0 {
          assert s[i] == Decimal.NatToString(-n)[i - 1];
        }
      }
    }
    TrimNoSpace(s);
  }
}
