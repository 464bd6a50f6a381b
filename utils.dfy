/** The two recursive transforms used to store survey answers (numbers as strings) and read them back, and the range check. */
module Utils {
  import opened Wrappers
  import opened Assoc
  import opened Json
  import Decimal

  /** No number anywhere inside the value. */
  predicate NoNumbers(v: Value) {
    match v
    case JNum(_) => false
    case JArr(items) => forall i :: 0 <= i < |items| ==> NoNumbers(items[i])
    case JObj(fields) => forall i :: 0 <= i < |fields| ==> NoNumbers(fields[i].1)
    case _ => true
  }

  /** `stringifyNumbers`: every number becomes its decimal string; arrays keep length and order, objects keep their keys. */
  function StringifyNumbers(v: Value): (r: Value)
    ensures NoNumbers(r)
    ensures v.JArr? <==> r.JArr?
    ensures v.JObj? <==> r.JObj?
    ensures v.JArr? ==> |r.items| == |v.items|
    ensures v.JObj? ==> Keys(r.fields) == Keys(v.fields)
    ensures v.JNum? ==> r == JStr(Decimal.IntToString(v.n))
    ensures v.JNull? || v.JBool? || v.JStr? ==> r == v
  {
    match v
    case JArr(items) =>
      JArr(seq(|items|, i requires 0 <= i < |items| => StringifyNumbers(items[i])))
    case JObj(fields) =>
      JObj(seq(|fields|, i requires 0 <= i < |fields| => (fields[i].0, StringifyNumbers(fields[i].1))))
    case JNum(n) => JStr(Decimal.IntToString(n))
    case _ => v
  }

  /** The test `parseNumbers` applies to a value stored under object key `key`. */
  predicate ConvertsUnder(key: string, v: Value) {
    key != "openEnded" && v.JStr? && v.s != "" && StringToNumber(v.s).Some?
  }

  /** One entry of an object as `parseNumbers` rewrites it. */
  function ParseField(key: string, v: Value): Value {
    if ConvertsUnder(key, v) then JNum(StringToNumber(v.s).value) else ParseNumbers(v)
  }

  /** `parseNumbers`: numeric strings held directly under object keys other than "openEnded" become numbers;
      strings directly inside arrays, or at top level, are left alone. */
  function ParseNumbers(v: Value): (r: Value)
    ensures v.JArr? <==> r.JArr?
    ensures v.JObj? <==> r.JObj?
    ensures v.JArr? ==> |r.items| == |v.items|
    ensures v.JObj? ==> Keys(r.fields) == Keys(v.fields)
    ensures !v.JArr? && !v.JObj? ==> r == v
    // a string directly inside an array is kept as it is
    ensures v.JArr? ==> forall i :: 0 <= i < |v.items| && v.items[i].JStr? ==> r.items[i] == v.items[i]
    // a string under a key becomes the number it spells when the key is not "openEnded", and is kept otherwise
    ensures v.JObj? ==> forall i :: 0 <= i < |v.fields| && v.fields[i].1.JStr? ==>
      r.fields[i].1 == if ConvertsUnder(v.fields[i].0, v.fields[i].1) then JNum(StringToNumber(v.fields[i].1.s).value)
                       else v.fields[i].1
  {
    match v
    case JArr(items) =>
      JArr(seq(|items|, i requires 0 <= i < |items| => ParseNumbers(items[i])))
    case JObj(fields) =>
      JObj(seq(|fields|, i requires 0 <= i < |fields| => (fields[i].0, if ConvertsUnder(fields[i].0, fields[i].1) then JNum(StringToNumber(fields[i].1.s).value) else ParseNumbers(fields[i].1))))
    case _ => v
  }

  /** Where a value sits: at the top, directly inside an array, or under an object key. */
  datatype Slot = Top | InArray | Under(key: string)

  /** The data `parseNumbers(stringifyNumbers(x))` gives back unchanged: numbers only directly under object keys
      other than "openEnded", and no string there that `Number` would read as a number. */
  predicate Portable(v: Value, slot: Slot) {
    match v
    case JNum(_) => slot.Under? && slot.key != "openEnded"
    case JStr(s) => !(slot.Under? && ConvertsUnder(slot.key, v))
    case JArr(items) => forall i :: 0 <= i < |items| ==> Portable(items[i], InArray)
    case JObj(fields) => forall i :: 0 <= i < |fields| ==> Portable(fields[i].1, Under(fields[i].0))
    case _ => true
  }

  /** How `parseNumbers` treats a value in a given slot. */
  function ParseIn(v: Value, slot: Slot): Value {
    if slot.Under? then ParseField(slot.key, v) else ParseNumbers(v)
  }

  lemma {:induction false} RoundTripIn(v: Value, slot: Slot)
    requires Portable(v, slot)
    ensures ParseIn(StringifyNumbers(v), slot) == v
  {
    match v
    case JNum(n) =>
      StringToNumberOfInt(n);
    case JArr(items) =>
      var r := StringifyNumbers(v);
      forall i | 0 <= i < |items| ensures ParseNumbers(r.items[i]) == items[i] {
        RoundTripIn(items[i], InArray);
      }
      assert ParseNumbers(r).items == items;
    case JObj(fields) =>
      var r := StringifyNumbers(v);
      forall i | 0 <= i < |fields| ensures ParseField(fields[i].0, r.fields[i].1) == fields[i].1 {
        RoundTripIn(fields[i].1, Under(fields[i].0));
      }
      assert ParseNumbers(r).fields == fields;
    case _ =>
  }

  /** Storing survey answers and reading them back is the identity on portable data. */
  lemma RoundTrip(v: Value)
    requires Portable(v, Top)
    ensures ParseNumbers(StringifyNumbers(v)) == v
  {
    RoundTripIn(v, Top);
  }

  /** A number placed directly in an array does not survive the round trip: it comes back as a string. */
  lemma NumberInArrayStaysString()
    ensures ParseNumbers(StringifyNumbers(JArr([JNum(3)]))) == JArr([JStr("3")])
  {
    var r := StringifyNumbers(JArr([JNum(3)]));
    assert r.items[0] == JStr(Decimal.IntToString(3));
    assert Decimal.IntToString(3) == "3";
  }

  /** `Number(value)` for any JSON value, restricted to integers; None is `NaN`. */
  function ToNumber(v: Value): Option<int> {
    match v
    case JNull => Some(0)
    case JBool(b) => Some(if b then 1 else 0)
    case JNum(n) => Some(n)
    case JStr(s) => StringToNumber(s)
    case JArr(_) => StringToNumber(ToJsString(v))
    case JObj(_) => None
  }

  /** `isValidNumberInRange(value, min, max)`. */
  function IsValidNumberInRange(value: Value, min: int, max: int): (ok: bool)
    ensures ok <==> exists n :: ToNumber(value) == Some(n) && min <= n <= max
  {
    var num := ToNumber(value);
    num.Some? && min <= num.value && num.value <= max
  }

  /** The range check on the values a handler meets: an integer passes iff it lies between the bounds, whether
      it arrives as a number or as its decimal string; `null`, `""` and `false` are read as 0 and `true` as 1;
      an object never passes. */
  lemma RangeCheckReadsNumbers(n: int, min: int, max: int, fields: seq<(string, Value)>)
    ensures IsValidNumberInRange(JNum(n), min, max) <==> min <= n <= max
    ensures IsValidNumberInRange(JStr(Decimal.IntToString(n)), min, max) <==> min <= n <= max
    ensures IsValidNumberInRange(JNull, min, max) <==> min <= 0 <= max
    ensures IsValidNumberInRange(JStr(""), min, max) <==> min <= 0 <= max
    ensures IsValidNumberInRange(JBool(false), min, max) <==> min <= 0 <= max
    ensures IsValidNumberInRange(JBool(true), min, max) <==> min <= 1 <= max
    ensures !IsValidNumberInRange(JObj(fields), min, max)
  {
    StringToNumberOfInt(n);
  }
}
