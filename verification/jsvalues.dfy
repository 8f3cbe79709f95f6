/** The JavaScript value operations the report builder applies to loaded data: `Number(v)`,
    reading a property, `Object.keys`, and truthiness. Numbers are integers here. */
module JsValues {
  import opened Wrappers
  import opened Schema
  import Strings

  /** `Number(v)` restricted to integers; `None` is NaN. An array converts through its string
      form: empty is 0, one element converts like that element printed, two or more hold a
      comma and are NaN. */
  function ToNumber(v: Value): Option<int>
    decreases v, 0
  {
    match v
    case Undefined => None
    case Null => Some(0)
    case Bool(b) => Some(if b then 1 else 0)
    case Num(n) => Some(n)
    case Str(s) => Strings.NumberOf(s)
    case Obj(_) => None
    case Arr(items) =>
      if |items| == 0 then Some(0)
      else if |items| > 1 then None
      else ElementNumber(items[0])
  }

  /** `Number(String([a]))`: `null` and `undefined` print as the empty string inside an array,
      booleans and objects print as words. */
  function ElementNumber(a: Value): Option<int>
    decreases a, 1
  {
    match a
    case Undefined => Some(0)
    case Null => Some(0)
    case Bool(_) => None
    case Obj(_) => None
    case _ => ToNumber(a)
  }

  /** A canonical array index: digits without a leading zero. */
  function IndexOf(key: string): Option<nat> {
    if |key| >= 1 && Strings.AllDigits(key) && (|key| == 1 || key[0] != '0')
    then Some(Strings.DigitsValue(key)) else None
  }

  /** `item[key]`; `None` where the read throws. Arrays and strings answer `length` and their
      indices; numbers and booleans have no data properties. */
  function Property(item: Value, key: string): (r: Option<Value>)
    ensures r.None? <==> item.Null? || item.Undefined?
    ensures item.Obj? ==> r == Some(FieldValue(item.fields, key))
  {
    match item
    case Undefined => None
    case Null => None
    case Obj(fields) => Some(FieldValue(fields, key))
    case Arr(items) =>
      if key == "length" then Some(Num(|items|))
      else
        var i := IndexOf(key);
        Some(if i.Some? && i.value < |items| then items[i.value] else Undefined)
    case Str(s) =>
      if key == "length" then Some(Num(|s|))
      else
        var i := IndexOf(key);
        Some(if i.Some? && i.value < |s| then Str([s[i.value]]) else Undefined)
    case _ => Some(Undefined)
  }

  /** True when reading `key` from the row throws. */
  predicate Throws(row: Value) {
    row.Null? || row.Undefined?
  }

  /** `Object.keys(v)`; `None` where it throws. */
  function KeysOf(v: Value): (r: Option<seq<string>>)
    ensures r.None? <==> Throws(v)
    ensures v.Obj? ==> r == Some(FieldKeys(v.fields))
  {
    match v
    case Undefined => None
    case Null => None
    case Obj(fields) => Some(FieldKeys(fields))
    case Arr(items) => Some(seq(|items|, i requires 0 <= i < |items| => Strings.NatToString(i)))
    case Str(s) => Some(seq(|s|, i requires 0 <= i < |s| => Strings.NatToString(i)))
    case _ => Some([])
  }

  /** JavaScript truthiness: `undefined`, `null`, `false`, `0` and `""` are falsy. */
  predicate Truthy(v: Value) {
    match v
    case Undefined => false
    case Null => false
    case Bool(b) => b
    case Num(n) => n != 0
    case Str(s) => s != ""
    case _ => true
  }
}
