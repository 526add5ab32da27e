/** JavaScript values as the translation core sees them: dictionaries parsed
    from JSON-like definitions, template fields and plural forms.  A value is a
    string, an array or a plain object; a missing property (`undefined`) is
    `None` of `Option<Value>`. */
module JsValues {

  datatype Option<+T> = None | Some(value: T)

  /** What a call can throw. */
  datatype Error =
    | TypeError   // a method is missing on the receiver (`.replace` on an object)
    | RangeError  // the call stack overflows (a template that refers to itself)

  datatype Result<+T> = Ok(value: T) | Err(error: Error) {
    predicate IsFailure() { Err? }

    function PropagateFailure<U>(): Result<U>
      requires Err?
    {
      Err(error)
    }

    function Extract(): T
      requires Ok?
    {
      value
    }
  }

  type Dict = map<string, Value>

  datatype Value =
    | Str(s: string)
    | Arr(items: seq<Value>)
    | Obj(entries: Dict)

  /** JavaScript truthiness: only the empty string is a falsy value here. */
  predicate IsTruthy(v: Value) {
    v.Str? ==> v.s != ""
  }

  /** Truthiness of a possibly-undefined value. */
  predicate Truthy(v: Option<Value>) {
    v.Some? && IsTruthy(v.value)
  }

  /** The `a || b` operator. */
  function Or(a: Option<Value>, b: Option<Value>): Option<Value> {
    if Truthy(a) then a else b
  }

  /** `typeof v === 'object'` for a value that is not null: arrays included. */
  predicate IsObject(v: Value) {
    v.Arr? || v.Obj?
  }

  /** Property access `m[k]` on a plain object. */
  function Get(m: Dict, k: string): Option<Value> {
    if k in m then Some(m[k]) else None
  }

  function DigitChar(d: nat): char
    requires d < 10
  {
    "0123456789"[d]
  }

  /** The decimal string of an array index, as `for…in` enumerates it. */
  function IndexKey(i: nat): (key: string)
    ensures |key| >= 1
    ensures forall j :: 0 <= j < |key| ==> '0' <= key[j] <= '9'
  {
    if i < 10 then [DigitChar(i)] else IndexKey(i / 10) + [DigitChar(i % 10)]
  }

  /** The own enumerable properties of an array: its elements under their index keys. */
  function ArrayRecord(items: seq<Value>): (r: Dict)
    ensures forall k :: k in r ==> r[k] in items
  {
    if items == [] then map[]
    else
      var n := |items| - 1;
      var r := ArrayRecord(items[..n])[IndexKey(n) := items[n]];
      assert forall k :: k in ArrayRecord(items[..n]) ==> ArrayRecord(items[..n])[k] in items[..n];
      r
  }

  /** The own enumerable properties of an object value, as `for…in` with
      `hasOwnProperty` sees them. */
  function Record(v: Value): (r: Dict)
    requires IsObject(v)
    ensures forall k :: k in r ==> r[k] < v
    ensures v.Obj? ==> r == v.entries
  {
    if v.Obj? then v.entries else ArrayRecord(v.items)
  }

  /** `String(v)`: how `String.prototype.replace` turns a replacer's
      non-string result into text. */
  function ToJsString(v: Value): string {
    match v
    case Str(s) => s
    case Obj(_) => "[object Object]"
    case Arr(items) => JoinStrings(items, v)
  }

  /** `items.join(',')` where every element is converted by `ToJsString`. */
  function JoinStrings(items: seq<Value>, ghost whole: Value): string
    requires forall x :: x in items ==> x < whole
    decreases whole, |items|
  {
    if items == [] then ""
    else
      assert items[0] in items;
      if |items| == 1 then ToJsString(items[0])
      else
        assert forall x :: x in items[1..] ==> x in items;
        ToJsString(items[0]) + "," + JoinStrings(items[1..], whole)
  }
}
