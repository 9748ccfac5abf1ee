/** The values the front end receives from `JSON.parse`, plus `undefined`
    (what reading a missing property gives), with the JavaScript conversions
    the modelled code applies to them. */
module Json {
  import opened Text

  datatype Value =
    | Null
    | Undefined
    | Bool(b: bool)
    | Num(n: int)
    | Str(s: string)
    | Arr(items: seq<Value>)
    | Obj(fields: map<string, Value>)

  predicate IsNullish(v: Value) {
    v.Null? || v.Undefined?
  }

  /** JavaScript truthiness (`if (v)`, `v || w`, `v && w`). */
  predicate Truthy(v: Value) {
    match v
    case Null => false
    case Undefined => false
    case Bool(b) => b
    case Num(n) => n != 0
    case Str(s) => s != ""
    case Arr(_) => true
    case Obj(_) => true
  }

  /** Property access `v.key` (or `v?.key`) on a value that is not null or
      undefined; a key the value does not have reads as `undefined`. Reading
      a property of null or undefined throws, and callers check
      `IsNullish` first where the source does not use `?.`. */
  function Field(v: Value, key: string): (r: Value)
    ensures r != Undefined ==> v.Obj? && key in v.fields && v.fields[key] == r
  {
    if v.Obj? && key in v.fields then v.fields[key] else Undefined
  }

  function JoinWith(parts: seq<string>, sep: string): string {
    if parts == [] then "" else if |parts| == 1 then parts[0]
    else parts[0] + sep + JoinWith(parts[1..], sep)
  }

  /** `String(v)`: arrays are joined with "," with null and undefined
      elements written as the empty string, and every object is
      "[object Object]". */
  function StringForm(v: Value): string
    decreases v
  {
    match v
    case Null => "null"
    case Undefined => "undefined"
    case Bool(b) => if b then "true" else "false"
    case Num(n) => IntToString(n)
    case Str(s) => s
    case Arr(items) => JoinWith(ElementForms(v), ",")
    case Obj(_) => "[object Object]"
  }

  /** The strings `Array.prototype.join` writes for the elements of an array. */
  function ElementForms(v: Value): (r: seq<string>)
    requires v.Arr?
    ensures |r| == |v.items|
    decreases v, 1
  {
    FormsFrom(v, 0)
  }

  function FormsFrom(v: Value, i: nat): (r: seq<string>)
    requires v.Arr? && i <= |v.items|
    ensures |r| == |v.items| - i
    decreases v, 0, |v.items| - i
  {
    if i == |v.items| then []
    else [if IsNullish(v.items[i]) then "" else StringForm(v.items[i])] + FormsFrom(v, i + 1)
  }
}
