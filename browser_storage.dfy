/** `window.localStorage`, as the front end uses it: string items under
    string keys. An item's text is either what `JSON.stringify` makes of a
    value or some text that is not JSON at all, which is all `JSON.parse`
    can tell apart. */
module BrowserStorage {
  import opened Wrappers
  import opened Json

  datatype StoredText = Serialized(value: Value) | Malformed(text: string)

  /** `if (stored)`: a missing item (`null`) and the empty string are falsy;
      a serialisation is never empty. */
  predicate IsPresent(item: Option<StoredText>) {
    item.Some? && (item.value.Serialized? || item.value.text != "")
  }

  /** `JSON.parse(text)`: a serialisation gives back its value, other text
      throws a SyntaxError. */
  function Parse(t: StoredText): (r: Result<Value, string>)
    ensures r.Ok? <==> t.Serialized?
    ensures t.Serialized? ==> r.value == t.value
  {
    match t
    case Serialized(v) => Ok(v)
    case Malformed(_) => Err("SyntaxError")
  }

  class Store {
    var items: map<string, StoredText>

    constructor (initial: map<string, StoredText>)
      ensures items == initial
    {
      items := initial;
    }

    /** `getItem(key)`: `null` for a missing key. */
    function GetItem(key: string): (r: Option<StoredText>)
      reads this
      ensures r.Some? <==> key in items
      ensures r.Some? ==> r.value == items[key]
    {
      if key in items then Some(items[key]) else None
    }

    method SetItem(key: string, text: StoredText)
      modifies this
      ensures items == old(items)[key := text]
    {
      items := items[key := text];
    }

    method RemoveItem(key: string)
      modifies this
      ensures items == old(items) - {key}
    {
      items := items - {key};
    }
  }
}
