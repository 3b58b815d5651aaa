/**
  `window.localStorage` as the components use it: a map from string keys to
  string values, read with `getItem` and written with `setItem`.
*/
module BrowserStorage {
  import opened Wrappers

  class Storage {
    var items: map<string, string>

    constructor (initial: map<string, string>)
      ensures items == initial
    {
      items := initial;
    }

    /** `localStorage.setItem(key, value)`: only `key` changes. */
    method SetItem(key: string, value: string)
      modifies this
      ensures items == old(items)[key := value]
    {
      items := items[key := value];
    }
  }

  /** `localStorage.getItem(key)`: `None` is the `null` of an absent key. */
  function GetItem(items: map<string, string>, key: string): (r: Option<string>)
    ensures r.Some? <==> key in items
    ensures r.Some? ==> r.value == items[key]
  {
    if key in items then Some(items[key]) else None
  }

  /** A `string | null` in a condition: only a non-empty string is truthy. */
  predicate Truthy(v: Option<string>): (r: bool)
    ensures r <==> v.Some? && |v.value| > 0
  {
    v.Some? && v.value != ""
  }
}
