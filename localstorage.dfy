/** The browser's `localStorage`: a string-to-string map with `getItem`, `setItem` and `removeItem`. */
module LocalStorage {
  import opened Wrappers

  class Storage {
    var items: map<string, string>

    constructor (init: map<string, string>)
      ensures items == init
    {
      items := init;
    }

    /** `getItem(k)`: `None` stands for `null`. */
    function GetItem(k: string): Option<string>
      reads this
    {
      if k in items then Some(items[k]) else None
    }

    method SetItem(k: string, v: string)
      modifies this
      ensures items == old(items)[k := v]
    {
      items := items[k := v];
    }

    method RemoveItem(k: string)
      modifies this
      ensures items == old(items) - {k}
    {
      items := items - {k};
    }
  }
}
