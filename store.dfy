/** The browser's string-keyed persistent store (localStorage). */
module Store {
  import opened Common

  class Storage {
    var items: map<string, string>

    constructor (initial: map<string, string>)
      ensures items == initial
    {
      items := initial;
    }

    /** getItem: the stored text, or null when the key is absent. */
    function Get(key: string): (r: Option<string>)
      reads this
      ensures r.Some? <==> key in items
      ensures r.Some? ==> r.value == items[key]
    {
      if key in items then Some(items[key]) else None
    }

    /** `if (localStorage.getItem(key))`: present and not the empty string. */
    predicate Holds(key: string)
      reads this
    {
      key in items && items[key] != ""
    }

    /** `localStorage.getItem(key) === "true"`. */
    predicate IsTrue(key: string)
      reads this
    {
      key in items && items[key] == "true"
    }

    method SetItem(key: string, value: string)
      modifies this
      ensures items == old(items)[key := value]
    {
      items := items[key := value];
    }

    method RemoveItem(key: string)
      modifies this
      ensures items == old(items) - {key}
    {
      items := items - {key};
    }
  }
}
