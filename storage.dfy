/** The browser's `localStorage`: one map from string keys to string values, shared by every component. */
module Storage {
  import opened Wrappers

  const TokenKey := "token"
  const UserKey := "user"
  const RoleKey := "role"

  /** `localStorage.getItem(key)` on a snapshot of the items. */
  function Get(items: map<string, string>, key: string): Option<string> {
    if key in items then Some(items[key]) else None
  }

  class LocalStorage {
    var items: map<string, string>

    constructor (initial: map<string, string>)
      ensures items == initial
    {
      items := initial;
    }

    function GetItem(key: string): Option<string>
      reads this
    {
      Get(items, key)
    }

    method SetItem(key: string, value: string)
      modifies this
      ensures items == old(items)[key := value]
    {
      items := items[key := value];
    }

    method RemoveItem(key: string)
      modifies this
      ensures items == old(items) - {key}
    {
      items := items - {key};
    }
  }
}
