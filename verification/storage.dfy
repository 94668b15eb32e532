/**
 * The browser's `localStorage`, reduced to what the admin pages use: a map from
 * keys to string values, read with `getItem`, written with `setItem` and cleared
 * with `removeItem`.  One key matters, the admin session flag.
 */
module Storage {
  import opened Wrappers

  /** The key of the admin session flag. */
  const AdminKey: string := "moviezone-admin"

  /** The value the login page writes under `AdminKey`. */
  const AuthenticatedValue: string := "authenticated"

  /**
   * The dashboard guard tests `!localStorage.getItem(AdminKey)`: an absent key
   * (`null`) and an empty value are both falsy, any other string lets the user in.
   */
  predicate Authenticated(items: map<string, string>): (b: bool)
    ensures b ==> AdminKey in items
    ensures items == map[] ==> !b
    ensures AdminKey in items && items[AdminKey] == AuthenticatedValue ==> b
  {
    AdminKey in items && items[AdminKey] != ""
  }

  class LocalStorage {
    var items: map<string, string>

    constructor (initial: map<string, string>)
      ensures items == initial
    {
      items := initial;
    }

    /** `getItem`: the stored value, or nothing for a key never set or removed. */
    function GetItem(key: string): (r: Option<string>)
      reads this
      ensures r.Some? <==> key in items
      ensures r.Some? ==> r.value == items[key]
    {
      if key in items then Some(items[key]) else None
    }

    /** `setItem`: stores `value` under `key`, leaving every other key as it was. */
    method SetItem(key: string, value: string)
      modifies this
      ensures items == old(items)[key := value]
      ensures GetItem(key) == Some(value)
    {
      items := items[key := value];
    }

    /** `removeItem`: forgets `key`, leaving every other key as it was. */
    method RemoveItem(key: string)
      modifies this
      ensures items == old(items) - {key}
      ensures GetItem(key) == None
    {
      items := items - {key};
    }
  }
}
