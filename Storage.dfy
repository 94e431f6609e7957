/** The browser's `localStorage`: a map from keys to string values. */
module Storage {
  import opened Wrappers

  /** The key under which the session token is kept. */
  const TokenKey := "token"
  /** The key under which the user's role is kept. */
  const RoleKey := "role"

  /**
   * A stored value the code treats as present: `getItem` returns a string
   * and the string is truthy, that is, not empty.
   */
  function StoredValue(items: map<string, string>, key: string): (v: Option<string>)
    ensures v.Some? <==> key in items && items[key] != ""
    ensures v.Some? ==> v.value == items[key]
  {
    if key in items && items[key] != "" then Some(items[key]) else None
  }

  /**
   * What a later read sees after a write: `setItem` makes the key read back
   * as the value when it is non-empty and as absent when it is empty,
   * `removeItem` makes it read back as absent, and no other key reads
   * differently after either.
   */
  lemma StoredValueAfterWrite(items: map<string, string>, key: string, value: string)
    ensures StoredValue(items[key := value], key) == if value == "" then None else Some(value)
    ensures StoredValue(items - {key}, key) == None
    ensures forall k :: k != key ==>
      StoredValue(items[key := value], k) == StoredValue(items, k) &&
      StoredValue(items - {key}, k) == StoredValue(items, k)
  {
  }

  class LocalStorage {
    var items: map<string, string>

    constructor (initial: map<string, string>)
      ensures items == initial
    {
      items := initial;
    }

    /** `getItem(key)`: the stored string, or `null` (`None`) for a missing key. */
    function GetItem(key: string): (v: Option<string>)
      reads this
      ensures v.Some? <==> key in items
      ensures v.Some? ==> v.value == items[key]
    {
      if key in items then Some(items[key]) else None
    }

    /** `setItem(key, value)`: stores `value` under `key`, leaving every other key. */
    method SetItem(key: string, value: string)
      modifies this
      ensures items == old(items)[key := value]
    {
      items := items[key := value];
    }

    /** `removeItem(key)`: drops `key`, leaving every other key. */
    method RemoveItem(key: string)
      modifies this
      ensures items == old(items) - {key}
    {
      items := items - {key};
    }
  }

  /** `getItem` after `setItem` gives back the value written, and another key reads as before. */
  method SetThenGet(storage: LocalStorage, key: string, value: string, other: string)
    returns (got: Option<string>, gotOther: Option<string>)
    modifies storage
    ensures got == Some(value)
    ensures other != key ==> gotOther == old(storage.GetItem(other))
  {
    storage.SetItem(key, value);
    got := storage.GetItem(key);
    gotOther := storage.GetItem(other);
  }

  /** `getItem` after `removeItem` gives null, and another key reads as before. */
  method RemoveThenGet(storage: LocalStorage, key: string, other: string)
    returns (got: Option<string>, gotOther: Option<string>)
    modifies storage
    ensures got == None
    ensures other != key ==> gotOther == old(storage.GetItem(other))
  {
    storage.RemoveItem(key);
    got := storage.GetItem(key);
    gotOther := storage.GetItem(other);
  }
}
