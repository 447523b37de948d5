/** frontend1/src/context/AuthContext.js: the session's token and role, kept in React state
    and mirrored in the browser's storage. */
module AuthContext {
  import opened Base

  const TokenKey: string := "token"
  const RoleKey: string := "role"

  /** The browser's `localStorage`. */
  class Storage {
    var items: map<string, string>

    constructor (items0: map<string, string>)
      ensures items == items0
    {
      items := items0;
    }

    /** `getItem(key)`: the stored text, or null. */
    function GetItem(key: string): (v: Option<string>)
      reads this
      ensures v.Some? <==> key in items
      ensures v.Some? ==> v.value == items[key]
    {
      if key in items then Some(items[key]) else None
    }

    method SetItem(key: string, value: string)
      modifies this
      ensures items == old(items)[key := value]
    {
      items := items[key := value];
    }

    method RemoveItem(key: string)
      modifies this
      ensures items == old(items) - {key}
    {
      items := items - {key};
    }
  }

  /** `v || null`: an empty stored text reads as null. */
  function OrNull(v: Option<string>): (r: Option<string>)
    ensures r.Some? <==> Truthy(v)
    ensures r.Some? ==> r == v
  {
    if Truthy(v) then v else None
  }

  /** `AuthProvider`: the `auth` state `{ token, role }` over the storage it mirrors. */
  class AuthProvider {
    const storage: Storage
    var token: Option<string>
    var role: Option<string>

    /** The state says what the storage holds. */
    ghost predicate Synced()
      reads this, storage
    {
      token == storage.GetItem(TokenKey) && role == storage.GetItem(RoleKey)
    }

    /** The initial state reads both keys, an absent or empty one as null. */
    constructor (storage: Storage)
      ensures this.storage == storage
      ensures token == OrNull(storage.GetItem(TokenKey)) && role == OrNull(storage.GetItem(RoleKey))
      ensures storage.items == old(storage.items)
    {
      this.storage := storage;
      token := OrNull(storage.GetItem(TokenKey));
      role := OrNull(storage.GetItem(RoleKey));
    }

    /** `login(token, role)`: both keys written, then the state set to the same pair. A third
        argument, such as the user id the login page passes, is ignored. */
    method Login(t: string, r: string)
      modifies this, storage
      ensures storage.items == old(storage.items)[TokenKey := t][RoleKey := r]
      ensures token == Some(t) && role == Some(r)
      ensures Synced()
    {
      storage.SetItem(TokenKey, t);
      storage.SetItem(RoleKey, r);
      token, role := Some(t), Some(r);
    }

    /** `logout()`: both keys removed and the state cleared; no other key is touched. */
    method Logout()
      modifies this, storage
      ensures storage.items == old(storage.items) - {TokenKey, RoleKey}
      ensures token == None && role == None
      ensures Synced()
    {
      storage.RemoveItem(TokenKey);
      storage.RemoveItem(RoleKey);
      token, role := None, None;
    }
  }

  /** A session restored from storage that `login` wrote is the one `login` set. */
  lemma RestoredSession(items: map<string, string>, t: string, r: string)
    requires t != "" && r != ""
    ensures var stored := items[TokenKey := t][RoleKey := r];
      && OrNull(if TokenKey in stored then Some(stored[TokenKey]) else None) == Some(t)
      && OrNull(if RoleKey in stored then Some(stored[RoleKey]) else None) == Some(r)
  {
  }
}
