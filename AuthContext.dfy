/**
 * The authentication context (`AuthContext`): the token and role held in
 * memory. Inside an `AuthProvider` they start null and are filled from
 * storage once mounted; outside one, the default context holds null for both
 * and its setters do nothing.
 */
module AuthContext {
  import opened Wrappers
  import opened Storage

  class Session {
    /** Whether this is a provider's state rather than the default context. */
    const provided: bool
    /** The in-memory token (`token`), `None` for null. */
    var token: Option<string>
    /** The in-memory role (`role`), `None` for null. */
    var role: Option<string>

    /** The default context never holds a token or a role. */
    predicate Valid()
      reads this
    {
      !provided ==> token.None? && role.None?
    }

    /** The default context, used where no provider is mounted. */
    constructor Default()
      ensures Valid() && !provided && token == None && role == None
    {
      provided := false;
      token := None;
      role := None;
    }

    /** A provider's state before its effect runs: both values null. */
    constructor Provider()
      ensures Valid() && provided && token == None && role == None
    {
      provided := true;
      token := None;
      role := None;
    }

    /** `setToken`: sets the token in a provider; a no-op in the default context. */
    method SetToken(t: Option<string>)
      requires Valid()
      modifies this
      ensures Valid()
      ensures token == (if provided then t else old(token))
      ensures role == old(role)
    {
      if provided {
        token := t;
      }
    }

    /** `setRole`: sets the role in a provider; a no-op in the default context. */
    method SetRole(r: Option<string>)
      requires Valid()
      modifies this
      ensures Valid()
      ensures role == (if provided then r else old(role))
      ensures token == old(token)
    {
      if provided {
        role := r;
      }
    }

    /**
     * The provider's mount effect: a non-empty stored token becomes the
     * token, and, independently, a non-empty stored role becomes the role;
     * a missing or empty value leaves the current one. Storage is only read.
     */
    method Hydrate(storage: LocalStorage)
      requires Valid()
      modifies this
      ensures Valid()
      ensures provided && StoredValue(old(storage.items), TokenKey).Some? ==> token == StoredValue(old(storage.items), TokenKey)
      ensures !(provided && StoredValue(old(storage.items), TokenKey).Some?) ==> token == old(token)
      ensures provided && StoredValue(old(storage.items), RoleKey).Some? ==> role == StoredValue(old(storage.items), RoleKey)
      ensures !(provided && StoredValue(old(storage.items), RoleKey).Some?) ==> role == old(role)
      ensures storage.items == old(storage.items)
    {
      var savedToken := storage.GetItem(TokenKey);
      var savedRole := storage.GetItem(RoleKey);
      if savedToken.Some? && savedToken.value != "" {
        SetToken(savedToken);
      }
      if savedRole.Some? && savedRole.value != "" {
        SetRole(savedRole);
      }
    }
  }

  /**
   * A freshly mounted provider ends up holding the stored token exactly when
   * a non-empty one is stored, and null otherwise; the same holds for the role.
   */
  method MountProvider(storage: LocalStorage) returns (token: Option<string>, role: Option<string>)
    ensures token == StoredValue(storage.items, TokenKey)
    ensures role == StoredValue(storage.items, RoleKey)
  {
    var session := new Session.Provider();
    session.Hydrate(storage);
    token, role := session.token, session.role;
  }

  /** Outside a provider the setters change nothing: token and role stay null. */
  method DefaultIgnoresSetters(t: Option<string>, r: Option<string>) returns (token: Option<string>, role: Option<string>)
    ensures token == None && role == None
  {
    var session := new Session.Default();
    session.SetToken(t);
    session.SetRole(r);
    token, role := session.token, session.role;
  }
}
