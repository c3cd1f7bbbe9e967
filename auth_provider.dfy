/**
 * The auth provider: the in-memory `user` and `role`, restored from storage
 * once when the provider mounts, nulled by `logout`, and handed to screens
 * through `useAuth`.
 */
module AuthProvider {
  import opened Wrappers
  import opened Entities
  import opened Storage
  import Js
  import UserJson

  /** What the mount effect arrives at: the restored fields, or the exception `JSON.parse` throws. */
  datatype Restored = Restored(user: Option<User>, role: Option<string>) | ParseError

  /**
   * The mount effect on a storage snapshot: `user` is set iff the `user` key is
   * truthy (and then parsed), `role` iff the `role` key is truthy; the two are
   * independent and the token is not consulted. A truthy but unparsable `user`
   * throws before `role` is read.
   */
  function Restore(items: map<string, string>): (r: Restored)
    ensures r.ParseError? <==> Js.TruthyString(Get(items, UserKey)) && UserJson.Parse(items[UserKey]).None?
    ensures r.Restored? ==> (r.user.Some? <==> Js.TruthyString(Get(items, UserKey)))
    ensures r.Restored? && r.user.Some? ==> UserJson.Parse(items[UserKey]) == r.user
    ensures r.Restored? ==> (r.role.Some? <==> Js.TruthyString(Get(items, RoleKey)))
    ensures r.Restored? && r.role.Some? ==> r.role.value == items[RoleKey]
  {
    var storedUser := Get(items, UserKey);
    if Js.TruthyString(storedUser) && UserJson.Parse(storedUser.value).None? then ParseError
    else
      var user := if Js.TruthyString(storedUser) then UserJson.Parse(storedUser.value) else None;
      var storedRole := Get(items, RoleKey);
      var role := if Js.TruthyString(storedRole) then storedRole else None;
      Restored(user, role)
  }

  /** The token is never read at mount: adding, changing or removing it does not change what is restored. */
  lemma RestoreIgnoresToken(items: map<string, string>, token: string)
    ensures Restore(items[TokenKey := token]) == Restore(items)
    ensures Restore(items - {TokenKey}) == Restore(items)
  {
    assert Get(items[TokenKey := token], UserKey) == Get(items, UserKey);
    assert Get(items[TokenKey := token], RoleKey) == Get(items, RoleKey);
    assert Get(items - {TokenKey}, UserKey) == Get(items, UserKey);
    assert Get(items - {TokenKey}, RoleKey) == Get(items, RoleKey);
  }

  /** The storage `logout` leaves: the three session keys gone, every other key as it was. */
  function Cleared(items: map<string, string>): (r: map<string, string>)
    ensures TokenKey !in r && UserKey !in r && RoleKey !in r
    ensures forall k :: k != TokenKey && k != UserKey && k != RoleKey ==> (k in r <==> k in items) && (k in r ==> r[k] == items[k])
    ensures r.Keys <= items.Keys
  {
    items - {TokenKey} - {UserKey} - {RoleKey}
  }

  /** `logout` twice is `logout` once. */
  lemma ClearedIdempotent(items: map<string, string>)
    ensures Cleared(Cleared(items)) == Cleared(items)
  {
  }

  /** After `logout` a reload restores nothing. */
  lemma RestoreAfterLogout(items: map<string, string>)
    ensures Restore(Cleared(items)) == Restored(None, None)
  {
    assert Get(Cleared(items), UserKey) == None && Get(Cleared(items), RoleKey) == None;
  }

  /** The value `useAuth` returns: the provider's state (its setters and `logout` are the provider's methods). */
  datatype AuthContext = AuthContext(user: Option<User>, role: Option<string>)

  const OutsideProvider := "useAuth must be used within an AuthProvider"

  /** `useAuth()`: fails outside a provider, otherwise the provider's context unchanged. */
  function UseAuth(context: Option<AuthContext>): (r: Result<AuthContext, string>)
    ensures r.Failure? <==> context.None?
    ensures r.Failure? ==> r.error == OutsideProvider
    ensures r.Success? ==> r.value == context.value
  {
    match context
    case None => Failure(OutsideProvider)
    case Some(c) => Success(c)
  }

  class Provider {
    const storage: LocalStorage
    var user: Option<User>
    var role: Option<string>

    /** The first render: both fields start null. */
    constructor (storage: LocalStorage)
      ensures this.storage == storage && user == None && role == None
    {
      this.storage := storage;
      user := None;
      role := None;
    }

    /** The value the provider hands its children through the context on the current render. */
    function Context(): AuthContext
      reads this
    {
      AuthContext(user, role)
    }

    /**
     * The mount effect (empty dependency list, so it runs once). On a parse
     * error it throws before touching either field; otherwise each field is
     * overwritten only when its key is truthy.
     */
    method Mount() returns (thrown: bool)
      modifies this`user, this`role
      ensures thrown <==> Restore(storage.items).ParseError?
      ensures thrown ==> user == old(user) && role == old(role)
      ensures !thrown ==> user == (if Restore(storage.items).user.Some? then Restore(storage.items).user else old(user))
      ensures !thrown ==> role == (if Restore(storage.items).role.Some? then Restore(storage.items).role else old(role))
    {
      var storedUser := storage.GetItem(UserKey);
      if Js.TruthyString(storedUser) {
        var parsed := UserJson.Parse(storedUser.value);
        if parsed.None? {
          return true;
        }
        user := parsed;
      }
      var storedRole := storage.GetItem(RoleKey);
      if Js.TruthyString(storedRole) {
        role := storedRole;
      }
      thrown := false;
    }

    /** `setUser` from the context. */
    method SetUser(u: Option<User>)
      modifies this`user
      ensures user == u
    {
      user := u;
    }

    /** `setRole` from the context. */
    method SetRole(r: Option<string>)
      modifies this`role
      ensures role == r
    {
      role := r;
    }

    /** `logout`: removes the three keys, then nulls role and user. */
    method Logout()
      modifies this`user, this`role, storage
      ensures storage.items == Cleared(old(storage.items))
      ensures user == None && role == None
    {
      storage.RemoveItem(TokenKey);
      storage.RemoveItem(UserKey);
      storage.RemoveItem(RoleKey);
      role := None;
      user := None;
    }
  }
}
