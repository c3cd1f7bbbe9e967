/**
 * The login screen: the already-logged-in redirect on mount, and the submit
 * handler that calls the login endpoint and, on an accepted response, writes
 * the token, the serialized user and the role to storage.
 */
module Login {
  import opened Wrappers
  import opened Entities
  import opened Storage
  import Js
  import Api
  import UserJson
  import AuthProvider

  /** The fixed token stored on every successful login. */
  const DummyToken := "dummy-token"
  const DashboardPath := "/dashboard"
  const DefaultSuccess := "Login successful!"
  const Rejected := "Login failed. Please check your credentials."
  const UnknownError := "An error occurred during login."

  /** The response body of `POST /login`; an absent `user` is `None`. */
  datatype LoginResponse = LoginResponse(message: string, user: Option<User>)

  /** `data.user && data.user.id`: a present user with a non-zero id. */
  predicate Accepted(data: LoginResponse) {
    data.user.Some? && data.user.value.id != 0
  }

  /** The storage after the submit handler: the three keys written on an accepted response, otherwise untouched. */
  function StoredAfter(items: map<string, string>, reply: Js.Reply<LoginResponse>): (r: map<string, string>)
    ensures reply.Ok? && Accepted(reply.data) ==>
      var u := reply.data.user.value;
      Get(r, TokenKey) == Some(DummyToken) && Get(r, UserKey) == Some(UserJson.Serialize(u)) && Get(r, RoleKey) == Some(u.role)
    ensures !(reply.Ok? && Accepted(reply.data)) ==> r == items
    ensures forall k :: k != TokenKey && k != UserKey && k != RoleKey ==> (k in r <==> k in items) && (k in r ==> r[k] == items[k])
  {
    if reply.Ok? && Accepted(reply.data) then
      var u := reply.data.user.value;
      items[TokenKey := DummyToken][UserKey := UserJson.Serialize(u)][RoleKey := u.role]
    else items
  }

  /** The toast and the navigation target the submit handler ends with. */
  function Feedback(reply: Js.Reply<LoginResponse>): (r: (Js.Toast, Option<string>))
    ensures r.1.Some? <==> reply.Ok? && Accepted(reply.data)
    ensures r.1.Some? ==> r.1.value == DashboardPath && r.0.Success?
    ensures r.1.None? ==> r.0.Error?
    ensures reply.Ok? && !Accepted(reply.data) ==> r.0 == Js.Error(Rejected)
    ensures reply.Err? && reply.cause.ErrorObject? ==> r.0 == Js.Error(reply.cause.message)
  {
    match reply
    case Ok(data) =>
      if Accepted(data) then
        (Js.Success(if data.message != "" then data.message else DefaultSuccess), Some(DashboardPath))
      else (Js.Error(Rejected), None)
    case Err(cause) => (if cause.ErrorObject? then Js.Error(cause.message) else Js.Error(UnknownError), None)
  }

  /** The mount effect: a truthy stored token sends the visitor on to the dashboard. */
  function MountRedirect(items: map<string, string>): (r: Option<string>)
    ensures r.Some? <==> Js.TruthyString(Get(items, TokenKey))
    ensures r.Some? ==> r.value == DashboardPath
  {
    if Js.TruthyString(Get(items, TokenKey)) then Some(DashboardPath) else None
  }

  class LoginForm {
    const storage: LocalStorage
    var isLoading: bool

    constructor (storage: LocalStorage)
      ensures this.storage == storage && !isLoading
    {
      this.storage := storage;
      isLoading := false;
    }

    /**
     * `handleSubmit`, with the awaited login call's outcome as `reply`.
     * `loadingAtCall` is `isLoading` when the call is issued; the `finally`
     * clause clears it on every path. Only storage is written.
     */
    method HandleSubmit(credentials: Api.Credentials, reply: Js.Reply<LoginResponse>)
      returns (sent: Api.Call, loadingAtCall: bool, toast: Js.Toast, navigate: Option<string>)
      modifies this`isLoading, storage
      ensures sent == Api.Login(credentials)
      ensures loadingAtCall && !isLoading
      ensures storage.items == StoredAfter(old(storage.items), reply)
      ensures (toast, navigate) == Feedback(reply)
    {
      isLoading := true;
      sent := Api.Login(credentials);
      loadingAtCall := isLoading;
      match reply {
        case Ok(data) =>
          if data.user.Some? && data.user.value.id != 0 {
            storage.SetItem(TokenKey, DummyToken);
            storage.SetItem(UserKey, UserJson.Serialize(data.user.value));
            storage.SetItem(RoleKey, data.user.value.role);
            toast := Js.Success(if data.message != "" then data.message else DefaultSuccess);
            navigate := Some(DashboardPath);
          } else {
            toast := Js.Error(Rejected);
            navigate := None;
          }
        case Err(cause) =>
          toast := if cause.ErrorObject? then Js.Error(cause.message) else Js.Error(UnknownError);
          navigate := None;
      }
      isLoading := false;
    }

    /**
     * The submit handler with the provider brought up to date: after the
     * storage writes it sets `user` and `role` to what a reload would restore
     * from the new storage, so the session in memory never lags storage.
     */
    method HandleSubmitAndSync(provider: AuthProvider.Provider, credentials: Api.Credentials, reply: Js.Reply<LoginResponse>)
      returns (sent: Api.Call, loadingAtCall: bool, toast: Js.Toast, navigate: Option<string>)
      requires provider.storage == storage
      modifies this`isLoading, storage, provider`user, provider`role
      ensures sent == Api.Login(credentials)
      ensures loadingAtCall && !isLoading
      ensures storage.items == StoredAfter(old(storage.items), reply)
      ensures (toast, navigate) == Feedback(reply)
      ensures reply.Ok? && Accepted(reply.data) ==>
        provider.user == reply.data.user
        && provider.role == (if reply.data.user.value.role != "" then Some(reply.data.user.value.role) else None)
        && AuthProvider.Restore(storage.items) == AuthProvider.Restored(provider.user, provider.role)
      ensures !(reply.Ok? && Accepted(reply.data)) ==> provider.user == old(provider.user) && provider.role == old(provider.role)
    {
      sent, loadingAtCall, toast, navigate := HandleSubmit(credentials, reply);
      if reply.Ok? && Accepted(reply.data) {
        var u := reply.data.user.value;
        RestoreAfterLogin(old(storage.items), u, reply.data.message);
        provider.SetUser(Some(u));
        provider.SetRole(if u.role != "" then Some(u.role) else None);
      }
    }
  }

  /** A reload after an accepted login restores the same user, and its role when that role is non-empty. */
  lemma RestoreAfterLogin(items: map<string, string>, u: User, message: string)
    requires u.id != 0
    ensures AuthProvider.Restore(StoredAfter(items, Js.Ok(LoginResponse(message, Some(u)))))
         == AuthProvider.Restored(Some(u), if u.role != "" then Some(u.role) else None)
  {
    UserJson.ParseSerialize(u);
    var stored := StoredAfter(items, Js.Ok(LoginResponse(message, Some(u))));
    assert stored[UserKey] == UserJson.Serialize(u);
    assert Js.TruthyString(Get(stored, UserKey)) by {
      assert UserJson.Serialize(u) != "" by { assert |UserJson.Serialize(u)| > 0; }
    }
  }
}
