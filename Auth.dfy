/** The authentication hook: a status machine over `loading`, `unauthenticated`,
    `authenticated` and `error`, driven by validating a token against the
    backend's `/chrome-api-me` endpoint. Each awaited call is modelled by its
    outcome: the stored preferences are the store's state and the backend's
    answer is the response it would deliver. The intermediate `loading` status
    that each operation shows while it waits is not kept; only the settled state
    is. */
module Auth {
  import opened Wrappers
  import opened Api
  import opened ChromeStorage

  datatype AuthStatus = Loading | Unauthenticated | Authenticated | Error

  const InvalidToken := "Invalid or expired token"

  /** The error shown for a failed validation. */
  function ShownError(message: string): (r: string)
    ensures message == Unauthorized ==> r == InvalidToken
    ensures message != Unauthorized ==> r == message
  {
    if message == Unauthorized then InvalidToken else message
  }

  class AuthHook {
    var status: AuthStatus
    var user: Option<string>    // the `/chrome-api-me` body
    var error: Option<string>
    var token: Option<string>
    const client: ApiClient
    const store: PrefStore

    /** The hook's state on first render, before its effect runs. */
    constructor (client0: ApiClient, store0: PrefStore)
      ensures client == client0 && store == store0
      ensures status == Loading && user.None? && error.None? && token.None?
    {
      client, store := client0, store0;
      status, user, error, token := Loading, None, None, None;
    }

    /** Authenticated exactly with a user, no error and the client holding a
        token; in error with a message and no client token. */
    predicate Valid()
      reads this, client
    {
      && (status == Authenticated ==> user.Some? && error.None? && client.token.Some?)
      && (status == Error ==> error.Some? && client.token.None?)
    }

    /** `checkAuth(authToken)`: validate the token with the backend. */
    method CheckAuth(authToken: string, response: HttpResponse) returns (valid: bool)
      modifies this, client
      ensures valid <==> authToken != "" && IsOk(response.status)
      ensures valid ==> status == Authenticated && user == Some(response.text) && error.None?
                        && client.token == Some(authToken)
      ensures !valid ==> status == Error && client.token.None? && user == old(user)
      ensures !valid && authToken == "" ==> error == Some(NoToken)
      ensures !valid && authToken != "" ==> error == Some(ShownError(Outcome(response).message))
      ensures token == old(token)
      ensures Valid()
    {
      client.SetToken(authToken);
      var outcome := client.GetMe(response).0;
      if outcome.Ok? {
        user := Some(outcome.value);
        status := Authenticated;
        error := None;
        return true;
      }
      error := Some(ShownError(outcome.message));
      status := Error;
      client.ClearToken();
      return false;
    }

    /** `refreshAuth()`: re-read the stored token and validate it. */
    method RefreshAuth(response: HttpResponse)
      modifies this, client
      ensures var stored := store.GetToken();
              (stored.None? || stored == Some("")) ==>
                status == Unauthenticated && token.None? && user == old(user) && error == old(error)
                && client.token == old(client.token)
      ensures var stored := store.GetToken();
              stored.Some? && stored.value != "" ==>
                token == stored
                && (IsOk(response.status) ==>
                      status == Authenticated && user == Some(response.text) && error.None?
                      && client.token == stored)
                && (!IsOk(response.status) ==>
                      status == Error && user == old(user) && client.token.None?
                      && error == Some(ShownError(Outcome(response).message)))
      ensures old(Valid()) ==> Valid()
    {
      var stored := store.GetToken();
      if stored.None? || stored.value == "" {
        status := Unauthenticated;
        token := None;
        return;
      }
      token := stored;
      var _ := CheckAuth(stored.value, response);
    }

    /** `setToken(newToken)`: validate first; store and record only a valid token. */
    method SetToken(newToken: string, response: HttpResponse) returns (valid: bool)
      modifies this, client, store
      ensures valid <==> newToken != "" && IsOk(response.status)
      ensures valid ==> store.GetToken() == Some(newToken) && token == Some(newToken) && status == Authenticated
      ensures valid ==> user == Some(response.text) && error.None? && client.token == Some(newToken)
                        && store.Current() == Merged(old(store.Current()), map[TokenKey := newToken])
      ensures !valid ==> store.slot == old(store.slot) && token == old(token) && status == Error
                         && user == old(user) && client.token.None?
      ensures !valid && newToken == "" ==> error == Some(NoToken)
      ensures !valid && newToken != "" ==> error == Some(ShownError(Outcome(response).message))
      ensures Valid()
    {
      valid := CheckAuth(newToken, response);
      if valid {
        store.SetToken(newToken);
        token := Some(newToken);
      }
    }

    /** `clearToken()`: forget the token everywhere. */
    method ClearToken()
      modifies this, client, store
      ensures store.GetToken().None? && client.token.None?
      ensures status == Unauthenticated && token.None? && user.None? && error.None?
      ensures Valid()
    {
      store.ClearToken();
      client.ClearToken();
      token := None;
      user := None;
      status := Unauthenticated;
      error := None;
    }
  }
}
