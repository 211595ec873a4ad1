/** The login page: the redirect of an already logged-in user, the storage
    writes after a successful login and the choice of the error message. */
module LoginPage {
  import opened Wrappers
  import opened Browser

  const LoginFallbackMessage := "Invalid username or password. Please try again."

  /** The mount effect: a truthy `access` sends the user to "/". */
  function RedirectOnMount(m: Storage): (target: Option<string>)
    ensures target.Some? <==> Truthy(m, AccessKey)
    ensures target.Some? ==> target.value == "/"
  {
    if Truthy(m, AccessKey) then Some("/") else None
  }

  /** The message shown for `err.response?.data`: the `error` field as it
      is (an array is not joined), else `detail`, else the fixed fallback. */
  function LoginError(data: Option<ErrorData>): (m: Message)
    ensures data.None? ==> m == Text(LoginFallbackMessage)
    ensures data.Some? && data.value.error.Some? && data.value.error.value.Truthy()
            ==> m == data.value.error.value
    ensures data.Some? && (data.value.error.None? || !data.value.error.value.Truthy())
            && data.value.detail.Some? && data.value.detail.value != ""
            ==> m == Text(data.value.detail.value)
    ensures data.Some? && (data.value.error.None? || !data.value.error.value.Truthy())
            && (data.value.detail.None? || data.value.detail.value == "")
            ==> m == Text(LoginFallbackMessage)
    // The page always shows something after a failed login.
    ensures m.Truthy()
  {
    match data
    case None => Text(LoginFallbackMessage)
    case Some(d) =>
      if d.error.Some? && d.error.value.Truthy() then d.error.value
      else if d.detail.Some? && d.detail.value != "" then Text(d.detail.value)
      else Text(LoginFallbackMessage)
  }

  /** The three `localStorage.setItem` calls: `access`, `refresh` and
      `token` (a copy of the access token); `username` is not written. */
  function StoreLogin(m: Storage, tokens: TokenPair): (r: Storage)
    ensures r.Keys == m.Keys + {AccessKey, RefreshKey, TokenKey}
    ensures r[AccessKey] == tokens.access && r[TokenKey] == r[AccessKey]
    ensures r[RefreshKey] == tokens.refresh
    ensures forall k | k in m && k !in {AccessKey, RefreshKey, TokenKey} :: r[k] == m[k]
  {
    m[AccessKey := tokens.access][RefreshKey := tokens.refresh][TokenKey := tokens.access]
  }

  /** The page's state: the two inputs and the error shown above the form. */
  class LoginForm {
    var username: string
    var password: string
    var error: Message

    constructor ()
      ensures username == "" && password == "" && error == Text("")
    {
      username, password, error := "", "", Text("");
    }

    method Edit(username': string, password': string)
      modifies this
      ensures username == username' && password == password' && error == old(error)
    {
      username, password := username', password';
    }

    /** `handleSubmit`, given the outcome of the login request. */
    method HandleSubmit(store: LocalStorage, outcome: Outcome<TokenPair>) returns (effects: seq<Effect>)
      modifies this`error, store
      ensures outcome.Ok? ==>
        && error == Text("")
        && store.items == StoreLogin(old(store.items), outcome.payload)
        && effects == [Send(LoginRequest(username, password)), DispatchAuthChange, Navigate("/")]
      ensures outcome.Err? ==>
        && error == LoginError(outcome.failure.Data())
        && store.items == old(store.items)
        && effects == [Send(LoginRequest(username, password))]
    {
      error := Text("");
      effects := [Send(LoginRequest(username, password))];
      match outcome
      case Ok(tokens) =>
        store.SetItem(AccessKey, tokens.access);
        store.SetItem(RefreshKey, tokens.refresh);
        store.SetItem(TokenKey, tokens.access);
        effects := effects + [DispatchAuthChange, Navigate("/")];
      case Err(failure) =>
        error := LoginError(failure.Data());
    }
  }
}
