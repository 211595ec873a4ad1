/** The login/logout helpers of `api/auth.js`, which keep their tokens under
    `access_token` and `refresh_token`. They call the HTTP client imported
    from `./api`, a module that is not part of this model, so no request
    interceptor is assumed for them: each request carries what the helper
    itself puts in it. */
module AuthApi {
  import opened Wrappers
  import opened Browser

  /** `isUserAuthenticated`. */
  predicate IsUserAuthenticated(m: Storage): (b: bool)
    ensures b <==> AccessTokenKey in m && m[AccessTokenKey] != ""
  {
    Truthy(m, AccessTokenKey)
  }

  /** The two `setItem` calls of `loginUser`. */
  function StoreApiTokens(m: Storage, tokens: TokenPair): (r: Storage)
    ensures r.Keys == m.Keys + {AccessTokenKey, RefreshTokenKey}
    ensures r[AccessTokenKey] == tokens.access && r[RefreshTokenKey] == tokens.refresh
    ensures forall k | k in m && k !in {AccessTokenKey, RefreshTokenKey} :: r[k] == m[k]
    ensures IsUserAuthenticated(r) <==> tokens.access != ""
  {
    m[AccessTokenKey := tokens.access][RefreshTokenKey := tokens.refresh]
  }

  /** `loginUser`: on success the tokens are stored and the response data
      returned; on failure the error is rethrown and storage is untouched. */
  method LoginUser(store: LocalStorage, username: string, password: string, outcome: Outcome<TokenPair>)
    returns (result: Outcome<TokenPair>, effects: seq<Effect>)
    modifies store
    ensures result == outcome
    ensures effects == [Send(LoginRequest(username, password))]
    ensures outcome.Ok? ==> store.items == StoreApiTokens(old(store.items), outcome.payload)
    ensures outcome.Err? ==> store.items == old(store.items)
  {
    effects := [Send(LoginRequest(username, password))];
    result := outcome;
    if outcome.Ok? {
      store.SetItem(AccessTokenKey, outcome.payload.access);
      store.SetItem(RefreshTokenKey, outcome.payload.refresh);
    }
  }

  /** `logoutUser`: without a truthy `access_token` it returns at once;
      otherwise it posts the refresh token with the access token as bearer
      and, whatever the server answers, removes both keys. */
  method LogoutUser(store: LocalStorage, outcome: Outcome<()>) returns (effects: seq<Effect>)
    modifies store
    ensures !IsUserAuthenticated(old(store.items)) ==> store.items == old(store.items) && effects == []
    ensures IsUserAuthenticated(old(store.items)) ==>
      && store.items == old(store.items) - {AccessTokenKey, RefreshTokenKey}
      && effects == [Send(LogoutRequest(Get(old(store.items), RefreshTokenKey),
                                        "Bearer " + old(store.items)[AccessTokenKey]))]
  {
    var access := Get(store.items, AccessTokenKey);
    var refresh := Get(store.items, RefreshTokenKey);
    if access.None? || access.value == "" {
      return [];
    }
    // try { await api.post(...) } catch { log } finally { remove both keys }
    effects := [Send(LogoutRequest(refresh, Bearer(access)))];
    store.RemoveItem(AccessTokenKey);
    store.RemoveItem(RefreshTokenKey);
  }
}
