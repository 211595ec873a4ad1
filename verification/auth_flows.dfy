/** How the client's separate "logged in" flags move together. The
    navigation bar reads `access`, the authentication context (and with it
    the route guard) reads `token`, and `api/auth.js` reads `access_token`;
    an `authChange` event makes every mounted listener recompute its own
    flag from storage, synchronously. */
module AuthFlows {
  import opened Wrappers
  import opened Browser
  import opened Navbar
  import opened AuthContext
  import opened AuthApi
  import LoginPage
  import RegisterPage
  import LogoutButton
  import ApiClient
  import AppRoutes

  /** `window.dispatchEvent(new Event("authChange"))`: each listener still
      registered recomputes its flag; an unmounted one keeps its value. */
  method Dispatch(store: LocalStorage, navbar: NavbarState, provider: AuthProvider)
    modifies navbar`isAuthenticated, provider`isAuthenticated
    ensures navbar.isAuthenticated == if navbar.listening then NavbarFlag(store.items) else old(navbar.isAuthenticated)
    ensures provider.isAuthenticated ==
      if provider.listening then ContextFlag(store.items) else old(provider.isAuthenticated)
  {
    if navbar.listening {
      navbar.OnAuthChange(store);
    }
    if provider.listening {
      provider.OnAuthChange(store);
    }
  }

  // ---------------------------------------------------------------------
  // The storage each flow leaves, and the flags it implies
  // ---------------------------------------------------------------------

  /** The login page writes `access` and `token` from the same value, so
      the bar and the context agree afterwards, whatever storage held. */
  lemma LoginKeepsFlagsInAgreement(m: Storage, tokens: TokenPair)
    ensures NavbarFlag(LoginPage.StoreLogin(m, tokens)) == ContextFlag(LoginPage.StoreLogin(m, tokens))
    ensures NavbarFlag(LoginPage.StoreLogin(m, tokens)) <==> tokens.access != ""
  {
  }

  /** The same holds for the register page, which writes the same keys. */
  lemma RegisterKeepsFlagsInAgreement(m: Storage, tokens: TokenPair, username: string)
    ensures var r := RegisterPage.StoreRegistration(m, tokens, username);
      NavbarFlag(r) == ContextFlag(r) && (NavbarFlag(r) <==> tokens.access != "")
  {
  }

  /** Both logout handlers turn both page flags off. Neither touches the
      `access_token` of `api/auth.js`, so its flag survives them. */
  lemma LogoutsClearPageFlags(m: Storage)
    ensures !NavbarFlag(ClearCredentials(m)) && !ContextFlag(ClearCredentials(m))
    ensures !NavbarFlag(LogoutButton.ForgetTokens(m)) && !ContextFlag(LogoutButton.ForgetTokens(m))
    ensures IsUserAuthenticated(ClearCredentials(m)) == IsUserAuthenticated(m)
    ensures IsUserAuthenticated(LogoutButton.ForgetTokens(m)) == IsUserAuthenticated(m)
  {
  }

  /** `loginUser` of `api/auth.js` is invisible to the pages: neither page
      flag changes. */
  lemma ApiLoginInvisibleToPages(m: Storage, tokens: TokenPair)
    ensures NavbarFlag(StoreApiTokens(m, tokens)) == NavbarFlag(m)
    ensures ContextFlag(StoreApiTokens(m, tokens)) == ContextFlag(m)
  {
  }

  /** From empty storage, `loginUser` leaves `isUserAuthenticated` true
      while the bar shows no controls and the route guard still sends "/"
      to the login page. */
  lemma ApiLoginDisagreesWithPages()
    ensures var m := StoreApiTokens(map[], TokenPair("a", "r"));
      && IsUserAuthenticated(m)
      && Controls(NavbarFlag(m)) == {}
      && AppRoutes.Route("/", ContextFlag(m)) == AppRoutes.RedirectTo("/login")
  {
    var m := StoreApiTokens(map[], TokenPair("a", "r"));
    assert AccessKey !in m && TokenKey !in m;
  }

  /** A 401 shows the alert and loads "/login", but clears nothing: with
      `access` and `token` still set, the login page sends the user back
      to "/", which the route guard lets through. */
  lemma ExpiredSessionBouncesBack(m: Storage, data: ErrorData)
    requires Truthy(m, AccessKey) && Truthy(m, TokenKey)
    ensures ApiClient.OnResponse<()>(Err(ErrorResponse(401, data))).1
      == [Alert(ApiClient.ExpiredAlert), SetLocation("/login")]
    ensures AppRoutes.Route("/login", ContextFlag(m)) == AppRoutes.LoginScreen
    ensures LoginPage.RedirectOnMount(m) == Some("/")
    ensures AppRoutes.Route("/", ContextFlag(m)) == AppRoutes.InterviewScreen
  {
  }

  // ---------------------------------------------------------------------
  // Whole flows: a handler followed by the event it dispatches
  // ---------------------------------------------------------------------

  /** A submit on the login page, then delivery of its `authChange`: on
      success both mounted flags are set exactly when the access token is
      non-empty; on failure neither changes. */
  method LoginFlow(store: LocalStorage, form: LoginPage.LoginForm, navbar: NavbarState,
                   provider: AuthProvider, outcome: Outcome<TokenPair>) returns (effects: seq<Effect>)
    requires navbar.listening && provider.listening
    modifies store, form`error, navbar`isAuthenticated, provider`isAuthenticated
    ensures outcome.Ok? ==>
      && navbar.isAuthenticated == provider.isAuthenticated
      && (navbar.isAuthenticated <==> outcome.payload.access != "")
    ensures outcome.Err? ==>
      && navbar.isAuthenticated == old(navbar.isAuthenticated)
      && provider.isAuthenticated == old(provider.isAuthenticated)
  {
    effects := form.HandleSubmit(store, outcome);
    if DispatchAuthChange in effects {
      Dispatch(store, navbar, provider);
      LoginKeepsFlagsInAgreement(old(store.items), outcome.payload);
    }
  }

  /** A registration, then delivery of its `authChange`. */
  method RegisterFlow(store: LocalStorage, form: RegisterPage.RegisterForm, navbar: NavbarState,
                      provider: AuthProvider, registered: Outcome<()>, login: Outcome<TokenPair>)
    returns (effects: seq<Effect>)
    requires navbar.listening && provider.listening
    modifies store, form`error, navbar`isAuthenticated, provider`isAuthenticated
    ensures DispatchAuthChange in effects ==>
      && navbar.isAuthenticated == provider.isAuthenticated
      && (navbar.isAuthenticated <==> login.Ok? && login.payload.access != "")
    ensures !(DispatchAuthChange in effects) ==>
      && navbar.isAuthenticated == old(navbar.isAuthenticated)
      && provider.isAuthenticated == old(provider.isAuthenticated)
  {
    effects := form.HandleSubmit(store, registered, login);
    if DispatchAuthChange in effects {
      Dispatch(store, navbar, provider);
      RegisterKeepsFlagsInAgreement(old(store.items), login.payload, form.username);
    }
  }

  /** The bar's logout, then delivery of its `authChange`: both flags off. */
  method NavbarLogoutFlow(store: LocalStorage, navbar: NavbarState, provider: AuthProvider)
    returns (effects: seq<Effect>)
    requires navbar.listening && provider.listening
    modifies store, navbar`isAuthenticated, provider`isAuthenticated
    ensures !navbar.isAuthenticated && !provider.isAuthenticated
    ensures IsUserAuthenticated(store.items) == IsUserAuthenticated(old(store.items))
  {
    effects := navbar.HandleLogout(store);
    Dispatch(store, navbar, provider);
    LogoutsClearPageFlags(old(store.items));
  }

  /** The stand-alone logout button: when confirmed, both flags go off;
      when declined, nothing changes at all. */
  method ButtonLogoutFlow(store: LocalStorage, navbar: NavbarState, provider: AuthProvider, confirmed: bool)
    returns (effects: seq<Effect>)
    requires navbar.listening && provider.listening
    modifies store, navbar`isAuthenticated, provider`isAuthenticated
    ensures confirmed ==> !navbar.isAuthenticated && !provider.isAuthenticated
    ensures !confirmed ==>
      && store.items == old(store.items) && effects == []
      && navbar.isAuthenticated == old(navbar.isAuthenticated)
      && provider.isAuthenticated == old(provider.isAuthenticated)
  {
    effects := LogoutButton.HandleLogout(store, confirmed);
    if DispatchAuthChange in effects {
      Dispatch(store, navbar, provider);
      LogoutsClearPageFlags(old(store.items));
    }
  }

  /** `loginUser` of `api/auth.js` dispatches nothing and writes no key the
      pages read: both flags keep their values while its own flag follows
      the new access token. */
  method ApiLoginFlow(store: LocalStorage, navbar: NavbarState, provider: AuthProvider,
                      username: string, password: string, outcome: Outcome<TokenPair>)
    returns (result: Outcome<TokenPair>, effects: seq<Effect>)
    modifies store
    ensures navbar.isAuthenticated == old(navbar.isAuthenticated)
    ensures provider.isAuthenticated == old(provider.isAuthenticated)
    ensures NavbarFlag(store.items) == NavbarFlag(old(store.items))
    ensures ContextFlag(store.items) == ContextFlag(old(store.items))
    ensures outcome.Ok? ==> (IsUserAuthenticated(store.items) <==> outcome.payload.access != "")
  {
    result, effects := LoginUser(store, username, password, outcome);
    if outcome.Ok? {
      ApiLoginInvisibleToPages(old(store.items), outcome.payload);
    }
  }
}
