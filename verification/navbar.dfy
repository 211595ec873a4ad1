/** The navigation bar: its own "logged in" flag, derived from the
    `access` key, and its logout handler. */
module Navbar {
  import opened Browser

  /** The flag the navigation bar derives from storage. */
  predicate NavbarFlag(m: Storage): (b: bool)
    ensures b <==> AccessKey in m && m[AccessKey] != ""
  {
    Truthy(m, AccessKey)
  }

  /** The four `localStorage.removeItem` calls of the navigation bar's
      logout: `access`, `refresh`, `token` and `username`. */
  function ClearCredentials(m: Storage): (r: Storage)
    ensures r.Keys == m.Keys - {AccessKey, RefreshKey, TokenKey, UsernameKey}
    ensures forall k | k in r :: r[k] == m[k]
    ensures !NavbarFlag(r)
  {
    m - {AccessKey, RefreshKey, TokenKey, UsernameKey}
  }

  /** Logging out twice leaves storage as logging out once. */
  lemma ClearCredentialsIdempotent(m: Storage)
    ensures ClearCredentials(ClearCredentials(m)) == ClearCredentials(m)
  {
  }

  /** What the bar shows besides its title. */
  datatype Control = SessionsLink | LogoutControl

  /** The controls rendered for a given flag: the Sessions link and the
      Logout button appear together, and only when logged in. */
  function Controls(isAuthenticated: bool): (r: set<Control>)
    ensures SessionsLink in r <==> isAuthenticated
    ensures LogoutControl in r <==> isAuthenticated
  {
    if isAuthenticated then {SessionsLink, LogoutControl} else {}
  }

  class NavbarState {
    var isAuthenticated: bool
    /** Whether the `authChange` listener is registered (between mount and unmount). */
    var listening: bool

    /** Mount: the flag starts from storage and the listener is registered. */
    constructor (store: LocalStorage)
      ensures isAuthenticated == NavbarFlag(store.items)
      ensures listening
    {
      isAuthenticated := NavbarFlag(store.items);
      listening := true;
    }

    /** `handleAuthChange`: recompute from `access` only. */
    method OnAuthChange(store: LocalStorage)
      modifies this`isAuthenticated
      ensures isAuthenticated == NavbarFlag(store.items)
    {
      isAuthenticated := NavbarFlag(store.items);
    }

    /** The effect cleanup: the listener is removed. */
    method Unmount()
      modifies this`listening
      ensures !listening
    {
      listening := false;
    }

    /** `handleLogout`: remove the four keys, announce the change and go to
        the login page. The flag itself is recomputed by the announcement. */
    method HandleLogout(store: LocalStorage) returns (effects: seq<Effect>)
      modifies store
      ensures store.items == ClearCredentials(old(store.items))
      ensures effects == [DispatchAuthChange, Navigate("/login")]
    {
      store.RemoveItem(AccessKey);
      store.RemoveItem(RefreshKey);
      store.RemoveItem(TokenKey);
      store.RemoveItem(UsernameKey);
      effects := [DispatchAuthChange, Navigate("/login")];
    }
  }
}
