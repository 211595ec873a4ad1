/** The stand-alone logout button: a confirmation dialog, then the removal
    of three of the four credential keys. */
module LogoutButton {
  import opened Browser

  /** The three `localStorage.removeItem` calls: `token`, `refresh` and
      `access`; `username` stays. */
  function ForgetTokens(m: Storage): (r: Storage)
    ensures r.Keys == m.Keys - {TokenKey, RefreshKey, AccessKey}
    ensures UsernameKey in m ==> UsernameKey in r && r[UsernameKey] == m[UsernameKey]
    ensures forall k | k in r :: r[k] == m[k]
  {
    m - {TokenKey, RefreshKey, AccessKey}
  }

  /** `handleLogout`, given the answer to the confirmation dialog. */
  method HandleLogout(store: LocalStorage, confirmed: bool) returns (effects: seq<Effect>)
    modifies store
    ensures !confirmed ==> store.items == old(store.items) && effects == []
    ensures confirmed ==>
      && store.items == ForgetTokens(old(store.items))
      && effects == [DispatchAuthChange, Navigate("/login")]
  {
    if !confirmed {
      return [];
    }
    store.RemoveItem(TokenKey);
    store.RemoveItem(RefreshKey);
    store.RemoveItem(AccessKey);
    effects := [DispatchAuthChange, Navigate("/login")];
  }
}
