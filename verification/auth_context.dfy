/** The React context that holds the route guard's "logged in" flag,
    derived from the `token` key. */
module AuthContext {
  import opened Browser

  /** The flag the context derives from storage. */
  predicate ContextFlag(m: Storage): (b: bool)
    ensures b <==> TokenKey in m && m[TokenKey] != ""
  {
    Truthy(m, TokenKey)
  }

  class AuthProvider {
    var isAuthenticated: bool
    /** Whether the `authChange` listener is registered. */
    var listening: bool

    /** Mount: the flag starts from `token` and the listener is registered. */
    constructor (store: LocalStorage)
      ensures isAuthenticated == ContextFlag(store.items)
      ensures listening
    {
      isAuthenticated := ContextFlag(store.items);
      listening := true;
    }

    /** `handleAuthChange`: recompute from `token` only. */
    method OnAuthChange(store: LocalStorage)
      modifies this`isAuthenticated
      ensures isAuthenticated == ContextFlag(store.items)
    {
      isAuthenticated := ContextFlag(store.items);
    }

    /** `setIsAuthenticated` as exposed to consumers: the flag changes,
        storage is not touched (no storage is even in reach). */
    method SetIsAuthenticated(value: bool)
      modifies this`isAuthenticated
      ensures isAuthenticated == value
    {
      isAuthenticated := value;
    }

    /** Unmount: the listener is removed. */
    method Unmount()
      modifies this`listening
      ensures !listening
      ensures isAuthenticated == old(isAuthenticated)
    {
      listening := false;
    }
  }
}
