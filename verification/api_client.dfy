/** The shared axios instance: a request interceptor that attaches the
    `token` key as a bearer header, and a response interceptor that sends
    the user to the login page on a 401. */
module ApiClient {
  import opened Wrappers
  import opened Browser

  type Headers = map<string, string>

  const DefaultHeaders: Headers := map["Content-Type" := "application/json"]
  const ExpiredAlert := "Session expired. Please login again."

  /** The headers after the request interceptor ran against storage `m`:
      `Authorization` is `Bearer <token>` when `token` is truthy; otherwise
      the headers are as they were. */
  function WithAuthorization(headers: Headers, m: Storage): (r: Headers)
    ensures Truthy(m, TokenKey) ==> r == headers["Authorization" := "Bearer " + m[TokenKey]]
    ensures !Truthy(m, TokenKey) ==> r == headers
  {
    if Truthy(m, TokenKey) then headers["Authorization" := Bearer(Some(m[TokenKey]))] else headers
  }

  /** The request configuration the interceptor updates in place. */
  class RequestConfig {
    var headers: Headers

    constructor ()
      ensures headers == DefaultHeaders
    {
      headers := DefaultHeaders;
    }

    /** The request interceptor, run on every request: the token is read
        from storage at that moment. */
    method Intercept(store: LocalStorage)
      modifies this
      ensures headers == WithAuthorization(old(headers), store.items)
    {
      var token := Get(store.items, TokenKey);
      if token.Some? && token.value != "" {
        headers := headers["Authorization" := Bearer(token)];
      }
    }
  }

  /** The headers do not depend on when the client was created: two
      requests against different storage differ exactly in what the token
      key holds. */
  lemma TokenReadPerRequest(headers: Headers, before: Storage, after: Storage)
    requires Truthy(before, TokenKey) && Truthy(after, TokenKey)
    requires before[TokenKey] != after[TokenKey]
    ensures WithAuthorization(headers, before) != WithAuthorization(headers, after)
  {
    assert WithAuthorization(headers, before)["Authorization"] == "Bearer " + before[TokenKey];
    assert WithAuthorization(headers, after)["Authorization"] == "Bearer " + after[TokenKey];
    assert ("Bearer " + before[TokenKey])[7..] == before[TokenKey];
    assert ("Bearer " + after[TokenKey])[7..] == after[TokenKey];
  }

  /** The response interceptor. The outcome reaches the caller exactly as
      it came (a success resolves unchanged, an error is still rejected);
      a 401 additionally shows an alert and sets `window.location.href`.
      Storage is not in reach of either branch, so nothing is cleared. */
  function OnResponse<T>(outcome: Outcome<T>): (r: (Outcome<T>, seq<Effect>))
    ensures r.0 == outcome
    ensures r.1 != [] <==> outcome.Err? && outcome.failure.ErrorResponse? && outcome.failure.status == 401
    ensures r.1 != [] ==> r.1 == [Alert(ExpiredAlert), SetLocation("/login")]
  {
    match outcome
    case Ok(_) => (outcome, [])
    case Err(failure) =>
      if failure.ErrorResponse? && failure.status == 401 then
        (outcome, [Alert(ExpiredAlert), SetLocation("/login")])
      else (outcome, [])
  }
}
