/** What the client code sees of the browser: `localStorage`, the effects a
    handler has on the outside world, and the outcome of an HTTP request,
    which the model takes as an input. */
module Browser {
  import opened Wrappers

  type Storage = map<string, string>

  // The storage keys the client code uses. The pages and the API helpers do
  // not agree on them: Navbar, Login and Register use "access", AuthContext
  // and the axios client use "token", api/auth.js uses "access_token".
  const AccessKey := "access"
  const RefreshKey := "refresh"
  const TokenKey := "token"
  const UsernameKey := "username"
  const AccessTokenKey := "access_token"
  const RefreshTokenKey := "refresh_token"

  /** `!!localStorage.getItem(k)`: the key is present and its value is not
      the empty string (an empty string is falsy in JavaScript). */
  predicate Truthy(m: Storage, k: string) {
    k in m && m[k] != ""
  }

  /** `localStorage.getItem(k)`. */
  function Get(m: Storage, k: string): (r: Option<string>)
    ensures r.Some? <==> k in m
    ensures r.Some? ==> r.value == m[k]
  {
    if k in m then Some(m[k]) else None
  }

  /** The browser's `localStorage`, which the handlers update in place. */
  class LocalStorage {
    var items: Storage

    constructor (initial: Storage)
      ensures items == initial
    {
      items := initial;
    }

    method SetItem(k: string, v: string)
      modifies this
      ensures items == old(items)[k := v]
    {
      items := items[k := v];
    }

    method RemoveItem(k: string)
      modifies this
      ensures items == old(items) - {k}
    {
      items := items - {k};
    }
  }

  /** What a page component keeps in its `error` state: React renders a
      string or, when the server sent an array, the array itself. */
  datatype Message = Text(text: string) | List(items: seq<string>) {
    /** JavaScript truthiness: an empty string is falsy, every array is truthy. */
    predicate Truthy() {
      !(Text? && text == "")
    }
  }

  /** The `data` of an error response as the pages read it: `data.error`
      (absent, a string or an array of strings) and `data.detail`. */
  datatype ErrorData = ErrorData(error: Option<Message>, detail: Option<string>)

  /** Why a request failed: no response at all (network failure), or an
      error status with its body. */
  datatype Failure = NoResponse | ErrorResponse(status: int, data: ErrorData) {
    /** `err.response?.data`. */
    function Data(): Option<ErrorData> {
      if ErrorResponse? then Some(data) else None
    }
  }

  /** The `access`/`refresh` pair of a successful token response. */
  datatype TokenPair = TokenPair(access: string, refresh: string)

  /** The header value `Bearer ${t}` of a template literal: a missing value
      is rendered as the text "null". */
  function Bearer(t: Option<string>): (h: string)
    ensures t.Some? ==> h == "Bearer " + t.value
    ensures t.None? ==> h == "Bearer null"
  {
    "Bearer " + t.GetOr("null")
  }

  /** The outcome of one request, supplied to the model as an input. */
  datatype Outcome<+T> = Ok(payload: T) | Err(failure: Failure)

  /** The requests the client sends, one constructor per endpoint, with
      exactly the fields of the request body and the `Authorization`
      header the caller attaches (if any). */
  datatype Request =
    | RegisterRequest(username: string, email: string, password: string)
    | TokenRequest(username: string, password: string)
    | LoginRequest(username: string, password: string)
    | LogoutRequest(refresh: Option<string>, authorization: string)
    | GenerateQuestionRequest(role: string, authorization: string)
    | EvaluateAnswerRequest(sessionId: Option<int>, question: string, answer: string, authorization: string)
    | SessionHistoryRequest(headers: map<string, string>)

  /** The effects of a handler on the world outside its own state. */
  datatype Effect =
    | Send(request: Request)
    | DispatchAuthChange         // window.dispatchEvent(new Event("authChange"))
    | Navigate(path: string)     // react-router navigate(path) or <Navigate to=path/>
    | SetLocation(href: string)  // window.location.href = href
    | Alert(message: string)     // window.alert(message)
}
