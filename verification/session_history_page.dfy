/** The session-history page: one fetch through the shared axios client when
    the page mounts, the state it leaves behind, and which notices the page
    then shows. */
module SessionHistoryPage {
  import opened Wrappers
  import opened Browser
  import opened ApiClient
  import InterviewsBackend

  type Entry = InterviewsBackend.HistoryEntry

  const HistoryFallbackMessage := "Failed to load session history. Make sure you are logged in."

  /** `err.response?.data?.error || <fallback>`: the `error` field when it is
      truthy, the fixed message otherwise. `detail` is not consulted. */
  function HistoryError(data: Option<ErrorData>): (m: Message)
    ensures data.Some? && data.value.error.Some? && data.value.error.value.Truthy() ==>
      m == data.value.error.value
    ensures !(data.Some? && data.value.error.Some? && data.value.error.value.Truthy()) ==>
      m == Text(HistoryFallbackMessage)
    // A failed fetch always leaves a message to show.
    ensures m.Truthy()
  {
    if data.Some? && data.value.error.Some? && data.value.error.value.Truthy() then data.value.error.value
    else Text(HistoryFallbackMessage)
  }

  class HistoryPage {
    var sessions: seq<Entry>
    var loading: bool
    var error: Message

    constructor ()
      ensures sessions == [] && loading && error == Text("")
    {
      sessions, loading, error := [], true, Text("");
    }

    /** "No interview sessions found." is rendered. */
    predicate ShowsEmptyNotice(): (b: bool)
      reads this
      // `!error` holds only for the empty string; an array is truthy.
      ensures b <==> !loading && error == Text("") && sessions == []
    {
      !loading && !error.Truthy() && sessions == []
    }

    /** The start of `fetchSessions`: loading, and no error shown. */
    method BeginFetch()
      modifies this
      ensures loading && error == Text("") && sessions == old(sessions)
    {
      loading := true;
      error := Text("");
    }

    /** The rest of `fetchSessions` once the request has settled: the list
        exactly as received on success, the error message on failure with
        the list kept, and `loading` cleared either way. */
    method FinishFetch(outcome: Outcome<seq<Entry>>)
      requires loading && error == Text("")
      modifies this
      ensures !loading
      ensures outcome.Ok? ==> sessions == outcome.payload && error == Text("")
      ensures outcome.Err? ==> sessions == old(sessions) && error == HistoryError(outcome.failure.Data())
    {
      if outcome.Ok? {
        sessions := outcome.payload;
      } else {
        error := HistoryError(outcome.failure.Data());
      }
      loading := false;
    }

    /** `fetchSessions`, given the outcome of the request. The request
        carries the headers of the axios client after its request
        interceptor, and a 401 brings the interceptor's alert and redirect. */
    method FetchSessions(store: LocalStorage, outcome: Outcome<seq<Entry>>) returns (effects: seq<Effect>)
      modifies this
      ensures !loading
      ensures outcome.Ok? ==> sessions == outcome.payload && error == Text("")
      ensures outcome.Err? ==> sessions == old(sessions) && error == HistoryError(outcome.failure.Data())
      ensures effects == [Send(SessionHistoryRequest(WithAuthorization(DefaultHeaders, store.items)))]
                         + OnResponse(outcome).1
      // The empty-list notice is shown exactly when the request succeeded
      // with an empty list: a failure always leaves a message, which hides
      // the notice even when no sessions are loaded.
      ensures ShowsEmptyNotice() <==> outcome.Ok? && outcome.payload == []
    {
      BeginFetch();
      var config := new RequestConfig();
      config.Intercept(store);
      effects := [Send(SessionHistoryRequest(config.headers))];
      var (settled, interceptorEffects) := OnResponse(outcome);
      effects := effects + interceptorEffects;
      FinishFetch(settled);
    }
  }
}
