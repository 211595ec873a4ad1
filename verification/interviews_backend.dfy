/** The interview endpoints of the server: question generation with
    session reuse per (user, role), answer evaluation with the score taken
    from the feedback text, manual session saving, and the session history.
    The three ORM tables are sequences in insertion (primary-key) order; the
    language model's reply is an input. */
module InterviewsBackend {
  import opened Wrappers
  import opened Text

  type UserId = nat

  /** A `UserSession` row; `score` is nullable and defaults to 0. */
  datatype UserSession = UserSession(id: nat, user: UserId, role: string, score: Option<int>, startedAt: int)

  /** A `Question` row; `score` defaults to 0 and is never written by the views. */
  datatype QuestionRow = QuestionRow(id: nat, text: string, session: Option<nat>, score: int)

  /** An `Answer` row. Its float `score` column is never written by the
      views and is not part of this model. */
  datatype AnswerRow = AnswerRow(id: nat, session: Option<nat>, question: Option<nat>, text: string, feedback: Option<string>)

  /** The reply of the chat-completion call. */
  datatype Completion = Completion(content: string) | CompletionFailed(reason: string)

  /** The exceptions the views turn into a 500 `{"error": str(e)}`. */
  datatype Failure = LlmFailure(reason: string) | MultipleSessions(count: nat)

  /** One entry of the history list. `feedback` is `None` when the last
      answer has a null feedback column. */
  datatype HistoryEntry = HistoryEntry(id: nat, role: string, question: string, answer: string,
                                       feedback: Option<string>, score: int, startedAt: int)

  datatype Body =
    | ErrorMessage(error: string)
    | ServerFailure(cause: Failure)
    | QuestionCreated(question: string, sessionId: nat)
    | Evaluated(feedback: string, score: Option<nat>)
    | SessionSaved(message: string)
    | History(entries: seq<HistoryEntry>)

  datatype Response = Response(status: nat, body: Body)

  const DefaultRole := "Software Developer"
  const BothRequiredMessage := "Both 'question' and 'answer' are required."
  const SessionSavedMessage := "Session saved successfully!"

  // ---------------------------------------------------------------------
  // Filtering and "last row" lookups
  // ---------------------------------------------------------------------

  /** The rows of `s` satisfying `p`, in their order. */
  function Filter<T>(s: seq<T>, p: T -> bool): (r: seq<T>)
    ensures |r| <= |s|
  {
    if s == [] then []
    else (if p(s[0]) then [s[0]] else []) + Filter(s[1..], p)
  }

  /** Filtering keeps exactly the rows that pass. */
  lemma {:induction false} FilterMembers<T>(s: seq<T>, p: T -> bool)
    ensures forall k | 0 <= k < |Filter(s, p)| :: p(Filter(s, p)[k]) && Filter(s, p)[k] in s
    ensures forall k | 0 <= k < |s| && p(s[k]) :: s[k] in Filter(s, p)
  {
    if s != [] {
      FilterMembers(s[1..], p);
      assert s == [s[0]] + s[1..];
      forall k | 0 <= k < |s| && p(s[k])
        ensures s[k] in Filter(s, p)
      {
        if k > 0 {
          assert s[k] == s[1..][k - 1];
        }
      }
    }
  }

  /** Filtering keeps every row that passes as often as it occurs. */
  lemma {:induction false} FilterCount<T>(s: seq<T>, p: T -> bool, x: T)
    ensures multiset(Filter(s, p))[x] == if p(x) then multiset(s)[x] else 0
  {
    if s != [] {
      assert s == [s[0]] + s[1..];
      FilterCount(s[1..], p, x);
    }
  }

  lemma {:induction false} FilterAppend<T>(a: seq<T>, b: seq<T>, p: T -> bool)
    ensures Filter(a + b, p) == Filter(a, p) + Filter(b, p)
  {
    if a == [] {
      assert a + b == b;
    } else {
      var head := if p(a[0]) then [a[0]] else [];
      assert (a + b)[0] == a[0];
      assert (a + b)[1..] == a[1..] + b;
      assert Filter(a + b, p) == head + Filter(a[1..] + b, p);
      FilterAppend(a[1..], b, p);
      assert head + (Filter(a[1..], p) + Filter(b, p)) == (head + Filter(a[1..], p)) + Filter(b, p);
    }
  }

  /** The index of the last row satisfying `p`. */
  function LastIndexWhere<T>(s: seq<T>, p: T -> bool): (r: Option<nat>)
    ensures r.Some? ==> r.value < |s|
  {
    if s == [] then None
    else if p(s[|s| - 1]) then Some(|s| - 1)
    else LastIndexWhere(s[..|s| - 1], p)
  }

  /** The index found is that of a row satisfying `p` with none after it;
      there is none exactly when no row satisfies `p`. */
  lemma {:induction false} LastIndexWhereSpec<T>(s: seq<T>, p: T -> bool)
    ensures LastIndexWhere(s, p).None? <==> forall k | 0 <= k < |s| :: !p(s[k])
    ensures LastIndexWhere(s, p).Some? ==> p(s[LastIndexWhere(s, p).value])
    ensures LastIndexWhere(s, p).Some? ==> forall k | LastIndexWhere(s, p).value < k < |s| :: !p(s[k])
  {
    if s != [] && !p(s[|s| - 1]) {
      var init := s[..|s| - 1];
      LastIndexWhereSpec(init, p);
      assert forall k | 0 <= k < |init| :: init[k] == s[k];
    }
  }

  // Ids strictly increase along each table and stay below the next id, as
  // an auto-increment primary key guarantees.

  predicate SessionIdsIncreasing(rows: seq<UserSession>, next: nat) {
    && (forall i, j | 0 <= i < j < |rows| :: rows[i].id < rows[j].id)
    && (forall i | 0 <= i < |rows| :: rows[i].id < next)
  }

  predicate QuestionIdsIncreasing(rows: seq<QuestionRow>, next: nat) {
    && (forall i, j | 0 <= i < j < |rows| :: rows[i].id < rows[j].id)
    && (forall i | 0 <= i < |rows| :: rows[i].id < next)
  }

  predicate AnswerIdsIncreasing(rows: seq<AnswerRow>, next: nat) {
    && (forall i, j | 0 <= i < j < |rows| :: rows[i].id < rows[j].id)
    && (forall i | 0 <= i < |rows| :: rows[i].id < next)
  }

  lemma AppendSessionKeepsIds(rows: seq<UserSession>, next: nat, x: UserSession)
    requires SessionIdsIncreasing(rows, next) && x.id == next
    ensures SessionIdsIncreasing(rows + [x], next + 1)
  {
  }

  lemma AppendQuestionKeepsIds(rows: seq<QuestionRow>, next: nat, x: QuestionRow)
    requires QuestionIdsIncreasing(rows, next) && x.id == next
    ensures QuestionIdsIncreasing(rows + [x], next + 1)
  {
  }

  lemma AppendAnswerKeepsIds(rows: seq<AnswerRow>, next: nat, x: AnswerRow)
    requires AnswerIdsIncreasing(rows, next) && x.id == next
    ensures AnswerIdsIncreasing(rows + [x], next + 1)
  {
  }

  /** `qs[k]` is the last question row of session `sid`. */
  predicate LastQuestionAt(qs: seq<QuestionRow>, k: int, sid: nat) {
    && 0 <= k < |qs| && qs[k].session == Some(sid)
    && forall j | k < j < |qs| :: qs[j].session != Some(sid)
  }

  /** `as[k]` is the last answer row of session `sid`. */
  predicate LastAnswerAt(rows: seq<AnswerRow>, k: int, sid: nat) {
    && 0 <= k < |rows| && rows[k].session == Some(sid)
    && forall j | k < j < |rows| :: rows[j].session != Some(sid)
  }

  /** `Question.objects.filter(session=session).last()`: with no ordering
      on the model, `last()` is the row with the greatest primary key, which
      is the last matching row of the table. */
  lemma LastQuestionHasGreatestId(qs: seq<QuestionRow>, next: nat, k: int, sid: nat)
    requires QuestionIdsIncreasing(qs, next)
    requires LastQuestionAt(qs, k, sid)
    ensures forall j | 0 <= j < |qs| && qs[j].session == Some(sid) :: qs[j].id <= qs[k].id
  {
    forall j | 0 <= j < |qs| && qs[j].session == Some(sid)
      ensures qs[j].id <= qs[k].id
    {
      if j != k {
        assert j < k;
      }
    }
  }

  // ---------------------------------------------------------------------
  // The score in the feedback text: re.search(r"(\d+)/10", feedback)
  // ---------------------------------------------------------------------

  /** The pattern `(\d+)/10` matches with its group at `s[i..j]`. */
  predicate RegexMatch(s: string, i: int, j: int) {
    0 <= i < j && j + 3 <= |s| && AllDigits(s[i..j]) && s[j..j + 3] == "/10"
  }

  /** The end of the run of digits that starts at `i`. */
  function RunEnd(s: string, i: nat): (k: nat)
    requires i <= |s|
    ensures i <= k <= |s|
    ensures forall t | i <= t < k :: IsAsciiDigit(s[t])
    ensures k == |s| || !IsAsciiDigit(s[k])
    decreases |s| - i
  {
    if i < |s| && IsAsciiDigit(s[i]) then RunEnd(s, i + 1) else i
  }

  /** A match that starts at `i` ends where the digit run ends: `\d+` is
      greedy, and backing off leaves a digit where "/" is needed. */
  lemma MatchEndsAtRunEnd(s: string, i: nat, j: int)
    requires i <= |s| && RegexMatch(s, i, j)
    ensures j == RunEnd(s, i)
  {
    var k := RunEnd(s, i);
    forall t | i <= t < j
      ensures IsAsciiDigit(s[t])
    {
      assert s[t] == s[i..j][t - i];
    }
    assert s[j] == s[j..j + 3][0];
  }

  /** The search of `re.search`: the leftmost match starting at or after `i`. */
  function SearchFrom(s: string, i: nat): (r: Option<(nat, nat)>)
    requires i <= |s|
    ensures r.Some? ==> i <= r.value.0 && RegexMatch(s, r.value.0, r.value.1)
    ensures r.Some? ==> forall a, b | i <= a < r.value.0 :: !RegexMatch(s, a, b)
    ensures r.None? ==> forall a, b | i <= a :: !RegexMatch(s, a, b)
    decreases |s| - i
  {
    if i == |s| then None
    else
      var k := RunEnd(s, i);
      if k > i && k + 3 <= |s| && s[k..k + 3] == "/10" then
        assert AllDigits(s[i..k]);
        Some((i, k))
      else
        NoMatchAt(s, i);
        SearchFrom(s, i + 1)
  }

  lemma NoMatchAt(s: string, i: nat)
    requires i < |s|
    requires !(RunEnd(s, i) > i && RunEnd(s, i) + 3 <= |s| && s[RunEnd(s, i)..RunEnd(s, i) + 3] == "/10")
    ensures forall b :: !RegexMatch(s, i, b)
  {
    forall b | RegexMatch(s, i, b)
      ensures false
    {
      MatchEndsAtRunEnd(s, i, b);
    }
  }

  /** The score of a feedback text: the value of the group of the leftmost
      match, `None` when there is no match. No range check is made. */
  function ParseScore(feedback: string): (score: Option<nat>)
    ensures score.None? <==> forall a, b :: !RegexMatch(feedback, a, b)
  {
    match SearchFrom(feedback, 0)
    case None => None
    case Some((i, j)) => Some(DigitsValue(feedback[i..j]))
  }

  /** The score is read from the leftmost match, whatever follows it. */
  lemma {:induction false} ScoreIsLeftmostMatch(s: string, i: int, j: int)
    requires RegexMatch(s, i, j)
    requires forall a, b | 0 <= a < i :: !RegexMatch(s, a, b)
    ensures ParseScore(s) == Some(DigitsValue(s[i..j]))
  {
    var r := SearchFrom(s, 0);
    assert r.Some?;
    var (a, b) := r.value;
    assert a == i;
    MatchEndsAtRunEnd(s, i, j);
    MatchEndsAtRunEnd(s, a, b);
  }

  /** "85/100" scores 85: "/100" begins with "/10", and there is no bound. */
  lemma ScoreNotRangeChecked()
    ensures ParseScore("85/100") == Some(85)
  {
    var s := "85/100";
    assert s[0..2] == "85" && s[2..5] == "/10";
    assert RegexMatch(s, 0, 2);
    ScoreIsLeftmostMatch(s, 0, 2);
    assert DigitsValue("85") == 85 by {
      assert "85"[..1] == "8";
      assert "8"[..0] == "";
    }
  }

  // ---------------------------------------------------------------------
  // generate_question: UserSession.objects.get_or_create(user, role)
  // ---------------------------------------------------------------------

  predicate IsFor(s: UserSession, user: UserId, role: string) {
    s.user == user && s.role == role
  }

  datatype Lookup = Found(session: UserSession) | Created(session: UserSession) | TooMany(count: nat)

  /** `get_or_create`: the one session of (user, role), or a new one when
      there is none; more than one raises `MultipleObjectsReturned`. */
  function GetOrCreate(sessions: seq<UserSession>, nextId: nat, user: UserId, role: string, now: int): (r: Lookup)
    ensures r.Created? ==> r.session == UserSession(nextId, user, role, Some(0), now)
  {
    var matching := Filter(sessions, (s: UserSession) => IsFor(s, user, role));
    if |matching| == 0 then Created(UserSession(nextId, user, role, Some(0), now))
    else if |matching| == 1 then Found(matching[0])
    else TooMany(|matching|)
  }

  /** What the lookup finds: the one matching session, a new one exactly
      when none matches, or the number of matches when there are several. */
  lemma GetOrCreateSpec(sessions: seq<UserSession>, nextId: nat, user: UserId, role: string, now: int)
    ensures var r := GetOrCreate(sessions, nextId, user, role, now);
      && (r.Found? ==>
            && r.session in sessions && IsFor(r.session, user, role)
            && Filter(sessions, (s: UserSession) => IsFor(s, user, role)) == [r.session])
      && (r.Created? <==> forall s | s in sessions :: !IsFor(s, user, role))
      && (r.TooMany? ==> r.count >= 2 && r.count == |Filter(sessions, (s: UserSession) => IsFor(s, user, role))|)
  {
    var p := (s: UserSession) => IsFor(s, user, role);
    FilterMembers(sessions, p);
    if Filter(sessions, p) != [] {
      assert p(Filter(sessions, p)[0]);
    } else {
      forall s | s in sessions
        ensures !IsFor(s, user, role)
      {
        var k :| 0 <= k < |sessions| && sessions[k] == s;
      }
    }
  }

  /** The sessions table after `get_or_create`. */
  function AfterLookup(sessions: seq<UserSession>, r: Lookup): seq<UserSession> {
    if r.Created? then sessions + [r.session] else sessions
  }

  /** Two consecutive requests for the same user and role get the same
      session: the first finds or creates it, the second finds it. */
  lemma {:induction false} GetOrCreateReuses(sessions: seq<UserSession>, nextId: nat, user: UserId, role: string,
                                             now: int, nextId': nat, now': int)
    requires !GetOrCreate(sessions, nextId, user, role, now).TooMany?
    ensures var r := GetOrCreate(sessions, nextId, user, role, now);
      GetOrCreate(AfterLookup(sessions, r), nextId', user, role, now') == Found(r.session)
  {
    var r := GetOrCreate(sessions, nextId, user, role, now);
    var p := (s: UserSession) => IsFor(s, user, role);
    if r.Created? {
      FilterAppend(sessions, [r.session], p);
      assert Filter(sessions, p) == [];
      assert Filter([r.session], p) == [r.session];
    }
  }

  // ---------------------------------------------------------------------
  // evaluate_answer
  // ---------------------------------------------------------------------

  /** `UserSession.objects.filter(id=session_id, user=user).first()`, or a
      new session of that user (empty role, score 0) when there is none. */
  function ResolveSession(sessions: seq<UserSession>, nextId: nat, sessionId: Option<int>,
                          user: UserId, now: int): (r: (UserSession, bool))
    ensures r.1 ==> r.0 == UserSession(nextId, user, "", Some(0), now)
  {
    var owned := Filter(sessions, (s: UserSession) => Some(s.id as int) == sessionId && s.user == user);
    if owned == [] then (UserSession(nextId, user, "", Some(0), now), true)
    else (owned[0], false)
  }

  /** An existing session is used only when it has the requested id and
      belongs to the user; a new one is made exactly when there is none. */
  lemma ResolveSessionSpec(sessions: seq<UserSession>, nextId: nat, sessionId: Option<int>, user: UserId, now: int)
    ensures var r := ResolveSession(sessions, nextId, sessionId, user, now);
      && (!r.1 ==> r.0 in sessions && Some(r.0.id as int) == sessionId && r.0.user == user)
      && (r.1 <==> forall s | s in sessions :: !(Some(s.id as int) == sessionId && s.user == user))
  {
    var p := (s: UserSession) => Some(s.id as int) == sessionId && s.user == user;
    FilterMembers(sessions, p);
    if Filter(sessions, p) != [] {
      assert p(Filter(sessions, p)[0]);
    } else {
      forall s | s in sessions
        ensures !p(s)
      {
        var k :| 0 <= k < |sessions| && sessions[k] == s;
      }
    }
  }

  /** The sessions table after the session of an answer is resolved. */
  function AfterResolve(sessions: seq<UserSession>, nextId: nat, sessionId: Option<int>, user: UserId, now: int): seq<UserSession> {
    var r := ResolveSession(sessions, nextId, sessionId, user, now);
    if r.1 then sessions + [r.0] else sessions
  }

  /** `session.score = score; session.save()`: the row with that id gets
      the new score; every other row, and every other column, is kept. */
  function SetScore(sessions: seq<UserSession>, id: nat, score: Option<int>): (r: seq<UserSession>)
    ensures |r| == |sessions|
    ensures forall k | 0 <= k < |r| && sessions[k].id == id :: r[k] == sessions[k].(score := score)
    ensures forall k | 0 <= k < |r| && sessions[k].id != id :: r[k] == sessions[k]
  {
    seq(|sessions|, k requires 0 <= k < |sessions| =>
      if sessions[k].id == id then sessions[k].(score := score) else sessions[k])
  }

  lemma SetScoreKeepsIds(rows: seq<UserSession>, next: nat, id: nat, score: Option<int>)
    requires SessionIdsIncreasing(rows, next)
    ensures SessionIdsIncreasing(SetScore(rows, id, score), next)
  {
  }

  // ---------------------------------------------------------------------
  // session_history
  // ---------------------------------------------------------------------

  predicate SortedByRecency(s: seq<UserSession>) {
    forall i, j | 0 <= i < j < |s| :: s[i].startedAt >= s[j].startedAt
  }

  /** A row no older than the head of a sorted list can go in front of it. */
  lemma ConsSorted(h: UserSession, t: seq<UserSession>)
    requires SortedByRecency(t)
    requires t == [] || h.startedAt >= t[0].startedAt
    ensures SortedByRecency([h] + t)
  {
    forall i, j | 0 <= i < j < |t| + 1
      ensures ([h] + t)[i].startedAt >= ([h] + t)[j].startedAt
    {
      if i == 0 {
        assert t[0].startedAt >= t[j - 1].startedAt;
      }
    }
  }

  /** Inserts `x` in front of the first row that is not more recent. */
  function InsertByRecency(x: UserSession, sorted: seq<UserSession>): (r: seq<UserSession>)
    ensures |r| == |sorted| + 1
  {
    if sorted == [] || x.startedAt >= sorted[0].startedAt then [x] + sorted
    else [sorted[0]] + InsertByRecency(x, sorted[1..])
  }

  /** Insertion into a sorted list keeps it sorted and adds `x` once. */
  lemma {:induction false} InsertByRecencySorts(x: UserSession, sorted: seq<UserSession>)
    requires SortedByRecency(sorted)
    ensures SortedByRecency(InsertByRecency(x, sorted))
    ensures multiset(InsertByRecency(x, sorted)) == multiset(sorted) + multiset{x}
    ensures InsertByRecency(x, sorted)[0] == x || InsertByRecency(x, sorted)[0] == sorted[0]
  {
    if sorted == [] || x.startedAt >= sorted[0].startedAt {
      ConsSorted(x, sorted);
    } else {
      var tail := sorted[1..];
      assert sorted == [sorted[0]] + tail;
      InsertByRecencySorts(x, tail);
      var rest := InsertByRecency(x, tail);
      assert rest[0].startedAt <= sorted[0].startedAt by {
        if rest[0] != x {
          assert rest[0] == sorted[1];
        }
      }
      ConsSorted(sorted[0], rest);
    }
  }

  /** `order_by('-started_at')`: most recent first. Rows with equal
      timestamps come in an order the database does not fix; the model
      picks one. */
  function SortByRecency(s: seq<UserSession>): (r: seq<UserSession>)
    ensures |r| == |s|
  {
    if s == [] then [] else InsertByRecency(s[0], SortByRecency(s[1..]))
  }

  /** The sort yields a list ordered most recent first holding the same
      rows as often as the input does. */
  lemma {:induction false} SortByRecencySorts(s: seq<UserSession>)
    ensures SortedByRecency(SortByRecency(s))
    ensures multiset(SortByRecency(s)) == multiset(s)
  {
    if s != [] {
      assert s == [s[0]] + s[1..];
      SortByRecencySorts(s[1..]);
      InsertByRecencySorts(s[0], SortByRecency(s[1..]));
    }
  }

  /** The sessions the history lists, in the order it lists them. */
  function HistoryOrder(sessions: seq<UserSession>, user: UserId): (r: seq<UserSession>)
    ensures SortedByRecency(r)
    ensures multiset(r) == multiset(Filter(sessions, (s: UserSession) => s.user == user))
  {
    SortByRecencySorts(Filter(sessions, (s: UserSession) => s.user == user));
    SortByRecency(Filter(sessions, (s: UserSession) => s.user == user))
  }

  /** The history lists the user's sessions, most recent first, each
      exactly as often as the table holds it, and no session of anyone
      else. */
  lemma HistoryListsExactlyTheUsersSessions(sessions: seq<UserSession>, user: UserId, x: UserSession)
    ensures SortedByRecency(HistoryOrder(sessions, user))
    ensures multiset(HistoryOrder(sessions, user))[x] == if x.user == user then multiset(sessions)[x] else 0
  {
    FilterCount(sessions, (s: UserSession) => s.user == user, x);
  }

  /** One history entry: the session's last question and last answer, with
      the fallbacks "N/A", "No question", "No answer", "No feedback", and
      a null or zero score shown as 0. */
  function EntryOf(s: UserSession, qs: seq<QuestionRow>, rows: seq<AnswerRow>): (e: HistoryEntry)
    ensures e.id == s.id && e.startedAt == s.startedAt
    ensures e.role == (if s.role == "" then "N/A" else s.role)
    ensures s.score.None? ==> e.score == 0
    ensures s.score.Some? ==> e.score == s.score.value
  {
    var q := LastIndexWhere(qs, (q: QuestionRow) => q.session == Some(s.id));
    var a := LastIndexWhere(rows, (a: AnswerRow) => a.session == Some(s.id));
    HistoryEntry(
      s.id,
      if s.role != "" then s.role else "N/A",
      if q.Some? then qs[q.value].text else "No question",
      if a.Some? then rows[a.value].text else "No answer",
      if a.Some? then rows[a.value].feedback else Some("No feedback"),
      if s.score.Some? && s.score.value != 0 then s.score.value else 0,
      s.startedAt)
  }

  /** The question an entry shows is the text of the session's last
      question, or "No question" when the session has none. */
  lemma EntryShowsLastQuestion(s: UserSession, qs: seq<QuestionRow>, rows: seq<AnswerRow>)
    ensures (forall k | 0 <= k < |qs| :: qs[k].session != Some(s.id)) ==>
      EntryOf(s, qs, rows).question == "No question"
    ensures forall k | LastQuestionAt(qs, k, s.id) :: EntryOf(s, qs, rows).question == qs[k].text
  {
    LastIndexWhereSpec(qs, (q: QuestionRow) => q.session == Some(s.id));
  }

  /** The answer and feedback an entry shows are those of the session's
      last answer, or "No answer" and "No feedback" when it has none. */
  lemma EntryShowsLastAnswer(s: UserSession, qs: seq<QuestionRow>, rows: seq<AnswerRow>)
    ensures (forall k | 0 <= k < |rows| :: rows[k].session != Some(s.id)) ==>
      EntryOf(s, qs, rows).answer == "No answer"
    ensures (forall k | 0 <= k < |rows| :: rows[k].session != Some(s.id)) ==>
      EntryOf(s, qs, rows).feedback == Some("No feedback")
    ensures forall k | LastAnswerAt(rows, k, s.id) :: EntryOf(s, qs, rows).answer == rows[k].text
    ensures forall k | LastAnswerAt(rows, k, s.id) :: EntryOf(s, qs, rows).feedback == rows[k].feedback
  {
    var p := (a: AnswerRow) => a.session == Some(s.id);
    LastIndexWhereSpec(rows, p);
    var a := LastIndexWhere(rows, p);
    var e := EntryOf(s, qs, rows);
    assert e.answer == if a.Some? then rows[a.value].text else "No answer";
    assert e.feedback == if a.Some? then rows[a.value].feedback else Some("No feedback");
    forall k | LastAnswerAt(rows, k, s.id)
      ensures a == Some(k)
    {
      assert p(rows[k]);
    }
  }

  // ---------------------------------------------------------------------
  // The tables and the views
  // ---------------------------------------------------------------------

  class InterviewStore {
    var sessions: seq<UserSession>
    var questions: seq<QuestionRow>
    var answers: seq<AnswerRow>
    var nextSessionId: nat
    var nextQuestionId: nat
    var nextAnswerId: nat

    predicate Valid()
      reads this
    {
      && SessionIdsIncreasing(sessions, nextSessionId)
      && QuestionIdsIncreasing(questions, nextQuestionId)
      && AnswerIdsIncreasing(answers, nextAnswerId)
    }

    constructor ()
      ensures Valid()
      ensures sessions == [] && questions == [] && answers == []
    {
      sessions, questions, answers := [], [], [];
      nextSessionId, nextQuestionId, nextAnswerId := 1, 1, 1;
    }

    /** `UserSession.objects.create`: the row gets the next id. */
    method CreateSession(row: UserSession)
      requires Valid() && row.id == nextSessionId
      modifies this
      ensures Valid()
      ensures sessions == old(sessions) + [row] && nextSessionId == old(nextSessionId) + 1
      ensures questions == old(questions) && nextQuestionId == old(nextQuestionId)
      ensures answers == old(answers) && nextAnswerId == old(nextAnswerId)
    {
      AppendSessionKeepsIds(sessions, nextSessionId, row);
      sessions := sessions + [row];
      nextSessionId := nextSessionId + 1;
    }

    /** `Question.objects.create`: the row gets the next id. */
    method CreateQuestion(row: QuestionRow)
      requires Valid() && row.id == nextQuestionId
      modifies this
      ensures Valid()
      ensures questions == old(questions) + [row] && nextQuestionId == old(nextQuestionId) + 1
      ensures sessions == old(sessions) && nextSessionId == old(nextSessionId)
      ensures answers == old(answers) && nextAnswerId == old(nextAnswerId)
    {
      AppendQuestionKeepsIds(questions, nextQuestionId, row);
      questions := questions + [row];
      nextQuestionId := nextQuestionId + 1;
    }

    /** `Answer.objects.create`: the row gets the next id. */
    method CreateAnswer(row: AnswerRow)
      requires Valid() && row.id == nextAnswerId
      modifies this
      ensures Valid()
      ensures answers == old(answers) + [row] && nextAnswerId == old(nextAnswerId) + 1
      ensures sessions == old(sessions) && nextSessionId == old(nextSessionId)
      ensures questions == old(questions) && nextQuestionId == old(nextQuestionId)
    {
      AppendAnswerKeepsIds(answers, nextAnswerId, row);
      answers := answers + [row];
      nextAnswerId := nextAnswerId + 1;
    }

    /** `session.score = score; session.save()`. */
    method SaveScore(id: nat, score: Option<int>)
      requires Valid()
      modifies this
      ensures Valid()
      ensures sessions == SetScore(old(sessions), id, score) && nextSessionId == old(nextSessionId)
      ensures questions == old(questions) && nextQuestionId == old(nextQuestionId)
      ensures answers == old(answers) && nextAnswerId == old(nextAnswerId)
    {
      SetScoreKeepsIds(sessions, nextSessionId, id, score);
      sessions := SetScore(sessions, id, score);
    }

    /** `generate_question`. */
    method GenerateQuestion(user: UserId, role: Option<string>, completion: Completion, now: int)
      returns (resp: Response)
      requires Valid()
      modifies this
      ensures Valid()
      ensures answers == old(answers)
      ensures GetOrCreate(old(sessions), old(nextSessionId), user, role.GetOr(DefaultRole), now).TooMany? ==>
        && resp == Response(500, ServerFailure(MultipleSessions(
             GetOrCreate(old(sessions), old(nextSessionId), user, role.GetOr(DefaultRole), now).count)))
        && sessions == old(sessions) && questions == old(questions)
      ensures !GetOrCreate(old(sessions), old(nextSessionId), user, role.GetOr(DefaultRole), now).TooMany? ==>
        sessions == AfterLookup(old(sessions), GetOrCreate(old(sessions), old(nextSessionId), user, role.GetOr(DefaultRole), now))
      ensures !GetOrCreate(old(sessions), old(nextSessionId), user, role.GetOr(DefaultRole), now).TooMany? &&
              completion.CompletionFailed? ==>
        && resp == Response(500, ServerFailure(LlmFailure(completion.reason)))
        && questions == old(questions)
      ensures !GetOrCreate(old(sessions), old(nextSessionId), user, role.GetOr(DefaultRole), now).TooMany? &&
              completion.Completion? ==>
        var sid := GetOrCreate(old(sessions), old(nextSessionId), user, role.GetOr(DefaultRole), now).session.id;
        && resp == Response(201, QuestionCreated(Strip(completion.content), sid))
        && questions == old(questions) + [QuestionRow(old(nextQuestionId), Strip(completion.content), Some(sid), 0)]
    {
      var r := GetOrCreate(sessions, nextSessionId, user, role.GetOr(DefaultRole), now);
      if r.TooMany? {
        return Response(500, ServerFailure(MultipleSessions(r.count)));
      }
      if r.Created? {
        CreateSession(r.session);
      }
      if completion.CompletionFailed? {
        return Response(500, ServerFailure(LlmFailure(completion.reason)));
      }
      var text := Strip(completion.content);
      CreateQuestion(QuestionRow(nextQuestionId, text, Some(r.session.id), 0));
      resp := Response(201, QuestionCreated(text, r.session.id));
    }

    /** `evaluate_answer`. */
    method EvaluateAnswer(user: UserId, question: Option<string>, answer: Option<string>,
                          sessionId: Option<int>, completion: Completion, now: int)
      returns (resp: Response)
      requires Valid()
      modifies this
      ensures Valid()
      ensures questions == old(questions)
      ensures MissingText(question) || MissingText(answer) ==>
        && resp == Response(400, ErrorMessage(BothRequiredMessage))
        && sessions == old(sessions) && answers == old(answers)
      ensures !MissingText(question) && !MissingText(answer) && completion.CompletionFailed? ==>
        && resp == Response(500, ServerFailure(LlmFailure(completion.reason)))
        && sessions == AfterResolve(old(sessions), old(nextSessionId), sessionId, user, now)
        && answers == old(answers)
      ensures !MissingText(question) && !MissingText(answer) && completion.Completion? ==>
        var sid := ResolveSession(old(sessions), old(nextSessionId), sessionId, user, now).0.id;
        var feedback := Strip(completion.content);
        && resp == Response(201, Evaluated(feedback, ParseScore(feedback)))
        && answers == old(answers) + [AnswerRow(old(nextAnswerId), Some(sid), None, answer.value, Some(feedback))]
        && sessions == SetScore(AfterResolve(old(sessions), old(nextSessionId), sessionId, user, now), sid, ParseScore(feedback))
    {
      if MissingText(question) || MissingText(answer) {
        return Response(400, ErrorMessage(BothRequiredMessage));
      }
      var (s, created) := ResolveSession(sessions, nextSessionId, sessionId, user, now);
      if created {
        CreateSession(s);
      }
      if completion.CompletionFailed? {
        return Response(500, ServerFailure(LlmFailure(completion.reason)));
      }
      var feedback := Strip(completion.content);
      var score := ParseScore(feedback);
      CreateAnswer(AnswerRow(nextAnswerId, Some(s.id), None, answer.value, Some(feedback)));
      SaveScore(s.id, score);
      resp := Response(201, Evaluated(feedback, score));
    }

    /** `save_session`: a new session with the given role (default "") and
        score (default null). */
    method SaveSession(user: UserId, role: Option<string>, score: Option<int>, now: int)
      returns (resp: Response)
      requires Valid()
      modifies this
      ensures Valid()
      ensures sessions == old(sessions) + [UserSession(old(nextSessionId), user, role.GetOr(""), score, now)]
      ensures questions == old(questions) && answers == old(answers)
      ensures resp == Response(201, SessionSaved(SessionSavedMessage))
    {
      CreateSession(UserSession(nextSessionId, user, role.GetOr(""), score, now));
      resp := Response(201, SessionSaved(SessionSavedMessage));
    }

    /** `session_history`: one entry per session of the user, most recent
        first, built by appending in a loop. */
    method SessionHistory(user: UserId) returns (resp: Response)
      ensures resp.status == 200 && resp.body.History?
      ensures |resp.body.entries| == |HistoryOrder(sessions, user)|
      ensures forall k | 0 <= k < |resp.body.entries| ::
        resp.body.entries[k] == EntryOf(HistoryOrder(sessions, user)[k], questions, answers)
    {
      var ordered := HistoryOrder(sessions, user);
      var history: seq<HistoryEntry> := [];
      var i := 0;
      while i < |ordered|
        invariant 0 <= i <= |ordered| && |history| == i
        invariant forall k | 0 <= k < i :: history[k] == EntryOf(ordered[k], questions, answers)
      {
        history := history + [EntryOf(ordered[i], questions, answers)];
        i := i + 1;
      }
      resp := Response(200, History(history));
    }
  }
}
