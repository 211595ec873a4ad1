# AI Interview Coach — a verified model of its core

AI Interview Coach is a mock-interview application. A React client lets a user:
- register and log in;
- pick a role;
- fetch a generated interview question;
- submit an answer and read the feedback and score;
- browse past sessions.

A Django server backs it.
- The interview endpoints ask a language model for a question or for feedback.
- They store questions, answers and sessions.
- They read a score out of the feedback text.
- They list a user's session history.
- The account endpoints register users and log them out by blacklisting a refresh token.

This project models that core in Dafny and proves what each piece promises.

- **Client credential store.** `localStorage` is a `map<string, string>` inside a `LocalStorage` class that handlers update in place.
  - The pages disagree about which key means "logged in":
    - the navigation bar reads `access`;
    - the authentication context and the axios client read `token`;
    - `api/auth.js` reads `access_token`.
  - The model keeps the three flags apart. `AuthFlows` proves which flows keep them in agreement and which do not.
- **Pages and handlers** (`LoginPage`, `RegisterPage`, `LogoutButton`, `Navbar`, `AuthContext`, `SessionHistoryPage`, `InterviewSimulator`). Each component with state is a class with the component's state variables as fields.
  - Each handler is one atomic method.
  - It takes the outcome of its HTTP request as an input, `Ok(payload)` or `Err(failure)`.
  - It returns the trace of its outside effects: requests sent, `authChange` dispatched, navigation, alerts.
- **Routing** (`AppRoutes`): the route table and `PrivateRoute`, as a function of the path and the context flag.
- **HTTP client** (`ApiClient`): the request interceptor that attaches the bearer header, and the response interceptor's 401 rule.
- **Interview endpoints** (`InterviewsBackend`). The three ORM tables are sequences in primary-key order, held by an `InterviewStore` class.
  - The language model's reply is an input.
  - The score parser for `(\d+)/10` is written as a leftmost-match search with proofs of what it finds.
  - The history listing is a loop proved against a sort-and-project specification.
- **Account endpoints** (`UsersBackend`).
  - The user table is a set of (username, email) pairs.
  - Tokens and the blacklist are opaque strings.
  - The unique username column is part of the model: a normalized username that is already stored gets the integrity error's answer.
  - Other failures that Django or simplejwt would raise (a failed insert, a failed token mint) are inputs.

Shared pieces:
- `Wrappers` (Option);
- `Text`, which holds:
  - the Python and JavaScript whitespace classes;
  - `strip`;
  - digit strings;
  - UTF-16 length;
  - `join`;
- `Browser`, which holds:
  - storage truthiness;
  - the request, effect and outcome datatypes.

## Model

| member | source | states |
|---|---|---|
| Text.StripStartSpec | backend/interviews/views.py:62 | `lstrip` removes a prefix made only of whitespace, and the rest does not start with whitespace |
| Text.StripEndSpec | backend/interviews/views.py:62 | `rstrip` removes a suffix made only of whitespace, and the rest does not end with whitespace |
| Text.StripSpec | backend/interviews/views.py:62 | `strip` returns a middle slice of the input whose ends are not whitespace; it is empty exactly when the input is all whitespace |
| Text.Utf16Length | frontend/src/pages/Register.js:17 | `password.length` counts UTF-16 code units: between one and two per character, and exactly one each when no character lies above U+FFFF |
| Text.Join | frontend/src/pages/Register.js:77 | `join(", ")` of no parts is "", of one part is that part, and otherwise has the parts' total length plus one separator between each pair |
| Text.JoinAppend | frontend/src/pages/Register.js:77 | joining one more part appends the separator and then that part, so the parts appear in their order with `sep` between neighbours |
| Text.Utf16LengthAppend | frontend/src/pages/Register.js:17 | a character adds one code unit to `length`, or two (a surrogate pair) when it lies above U+FFFF |
| ApiClient.WithAuthorization | frontend/src/api/axios.js:10-13 | `Authorization` becomes "Bearer " + `token` exactly when `token` is truthy; otherwise the headers are unchanged |
| ApiClient.RequestConfig.constructor | frontend/src/api/axios.js:3-6 | a request starts with only the JSON content type header |
| ApiClient.RequestConfig.Intercept | frontend/src/api/axios.js:9-15 | the interceptor leaves the headers equal to `WithAuthorization` of the storage at the moment of the request |
| ApiClient.TokenReadPerRequest | frontend/src/api/axios.js:9-10 | two requests made against different `token` values carry different headers, so the token is read per request and not fixed when the client is created |
| ApiClient.OnResponse | frontend/src/api/axios.js:18-27 | the outcome reaches the caller unchanged; effects (an alert and a redirect to "/login") occur exactly on a 401, and no storage is cleared |
| AppRoutes.PrivateRoute | frontend/src/App.js:13-16 | the child is rendered exactly when authenticated; otherwise the result is a redirect to "/login" |
| AppRoutes.Route | frontend/src/App.js:26-48 | "/login" and "/register" render whatever the flag; "/" and "/sessions" go through `PrivateRoute`; every other path redirects to "/login" |
| AppRoutes.RouteGuard | frontend/src/App.js:13-48 | a protected screen is reached only when authenticated; a signed-out user ends on the login or register page; every redirect lands on the login screen |
| AuthApi.IsUserAuthenticated | frontend/src/api/auth.js:37 | `isUserAuthenticated` holds exactly when `access_token` is present and non-empty |
| AuthApi.StoreApiTokens | frontend/src/api/auth.js:7-8 | exactly `access_token` and `refresh_token` are set from the response, and every other key is kept; `isUserAuthenticated` then holds exactly when the access token is non-empty |
| AuthApi.LoginUser | frontend/src/api/auth.js:4-14 | one login request; on success the tokens are stored, on failure storage is untouched; the outcome is returned or rethrown as received |
| AuthApi.LogoutUser | frontend/src/api/auth.js:17-35 | without a truthy `access_token`: no request and no change; otherwise one request carrying the refresh token and the bearer access token, then both keys are removed whatever the server answers |
| AuthContext.ContextFlag | frontend/src/context/AuthContext.js:6-13 | the context's flag `!!localStorage.getItem("token")` holds exactly when `token` is present and non-empty |
| AuthContext.AuthProvider.constructor | frontend/src/context/AuthContext.js:6-8 | the flag starts as the truthiness of `token`, and the listener is registered |
| AuthContext.AuthProvider.OnAuthChange | frontend/src/context/AuthContext.js:11-13 | on `authChange` the flag is recomputed from `token` only |
| AuthContext.AuthProvider.SetIsAuthenticated | frontend/src/context/AuthContext.js:22 | the exposed setter sets the flag and touches no storage |
| AuthContext.AuthProvider.Unmount | frontend/src/context/AuthContext.js:16-18 | unmounting removes the listener and keeps the flag |
| Navbar.NavbarFlag | frontend/src/pages/Navbar.js:5-11 | the bar's flag `!!localStorage.getItem("access")` holds exactly when `access` is present and non-empty |
| Navbar.ClearCredentials | frontend/src/pages/Navbar.js:22-25 | logout removes exactly `access`, `refresh`, `token` and `username`, keeps every other key with its value, and leaves the bar's flag false |
| Navbar.ClearCredentialsIdempotent | frontend/src/pages/Navbar.js:21-28 | logging out a second time leaves storage as the first logout left it |
| Navbar.Controls | frontend/src/pages/Navbar.js:37-46 | the Sessions link and the Logout button are each shown exactly when authenticated |
| Navbar.NavbarState.constructor | frontend/src/pages/Navbar.js:5 | the flag starts as the truthiness of `access`, and the listener is registered |
| Navbar.NavbarState.OnAuthChange | frontend/src/pages/Navbar.js:9-11 | on `authChange` the flag is recomputed from `access` only |
| Navbar.NavbarState.Unmount | frontend/src/pages/Navbar.js:16-18 | unmounting removes the listener |
| Navbar.NavbarState.HandleLogout | frontend/src/pages/Navbar.js:21-28 | storage becomes `ClearCredentials` of the old storage; the effects are `authChange` and then navigation to "/login" |
| LoginPage.RedirectOnMount | frontend/src/pages/Login.js:14-18 | the page navigates to "/" exactly when `access` is truthy |
| LoginPage.LoginError | frontend/src/pages/Login.js:42-49 | the message is the `error` field as is (an array is not joined), else a non-empty `detail`, and in every other case (no response, or a body with neither) "Invalid username or password. Please try again."; it is never empty |
| LoginPage.StoreLogin | frontend/src/pages/Login.js:32-34 | exactly `access`, `refresh` and `token` are written, with `token` equal to `access`; `username` and every other key are left as they were |
| LoginPage.LoginForm.constructor | frontend/src/pages/Login.js:8-10 | the inputs and the error start empty |
| LoginPage.LoginForm.Edit | frontend/src/pages/Login.js:85-97 | typing changes the inputs and not the error |
| LoginPage.LoginForm.HandleSubmit | frontend/src/pages/Login.js:20-51 | on success: the error is reset, storage is `StoreLogin`, and the effects are the request, `authChange`, then navigation to "/"; on failure: the error is `LoginError`, storage is unchanged, and the request is the only effect |
| LogoutButton.ForgetTokens | frontend/src/pages/LogoutButton.js:11-13 | exactly `token`, `refresh` and `access` are removed; `username` and every other key keep their values |
| LogoutButton.HandleLogout | frontend/src/pages/LogoutButton.js:7-20 | declined: no storage change and no effect; confirmed: storage is `ForgetTokens`, then `authChange` and navigation to "/login" |
| RegisterPage.PasswordStrength | frontend/src/pages/Register.js:16-28 | null exactly when all five rules hold; otherwise the message of the first failing rule, in the order length, uppercase, lowercase, number, special; under 8 code units always gives the length message |
| RegisterPage.WeakPasswordHasFirstFailingRule | frontend/src/pages/Register.js:23-28 | every non-null result is the message of a rule that fails while all earlier rules hold |
| RegisterPage.RegistrationError | frontend/src/pages/Register.js:75-82 | the `error` field (an array joined by ", "), else a non-empty `detail`, and in every other case (no response, or a body with neither) "Registration failed. Try again."; an empty message arises only from an array that joins to "" |
| RegisterPage.StoreRegistration | frontend/src/pages/Register.js:63-66 | exactly `access`, `refresh`, `token` and `username` are written, with `token` equal to `access`; other keys are kept |
| RegisterPage.RegisterForm.constructor | frontend/src/pages/Register.js:8-12 | the four inputs and the error start empty |
| RegisterPage.RegisterForm.Edit | frontend/src/pages/Register.js:126-162 | typing changes the four inputs and not the error |
| RegisterPage.RegisterForm.HandleSubmit | frontend/src/pages/Register.js:31-84 | the pipeline, with its stopping points: (1) a mismatch sets "Passwords do not match." with no request; (2) a weak password sets the strength message with no request; (3) a failed register request stops after one request; (4) a failed token request stops after two. In every stopped case storage is unchanged and the message comes from `RegistrationError`. On success the error is "", storage is `StoreRegistration`, and `authChange`, the alert and navigation to "/" follow |
| InterviewSimulator.Simulator.constructor | frontend/src/components/InterviewSimulator.js:43-50 | the initial state: every string empty, no session id or score, not loading |
| InterviewSimulator.Simulator.SelectRole | frontend/src/components/InterviewSimulator.js:154 | changing the role changes only `role`; the question, answer, feedback and score are kept |
| InterviewSimulator.Simulator.EditAnswer | frontend/src/components/InterviewSimulator.js:213-216 | typing changes only `answer`, which is possible only while a question is shown |
| InterviewSimulator.Simulator.GenerateQuestion | frontend/src/components/InterviewSimulator.js:66-95 | an empty role: one alert, and no field changes, `loading` and `mode` included. Otherwise `mode` is "question" and `loading` ends false. On success the question and session id come from the response, and answer, feedback and score are reset. On failure an alert is shown and those fields are kept |
| InterviewSimulator.Simulator.EvaluateAnswer | frontend/src/components/InterviewSimulator.js:98-128 | a blank (JavaScript-trimmed) answer: one alert and no change. Otherwise the request carries exactly the current session id, question and answer, and `loading` ends false. On success feedback and score come from the response (a null score stays null). On failure an alert is shown and feedback and score are kept. Question, answer and session id are never changed |
| InterviewsBackend.LastIndexWhereSpec | backend/interviews/views.py:167-168 | `.last()` finds a row that matches with no match after it, and finds nothing exactly when no row matches |
| InterviewsBackend.LastQuestionHasGreatestId | backend/interviews/views.py:167 | with increasing primary keys, the last matching row is the one with the greatest id |
| InterviewsBackend.MatchEndsAtRunEnd | backend/interviews/views.py:115 | `\d+` is greedy: a match ends where the run of digits ends |
| InterviewsBackend.SearchFrom | backend/interviews/views.py:115 | the search returns a match with no match starting earlier, or nothing when there is no match at all |
| InterviewsBackend.ParseScore | backend/interviews/views.py:115-116 | the score is None exactly when the feedback contains no digit run followed by "/10" |
| InterviewsBackend.ScoreIsLeftmostMatch | backend/interviews/views.py:115-116 | the score is the integer value of the leftmost such digit run, whatever follows it |
| InterviewsBackend.ScoreNotRangeChecked | backend/interviews/views.py:115-116 | no range check is made: "85/100" scores 85 |
| InterviewsBackend.GetOrCreate | backend/interviews/views.py:47 | a created session has the next id, the user, the role, score 0 and the request time |
| InterviewsBackend.GetOrCreateSpec | backend/interviews/views.py:47 | a found session is the only one of (user, role); a session is created exactly when none exists; several give their count, which is at least two |
| InterviewsBackend.GetOrCreateReuses | backend/interviews/views.py:47-68 | two consecutive requests for the same user and role return the same session |
| InterviewsBackend.ResolveSession | backend/interviews/views.py:90-93 | the fallback session belongs to the user and has an empty role and score 0 |
| InterviewsBackend.ResolveSessionSpec | backend/interviews/views.py:90-93 | an existing session is used only when it has the requested id and belongs to the requester; a new one is made exactly when no such session exists |
| InterviewsBackend.SetScore | backend/interviews/views.py:125-126 | the row with that id gets the new score; every other row, and every other column, is unchanged |
| InterviewsBackend.InsertByRecencySorts | backend/interviews/views.py:163 | inserting into a list ordered newest first keeps it ordered and adds the row exactly once |
| InterviewsBackend.SortByRecencySorts | backend/interviews/views.py:163 | `order_by('-started_at')` yields a list ordered newest first that holds the same rows, each as often |
| InterviewsBackend.HistoryOrder | backend/interviews/views.py:163 | `filter(user=...).order_by("-started_at")`: the rows that pass the user filter, as a multiset, ordered newest first |
| InterviewsBackend.HistoryListsExactlyTheUsersSessions | backend/interviews/views.py:163 | the history holds the user's sessions, ordered newest first, each as often as the table holds it, and no session of another user |
| InterviewsBackend.EntryOf | backend/interviews/views.py:170-178 | an entry keeps the session's id and start time; an empty role shows as "N/A"; a null score shows as 0, and any other score as itself |
| InterviewsBackend.EntryShowsLastQuestion | backend/interviews/views.py:167-173 | the entry shows the text of the session's last question, or "No question" when it has none |
| InterviewsBackend.EntryShowsLastAnswer | backend/interviews/views.py:168-175 | the entry shows the text and feedback of the session's last answer, or "No answer" and "No feedback" when it has none |
| InterviewsBackend.InterviewStore.constructor | backend/interviews/models.py:4-29 | the tables start empty, and their id invariants hold |
| InterviewsBackend.InterviewStore.CreateSession | backend/interviews/views.py:93 | `objects.create` appends one session with the next id; the id invariants are kept and the other tables are untouched |
| InterviewsBackend.InterviewStore.CreateQuestion | backend/interviews/views.py:63 | one question row is appended with the next id; the other tables are untouched |
| InterviewsBackend.InterviewStore.CreateAnswer | backend/interviews/views.py:118-122 | one answer row is appended with the next id; the other tables are untouched |
| InterviewsBackend.InterviewStore.SaveScore | backend/interviews/views.py:125-126 | the sessions become `SetScore` of the old ones; the other tables are untouched |
| InterviewsBackend.InterviewStore.GenerateQuestion | backend/interviews/views.py:40-72 | the role defaults to "Software Developer"; the session comes from `GetOrCreate`, and several matching sessions give a 500. A failed model call gives a 500 and keeps any session just created. Otherwise exactly one question row holds the stripped reply, and the response is 201 with that text and the session id. Answers are never touched |
| InterviewsBackend.InterviewStore.EvaluateAnswer | backend/interviews/views.py:78-135 | a missing or empty question or answer gives 400 "Both 'question' and 'answer' are required." and writes nothing. The session comes from `ResolveSession`. A failed model call gives a 500 with no answer row. Otherwise exactly one answer row holds the answer and the stripped feedback, and the session's score becomes `ParseScore(feedback)`, which the 201 response also returns |
| InterviewsBackend.InterviewStore.SaveSession | backend/interviews/views.py:141-153 | one session is appended with the given role (default "") and score (default null); the response is 201 "Session saved successfully!" |
| InterviewsBackend.InterviewStore.SessionHistory | backend/interviews/views.py:159-180 | the loop returns 200 with one entry per session of `HistoryOrder` (the user's sessions, newest first), entry k being `EntryOf` the k-th |
| UsersBackend.RegistrationCheck | backend/users/views.py:27-35 | registration passes its checks exactly when all three fields are present and non-empty and neither the username nor the email is taken. A missing field always gives "All fields are required."; with all fields present, a taken username gives "Username already exists." and otherwise a taken email gives "Email already registered." |
| UsersBackend.UsernameReportedFirst | backend/users/views.py:32-35 | when both the username and the email clash, "Username already exists." is reported |
| UsersBackend.RegisteredUsernameIsTaken | backend/users/views.py:32-50 | once a registration has answered 201, registering the same username, or one that normalizes to the same stored username, answers 400 and stores nothing, whatever email, password, tokens or failure come with it |
| UsersBackend.RegisterOutcome | backend/users/views.py:18-54 | a failed check gives 400 with its message and no insert. A normalized username already stored gives 400 "User already exists." with no insert (the unique constraint). The answer is 201 exactly when the checks pass, the normalized username is free and nothing fails; one user is then added, holding the username and email as `normalize_username` and `normalize_email` (inputs) turn them, and the body carries the minted refresh and access tokens. A failed insert gives 500 "Something went wrong." with no insert. A failed token mint gives 500 "Something went wrong." and the user stays stored. The unique username constraint is preserved |
| UsersBackend.UserStore.Register | backend/users/views.py:18-54 | the response and the new user table are those of `RegisterOutcome`; the blacklist is untouched and the table keeps its unique usernames |
| UsersBackend.LogoutOutcome | backend/users/views.py:95-116 | a missing refresh token gives 400 "Refresh token is required."; 200 happens exactly when the token is valid, the blacklist application is installed and the token is not yet blacklisted, and then only that token is added; every other failure gives 400 "Invalid or expired token." with the blacklist unchanged |
| UsersBackend.LogoutAsConfiguredBlacklistsNothing | backend/users/views.py:103-104 | with the installed applications as configured, every logout that passes the presence check fails with "Invalid or expired token." and revokes nothing |
| UsersBackend.LogoutAsConfiguredRejectsFreshToken | backend/users/views.py:103-104 | a fresh valid token is refused as configured and accepted once the blacklist application is installed |
| UsersBackend.LogoutRevokesToken | backend/users/views.py:103-109 | with the blacklist application installed, the first logout revokes the token and a second logout with it is refused |
| UsersBackend.UserStore.Logout | backend/users/views.py:89-116 | the response and the new blacklist are those of `LogoutOutcome` with the blacklist application installed; users are untouched |
| SessionHistoryPage.HistoryPage.ShowsEmptyNotice | frontend/src/pages/SessionHistory.js:45-47 | "No interview sessions found." is shown exactly when the page is not loading, the error is the empty string (an array is truthy) and the list is empty |
| SessionHistoryPage.HistoryError | frontend/src/pages/SessionHistory.js:22 | the message is the response's `error` field when truthy, else the fixed "Failed to load session history" message; it is never empty |
| SessionHistoryPage.HistoryPage.constructor | frontend/src/pages/SessionHistory.js:9-11 | the page starts with no sessions, loading, and no error |
| SessionHistoryPage.HistoryPage.BeginFetch | frontend/src/pages/SessionHistory.js:15-16 | a fetch starts by setting loading and clearing the error; the list is kept |
| SessionHistoryPage.HistoryPage.FinishFetch | frontend/src/pages/SessionHistory.js:17-25 | success: the list exactly as received; failure: `HistoryError` with the list kept; loading is false either way |
| SessionHistoryPage.HistoryPage.FetchSessions | frontend/src/pages/SessionHistory.js:14-26 | the fetch sends one request with the interceptor's headers, and a 401 adds the interceptor's alert and redirect. The end state is as in `FinishFetch`. "No interview sessions found." is shown exactly when the request succeeded with an empty list |
| AuthFlows.Dispatch | frontend/src/context/AuthContext.js:10-19 | delivering `authChange` recomputes each registered listener's flag from storage, and an unregistered one keeps its value |
| AuthFlows.LoginKeepsFlagsInAgreement | frontend/src/pages/Login.js:32-34 | after the login page's writes, the bar's and the context's flags agree, and both hold exactly when the access token is non-empty |
| AuthFlows.RegisterKeepsFlagsInAgreement | frontend/src/pages/Register.js:63-66 | after the register page's writes, the two page flags agree and both hold exactly when the access token is non-empty |
| AuthFlows.LogoutsClearPageFlags | frontend/src/pages/Navbar.js:22-25 | both logout handlers turn both page flags off and leave `isUserAuthenticated` as it was |
| AuthFlows.ApiLoginInvisibleToPages | frontend/src/api/auth.js:7-8 | `loginUser`'s writes change neither page flag |
| AuthFlows.ApiLoginDisagreesWithPages | frontend/src/api/auth.js:7-8 | from empty storage, after `loginUser`, `isUserAuthenticated` holds while the bar shows no controls and "/" still redirects to "/login" |
| AuthFlows.ExpiredSessionBouncesBack | frontend/src/api/axios.js:21-24 | a 401 alerts and loads "/login" but clears nothing; with `access` and `token` still set, the login page sends the user back to "/", which the guard lets through |
| AuthFlows.LoginFlow | frontend/src/pages/Login.js:32-38 | after a successful login and its `authChange`, the bar and the context agree and hold exactly when the access token is non-empty; a failed login changes neither |
| AuthFlows.RegisterFlow | frontend/src/pages/Register.js:63-71 | after a registration that dispatches `authChange`, both flags agree and hold exactly when the token response succeeded with a non-empty access token; otherwise neither flag changes |
| AuthFlows.NavbarLogoutFlow | frontend/src/pages/Navbar.js:21-28 | after the bar's logout and its `authChange`, both flags are false, and `isUserAuthenticated` is unchanged |
| AuthFlows.ButtonLogoutFlow | frontend/src/pages/LogoutButton.js:7-20 | a confirmed logout leaves both flags false; a declined one changes no storage, flag or effect |
| AuthFlows.ApiLoginFlow | frontend/src/api/auth.js:4-14 | `loginUser` keeps both page flags and their values in storage, while its own flag follows the new access token |

## Left out

- The language-model calls (`client.chat.completions.create`) are an input `Completion`: either the reply's text or a failure. The prompts and `backend/interviews/ai_service.py` are not modelled.
- The Django ORM is modelled as sequences in primary-key order with explicit next ids.
  - A database failure other than the ones named is not modelled.
  - Serializers and the CRUD viewsets are left out: they are declarations without logic of their own.
- Ties in `started_at`: the database returns tied rows in an order it does not fix, and the model picks insertion order. Only the newest-first order and the multiset of rows are stated.
- The `Answer.score` float column is never written by the views and is not modelled. Python's `int()` has no range, and the model's score is likewise unbounded; the columns' limits are not modelled: `UserSession.score` is a 32-bit integer column (backend/interviews/models.py:7), so feedback such as "3000000000/10" makes `session.save()` fail after the answer row is stored and the server answers 500 with the score unchanged, where the model answers 201 with the large score; `UserSession.role` holds at most 255 characters (backend/interviews/models.py:6), so a longer role makes the session insert fail with 500, where the model stores it. Request fields have one type each: the text fields are absent or strings, `session_id` and `score` absent or integers; a JSON value of another type is not modelled.
- String lookups in the database (`filter(username=...)`, `filter(email=...)` at backend/users/views.py:32-35, and `get_or_create(user=..., role=...)` at backend/interviews/views.py:47) compare exactly in the model. The configured MySQL backend's default collation (`utf8mb4_0900_ai_ci` in MySQL 8) ignores case, accents and character width, so the server may also match such variants: registering "alice" after "Alice", or "alicé" after "alice", is refused there, while `RegistrationCheck` lets it pass.
- `\d` in Python matches every Unicode decimal digit. The model reads only ASCII digits 0–9.
- simplejwt is modelled only by what the views observe.
  - Token minting is an input pair.
  - Signature and expiry checks are one `signatureValid` flag.
  - The blacklist is a set of token strings.
  - `login_user` and its `LoginSerializer` are not part of this model; the client's login page sees only their outcome.
- `IsAuthenticated`: every server operation takes the already authenticated user id. A rejected request reaches the client as a 401 outcome.
- UsersBackend.UserStore.Register: the password is checked for presence only and is not stored. Password hashing is not modelled. The stored username and email are normalized by `create_user`, and the model takes the two normalizers as parameters without defining them: Django's `normalize_username` is Unicode NFKC (fullwidth "ａｌｉｃｅ" is stored as "alice") and `normalize_email` trims the address and lowercases its domain ("bob@Example.COM" is stored as "bob@example.com"); neither Unicode normalization nor Unicode case mapping is modelled. The checks before the insert compare the raw values, as the code does, so a variant that normalizes to a taken username passes them and reaches the insert, where the unique username constraint raises the integrity error and the answer is 400 "User already exists.". A concurrent registration racing for the same username is not modelled.
- UsersBackend.UserStore.Logout: models the server with the token-blacklist application installed. As configured, the call behaves as `LogoutOutcome(..., false)`; see Findings.
- `frontend/src/api/api.js`, the client `api/auth.js` imports, is not part of this model. Its requests therefore carry only what `auth.js` itself attaches; no interceptor is assumed.
- Transport is left out, and the outcome of each request is an input:
  - HTTP itself, CORS and axios internals;
  - `window.location` page reloads;
  - react-router's path matching beyond exact paths.
- Browser dialogs are inputs too: `window.confirm` is the `confirmed` parameter, and `alert` is an `Alert` effect.
- `console.log`, `console.error` and `print` output is left out.
- Rendering is left out:
  - animations;
  - the typing loader's timer and the progress bar;
  - Markdown rendering;
  - date formatting.
- Async interleaving is left out. Each handler is one atomic step over its outcome. Overlapping requests, which the source guards only with disabled buttons, are not modelled.
- `window.dispatchEvent` is modelled as the synchronous recompute of each registered listener (`AuthFlows.Dispatch`).
- Behaviours of the code that the model keeps as they are, although they may look unintended:
  - The axios response interceptor does not clear stored credentials on a 401. It only alerts and redirects (frontend/src/api/axios.js:21-24).
  - Changing the role in the interview page keeps the current question, answer, feedback and score (frontend/src/components/InterviewSimulator.js:154).
  - The stand-alone logout button removes `token`, `refresh` and `access` but keeps `username` (frontend/src/pages/LogoutButton.js:11-13).
  - The session-history page shows an error message after any failed fetch, a 401 included, next to the interceptor's alert and redirect (frontend/src/pages/SessionHistory.js:20-22).

## Findings

| source | as written | input that shows it | evidently intended | confidence | as-written member | corrected member |
|---|---|---|---|---|---|---|
| backend/users/views.py:103-104 | `token.blacklist()` is called, but `rest_framework_simplejwt.token_blacklist` is missing from `INSTALLED_APPS` (backend/backend/settings.py:19-35). Refresh tokens therefore have no `blacklist` method, the call raises, and the view answers 400 "Invalid or expired token." | any logout with a present, valid, fresh refresh token (`LogoutOutcome({}, Some("r"), true, false)`) | the token is blacklisted and the view answers 200; a second logout with the same token is refused | medium, not executed | UsersBackend.LogoutAsConfiguredBlacklistsNothing | UsersBackend.LogoutRevokesToken |
