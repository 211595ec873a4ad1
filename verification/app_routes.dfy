/** The route table of the application and its private-route guard. */
module AppRoutes {

  datatype Screen =
    | LoginScreen
    | RegisterScreen
    | InterviewScreen
    | HistoryScreen
    | RedirectTo(path: string)

  predicate IsProtected(s: Screen) {
    s == InterviewScreen || s == HistoryScreen
  }

  /** `PrivateRoute`: the child when the context flag is set, otherwise a
      redirect to the login page. */
  function PrivateRoute(isAuthenticated: bool, child: Screen): (r: Screen)
    ensures isAuthenticated ==> r == child
    ensures !isAuthenticated ==> r == RedirectTo("/login")
  {
    if isAuthenticated then child else RedirectTo("/login")
  }

  /** The `<Routes>` table: what is rendered at `path`, given the flag of
      the authentication context. */
  function Route(path: string, isAuthenticated: bool): (r: Screen)
    ensures path == "/login" ==> r == LoginScreen
    ensures path == "/register" ==> r == RegisterScreen
    ensures path == "/" ==> r == PrivateRoute(isAuthenticated, InterviewScreen)
    ensures path == "/sessions" ==> r == PrivateRoute(isAuthenticated, HistoryScreen)
    ensures path !in {"/login", "/register", "/", "/sessions"} ==> r == RedirectTo("/login")
  {
    if path == "/login" then LoginScreen
    else if path == "/register" then RegisterScreen
    else if path == "/" then PrivateRoute(isAuthenticated, InterviewScreen)
    else if path == "/sessions" then PrivateRoute(isAuthenticated, HistoryScreen)
    else RedirectTo("/login")
  }

  /** The guard: a protected screen is rendered only when authenticated,
      and every path a signed-out user asks for ends on the login or
      register page (directly or by one redirect). */
  lemma RouteGuard(path: string, isAuthenticated: bool)
    ensures IsProtected(Route(path, isAuthenticated)) ==> isAuthenticated
    ensures !isAuthenticated ==>
      Route(path, false) in {LoginScreen, RegisterScreen, RedirectTo("/login")}
    ensures Route(path, isAuthenticated).RedirectTo? ==> Route(Route(path, isAuthenticated).path, isAuthenticated) == LoginScreen
  {
  }
}
