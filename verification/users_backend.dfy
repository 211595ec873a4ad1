/** The account endpoints of the server: registration, with its checks in a
    fixed order, and logout by blacklisting the refresh token. The user
    table holds (username, email) pairs; tokens are opaque strings minted
    outside the model. */
module UsersBackend {
  import opened Wrappers
  import opened Text

  datatype User = User(username: string, email: string)

  type Token = string

  /** The pair `RefreshToken.for_user` mints for a new user. */
  datatype Minted = Minted(refresh: Token, access: Token)

  /** Where registration can fail after its checks pass, other than on the
      unique username: the insert fails for another reason, or minting the
      tokens fails once the user is stored. */
  datatype Fault = InsertFault | TokenFault

  datatype Body =
    | ErrorMessage(error: string)
    | Registered(message: string, refresh: Token, access: Token)
    | LoggedOut(message: string)

  datatype Response = Response(status: nat, body: Body)

  const AllFieldsRequired := "All fields are required."
  const UsernameTaken := "Username already exists."
  const EmailTaken := "Email already registered."
  const UserExists := "User already exists."
  const SomethingWentWrong := "Something went wrong."
  const RegisteredMessage := "User registered successfully."
  const RefreshRequired := "Refresh token is required."
  const InvalidToken := "Invalid or expired token."
  const LoggedOutMessage := "\U{1F44B} Successfully logged out."

  predicate HasUsername(users: set<User>, name: string) {
    exists u | u in users :: u.username == name
  }

  predicate HasEmail(users: set<User>, email: string) {
    exists u | u in users :: u.email == email
  }

  /** The unique constraint on the username column: no two users share a
      username. Emails carry no such constraint. */
  predicate UniqueUsernames(users: set<User>) {
    forall u, v | u in users && v in users && u.username == v.username :: u == v
  }

  /** The checks `register_user` makes before inserting, in their order:
      every field present and non-empty, then a free username, then a free
      email. `None` when all pass. */
  function RegistrationCheck(users: set<User>, username: Option<string>, email: Option<string>,
                             password: Option<string>): (r: Option<string>)
    ensures r.None? <==>
      && !MissingText(username) && !MissingText(email) && !MissingText(password)
      && !HasUsername(users, username.value) && !HasEmail(users, email.value)
    ensures MissingText(username) || MissingText(email) || MissingText(password) ==>
      r == Some(AllFieldsRequired)
    // With every field present, a taken username is reported first.
    ensures !MissingText(username) && !MissingText(email) && !MissingText(password)
            && HasUsername(users, username.value)
            ==> r == Some(UsernameTaken)
    // With every field present and the username free, a taken email is reported.
    ensures !MissingText(username) && !MissingText(email) && !MissingText(password)
            && !HasUsername(users, username.value) && HasEmail(users, email.value)
            ==> r == Some(EmailTaken)
    ensures r == Some(EmailTaken) ==> !HasUsername(users, username.value)
    ensures r.Some? ==> r.value in {AllFieldsRequired, UsernameTaken, EmailTaken}
  {
    if MissingText(username) || MissingText(email) || MissingText(password) then Some(AllFieldsRequired)
    else if HasUsername(users, username.value) then Some(UsernameTaken)
    else if HasEmail(users, email.value) then Some(EmailTaken)
    else None
  }

  /** When both the username and the email are taken, the username is
      reported. */
  lemma UsernameReportedFirst(users: set<User>, username: string, email: string, password: string)
    requires username != "" && email != "" && password != ""
    requires HasUsername(users, username) && HasEmail(users, email)
    ensures RegistrationCheck(users, Some(username), Some(email), Some(password)) == Some(UsernameTaken)
  {
  }

  /** `logout_user` once the permission check has passed: the response and
      the blacklist afterwards. `signatureValid` says whether the string
      decodes as an unexpired refresh token; `blacklistInstalled` whether
      the token-blacklist application is installed, without which a
      refresh token has no `blacklist` method and its call raises. */
  function LogoutOutcome(blacklist: set<Token>, refresh: Option<string>, signatureValid: bool,
                         blacklistInstalled: bool): (r: (Response, set<Token>))
    ensures MissingText(refresh) ==> r == (Response(400, ErrorMessage(RefreshRequired)), blacklist)
    ensures r.0.status == 200 <==>
      !MissingText(refresh) && signatureValid && blacklistInstalled && refresh.value !in blacklist
    ensures r.0.status == 200 ==>
      r == (Response(200, LoggedOut(LoggedOutMessage)), blacklist + {refresh.value})
    ensures !MissingText(refresh) && r.0.status != 200 ==>
      r == (Response(400, ErrorMessage(InvalidToken)), blacklist)
  {
    if MissingText(refresh) then (Response(400, ErrorMessage(RefreshRequired)), blacklist)
    // The constructor verifies the token; with the application installed
    // that includes the check against the blacklist.
    else if !signatureValid || (blacklistInstalled && refresh.value in blacklist) then
      (Response(400, ErrorMessage(InvalidToken)), blacklist)
    else if !blacklistInstalled then (Response(400, ErrorMessage(InvalidToken)), blacklist)
    else (Response(200, LoggedOut(LoggedOutMessage)), blacklist + {refresh.value})
  }

  /** As configured, the token-blacklist application is missing from the
      installed applications, so every logout that gets past the presence
      check fails with "Invalid or expired token." and revokes nothing. */
  lemma LogoutAsConfiguredBlacklistsNothing(blacklist: set<Token>, refresh: string, signatureValid: bool)
    requires refresh != ""
    ensures LogoutOutcome(blacklist, Some(refresh), signatureValid, false)
      == (Response(400, ErrorMessage(InvalidToken)), blacklist)
  {
  }

  /** A fresh, valid token is refused as configured and accepted once the
      application is installed. */
  lemma LogoutAsConfiguredRejectsFreshToken()
    ensures LogoutOutcome({}, Some("r"), true, false).0 == Response(400, ErrorMessage(InvalidToken))
    ensures LogoutOutcome({}, Some("r"), true, true).0 == Response(200, LoggedOut(LoggedOutMessage))
  {
  }

  /** With the application installed, a refresh token cannot be used to log
      out twice: the first logout revokes it, the second is refused and
      leaves the blacklist as it is. */
  lemma LogoutRevokesToken(blacklist: set<Token>, refresh: string)
    requires refresh != "" && refresh !in blacklist
    ensures var (first, after) := LogoutOutcome(blacklist, Some(refresh), true, true);
      && first.status == 200
      && LogoutOutcome(after, Some(refresh), true, true) == (Response(400, ErrorMessage(InvalidToken)), after)
  {
  }

  /** `register_user`: the response and the user table afterwards. The
      checks compare the values as received, while `create_user` stores
      them normalized: `normalizeUsername` and `normalizeEmail` stand for
      Django's `normalize_username` and `normalize_email`. A normalized
      username that is already stored makes the insert raise
      `IntegrityError`; `fault` is any other failure. */
  function RegisterOutcome(users: set<User>, username: Option<string>, email: Option<string>,
                           password: Option<string>,
                           normalizeUsername: string -> string, normalizeEmail: string -> string,
                           minted: Minted, fault: Option<Fault>): (r: (Response, set<User>))
    ensures RegistrationCheck(users, username, email, password).Some? ==>
      r == (Response(400, ErrorMessage(RegistrationCheck(users, username, email, password).value)), users)
    ensures RegistrationCheck(users, username, email, password).None?
            && HasUsername(users, normalizeUsername(username.value))
            ==> r == (Response(400, ErrorMessage(UserExists)), users)
    ensures r.0.status == 201 <==>
      && RegistrationCheck(users, username, email, password).None?
      && !HasUsername(users, normalizeUsername(username.value))
      && fault.None?
    ensures r.0.status == 201 ==>
      r == (Response(201, Registered(RegisteredMessage, minted.refresh, minted.access)),
            users + {User(normalizeUsername(username.value), normalizeEmail(email.value))})
    ensures fault == Some(InsertFault) && r.0.status != 400 ==>
      r == (Response(500, ErrorMessage(SomethingWentWrong)), users)
    ensures fault == Some(TokenFault) && r.0.status != 400 ==>
      r == (Response(500, ErrorMessage(SomethingWentWrong)),
            users + {User(normalizeUsername(username.value), normalizeEmail(email.value))})
    ensures UniqueUsernames(users) ==> UniqueUsernames(r.1)
  {
    var problem := RegistrationCheck(users, username, email, password);
    if problem.Some? then (Response(400, ErrorMessage(problem.value)), users)
    else
      var user := User(normalizeUsername(username.value), normalizeEmail(email.value));
      if HasUsername(users, user.username) then (Response(400, ErrorMessage(UserExists)), users)
      else match fault
        case Some(InsertFault) => (Response(500, ErrorMessage(SomethingWentWrong)), users)
        case Some(TokenFault) => (Response(500, ErrorMessage(SomethingWentWrong)), users + {user})
        case None => (Response(201, Registered(RegisteredMessage, minted.refresh, minted.access)), users + {user})
  }

  /** Once a registration has succeeded, registering the same username,
      or any username that normalizes to the same one, is refused with 400
      and stores nothing, whatever email, password, minted tokens or fault
      come with it: either the raw username is found by the check, or its
      normalized form is found by the unique constraint. */
  lemma RegisteredUsernameIsTaken(users: set<User>, username: string, email: string, password: string,
                                   username': string, email': Option<string>, password': Option<string>,
                                   normalizeUsername: string -> string, normalizeEmail: string -> string,
                                   minted: Minted, minted': Minted, fault': Option<Fault>)
    requires RegisterOutcome(users, Some(username), Some(email), Some(password),
                             normalizeUsername, normalizeEmail, minted, None).0.status == 201
    requires normalizeUsername(username') == normalizeUsername(username)
    ensures var after := RegisterOutcome(users, Some(username), Some(email), Some(password),
                                         normalizeUsername, normalizeEmail, minted, None).1;
      var again := RegisterOutcome(after, Some(username'), email', password',
                                   normalizeUsername, normalizeEmail, minted', fault');
      again.0.status == 400 && again.1 == after
  {
    var after := RegisterOutcome(users, Some(username), Some(email), Some(password),
                                 normalizeUsername, normalizeEmail, minted, None).1;
    var stored := User(normalizeUsername(username), normalizeEmail(email));
    assert stored in after;
    assert HasUsername(after, normalizeUsername(username));
  }

  class UserStore {
    var users: set<User>
    var blacklist: set<Token>

    constructor ()
      ensures Valid()
      ensures users == {} && blacklist == {}
    {
      users, blacklist := {}, {};
    }

    /** The user table keeps its unique username constraint. */
    predicate Valid()
      reads this
    {
      UniqueUsernames(users)
    }

    /** `register_user`. The password is checked for presence only and is
        not stored in this model. */
    method Register(username: Option<string>, email: Option<string>, password: Option<string>,
                    normalizeUsername: string -> string, normalizeEmail: string -> string,
                    minted: Minted, fault: Option<Fault>) returns (resp: Response)
      requires Valid()
      modifies this
      ensures Valid()
      ensures blacklist == old(blacklist)
      ensures (resp, users) == RegisterOutcome(old(users), username, email, password,
                                               normalizeUsername, normalizeEmail, minted, fault)
    {
      var problem := RegistrationCheck(users, username, email, password);
      if problem.Some? {
        return Response(400, ErrorMessage(problem.value));
      }
      var user := User(normalizeUsername(username.value), normalizeEmail(email.value));
      if HasUsername(users, user.username) {
        return Response(400, ErrorMessage(UserExists));
      }
      if fault == Some(InsertFault) {
        return Response(500, ErrorMessage(SomethingWentWrong));
      }
      users := users + {user};
      if fault == Some(TokenFault) {
        return Response(500, ErrorMessage(SomethingWentWrong));
      }
      resp := Response(201, Registered(RegisteredMessage, minted.refresh, minted.access));
    }

    /** `logout_user`, with the token-blacklist application installed. */
    method Logout(refresh: Option<string>, signatureValid: bool) returns (resp: Response)
      modifies this
      ensures users == old(users)
      ensures (resp, blacklist) == LogoutOutcome(old(blacklist), refresh, signatureValid, true)
    {
      if MissingText(refresh) {
        return Response(400, ErrorMessage(RefreshRequired));
      }
      if !signatureValid || refresh.value in blacklist {
        return Response(400, ErrorMessage(InvalidToken));
      }
      blacklist := blacklist + {refresh.value};
      resp := Response(200, LoggedOut(LoggedOutMessage));
    }
  }
}
