/** The registration page: the client-side password rules, the choice of
    the error message shown after a failed request, and the submit
    pipeline (confirmation, strength, register, token fetch, storage). */
module RegisterPage {
  import opened Wrappers
  import opened Text
  import opened Browser

  // ---------------------------------------------------------------------
  // Password strength
  // ---------------------------------------------------------------------

  const TooShortMessage := "Password must be at least 8 characters long."
  const NoUppercaseMessage := "Password must include at least one uppercase letter."
  const NoLowercaseMessage := "Password must include at least one lowercase letter."
  const NoNumberMessage := "Password must include at least one number."
  const NoSpecialMessage := "Password must include at least one special character."

  /** The characters of the class `[!@#$%^&*(),.?":{}|<>]`. */
  const SpecialCharacters := "!@#$%^&*(),.?\":{}|<>"

  predicate HasUppercase(p: string) { exists i | 0 <= i < |p| :: 'A' <= p[i] <= 'Z' }
  predicate HasLowercase(p: string) { exists i | 0 <= i < |p| :: 'a' <= p[i] <= 'z' }
  predicate HasNumber(p: string) { exists i | 0 <= i < |p| :: IsAsciiDigit(p[i]) }
  predicate HasSpecial(p: string) { exists i | 0 <= i < |p| :: p[i] in SpecialCharacters }

  /** The five rules, in the order the page checks them. */
  datatype Rule = MinLength | Uppercase | Lowercase | Number | Special

  const RuleOrder: seq<Rule> := [MinLength, Uppercase, Lowercase, Number, Special]

  predicate Satisfies(p: string, rule: Rule) {
    match rule
    case MinLength => Utf16Length(p) >= 8
    case Uppercase => HasUppercase(p)
    case Lowercase => HasLowercase(p)
    case Number => HasNumber(p)
    case Special => HasSpecial(p)
  }

  function MessageOf(rule: Rule): string {
    match rule
    case MinLength => TooShortMessage
    case Uppercase => NoUppercaseMessage
    case Lowercase => NoLowercaseMessage
    case Number => NoNumberMessage
    case Special => NoSpecialMessage
  }

  /** Rule `RuleOrder[k]` fails and every rule before it holds. */
  predicate FirstFailingAt(p: string, k: int) {
    && 0 <= k < |RuleOrder|
    && !Satisfies(p, RuleOrder[k])
    && forall j | 0 <= j < k :: Satisfies(p, RuleOrder[j])
  }

  /** `checkPasswordStrength`: the message of the first rule the password
      breaks, or `None` (JavaScript `null`) when it meets them all. */
  function PasswordStrength(p: string): (r: Option<string>)
    ensures r.None? <==> forall k | 0 <= k < |RuleOrder| :: Satisfies(p, RuleOrder[k])
    ensures forall k | FirstFailingAt(p, k) :: r == Some(MessageOf(RuleOrder[k]))
    ensures Utf16Length(p) < 8 ==> r == Some(TooShortMessage)
  {
    assert RuleOrder[0] == MinLength && RuleOrder[1] == Uppercase && RuleOrder[2] == Lowercase;
    assert RuleOrder[3] == Number && RuleOrder[4] == Special;
    if Utf16Length(p) < 8 then Some(TooShortMessage)
    else if !HasUppercase(p) then Some(NoUppercaseMessage)
    else if !HasLowercase(p) then Some(NoLowercaseMessage)
    else if !HasNumber(p) then Some(NoNumberMessage)
    else if !HasSpecial(p) then Some(NoSpecialMessage)
    else None
  }

  /** Some rule fails exactly when a first failing rule exists, so together
      with the contract of `PasswordStrength` every non-null result is the
      message of the first failing rule. */
  lemma {:induction false} WeakPasswordHasFirstFailingRule(p: string)
    requires PasswordStrength(p).Some?
    ensures exists k :: FirstFailingAt(p, k) && PasswordStrength(p) == Some(MessageOf(RuleOrder[k]))
  {
    var k := 0;
    while Satisfies(p, RuleOrder[k])
      invariant 0 <= k < |RuleOrder|
      invariant forall j | 0 <= j < k :: Satisfies(p, RuleOrder[j])
      decreases |RuleOrder| - k
    {
      k := k + 1;
    }
    assert FirstFailingAt(p, k);
  }

  // ---------------------------------------------------------------------
  // Error message after a failed request
  // ---------------------------------------------------------------------

  const MismatchMessage := "Passwords do not match."
  const RegistrationFallbackMessage := "Registration failed. Try again."
  const SuccessAlert := "\U{2705} Registration and login successful!"

  /** The message the page shows for `err.response?.data`: the `error`
      field when it is truthy (an array joined by ", "), else `detail` when
      it is truthy, else the fixed fallback. */
  function RegistrationError(data: Option<ErrorData>): (m: string)
    ensures data.None? ==> m == RegistrationFallbackMessage
    ensures data.Some? && data.value.error.Some? && data.value.error.value.Text? && data.value.error.value.text != ""
            ==> m == data.value.error.value.text
    ensures data.Some? && data.value.error.Some? && data.value.error.value.List?
            ==> m == Join(data.value.error.value.items, ", ")
    ensures data.Some? && (data.value.error.None? || !data.value.error.value.Truthy())
            && data.value.detail.Some? && data.value.detail.value != ""
            ==> m == data.value.detail.value
    ensures data.Some? && (data.value.error.None? || !data.value.error.value.Truthy())
            && (data.value.detail.None? || data.value.detail.value == "")
            ==> m == RegistrationFallbackMessage
    // An empty message (nothing shown) arises only from an `error` array
    // whose items join to the empty string, e.g. `[]`.
    ensures m == "" ==> data.Some? && data.value.error.Some? && data.value.error.value.List?
  {
    match data
    case None => RegistrationFallbackMessage
    case Some(d) =>
      if d.error.Some? && d.error.value.Truthy() then
        match d.error.value
        case List(items) => Join(items, ", ")
        case Text(t) => t
      else if d.detail.Some? && d.detail.value != "" then d.detail.value
      else RegistrationFallbackMessage
  }

  // ---------------------------------------------------------------------
  // Storage writes after a successful registration
  // ---------------------------------------------------------------------

  /** The four `localStorage.setItem` calls: `access`, `refresh`, `token`
      (a copy of the access token, read by the route guard) and `username`. */
  function StoreRegistration(m: Storage, tokens: TokenPair, username: string): (r: Storage)
    ensures r.Keys == m.Keys + {AccessKey, RefreshKey, TokenKey, UsernameKey}
    ensures r[AccessKey] == tokens.access && r[TokenKey] == r[AccessKey]
    ensures r[RefreshKey] == tokens.refresh && r[UsernameKey] == username
    ensures forall k | k in m && k !in {AccessKey, RefreshKey, TokenKey, UsernameKey} :: r[k] == m[k]
  {
    m[AccessKey := tokens.access][RefreshKey := tokens.refresh]
     [TokenKey := tokens.access][UsernameKey := username]
  }

  // ---------------------------------------------------------------------
  // The form
  // ---------------------------------------------------------------------

  /** The page's state: the four inputs and the error shown above the form. */
  class RegisterForm {
    var username: string
    var email: string
    var password: string
    var confirmPassword: string
    var error: string

    constructor ()
      ensures username == "" && email == "" && password == "" && confirmPassword == ""
      ensures error == ""
    {
      username, email, password, confirmPassword := "", "", "", "";
      error := "";
    }

    /** The four `onChange` handlers of the inputs. */
    method Edit(username': string, email': string, password': string, confirmPassword': string)
      modifies this
      ensures username == username' && email == email'
      ensures password == password' && confirmPassword == confirmPassword'
      ensures error == old(error)
    {
      username, email, password, confirmPassword := username', email', password', confirmPassword';
    }

    /** `handleSubmit`, given the outcome of the register request and of the
        token request that follows it. */
    method HandleSubmit(store: LocalStorage, registered: Outcome<()>, login: Outcome<TokenPair>)
      returns (effects: seq<Effect>)
      modifies this`error, store
      // A mismatch stops everything: no strength check, no request.
      ensures password != confirmPassword ==>
        error == MismatchMessage && effects == [] && store.items == old(store.items)
      // A weak password stops before any request.
      ensures password == confirmPassword && PasswordStrength(password).Some? ==>
        error == PasswordStrength(password).value && effects == [] && store.items == old(store.items)
      // Register fails: one request, message from its error body, storage untouched.
      ensures password == confirmPassword && PasswordStrength(password).None? && registered.Err? ==>
        && error == RegistrationError(registered.failure.Data())
        && effects == [Send(RegisterRequest(username, email, password))]
        && store.items == old(store.items)
      // Token request fails: two requests, message from its error body, storage untouched.
      ensures password == confirmPassword && PasswordStrength(password).None? && registered.Ok? && login.Err? ==>
        && error == RegistrationError(login.failure.Data())
        && effects == [Send(RegisterRequest(username, email, password)), Send(TokenRequest(username, password))]
        && store.items == old(store.items)
      // Both succeed: the error is "" (reset at the start), the four keys are
      // written, then authChange, the alert and the navigation to "/".
      ensures password == confirmPassword && PasswordStrength(password).None? && registered.Ok? && login.Ok? ==>
        && error == ""
        && store.items == StoreRegistration(old(store.items), login.payload, username)
        && effects == [Send(RegisterRequest(username, email, password)), Send(TokenRequest(username, password)),
                       DispatchAuthChange, Alert(SuccessAlert), Navigate("/")]
    {
      error := "";
      effects := [];
      if password != confirmPassword {
        error := MismatchMessage;
        return;
      }
      var pwError := PasswordStrength(password);
      if pwError.Some? {
        error := pwError.value;
        return;
      }
      effects := effects + [Send(RegisterRequest(username, email, password))];
      if registered.Err? {
        error := RegistrationError(registered.failure.Data());
        return;
      }
      effects := effects + [Send(TokenRequest(username, password))];
      if login.Err? {
        error := RegistrationError(login.failure.Data());
        return;
      }
      var tokens := login.payload;
      store.SetItem(AccessKey, tokens.access);
      store.SetItem(RefreshKey, tokens.refresh);
      store.SetItem(TokenKey, tokens.access);
      store.SetItem(UsernameKey, username);
      effects := effects + [DispatchAuthChange, Alert(SuccessAlert), Navigate("/")];
    }
  }
}
