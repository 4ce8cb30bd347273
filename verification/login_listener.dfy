/**
  The Contao back-end/front-end login listener: the gate that decides whether
  a request is a login-form submission, and the classifier that turns such a
  submission into either a second-factor token (when a two-factor challenge
  is pending) or a username/password token, after validating the username.

  Requests, the session and the current token are immutable values; the
  session write is returned alongside the outcome. The authentication manager
  is a function parameter whose result is handed back unchanged.
 */
module LoginListener {
  import opened Wrappers
  import opened PhpStrings

  /**
    A PHP value read from the request body or stored in the session or in
    token attributes. `Stringable` is an object whose class defines
    `__toString`, carrying the text that method returns; `NonString` is any
    other value (an array, a number, an object without `__toString`).
   */
  datatype Value = Null | Str(text: string) | Stringable(text: string) | NonString

  type Fields = map<string, Value>
  type Session = map<string, Value>

  /**
    The parts of an HTTP request the listener reads: the method (as Symfony's
    `getMethod` reports it, upper-case, as `verb`), the POST body and the session.
   */
  datatype Request = Request(verb: string, body: Fields, session: Session)

  /**
    Security tokens. `UsernamePassword` is built by this listener;
    `TwoFactor` is both the pending token found in storage while a second
    factor is awaited and the token built from the submitted code; `Other`
    stands for any other token kind (for instance a fully authenticated one).
   */
  datatype Token =
    | UsernamePassword(user: string, credentials: Value, providerKey: string)
    | TwoFactor(authenticated: Token, code: Value, providerKey: string, providers: seq<string>, attributes: map<string, Value>)
    | Other(id: string)

  /** The listener's configuration: its firewall's provider key and the username length bound. */
  datatype Listener = Listener(providerKey: string, maxUsernameLength: nat)

  /** Errors the listener raises itself, before anything is delegated. */
  datatype Failure = BadRequest | BadCredentials

  /** What the classifier decides: an error, or a token to hand to the authentication manager. */
  datatype Outcome = Failed(failure: Failure) | Delegated(token: Token)

  /** The classifier's outcome together with the session as it stands afterwards. */
  datatype Attempt = Attempt(outcome: Outcome, session: Session)

  /** What `requiresAuthentication` ends with: an answer, or the `TypeError` thrown by `strncmp`. */
  datatype Gate = Yes | No | TypeError

  /** What `attemptAuthentication` ends with: an exception of its own, or the manager's answer. */
  datatype Response<R> = Threw(failure: Failure) | Returned(value: R)

  const FormSubmitField := "FORM_SUBMIT"
  const LoginFormPrefix := "tl_login"
  const UsernameField := "username"
  const PasswordField := "password"
  const VerifyField := "verify"

  /** Symfony's `Security::LAST_USERNAME` session key. */
  const LastUsernameKey := "_security.last_username"

  /** `$request->request->get($key)`: the submitted value, or `null` when the field is absent. */
  function Get(body: Fields, key: string): Value {
    if key in body then body[key] else Null
  }

  predicate IsPost(req: Request) {
    req.verb == "POST"
  }

  /**
    `requiresAuthentication`: a POST request whose `FORM_SUBMIT` field starts
    with the eight bytes `tl_login`. Under strict types `strncmp` throws a
    `TypeError` when the field is present but not a string; the checks
    before it short-circuit, so that is only reached for POST requests.
   */
  function RequiresAuthentication(req: Request): (r: Gate)
    ensures r == TypeError <==> IsPost(req) && FormSubmitField in req.body && !req.body[FormSubmitField].Str?
    ensures r == Yes <==>
      IsPost(req) && FormSubmitField in req.body && req.body[FormSubmitField].Str?
      && IsPrefix(LoginFormPrefix, req.body[FormSubmitField].text)
  {
    if !IsPost(req) || FormSubmitField !in req.body then No
    else match req.body[FormSubmitField]
      case Str(s) =>
        StrncmpPrefix(s, LoginFormPrefix);
        if Strncmp(s, LoginFormPrefix, 8) == 0 then Yes else No
      case _ => TypeError
  }

  /** The guard on the username: a string, or an object that defines `__toString`. */
  predicate IsStringLike(v: Value) {
    v.Str? || v.Stringable?
  }

  /**
    The username once it has passed the guard and been trimmed: a string is
    trimmed as it is, an object through the text its `__toString` returns.
    `None` means the guard rejects the value.
   */
  function TrimUsername(v: Value): (r: Option<string>)
    ensures r.Some? <==> IsStringLike(v)
    ensures r.Some? ==> IsTrimOf(r.value, v.text)
  {
    match v
    case Str(s) => Some(Trim(s))
    case Stringable(s) => Some(Trim(s))
    case _ => None
  }

  /**
    `trim($username)` as the file is written: under strict types the
    built-in accepts only strings, so an object that passed the guard makes
    it throw a `TypeError` (`None`).
   */
  function TrimUsernameAsWritten(v: Value): (r: Option<string>)
    requires IsStringLike(v)
    ensures r.Some? <==> v.Str?
    ensures r.Some? ==> IsTrimOf(r.value, v.text)
  {
    match v
    case Str(s) => Some(Trim(s))
    case _ => None
  }

  /** Whether `token` is a pending second-factor token (`instanceof TwoFactorTokenInterface`). */
  predicate IsTwoFactor(current: Option<Token>) {
    current.Some? && current.value.TwoFactor?
  }

  /**
    `attemptAuthentication` up to the call to the authentication manager.
    With a pending two-factor token, the second-factor token is built from
    the pending one and the `verify` field. Otherwise the username is
    checked (a `BadRequest` when it is not string-like), trimmed, bounded (a
    `BadCredentials` when longer than the maximum), recorded in the session,
    and a username/password token is built with the password as submitted.
   */
  function BuildAttempt(l: Listener, req: Request, current: Option<Token>): (a: Attempt)
    // Failing fast: no error leaves a trace in the session.
    ensures a.outcome.Failed? ==> a.session == req.session
    // Only the last-username entry can change, and it changes only to a delegated username.
    ensures forall k :: k != LastUsernameKey ==> (k in a.session <==> k in req.session)
    ensures forall k :: k in req.session && k != LastUsernameKey ==> a.session[k] == req.session[k]
    ensures a.session != req.session ==> a.outcome.Delegated? && a.outcome.token.UsernamePassword?
    ensures a.outcome.Delegated? && a.outcome.token.UsernamePassword? ==>
      LastUsernameKey in a.session && a.session[LastUsernameKey] == Str(a.outcome.token.user)
    // A username that reaches the manager is trimmed and within the bound.
    ensures a.outcome.Delegated? && a.outcome.token.UsernamePassword? ==>
      IsTrimmed(a.outcome.token.user) && |a.outcome.token.user| <= l.maxUsernameLength
    // Every delegated token is tagged with this listener's provider key.
    ensures a.outcome.Delegated? ==> !a.outcome.token.Other? && a.outcome.token.providerKey == l.providerKey
    // The branch is chosen by the current token alone.
    ensures IsTwoFactor(current) <==> a.outcome.Delegated? && a.outcome.token.TwoFactor?
  {
    if IsTwoFactor(current) then
      var pending := current.value;
      var token := TwoFactor(pending.authenticated, Get(req.body, VerifyField), l.providerKey,
                             pending.providers, pending.attributes);
      Attempt(Delegated(token), req.session)
    else
      match TrimUsername(Get(req.body, UsernameField))
      case None => Attempt(Failed(BadRequest), req.session)
      case Some(user) =>
        if |user| > l.maxUsernameLength then Attempt(Failed(BadCredentials), req.session)
        else
          var token := UsernamePassword(user, Get(req.body, PasswordField), l.providerKey);
          Attempt(Delegated(token), req.session[LastUsernameKey := Str(user)])
  }

  /**
    `attemptAuthentication` in full: the token built above goes to
    `authenticate`, whose answer is returned as it is; the listener's own
    errors are thrown without consulting it.
   */
  function AttemptAuthentication<R>(l: Listener, req: Request, current: Option<Token>, authenticate: Token -> R)
    : (r: (Response<R>, Session))
    ensures r.1 == BuildAttempt(l, req, current).session
    ensures BuildAttempt(l, req, current).outcome.Delegated? ==>
      r.0 == Returned(authenticate(BuildAttempt(l, req, current).outcome.token))
    ensures BuildAttempt(l, req, current).outcome.Failed? ==>
      r.0 == Threw(BuildAttempt(l, req, current).outcome.failure)
  {
    var a := BuildAttempt(l, req, current);
    match a.outcome
    case Failed(f) => (Threw(f), a.session)
    case Delegated(t) => (Returned(authenticate(t)), a.session)
  }
}
