/**
  Properties of the login listener that relate its outcome to its inputs
  across whole classes of requests, and worked examples on concrete requests.
 */
module LoginListenerProperties {
  import opened Wrappers
  import opened PhpStrings
  import opened LoginListener

  /** A request that is not a POST is never a login attempt, whatever its body holds. */
  lemma GateRejectsNonPost(req: Request)
    requires !IsPost(req)
    ensures RequiresAuthentication(req) == No
  {
  }

  /** A POST without a `FORM_SUBMIT` field is never a login attempt. */
  lemma GateRejectsMissingFormName(req: Request)
    requires FormSubmitField !in req.body
    ensures RequiresAuthentication(req) == No
  {
  }

  /**
    For a POST whose `FORM_SUBMIT` is a string, the gate is exactly a test
    that the first eight bytes are `tl_login`: shorter names fail, anything
    may follow the prefix.
   */
  lemma GateIsPrefixTest(req: Request, name: string)
    requires IsPost(req) && FormSubmitField in req.body && req.body[FormSubmitField] == Str(name)
    ensures RequiresAuthentication(req) == Yes <==> |name| >= 8 && name[..8] == "tl_login"
    ensures RequiresAuthentication(req) != Yes ==> RequiresAuthentication(req) == No
  {
  }

  /** A POST whose form is named `name`, with the rest of the body and the session arbitrary. */
  function LoginPost(body: Fields, session: Session, name: string): Request {
    Request("POST", body[FormSubmitField := Str(name)], session)
  }

  /** `tl_login_do` and `tl_login` itself open a login attempt. */
  lemma GateAcceptsLoginForms(body: Fields, session: Session)
    ensures RequiresAuthentication(LoginPost(body, session, "tl_login_do")) == Yes
    ensures RequiresAuthentication(LoginPost(body, session, "tl_login")) == Yes
  {
    assert "tl_login_do"[..8] == "tl_login";
    assert "tl_login"[..8] == "tl_login";
  }

  /** `tl_log` is too short and `other_form` differs in its first byte: neither opens a login attempt. */
  lemma GateRejectsOtherForms(body: Fields, session: Session)
    ensures RequiresAuthentication(LoginPost(body, session, "tl_log")) == No
    ensures RequiresAuthentication(LoginPost(body, session, "other_form")) == No
  {
    assert "other_form"[..8][0] != "tl_login"[0];
  }

  /**
    With a pending second factor, the delegated token is built from the
    pending token's authenticated token, providers and attributes, the
    submitted code (`null` when absent) and the provider key; the session
    is left alone.
   */
  lemma TwoFactorBranch(l: Listener, req: Request, current: Option<Token>)
    requires IsTwoFactor(current)
    ensures BuildAttempt(l, req, current).session == req.session
    ensures BuildAttempt(l, req, current).outcome == Delegated(TwoFactor(
      current.value.authenticated, Get(req.body, VerifyField), l.providerKey,
      current.value.providers, current.value.attributes))
  {
  }

  /**
    With a pending second factor, only the `verify` field of the body
    matters: two requests that agree on it (and on the session) are
    classified alike, whatever username or password they carry.
   */
  lemma TwoFactorIgnoresCredentials(l: Listener, req1: Request, req2: Request, current: Option<Token>)
    requires IsTwoFactor(current)
    requires Get(req1.body, VerifyField) == Get(req2.body, VerifyField) && req1.session == req2.session
    ensures BuildAttempt(l, req1, current) == BuildAttempt(l, req2, current)
  {
  }

  /** Without a pending second factor, `BadRequest` is raised exactly for a username that is not string-like. */
  lemma BadRequestIff(l: Listener, req: Request, current: Option<Token>)
    requires !IsTwoFactor(current)
    ensures BuildAttempt(l, req, current).outcome == Failed(BadRequest) <==> !IsStringLike(Get(req.body, UsernameField))
  {
  }

  /**
    Without a pending second factor and with a string-like username,
    `BadCredentials` is raised exactly when the trimmed username is longer
    than the maximum; a username of exactly the maximum length passes.
   */
  lemma BadCredentialsIff(l: Listener, req: Request, current: Option<Token>)
    requires !IsTwoFactor(current) && IsStringLike(Get(req.body, UsernameField))
    ensures BuildAttempt(l, req, current).outcome == Failed(BadCredentials)
      <==> |Trim(Get(req.body, UsernameField).text)| > l.maxUsernameLength
  {
  }

  /**
    A login that passes validation delegates the trimmed username, the
    password exactly as submitted and the provider key, and records the
    trimmed username as the last username; no other session entry changes.
   */
  lemma UsernamePasswordBranch(l: Listener, req: Request, current: Option<Token>)
    requires !IsTwoFactor(current) && IsStringLike(Get(req.body, UsernameField))
    requires |Trim(Get(req.body, UsernameField).text)| <= l.maxUsernameLength
    ensures var user := Trim(Get(req.body, UsernameField).text);
      && BuildAttempt(l, req, current).outcome == Delegated(UsernamePassword(user, Get(req.body, PasswordField), l.providerKey))
      && BuildAttempt(l, req, current).session == req.session[LastUsernameKey := Str(user)]
  {
  }

  /**
    Error ordering: every request falls in exactly one of the three
    outcomes, the username's type being checked before its length, and
    both before anything is delegated.
   */
  lemma OutcomeClassification(l: Listener, req: Request, current: Option<Token>)
    ensures var o := BuildAttempt(l, req, current).outcome;
      var u := Get(req.body, UsernameField);
      && (o == Failed(BadRequest) <==> !IsTwoFactor(current) && !IsStringLike(u))
      && (o == Failed(BadCredentials) <==> !IsTwoFactor(current) && IsStringLike(u) && |Trim(u.text)| > l.maxUsernameLength)
      && (o.Delegated? <==> IsTwoFactor(current) || (IsStringLike(u) && |Trim(u.text)| <= l.maxUsernameLength))
  {
  }

  /**
    Whenever a username/password token is delegated, the session holds a
    last username that is already trimmed: trimming it again (as a
    re-submission of the repopulated login form would) gives it back
    unchanged. This holds also when the same username was already stored.
   */
  lemma RecordedUsernameIsStable(l: Listener, req: Request, current: Option<Token>)
    requires BuildAttempt(l, req, current).outcome.Delegated? && BuildAttempt(l, req, current).outcome.token.UsernamePassword?
    ensures var s := BuildAttempt(l, req, current).session;
      LastUsernameKey in s && s[LastUsernameKey].Str? && Trim(s[LastUsernameKey].text) == s[LastUsernameKey].text
  {
    var a := BuildAttempt(l, req, current);
    TrimmedIsFixed(a.outcome.token.user);
  }

  /**
    `attemptAuthentication` hands back the authentication manager's answer
    with no post-processing, and when the listener throws first the manager
    plays no part: any two managers give the same response.
   */
  lemma PassThrough<R>(l: Listener, req: Request, current: Option<Token>, authenticate: Token -> R, other: Token -> R)
    ensures BuildAttempt(l, req, current).outcome.Failed? ==>
      AttemptAuthentication(l, req, current, authenticate) == AttemptAuthentication(l, req, current, other)
    ensures BuildAttempt(l, req, current).outcome.Delegated? ==>
      AttemptAuthentication(l, req, current, authenticate).0.value == authenticate(BuildAttempt(l, req, current).outcome.token)
  {
  }

  /** A pending TOTP challenge with code "123456" is forwarded with that code and provider list. */
  lemma TotpExample(l: Listener, session: Session, primary: Token, attributes: map<string, Value>)
    ensures var req := Request("POST", map[FormSubmitField := Str("tl_login"), VerifyField := Str("123456")], session);
      var pending := TwoFactor(primary, Null, l.providerKey, ["totp"], attributes);
      BuildAttempt(l, req, Some(pending)) == Attempt(Delegated(TwoFactor(primary, Str("123456"), l.providerKey, ["totp"], attributes)), session)
  {
  }

  /** Surrounding blanks are cut from "  alice  ". */
  lemma TrimAlice()
    ensures Trim("  alice  ") == "alice"
  {
    var padded := "  alice  ";
    assert padded[2..7] == "alice";
    assert padded[..2] == "  " && padded[7..] == "  ";
    assert TrimAt(padded, 2, 7);
    TrimOfUnique(Trim(padded), "alice", padded);
  }

  /** "  alice  " with password "secret" is trimmed to "alice", recorded, and delegated. */
  lemma AliceExample(l: Listener, session: Session)
    requires l.maxUsernameLength >= 5
    ensures var req := Request("POST", map[UsernameField := Str("  alice  "), PasswordField := Str("secret")], session);
      BuildAttempt(l, req, None) == Attempt(
        Delegated(UsernamePassword("alice", Str("secret"), l.providerKey)),
        session[LastUsernameKey := Str("alice")])
  {
    var req := Request("POST", map[UsernameField := Str("  alice  "), PasswordField := Str("secret")], session);
    TrimAlice();
    UsernamePasswordBranch(l, req, None);
  }

  /** A 300-byte username against a bound of 128 is refused before the session is touched. */
  lemma OversizedUsernameExample(session: Session, key: string)
    ensures var req := Request("POST", map[UsernameField := Str(seq(300, _ => 'a'))], session);
      BuildAttempt(Listener(key, 128), req, None) == Attempt(Failed(BadCredentials), session)
  {
    var long: string := seq(300, _ => 'a');
    TrimmedIsFixed(long);
  }

  /** A username submitted as an array is a bad request, and the session is untouched. */
  lemma ArrayUsernameExample(l: Listener, session: Session)
    ensures var req := Request("POST", map[UsernameField := NonString], session);
      BuildAttempt(l, req, None) == Attempt(Failed(BadRequest), session)
  {
  }

  /**
    The guard lets an object with `__toString` through, but under strict
    types `trim` then throws instead of trimming its text; the corrected
    reading trims the text.
   */
  lemma StringableUsernameThrowsAsWritten()
    ensures IsStringLike(Stringable("alice"))
    ensures TrimUsernameAsWritten(Stringable("alice")) == None
    ensures TrimUsername(Stringable("alice")) == Some("alice")
  {
    TrimmedIsFixed("alice");
  }
}
