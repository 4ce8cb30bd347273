# Contao login authentication listener — Dafny model

This project models `ContaoLoginAuthenticationListener`, the Symfony firewall
listener that Contao uses for its login form. It has two pieces of logic:

- **`requiresAuthentication`**: the gate. A request is a login attempt when it
  is a POST and its `FORM_SUBMIT` field starts with the eight bytes `tl_login`.
- **`attemptAuthentication`**: the classifier. It picks one of two branches.
  - If the token in storage is a pending two-factor token, it builds a
    second-factor token from that token and the submitted `verify` code.
  - Otherwise it validates the `username` field: it must be string-like, and
    after trimming it must be no longer than the maximum. It then records the
    trimmed username in the session under the last-username key and builds a
    username/password token.

  Either token goes to the authentication manager, and the manager's answer is
  returned unchanged.

Modules:

- `PhpStrings` (`php_strings.dfy`) models the PHP built-ins the listener uses.
  `Strncmp` follows PHP's binary-safe comparison. `Trim` strips PHP's default
  byte set (space, `\t`, `\n`, `\r`, `\0`, `\x0B`). It is characterised by a
  reference definition (`IsTrimOf`), and a lemma proves that definition has
  exactly one solution.
- `LoginListener` (`login_listener.dfy`) holds the data model and the two
  operations. Requests, sessions and tokens are immutable values. The
  classifier returns its outcome together with the resulting session. The
  authentication manager is a function parameter `Token -> R`.
- `LoginListenerProperties` (`login_listener_properties.dfy`) holds lemmas that
  relate outcomes to inputs across whole classes of requests, plus worked
  examples on concrete requests.
- `Wrappers` (`wrappers.dfy`) holds `Option`.

PHP strings are byte strings. Here every `char` stands for one byte, so
`strlen` is the sequence length.

Three consequences of the code that are easy to miss:

- **The gate can throw.** Under `strict_types=1`, `strncmp` raises a
  `TypeError` for a non-string `FORM_SUBMIT` on a POST;
  `RequiresAuthentication` returns `TypeError` then.
- **An absent `username` is a BadRequest.** `get` returns `null`, which fails
  the guard.
- **An absent `verify` is forwarded as `null`** (modelled as `Null`).

## Model

| member | source | states |
|---|---|---|
| `LoginListener.RequiresAuthentication` | src/Security/Authentication/ContaoLoginAuthenticationListener.php:57-62 | Answers `Yes` exactly for a POST whose `FORM_SUBMIT` field is a string with prefix `tl_login`. Answers `TypeError` exactly for a POST whose `FORM_SUBMIT` is present but not a string. Answers `No` otherwise. |
| `PhpStrings.Strncmp` | src/Security/Authentication/ContaoLoginAuthenticationListener.php:61 | The model reports `strncmp`'s sign as -1, 0 or 1; line 61 only tests for 0, which `StrncmpZeroIff` pins down. |
| `PhpStrings.StrncmpZeroIff` | src/Security/Authentication/ContaoLoginAuthenticationListener.php:61 | `strncmp(a, b, n)` is 0 exactly when the first `n` bytes of both strings agree. A string that ends early agrees only with another that ends at the same place. |
| `PhpStrings.StrncmpAntisymmetric` | src/Security/Authentication/ContaoLoginAuthenticationListener.php:61 | Swapping the arguments of `strncmp` negates its result. |
| `PhpStrings.StrncmpPrefix` | src/Security/Authentication/ContaoLoginAuthenticationListener.php:61 | Comparing `|p|` bytes against `p` is a prefix test. A shorter string never matches, and anything may follow the prefix. |
| `PhpStrings.Trim` | src/Security/Authentication/ContaoLoginAuthenticationListener.php:93 | The result is the slice of the input left after cutting a run of strippable bytes from each end. It has no strippable byte at either end and is no longer than the input. |
| `PhpStrings.TrimOfUnique` | src/Security/Authentication/ContaoLoginAuthenticationListener.php:93 | At most one string satisfies the reference definition of trimming, so `Trim` is the only function that meets it. |
| `PhpStrings.TrimmedIsFixed` | src/Security/Authentication/ContaoLoginAuthenticationListener.php:93 | A string with nothing to strip at either end is returned unchanged. |
| `PhpStrings.TrimIdempotent` | src/Security/Authentication/ContaoLoginAuthenticationListener.php:93 | Trimming twice equals trimming once. |
| `PhpStrings.TrimEmptyIff` | src/Security/Authentication/ContaoLoginAuthenticationListener.php:93 | Trimming gives the empty string exactly when every byte is strippable. |
| `LoginListener.TrimUsername` | src/Security/Authentication/ContaoLoginAuthenticationListener.php:89-93 | A username yields a trimmed text exactly when it passes the guard (a string or a stringable object). The text is the trim of the string or of `__toString`'s result. |
| `LoginListener.TrimUsernameAsWritten` | src/Security/Authentication/ContaoLoginAuthenticationListener.php:89-93 | As written under strict types, trimming succeeds only for a real string. A stringable object that passed the guard makes `trim` throw. |
| `LoginListener.Get` | src/Security/Authentication/ContaoLoginAuthenticationListener.php:72 | `$request->request->get($key)`: an absent field reads as `null`, a present one as its submitted value; the same lookup serves `username` and `password` at lines 86-87. |
| `LoginListener.IsPost` | src/Security/Authentication/ContaoLoginAuthenticationListener.php:59 | `isMethod('POST')`: the request's method, as Symfony reports it in upper case, is `POST`. |
| `LoginListener.IsStringLike` | src/Security/Authentication/ContaoLoginAuthenticationListener.php:89 | The username guard: a string or an object with `__toString` passes; `null`, arrays, numbers and other objects fail. |
| `LoginListener.IsTwoFactor` | src/Security/Authentication/ContaoLoginAuthenticationListener.php:71 | `instanceof TwoFactorTokenInterface`: a token is present in storage and it is a pending two-factor token. |
| `PhpStrings.IsTrimSpace` | src/Security/Authentication/ContaoLoginAuthenticationListener.php:93 | `trim`'s default byte set: space, `\t`, `\n`, `\r`, `\0` and `\x0B`, and nothing else. |
| `LoginListener.BuildAttempt` | src/Security/Authentication/ContaoLoginAuthenticationListener.php:67-101 | A failure leaves the session unchanged. Only the last-username entry may change, and only when a username/password token is delegated; it then holds that token's username. That username is trimmed and within the bound. Every delegated token carries the provider key. The two-factor branch is taken exactly when the current token is two-factor. |
| `LoginListener.AttemptAuthentication` | src/Security/Authentication/ContaoLoginAuthenticationListener.php:67-101 | Returns the manager's answer for the built token, or throws the listener's own failure. The session is the classifier's. |
| `LoginListenerProperties.GateRejectsNonPost` | src/Security/Authentication/ContaoLoginAuthenticationListener.php:59 | Any non-POST request gets `No`, whatever its body holds. |
| `LoginListenerProperties.GateRejectsMissingFormName` | src/Security/Authentication/ContaoLoginAuthenticationListener.php:60 | A request without `FORM_SUBMIT` gets `No`. |
| `LoginListenerProperties.GateIsPrefixTest` | src/Security/Authentication/ContaoLoginAuthenticationListener.php:59-61 | For a POST with a string `FORM_SUBMIT`, the gate answers `Yes` exactly when the first 8 bytes are `tl_login`, and `No` otherwise (never `TypeError`). |
| `LoginListenerProperties.GateAcceptsLoginForms` | src/Security/Authentication/ContaoLoginAuthenticationListener.php:61 | `tl_login_do` and `tl_login` open a login attempt. |
| `LoginListenerProperties.GateRejectsOtherForms` | src/Security/Authentication/ContaoLoginAuthenticationListener.php:61 | `tl_log` (too short) and `other_form` do not open a login attempt. |
| `LoginListenerProperties.TwoFactorBranch` | src/Security/Authentication/ContaoLoginAuthenticationListener.php:71-83 | With a pending two-factor token, the delegated token holds the pending token's authenticated token, providers and attributes, plus the `verify` value (null when absent) and the provider key. The session is unchanged. |
| `LoginListenerProperties.TwoFactorIgnoresCredentials` | src/Security/Authentication/ContaoLoginAuthenticationListener.php:71-84 | With a pending two-factor token, username and password play no part. Requests that agree on `verify` and on the session are classified identically. |
| `LoginListenerProperties.BadRequestIff` | src/Security/Authentication/ContaoLoginAuthenticationListener.php:86-91 | Outside the two-factor branch, BadRequest is raised exactly when the username is not string-like. |
| `LoginListenerProperties.BadCredentialsIff` | src/Security/Authentication/ContaoLoginAuthenticationListener.php:93-97 | For a string-like username, BadCredentials is raised exactly when the trimmed length exceeds the maximum. The maximum itself is accepted. |
| `LoginListenerProperties.UsernamePasswordBranch` | src/Security/Authentication/ContaoLoginAuthenticationListener.php:99-101 | A valid username delegates (trimmed username, password verbatim, provider key). The session becomes the old one with only the last-username key set to the trimmed username. |
| `LoginListenerProperties.OutcomeClassification` | src/Security/Authentication/ContaoLoginAuthenticationListener.php:71-101 | Every request gets exactly one of BadRequest, BadCredentials or Delegated. The type check comes before the length check, and both come before delegation. |
| `LoginListenerProperties.RecordedUsernameIsStable` | src/Security/Authentication/ContaoLoginAuthenticationListener.php:93-99 | Whenever a username/password token is delegated, the session's last username is a string that trimming leaves unchanged, including when the same username was already stored. |
| `LoginListenerProperties.PassThrough` | src/Security/Authentication/ContaoLoginAuthenticationListener.php:83-101 | The delegated result is exactly `authenticate(token)`. On the listener's own failures, any two managers give the same response, so the manager plays no part. |
| `LoginListenerProperties.TotpExample` | src/Security/Authentication/ContaoLoginAuthenticationListener.php:71-83 | A pending challenge with providers `["totp"]` and code `"123456"` is forwarded with both. The session is unchanged. |
| `LoginListenerProperties.TrimAlice` | src/Security/Authentication/ContaoLoginAuthenticationListener.php:93 | `"  alice  "` trims to `"alice"`. |
| `LoginListenerProperties.AliceExample` | src/Security/Authentication/ContaoLoginAuthenticationListener.php:86-101 | Username `"  alice  "` and password `"secret"` delegate `"alice"` / `"secret"` and record `"alice"` in the session. |
| `LoginListenerProperties.OversizedUsernameExample` | src/Security/Authentication/ContaoLoginAuthenticationListener.php:93-97 | A 300-byte username against a bound of 128 yields BadCredentials, and the session is unchanged. |
| `LoginListenerProperties.ArrayUsernameExample` | src/Security/Authentication/ContaoLoginAuthenticationListener.php:89-91 | An array username yields BadRequest, and the session is unchanged. |
| `LoginListenerProperties.StringableUsernameThrowsAsWritten` | src/Security/Authentication/ContaoLoginAuthenticationListener.php:89-93 | A stringable object passes the guard, but `trim` as written rejects it. The corrected reading trims its text. |

## Left out

- Symfony plumbing is not modelled. This covers `AbstractAuthenticationListener`, the constructor wiring, `HttpUtils`, the success and failure handlers, the session strategy, the logger and the event dispatcher. These are framework classes outside this file.
- The authentication manager is not modelled. `AuthenticationManagerInterface::authenticate` is a function parameter, and its exceptions are part of its opaque result.
- `TwoFactorTokenFactoryInterface::create` followed by `setAttributes` is modelled as constructing a `TwoFactor` record. Whatever attributes the factory sets are replaced by the pending token's attributes.
- Token storage is not modelled. The current token is passed in as `Option<Token>`.
- Real HTTP requests and session storage are replaced by maps. `isMethod('POST')` becomes a comparison with the method as `getMethod` reports it; the `_method` override and upper-casing are Symfony's own. `get` is a plain map lookup; scalar checks that newer `InputBag` versions perform are not modelled.
- PHP type juggling is not modelled. A value is tagged as null, string, stringable object (carrying its `__toString` text) or other.
- Exception messages are not modelled. Only the exception kind is kept: `BadRequest` and `BadCredentials`, the gate's `TypeError`, and `None` for the `TypeError` of `trim` in `TrimUsernameAsWritten`.
- PhpStrings.Strncmp: the result is normalised to -1, 0 or 1, as PHP 8.2 and later return it; older PHP versions return any negative or positive integer. The listener only tests the result against 0, so the gate is the same either way.
- `Security::MAX_USERNAME_LENGTH` is a configuration field `maxUsernameLength`; Symfony sets it to 4096. `Security::LAST_USERNAME` is the constant `_security.last_username`. The `Security` class is not part of this model.
- The `TypeError` that `trim` raises for a stringable username is kept only in `TrimUsernameAsWritten`. The rest of the model uses the corrected `TrimUsername` (see Findings).
- Calling `requiresAuthentication` twice on the same request gives the same answer. In this model that holds by construction, because it is a pure function, so no lemma states it.

## Findings

| source | as written | input that shows it | evidently intended | confidence | as-written member | corrected member |
|---|---|---|---|---|---|---|
| src/Security/Authentication/ContaoLoginAuthenticationListener.php:89-93 | The guard lets through an object that defines `__toString`. The file declares `strict_types=1`, so `trim($username)` accepts only a string and throws a `TypeError` for that object. | a `username` that is an object whose `__toString` returns `"alice"` | The object is converted through `__toString` and its text is trimmed and validated like a string. | medium, not executed | `LoginListener.TrimUsernameAsWritten` (counterexample: `LoginListenerProperties.StringableUsernameThrowsAsWritten`) | `LoginListener.TrimUsername` |
