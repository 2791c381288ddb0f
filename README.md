# Marketplace account rules, modelled in Dafny

This project models the decision logic of a small marketplace web
application's account layer:

- the password-strength validator and the "no special characters" field
  validator, built from four character-class checks (`validators.dfy`);
- the profile-completeness gate, a middleware that sends an authenticated
  user whose profile lacks a nickname, address or city to the profile-set
  page, except on four exempt routes and on static and media assets
  (`middleware.dfy`);
- the account adapter that chooses the page shown after login or signup,
  either home or profile-set (`adapters.dfy`).

`users.dfy` holds what both of the last two see of a request: the user
(anonymous, or authenticated with a profile), the path, and the paths the
named routes resolve to. Profile fields are `Option<string>`. A field counts
as present when it is set and non-empty, which is Python's truthiness of a
text field. A raised `ValidationError` is a `Rejected(message)` verdict. The
next handler in the middleware chain is a function parameter, and
`Downstream` carries its response to the unchanged request.

Besides the behaviour of each operation, the lemmas prove these properties:

- the punctuation set is exactly the visible ASCII characters that are not
  letters or digits;
- a password's verdict ignores the user and the order of its characters;
- extending an accepted password keeps it accepted;
- no value passes both validators;
- the gate's redirect target is exempt, so the gate never loops;
- the adapter and the gate agree on what an incomplete profile is, so the
  page chosen after login is never redirected by the gate.

## Model

| member | source | states |
|---|---|---|
| Validators.PunctuationIsVisibleNonAlphanumeric | market/validators.py:11 | a character is in `string.punctuation` iff it is visible ASCII and neither an upper-case letter, a lower-case letter nor a digit |
| Validators.ContainsMatching | market/validators.py:10-13 | the scan that stops at the first matching character answers true iff some character of the value matches |
| Validators.ContainsSpecialCharacter | market/validators.py:5-13 | true iff some character is one of the 32 punctuation characters |
| Validators.ContainsUppercaseLetter | market/validators.py:16-24 | true iff some character is an upper-case letter A-Z |
| Validators.ContainsLowercaseLetter | market/validators.py:27-35 | true iff some character is a lower-case letter a-z |
| Validators.ContainsNumber | market/validators.py:38-46 | true iff some character is a digit 0-9 |
| Validators.EmptyStringContainsNothing | market/validators.py:10-13 | each of the four checks is false on the empty string |
| Validators.ContainsMatchingAppend | market/validators.py:10-13 | a class occurs in a concatenation iff it occurs in one of the parts |
| Validators.ContainsMatchingByOccurrence | market/validators.py:10-13 | the check depends only on the multiset of characters, not on their positions |
| Validators.ValidatePassword | market/validators.py:59-75 | accepts iff the password has at least 8 characters and contains an upper-case letter, a lower-case letter, a digit and a punctuation character; otherwise rejects with the rule's message |
| Validators.PasswordVerdictIgnoresUser | market/validators.py:59-75 | the verdict is the same for every `user` argument |
| Validators.ShortPasswordRejected | market/validators.py:65 | every password shorter than 8 characters is rejected, whatever its contents |
| Validators.AlphanumericPasswordRejected | market/validators.py:69 | a password made only of letters and digits is always rejected |
| Validators.StrongPasswordExtended | market/validators.py:64-75 | appending characters to an accepted password keeps it accepted |
| Validators.PasswordVerdictIgnoresOrder | market/validators.py:64-75 | two passwords with the same characters in any order get the same verdict |
| Validators.ValidateNoSpecialCharacters | market/validators.py:88-95 | rejects with "Special characters are not allowed." iff the value contains a punctuation character, and accepts otherwise |
| Validators.ValidatorsExclusive | market/validators.py:69 | no value is accepted both by the password validator and by the no-special-characters validator |
| Users.IncompleteIffFieldMissing | market/middleware.py:33 | a profile is incomplete iff nickname, address or city is unset or empty |
| Middleware.Handle | market/middleware.py:21-55 | a redirect always goes to profile-set and happens iff the user is authenticated, the profile is incomplete, the path is not one of the four exempt routes and starts with neither `/static/` nor `/media/`; otherwise the response is the next handler's response to the unchanged request |
| Middleware.AnonymousNeverRedirected | market/middleware.py:31 | anonymous requests always reach the next handler |
| Middleware.CompleteProfileNeverRedirected | market/middleware.py:33-35 | an authenticated user with a complete profile is never redirected |
| Middleware.AssetPathsPassThrough | market/middleware.py:49-50 | a path starting with `/static/` or `/media/` passes through whatever the profile state |
| Middleware.NoRedirectLoop | market/middleware.py:39-52 | requesting the page the gate redirected to is never redirected again |
| Middleware.CompletingProfileOpensGate | market/middleware.py:33-52 | a user with only a nickname is redirected on an ordinary page; with nickname, address and city set the same page passes through |
| Adapters.ProfileOrHome | market/adapters.py:15-36 | the result is home or profile-set: home for anonymous users and complete profiles, profile-set for incomplete ones |
| Adapters.LoginRedirectUrl | market/adapters.py:38-45 | the login target is profile-set for an authenticated user with an incomplete profile, and home for anonymous users and complete profiles |
| Adapters.SignupRedirectUrl | market/adapters.py:47-54 | the signup target is profile-set for an authenticated user with an incomplete profile, and home for anonymous users and complete profiles |
| Adapters.LoginAndSignupAgree | market/adapters.py:38-54 | the login and signup targets are equal for every request |
| Adapters.AdapterAgreesWithGate | market/adapters.py:32-33 | for an authenticated user on an ordinary page, the adapter picks profile-set iff the gate redirects |
| Adapters.GateRedirectsWhereAdapterPoints | market/adapters.py:32-33 | whenever the gate redirects, its target is the adapter's choice for the same request |
| Adapters.LoginTargetPassesGate | market/adapters.py:15-45 | the page chosen after login is never redirected by the gate, for any user |

## Left out

- Character classes are the ASCII ranges A-Z, a-z and 0-9 that the validators document. Python's `str.isupper`, `str.islower` and `str.isdigit` also accept other Unicode letters and digits, and those tables are not modelled.
- `CustomPasswordValidator.get_help_text` returns a fixed text. It is only the constant `PasswordHelpText`, with no contract.
- `ProfileRequiredMiddleware.__init__` only stores `get_response`. The model passes the next handler to `Handle` as a parameter instead.
- `reverse(...)` and `redirect(...)` belong to the web framework. Route paths are opaque strings in `Routes`, and a redirect is the path it points to.
- Likes, comments and ownership rules are not modelled: market/validators.py, market/middleware.py and market/adapters.py contain none of that logic, and `market/models.py` declares only an empty `User` class.
- Views, URL configuration, admin registration, the signup form's database uniqueness check and save, the confirmation email helper and the file-name template filter are framework configuration, database queries or I/O, so they are not modelled.
