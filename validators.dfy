/** Password and form-field validators (market/validators.py).
    Each `contains_*` check scans a string from the front and stops at the
    first character of its class; the password validator and the field
    validator combine those checks and raise a ValidationError on failure,
    which is modelled as a `Rejected` verdict carrying the error message. */
module Validators {

  /** What a validator does with a value: return normally, or raise a
      ValidationError with the given message. */
  datatype Verdict = Accepted | Rejected(message: string)

  /** Python's `string.punctuation`: 32 printable ASCII characters. */
  const Punctuation: string := "!\"#$%&'()*+,-./:;<=>?@[\\]^_`{|}~"

  /** Shortest password the strength rule accepts. */
  const MinPasswordLength: nat := 8

  const PasswordRuleMessage: string :=
    "Password must be at least 8 characters long and include uppercase letters, "
    + "lowercase letters, numbers, and special characters."

  /** Text shown next to password fields by `get_help_text`. */
  const PasswordHelpText: string :=
    "Your password must be at least 8 characters long and include uppercase letters, "
    + "lowercase letters, numbers, and special characters."

  const NoSpecialCharactersMessage: string := "Special characters are not allowed."

  // Character classes. Letters and digits are the ASCII ranges the
  // validators document (A-Z, a-z, 0-9).

  predicate IsPunctuation(c: char) { c in Punctuation }

  predicate IsUpper(c: char) { 'A' <= c <= 'Z' }

  predicate IsLower(c: char) { 'a' <= c <= 'z' }

  predicate IsDigit(c: char) { '0' <= c <= '9' }

  /** Printable ASCII, without the space. */
  predicate IsVisibleAscii(c: char) { '!' <= c <= '~' }

  /** The punctuation set is exactly the visible ASCII characters that are
      neither letters nor digits; in particular it never overlaps the
      other three classes. */
  lemma PunctuationIsVisibleNonAlphanumeric(c: char)
    ensures IsPunctuation(c) <==> IsVisibleAscii(c) && !IsUpper(c) && !IsLower(c) && !IsDigit(c)
  {
  }

  /** The scan shared by the four `contains_*` checks: walk `value` from the
      front and answer true at the first character `matches` accepts. The
      early exit does not change the meaning: some character matches. */
  function ContainsMatching(value: string, matches: char -> bool): (found: bool)
    ensures found <==> exists i :: 0 <= i < |value| && matches(value[i])
    decreases |value|
  {
    if value == [] then false
    else if matches(value[0]) then true
    else
      var found := ContainsMatching(value[1..], matches);
      assert found ==> exists i :: 0 < i < |value| && matches(value[i]) by {
        if found {
          var j :| 0 <= j < |value[1..]| && matches(value[1..][j]);
          assert matches(value[j + 1]);
        }
      }
      found
  }

  function ContainsSpecialCharacter(value: string): (found: bool)
    ensures found <==> exists i :: 0 <= i < |value| && IsPunctuation(value[i])
  {
    ContainsMatching(value, IsPunctuation)
  }

  function ContainsUppercaseLetter(value: string): (found: bool)
    ensures found <==> exists i :: 0 <= i < |value| && IsUpper(value[i])
  {
    ContainsMatching(value, IsUpper)
  }

  function ContainsLowercaseLetter(value: string): (found: bool)
    ensures found <==> exists i :: 0 <= i < |value| && IsLower(value[i])
  {
    ContainsMatching(value, IsLower)
  }

  function ContainsNumber(value: string): (found: bool)
    ensures found <==> exists i :: 0 <= i < |value| && IsDigit(value[i])
  {
    ContainsMatching(value, IsDigit)
  }

  /** No character class is found in the empty string. */
  lemma EmptyStringContainsNothing()
    ensures !ContainsSpecialCharacter("") && !ContainsUppercaseLetter("")
    ensures !ContainsLowercaseLetter("") && !ContainsNumber("")
  {
  }

  /** A class found in a concatenation is found in one of its parts, and
      conversely. */
  lemma {:induction false} ContainsMatchingAppend(a: string, b: string, matches: char -> bool)
    ensures ContainsMatching(a + b, matches) <==> ContainsMatching(a, matches) || ContainsMatching(b, matches)
  {
    if ContainsMatching(a, matches) {
      var i :| 0 <= i < |a| && matches(a[i]);
      assert (a + b)[i] == a[i];
    }
    if ContainsMatching(b, matches) {
      var i :| 0 <= i < |b| && matches(b[i]);
      assert (a + b)[|a| + i] == b[i];
    }
    if ContainsMatching(a + b, matches) {
      var i :| 0 <= i < |a + b| && matches((a + b)[i]);
      if i < |a| {
        assert a[i] == (a + b)[i];
      } else {
        assert b[i - |a|] == (a + b)[i];
      }
    }
  }

  /** Whether a class is found depends only on which characters occur, not
      on their order or position. */
  lemma ContainsMatchingByOccurrence(value: string, matches: char -> bool)
    ensures ContainsMatching(value, matches) <==> exists c :: c in multiset(value) && matches(c)
  {
  }

  /** The strength rule stated directly over the characters of the
      password: long enough, and each of the four classes occurs. */
  ghost predicate IsStrongPassword(password: string) {
    && |password| >= MinPasswordLength
    && (exists i :: 0 <= i < |password| && IsUpper(password[i]))
    && (exists i :: 0 <= i < |password| && IsLower(password[i]))
    && (exists i :: 0 <= i < |password| && IsDigit(password[i]))
    && (exists i :: 0 <= i < |password| && IsPunctuation(password[i]))
  }

  /** `CustomPasswordValidator.validate`: accepts exactly the strong
      passwords and otherwise rejects with the rule's message. The `user`
      argument is taken and never consulted. */
  function ValidatePassword<U>(password: string, user: U): (v: Verdict)
    ensures v.Accepted? <==> IsStrongPassword(password)
    ensures v.Rejected? ==> v.message == PasswordRuleMessage
  {
    if || |password| < MinPasswordLength
       || !ContainsUppercaseLetter(password)
       || !ContainsLowercaseLetter(password)
       || !ContainsNumber(password)
       || !ContainsSpecialCharacter(password)
    then Rejected(PasswordRuleMessage)
    else Accepted
  }

  /** The verdict on a password is the same whoever the user is. */
  lemma PasswordVerdictIgnoresUser<U, W>(password: string, u: U, w: W)
    ensures ValidatePassword(password, u) == ValidatePassword(password, w)
  {
  }

  /** Any password shorter than eight characters is rejected, whatever it
      contains. */
  lemma ShortPasswordRejected<U>(password: string, user: U)
    requires |password| < MinPasswordLength
    ensures ValidatePassword(password, user) == Rejected(PasswordRuleMessage)
  {
  }

  /** A password made only of letters and digits is always rejected: it
      has no punctuation character. */
  lemma AlphanumericPasswordRejected<U>(password: string, user: U)
    requires forall i :: 0 <= i < |password| ==>
      IsUpper(password[i]) || IsLower(password[i]) || IsDigit(password[i])
    ensures ValidatePassword(password, user) == Rejected(PasswordRuleMessage)
  {
    if i :| 0 <= i < |password| && IsPunctuation(password[i]) {
      PunctuationIsVisibleNonAlphanumeric(password[i]);
    }
  }

  /** Appending characters to an accepted password keeps it accepted. */
  lemma StrongPasswordExtended<U>(password: string, suffix: string, user: U)
    ensures ValidatePassword(password, user).Accepted? ==> ValidatePassword(password + suffix, user).Accepted?
  {
    ContainsMatchingAppend(password, suffix, IsUpper);
    ContainsMatchingAppend(password, suffix, IsLower);
    ContainsMatchingAppend(password, suffix, IsDigit);
    ContainsMatchingAppend(password, suffix, IsPunctuation);
  }

  /** Rearranging the characters of a password never changes the verdict. */
  lemma PasswordVerdictIgnoresOrder<U>(password: string, shuffled: string, user: U)
    requires multiset(password) == multiset(shuffled)
    ensures ValidatePassword(password, user) == ValidatePassword(shuffled, user)
  {
    assert |password| == |multiset(password)| == |shuffled|;
    ContainsMatchingByOccurrence(password, IsUpper);
    ContainsMatchingByOccurrence(shuffled, IsUpper);
    ContainsMatchingByOccurrence(password, IsLower);
    ContainsMatchingByOccurrence(shuffled, IsLower);
    ContainsMatchingByOccurrence(password, IsDigit);
    ContainsMatchingByOccurrence(shuffled, IsDigit);
    ContainsMatchingByOccurrence(password, IsPunctuation);
    ContainsMatchingByOccurrence(shuffled, IsPunctuation);
  }

  /** `validate_no_special_characters`: rejects exactly the values that
      contain a punctuation character, and returns normally otherwise. */
  function ValidateNoSpecialCharacters(value: string): (v: Verdict)
    ensures v.Rejected? <==> exists i :: 0 <= i < |value| && IsPunctuation(value[i])
    ensures v.Rejected? ==> v.message == NoSpecialCharactersMessage
  {
    if ContainsSpecialCharacter(value) then Rejected(NoSpecialCharactersMessage) else Accepted
  }

  /** No value passes both validators: the password rule demands a
      punctuation character and the field validator forbids one. */
  lemma ValidatorsExclusive<U>(value: string, user: U)
    ensures !(ValidatePassword(value, user).Accepted? && ValidateNoSpecialCharacters(value).Accepted?)
  {
  }
}
