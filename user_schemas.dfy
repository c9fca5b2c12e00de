/**
 * Request validation for user registration: the username and password field
 * constraints, checked before the `after` validators, and the two patterns.
 * A value that passes is returned unchanged.
 */
module UserSchemas {
  import opened Common
  import opened Models
  import opened IntText

  const UsernameMinLength := 4
  const UsernameMaxLength := 20
  const PasswordMinLength := 8
  const PasswordSymbols := "@$!%*?&"

  predicate IsAsciiLetter(c: char) {
    'A' <= c <= 'Z' || 'a' <= c <= 'z'
  }

  /** A character of the class `[A-Za-z0-9-_]`. */
  predicate IsUsernameChar(c: char) {
    IsAsciiLetter(c) || IsDigit(c) || c == '-' || c == '_'
  }

  /** USERNAME_PATTERN, as a whole-string match: one or more username characters. */
  predicate MatchesUsernamePattern(s: string) {
    |s| > 0 && forall i :: 0 <= i < |s| ==> IsUsernameChar(s[i])
  }

  /** A character of the class `[A-Za-z\d@$!%*?&]`. */
  predicate IsPasswordChar(c: char) {
    IsAsciiLetter(c) || IsDigit(c) || c in PasswordSymbols
  }

  /** PASSWORD_PATTERN: four look-aheads, then at least eight allowed characters. */
  predicate MatchesPasswordPattern(s: string) {
    && (exists i :: 0 <= i < |s| && 'a' <= s[i] <= 'z')
    && (exists i :: 0 <= i < |s| && 'A' <= s[i] <= 'Z')
    && (exists i :: 0 <= i < |s| && IsDigit(s[i]))
    && (exists i :: 0 <= i < |s| && s[i] in PasswordSymbols)
    && |s| >= 8
    && forall i :: 0 <= i < |s| ==> IsPasswordChar(s[i])
  }

  /** `username: str = Field(min_length=4, max_length=20)`, then `validate_username`. */
  function ValidateUsername(s: string): (r: Validated<string>)
    ensures r.Accepted? <==>
      UsernameMinLength <= |s| <= UsernameMaxLength && forall i :: 0 <= i < |s| ==> IsUsernameChar(s[i])
    ensures r.Accepted? ==> r.value == s
    ensures r.Rejected? ==> |r.errors| == 1 && r.errors[0].field == "username"
    ensures |s| < UsernameMinLength ==> r.Rejected? && r.errors[0].kind == StringTooShort
    ensures |s| > UsernameMaxLength ==> r.Rejected? && r.errors[0].kind == StringTooLong
    ensures (UsernameMinLength <= |s| <= UsernameMaxLength && !MatchesUsernamePattern(s))
              ==> r == Rejected([FieldError("username", ValueError)])
  {
    if |s| < UsernameMinLength then Rejected([FieldError("username", StringTooShort)])
    else if |s| > UsernameMaxLength then Rejected([FieldError("username", StringTooLong)])
    else if !MatchesUsernamePattern(s) then Rejected([FieldError("username", ValueError)])
    else Accepted(s)
  }

  /** `password: str = Field(min_length=8)`, then `validate_password`. */
  function ValidatePassword(s: string): (r: Validated<string>)
    ensures r.Accepted? <==> MatchesPasswordPattern(s)
    ensures r.Accepted? ==> r.value == s
    ensures r.Rejected? ==> |r.errors| == 1 && r.errors[0].field == "password"
    ensures |s| < PasswordMinLength ==> r.Rejected? && r.errors[0].kind == StringTooShort
    ensures (|s| >= PasswordMinLength && !MatchesPasswordPattern(s))
              ==> r == Rejected([FieldError("password", ValueError)])
  {
    if |s| < PasswordMinLength then Rejected([FieldError("password", StringTooShort)])
    else if !MatchesPasswordPattern(s) then Rejected([FieldError("password", ValueError)])
    else Accepted(s)
  }

  /** CreateUserParams: the validated registration body. */
  datatype CreateUserParams = CreateUserParams(username: string, role: Role, password: string)

  function FieldErrors(v: Validated<string>): seq<FieldError> {
    if v.Rejected? then v.errors else []
  }

  /**
   * Parsing a registration body: username and role (UserBaseSchema), then
   * password; an absent field is reported as missing. Every field error is
   * reported, in that order.
   */
  function ValidateCreateUser(username: Option<string>, role: Option<Role>, password: Option<string>)
    : (r: Validated<CreateUserParams>)
    ensures r.Accepted? <==>
      && username.Some? && ValidateUsername(username.value).Accepted?
      && role.Some?
      && password.Some? && ValidatePassword(password.value).Accepted?
    ensures r.Accepted? ==> r.value == CreateUserParams(username.value, role.value, password.value)
    ensures username.None? ==> r.Rejected? && FieldError("username", Missing) in r.errors
    ensures role.None? ==> r.Rejected? && FieldError("role", Missing) in r.errors
    ensures password.None? ==> r.Rejected? && FieldError("password", Missing) in r.errors
    ensures username.Some? && ValidateUsername(username.value).Rejected? ==>
      r.Rejected? && ValidateUsername(username.value).errors[0] in r.errors
    ensures password.Some? && ValidatePassword(password.value).Rejected? ==>
      r.Rejected? && ValidatePassword(password.value).errors[0] in r.errors
    ensures username.Some? && role.Some? && password.Some? && r.Rejected? ==>
      r.errors == FieldErrors(ValidateUsername(username.value)) + FieldErrors(ValidatePassword(password.value))
    ensures r.Rejected? ==>
      |r.errors| == (if username.None? || ValidateUsername(username.value).Rejected? then 1 else 0)
                    + (if role.None? then 1 else 0)
                    + (if password.None? || ValidatePassword(password.value).Rejected? then 1 else 0)
  {
    var usernameErrors :=
      if username.None? then [FieldError("username", Missing)] else FieldErrors(ValidateUsername(username.value));
    var roleErrors := if role.None? then [FieldError("role", Missing)] else [];
    var passwordErrors :=
      if password.None? then [FieldError("password", Missing)] else FieldErrors(ValidatePassword(password.value));
    var errors := usernameErrors + roleErrors + passwordErrors;
    if errors == [] then Accepted(CreateUserParams(username.value, role.value, password.value))
    else Rejected(errors)
  }

  /** An accepted password has a lower-case letter, an upper-case letter, a digit and a symbol, and nothing else. */
  lemma AcceptedPasswordHasEveryClass(s: string)
    requires ValidatePassword(s).Accepted?
    ensures exists i :: 0 <= i < |s| && 'a' <= s[i] <= 'z'
    ensures exists i :: 0 <= i < |s| && 'A' <= s[i] <= 'Z'
    ensures exists i :: 0 <= i < |s| && IsDigit(s[i])
    ensures exists i :: 0 <= i < |s| && s[i] in PasswordSymbols
    ensures |s| >= PasswordMinLength
    ensures forall i :: 0 <= i < |s| ==> IsAsciiLetter(s[i]) || IsDigit(s[i]) || s[i] in PasswordSymbols
  {
  }

  /** The registration cases the tests exercise. */
  lemma RegistrationExamples()
    ensures ValidateUsername("123") == Rejected([FieldError("username", StringTooShort)])
    ensures ValidateUsername("_______TOO_LONG______________")
              == Rejected([FieldError("username", StringTooLong)])
    ensures ValidateUsername(" ^& invalid ") == Rejected([FieldError("username", ValueError)])
    ensures ValidateUsername("Usernamer123") == Accepted("Usernamer123")
    ensures ValidatePassword("short") == Rejected([FieldError("password", StringTooShort)])
    ensures ValidatePassword("invalidFormat") == Rejected([FieldError("password", ValueError)])
    ensures ValidatePassword("Password100!") == Accepted("Password100!")
  {
    assert !IsUsernameChar(" ^& invalid "[0]);
    var bad := "invalidFormat";
    assert forall i :: 0 <= i < |bad| ==> !IsDigit(bad[i]);
    var good := "Password100!";
    assert 'a' <= good[1] <= 'z' && 'A' <= good[0] <= 'Z' && IsDigit(good[8]) && good[11] in PasswordSymbols;
  }
}
