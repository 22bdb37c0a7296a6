/**
 * The Bean Validation constraints on `CreateUserRequest` and `LoginRequest`,
 * as predicates, and the set of field errors each request produces.
 */
module Validation {
  import opened Wrappers
  import opened Dto

  /** `@NotBlank`: not null, and `trim()` (which strips characters up to
      U+0020 from both ends) leaves something. */
  predicate NotBlank(s: Option<string>) {
    s.Some? && exists i | 0 <= i < |s.value| :: s.value[i] > ' '
  }

  /** `@Size(min, max)`: a null value passes; otherwise its length is in range. */
  predicate SizeWithin(s: Option<string>, min: nat, max: nat) {
    s.None? || min <= |s.value| <= max
  }

  /** `@Email`: a null value passes; the syntax check itself is a parameter. */
  predicate EmailOk(s: Option<string>, isEmail: string -> bool) {
    s.None? || isEmail(s.value)
  }

  /** The characters Java's regex `.` does not match. */
  predicate IsLineTerminator(c: char) {
    c == '\n' || c == '\r' || c == '\U{85}' || c == '\U{2028}' || c == '\U{2029}'
  }

  predicate IsDigit(c: char) { '0' <= c <= '9' }
  predicate IsLower(c: char) { 'a' <= c <= 'z' }
  predicate IsUpper(c: char) { 'A' <= c <= 'Z' }

  /** The class `[@#$%^&+=!]`. */
  predicate IsSymbol(c: char) { c in "@#$%^&+=!" }

  /** A full match of `^(?=.*[0-9])(?=.*[a-z])(?=.*[A-Z])(?=.*[@#$%^&+=!]).*$`:
      a digit, a lower-case letter, an upper-case letter and a symbol occur,
      and `.*` must cover the whole string, so no line terminator does. */
  predicate MatchesPasswordPattern(s: string) {
    && (forall i | 0 <= i < |s| :: !IsLineTerminator(s[i]))
    && (exists i | 0 <= i < |s| :: IsDigit(s[i]))
    && (exists i | 0 <= i < |s| :: IsLower(s[i]))
    && (exists i | 0 <= i < |s| :: IsUpper(s[i]))
    && (exists i | 0 <= i < |s| :: IsSymbol(s[i]))
  }

  /** `@Pattern`: a null value passes. */
  predicate PatternOk(s: Option<string>) {
    s.None? || MatchesPasswordPattern(s.value)
  }

  const UsernameRequired := "Username is required"
  const UsernameSize := "Username must be between 3 and 50 characters"
  const EmailRequired := "Email is required"
  const EmailInvalid := "Email should be valid"
  const PasswordRequired := "Password is required"
  const PasswordSize := "Password must be between 3 and 50 characters"
  const PasswordClasses := "Password must contain at least one digit, one lowercase, one uppercase, and one special character"

  predicate UsernameValid(u: Option<string>) {
    NotBlank(u) && SizeWithin(u, 3, 50)
  }

  predicate LoginPasswordValid(p: Option<string>) {
    NotBlank(p) && SizeWithin(p, 8, 50)
  }

  predicate ValidCreateUserRequest(req: CreateUserRequest, isEmail: string -> bool) {
    && UsernameValid(req.username)
    && NotBlank(req.email) && EmailOk(req.email, isEmail)
    && LoginPasswordValid(req.password) && PatternOk(req.password)
  }

  predicate ValidLoginRequest(req: LoginRequest) {
    UsernameValid(req.username) && LoginPasswordValid(req.password)
  }

  /** One field error per violated constraint (in no particular order). */
  function CreateUserViolations(req: CreateUserRequest, isEmail: string -> bool): (violations: set<FieldError>) {
    (if NotBlank(req.username) then {} else {FieldError("username", UsernameRequired)})
    + (if SizeWithin(req.username, 3, 50) then {} else {FieldError("username", UsernameSize)})
    + (if NotBlank(req.email) then {} else {FieldError("email", EmailRequired)})
    + (if EmailOk(req.email, isEmail) then {} else {FieldError("email", EmailInvalid)})
    + (if NotBlank(req.password) then {} else {FieldError("password", PasswordRequired)})
    + (if SizeWithin(req.password, 8, 50) then {} else {FieldError("password", PasswordSize)})
    + (if PatternOk(req.password) then {} else {FieldError("password", PasswordClasses)})
  }

  function LoginViolations(req: LoginRequest): (violations: set<FieldError>) {
    (if NotBlank(req.username) then {} else {FieldError("username", UsernameRequired)})
    + (if SizeWithin(req.username, 3, 50) then {} else {FieldError("username", UsernameSize)})
    + (if NotBlank(req.password) then {} else {FieldError("password", PasswordRequired)})
    + (if SizeWithin(req.password, 8, 50) then {} else {FieldError("password", PasswordSize)})
  }

  /** A registration body is valid exactly when it produces no field error. */
  lemma CreateUserValidIffNoViolations(req: CreateUserRequest, isEmail: string -> bool)
    ensures ValidCreateUserRequest(req, isEmail) <==> CreateUserViolations(req, isEmail) == {}
  {
    if CreateUserViolations(req, isEmail) == {} {
      assert FieldError("username", UsernameRequired) !in CreateUserViolations(req, isEmail);
      assert FieldError("username", UsernameSize) !in CreateUserViolations(req, isEmail);
      assert FieldError("email", EmailRequired) !in CreateUserViolations(req, isEmail);
      assert FieldError("email", EmailInvalid) !in CreateUserViolations(req, isEmail);
      assert FieldError("password", PasswordRequired) !in CreateUserViolations(req, isEmail);
      assert FieldError("password", PasswordSize) !in CreateUserViolations(req, isEmail);
      assert FieldError("password", PasswordClasses) !in CreateUserViolations(req, isEmail);
    }
  }

  /** A login body is valid exactly when it produces no field error. */
  lemma LoginValidIffNoViolations(req: LoginRequest)
    ensures ValidLoginRequest(req) <==> LoginViolations(req) == {}
  {
    if LoginViolations(req) == {} {
      assert FieldError("username", UsernameRequired) !in LoginViolations(req);
      assert FieldError("username", UsernameSize) !in LoginViolations(req);
      assert FieldError("password", PasswordRequired) !in LoginViolations(req);
      assert FieldError("password", PasswordSize) !in LoginViolations(req);
    }
  }

  /** A password of 3 to 7 characters is refused for its length, with a
      message that names 3 as the lower bound. */
  lemma ShortPasswordRefusedUnderMisstatedBound(req: CreateUserRequest, isEmail: string -> bool)
    requires req.password.Some? && 3 <= |req.password.value| < 8
    ensures !ValidCreateUserRequest(req, isEmail)
    ensures FieldError("password", "Password must be between 3 and 50 characters") in CreateUserViolations(req, isEmail)
    ensures FieldError("password", "Password must be between 3 and 50 characters") in LoginViolations(LoginRequest(req.username, req.password))
  {
  }

  /** The documented example password passes every password constraint. */
  lemma ExamplePasswordPasses()
    ensures LoginPasswordValid(Some("SecureP@ssw0rd")) && PatternOk(Some("SecureP@ssw0rd"))
  {
    var p := "SecureP@ssw0rd";
    assert p[0] == 'S' && IsUpper(p[0]) && p[0] > ' ';
    assert p[1] == 'e' && IsLower(p[1]);
    assert p[7] == '@' && IsSymbol(p[7]);
    assert p[11] == '0' && IsDigit(p[11]);
  }

  /** The pattern puts no restriction on the other characters: text free of
      line terminators can be added on either side of a matching password. */
  lemma PatternAllowsOtherCharacters(s: string, t: string)
    requires MatchesPasswordPattern(s)
    requires forall i | 0 <= i < |t| :: !IsLineTerminator(t[i])
    ensures MatchesPasswordPattern(s + t) && MatchesPasswordPattern(t + s)
  {
    var d :| 0 <= d < |s| && IsDigit(s[d]);
    var l :| 0 <= l < |s| && IsLower(s[l]);
    var u :| 0 <= u < |s| && IsUpper(s[u]);
    var y :| 0 <= y < |s| && IsSymbol(s[y]);
    var st, ts := s + t, t + s;
    assert st[d] == s[d] && st[l] == s[l] && st[u] == s[u] && st[y] == s[y];
    assert ts[|t| + d] == s[d] && ts[|t| + l] == s[l] && ts[|t| + u] == s[u] && ts[|t| + y] == s[y];
    forall i | 0 <= i < |st| ensures !IsLineTerminator(st[i]) {
      if i >= |s| { assert st[i] == t[i - |s|]; }
    }
    forall i | 0 <= i < |ts| ensures !IsLineTerminator(ts[i]) {
      if i >= |t| { assert ts[i] == s[i - |t|]; }
    }
  }

  /** A line terminator anywhere makes the pattern fail. */
  lemma LineTerminatorFailsPattern(s: string, i: nat)
    requires i < |s| && IsLineTerminator(s[i])
    ensures !PatternOk(Some(s))
  {
  }

  /** Login has no character-class rule: "abcdefgh" passes login validation
      but is refused at registration. */
  lemma LoginAcceptsWhatRegistrationRefuses(isEmail: string -> bool)
    ensures ValidLoginRequest(LoginRequest(Some("jack12"), Some("abcdefgh")))
    ensures !ValidCreateUserRequest(CreateUserRequest(Some("jack12"), Some("jack12@email.com"), Some("abcdefgh")), isEmail)
  {
    assert "jack12"[0] > ' ';
    assert "abcdefgh"[0] > ' ';
    var p := "abcdefgh";
    assert forall i | 0 <= i < |p| :: !IsUpper(p[i]);
  }

  /** A username of three spaces meets the size rule but not `@NotBlank`. */
  lemma BlankUsernameRefused(password: Option<string>)
    ensures SizeWithin(Some("   "), 3, 50)
    ensures !ValidLoginRequest(LoginRequest(Some("   "), password))
    ensures FieldError("username", "Username is required") in LoginViolations(LoginRequest(Some("   "), password))
  {
  }

  /** Every valid registration body is also a valid login body. */
  lemma RegistrationRulesImplyLoginRules(req: CreateUserRequest, isEmail: string -> bool)
    requires ValidCreateUserRequest(req, isEmail)
    ensures ValidLoginRequest(LoginRequest(req.username, req.password))
  {
  }
}
