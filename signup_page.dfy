/**
 * The registration page: the password rule, the validation preamble of
 * `handleRegister`, the bounded wait for custom claims, and the route chosen
 * from the `approved` claim.
 */
module SignupPage {
  import opened Wrappers
  import opened Js

  // ---- validatePassword -----------------------------------------------------

  const PASSWORD_SPECIALS: string := "@$!%*?&"

  /** The character classes tested by the four look-aheads. */
  datatype CharClass = Lower | Upper | Digit | Special

  predicate InClass(c: char, k: CharClass) {
    match k
    case Lower => 'a' <= c <= 'z'
    case Upper => 'A' <= c <= 'Z'
    case Digit => IsAsciiDigit(c)
    case Special => c in PASSWORD_SPECIALS
  }

  /** `[A-Za-z\d@$!%*?&]` */
  predicate InPasswordAlphabet(c: char) {
    InClass(c, Lower) || InClass(c, Upper) || InClass(c, Digit) || InClass(c, Special)
  }

  /** The characters `.` does not match when the `s` flag is off. */
  predicate IsLineTerminator(c: char) {
    c == '\n' || c == '\r' || c == '\U{2028}' || c == '\U{2029}'
  }

  /** The look-ahead `(?=.*[k])` at the start of `s`: some `k` character not preceded by a line terminator. */
  predicate DotStarThen(s: string, k: CharClass)
    decreases |s|
  {
    s != [] && (InClass(s[0], k) || (!IsLineTerminator(s[0]) && DotStarThen(s[1..], k)))
  }

  /** `/^(?=.*[a-z])(?=.*[A-Z])(?=.*\d)(?=.*[@$!%*?&])[A-Za-z\d@$!%*?&]{8,}$/.test(password)` */
  predicate ValidatePassword(password: string) {
    DotStarThen(password, Lower) && DotStarThen(password, Upper) &&
    DotStarThen(password, Digit) && DotStarThen(password, Special) &&
    |password| >= 8 && forall i :: 0 <= i < |password| ==> InPasswordAlphabet(password[i])
  }

  predicate Contains(s: string, k: CharClass) {
    exists i :: 0 <= i < |s| && InClass(s[i], k)
  }

  /** The password policy in words: at least 8 characters from the alphabet, with one of each class. */
  predicate StrongPassword(password: string) {
    |password| >= 8 &&
    (forall i :: 0 <= i < |password| ==> InPasswordAlphabet(password[i])) &&
    Contains(password, Lower) && Contains(password, Upper) &&
    Contains(password, Digit) && Contains(password, Special)
  }

  lemma {:induction false} DotStarThenIff(s: string, k: CharClass)
    requires forall i :: 0 <= i < |s| ==> !IsLineTerminator(s[i])
    ensures DotStarThen(s, k) <==> Contains(s, k)
    decreases |s|
  {
    if s != [] {
      assert forall i :: 0 <= i < |s[1..]| ==> s[1..][i] == s[i + 1];
      DotStarThenIff(s[1..], k);
      if Contains(s[1..], k) {
        var i :| 0 <= i < |s[1..]| && InClass(s[1..][i], k);
        assert InClass(s[i + 1], k);
      }
      if Contains(s, k) && !InClass(s[0], k) {
        var i :| 0 <= i < |s| && InClass(s[i], k);
        assert i > 0 && InClass(s[1..][i - 1], k);
      }
    }
  }

  /** The regular expression accepts exactly the strong passwords. */
  lemma ValidatePasswordIff(password: string)
    ensures ValidatePassword(password) <==> StrongPassword(password)
  {
    if forall i :: 0 <= i < |password| ==> InPasswordAlphabet(password[i]) {
      assert forall i :: 0 <= i < |password| ==> !IsLineTerminator(password[i]);
      DotStarThenIff(password, Lower);
      DotStarThenIff(password, Upper);
      DotStarThenIff(password, Digit);
      DotStarThenIff(password, Special);
    }
  }

  /** A space, `#` or `_` anywhere rejects an otherwise strong password. */
  lemma ForeignCharacterRejects(password: string, i: nat)
    requires i < |password| && (password[i] == ' ' || password[i] == '#' || password[i] == '_')
    ensures !ValidatePassword(password)
  {
    assert !InPasswordAlphabet(password[i]);
  }

  // ---- handleRegister: validation preamble ------------------------------------

  datatype RegistrationForm = RegistrationForm(
    title: string, firstName: string, lastName: string, dni: string,
    address: string, healthcenter: string, email: string, password: string)

  const REQUIRED_MESSAGE: string := "Todos los campos son obligatorios"
  const DNI_MESSAGE: string := "El DNI debe contener solo números"
  const PASSWORD_MESSAGE: string := "La contraseña debe tener al menos 8 caracteres, una mayúscula, una minúscula, un número y un carácter especial"

  /** Every field except `healthcenter` is non-blank. */
  predicate RequiredFilled(f: RegistrationForm) {
    Trim(f.title) != "" && Trim(f.firstName) != "" && Trim(f.lastName) != "" && Trim(f.dni) != "" &&
    Trim(f.address) != "" && Trim(f.email) != "" && Trim(f.password) != ""
  }

  /** The message the preamble sets, or `None` when registration proceeds. */
  function RegistrationError(f: RegistrationForm): (e: Option<string>)
    ensures e.None? <==> RequiredFilled(f) && IsDigitString(f.dni) && ValidatePassword(f.password)
    ensures !RequiredFilled(f) ==> e == Some(REQUIRED_MESSAGE)
    ensures RequiredFilled(f) && !IsDigitString(f.dni) ==> e == Some(DNI_MESSAGE)
    ensures RequiredFilled(f) && IsDigitString(f.dni) && !ValidatePassword(f.password) ==> e == Some(PASSWORD_MESSAGE)
  {
    if !RequiredFilled(f) then Some(REQUIRED_MESSAGE)
    else if !IsDigitString(f.dni) then Some(DNI_MESSAGE)
    else if !ValidatePassword(f.password) then Some(PASSWORD_MESSAGE)
    else None
  }

  /**
   * A registration proceeds iff every required field has a visible character,
   * the DNI is all ASCII digits, and the password is strong; `healthcenter` plays no part.
   */
  lemma RegistrationAcceptedIff(f: RegistrationForm)
    ensures RegistrationError(f).None? <==>
      (forall s :: s in [f.title, f.firstName, f.lastName, f.dni, f.address, f.email, f.password] ==> !AllWhitespace(s)) &&
      IsDigitString(f.dni) && StrongPassword(f.password)
    ensures forall h :: RegistrationError(f.(healthcenter := h)) == RegistrationError(f)
  {
    var fields := [f.title, f.firstName, f.lastName, f.dni, f.address, f.email, f.password];
    forall s | s in fields ensures Trim(s) == "" <==> AllWhitespace(s) {
      TrimEmptyIff(s);
    }
    ValidatePasswordIff(f.password);
  }

  /** The DNI is not trimmed: a leading space passes the required check and then fails the digit check. */
  lemma PaddedDniRejected(f: RegistrationForm)
    requires f.dni == " 123"
    requires Trim(f.title) != "" && Trim(f.firstName) != "" && Trim(f.lastName) != "" &&
             Trim(f.address) != "" && Trim(f.email) != "" && Trim(f.password) != ""
    ensures RegistrationError(f) == Some(DNI_MESSAGE)
  {
    assert !IsJsWhitespace(f.dni[1]);
    TrimEmptyIff(f.dni);
    assert !IsAsciiDigit(f.dni[0]);
  }

  /** The page's error state, as `handleRegister`'s preamble leaves it. */
  class RegisterPage {
    var error: Option<string>

    constructor ()
      ensures error.None?
    {
      error := None;
    }

    /** Runs the checks in order; on success clears the error and reports that registration goes on. */
    method ValidateBeforeRegister(f: RegistrationForm) returns (proceed: bool)
      modifies this
      ensures proceed <==> RegistrationError(f).None?
      ensures error == RegistrationError(f)
    {
      if !RequiredFilled(f) {
        error := Some(REQUIRED_MESSAGE);
        return false;
      }
      if !IsDigitString(f.dni) {
        error := Some(DNI_MESSAGE);
        return false;
      }
      if !ValidatePassword(f.password) {
        error := Some(PASSWORD_MESSAGE);
        return false;
      }
      error := None;
      proceed := true;
    }
  }

  // ---- waitForClaims and the route choice --------------------------------------

  const MAX_ATTEMPTS: nat := 5

  type Claims = map<string, JsValue>

  /** `tokenResult.claims.approved !== undefined`; a `null` claim counts as present. */
  predicate ClaimsReady(claims: Claims) {
    Prop(Obj(claims), "approved") != Undefined
  }

  /**
   * `waitForClaims(user, maxAttempts)`. `poll(i)` stands for the claims of the
   * token after the (i+1)-th forced refresh. Returns the first ready claims and
   * how many polls were made; `None` is the thrown error.
   */
  method WaitForClaims(poll: nat -> Claims, maxAttempts: nat) returns (result: Option<Claims>, polls: nat)
    ensures polls <= maxAttempts
    ensures result.Some? ==> 1 <= polls && result.value == poll(polls - 1) && ClaimsReady(result.value)
    ensures result.Some? ==> forall j :: 0 <= j < polls - 1 ==> !ClaimsReady(poll(j))
    ensures result.None? ==> polls == maxAttempts && forall j :: 0 <= j < maxAttempts ==> !ClaimsReady(poll(j))
  {
    var attempts: nat := 0;
    while attempts < maxAttempts
      invariant attempts <= maxAttempts
      invariant forall j :: 0 <= j < attempts ==> !ClaimsReady(poll(j))
      decreases maxAttempts - attempts
    {
      var claims := poll(attempts);
      if ClaimsReady(claims) {
        return Some(claims), attempts + 1;
      }
      attempts := attempts + 1;
    }
    return None, attempts;
  }

  /**
   * The call `waitForClaims(user)` of the registration flow, with the default
   * of five attempts: it fails exactly when none of the five polls is ready.
   */
  method WaitForClaimsByDefault(poll: nat -> Claims) returns (result: Option<Claims>, polls: nat)
    ensures polls <= MAX_ATTEMPTS
    ensures result.None? <==> forall j :: 0 <= j < MAX_ATTEMPTS ==> !ClaimsReady(poll(j))
    ensures result.Some? ==> 1 <= polls && ClaimsReady(result.value) && result.value == poll(polls - 1)
  {
    result, polls := WaitForClaims(poll, MAX_ATTEMPTS);
  }

  /** `approved === true` goes to the dashboard; anything else, including truthy non-booleans, to verification. */
  function RouteAfterClaims(claims: Claims): (path: string)
    ensures path == "/dashboard" <==> Prop(Obj(claims), "approved") == Bool(true)
    ensures path != "/dashboard" ==> path == "/verification"
  {
    if Prop(Obj(claims), "approved") == Bool(true) then "/dashboard" else "/verification"
  }
}
