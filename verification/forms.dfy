/** The client's sign-up and sign-in forms: the message each field gets,
    whether the form may be sent, and what is sent. */
module Forms {
  import opened Wrappers
  import Seqs
  import Text
  import AuthState

  datatype Field = Name | Email | Phone | Password | ConfirmPassword

  /** The messages shown under the fields; a form is sendable when it has
      none. */
  type Errors = map<Field, string>

  /** The name is checked once trimmed; its length is JavaScript's, in
      UTF-16 code units. */
  function NameError(name: string): (r: Option<string>)
    ensures r.None? <==> Text.Utf16Length(Text.Trim(name)) >= 2
    ensures |Text.Trim(name)| >= 2 ==> r.None?
    ensures r == Some("Name is required") <==> |Text.Trim(name)| == 0
  {
    if |Text.Trim(name)| == 0 then Some("Name is required")
    else if Text.Utf16Length(Text.Trim(name)) < 2 then Some("Name must be at least 2 characters")
    else None
  }

  /** Shared by both forms. */
  function EmailError(email: string): (r: Option<string>)
    ensures r.None? <==> |email| > 0 && Text.HasEmailShape(email)
  {
    if |email| == 0 then Some("Email is required")
    else if !Text.HasEmailShape(email) then Some("Email is invalid")
    else None
  }

  /** Anything but digits is ignored; ten digits must remain. */
  function PhoneError(phone: string): (r: Option<string>)
    ensures r.None? <==> |phone| > 0 && |Text.DigitsOnly(phone)| == 10
  {
    if |phone| == 0 then Some("Phone number is required")
    else if !Text.IsTenDigits(Text.DigitsOnly(phone)) then Some("Phone number must be 10 digits")
    else None
  }

  const MIN_PASSWORD: nat := 6

  /** Shared by both forms; the length is counted in UTF-16 code units. */
  function PasswordError(password: string): (r: Option<string>)
    ensures r.None? <==> Text.Utf16Length(password) >= MIN_PASSWORD
    ensures |password| >= MIN_PASSWORD ==> r.None?
    ensures r == Some("Password is required") <==> |password| == 0
  {
    if |password| == 0 then Some("Password is required")
    else if Text.Utf16Length(password) < MIN_PASSWORD then Some("Password must be at least 6 characters")
    else None
  }

  /** A code point outside the Basic Multilingual Plane counts twice: one
      such character is a long enough name, and three make a long enough
      password. */
  lemma {:induction false} AstralCountsTwice(c: char)
    requires Text.IsAstral(c) && !Text.IsSpace(c)
    ensures NameError([c]).None?
    ensures PasswordError([c, c, c]).None?
  {
    Text.TrimSingleVisible([c], 0);
    Text.Utf16LengthAstral([c]);
    Text.Utf16LengthAstral([c, c, c]);
  }

  function ConfirmError(password: string, confirm: string): (r: Option<string>)
    ensures r.None? <==> |confirm| > 0 && confirm == password
  {
    if |confirm| == 0 then Some("Please confirm your password")
    else if password != confirm then Some("Passwords do not match")
    else None
  }

  datatype SignUp = SignUp(name: string, email: string, phone: string, password: string, confirmPassword: string)

  /** The message, if any, the sign-up form shows under `g`. */
  function SignUpMessage(f: SignUp, g: Field): Option<string>
  {
    match g
    case Name => NameError(f.name)
    case Email => EmailError(f.email)
    case Phone => PhoneError(f.phone)
    case Password => PasswordError(f.password)
    case ConfirmPassword => ConfirmError(f.password, f.confirmPassword)
  }

  const ALL_FIELDS: set<Field> := {Name, Email, Phone, Password, ConfirmPassword}

  /** The sign-up form's `validateForm`: one entry per field that fails its
      check, holding that check's message. */
  function SignUpErrors(f: SignUp): (r: Errors)
    ensures forall g :: g in r <==> SignUpMessage(f, g).Some?
    ensures forall g | g in r :: r[g] == SignUpMessage(f, g).value
  {
    map g | g in ALL_FIELDS && SignUpMessage(f, g).Some? :: SignUpMessage(f, g).value
  }

  /** The form is sendable exactly when every field passes: the name has
      two visible characters, the email has the `x@y.z` shape, the phone
      holds ten digits, the password six characters and the confirmation
      repeats it. */
  lemma {:induction false} SignUpSendable(f: SignUp)
    ensures SignUpErrors(f) == map[] <==>
              && Text.Utf16Length(Text.Trim(f.name)) >= 2 && |f.email| > 0 && Text.HasEmailShape(f.email)
              && |f.phone| > 0 && |Text.DigitsOnly(f.phone)| == 10
              && Text.Utf16Length(f.password) >= MIN_PASSWORD && f.confirmPassword == f.password
  {
    var r := SignUpErrors(f);
    if r == map[] {
      assert Name !in r && Email !in r && Phone !in r && Password !in r && ConfirmPassword !in r;
    } else {
      var g :| g in r;
    }
  }

  /** The sign-up submit: nothing is sent unless the form has no errors;
      then the trimmed name and the other fields as typed. */
  function SignUpSubmit(f: SignUp): (r: Option<AuthState.Registration>)
    ensures r.Some? <==> SignUpErrors(f) == map[]
    ensures r.Some? ==> r.value == AuthState.Registration(Text.Trim(f.name), f.email, f.phone, f.password)
  {
    if SignUpErrors(f) == map[] then Some(AuthState.Registration(Text.Trim(f.name), f.email, f.phone, f.password))
    else None
  }

  datatype SignIn = SignIn(email: string, password: string)

  function SignInMessage(f: SignIn, g: Field): Option<string>
  {
    match g
    case Email => EmailError(f.email)
    case Password => PasswordError(f.password)
    case _ => None
  }

  /** The sign-in form's `validateForm`: only the email and the password
      are checked. */
  function SignInErrors(f: SignIn): (r: Errors)
    ensures forall g :: g in r <==> SignInMessage(f, g).Some?
    ensures forall g | g in r :: r[g] == SignInMessage(f, g).value
    ensures r.Keys <= {Email, Password}
  {
    map g | g in ALL_FIELDS && SignInMessage(f, g).Some? :: SignInMessage(f, g).value
  }

  lemma {:induction false} SignInSendable(f: SignIn)
    ensures SignInErrors(f) == map[] <==>
              |f.email| > 0 && Text.HasEmailShape(f.email) && Text.Utf16Length(f.password) >= MIN_PASSWORD
  {
    var r := SignInErrors(f);
    if r == map[] {
      assert Email !in r && Password !in r;
    } else {
      var g :| g in r;
    }
  }

  /** The sign-in submit: `login` is called only with a form without
      errors. */
  function SignInSubmit(f: SignIn): (r: Option<(string, string)>)
    ensures r.Some? <==> SignInErrors(f) == map[]
    ensures r.Some? ==> r.value == (f.email, f.password)
  {
    if SignInErrors(f) == map[] then Some((f.email, f.password)) else None
  }

  /** Credentials the sign-up form accepts are accepted by the sign-in
      form too: both use the same email and password checks. */
  lemma {:induction false} SignedUpCanSignIn(f: SignUp)
    requires SignUpSubmit(f).Some?
    ensures SignInSubmit(SignIn(f.email, f.password)) == Some((f.email, f.password))
  {
  }

  /** Separators in a phone number do not matter: only its digits are
      counted. */
  lemma {:induction false} PhoneIgnoresSeparators(a: string, sep: char, b: string)
    requires !Text.IsDigit(sep)
    ensures PhoneError(a + [sep] + b).None? <==> |Text.DigitsOnly(a) + Text.DigitsOnly(b)| == 10
  {
    Seqs.FilterAppend(a + [sep], b, Text.IsDigit);
    Seqs.FilterAppend(a, [sep], Text.IsDigit);
    assert Seqs.Filter([sep], Text.IsDigit) == [];
  }

  /** The email pattern is not anchored: anything around an address that
      passes still passes. */
  lemma {:induction false} EmailUnanchored(pre: string, s: string, post: string)
    requires Text.HasEmailShape(s)
    ensures Text.HasEmailShape(pre + s + post)
  {
    var at, dot :| Text.EmailAt(s, at, dot);
    assert Text.EmailAt(s, at, dot);
    var t := pre + s + post;
    var k := |pre|;
    assert t[k + at] == s[at] && t[k + at - 1] == s[at - 1];
    assert t[k + dot] == s[dot] && t[k + dot + 1] == s[dot + 1];
    assert Text.NoSpaceBetween(t, k + at, k + dot) by {
      forall j | k + at < j < k + dot
        ensures !Text.IsSpace(t[j])
      {
        assert t[j] == s[j - k];
      }
    }
    assert Text.EmailAt(t, k + at, k + dot);
  }
}
