/** The sign-up form (src/pages/Auth/Register.jsx): the password-strength
    score with its label and colour, the field edits that keep the score up
    to date, and the submit handler's ordered validation chain. */
module Register {
  import opened Common
  import opened Text

  // ---------------------------------------------------------------------
  // Password strength

  predicate HasLower(s: string) { exists i | 0 <= i < |s| :: IsLower(s[i]) }

  predicate HasUpper(s: string) { exists i | 0 <= i < |s| :: IsUpper(s[i]) }

  predicate HasDigit(s: string) { exists i | 0 <= i < |s| :: IsDigit(s[i]) }

  /** `/[^a-zA-Z0-9]/`: a code unit that is not an ASCII letter or digit. */
  predicate HasSymbol(s: string) { exists i | 0 <= i < |s| :: !IsAlnum(s[i]) }

  function B2N(b: bool): nat { if b then 1 else 0 }

  /** The number of the five conditions the password meets: at least 6
      characters, at least 10, both letter cases, a digit, a symbol. */
  function Score(pw: string): (n: nat)
    ensures n <= 5
    ensures |pw| >= 10 ==> n >= 2
    ensures n == 0 <==> |pw| < 6 && !(HasLower(pw) && HasUpper(pw)) && !HasDigit(pw) && !HasSymbol(pw)
  {
    B2N(|pw| >= 6) + B2N(|pw| >= 10) + B2N(HasLower(pw) && HasUpper(pw))
      + B2N(HasDigit(pw)) + B2N(HasSymbol(pw))
  }

  /** `calculatePasswordStrength`: the score capped at 4. */
  function Strength(pw: string): (n: nat)
    ensures n <= 4
    ensures n == 0 <==> |pw| < 6 && !(HasLower(pw) && HasUpper(pw)) && !HasDigit(pw) && !HasSymbol(pw)
    ensures n == 4 <==> Score(pw) >= 4
  {
    if Score(pw) < 4 then Score(pw) else 4
  }

  /** Every condition survives appending a character, so typing one more
      character never lowers the strength. */
  lemma StrengthMonotone(pw: string, c: char)
    ensures Strength(pw + [c]) >= Strength(pw)
  {
    var t := pw + [c];
    assert forall i | 0 <= i < |pw| :: t[i] == pw[i];
    if HasLower(pw) {
      var i :| 0 <= i < |pw| && IsLower(pw[i]);
      assert IsLower(t[i]);
    }
    if HasUpper(pw) {
      var i :| 0 <= i < |pw| && IsUpper(pw[i]);
      assert IsUpper(t[i]);
    }
    if HasDigit(pw) {
      var i :| 0 <= i < |pw| && IsDigit(pw[i]);
      assert IsDigit(t[i]);
    }
    if HasSymbol(pw) {
      var i :| 0 <= i < |pw| && !IsAlnum(pw[i]);
      assert !IsAlnum(t[i]);
    }
  }

  /** More generally, extending the password by any text never lowers it. */
  lemma {:induction false} StrengthExtend(pw: string, more: string)
    ensures Strength(pw + more) >= Strength(pw)
    decreases |more|
  {
    if |more| > 0 {
      var init := more[..|more| - 1];
      StrengthExtend(pw, init);
      StrengthMonotone(pw + init, more[|more| - 1]);
      assert pw + more == (pw + init) + [more[|more| - 1]];
    } else {
      assert pw + more == pw;
    }
  }

  /** Some scores: six lower-case letters are weak (1); four characters
      with both cases, a digit and a symbol score 3, and eight such
      characters reach the cap; ten meet all five conditions and are capped
      at 4 as well. */
  lemma StrengthExamples()
    ensures Strength("abcdef") == 1
    ensures Strength("Ab1!") == 3
    ensures Strength("Abcdef1!") == 4
    ensures Score("Abcdefgh1!") == 5 && Strength("Abcdefgh1!") == 4
  {
    assert !HasUpper("abcdef") by {
      forall i | 0 <= i < 6 ensures !IsUpper("abcdef"[i]) { }
    }
    assert !HasDigit("abcdef") by {
      forall i | 0 <= i < 6 ensures !IsDigit("abcdef"[i]) { }
    }
    assert !HasSymbol("abcdef") by {
      forall i | 0 <= i < 6 ensures IsAlnum("abcdef"[i]) { }
    }
    assert IsLower("Ab1!"[1]) && IsUpper("Ab1!"[0]) && IsDigit("Ab1!"[2]) && !IsAlnum("Ab1!"[3]);
    assert IsLower("Abcdef1!"[1]) && IsUpper("Abcdef1!"[0]) && IsDigit("Abcdef1!"[6]) && !IsAlnum("Abcdef1!"[7]);
    assert IsLower("Abcdefgh1!"[1]) && IsUpper("Abcdefgh1!"[0]) && IsDigit("Abcdefgh1!"[8]) && !IsAlnum("Abcdefgh1!"[9]);
  }

  const Labels: seq<string> := ["Muy débil", "Débil", "Aceptable", "Fuerte", "Muy fuerte"]

  const Colors: seq<string> := ["#EF4444", "#F59E0B", "#F59E0B", "#10B981", "#059669"]

  /** `getPasswordStrengthLabel`: the strength always indexes inside the
      five labels; the last one exactly at the cap. */
  function StrengthLabel(pw: string): (r: string)
    ensures r in Labels
    ensures r == "Muy fuerte" <==> Score(pw) >= 4
    ensures r == "Muy débil" <==> Strength(pw) == 0
  {
    Labels[Strength(pw)]
  }

  /** `getPasswordStrengthColor`: likewise inside the five colours; red only
      for strength 0, the two greens from 3 on. */
  function StrengthColor(pw: string): (r: string)
    ensures r in Colors
    ensures r == "#EF4444" <==> Strength(pw) == 0
    ensures r == "#10B981" || r == "#059669" <==> Strength(pw) >= 3
  {
    Colors[Strength(pw)]
  }

  /** The strength bar's width in percent, `strength / 4 * 100`. */
  function BarWidth(pw: string): (w: real)
    ensures 0.0 <= w <= 100.0
    ensures w == 100.0 <==> Score(pw) >= 4
  {
    Strength(pw) as real / 4.0 * 100.0
  }

  // ---------------------------------------------------------------------
  // Form state

  datatype Form = Form(
    firstName: string, lastName: string, email: string,
    password: string, confirmPassword: string, acceptTerms: bool)

  /** The page: the form, the error shown, and the strength shown. */
  datatype Page = Page(form: Form, error: string, strength: nat)

  const InitialPage: Page := Page(Form("", "", "", "", "", false), "", 0)

  datatype TextField = FirstName | LastName | Email | Password | ConfirmPassword

  /** The text a form holds for one input, as `formData[name]` reads it. */
  function FieldValue(f: Form, field: TextField): string {
    match field
    case FirstName => f.firstName
    case LastName => f.lastName
    case Email => f.email
    case Password => f.password
    case ConfirmPassword => f.confirmPassword
  }

  /** `handleChange` for a text input: the field takes the value, the error
      is cleared, and only an edit of the password recomputes the strength. */
  function EditText(page: Page, field: TextField, value: string): (r: Page)
    ensures r.error == ""
    ensures FieldValue(r.form, field) == value
    ensures forall g: TextField | g != field :: FieldValue(r.form, g) == FieldValue(page.form, g)
    ensures r.form.acceptTerms == page.form.acceptTerms
    ensures field == Password ==> r.form.password == value && r.strength == Strength(value)
    ensures field != Password ==> r.form.password == page.form.password && r.strength == page.strength
  {
    var f := page.form;
    var form := match field
      case FirstName => f.(firstName := value)
      case LastName => f.(lastName := value)
      case Email => f.(email := value)
      case Password => f.(password := value)
      case ConfirmPassword => f.(confirmPassword := value);
    Page(form, "", if field == Password then Strength(value) else page.strength)
  }

  /** `handleChange` for the terms checkbox. */
  function SetTerms(page: Page, checked: bool): (r: Page)
    ensures r.form == page.form.(acceptTerms := checked) && r.error == "" && r.strength == page.strength
  {
    Page(page.form.(acceptTerms := checked), "", page.strength)
  }

  /** The strength shown is the strength of the password typed. */
  predicate StrengthTracks(page: Page) {
    page.strength == Strength(page.form.password)
  }

  /** It holds on the empty form and every edit keeps it. */
  lemma StrengthTracksPreserved(page: Page, field: TextField, value: string, checked: bool)
    requires StrengthTracks(page)
    ensures StrengthTracks(InitialPage)
    ensures StrengthTracks(EditText(page, field, value))
    ensures StrengthTracks(SetTerms(page, checked))
  {
    assert !HasLower("") && !HasUpper("") && !HasDigit("") && !HasSymbol("");
  }

  // ---------------------------------------------------------------------
  // Submit

  datatype RegisterError = MissingField | InvalidEmail | ShortPassword | Mismatch | TermsNotAccepted

  /** The message shown for each failure. */
  function Message(e: RegisterError): string {
    match e
    case MissingField => "Todos los campos son obligatorios"
    case InvalidEmail => "Por favor ingresa un email válido"
    case ShortPassword => "La contraseña debe tener al menos 6 caracteres"
    case Mismatch => "Las contraseñas no coinciden"
    case TermsNotAccepted => "Debes aceptar los términos y condiciones"
  }

  /** What `register` receives: the four account fields, without the
      confirmation and the terms flag. */
  datatype Registration = Registration(firstName: string, lastName: string, email: string, password: string)

  predicate AllFilled(f: Form) {
    f.firstName != "" && f.lastName != "" && f.email != "" && f.password != "" && f.confirmPassword != ""
  }

  /** The submit handler's checks, in order; the first that fails is the one
      reported, and only a form passing all five reaches `register`. */
  function Validate(f: Form): (r: Result<Registration, RegisterError>)
    ensures r.Ok? <==> (&& AllFilled(f) && StrictEmail(f.email) && |f.password| >= 6
                        && f.password == f.confirmPassword && f.acceptTerms)
    ensures r == Err(MissingField) <==> !AllFilled(f)
    ensures r == Err(InvalidEmail) <==> AllFilled(f) && !StrictEmail(f.email)
    ensures r == Err(ShortPassword) <==> AllFilled(f) && StrictEmail(f.email) && |f.password| < 6
    ensures r == Err(Mismatch) <==>
      AllFilled(f) && StrictEmail(f.email) && |f.password| >= 6 && f.password != f.confirmPassword
    ensures r.Ok? ==> r.value == Registration(f.firstName, f.lastName, f.email, f.password)
  {
    if !AllFilled(f) then Err(MissingField)
    else if !StrictEmail(f.email) then Err(InvalidEmail)
    else if |f.password| < 6 then Err(ShortPassword)
    else if f.password != f.confirmPassword then Err(Mismatch)
    else if !f.acceptTerms then Err(TermsNotAccepted)
    else Ok(Registration(f.firstName, f.lastName, f.email, f.password))
  }

  /** The checks as a list of (passes, error) pairs, in the order written. */
  function Checks(f: Form): seq<(bool, RegisterError)> {
    [ (AllFilled(f), MissingField), (StrictEmail(f.email), InvalidEmail),
      (|f.password| >= 6, ShortPassword), (f.password == f.confirmPassword, Mismatch),
      (f.acceptTerms, TermsNotAccepted) ]
  }

  /** The error of the first failing check of a list, if any: a reference
      reading of "report the first failure". */
  function FirstFailure(checks: seq<(bool, RegisterError)>): (r: Option<RegisterError>)
    ensures r.None? <==> forall i | 0 <= i < |checks| :: checks[i].0
    ensures r.Some? ==> exists i | 0 <= i < |checks| ::
      !checks[i].0 && checks[i].1 == r.value && forall j | 0 <= j < i :: checks[j].0
  {
    if |checks| == 0 then None
    else if !checks[0].0 then Some(checks[0].1)
    else
      var r := FirstFailure(checks[1..]);
      assert forall i | 1 <= i < |checks| :: checks[i] == checks[1..][i - 1];
      if r.Some? then
        var i :| 0 <= i < |checks[1..]| && !checks[1..][i].0 && checks[1..][i].1 == r.value
                 && forall j | 0 <= j < i :: checks[1..][j].0;
        assert !checks[i + 1].0 && forall j | 0 <= j < i + 1 :: checks[j].0;
        r
      else r
  }

  /** The handler reports exactly the first failing check, and calls
      `register` exactly when none fails. */
  lemma ValidateIsFirstFailure(f: Form)
    ensures Validate(f).Ok? <==> FirstFailure(Checks(f)).None?
    ensures Validate(f).Err? ==> FirstFailure(Checks(f)) == Some(Validate(f).error)
  {
    FirstOfFive(AllFilled(f), StrictEmail(f.email), |f.password| >= 6, f.password == f.confirmPassword, f.acceptTerms);
  }

  /** `FirstFailure` on a five-check list is the chain of `if`s. */
  lemma FirstOfFive(a: bool, b: bool, c: bool, d: bool, e: bool)
    ensures var cs := [(a, MissingField), (b, InvalidEmail), (c, ShortPassword), (d, Mismatch), (e, TermsNotAccepted)];
      FirstFailure(cs) ==
        if !a then Some(MissingField) else if !b then Some(InvalidEmail) else if !c then Some(ShortPassword)
        else if !d then Some(Mismatch) else if !e then Some(TermsNotAccepted) else None
  {
    var cs := [(a, MissingField), (b, InvalidEmail), (c, ShortPassword), (d, Mismatch), (e, TermsNotAccepted)];
    assert FirstFailure(cs[1..]) == if !b then Some(InvalidEmail) else FirstFailure(cs[2..]) by {
      assert cs[1..][1..] == cs[2..];
    }
    assert FirstFailure(cs[2..]) == if !c then Some(ShortPassword) else FirstFailure(cs[3..]) by {
      assert cs[2..][1..] == cs[3..];
    }
    assert FirstFailure(cs[3..]) == if !d then Some(Mismatch) else FirstFailure(cs[4..]) by {
      assert cs[3..][1..] == cs[4..];
    }
    assert FirstFailure(cs[4..]) == if !e then Some(TermsNotAccepted) else FirstFailure(cs[5..]) by {
      assert cs[4..][1..] == cs[5..];
    }
    assert cs[5..] == [];
  }

  /** A registered password is never rated "very weak", and a registered
      address is one the checkout form accepts too. */
  lemma RegisteredFacts(f: Form)
    requires Validate(f).Ok?
    ensures Strength(Validate(f).value.password) >= 1
    ensures LooseEmail(Validate(f).value.email)
  {
    StrictEmailFacts(f.email);
  }

  /** What the page ends up showing after a submit: the validation error,
      or, once `register` has answered, the home page or the service's
      error. `answer` is that reply, `Ok` for success; it is ignored when
      validation fails because `register` is not called. */
  datatype Outcome = Outcome(called: Option<Registration>, error: string, home: bool)

  function Submit(f: Form, answer: Result<(), string>): (r: Outcome)
    ensures r.called.Some? <==> Validate(f).Ok?
    ensures r.called.Some? ==> r.called.value == Registration(f.firstName, f.lastName, f.email, f.password)
    ensures r.home <==> Validate(f).Ok? && answer.Ok?
    ensures Validate(f).Err? ==> r.error == Message(Validate(f).error)
    ensures Validate(f).Ok? && answer.Err? ==> r.error == answer.error
  {
    match Validate(f)
    case Err(e) => Outcome(None, Message(e), false)
    case Ok(reg) =>
      if answer.Ok? then Outcome(Some(reg), "", true) else Outcome(Some(reg), answer.error, false)
  }

  /** A complete form that differs only in the confirmation is refused with
      the mismatch message, before the terms are even looked at. */
  lemma MismatchBeforeTerms()
    ensures var f := Form("Ana", "Diaz", "ana@mail.co", "secreto1", "secreto2", false);
      Submit(f, Ok(())) == Outcome(None, "Las contraseñas no coinciden", false)
  {
    SampleEmail();
  }

  lemma SampleEmail()
    ensures StrictEmail("ana@mail.co")
  {
    assert StrictAt("ana@mail.co", 3, 8);
  }
}
