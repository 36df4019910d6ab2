/** The sign-in form (src/pages/Auth/Login.jsx): the page to return to after
    signing in, the submit handler's two checks, and the "remember me"
    flag written to browser storage after a successful sign-in. */
module Login {
  import opened Common
  import opened Text

  /** `location.state?.from?.pathname || '/'`: the page the visitor was sent
      away from, when the router recorded one that is not empty, else the
      home page. `from` is `None` when any link of that chain is missing. */
  function RedirectTarget(from: Option<string>): (r: string)
    ensures r != ""
    ensures from.Some? && from.value != "" ==> r == from.value
    ensures r == "/" <==> from.None? || from.value == "" || from.value == "/"
  {
    match from
    case None => "/"
    case Some(path) => if path == "" then "/" else path
  }

  datatype Form = Form(email: string, password: string)

  datatype Field = EmailField | PasswordField

  /** The page's editable state: the form and the error shown. */
  datatype Page = Page(form: Form, error: string)

  /** `handleChange`: the edited field takes the typed value, the other keeps
      its own, and the error shown is cleared. */
  function Edit(page: Page, field: Field, value: string): (r: Page)
    ensures r.error == ""
    ensures field == EmailField ==> r.form.email == value && r.form.password == page.form.password
    ensures field == PasswordField ==> r.form.password == value && r.form.email == page.form.email
  {
    match field
    case EmailField => Page(page.form.(email := value), "")
    case PasswordField => Page(page.form.(password := value), "")
  }

  datatype LoginError = Incomplete | InvalidEmail

  function Message(e: LoginError): string {
    match e
    case Incomplete => "Por favor completa todos los campos"
    case InvalidEmail => "Por favor ingresa un email válido"
  }

  /** The two checks before `login` is called: both fields filled, then the
      address pattern. */
  function Validate(f: Form): (r: Result<Form, LoginError>)
    ensures r == Err(Incomplete) <==> f.email == "" || f.password == ""
    ensures r == Err(InvalidEmail) <==> f.email != "" && f.password != "" && !StrictEmail(f.email)
    ensures r.Ok? <==> f.password != "" && StrictEmail(f.email)
    ensures r.Ok? ==> r.value == f
  {
    if f.email == "" || f.password == "" then Err(Incomplete)
    else if !StrictEmail(f.email) then Err(InvalidEmail)
    else Ok(f)
  }

  /** An empty field is reported as such whatever the address looks like,
      and a well-formed address with a password always gets through. */
  lemma IncompleteFirst(f: Form)
    ensures f.password == "" ==> Validate(f) == Err(Incomplete)
    ensures StrictEmail(f.email) && f.password != "" ==> Validate(f) == Ok(f)
    ensures Validate(Form("ana", "")) == Err(Incomplete)
    ensures Validate(Form("ana", "x")) == Err(InvalidEmail)
  {
    assert !StrictEmail("ana");
  }

  /** Browser storage, one text per key. */
  type LocalStorage = map<string, string>

  /** What the page ends up doing after a submit: the call made to `login`
      (if any), the error shown, the storage afterwards, and the page it
      navigates to. `answer` is `login`'s reply, `Ok` for success; it is
      ignored when the checks fail, because `login` is not called. */
  datatype Outcome = Outcome(called: Option<Form>, error: string, storage: LocalStorage, navigate: Option<string>)

  function Submit(f: Form, rememberMe: bool, from: Option<string>, storage: LocalStorage,
                  answer: Result<(), string>): (r: Outcome)
    ensures r.called.Some? <==> Validate(f).Ok?
    ensures r.called.Some? ==> r.called.value == f
    ensures r.navigate.Some? <==> Validate(f).Ok? && answer.Ok?
    ensures r.navigate.Some? ==> r.navigate.value == RedirectTarget(from)
    ensures Validate(f).Err? ==> r.error == Message(Validate(f).error)
    ensures Validate(f).Ok? && answer.Err? ==> r.error == answer.error
    ensures Validate(f).Ok? && answer.Ok? && rememberMe ==> r.storage == storage["rememberMe" := "true"]
    ensures !(Validate(f).Ok? && answer.Ok? && rememberMe) ==> r.storage == storage
  {
    match Validate(f)
    case Err(e) => Outcome(None, Message(e), storage, None)
    case Ok(_) =>
      match answer
      case Err(msg) => Outcome(Some(f), msg, storage, None)
      case Ok(_) =>
        var after := if rememberMe then storage["rememberMe" := "true"] else storage;
        Outcome(Some(f), "", after, Some(RedirectTarget(from)))
  }

  /** The flag is only ever set, to "true", and only by a successful
      sign-in with the box ticked; the other keys are untouched. */
  lemma RememberMeOnlyOnSuccess(f: Form, rememberMe: bool, from: Option<string>, storage: LocalStorage,
                                answer: Result<(), string>)
    ensures var r := Submit(f, rememberMe, from, storage, answer);
      && (forall k | k in storage && k != "rememberMe" :: k in r.storage && r.storage[k] == storage[k])
      && r.storage.Keys <= storage.Keys + {"rememberMe"}
      && ("rememberMe" in r.storage && ("rememberMe" !in storage || r.storage["rememberMe"] != storage["rememberMe"])
          ==> r.navigate.Some? && rememberMe && r.storage["rememberMe"] == "true")
  {
  }

  /** A visitor bounced from the checkout goes back there after signing in;
      one who opened the sign-in page directly lands on the home page. */
  lemma RedirectExamples(f: Form, storage: LocalStorage)
    requires Validate(f).Ok?
    ensures Submit(f, false, Some("/checkout"), storage, Ok(())).navigate == Some("/checkout")
    ensures Submit(f, true, None, storage, Ok(())).navigate == Some("/")
    ensures Submit(f, true, None, storage, Err("x")).navigate == None
  {
  }
}
