/**
 * The form actions of the useFormState demo: a name/email check, a multi-field sign-up check
 * that collects one error per failed rule, a simulated server check of a post, and a three-step
 * wizard. The artificial `delay` is not modelled.
 */
module UseFormState {
  import opened Wrappers
  import opened JsString
  import JsObject
  import opened FormFields

  datatype FormState = Error(error: string) | Success(success: string)

  /** `!name || name.length < 2` */
  predicate NameInvalid(form: FormData) {
    var name := Field(form, "name");
    !Truthy(name) || |name.value| < 2
  }

  /** `!email || !email.includes("@")` */
  predicate EmailInvalid(form: FormData) {
    var email := Field(form, "email");
    !Truthy(email) || !Includes(email.value, "@")
  }

  /** `validateEmail(prevState, formData)`: the name rule is checked first, then the email rule. */
  function ValidateEmail(form: FormData): (r: FormState)
    ensures NameInvalid(form) ==> r == Error("Name must be at least 2 characters")
    ensures !NameInvalid(form) && EmailInvalid(form) ==> r == Error("Please enter a valid email address")
    ensures r.Success? <==> !NameInvalid(form) && !EmailInvalid(form)
    ensures r.Success? ==> r.success == "Welcome, " + form["name"] + "! Confirmation sent to " + form["email"]
  {
    if NameInvalid(form) then Error("Name must be at least 2 characters")
    else if EmailInvalid(form) then Error("Please enter a valid email address")
    else Success("Welcome, " + form["name"] + "! Confirmation sent to " + form["email"])
  }

  /** A successful welcome names the submitted email, which contains '@'. */
  lemma WelcomeNamesEmail(form: FormData)
    requires ValidateEmail(form).Success?
    ensures Includes(ValidateEmail(form).success, form["email"])
    ensures Includes(form["email"], "@")
  {
    IncludesInfix("Welcome, " + form["name"] + "! Confirmation sent to ", form["email"], "");
    assert "Welcome, " + form["name"] + "! Confirmation sent to " + form["email"] + "" ==
           "Welcome, " + form["name"] + "! Confirmation sent to " + form["email"];
  }

  /**
   * The `errors` record of the sign-up form: one optional message per field, `None` where the
   * record has no such key. `Object.keys(errors).length` counts the messages present.
   */
  datatype SignupErrors = SignupErrors(username: Option<string>, email: Option<string>,
                                       password: Option<string>, confirm: Option<string>)
  {
    function KeyCount(): (n: nat)
      ensures n <= 4
      ensures n == 0 <==> username.None? && email.None? && password.None? && confirm.None?
    {
      (if username.Some? then 1 else 0) + (if email.Some? then 1 else 0) +
      (if password.Some? then 1 else 0) + (if confirm.Some? then 1 else 0)
    }
  }

  datatype SignupResult = Errors(errors: SignupErrors) | Created(success: string)

  predicate UsernameInvalid(form: FormData) {
    var username := Field(form, "username");
    !Truthy(username) || |username.value| < 3
  }

  predicate PasswordInvalid(form: FormData) {
    var password := Field(form, "password");
    !Truthy(password) || |password.value| < 6
  }

  /** `password !== confirm`: two missing fields are both null and therefore equal. */
  predicate ConfirmMismatch(form: FormData) {
    Field(form, "password") != Field(form, "confirm")
  }

  predicate AnyRuleFails(form: FormData) {
    UsernameInvalid(form) || EmailInvalid(form) || PasswordInvalid(form) || ConfirmMismatch(form)
  }

  /** `Some(message)` when the rule fails, `None` when it holds. */
  function MessageIf(fails: bool, message: string): Option<string> {
    if fails then Some(message) else None
  }

  /**
   * `validateSignup(prevState, formData)`: each rule is checked on its own and adds its field's
   * message to `errors`; the errors are returned when there is at least one.
   */
  method ValidateSignup(form: FormData) returns (r: SignupResult)
    ensures r.Errors? <==> AnyRuleFails(form)
    ensures r.Errors? ==> r.errors.username == MessageIf(UsernameInvalid(form), "Username must be at least 3 characters")
    ensures r.Errors? ==> r.errors.email == MessageIf(EmailInvalid(form), "Invalid email address")
    ensures r.Errors? ==> r.errors.password == MessageIf(PasswordInvalid(form), "Password must be at least 6 characters")
    ensures r.Errors? ==> r.errors.confirm == MessageIf(ConfirmMismatch(form), "Passwords do not match")
    ensures r.Created? ==> r.success == "Account created for " + form["username"] + "!"
  {
    var errors := SignupErrors(None, None, None, None);
    if UsernameInvalid(form) {
      errors := errors.(username := Some("Username must be at least 3 characters"));
    }
    if EmailInvalid(form) {
      errors := errors.(email := Some("Invalid email address"));
    }
    if PasswordInvalid(form) {
      errors := errors.(password := Some("Password must be at least 6 characters"));
    }
    if ConfirmMismatch(form) {
      errors := errors.(confirm := Some("Passwords do not match"));
    }
    if errors.KeyCount() > 0 {
      r := Errors(errors);
    } else {
      r := Created("Account created for " + form["username"] + "!");
    }
  }

  /** A created account has a username of at least three characters and a password confirmed twice. */
  lemma CreatedMeansAllRulesHold(form: FormData)
    requires !AnyRuleFails(form)
    ensures |form["username"]| >= 3 && |form["password"]| >= 6
    ensures "confirm" in form && form["confirm"] == form["password"]
    ensures Includes(form["email"], "@")
  {
  }

  /** The post returned by the simulated server; `id` is `Date.now()` at the time of the call. */
  datatype Post = Post(id: int, title: string, content: string)

  datatype ServerResponse =
    | ServerError(message: string)
    | ServerSuccess(message: string, data: Post)

  /**
   * `submitToServer(prevState, formData)`: a title mentioning "spam" in any letter case is
   * refused, then content shorter than ten characters; otherwise the post is published.
   * A missing field is `null` and reading a property of it throws a TypeError.
   */
  function SubmitToServer(form: FormData, now: int): (r: Result<ServerResponse, string>)
    ensures "title" !in form ==> r == Throws("TypeError")
    ensures "title" in form && !Includes(Lower(form["title"]), "spam") && "content" !in form ==> r == Throws("TypeError")
    ensures r.Ok? ==> "title" in form
    ensures r == Ok(ServerError("Your post was flagged as spam. Please revise.")) <==>
      "title" in form && Includes(Lower(form["title"]), "spam")
    ensures r == Ok(ServerError("Content must be at least 10 characters")) <==>
      "title" in form && !Includes(Lower(form["title"]), "spam") && "content" in form && |form["content"]| < 10
    ensures r.Ok? && r.value.ServerSuccess? <==>
      "title" in form && !Includes(Lower(form["title"]), "spam") && "content" in form && |form["content"]| >= 10
    ensures r.Ok? && r.value.ServerSuccess? ==>
      r.value == ServerSuccess("Post published successfully!", Post(now, form["title"], form["content"]))
  {
    match Field(form, "title")
    case None => Throws("TypeError")
    case Some(title) =>
      if Includes(Lower(title), "spam") then Ok(ServerError("Your post was flagged as spam. Please revise."))
      else match Field(form, "content")
        case None => Throws("TypeError")
        case Some(content) =>
          if |content| < 10 then Ok(ServerError("Content must be at least 10 characters"))
          else Ok(ServerSuccess("Post published successfully!", Post(now, title, content)))
  }

  /** Any spelling of "spam" in any letter case, anywhere in the title, gets the post refused. */
  lemma SpamInAnyCase(form: FormData, before: string, word: string, after: string, now: int)
    requires Lower(word) == "spam"
    requires "title" in form && form["title"] == before + word + after
    ensures SubmitToServer(form, now) == Ok(ServerError("Your post was flagged as spam. Please revise."))
  {
    LowerAppend(before + word, after);
    LowerAppend(before, word);
    IncludesInfix(Lower(before), "spam", Lower(after));
  }

  /**
   * The wizard state: the step shown (1, 2 or 3), the fields collected so far and the error of
   * the last submission.
   */
  datatype StepState = StepState(step: int, data: JsObject.Entries<string>, error: Option<string>)

  /** The state `useFormState` starts the wizard in. */
  const InitialStep := StepState(1, [], None)

  /** `prevState?.step || 1`: a missing state and the falsy step 0 both mean step 1. */
  function CurrentStep(prev: Option<StepState>): int {
    if prev.Some? && prev.value.step != 0 then prev.value.step else 1
  }

  /** `{ ...prevState?.data }`: spreading a missing state gives `{}`. */
  function CurrentData(prev: Option<StepState>): JsObject.Entries<string> {
    if prev.Some? then prev.value.data else []
  }

  /**
   * One page of the wizard at step `step`: fields `first` and `second` are required; when both
   * are filled in they are merged into the data and the wizard moves to `step + 1`, otherwise it
   * stays with "Please fill all fields" and the data unchanged.
   */
  function SubmitPage(step: int, data: JsObject.Entries<string>, form: FormData, first: string, second: string): (r: StepState)
    requires first != second
    ensures !Truthy(Field(form, first)) || !Truthy(Field(form, second)) ==>
      r == StepState(step, data, Some("Please fill all fields"))
    ensures Truthy(Field(form, first)) && Truthy(Field(form, second)) ==>
      r.step == step + 1 && r.error.None? &&
      JsObject.Get(r.data, first) == Some(form[first]) && JsObject.Get(r.data, second) == Some(form[second])
    ensures forall k :: k != first && k != second ==> JsObject.Get(r.data, k) == JsObject.Get(data, k)
    ensures JsObject.Valid(data) ==> JsObject.Valid(r.data)
  {
    var a := Field(form, first);
    var b := Field(form, second);
    if !Truthy(a) || !Truthy(b) then StepState(step, data, Some("Please fill all fields"))
    else
      JsObject.SetPair(data, first, a.value, second, b.value);
      StepState(step + 1, JsObject.Set(JsObject.Set(data, first, a.value), second, b.value), None)
  }

  /**
   * `handleMultiStep(prevState, formData)`: step 1 asks for the name and email, step 2 for the
   * address and city; any other step is returned unchanged.
   */
  function HandleMultiStep(prev: Option<StepState>, form: FormData): (r: StepState)
    ensures CurrentStep(prev) == 1 ==> r == SubmitPage(1, CurrentData(prev), form, "name", "email")
    ensures CurrentStep(prev) == 2 ==> r == SubmitPage(2, CurrentData(prev), form, "address", "city")
    ensures CurrentStep(prev) != 1 && CurrentStep(prev) != 2 ==> prev.Some? && r == prev.value
  {
    var currentStep := CurrentStep(prev);
    var data := CurrentData(prev);
    if currentStep == 1 then SubmitPage(1, data, form, "name", "email")
    else if currentStep == 2 then SubmitPage(2, data, form, "address", "city")
    else prev.value
  }

  /** `null` behaves exactly like the initial state. */
  lemma NullIsInitial(form: FormData)
    ensures HandleMultiStep(None, form) == HandleMultiStep(Some(InitialStep), form)
  {
  }

  /** A state of the wizard as the form can reach it: a step between 1 and 3 over valid data. */
  predicate WellFormed(s: StepState) {
    1 <= s.step <= 3 && JsObject.Valid(s.data)
  }

  /** A submission keeps the wizard well formed and moves it forward by at most one step. */
  lemma StepAdvancesByAtMostOne(s: StepState, form: FormData)
    requires WellFormed(s)
    ensures WellFormed(HandleMultiStep(Some(s), form))
    ensures s.step <= HandleMultiStep(Some(s), form).step <= s.step + 1
    ensures s.step == 3 ==> HandleMultiStep(Some(s), form) == s
  {
  }

  /** Completing the address step keeps the name and email collected at step 1. */
  lemma CompletionKeepsPersonalData(s: StepState, form: FormData)
    requires s.step == 2
    ensures JsObject.Get(HandleMultiStep(Some(s), form).data, "name") == JsObject.Get(s.data, "name")
    ensures JsObject.Get(HandleMultiStep(Some(s), form).data, "email") == JsObject.Get(s.data, "email")
  {
    var r := SubmitPage(2, s.data, form, "address", "city");
    assert HandleMultiStep(Some(s), form) == r;
    assert "name" != "address" && "name" != "city";
    assert "email" != "address" && "email" != "city";
  }
}
