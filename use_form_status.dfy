/**
 * The useFormStatus demo: every button and input reads the `pending` flag of its form, and each
 * form action turns the submitted fields into one result message. The artificial `delay` is
 * not modelled.
 */
module UseFormStatus {
  import opened Wrappers
  import opened JsString
  import opened FormFields

  /** What a submit button shows: its text and its `disabled` attribute. */
  datatype Button = Button(text: string, disabled: bool)

  /** A button whose text is `busy` while the form is pending and `idle` otherwise. */
  function StatusButton(pending: bool, busy: string, idle: string): (b: Button)
    requires busy != idle
    ensures b.disabled <==> pending
    ensures b.text == busy <==> pending
    ensures !pending ==> b.text == idle
  {
    Button(if pending then busy else idle, pending)
  }

  /** `SubmitButton` of the basic form. */
  function SubmitButton(pending: bool): (b: Button)
    ensures b.disabled <==> pending
    ensures b.text == "Submitting..." <==> pending
    ensures !pending ==> b.text == "Submit"
  {
    StatusButton(pending, "Submitting...", "Submit")
  }

  /** `SaveButton` of the two-action form. */
  function SaveButton(pending: bool): (b: Button)
    ensures b.disabled <==> pending
    ensures b.text == "Saving..." <==> pending
    ensures !pending ==> b.text == "Save Draft"
  {
    StatusButton(pending, "Saving...", "Save Draft")
  }

  /** `PublishButton` of the two-action form. */
  function PublishButton(pending: bool): (b: Button)
    ensures b.disabled <==> pending
    ensures b.text == "Publishing..." <==> pending
    ensures !pending ==> b.text == "Publish"
  {
    StatusButton(pending, "Publishing...", "Publish")
  }

  /** While the two-action form is pending neither of its buttons can be pressed. */
  lemma BothActionsBlockedWhilePending(pending: bool)
    ensures SaveButton(pending).disabled == PublishButton(pending).disabled == pending
  {
  }

  /** The basic form's `handleSubmit`: the message names both submitted fields. */
  function BasicResult(form: FormData): (r: string)
    ensures Includes(r, Interpolate(Field(form, "name")))
    ensures Includes(r, Interpolate(Field(form, "email")))
  {
    var name := Interpolate(Field(form, "name"));
    var email := Interpolate(Field(form, "email"));
    IncludesInfix("Form submitted! Name: ", name, ", Email: " + email);
    assert "Form submitted! Name: " + name + (", Email: " + email) ==
           "Form submitted! Name: " + name + ", Email: " + email;
    IncludesInfix("Form submitted! Name: " + name + ", Email: ", email, "");
    assert "Form submitted! Name: " + name + ", Email: " + email + "" ==
           "Form submitted! Name: " + name + ", Email: " + email;
    "Form submitted! Name: " + name + ", Email: " + email
  }

  /** `handleAction`: the button pressed is the `action` field; only "publish" publishes. */
  function ActionResult(form: FormData): (r: string)
    ensures Field(form, "action") == Some("publish") ==>
      r == "Published: " + Interpolate(Field(form, "title"))
    ensures Field(form, "action") != Some("publish") ==>
      r == "Saved: " + Interpolate(Field(form, "title"))
  {
    (if Field(form, "action") == Some("publish") then "Published" else "Saved") + ": " +
      Interpolate(Field(form, "title"))
  }

  /** The message starts with "Published" exactly when the publish button was pressed. */
  lemma PublishedIff(form: FormData)
    ensures (|ActionResult(form)| >= 9 && ActionResult(form)[..9] == "Published") <==>
      Field(form, "action") == Some("publish")
  {
    if Field(form, "action") != Some("publish") {
      assert ActionResult(form)[0] == 'S';
    } else {
      assert ActionResult(form)[..9] == "Published";
    }
  }

  /** `ProgressSubmitButton`: the button and, while pending with data, the progress line. */
  function ProgressButton(pending: bool): (b: Button)
    ensures b.disabled <==> pending
    ensures b.text == "Processing..." <==> pending
    ensures !pending ==> b.text == "Submit Form"
  {
    StatusButton(pending, "Processing...", "Submit Form")
  }

  /** `{pending && data && ...}`: the progress text exists only while data is being submitted. */
  function ProgressText(pending: bool, data: Option<FormData>): (r: Option<string>)
    ensures r.Some? <==> pending && data.Some?
    ensures r.Some? ==> r.value == "Submitting " + Rendered(Field(data.value, "name")) + "'s information..."
  {
    if pending && data.Some? then
      Some("Submitting " + Rendered(Field(data.value, "name")) + "'s information...")
    else None
  }

  /** The progress form's `handleSubmit`. */
  function ProgressResult(form: FormData): (r: string)
    ensures "name" in form ==> r == "Successfully registered " + form["name"] + "!"
    ensures "name" !in form ==> r == "Successfully registered null!"
  {
    "Successfully registered " + Interpolate(Field(form, "name")) + "!"
  }

  /** `FormInputs`: the `disabled` flags of the username, password and terms inputs. */
  function InputsDisabled(pending: bool): (r: seq<bool>)
    ensures |r| == 3 && forall i :: 0 <= i < 3 ==> (r[i] <==> pending)
  {
    [pending, pending, pending]
  }

  /** `SignupButton` of the form with disabled inputs. */
  function SignupButton(pending: bool): (b: Button)
    ensures b.disabled <==> pending
    ensures b.text == "Creating Account..." <==> pending
    ensures !pending ==> b.text == "Sign Up"
  {
    StatusButton(pending, "Creating Account...", "Sign Up")
  }

  /** `handleSignup` */
  function SignupResult(form: FormData): (r: string)
    ensures "username" in form ==> r == "Account created for " + form["username"] + "!"
    ensures "username" !in form ==> r == "Account created for null!"
  {
    "Account created for " + Interpolate(Field(form, "username")) + "!"
  }
  /** Two submitted names with the same progress message are the same name. */
  lemma ProgressResultNamesUser(f: FormData, g: FormData)
    requires "name" in f && "name" in g
    requires ProgressResult(f) == ProgressResult(g)
    ensures f["name"] == g["name"]
  {
    var head := "Successfully registered ";
    var r := ProgressResult(f);
    assert f["name"] == r[|head|..|r| - 1];
    assert g["name"] == ProgressResult(g)[|head|..|r| - 1];
  }

  /** Two submitted usernames with the same signup message are the same username. */
  lemma SignupResultNamesUser(f: FormData, g: FormData)
    requires "username" in f && "username" in g
    requires SignupResult(f) == SignupResult(g)
    ensures f["username"] == g["username"]
  {
    var head := "Account created for ";
    var r := SignupResult(f);
    assert f["username"] == r[|head|..|r| - 1];
    assert g["username"] == SignupResult(g)[|head|..|r| - 1];
  }
}
