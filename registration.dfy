/** The registration form and its submit handler `validateForm` (script.js lines 61-127). */
module Registration {
  import opened Text
  import opened EmailPattern

  const NAME_REQUIRED := "Name is required."
  const EMAIL_REQUIRED := "Email is required."
  const EMAIL_INVALID := "Please enter a valid email address."
  const PASSWORD_TOO_SHORT := "Password must be at least 6 characters long."
  const PASSWORDS_DIFFER := "Passwords do not match."
  const REGISTERED := "Registration successful!"
  const MIN_PASSWORD_LENGTH := 6

  /** The values of the four input fields. */
  datatype Inputs = Inputs(name: string, email: string, password: string, confirmPassword: string)

  /** The text of the four error slots and of the success slot. */
  datatype Messages = Messages(
    nameError: string,
    emailError: string,
    passwordError: string,
    confirmPasswordError: string,
    successFeedback: string)

  /** What the page shows: the inputs and the message slots. */
  datatype Form = Form(inputs: Inputs, messages: Messages)

  /** What `form.reset()` restores, taking every field's default value to be "". */
  const RESET_INPUTS := Inputs("", "", "", "")

  /** The messages a submission of an all-empty form produces. */
  const EMPTY_SUBMISSION := Messages(NAME_REQUIRED, EMAIL_REQUIRED, PASSWORD_TOO_SHORT, "", "")

  /** The four rules, stated on the reference definitions: a name that is not all
      whitespace, an email matching the pattern, a password of at least six
      characters counted untrimmed, and a confirmation equal to the password. */
  ghost predicate AcceptsAll(inp: Inputs) {
    !AllSpace(inp.name)
    && MatchesPattern(inp.email)
    && |inp.password| >= MIN_PASSWORD_LENGTH
    && inp.confirmPassword == inp.password
  }

  /** `isFormValid` after the four checks: no error slot holds a message. */
  predicate IsFormValid(m: Messages) {
    m.nameError == "" && m.emailError == "" && m.passwordError == "" && m.confirmPasswordError == ""
  }

  /** The error slots after the four independent checks, starting from cleared slots.
      The email slot gets at most one of its two messages; the password and the
      confirmation are compared raw, whether or not the password passed. */
  function FieldErrors(inp: Inputs): (m: Messages)
    ensures m.nameError == (if AllSpace(inp.name) then NAME_REQUIRED else "")
    ensures m.emailError ==
      (if AllSpace(inp.email) then EMAIL_REQUIRED
       else if !MatchesPattern(inp.email) then EMAIL_INVALID
       else "")
    ensures m.passwordError == (if |inp.password| < MIN_PASSWORD_LENGTH then PASSWORD_TOO_SHORT else "")
    ensures m.confirmPasswordError == (if inp.confirmPassword != inp.password then PASSWORDS_DIFFER else "")
    ensures m.successFeedback == ""
  {
    TrimEmptyIffAllSpace(inp.name);
    TrimEmptyIffAllSpace(inp.email);
    TestEmailIffPattern(inp.email);
    Messages(
      if Trim(inp.name) == "" then NAME_REQUIRED else "",
      if Trim(inp.email) == "" then EMAIL_REQUIRED
      else if !TestEmail(inp.email) then EMAIL_INVALID
      else "",
      if |inp.password| < MIN_PASSWORD_LENGTH then PASSWORD_TOO_SHORT else "",
      if inp.confirmPassword != inp.password then PASSWORDS_DIFFER else "",
      "")
  }

  /** The form is valid exactly when all four rules accept the inputs. */
  lemma ValidIffAcceptsAll(inp: Inputs)
    ensures IsFormValid(FieldErrors(inp)) <==> AcceptsAll(inp)
  {
  }

  /** The page after one submission, whatever messages it showed before: the error
      slots of FieldErrors; on success the success message and reset inputs, on
      failure an empty success slot and the inputs as they were. */
  function Submitted(inp: Inputs): (f: Form)
    ensures f.messages.nameError == FieldErrors(inp).nameError
    ensures f.messages.emailError == FieldErrors(inp).emailError
    ensures f.messages.passwordError == FieldErrors(inp).passwordError
    ensures f.messages.confirmPasswordError == FieldErrors(inp).confirmPasswordError
    ensures IsFormValid(f.messages) <==> AcceptsAll(inp)
    ensures f.messages.successFeedback == (if AcceptsAll(inp) then REGISTERED else "")
    ensures f.inputs == (if AcceptsAll(inp) then RESET_INPUTS else inp)
  {
    ValidIffAcceptsAll(inp);
    var m := FieldErrors(inp);
    if IsFormValid(m) then Form(RESET_INPUTS, m.(successFeedback := REGISTERED))
    else Form(inp, m)
  }

  /** Every check runs on every pass: a blank name, a blank email, a short password
      and a mismatched confirmation give all four messages in one pass. */
  lemma AllErrorsAtOnce(inp: Inputs)
    requires AllSpace(inp.name) && AllSpace(inp.email)
    requires |inp.password| < MIN_PASSWORD_LENGTH && inp.confirmPassword != inp.password
    ensures Submitted(inp) ==
      Form(inp, Messages(NAME_REQUIRED, EMAIL_REQUIRED, PASSWORD_TOO_SHORT, PASSWORDS_DIFFER, ""))
  {
  }

  /** Submitting again after a successful pass sees the reset, empty form and gives
      the same required-field errors as a first empty submission: nothing of the
      earlier pass leaks into the next. */
  lemma ResubmitAfterSuccess(inp: Inputs)
    requires AcceptsAll(inp)
    ensures Submitted(Submitted(inp).inputs) == Submitted(RESET_INPUTS)
    ensures Submitted(RESET_INPUTS) == Form(RESET_INPUTS, EMPTY_SUBMISSION)
  {
  }

  /** A non-blank email with whitespace anywhere in it (leading and trailing spaces
      are not trimmed before the pattern test) or with a second '@' is rejected
      as invalid. */
  lemma MalformedEmailRejected(inp: Inputs)
    requires !AllSpace(inp.email)
    requires (exists k :: 0 <= k < |inp.email| && IsSpace(inp.email[k])) || multiset(inp.email)['@'] >= 2
    ensures FieldErrors(inp).emailError == EMAIL_INVALID
  {
    if MatchesPattern(inp.email) {
      MatchShape(inp.email);
    }
  }

  /** "abc" is not blank and has no '@', so it is an invalid address. */
  lemma NoAtRejected(inp: Inputs)
    requires inp.email == "abc"
    ensures FieldErrors(inp).emailError == EMAIL_INVALID
  {
  }

  /** The form on the page: four input fields, five message slots and whether the
      browser's own submission was suppressed. */
  class RegistrationForm {
    var name: string
    var email: string
    var password: string
    var confirmPassword: string
    var nameError: string
    var emailError: string
    var passwordError: string
    var confirmPasswordError: string
    var successFeedback: string
    /** `event.preventDefault()` was called on the last submit event. */
    var defaultPrevented: bool

    function Fields(): Inputs
      reads this
    {
      Inputs(name, email, password, confirmPassword)
    }

    function Shown(): Messages
      reads this
    {
      Messages(nameError, emailError, passwordError, confirmPasswordError, successFeedback)
    }

    function View(): Form
      reads this
    {
      Form(Fields(), Shown())
    }

    /** A form filled in with the given values and no messages showing. */
    constructor (name: string, email: string, password: string, confirmPassword: string)
      ensures Fields() == Inputs(name, email, password, confirmPassword)
      ensures Shown() == Messages("", "", "", "", "")
      ensures !defaultPrevented
    {
      this.name, this.email, this.password, this.confirmPassword := name, email, password, confirmPassword;
      nameError, emailError, passwordError, confirmPasswordError, successFeedback := "", "", "", "", "";
      defaultPrevented := false;
    }

    /** `form.reset()`: the inputs return to their (empty) defaults; the messages stay. */
    method Reset()
      modifies this
      ensures Fields() == RESET_INPUTS
      ensures Shown() == old(Shown()) && defaultPrevented == old(defaultPrevented)
    {
      name, email, password, confirmPassword := "", "", "", "";
    }

    /** The submit handler. The new page depends on the old inputs only, so no message
        of an earlier pass survives; the native submission is always suppressed. */
    method ValidateForm()
      modifies this
      ensures View() == Submitted(old(Fields()))
      ensures IsFormValid(Shown()) <==> successFeedback == REGISTERED
      ensures Fields() == (if IsFormValid(Shown()) then RESET_INPUTS else old(Fields()))
      ensures defaultPrevented
    {
      ghost var expected := FieldErrors(Fields());
      defaultPrevented := true;

      nameError := "";
      emailError := "";
      passwordError := "";
      confirmPasswordError := "";
      successFeedback := "";

      var isFormValid := true;

      if Trim(name) == "" {
        nameError := NAME_REQUIRED;
        isFormValid := false;
      }

      if Trim(email) == "" {
        emailError := EMAIL_REQUIRED;
        isFormValid := false;
      } else if !TestEmail(email) {
        emailError := EMAIL_INVALID;
        isFormValid := false;
      }

      if |password| < MIN_PASSWORD_LENGTH {
        passwordError := PASSWORD_TOO_SHORT;
        isFormValid := false;
      }

      if confirmPassword != password {
        confirmPasswordError := PASSWORDS_DIFFER;
        isFormValid := false;
      }

      assert Shown() == expected;
      if isFormValid {
        successFeedback := REGISTERED;
        Reset();
      }
    }
  }
}
