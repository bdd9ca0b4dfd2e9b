/**
 * The `App` component's state and its event handlers. Each handler is one
 * atomic transition on the state as it stood before the event; the state
 * setters the component calls within one handler are applied together.
 */
module ContactForm {
  import opened Text
  import opened Validation

  /** What a change handler reads from `event.target`: the input's DOM
      `name`, its `value`, its `type` and, for a checkbox, `checked`. */
  datatype ChangeTarget = ChangeTarget(name: string, value: string, inputType: string, checked: bool)

  /** The change comes from the query-type radio group. */
  predicate IsRadioChange(t: ChangeTarget) {
    t.inputType != "checkbox" && t.name == "query-type"
  }

  /** The change comes from a text input or the textarea. */
  predicate IsTextChange(t: ChangeTarget) {
    t.inputType != "checkbox" && t.name != "query-type"
  }

  /** The `Errors` property a change event may clear: `consent` for the
      checkbox, `queryType` for the radio group and, for a text input, the
      property its DOM name indexes. "first-name" and "last-name" index no
      property at all, while "email" and "message" are property names. */
  function ChangedKey(t: ChangeTarget): (k: Option<Key>)
    ensures t.inputType == "checkbox" ==> k == Some(Consent)
    ensures IsRadioChange(t) ==> k == Some(QueryType)
    ensures IsTextChange(t) ==> k == KeyNamed(t.name)
    ensures IsTextChange(t) && t.name == "email" ==> k == Some(Email)
    ensures IsTextChange(t) && t.name == "message" ==> k == Some(Message)
    ensures IsTextChange(t) && (t.name == "first-name" || t.name == "last-name") ==> k == None
  {
    if t.inputType == "checkbox" then Some(Consent)
    else if t.name == "query-type" then Some(QueryType)
    else KeyNamed(t.name)
  }

  /** The change makes the field look filled in: the box is checked, a
      radio value is chosen, or the text is not all whitespace. */
  ghost predicate LooksFilled(t: ChangeTarget) {
    if t.inputType == "checkbox" then t.checked
    else if t.name == "query-type" then t.value != ""
    else !IsBlank(t.value)
  }

  class App {
    var firstName: string
    var lastName: string
    var email: string
    var queryType: string
    var message: string
    var consent: bool
    var errors: Errors
    var showSuccessToast: bool

    /** Every recorded error is a message the validator produces. */
    ghost predicate Valid()
      reads this
    {
      errors.WellFormed()
    }

    /** The six values as `validateForm` and the submit log see them. */
    function Values(): (v: FormValues)
      reads this
      ensures v.firstName == firstName && v.lastName == lastName && v.email == email
      ensures v.queryType == queryType && v.message == message && v.consent == consent
    {
      FormValues(firstName, lastName, email, queryType, message, consent)
    }

    /** The component on mount: all fields empty, no errors, no toast. */
    constructor ()
      ensures Valid()
      ensures Values() == Defaults && errors == NoErrors && !showSuccessToast
    {
      firstName, lastName, email, queryType, message, consent := "", "", "", "", "", false;
      errors := NoErrors;
      showSuccessToast := false;
    }

    /** `handleSubmit`: the errors become exactly what the validator finds.
        When it finds nothing, the pre-reset values are logged and returned,
        every field is reset and the success toast is shown; otherwise the
        values stay and the toast is hidden. */
    method HandleSubmit() returns (logged: Option<FormValues>)
      requires Valid()
      modifies this
      ensures Valid()
      ensures errors == ValidateForm(old(Values()))
      ensures ValidateForm(old(Values())).Keys() == {} ==>
        && logged == Some(old(Values()))
        && Values() == Defaults
        && errors == NoErrors
        && showSuccessToast
      ensures ValidateForm(old(Values())).Keys() != {} ==>
        && logged == None
        && Values() == old(Values())
        && !showSuccessToast
    {
      var validationErrors := ValidateForm(Values());
      errors := validationErrors;
      showSuccessToast := false;
      if |validationErrors.Keys()| == 0 {
        logged := Some(Values());
        firstName, lastName, email, queryType, message, consent := "", "", "", "", "", false;
        NoKeysIsNoErrors(validationErrors);
        errors := NoErrors;
        showSuccessToast := true;
      } else {
        logged := None;
      }
    }

    /** The 5000 ms timer that a successful submission schedules fires. */
    method TimerFired()
      modifies this`showSuccessToast
      ensures !showSuccessToast
    {
      showSuccessToast := false;
    }

    /** `handleChange`: store the raw new value in the field the event
        names, leaving the other five alone, and clear that field's error
        when the new value looks filled in and an error was recorded. No
        other error is touched, and the value is not re-validated. */
    method HandleChange(target: ChangeTarget)
      requires Valid()
      modifies this
      ensures Valid()
      ensures showSuccessToast == old(showSuccessToast)
      ensures consent == (if target.inputType == "checkbox" then target.checked else old(consent))
      ensures queryType == (if IsRadioChange(target) then target.value else old(queryType))
      ensures firstName == (if IsTextChange(target) && target.name == "first-name" then target.value else old(firstName))
      ensures lastName == (if IsTextChange(target) && target.name == "last-name" then target.value else old(lastName))
      ensures email == (if IsTextChange(target) && target.name == "email" then target.value else old(email))
      ensures message == (if IsTextChange(target) && target.name == "message" then target.value else old(message))
      ensures ChangedKey(target).Some? ==>
        errors.Get(ChangedKey(target).value) ==
          if LooksFilled(target) then None else old(errors).Get(ChangedKey(target).value)
      ensures forall k :: Some(k) != ChangedKey(target) ==> errors.Get(k) == old(errors).Get(k)
      ensures ChangedKey(target) == None ==> errors == old(errors)
    {
      var clear: bool;
      if target.inputType == "checkbox" {
        consent := target.checked;
        clear := target.checked && Truthy(errors.consent);
      } else if target.name == "query-type" {
        queryType := target.value;
        clear := target.value != "" && Truthy(errors.queryType);
      } else {
        if target.name == "first-name" {
          firstName := target.value;
        } else if target.name == "last-name" {
          lastName := target.value;
        } else if target.name == "email" {
          email := target.value;
        } else if target.name == "message" {
          message := target.value;
        }
        clear := Trim(target.value) != "" && Truthy(errors.Lookup(target.name));
      }
      var key := ChangedKey(target);
      if clear {
        WithKeepsWellFormed(errors, key.value, NoErrors);
        errors := errors.With(key.value, None);
      }
    }

    /** `handleBlur`: re-validate the current values; when the validator
        has a message for the property the input's name indexes, record it
        there, and otherwise leave the errors as they are. */
    method HandleBlur(name: string)
      requires Valid()
      modifies this`errors
      ensures Valid()
      ensures Values() == old(Values()) && showSuccessToast == old(showSuccessToast)
      ensures KeyNamed(name).Some? ==>
        var k := KeyNamed(name).value;
        errors.Get(k) ==
          if ValidateForm(Values()).Get(k).Some? then ValidateForm(Values()).Get(k)
          else old(errors).Get(k)
      ensures forall k :: Some(k) != KeyNamed(name) ==> errors.Get(k) == old(errors).Get(k)
      ensures forall k :: old(errors).Get(k).Some? ==> errors.Get(k).Some?
      ensures KeyNamed(name) == None ==> errors == old(errors)
    {
      var validationErrors := ValidateForm(Values());
      if Truthy(validationErrors.Lookup(name)) {
        var k := KeyNamed(name).value;
        WithKeepsWellFormed(errors, k, validationErrors);
        errors := errors.With(k, validationErrors.Get(k));
      }
    }
  }

  /** Submitting an untouched form records all six errors, logs nothing and
      shows no toast. */
  method SubmitUntouchedForm() returns (errorCount: nat, logged: Option<FormValues>, toast: bool)
    ensures errorCount == 6 && logged == None && !toast
  {
    var app := new App();
    ValidateFormDefaults();
    logged := app.HandleSubmit();
    errorCount := |app.errors.Keys()|;
    toast := app.showSuccessToast;
  }

  const CompletedForm := FormValues("Ada", "Lovelace", "ada@example.com", "General Enquiry", "Hello", true)

  /** Filling in every field and submitting logs the filled-in values,
      resets the form and shows the toast, which the timer then hides. */
  method SubmitCompletedForm()
    returns (logged: Option<FormValues>, after: FormValues, toast: bool, toastAfterTimer: bool)
    ensures logged == Some(CompletedForm)
    ensures after == Defaults && toast && !toastAfterTimer
  {
    var app := new App();
    app.HandleChange(ChangeTarget("first-name", "Ada", "text", false));
    app.HandleChange(ChangeTarget("last-name", "Lovelace", "text", false));
    app.HandleChange(ChangeTarget("email", "ada@example.com", "email", false));
    app.HandleChange(ChangeTarget("query-type", "General Enquiry", "radio", false));
    app.HandleChange(ChangeTarget("message", "Hello", "textarea", false));
    app.HandleChange(ChangeTarget("consent", "on", "checkbox", true));
    assert app.Values() == CompletedForm;
    CompletedFormPasses();
    logged := app.HandleSubmit();
    after := app.Values();
    toast := app.showSuccessToast;
    app.TimerFired();
    toastAfterTimer := app.showSuccessToast;
  }

  /** The completed form passes every rule. */
  lemma CompletedFormPasses()
    ensures ValidateForm(CompletedForm) == NoErrors
    ensures ValidateForm(CompletedForm).Keys() == {}
  {
    var v := CompletedForm;
    assert !IsBlank(v.firstName) by { assert !IsWhitespace(v.firstName[0]); }
    assert !IsBlank(v.lastName) by { assert !IsWhitespace(v.lastName[0]); }
    assert !IsBlank(v.email) by { assert !IsWhitespace(v.email[0]); }
    assert !IsBlank(v.message) by { assert !IsWhitespace(v.message[0]); }
    CompletedEmailPasses();
    NoKeysIsNoErrors(ValidateForm(v));
  }

  /** "ada@example.com" passes the e-mail test. */
  lemma CompletedEmailPasses()
    ensures EmailTest(CompletedForm.email)
  {
    var s := CompletedForm.email;
    var around := s[2..13];
    assert around == "a@example.c";
    forall i | 0 <= i < |around|
      ensures !IsWhitespace(around[i])
    {
      assert '!' <= around[i] <= '~';
    }
    assert EmailMarksAt(s, 3, 11);
  }

  /** Leaving the e-mail field empty and blurring it records the required
      error; typing "x" then clears it, although "x" is no valid address. */
  method BlurEmptyEmailThenType() returns (afterBlur: Option<ErrorMessage>, afterTyping: Option<ErrorMessage>)
    ensures afterBlur == Some(Required)
    ensures afterTyping == None
  {
    var app := new App();
    app.HandleBlur("email");
    afterBlur := app.errors.email;
    app.HandleChange(ChangeTarget("email", "x", "email", false));
    assert !IsBlank("x") by { assert !IsWhitespace("x"[0]); }
    afterTyping := app.errors.email;
  }

  /** After a failed submission, typing a first name stores it but leaves
      the first-name error in place, and blurring the field changes nothing:
      the input's name "first-name" is not a property of `Errors`. */
  method TypeFirstNameAfterFailedSubmit() returns (stored: string, afterTyping: Option<ErrorMessage>)
    ensures stored == "Ada"
    ensures afterTyping == Some(Required)
  {
    var app := new App();
    ValidateFormDefaults();
    var _ := app.HandleSubmit();
    app.HandleChange(ChangeTarget("first-name", "Ada", "text", false));
    app.HandleBlur("first-name");
    stored := app.firstName;
    afterTyping := app.errors.firstName;
  }
}
