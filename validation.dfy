/**
 * The contact form's data and its validator: the six field values, the
 * `Errors` record of six optional messages, and `validateForm`, which
 * maps the values to the messages of the fields that fail their rule.
 */
module Validation {
  import opened Text

  datatype Option<T> = None | Some(value: T)

  /** The four error messages the validator produces. */
  datatype ErrorMessage = Required | InvalidEmail | SelectQueryType | ConsentRequired

  /** The text shown for each message. */
  function MessageText(m: ErrorMessage): (s: string)
    ensures s != ""
  {
    match m
    case Required => "This field is required"
    case InvalidEmail => "Please enter a valid email address"
    case SelectQueryType => "Please select a query type"
    case ConsentRequired => "To submit this form, please consent to being contacted"
  }

  /** The six values the form holds. `queryType` is the value of the
      selected radio button, "" while none is selected. */
  datatype FormValues = FormValues(
    firstName: string,
    lastName: string,
    email: string,
    queryType: string,
    message: string,
    consent: bool)

  /** The values on mount and after a successful submission. */
  const Defaults := FormValues("", "", "", "", "", false)

  /** The six properties of `Errors`. */
  datatype Key = FirstName | LastName | Email | QueryType | Message | Consent

  const AllKeys: set<Key> := {FirstName, LastName, Email, QueryType, Message, Consent}

  /** The property's name in the source record. */
  function PropertyName(k: Key): string {
    match k
    case FirstName => "firstName"
    case LastName => "lastName"
    case Email => "email"
    case QueryType => "queryType"
    case Message => "message"
    case Consent => "consent"
  }

  /** `name as keyof Errors`: the property a string names, if it names one. */
  function KeyNamed(name: string): (k: Option<Key>)
    ensures k.Some? ==> PropertyName(k.value) == name
  {
    if name == "firstName" then Some(FirstName)
    else if name == "lastName" then Some(LastName)
    else if name == "email" then Some(Email)
    else if name == "queryType" then Some(QueryType)
    else if name == "message" then Some(Message)
    else if name == "consent" then Some(Consent)
    else None
  }

  /** Naming a property and looking the name up again gives the property
      back, so KeyNamed finds a property for exactly the six names. */
  lemma KeyNamedPropertyName(k: Key)
    ensures KeyNamed(PropertyName(k)) == Some(k)
  {
  }

  /** JavaScript truthiness of an optional message: present and its text
      non-empty, which every message's text is. */
  function Truthy(o: Option<ErrorMessage>): (b: bool)
    ensures b <==> o.Some?
  {
    o.Some? && MessageText(o.value) != ""
  }

  /** The `Errors` record: `None` where the property is absent (or undefined). */
  datatype Errors = Errors(
    firstName: Option<ErrorMessage>,
    lastName: Option<ErrorMessage>,
    email: Option<ErrorMessage>,
    queryType: Option<ErrorMessage>,
    message: Option<ErrorMessage>,
    consent: Option<ErrorMessage>)
  {
    /** `errors.k` for a property `k`. */
    function Get(k: Key): Option<ErrorMessage> {
      match k
      case FirstName => firstName
      case LastName => lastName
      case Email => email
      case QueryType => queryType
      case Message => message
      case Consent => consent
    }

    /** `errors[name as keyof Errors]`: a name that is not one of the six
        property names reads as undefined. */
    function Lookup(name: string): (r: Option<ErrorMessage>)
      ensures KeyNamed(name) == None ==> r == None
      ensures KeyNamed(name).Some? ==> r == Get(KeyNamed(name).value)
    {
      match KeyNamed(name)
      case None => None
      case Some(k) => Get(k)
    }

    /** `{ ...errors, [k]: v }`. */
    function With(k: Key, v: Option<ErrorMessage>): (e: Errors)
      ensures e.Get(k) == v
      ensures forall j :: j != k ==> e.Get(j) == Get(j)
    {
      match k
      case FirstName => this.(firstName := v)
      case LastName => this.(lastName := v)
      case Email => this.(email := v)
      case QueryType => this.(queryType := v)
      case Message => this.(message := v)
      case Consent => this.(consent := v)
    }

    /** `Object.keys(errors)` for a record whose present properties all
        hold a message. */
    function Keys(): (ks: set<Key>)
      ensures forall k :: k in ks <==> Get(k).Some?
    {
      set k | k in AllKeys && Get(k).Some?
    }

    /** Every present message is one the validator can produce for that
        property. */
    ghost predicate WellFormed() {
      && (firstName.Some? ==> firstName.value == Required)
      && (lastName.Some? ==> lastName.value == Required)
      && (email.Some? ==> email.value in {Required, InvalidEmail})
      && (queryType.Some? ==> queryType.value == SelectQueryType)
      && (message.Some? ==> message.value == Required)
      && (consent.Some? ==> consent.value == ConsentRequired)
    }
  }

  /** The empty record `{}`. */
  const NoErrors := Errors(None, None, None, None, None, None)

  /** Changing a well-formed record to hold nothing, or a message the
      validator produced, at one property keeps it well-formed. */
  lemma WithKeepsWellFormed(e: Errors, k: Key, source: Errors)
    requires e.WellFormed() && source.WellFormed()
    ensures e.With(k, None).WellFormed()
    ensures e.With(k, source.Get(k)).WellFormed()
  {
  }

  /** A record has no keys exactly when it is `{}`. */
  lemma NoKeysIsNoErrors(e: Errors)
    ensures e.Keys() == {} <==> e == NoErrors
  {
    if e.Keys() == {} {
      assert FirstName !in e.Keys() && LastName !in e.Keys() && Email !in e.Keys();
      assert QueryType !in e.Keys() && Message !in e.Keys() && Consent !in e.Keys();
    }
  }

  /** `validateForm`: the message of every field that fails its rule and
      nothing for the fields that pass. */
  function ValidateForm(v: FormValues): (e: Errors)
    ensures e.WellFormed()
    ensures e.firstName == (if IsBlank(v.firstName) then Some(Required) else None)
    ensures e.lastName == (if IsBlank(v.lastName) then Some(Required) else None)
    ensures e.email == (if IsBlank(v.email) then Some(Required)
                        else if !EmailTest(v.email) then Some(InvalidEmail)
                        else None)
    ensures e.queryType == (if v.queryType == "" then Some(SelectQueryType) else None)
    ensures e.message == (if IsBlank(v.message) then Some(Required) else None)
    ensures e.consent == (if !v.consent then Some(ConsentRequired) else None)
  {
    Errors(
      if Trim(v.firstName) == "" then Some(Required) else None,
      if Trim(v.lastName) == "" then Some(Required) else None,
      if Trim(v.email) == "" then Some(Required)
      else if !EmailTest(v.email) then Some(InvalidEmail)
      else None,
      if v.queryType == "" then Some(SelectQueryType) else None,
      if Trim(v.message) == "" then Some(Required) else None,
      if !v.consent then Some(ConsentRequired) else None)
  }

  /** The values pass every rule. */
  ghost predicate Acceptable(v: FormValues) {
    && !IsBlank(v.firstName)
    && !IsBlank(v.lastName)
    && ContainsEmailShape(v.email)
    && v.queryType != ""
    && !IsBlank(v.message)
    && v.consent
  }

  /** The validator finds nothing exactly when every rule passes. */
  lemma ValidateFormEmptyIffAcceptable(v: FormValues)
    ensures ValidateForm(v).Keys() == {} <==> Acceptable(v)
    ensures ValidateForm(v).Keys() == {} <==> ValidateForm(v) == NoErrors
  {
    EmailTestMatchesPattern(v.email);
    NoKeysIsNoErrors(ValidateForm(v));
  }

  /** The e-mail entry in the terms of the pattern itself: required when
      blank, invalid when no substring matches `\S+@\S+\.\S+`, absent
      otherwise. */
  lemma ValidateFormEmailRule(v: FormValues)
    ensures ValidateForm(v).email ==
      if IsBlank(v.email) then Some(Required)
      else if !ContainsEmailShape(v.email) then Some(InvalidEmail)
      else None
  {
    EmailTestMatchesPattern(v.email);
  }

  /** An untouched form fails all six rules: six keys, each with its message. */
  lemma ValidateFormDefaults()
    ensures ValidateForm(Defaults) ==
      Errors(Some(Required), Some(Required), Some(Required),
             Some(SelectQueryType), Some(Required), Some(ConsentRequired))
    ensures ValidateForm(Defaults).Keys() == AllKeys
    ensures |ValidateForm(Defaults).Keys()| == 6
  {
    var e := ValidateForm(Defaults);
    assert IsBlank(Defaults.firstName);
    assert e == Errors(Some(Required), Some(Required), Some(Required),
                       Some(SelectQueryType), Some(Required), Some(ConsentRequired));
    AllPresentKeys(e);
  }

  /** A record with all six properties present has all six keys. */
  lemma AllPresentKeys(e: Errors)
    requires e.firstName.Some? && e.lastName.Some? && e.email.Some?
    requires e.queryType.Some? && e.message.Some? && e.consent.Some?
    ensures e.Keys() == AllKeys
    ensures |e.Keys()| == 6
  {
    forall k | k in AllKeys
      ensures k in e.Keys()
    {
      assert e.Get(k).Some?;
    }
  }

  /** The e-mail rule on the three kinds of value it tells apart. */
  lemma ValidateFormEmailExamples(v: FormValues)
    ensures ValidateForm(v.(email := "")).email == Some(Required)
    ensures ValidateForm(v.(email := " \t")).email == Some(Required)
    ensures ValidateForm(v.(email := "abc")).email == Some(InvalidEmail)
    ensures ValidateForm(v.(email := "a@b.c")).email == None
    ensures ValidateForm(v.(email := " x a@b.c ")).email == None
  {
    EmailTestExamples();
    EmailTestMatchesPattern("abc");
    EmailTestMatchesPattern("a@b.c");
    EmailTestMatchesPattern(" x a@b.c ");
    assert !IsBlank("abc") by { assert !IsWhitespace("abc"[0]); }
    assert !IsBlank("a@b.c") by { assert !IsWhitespace("a@b.c"[0]); }
    assert !IsBlank(" x a@b.c ") by { assert !IsWhitespace(" x a@b.c "[1]); }
  }
}
