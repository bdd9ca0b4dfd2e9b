# Contact form: a verified model of its state machine

The contact form is one React component, `App`, in `src/App.tsx`. It holds
six field values, an `Errors` record of optional messages, and a success-toast
flag, and it reacts to three events:

- **submit** runs `validateForm` on the current values and replaces the errors
  with the result. If there are no errors, it logs the values, resets every
  field, shows the toast, and schedules a 5000 ms timer that hides it again.
- **change** stores the new raw value. It clears the field's error when the
  value looks filled in and an error was recorded.
- **blur** re-validates and records the validator's message for the blurred
  field, if the validator has one.

The model has three modules:

- `Text` gives JavaScript's `trim` and the e-mail test `/\S+@\S+\.\S+/.test`.
  Both are stated over the ECMAScript whitespace table. `EmailTest` decides
  the unanchored match by looking for an `@` and a `.`. It is proved equal to
  the pattern's definition: some substring is a non-empty run of
  non-whitespace, `@`, another run, `.`, and a last run.
- `Validation` holds the values, the `Errors` record (one `Option` per field,
  `None` where the property is absent or `undefined`) and `ValidateForm`.
  Property names are a `Key` datatype. `KeyNamed` models the cast
  `name as keyof Errors`: it finds a property only for the six camelCase
  names.
- `ContactForm` is the component as a class whose fields are the state. Each
  handler is one atomic transition, applied to the state as it stood when
  the event arrived.

The handlers index `Errors` with an input's DOM name. Two of those names,
"first-name" and "last-name", are not property names. So typing in either
field never clears its error, and blurring it never records one; only a
submit changes them. "email" and "message" are property names, so those two
fields behave as intended. The model keeps this behaviour as written
(`ChangedKey`, `HandleChange`, `HandleBlur`, `TypeFirstNameAfterFailedSubmit`).
Two more behaviours are kept as written:

- a change clears an error on any non-blank text, without re-validating it
  (`BlurEmptyEmailThenType`);
- a blur only ever records an error, never removes one.

## Model

| member | source | states |
|---|---|---|
| Text.SkipLeading | src/App.tsx:29 | the first index at or after the start that is not whitespace; everything skipped is whitespace |
| Text.SkipTrailing | src/App.tsx:29 | the end of the text without its trailing whitespace, never below the leading cut; everything cut is whitespace |
| Text.Trim | src/App.tsx:29-45 | `trim()` is empty exactly when the text is empty or all whitespace, which is the test `!s.trim()` |
| Text.TrimStripsOnlyOuterWhitespace | src/App.tsx:29-45 | `trim()` removes an all-whitespace prefix and suffix and nothing else; its result neither starts nor ends with whitespace |
| Text.EmailTestMatchesPattern | src/App.tsx:37 | the e-mail test succeeds exactly when some substring matches `\S+@\S+\.\S+` as a whole (both directions) |
| Text.MarksGiveMatch | src/App.tsx:37 | an `@` and a `.` with non-whitespace around and between them delimit a matching substring |
| Text.MatchGivesMarks | src/App.tsx:37 | a matching substring gives the e-mail test its `@` and `.`, so the test succeeds |
| Text.EmailTestExamples | src/App.tsx:37 | "abc", "a@b." and "a @b.c" fail; "a@b.c" and " x a@b.c " pass, because the match is unanchored |
| Validation.MessageText | src/App.tsx:28-49 | each of the four messages has non-empty text, so a recorded message is truthy |
| Validation.KeyNamed | src/App.tsx:117 | a name cast to a key of `Errors` finds a property only when the name is that property's own name |
| Validation.KeyNamedPropertyName | src/App.tsx:8-15 | every one of the six property names finds its own property |
| Validation.Truthy | src/App.tsx:129 | a looked-up message is truthy exactly when it is present |
| Validation.Errors.Lookup | src/App.tsx:129 | `errors[name]` is the named property's entry, and undefined for a name that is not a property |
| Validation.Errors.With | src/App.tsx:130-133 | `{...prev, [k]: v}` sets property `k` to `v` and leaves the other five as they were |
| Validation.Errors.Keys | src/App.tsx:59 | `Object.keys` holds exactly the properties that are present |
| Validation.WithKeepsWellFormed | src/App.tsx:130-133 | clearing a property, or copying the validator's message into it, keeps every recorded message one the validator produces for that field |
| Validation.NoKeysIsNoErrors | src/App.tsx:59 | a record has no keys exactly when it is `{}` |
| Validation.ValidateForm | src/App.tsx:27-51 | each field's entry: required when blank (for the e-mail: otherwise invalid when the test fails), a query type when none is selected, consent when unchecked, and absent when the rule passes |
| Validation.ValidateFormEmptyIffAcceptable | src/App.tsx:27-59 | the validator finds nothing exactly when all six rules pass, and then its result is `{}` |
| Validation.ValidateFormEmailRule | src/App.tsx:35-39 | the e-mail entry in terms of the pattern itself: required when blank, invalid when no substring matches, absent otherwise |
| Validation.ValidateFormDefaults | src/App.tsx:18-51 | the untouched form fails all six rules, with the six messages, so `Object.keys` has six entries |
| Validation.AllPresentKeys | src/App.tsx:59 | a record with all six properties present has all six keys |
| Validation.ValidateFormEmailExamples | src/App.tsx:35-39 | "" and " \t" are required; "abc" is invalid; "a@b.c" and " x a@b.c " pass |
| ContactForm.ChangedKey | src/App.tsx:84-121 | the property a change may clear: consent for the checkbox, query type for the radios, and the property the DOM name names for text ("email", "message"), none for "first-name" and "last-name" |
| ContactForm.App.Values | src/App.tsx:18-23 | the six values the validator and the log read are the six fields |
| ContactForm.App.constructor | src/App.tsx:18-25 | on mount all fields are empty, there are no errors and no toast |
| ContactForm.App.HandleSubmit | src/App.tsx:53-82 | the errors become the validator's result on the old values; with no errors the old values are logged, the fields reset, the errors emptied and the toast shown; otherwise nothing is logged, the values stay and the toast is hidden |
| ContactForm.App.TimerFired | src/App.tsx:78-80 | the timer hides the toast and changes nothing else |
| ContactForm.App.HandleChange | src/App.tsx:84-121 | the raw value goes into the field the event names and only there; the changed property's error is cleared exactly when the value looks filled in; every other error is kept; the toast is untouched |
| ContactForm.App.HandleBlur | src/App.tsx:123-135 | the values and the toast are unchanged; the named property takes the validator's message when there is one and is kept otherwise; no other property changes; no error is ever removed |
| ContactForm.SubmitUntouchedForm | src/App.tsx:53-59 | submitting the untouched form records six errors, logs nothing and shows no toast |
| ContactForm.SubmitCompletedForm | src/App.tsx:53-121 | filling in every field and submitting logs the filled-in values, resets the form and shows the toast, and the timer then hides it |
| ContactForm.CompletedFormPasses | src/App.tsx:27-51 | a completed form passes every rule and the result has no keys |
| ContactForm.CompletedEmailPasses | src/App.tsx:37 | "ada@example.com" passes the e-mail test |
| ContactForm.BlurEmptyEmailThenType | src/App.tsx:84-135 | blurring an empty e-mail records "required"; typing "x" then clears it although "x" is not an address |
| ContactForm.TypeFirstNameAfterFailedSubmit | src/App.tsx:101-135 | after a failed submit, typing a first name stores it, but the first-name error stays, even after a blur |

## Left out

- The markup and styling (`src/App.tsx:137-470`) are not modelled. The
  model assumes what they wire up: which input carries which `name` and
  `type`, and that only the text inputs and the textarea have a blur handler.
- `event.preventDefault()` and React's batching of state updates are not
  modelled. Each handler is one atomic step on the state the event saw,
  which is how the handlers read the state when they run.
- The 5000 ms `setTimeout` is the separate event `TimerFired`. Time, timer
  ordering and cancellation are not modelled. An older timer can still fire
  after a later submission; nothing in the component cancels it.
- `console.log` is replaced by the value `HandleSubmit` returns.
- Setting a property to `undefined` is modelled as removing it. Nothing in
  the component tells the two apart: every read tests truthiness, and
  `Object.keys` is only taken of the validator's fresh result.
- Messages are the four-valued `ErrorMessage` type, not strings.
  `MessageText` gives the exact texts.
- The query type is a string that the validator tests only for emptiness.
  The form offers "General Enquiry" and "Support Request", but the code
  stores any radio value it is given, so the model does too.
- Whitespace is the ECMAScript WhiteSpace and LineTerminator table. The
  Unicode space-separator category is written out in its present-day
  entries; characters outside the Basic Multilingual Plane and general
  regular-expression matching are not modelled. `EmailTest` decides this
  one pattern.
- `validateForm` reads the component's state. In the model it is the
  function `ValidateForm` of the values, so calling it twice on the same
  state gives the same result by construction.
