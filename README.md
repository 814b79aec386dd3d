# Contact form controller — a Dafny model

`script.js` holds one browser class, `ContactForm`. It validates the fields of
a contact form against a fixed rule table and tests an arithmetic captcha.
It opens a preview once the form is valid. After the user confirms, it sends
the message under a single-flight guard (`isSubmitting`) and resets the form
on success. This project models that controller with the DOM replaced by
plain data, and proves what the code promises.

The model is split into six modules:

- `Wrappers` (`wrappers.dfy`) holds the `Option` type.
- `JsText` (`js_text.dfy`) holds the parts of the JavaScript string library
  that the code relies on:
  - one whitespace predicate, shared by `trim` and the regex class `\s`;
  - `String.prototype.trim`;
  - `.length` counted in UTF-16 code units;
  - `${n}` decimal text;
  - the global `parseInt` with no radix. It takes an optional sign, reads a
    `0x`/`0X` hexadecimal prefix, and reads the longest digit prefix. No
    digit at all gives NaN.
- `Patterns` (`patterns.dfy`) states the three regular expressions of the
  rule table as predicates: name, email and phone.
- `Validation` (`validation.dfy`) holds:
  - the rule table (`initializeValidation`);
  - the first-match checker of `validateField`, in the order required,
    pattern, minLength, maxLength;
  - the marker choice of `updateFieldState`.

  Error texts are identifiers (`ErrorText`), and `Text` gives their French
  wording.
- `Captcha` (`captcha.dfy`) holds:
  - `generateCaptcha`'s arithmetic, with the operands and the operator as
    parameters (num1 and num2 in 1..10; `+`, `-` or `×`);
  - the acceptance test of `validateForm`: the trimmed answer is non-empty
    and its `parseInt` equals the stored answer.
- `Form` (`form.dfy`) holds the class `ContactForm`. Its fields are:
  - the form's controls, as a sequence of `Control` values (name, default
    value, value, marker and shown error text);
  - the captcha input, with its own marker and error text;
  - the question and the stored answer;
  - `isSubmitting`;
  - the notification;
  - the character counter.

  Its methods change these fields as the source's methods do. `submitForm`
  is split at its `await` into `Begin` and `Complete(success, …)`; the
  outcome of the send is a parameter.

The model follows script.js in these places:

- There is no "previewing" state. `submitForm` checks only `isSubmitting`,
  so a confirmation needs no preview first (script.js:348-351).
- `resetForm` clears `isSubmitting`, and the reset button stays active
  during a send. A reset while a send is pending therefore lets a second
  send start (`Form.ResetDuringSendReopensGuard`).
- The `privacy` rule is tested on the control's value string, as
  `validateField` does. Whether the box is ticked is not consulted.
- The name class `À-ÿ` is the whole range U+00C0..U+00FF, so `×` and `÷`
  count as letters.
- `form.reset()` puts each control back to its default value, which need
  not be empty.
- `validateField` looks the field name up as a property of the rule
  object, so a name that object inherits from `Object.prototype`
  (`toString`, `constructor`, `__proto__`, …) finds a member with none of
  the rule properties. Such a field checks nothing and is marked as a
  success when non-blank (`Validation.InheritedNamePasses`).
- Refreshing the captcha also empties the answer field. An answer typed for
  the old question therefore fails, because nothing is left.

## Model

| member | source | states |
|---|---|---|
| JsText.IsJsWhitespace | script.js:143 | defines the ECMAScript WhiteSpace and LineTerminator set, shared by `trim` and by `\s` in the three regexes |
| JsText.TrimStart | script.js:143 | the leading part it drops is all whitespace and what it keeps does not start with whitespace; it is also the whitespace skip of `parseInt` |
| JsText.TrimEnd | script.js:143 | the trailing part it drops is all whitespace and what it keeps does not end with whitespace |
| JsText.Trim | script.js:143 | `trim` keeps no whitespace at either end, never lengthens, and returns empty exactly when the value is all whitespace |
| JsText.TrimStartSuffix | script.js:143 | trimming the start keeps a suffix of the value |
| JsText.TrimEndPrefix | script.js:143 | trimming the end keeps a prefix of the value |
| JsText.TrimStartPadded | script.js:143 | leading blanks are exactly what trimming the start removes when the rest does not start with whitespace |
| JsText.TrimEndPadded | script.js:143 | trailing blanks are exactly what trimming the end removes when the rest does not end with whitespace |
| JsText.TrimPadded | script.js:143 | any blank padding around a string with no whitespace at its ends trims back to that string |
| JsText.TrimTight | script.js:143 | a string with no whitespace at its ends is its own trim |
| JsText.TrimIdempotent | script.js:143 | trimming twice gives the same as trimming once |
| JsText.Utf16Length | script.js:162 | `.length` lies between the number of characters and twice that, and equals it exactly when no character is outside the BMP |
| JsText.DigitChar | script.js:237 | the digit character of a value below ten is a decimal digit and reads back as that value |
| JsText.Decimal | script.js:237 | `${n}` is non-empty and all digits, and starts with `0` only for zero |
| JsText.DigitValue | script.js:192 | a digit's value is below its radix |
| JsText.DigitsValue | script.js:192 | defines the value `parseInt` gives a run of digits in its radix, most significant digit first |
| JsText.DigitPrefix | script.js:192 | the digits `parseInt` reads are a prefix of the text, all digits, and followed by a non-digit or the end |
| JsText.DigitPrefixStops | script.js:192 | digits followed by a non-digit are read up to that non-digit and no further |
| JsText.DecimalValue | script.js:192 | reading the decimal text of `n` gives `n` |
| JsText.ParseUnsignedDecimal | script.js:192 | the unsigned reader returns `n` for `${n}` followed by text that does not continue the number |
| JsText.ParseIntDecimal | script.js:192 | `parseInt` returns `n` for `${n}` followed by text that neither adds a digit nor, after a lone `0`, forms a hexadecimal prefix |
| JsText.ParseUnsigned | script.js:192 | defines the unsigned part of `parseInt`: a `0x`/`0X` prefix selects radix 16, the longest digit prefix is read, and no digit gives NaN |
| JsText.ParseInt | script.js:192 | defines `parseInt` with no radix: leading whitespace skipped, one optional sign, then the unsigned part |
| JsText.ParseIntUnsigned | script.js:192 | on text starting with a digit, `parseInt` is the unsigned reading |
| JsText.ParseIntPlus | script.js:192 | `parseInt` accepts a leading `+` before the digits of `n` and returns `n` |
| JsText.ParseIntNegative | script.js:192 | `parseInt` reads a leading `-` before the digits of `n` as `-n` |
| Patterns.NamePattern | script.js:76 | defines the name regex: one or more characters from `a-zA-ZÀ-ÿ`, whitespace, `'` and `-` |
| Patterns.EmailPattern | script.js:98 | defines the email regex: a run, `@`, a run, `.`, a run, each run non-empty and free of whitespace and `@` |
| Patterns.PhonePattern | script.js:105 | defines the phone regex: an optional `+`, then at least ten digits, whitespace, `-`, `(` or `)` |
| Patterns.EmailFromParts | script.js:98 | every `a@b.c` built from three non-empty runs without whitespace or `@` matches the email regex |
| Patterns.EmailShape | script.js:98 | a value matching the email regex has no whitespace and exactly one `@`, which is neither first nor last |
| Validation.Text | script.js:78-135 | defines the French wording of each rule message and of the captcha message |
| Validation.RuleFor | script.js:69-146 | defines the rule table by field name, the names inherited from `Object.prototype` giving a rule that checks nothing |
| Validation.Check | script.js:148-170 | a trimmed value passes exactly when no check of the rule is broken; a failure names a broken check and that rule's message for it, and no broken check comes earlier in the order required, pattern, minLength, maxLength |
| Validation.CheckPasses | script.js:151-170 | a value passes exactly when it is non-empty if required and, when non-empty, matches the pattern and respects both length limits |
| Validation.ValidateField | script.js:141-170 | a field name with no rule always passes; a field with a rule passes exactly when its trimmed value breaks none of the rule's checks, and any failure is a check that value breaks |
| Validation.RulesWellFormed | script.js:69-138 | every rule has a message for each check it carries, and its minimum length is not above its maximum |
| Validation.FailureHasMessage | script.js:151-170 | every failing field comes with a message to show |
| Validation.RequiredBlankFails | script.js:152-155 | a required field that is empty or all whitespace fails with exactly its rule's `required` message |
| Validation.OptionalBlankPasses | script.js:157-167 | a blank value passes on every field without a rule or whose rule is not required, such as `phone` and `company` |
| Validation.NameWithForeignCharFails | script.js:157-160 | a first or last name holding one character outside the name class fails on the pattern, whatever its length |
| Validation.InheritedNamePasses | script.js:144-176 | a field named after an inherited member of the rule object passes whatever its value |
| Validation.ValidateIgnoresPadding | script.js:143 | surrounding whitespace never changes a field's verdict |
| Validation.ValidateTight | script.js:143-144 | a value with no whitespace at its ends is checked as it stands against its field's rule |
| Validation.NameRuleBounds | script.js:72-95 | the name rules pass exactly the strings of name characters that are 2 to 50 units long |
| Validation.NameBounds | script.js:141-170 | a first or last name without surrounding whitespace passes exactly when it matches the name pattern and is 2 to 50 units long |
| Validation.EmailAddressPasses | script.js:96-103 | every `a@b.c` address made of runs without whitespace or `@` passes the email field |
| Validation.RequiredOnlyBounds | script.js:116-137 | `subject` and `privacy` pass exactly when their value is not blank |
| Validation.MessageRuleBounds | script.js:122-131 | the message rule passes exactly the strings of 10 to 1000 units |
| Validation.MessageBounds | script.js:141-170 | a message without surrounding whitespace passes exactly when its length is 10 to 1000 units |
| Validation.PhoneBounds | script.js:104-109 | a phone number without surrounding whitespace passes exactly when it is empty or matches the phone pattern |
| Validation.CompanyBounds | script.js:110-115 | a company name without surrounding whitespace passes exactly when it is at most 100 units long |
| Validation.ShortFirstNameExample | script.js:161-165 | the first name `"A"` matches the pattern and then fails the minimum length with its message |
| Validation.EmailWithoutAtFails | script.js:157-160 | a non-empty email with no `@` fails on the pattern with the email message |
| Validation.FieldMarker | script.js:219-224 | a blank value gets no marker, otherwise success exactly when valid and error exactly when not |
| Captcha.MakeChallenge | script.js:226-251 | the stored answer is what the shown question evaluates to and lies in 0..100; subtraction shows the larger operand first; the other operators show the operands as drawn |
| Captcha.Symbol | script.js:230-245 | defines the operator glyphs shown in the question: `+`, `-` and `×` |
| Captcha.QuestionText | script.js:237-250 | defines the question text: `Combien font `, the left operand, the operator, the right operand and ` ?` |
| Captcha.CaptchaAccepted | script.js:190-192 | defines the captcha test: the trimmed answer is non-empty and its `parseInt` equals the stored answer |
| Captcha.DecimalAnswerAccepted | script.js:190-192 | the decimal text of the answer passes, with any whitespace around it |
| Captcha.ChallengeAnswerable | script.js:188-199 | the correct answer to every generated challenge passes |
| Captcha.BlankAnswerRejected | script.js:192 | an empty or all-whitespace answer never passes |
| Captcha.TrailingTextAccepted | script.js:192 | `"7 pommes"` passes for 7, because `parseInt` reads only the leading number |
| Captcha.PlusSignAccepted | script.js:192 | `+n` passes for `n` |
| Captcha.HexAnswerAccepted | script.js:192 | `"0xA"` passes for 10 |
| Captcha.NonNumericRejected | script.js:190-192 | an answer whose trimmed text starts with neither a digit nor a sign is NaN to `parseInt` and never passes |
| Captcha.WordAnswerRejected | script.js:192 | the answer `"sept"` never passes |
| Form.CharCountTier | script.js:263 | defines the counter colour: alert above 900 units, caution above 800, normal otherwise |
| Form.TierColour | script.js:263 | defines the counter colour of each tier: `#f44336`, `#ff9800` and `#666` |
| Form.NoticeWording | script.js:272-365 | defines the wording of the three notifications: fix the errors, fix before previewing, and the send failure |
| Form.MessageLength | script.js:259 | defines the counter's number as the UTF-16 length of the message value |
| Form.CharCountTierMonotone | script.js:263 | a longer message never gets a milder counter colour |
| Form.ValueNamed | script.js:259 | the message value is the value of the first control named `message`, which stands for the element with id `message`, or empty when there is none |
| Form.Validated | script.js:141-176 | defines what `validateField` leaves on a control: unchanged without a rule, else the marker of its verdict and a failure's message |
| Form.InheritedNameMarked | script.js:141-176 | a control named after an inherited member of the rule object is marked as valid and keeps its error text |
| Form.ValidatedIdempotent | script.js:141-176 | validating a control a second time changes nothing, and validation never touches its name or value |
| Form.AllOfEvery | script.js:179-186 | the accumulated `isValid` is true exactly when every field passed |
| Form.AllOfPointwise | script.js:179-186 | sequences whose fields agree position by position on passing get the same accumulated verdict |
| Form.ValidatedTwice | script.js:284-285 | the second validation in `showPreview` leaves the controls exactly as the first one left them |
| Form.RevalidationKeepsVerdict | script.js:271-285 | markers and error texts play no part in the verdict, so validating again gives the same answer |
| Form.InvalidFormExample | script.js:178-201 | a form with a control named `firstName` whose value is `"A"`, at any position and whatever its default, marker and error text, is invalid, whatever else it holds and whatever the captcha |
| Form.ContactForm.constructor | script.js:2-31 | the form starts with the flag clear, a first captcha generated from the operands, an empty answer field and the counter computed |
| Form.ContactForm.Input | script.js:57-66 | typing into a control sets its value and hides its error text; on the message it also recounts the counter |
| Form.ContactForm.InputCaptcha | script.js:65 | typing an answer sets the answer field and hides its error text |
| Form.ContactForm.ValidateFieldAt | script.js:141-176 | validating one control returns its verdict, and that control only is replaced by its validated form |
| Form.CaptchaMarked | script.js:192-199 | defines the answer field's state after the captcha test: the verdict's marker, and the captcha message exactly when refused |
| Form.ContactForm.CheckCaptcha | script.js:188-199 | the captcha result is the acceptance test, and the answer field gets the matching marker and, on failure, the captcha message |
| Form.ContactForm.ValidateControls | script.js:179-186 | every control is validated, none skipped after a failure, and the result is true exactly when all of them passed |
| Form.ContactForm.ValidateForm | script.js:178-202 | the result is true exactly when every field passes and the captcha answer is right; every control and the answer field are marked |
| Form.ContactForm.ShowPreview | script.js:284-295 | the preview opens exactly on a valid form; otherwise the "fix before previewing" warning is shown; the answer field is marked by the captcha verdict and shows the captcha message exactly when the answer is refused |
| Form.ContactForm.PreviewValidated | script.js:284-295 | on a form that has just passed validation, validating again changes no control, the preview opens, and the answer field is marked as `validateForm` marks it |
| Form.ContactForm.ReviewForm | script.js:271-281 | the preview opens exactly when the form is valid; otherwise the "fix the errors" warning is shown; either way the answer field is marked by the captcha verdict and shows the captcha message exactly when the answer is refused |
| Form.ContactForm.HandleSubmit | script.js:266-282 | while a send is in flight nothing at all changes; otherwise the form is reviewed, with every control and the answer field marked |
| Form.ContactForm.GenerateCaptcha | script.js:226-256 | a new question and answer replace the old ones, the answer field is emptied, and no answer can pass until a new one is typed |
| Form.ContactForm.UpdateCharCount | script.js:258-264 | the counter shows the message's length and that length's colour tier |
| Form.ContactForm.Begin | script.js:348-351 | a send starts exactly when none is in flight, and the flag is set afterwards either way |
| Form.ContactForm.ResetForm | script.js:421-432 | every control returns to its default with no marker or error text, a new captcha is generated, the counter is recomputed and the flag is cleared |
| Form.ResetControl | script.js:422-428 | defines what `form.reset()` and the class clean-up leave on one control: its default value, no marker and no error text |
| Form.ContactForm.ClearControls | script.js:422-428 | every control, in place, returns to its default value and loses its marker and error text |
| Form.ContactForm.Complete | script.js:357-369 | after a send settles the flag is clear; success resets the form, and failure keeps every value and shows the error notification |
| Form.DoubleConfirmStartsOnce | script.js:349-351 | a second confirmation while the first send is pending starts nothing |
| Form.SettledSendReopens | script.js:348-370 | once a send settles, whether it succeeded or failed, a new send can start |
| Form.ResetDuringSendReopensGuard | script.js:421-432 | a reset during a pending send clears the flag, so another send can start |
| Form.EmptyFormNeedsOnlyCaptcha | script.js:178-201 | a form with no fields, built with any operands in 1..10 and any operator, is valid exactly when the typed answer passes the captcha test for that challenge's answer |
| Form.RefreshInvalidatesAnswer | script.js:253-254 | after the captcha is refreshed, validation fails whatever answer was typed before |

## Left out

- DOM lookup, event-listener wiring, modal and loading-indicator toggling, and `scrollIntoView` (script.js:2-67, 274-277, 293-299, 386-404, 416-419, 465-467) are left out. They are presentation only. The listeners that matter appear as methods (`Input`, `InputCaptcha`, `ValidateFieldAt`).
- The preview and success HTML, `getFormData`, `Date` and the `MSG-` identifier (script.js:290-293, 301-346, 398-414) are left out. They are templating, the browser `FormData` API and the wall clock.
- `Math.random` in `generateCaptcha` and `simulateSubmission`, and the send delay (script.js:228-231, 372-384), are replaced by parameters: the operands and operator, and the `success` outcome of `Complete`.
- Notification icons, colours and the 5-second hide timer (script.js:434-463) are left out. A notice is kept as its text identifier and severity, and it stays set.
- The global error handler and the `Element.prototype` polyfills (script.js:475-495) are left out as browser shims.
- ParseInt returns an exact integer. JavaScript rounds the parsed value to a double, which differs only beyond 2^53, far from the captcha answers in 0..100.
- ValidateField returns the verdict and the message identifier. Showing the text and setting the class are modelled on the controls by `Validated` and `ContactForm.ValidateFieldAt`.
- Text and NoticeWording give the French wording of each message. Contracts name messages by identifier, not by wording.
- Form.ContactForm.Complete takes the next captcha's operands even when the send fails, where they are unused. A failed send draws no captcha.
- The second send that a reset lets start during a pending one is not interleaved with the first send's completion. Each `Complete` is one step.
- The page's markup is not modelled, and three assumptions about it stand in for the element lookups:
  - a control's id equals its name, so the counter reads the control named `message` where script.js:7 uses `getElementById('message')`;
  - every control has its `<id>Error` element, so showing and hiding an error always takes effect (script.js:205-214 skip a missing one);
  - the captcha input is one of `this.form`'s controls, so `form.reset()` and the class clean-up in `resetForm` clear its marker, and its `input` listener hides its error (script.js:63-66, 422-428).
- A complete valid form with concrete values for every field is not stated as one lemma. Each field's acceptance is stated generically instead (`NameBounds`, `EmailAddressPasses`, `RequiredOnlyBounds`, `MessageBounds`).
