/**
 * The contact-form controller: the form's controls as plain data, the live
 * captcha, the single-flight submission flag and the notification, with the
 * operations that validate, generate a captcha, submit and reset.
 */
module Form {
  import opened Wrappers
  import opened JsText
  import opened Validation
  import opened Captcha

  datatype Severity = SuccessNotice | WarningNotice | ErrorNotice | InfoNotice

  /** The notifications the controller shows, by identity; `NoticeWording` gives their text. */
  datatype NoticeText = FixErrors | FixBeforePreview | SendFailed

  function NoticeWording(n: NoticeText): string
  {
    match n
    case FixErrors => "Veuillez corriger les erreurs dans le formulaire"
    case FixBeforePreview => "Veuillez corriger les erreurs avant de prévisualiser"
    case SendFailed => "Erreur lors de l'envoi du message. Veuillez réessayer."
  }

  /** The notification banner's text and kind. */
  datatype Notice = Notice(text: NoticeText, severity: Severity)

  /**
   * One `input`, `select` or `textarea` of the form: its name, the value
   * `form.reset()` restores, its current value, its validity class and the
   * error text shown under it (`None` when hidden).
   */
  datatype Control = Control(name: string, defaultValue: string, value: string, marker: Marker, error: Option<ErrorText>)

  /** The colour tier of the character counter. */
  datatype Tier = Plain | Caution | Alert

  function TierRank(t: Tier): nat {
    match t
    case Plain => 0
    case Caution => 1
    case Alert => 2
  }

  /** `updateCharCount`'s colour choice: above 900, above 800, otherwise the default. */
  function CharCountTier(count: nat): Tier {
    if count > 900 then Alert else if count > 800 then Caution else Plain
  }

  function TierColour(t: Tier): string {
    match t
    case Alert => "#f44336"
    case Caution => "#ff9800"
    case Plain => "#666"
  }

  /** A longer message never gets a milder colour. */
  lemma CharCountTierMonotone(a: nat, b: nat)
    requires a <= b
    ensures TierRank(CharCountTier(a)) <= TierRank(CharCountTier(b))
    ensures CharCountTier(a) == Alert ==> CharCountTier(b) == Alert
  {
  }

  /** `cs[i]` is the first control with the given name. */
  predicate FirstNamed(cs: seq<Control>, name: string, i: int) {
    0 <= i < |cs| && cs[i].name == name && forall j :: 0 <= j < i ==> cs[j].name != name
  }

  /** The value of the first control with the given name, or "" when there is none. */
  function ValueNamed(cs: seq<Control>, name: string): (v: string)
    ensures (forall i :: 0 <= i < |cs| ==> cs[i].name != name) ==> v == ""
    ensures forall i :: FirstNamed(cs, name, i) ==> v == cs[i].value
    ensures v != "" ==> exists i :: 0 <= i < |cs| && cs[i].name == name && cs[i].value == v
  {
    if cs == [] then ""
    else if cs[0].name == name then cs[0].value
    else
      var v := ValueNamed(cs[1..], name);
      assert forall i :: 1 <= i < |cs| ==> cs[i] == cs[1..][i - 1];
      assert forall i :: FirstNamed(cs, name, i) ==> FirstNamed(cs[1..], name, i - 1);
      v
  }

  /** The counter's number: the JavaScript length of the message text. */
  function MessageLength(cs: seq<Control>): nat {
    Utf16Length(ValueNamed(cs, "message"))
  }

  /**
   * What `validateField` leaves on one control. A control without a rule is
   * left alone; otherwise it gets the marker of its verdict, and a failure's
   * message replaces the shown error text (a missing message shows nothing
   * and hides nothing).
   */
  function Validated(c: Control): Control {
    match RuleFor(c.name)
    case None => c
    case Some(_) =>
      var v := ValidateField(c.name, c.value);
      c.(marker := FieldMarker(c.value, v.Pass?),
         error := if v.Fail? && v.message.Some? then v.message else c.error)
  }

  /** Validating a control twice leaves it as validating it once did. */
  lemma ValidatedIdempotent(c: Control)
    ensures Validated(Validated(c)) == Validated(c)
    ensures Validated(c).name == c.name && Validated(c).value == c.value
  {
  }

  /**
   * The captcha field as `validateForm` leaves it: marked by its verdict, and
   * showing the captcha error exactly when the answer is refused.
   */
  predicate CaptchaMarked(input: string, answer: int, marker: Marker, error: Option<ErrorText>) {
    var accepted := CaptchaAccepted(input, answer);
    && marker == FieldMarker(input, accepted)
    && error == if accepted then None else Some(CaptchaIncorrect)
  }

  /**
   * A control whose name is an inherited member of the rule table is marked
   * as a success and keeps its error text.
   */
  lemma InheritedNameMarked(c: Control)
    requires c.name in InheritedNames
    ensures Validated(c) == c.(marker := FieldMarker(c.value, true))
  {
    InheritedNamePasses(c.name, c.value);
  }

  /** The control's own rule passes. */
  predicate FieldPasses(c: Control) {
    ValidateField(c.name, c.value).Pass?
  }

  /** The `isValid` accumulated by a loop that ANDs `p` over `xs` in order. */
  predicate AllOf<T>(xs: seq<T>, p: T -> bool) {
    xs == [] || (AllOf(xs[..|xs| - 1], p) && p(xs[|xs| - 1]))
  }

  /** The accumulated result holds exactly when every element satisfies `p`. */
  lemma {:induction false} AllOfEvery<T>(xs: seq<T>, p: T -> bool)
    ensures AllOf(xs, p) <==> forall i :: 0 <= i < |xs| ==> p(xs[i])
  {
    if xs != [] {
      var init := xs[..|xs| - 1];
      AllOfEvery(init, p);
      assert forall i :: 0 <= i < |init| ==> init[i] == xs[i];
    }
  }

  /** `after` is `before` with every control validated, in place. */
  predicate ValidatedAll(before: seq<Control>, after: seq<Control>) {
    |after| == |before| && forall i :: 0 <= i < |after| ==> after[i] == Validated(before[i])
  }

  /** Two sequences whose elements agree on `p`, position by position, agree on `AllOf`. */
  lemma {:induction false} AllOfPointwise<T>(xs: seq<T>, ys: seq<T>, p: T -> bool)
    requires |xs| == |ys|
    requires forall i :: 0 <= i < |xs| ==> p(xs[i]) == p(ys[i])
    ensures AllOf(xs, p) == AllOf(ys, p)
  {
    if xs != [] {
      AllOfPointwise(xs[..|xs| - 1], ys[..|ys| - 1], p);
    }
  }

  /** Every control passes its own rule. */
  predicate FieldsValid(cs: seq<Control>) {
    AllOf(cs, FieldPasses)
  }

  /** The verdict of `validateForm`: all fields pass and the captcha answer is right. */
  predicate FormValid(cs: seq<Control>, captchaInput: string, answer: int) {
    FieldsValid(cs) && CaptchaAccepted(captchaInput, answer)
  }

  /** Validating the controls a second time changes nothing more. */
  lemma ValidatedTwice(cs: seq<Control>, ds: seq<Control>, es: seq<Control>)
    requires ValidatedAll(cs, ds) && ValidatedAll(ds, es)
    ensures es == ds
  {
    forall i | 0 <= i < |cs|
      ensures es[i] == ds[i]
    {
      ValidatedIdempotent(cs[i]);
    }
  }

  /**
   * Validating the controls does not change the form's verdict: a control's
   * marker and error text play no part in its rule.
   */
  lemma RevalidationKeepsVerdict(cs: seq<Control>, ds: seq<Control>, captchaInput: string, answer: int)
    requires ValidatedAll(cs, ds)
    ensures FieldsValid(ds) == FieldsValid(cs)
    ensures FormValid(ds, captchaInput, answer) == FormValid(cs, captchaInput, answer)
  {
    forall i | 0 <= i < |cs|
      ensures FieldPasses(ds[i]) == FieldPasses(cs[i])
    {
      ValidatedIdempotent(cs[i]);
    }
    AllOfPointwise(ds, cs, FieldPasses);
  }

  /** What `form.reset()` and the class clean-up leave on one control. */
  function ResetControl(c: Control): Control {
    c.(value := c.defaultValue, marker := Unmarked, error := None)
  }

  /**
   * A form whose first name is one letter fails, whatever else it holds and
   * whatever the captcha answer.
   */
  lemma InvalidFormExample(cs: seq<Control>, i: nat, captchaInput: string, answer: int)
    requires i < |cs| && cs[i].name == "firstName" && cs[i].value == "A"
    ensures !FormValid(cs, captchaInput, answer)
  {
    ShortFirstNameExample();
    assert !FieldPasses(cs[i]);
    AllOfEvery(cs, FieldPasses);
  }

  class ContactForm {
    var controls: seq<Control>
    var captchaInput: string
    var captchaMarker: Marker
    var captchaError: Option<ErrorText>
    var captchaQuestion: string
    var captchaAnswer: int
    var isSubmitting: bool
    var notice: Option<Notice>
    var charCount: nat
    var charTier: Tier

    /**
     * The form as loaded: the flag clear, a first captcha generated from the
     * given operands and the counter computed.
     */
    constructor(initial: seq<Control>, num1: int, num2: int, op: Op)
      requires 1 <= num1 <= 10 && 1 <= num2 <= 10
      ensures controls == initial && !isSubmitting && notice == None
      ensures captchaAnswer == MakeChallenge(num1, num2, op).answer
      ensures captchaQuestion == QuestionText(MakeChallenge(num1, num2, op))
      ensures captchaInput == "" && captchaError == None && captchaMarker == Unmarked
      ensures charCount == MessageLength(initial) && charTier == CharCountTier(charCount)
    {
      controls := initial;
      isSubmitting := false;
      notice := None;
      captchaMarker := Unmarked;
      var c := MakeChallenge(num1, num2, op);
      captchaQuestion := QuestionText(c);
      captchaAnswer := c.answer;
      captchaInput := "";
      captchaError := None;
      var count := MessageLength(initial);
      charCount := count;
      charTier := CharCountTier(count);
    }

    /** The `input` event of a control: its new value hides its error text; the message also recounts. */
    method Input(i: nat, v: string)
      requires i < |controls|
      modifies this`controls, this`charCount, this`charTier
      ensures controls == old(controls)[i := old(controls[i]).(value := v, error := None)]
      ensures charCount == (if controls[i].name == "message" then MessageLength(controls) else old(charCount))
      ensures charTier == (if controls[i].name == "message" then CharCountTier(charCount) else old(charTier))
    {
      controls := controls[i := controls[i].(value := v, error := None)];
      if controls[i].name == "message" {
        UpdateCharCount();
      }
    }

    /** The `input` event of the captcha answer. */
    method InputCaptcha(v: string)
      modifies this`captchaInput, this`captchaError
      ensures captchaInput == v && captchaError == None
    {
      captchaInput := v;
      captchaError := None;
    }

    /** `validateField` on control `i` (its `blur` event): the verdict, its marker and its message. */
    method ValidateFieldAt(i: nat) returns (ok: bool)
      requires i < |controls|
      modifies this`controls
      ensures ok == ValidateField(old(controls[i].name), old(controls[i].value)).Pass?
      ensures controls == old(controls)[i := Validated(old(controls[i]))]
    {
      var c := controls[i];
      var verdict := ValidateField(c.name, c.value);
      if RuleFor(c.name).None? {
        return true;
      }
      ok := verdict.Pass?;
      var shown := if verdict.Fail? && verdict.message.Some? then verdict.message else c.error;
      controls := controls[i := c.(marker := FieldMarker(c.value, ok), error := shown)];
    }

    /**
     * The captcha half of `validateForm`: the typed answer is tested against
     * the stored one, and the answer field is marked and its error text set.
     */
    method CheckCaptcha() returns (accepted: bool)
      modifies this`captchaMarker, this`captchaError
      ensures accepted == CaptchaAccepted(captchaInput, captchaAnswer)
      ensures captchaMarker == FieldMarker(captchaInput, accepted)
      ensures captchaError == if accepted then None else Some(CaptchaIncorrect)
    {
      var input := captchaInput;
      accepted := CaptchaAccepted(input, captchaAnswer);
      var marker := FieldMarker(input, accepted);
      var error := if accepted then None else Some(CaptchaIncorrect);
      captchaMarker, captchaError := marker, error;
    }

    /**
     * The loop of `validateForm`: every control is validated in order, none
     * skipped after a failure, and the result is the AND of their verdicts.
     */
    method ValidateControls() returns (ok: bool)
      modifies this`controls
      ensures ValidatedAll(old(controls), controls)
      ensures ok == FieldsValid(old(controls))
    {
      ok := true;
      var i := 0;
      while i < |controls|
        invariant 0 <= i <= |controls| == |old(controls)|
        invariant forall k :: 0 <= k < i ==> controls[k] == Validated(old(controls)[k])
        invariant forall k :: i <= k < |controls| ==> controls[k] == old(controls)[k]
        invariant ok == AllOf(old(controls)[..i], FieldPasses)
      {
        var fieldOk := ValidateFieldAt(i);
        assert old(controls)[..i + 1][..i] == old(controls)[..i];
        ok := ok && fieldOk;
        i := i + 1;
      }
      assert old(controls)[..i] == old(controls);
    }

    /**
     * `validateForm`: the controls are validated, then the captcha answer is
     * tested and marked; the result is the conjunction of all of them.
     */
    method ValidateForm() returns (ok: bool)
      modifies this`controls, this`captchaMarker, this`captchaError
      ensures ValidatedAll(old(controls), controls)
      ensures ok == FormValid(old(controls), captchaInput, captchaAnswer)
      ensures CaptchaMarked(captchaInput, captchaAnswer, captchaMarker, captchaError)
    {
      ok := ValidateControls();
      var accepted := CheckCaptcha();
      ok := ok && accepted;
    }

    /** `showPreview`: the preview opens only on a valid form; otherwise a warning is shown. */
    method ShowPreview() returns (shown: bool)
      modifies this`controls, this`captchaMarker, this`captchaError, this`notice
      ensures ValidatedAll(old(controls), controls)
      ensures shown == FormValid(old(controls), captchaInput, captchaAnswer)
      ensures notice == if shown then old(notice) else Some(Notice(FixBeforePreview, WarningNotice))
      ensures CaptchaMarked(captchaInput, captchaAnswer, captchaMarker, captchaError)
    {
      shown := ValidateForm();
      if !shown {
        notice := Some(Notice(FixBeforePreview, WarningNotice));
      }
    }

    /**
     * `showPreview` right after a validation that passed: validating again
     * changes no control, the verdict stays the same, and the preview opens
     * with no notice.
     */
    method PreviewValidated(ghost original: seq<Control>) returns (shown: bool)
      requires ValidatedAll(original, controls)
      requires FormValid(original, captchaInput, captchaAnswer)
      modifies this`controls, this`captchaMarker, this`captchaError, this`notice
      ensures controls == old(controls) && shown && notice == old(notice)
      ensures CaptchaMarked(captchaInput, captchaAnswer, captchaMarker, captchaError)
    {
      shown := ShowPreview();
      ValidatedTwice(original, old(controls), controls);
      RevalidationKeepsVerdict(original, old(controls), captchaInput, captchaAnswer);
    }

    /**
     * `handleSubmit` past its guard: the form is validated, then either the
     * preview opens (validating a second time) or a warning is shown.
     */
    method ReviewForm() returns (shown: bool)
      modifies this`controls, this`captchaMarker, this`captchaError, this`notice
      ensures ValidatedAll(old(controls), controls)
      ensures shown == FormValid(old(controls), captchaInput, captchaAnswer)
      ensures notice == if shown then old(notice) else Some(Notice(FixErrors, WarningNotice))
      ensures CaptchaMarked(captchaInput, captchaAnswer, captchaMarker, captchaError)
    {
      var ok := ValidateForm();
      ghost var input, answer, marker, error := captchaInput, captchaAnswer, captchaMarker, captchaError;
      if ok {
        shown := PreviewValidated(old(controls));
      } else {
        notice := Some(Notice(FixErrors, WarningNotice));
        shown := false;
      }
      assert captchaInput == input && captchaAnswer == answer;
      assert captchaMarker == marker && captchaError == error;
    }

    /**
     * `handleSubmit`: nothing at all happens while a submission is in
     * flight; otherwise the form is reviewed.
     */
    method HandleSubmit() returns (shown: bool)
      modifies this`controls, this`captchaMarker, this`captchaError, this`notice
      ensures old(isSubmitting) ==> !shown && unchanged(this)
      ensures !old(isSubmitting) ==>
                && ValidatedAll(old(controls), controls)
                && shown == FormValid(old(controls), captchaInput, captchaAnswer)
                && notice == (if shown then old(notice) else Some(Notice(FixErrors, WarningNotice)))
                && CaptchaMarked(captchaInput, captchaAnswer, captchaMarker, captchaError)
    {
      if isSubmitting {
        shown := false;
      } else {
        shown := ReviewForm();
      }
    }

    /**
     * `generateCaptcha` with the drawn operands: a new question and answer
     * replace the old ones, and the answer field is emptied, so no answer
     * typed for the previous question can pass.
     */
    method GenerateCaptcha(num1: int, num2: int, op: Op)
      requires 1 <= num1 <= 10 && 1 <= num2 <= 10
      modifies this`captchaQuestion, this`captchaAnswer, this`captchaInput, this`captchaError
      ensures captchaAnswer == MakeChallenge(num1, num2, op).answer
      ensures captchaQuestion == QuestionText(MakeChallenge(num1, num2, op))
      ensures captchaInput == "" && captchaError == None
      ensures !CaptchaAccepted(captchaInput, captchaAnswer)
    {
      var c := MakeChallenge(num1, num2, op);
      captchaQuestion := QuestionText(c);
      captchaAnswer := c.answer;
      captchaInput := "";
      captchaError := None;
    }

    /** `updateCharCount`: the counter shows the message's length and its colour tier. */
    method UpdateCharCount()
      modifies this`charCount, this`charTier
      ensures charCount == MessageLength(controls) && charTier == CharCountTier(charCount)
    {
      charCount := MessageLength(controls);
      charTier := CharCountTier(charCount);
    }

    /**
     * The first half of `submitForm`, up to the `await`: a no-op while a
     * submission is in flight, otherwise it raises the flag.
     */
    method Begin() returns (started: bool)
      modifies this`isSubmitting
      ensures started == !old(isSubmitting)
      ensures isSubmitting
    {
      if isSubmitting {
        return false;
      }
      isSubmitting := true;
      started := true;
    }

    /**
     * `resetForm`: every control back to its default value with no marker
     * and no error text, a new captcha, the counter recomputed and the flag
     * cleared. The notification is left as it is.
     */
    method ResetForm(num1: int, num2: int, op: Op)
      requires 1 <= num1 <= 10 && 1 <= num2 <= 10
      modifies this
      ensures |controls| == |old(controls)|
      ensures forall i :: 0 <= i < |controls| ==> controls[i] == ResetControl(old(controls)[i])
      ensures captchaMarker == Unmarked && captchaInput == "" && captchaError == None
      ensures captchaAnswer == MakeChallenge(num1, num2, op).answer
      ensures captchaQuestion == QuestionText(MakeChallenge(num1, num2, op))
      ensures charCount == MessageLength(controls) && charTier == CharCountTier(charCount)
      ensures !isSubmitting && notice == old(notice)
    {
      ClearControls();
      ghost var cleared := controls;
      captchaMarker := Unmarked;
      GenerateCaptcha(num1, num2, op);
      UpdateCharCount();
      isSubmitting := false;
      assert controls == cleared;
    }

    /**
     * The `form.reset()` and class clean-up part of `resetForm`: each
     * control in turn gets its default value back and loses its marker and
     * its error text.
     */
    method ClearControls()
      modifies this`controls
      ensures |controls| == |old(controls)|
      ensures forall i :: 0 <= i < |controls| ==> controls[i] == ResetControl(old(controls)[i])
    {
      var i := 0;
      while i < |controls|
        invariant 0 <= i <= |controls| == |old(controls)|
        invariant forall k :: 0 <= k < i ==> controls[k] == ResetControl(old(controls)[k])
        invariant forall k :: i <= k < |controls| ==> controls[k] == old(controls)[k]
      {
        controls := controls[i := ResetControl(controls[i])];
        i := i + 1;
      }
    }

    /**
     * The second half of `submitForm`, after the send settles. A success
     * resets the form (with the new captcha's operands); a failure keeps
     * every value and shows an error notification. Either way the flag ends
     * cleared.
     */
    method Complete(success: bool, num1: int, num2: int, op: Op)
      requires 1 <= num1 <= 10 && 1 <= num2 <= 10
      modifies this
      ensures !isSubmitting
      ensures success ==>
                && |controls| == |old(controls)|
                && (forall i :: 0 <= i < |controls| ==> controls[i] == ResetControl(old(controls)[i]))
                && captchaMarker == Unmarked && captchaInput == "" && captchaError == None
                && captchaAnswer == MakeChallenge(num1, num2, op).answer
                && captchaQuestion == QuestionText(MakeChallenge(num1, num2, op))
                && charCount == MessageLength(controls) && charTier == CharCountTier(charCount)
                && notice == old(notice)
      ensures !success ==>
                && controls == old(controls)
                && captchaInput == old(captchaInput) && captchaMarker == old(captchaMarker)
                && captchaError == old(captchaError) && captchaAnswer == old(captchaAnswer)
                && captchaQuestion == old(captchaQuestion)
                && charCount == old(charCount) && charTier == old(charTier)
                && notice == Some(Notice(SendFailed, ErrorNotice))
    {
      if success {
        ResetForm(num1, num2, op);
      } else {
        notice := Some(Notice(SendFailed, ErrorNotice));
      }
      isSubmitting := false;
    }
  }

  /**
   * A second confirmation while the first send is pending starts nothing:
   * exactly one send is under way.
   */
  method DoubleConfirmStartsOnce() returns (first: bool, second: bool)
    ensures first && !second
  {
    var form := new ContactForm([], 3, 4, Plus);
    first := form.Begin();
    second := form.Begin();
  }

  /**
   * After the send settles, whatever its outcome, a new confirmation starts
   * a new send.
   */
  method SettledSendReopens(success: bool) returns (first: bool, second: bool)
    ensures first && second
  {
    var form := new ContactForm([], 3, 4, Plus);
    first := form.Begin();
    form.Complete(success, 5, 2, Minus);
    second := form.Begin();
  }

  /**
   * The reset button stays live while a send is pending and `resetForm`
   * clears the flag, so a second send can start before the first settles.
   */
  method ResetDuringSendReopensGuard() returns (first: bool, second: bool)
    ensures first && second
  {
    var form := new ContactForm([], 3, 4, Plus);
    first := form.Begin();
    form.ResetForm(2, 9, Times);
    second := form.Begin();
  }

  /**
   * A form with no fields passes exactly when the typed answer solves the
   * question `3 + 4`.
   */
  method EmptyFormNeedsOnlyCaptcha(typed: string, num1: int, num2: int, op: Op) returns (ok: bool)
    requires 1 <= num1 <= 10 && 1 <= num2 <= 10
    ensures ok == CaptchaAccepted(typed, MakeChallenge(num1, num2, op).answer)
  {
    var form := new ContactForm([], num1, num2, op);
    form.InputCaptcha(typed);
    assert form.controls == [] && form.captchaInput == typed;
    assert form.captchaAnswer == MakeChallenge(num1, num2, op).answer;
    ok := form.ValidateForm();
    assert FieldsValid([]);
  }

  /**
   * Whatever answer was typed, refreshing the captcha empties the answer
   * field, so the next validation fails.
   */
  method RefreshInvalidatesAnswer(typed: string) returns (ok: bool)
    ensures !ok
  {
    var form := new ContactForm([], 3, 4, Plus);
    form.InputCaptcha(typed);
    form.GenerateCaptcha(3, 4, Plus);
    assert form.captchaInput == [];
    ok := form.ValidateForm();
  }
}
