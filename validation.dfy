/**
 * The field validation engine of the contact form: the fixed rule table, the
 * first-match check of one field (required, then pattern, then minimum
 * length, then maximum length) and the success/error marker a field gets.
 */
module Validation {
  import opened Wrappers
  import opened JsText
  import opened Patterns

  datatype Violation = Required | PatternMismatch | TooShort | TooLong

  datatype PatternKind = NameLetters | EmailAddress | PhoneNumber

  /** A length limit. The source tests limits for truthiness, so a limit is never zero. */
  type Limit = n: nat | 0 < n witness 1

  /**
   * Every error text the form can show under a field, by identity: the rule
   * table's messages and the captcha's. `Text` gives each one's wording.
   */
  datatype ErrorText =
    | FirstNameRequired | FirstNameTooShort | FirstNameTooLong | FirstNameNotLetters
    | LastNameRequired | LastNameTooShort | LastNameTooLong | LastNameNotLetters
    | EmailRequired | EmailInvalid
    | PhoneInvalid
    | CompanyTooLong
    | SubjectRequired
    | MessageRequired | MessageTooShort | MessageTooLong
    | PrivacyRequired
    | CaptchaIncorrect

  /** The wording of each error text, as the page shows it. */
  function Text(e: ErrorText): string
  {
    match e
    case FirstNameRequired => "Le prénom est obligatoire"
    case FirstNameTooShort => "Le prénom doit contenir au moins 2 caractères"
    case FirstNameTooLong => "Le prénom ne peut pas dépasser 50 caractères"
    case FirstNameNotLetters => "Le prénom ne peut contenir que des lettres"
    case LastNameRequired => "Le nom est obligatoire"
    case LastNameTooShort => "Le nom doit contenir au moins 2 caractères"
    case LastNameTooLong => "Le nom ne peut pas dépasser 50 caractères"
    case LastNameNotLetters => "Le nom ne peut contenir que des lettres"
    case EmailRequired => "L'email est obligatoire"
    case EmailInvalid => "Veuillez entrer une adresse email valide"
    case PhoneInvalid => "Veuillez entrer un numéro de téléphone valide"
    case CompanyTooLong => "Le nom de la société ne peut pas dépasser 100 caractères"
    case SubjectRequired => "Veuillez sélectionner un sujet"
    case MessageRequired => "Le message est obligatoire"
    case MessageTooShort => "Le message doit contenir au moins 10 caractères"
    case MessageTooLong => "Le message ne peut pas dépasser 1000 caractères"
    case PrivacyRequired => "Vous devez accepter la politique de confidentialité"
    case CaptchaIncorrect => "La réponse au captcha est incorrecte"
  }

  /** The constraints on one named field, with the message of each violation. */
  datatype Rule = Rule(
    required: bool,
    pattern: Option<PatternKind>,
    minLength: Option<Limit>,
    maxLength: Option<Limit>,
    messages: map<Violation, ErrorText>)

  /**
   * The verdict on one field: valid, or the one violation reported and its
   * message, `None` when the rule has none for it (`undefined`, which shows
   * nothing).
   */
  datatype Verdict = Pass | Fail(violation: Violation, message: Option<ErrorText>)

  /** The class a field carries after validation: none, `success` or `error`. */
  datatype Marker = Unmarked | MarkedSuccess | MarkedError

  function Matches(p: PatternKind, s: string): bool {
    match p
    case NameLetters => NamePattern(s)
    case EmailAddress => EmailPattern(s)
    case PhoneNumber => PhonePattern(s)
  }

  const FirstNameRule := Rule(true, Some(NameLetters), Some(2), Some(50), map[
    Required := FirstNameRequired,
    TooShort := FirstNameTooShort,
    TooLong := FirstNameTooLong,
    PatternMismatch := FirstNameNotLetters])

  const LastNameRule := Rule(true, Some(NameLetters), Some(2), Some(50), map[
    Required := LastNameRequired,
    TooShort := LastNameTooShort,
    TooLong := LastNameTooLong,
    PatternMismatch := LastNameNotLetters])

  const EmailRule := Rule(true, Some(EmailAddress), None, None, map[
    Required := EmailRequired,
    PatternMismatch := EmailInvalid])

  const PhoneRule := Rule(false, Some(PhoneNumber), None, None, map[
    PatternMismatch := PhoneInvalid])

  const CompanyRule := Rule(false, None, None, Some(100), map[
    TooLong := CompanyTooLong])

  const SubjectRule := Rule(true, None, None, None, map[
    Required := SubjectRequired])

  const MessageRule := Rule(true, None, Some(10), Some(1000), map[
    Required := MessageRequired,
    TooShort := MessageTooShort,
    TooLong := MessageTooLong])

  const PrivacyRule := Rule(true, None, None, None, map[
    Required := PrivacyRequired])

  /**
   * The names every object literal inherits from `Object.prototype`. Looking
   * one of them up in the rule table finds that member, a value with none of
   * the rule properties, so it acts as a rule that checks nothing.
   */
  const InheritedNames: set<string> := {
    "constructor", "hasOwnProperty", "isPrototypeOf", "propertyIsEnumerable",
    "toLocaleString", "toString", "valueOf", "__proto__",
    "__defineGetter__", "__defineSetter__", "__lookupGetter__", "__lookupSetter__"}

  /** A rule with no constraint and no message. */
  const EmptyRule := Rule(false, None, None, None, map[])

  /**
   * The rule table, keyed by field name, as property lookup on an object
   * literal sees it: an own entry, else an inherited member, else no rule.
   */
  function RuleFor(name: string): Option<Rule> {
    if name == "firstName" then Some(FirstNameRule)
    else if name == "lastName" then Some(LastNameRule)
    else if name == "email" then Some(EmailRule)
    else if name == "phone" then Some(PhoneRule)
    else if name == "company" then Some(CompanyRule)
    else if name == "subject" then Some(SubjectRule)
    else if name == "message" then Some(MessageRule)
    else if name == "privacy" then Some(PrivacyRule)
    else if name in InheritedNames then Some(EmptyRule)
    else None
  }

  /** The position of a check in the fixed evaluation order. */
  function Rank(v: Violation): nat {
    match v
    case Required => 0
    case PatternMismatch => 1
    case TooShort => 2
    case TooLong => 3
  }

  /**
   * Whether a trimmed value breaks one check of a rule, that check taken on
   * its own. Only `required` looks at an empty value.
   */
  predicate Breaks(rule: Rule, v: Violation, value: string) {
    match v
    case Required => rule.required && value == []
    case PatternMismatch => rule.pattern.Some? && value != [] && !Matches(rule.pattern.value, value)
    case TooShort => rule.minLength.Some? && value != [] && Utf16Length(value) < rule.minLength.value
    case TooLong => rule.maxLength.Some? && value != [] && Utf16Length(value) > rule.maxLength.value
  }

  /** The rule's message for a violation; a missing one reads as `undefined`. */
  function MessageFor(rule: Rule, v: Violation): Option<ErrorText> {
    if v in rule.messages then Some(rule.messages[v]) else None
  }

  /**
   * The if/else-if chain of `validateField` on a trimmed value. It reports
   * the first broken check in the order required, pattern, minLength,
   * maxLength, and passes exactly when no check is broken.
   */
  function Check(rule: Rule, value: string): (r: Verdict)
    ensures r.Pass? <==> forall v :: !Breaks(rule, v, value)
    ensures r.Fail? ==> Breaks(rule, r.violation, value) && r.message == MessageFor(rule, r.violation)
    ensures r.Fail? ==> forall v :: Breaks(rule, v, value) ==> Rank(r.violation) <= Rank(v)
  {
    if rule.required && value == [] then
      assert Breaks(rule, Required, value);
      Fail(Required, MessageFor(rule, Required))
    else if rule.pattern.Some? && value != [] && !Matches(rule.pattern.value, value) then
      assert Breaks(rule, PatternMismatch, value);
      Fail(PatternMismatch, MessageFor(rule, PatternMismatch))
    else if rule.minLength.Some? && value != [] && Utf16Length(value) < rule.minLength.value then
      assert Breaks(rule, TooShort, value);
      Fail(TooShort, MessageFor(rule, TooShort))
    else if rule.maxLength.Some? && value != [] && Utf16Length(value) > rule.maxLength.value then
      assert Breaks(rule, TooLong, value);
      Fail(TooLong, MessageFor(rule, TooLong))
    else
      Pass
  }

  /** A value passes a rule exactly when it meets each of the rule's checks. */
  lemma CheckPasses(rule: Rule, value: string)
    ensures Check(rule, value) == Pass <==>
              && (rule.required ==> value != [])
              && (value != [] && rule.pattern.Some? ==> Matches(rule.pattern.value, value))
              && (value != [] && rule.minLength.Some? ==> Utf16Length(value) >= rule.minLength.value)
              && (value != [] && rule.maxLength.Some? ==> Utf16Length(value) <= rule.maxLength.value)
  {
  }

  /** `validateField`: trim the raw value and check it against the field's rule, if any. */
  function ValidateField(name: string, raw: string): (r: Verdict)
    ensures RuleFor(name).None? ==> r == Pass
    ensures r.Fail? ==> RuleFor(name).Some? && Breaks(RuleFor(name).value, r.violation, Trim(raw))
    ensures RuleFor(name).Some? ==> (r.Pass? <==> forall v :: !Breaks(RuleFor(name).value, v, Trim(raw)))
  {
    match RuleFor(name)
    case None => Pass
    case Some(rule) => Check(rule, Trim(raw))
  }

  /** Every check a rule can fail has a message, and its limits are ordered. */
  predicate WellFormed(rule: Rule) {
    && (rule.required ==> Required in rule.messages)
    && (rule.pattern.Some? ==> PatternMismatch in rule.messages)
    && (rule.minLength.Some? ==> TooShort in rule.messages)
    && (rule.maxLength.Some? ==> TooLong in rule.messages)
    && (rule.minLength.Some? && rule.maxLength.Some? ==> rule.minLength.value <= rule.maxLength.value)
  }

  lemma RulesWellFormed()
    ensures forall name :: RuleFor(name).Some? ==> WellFormed(RuleFor(name).value)
  {
    assert WellFormed(FirstNameRule) && WellFormed(LastNameRule) && WellFormed(EmailRule);
    assert WellFormed(PhoneRule) && WellFormed(CompanyRule) && WellFormed(SubjectRule);
    assert WellFormed(MessageRule) && WellFormed(PrivacyRule) && WellFormed(EmptyRule);
  }

  /** An inherited member found in place of a rule passes every value. */
  lemma InheritedNamePasses(name: string, raw: string)
    requires name in InheritedNames
    ensures RuleFor(name) == Some(EmptyRule)
    ensures ValidateField(name, raw) == Pass
  {
  }

  /** Every failing field comes with a message to show. */
  lemma FailureHasMessage(name: string, raw: string)
    ensures ValidateField(name, raw).Fail? ==> ValidateField(name, raw).message.Some?
  {
    RulesWellFormed();
  }

  /**
   * A required field whose value is empty or only whitespace fails with its
   * `required` message and no other.
   */
  lemma RequiredBlankFails(name: string, raw: string)
    requires RuleFor(name).Some? && RuleFor(name).value.required && Blank(raw)
    ensures ValidateField(name, raw) == Fail(Required, Some(RuleFor(name).value.messages[Required]))
  {
    RulesWellFormed();
  }

  /** Pattern and length checks never look at an empty value: a blank optional field passes. */
  lemma OptionalBlankPasses(name: string, raw: string)
    requires RuleFor(name).None? || !RuleFor(name).value.required
    requires Blank(raw)
    ensures ValidateField(name, raw) == Pass
  {
  }

  /**
   * A first or last name holding a character outside the name class fails on
   * the pattern, whatever its length.
   */
  lemma NameWithForeignCharFails(name: string, raw: string, i: nat)
    requires name == "firstName" || name == "lastName"
    requires i < |Trim(raw)| && !IsNameChar(Trim(raw)[i])
    ensures ValidateField(name, raw) == Fail(PatternMismatch, Some(RuleFor(name).value.messages[PatternMismatch]))
  {
    var v := Trim(raw);
    var rule := if name == "firstName" then FirstNameRule else LastNameRule;
    assert RuleFor(name) == Some(rule);
    assert !Matches(rule.pattern.value, v) by {
      assert !NamePattern(v);
    }
    assert Check(rule, v) == Fail(PatternMismatch, Some(rule.messages[PatternMismatch]));
  }

  /** Surrounding whitespace never changes a verdict. */
  lemma ValidateIgnoresPadding(name: string, raw: string)
    ensures ValidateField(name, Trim(raw)) == ValidateField(name, raw)
  {
    TrimIdempotent(raw);
  }

  /** A value with no whitespace at either end is checked as it stands. */
  lemma ValidateTight(name: string, rule: Rule, s: string)
    requires RuleFor(name) == Some(rule) && Tight(s)
    ensures ValidateField(name, s) == Check(rule, s)
  {
    TrimTight(s);
  }

  /** The name rules pass exactly the non-empty name-character strings of 2 to 50 units. */
  lemma NameRuleBounds(rule: Rule, s: string)
    requires rule == FirstNameRule || rule == LastNameRule
    ensures Check(rule, s) == Pass <==> NamePattern(s) && 2 <= Utf16Length(s) <= 50
  {
    CheckPasses(rule, s);
  }

  /** The message rule passes exactly the strings of 10 to 1000 units. */
  lemma MessageRuleBounds(s: string)
    ensures Check(MessageRule, s) == Pass <==> 10 <= Utf16Length(s) <= 1000
  {
    assert s == [] ==> Utf16Length(s) == 0;
    CheckPasses(MessageRule, s);
  }

  /**
   * A first or last name with no surrounding whitespace passes exactly when
   * it is made of name characters and is 2 to 50 UTF-16 units long.
   */
  lemma NameBounds(name: string, s: string)
    requires name == "firstName" || name == "lastName"
    requires Tight(s)
    ensures ValidateField(name, s) == Pass <==> NamePattern(s) && 2 <= Utf16Length(s) <= 50
  {
    var rule := if name == "firstName" then FirstNameRule else LastNameRule;
    assert RuleFor(name) == Some(rule);
    ValidateTight(name, rule, s);
    NameRuleBounds(rule, s);
  }

  /**
   * Every address of the form `a@b.c`, each part a non-empty run of
   * non-blank characters other than `@`, is a valid email.
   */
  lemma EmailAddressPasses(a: string, b: string, c: string)
    requires EmailRun(a) && EmailRun(b) && EmailRun(c)
    ensures ValidateField("email", a + "@" + b + "." + c) == Pass
  {
    var s := a + "@" + b + "." + c;
    assert Matches(EmailAddress, s) by { EmailFromParts(a, b, c); }
    assert Tight(s) by {
      assert s[0] == a[0] && s[|s| - 1] == c[|c| - 1];
    }
    assert RuleFor("email") == Some(EmailRule);
    assert Check(EmailRule, s) == Pass;
    ValidateTight("email", EmailRule, s);
  }

  /**
   * The subject and the privacy checkbox are only required: each passes
   * exactly when its value is not blank.
   */
  lemma RequiredOnlyBounds(name: string, raw: string)
    requires name == "subject" || name == "privacy"
    ensures ValidateField(name, raw) == Pass <==> !Blank(raw)
  {
    var rule := if name == "subject" then SubjectRule else PrivacyRule;
    assert RuleFor(name) == Some(rule);
    CheckPasses(rule, Trim(raw));
  }

  /**
   * A message with no surrounding whitespace passes exactly when its
   * JavaScript length is between 10 and 1000.
   */
  lemma MessageBounds(s: string)
    requires Tight(s)
    ensures ValidateField("message", s) == Pass <==> 10 <= Utf16Length(s) <= 1000
  {
    assert RuleFor("message") == Some(MessageRule);
    ValidateTight("message", MessageRule, s);
    MessageRuleBounds(s);
  }

  /**
   * A phone number with no surrounding whitespace passes exactly when it is
   * empty (the field is optional) or matches the phone pattern.
   */
  lemma PhoneBounds(s: string)
    requires Tight(s)
    ensures ValidateField("phone", s) == Pass <==> s == [] || PhonePattern(s)
  {
    assert RuleFor("phone") == Some(PhoneRule);
    ValidateTight("phone", PhoneRule, s);
    CheckPasses(PhoneRule, s);
  }

  /** A company name with no surrounding whitespace passes exactly when it is at most 100 units long. */
  lemma CompanyBounds(s: string)
    requires Tight(s)
    ensures ValidateField("company", s) == Pass <==> Utf16Length(s) <= 100
  {
    assert RuleFor("company") == Some(CompanyRule);
    ValidateTight("company", CompanyRule, s);
    CheckPasses(CompanyRule, s);
  }

  /** A one-letter first name matches the pattern and then fails the minimum length. */
  lemma ShortFirstNameExample()
    ensures ValidateField("firstName", "A") == Fail(TooShort, Some(FirstNameTooShort))
  {
    assert RuleFor("firstName") == Some(FirstNameRule);
    assert Check(FirstNameRule, "A") == Fail(TooShort, Some(FirstNameTooShort)) by {
      assert NamePattern("A");
    }
    ValidateTight("firstName", FirstNameRule, "A");
  }

  /** A non-empty value without an `@` fails the email pattern, and says so. */
  lemma EmailWithoutAtFails(s: string)
    requires Tight(s) && s != []
    requires forall i :: 0 <= i < |s| ==> s[i] != '@'
    ensures ValidateField("email", s) == Fail(PatternMismatch, Some(EmailInvalid))
  {
    assert RuleFor("email") == Some(EmailRule);
    assert Check(EmailRule, s) == Fail(PatternMismatch, Some(EmailInvalid)) by {
      assert !EmailPattern(s);
    }
    ValidateTight("email", EmailRule, s);
  }

  /**
   * The field marker of `updateFieldState`: none for a blank value, otherwise
   * success or error after the verdict.
   */
  function FieldMarker(raw: string, valid: bool): (m: Marker)
    ensures m == Unmarked <==> Blank(raw)
    ensures m == MarkedSuccess <==> !Blank(raw) && valid
  {
    if Trim(raw) == [] then Unmarked else if valid then MarkedSuccess else MarkedError
  }
}
