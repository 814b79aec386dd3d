/**
 * The arithmetic captcha: a question built from two operands and an operator
 * (the source draws them at random), the answer stored with it, and the test
 * that the user's typed answer passes.
 */
module Captcha {
  import opened Wrappers
  import opened JsText

  datatype Op = Plus | Minus | Times

  /** The question as shown (left operand, operator, right operand) and its stored answer. */
  datatype Challenge = Challenge(left: nat, op: Op, right: nat, answer: int)

  function Symbol(op: Op): string {
    match op
    case Plus => "+"
    case Minus => "-"
    case Times => "×"
  }

  /** What a reader of the question computes from it. */
  function Apply(left: int, op: Op, right: int): int {
    match op
    case Plus => left + right
    case Minus => left - right
    case Times => left * right
  }

  /**
   * `generateCaptcha` for operands in 1..10: addition and multiplication show
   * the operands as drawn, subtraction shows the larger one first, so the
   * answer is never negative. The stored answer is what the shown question
   * evaluates to, and lies in 0..100.
   */
  function MakeChallenge(num1: int, num2: int, op: Op): (c: Challenge)
    requires 1 <= num1 <= 10 && 1 <= num2 <= 10
    ensures c.op == op && c.answer == Apply(c.left, c.op, c.right)
    ensures 0 <= c.answer <= 100
    ensures op == Minus ==> c.left >= c.right && ((c.left, c.right) == (num1, num2) || (c.left, c.right) == (num2, num1))
    ensures op != Minus ==> c.left == num1 && c.right == num2
  {
    match op
    case Plus => Challenge(num1, Plus, num2, num1 + num2)
    case Minus =>
      var hi := if num1 >= num2 then num1 else num2;
      var lo := if num1 >= num2 then num2 else num1;
      Challenge(hi, Minus, lo, hi - lo)
    case Times =>
      assert num1 * num2 <= 10 * num2 <= 100;
      Challenge(num1, Times, num2, num1 * num2)
  }

  /** The text of the question element. */
  function QuestionText(c: Challenge): string {
    "Combien font " + Decimal(c.left) + " " + Symbol(c.op) + " " + Decimal(c.right) + " ?"
  }

  /** The captcha test of `validateForm`: a non-blank answer whose `parseInt` equals the stored answer. */
  predicate CaptchaAccepted(input: string, answer: int) {
    var v := Trim(input);
    v != [] && ParseInt(v) == Some(answer)
  }

  /**
   * The decimal text of the answer, with any whitespace around it, passes the
   * test: every challenge can be answered.
   */
  lemma DecimalAnswerAccepted(pre: string, n: nat, post: string)
    requires Blank(pre) && Blank(post)
    ensures CaptchaAccepted(pre + Decimal(n) + post, n)
  {
    var d := Decimal(n);
    assert Tight(d) by {
      assert !IsJsWhitespace(d[0]) && !IsJsWhitespace(d[|d| - 1]);
    }
    TrimPadded(pre, d, post);
    ParseIntDecimal(n, []);
    assert d + [] == d;
  }

  /** The correct answer to a generated challenge passes the test. */
  lemma ChallengeAnswerable(num1: int, num2: int, op: Op)
    requires 1 <= num1 <= 10 && 1 <= num2 <= 10
    ensures CaptchaAccepted(Decimal(MakeChallenge(num1, num2, op).answer), MakeChallenge(num1, num2, op).answer)
  {
    var c := MakeChallenge(num1, num2, op);
    var n: nat := c.answer;
    DecimalAnswerAccepted([], n, []);
    assert [] + Decimal(n) + [] == Decimal(n);
  }

  /** An empty or whitespace-only answer never passes, whatever the stored answer. */
  lemma BlankAnswerRejected(input: string, answer: int)
    requires Blank(input)
    ensures !CaptchaAccepted(input, answer)
  {
  }

  /** An answer followed by other text passes: `parseInt` reads only the leading number. */
  lemma TrailingTextAccepted()
    ensures CaptchaAccepted("7 pommes", 7)
  {
    assert Trim("7 pommes") == "7 pommes" by { TrimPadded([], "7 pommes", []); }
    assert "7 pommes" == Decimal(7) + " pommes";
    ParseIntDecimal(7, " pommes");
  }

  /** A leading plus sign is read as the sign of the answer. */
  lemma PlusSignAccepted(n: nat)
    ensures CaptchaAccepted(['+'] + Decimal(n), n)
  {
    var d := Decimal(n);
    assert Tight(['+'] + d) by {
      assert (['+'] + d)[|d|] == d[|d| - 1];
    }
    TrimTight(['+'] + d);
    ParseIntPlus(n);
  }

  /** The hexadecimal spelling of the answer passes too. */
  lemma HexAnswerAccepted()
    ensures CaptchaAccepted("0xA", 10)
  {
    var s := "0xA";
    assert s[0] == '0';
    assert Trim(s) == s by { TrimPadded([], s, []); }
    assert TrimStart(s) == s;
    assert ParseUnsigned(s) == Some(10) by {
      assert s[2..] == "A";
      assert DigitPrefix("A", 16) == "A";
      assert DigitsValue("A", 16) == 10 by {
        assert "A"[..0] == [];
      }
    }
  }

  /**
   * An answer whose trimmed text starts with neither a digit nor a sign is
   * NaN to `parseInt` and fails, whatever the stored answer.
   */
  lemma NonNumericRejected(s: string, answer: int)
    requires Trim(s) != [] && !IsDecimalDigit(Trim(s)[0]) && Trim(s)[0] != '+' && Trim(s)[0] != '-'
    ensures !CaptchaAccepted(s, answer)
  {
    var t := Trim(s);
    assert TrimStart(t) == t;
    assert DigitPrefix(t, 10) == [];
  }

  /** The answer `sept`, a number in words, fails. */
  lemma WordAnswerRejected(answer: int)
    ensures !CaptchaAccepted("sept", answer)
  {
    assert Trim("sept") == "sept" by { TrimTight("sept"); }
    NonNumericRejected("sept", answer);
  }
}
