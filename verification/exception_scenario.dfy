/**
 * The placeholder scenario returned when a scenario file cannot be parsed
 * (`org.test4j.spec.scenario.ExceptionJSpecScenario`): it carries the parse
 * failure, fails whenever it is run, and prints as `NN - message`.
 */
module ExceptionScenario {
  import opened Wrappers

  /** Java's `int`. */
  type Int32 = x: int | -0x8000_0000 <= x < 0x8000_0000

  /** A `RuntimeException`: its message and a description of the wrapped cause (`None` for `null`). */
  datatype RuntimeError = RuntimeError(message: string, cause: Option<string>)

  /** The message every scenario of this kind carries. */
  const ParseErrorMessage: string := "parse scenario error"

  /** One step of a scenario; what a step holds is not part of this model. */
  datatype Step = Step(description: string)

  /** The scenario: its stored exception and its position in the scenario list. */
  datatype Scenario = Scenario(exception: RuntimeError, index: Int32)

  /** The private constructor: wraps `cause` with the fixed message; the index starts at 0. */
  function Create(cause: Option<string>): (s: Scenario)
    ensures GetName(s) == ParseErrorMessage
    ensures s.exception.cause == cause
    ensures GetIndex(s) == 0
  {
    Scenario(RuntimeError(ParseErrorMessage, cause), 0)
  }

  /** `validate()`: always throws the stored exception. */
  function Validate(s: Scenario): (r: Result<(), RuntimeError>)
    ensures r.Failure? && r.error == s.exception
  {
    Failure(s.exception)
  }

  /** `getSteps()`: always throws the stored exception, never yields steps. */
  function GetSteps(s: Scenario): (r: Result<seq<Step>, RuntimeError>)
    ensures r.Failure? && r.error == s.exception
  {
    Failure(s.exception)
  }

  /**
   * `getName()`: the stored exception's message. (The class-name branch for a
   * `null` exception cannot be taken: the constructor always sets it.)
   */
  function GetName(s: Scenario): (r: string)
    ensures r == Validate(s).error.message
  {
    s.exception.message
  }

  /** `getIndex()`: the index last set, so that setting it again changes nothing. */
  function GetIndex(s: Scenario): (r: Int32)
    ensures SetIndex(s, r) == s
  {
    s.index
  }

  /** `setIndex(i)`: replaces the index and nothing else. */
  function SetIndex(s: Scenario, i: Int32): (r: Scenario)
    ensures r.index == i
    ensures r.exception == s.exception
    ensures GetName(r) == GetName(s)
  {
    s.(index := i)
  }

  /** Setting the index twice keeps only the second; setting the current index changes nothing. */
  lemma SetIndexLaws(s: Scenario, i: Int32, j: Int32)
    ensures SetIndex(SetIndex(s, i), j) == SetIndex(s, j)
    ensures SetIndex(s, GetIndex(s)) == s
  {
  }

  /** Whatever its index, a scenario fails to run and to list its steps with the same exception. */
  lemma FailuresAgree(s: Scenario, i: Int32)
    ensures Validate(SetIndex(s, i)) == Validate(s)
    ensures GetSteps(s).error == Validate(s).error
    ensures Validate(s).error.message == GetName(s)
  {
  }

  // ---------------------------------------------------------------------------
  // Decimal rendering of `%02d`

  predicate IsDigit(c: char)
  {
    '0' <= c <= '9'
  }

  function DigitChar(d: int): (c: char)
    requires 0 <= d < 10
    ensures IsDigit(c)
  {
    (d + '0' as int) as char
  }

  function DigitValue(c: char): (d: int)
    requires IsDigit(c)
    ensures 0 <= d < 10 && DigitChar(d) == c
  {
    c as int - '0' as int
  }

  /** The shortest decimal numeral of `n`. */
  function NatDigits(n: nat): (s: string)
    ensures 1 <= |s|
    ensures forall k :: 0 <= k < |s| ==> IsDigit(s[k])
    ensures n < 10 <==> |s| == 1
    ensures s[0] == '0' <==> n == 0
    decreases n
  {
    if n < 10 then [DigitChar(n)] else NatDigits(n / 10) + [DigitChar(n % 10)]
  }

  /** The value of a numeral, leading zeros allowed. */
  function NumeralValue(s: string): nat
    requires forall k :: 0 <= k < |s| ==> IsDigit(s[k])
    decreases |s|
  {
    if |s| == 0 then 0 else NumeralValue(s[..|s| - 1]) * 10 + DigitValue(s[|s| - 1])
  }

  lemma {:induction false} NatDigitsValue(n: nat)
    ensures NumeralValue(NatDigits(n)) == n
    decreases n
  {
    if n >= 10 {
      NatDigitsValue(n / 10);
      var s := NatDigits(n);
      assert s[..|s| - 1] == NatDigits(n / 10);
    }
  }

  /** Leading zeros do not change a numeral's value. */
  lemma {:induction false} LeadingZeroValue(s: string)
    requires forall k :: 0 <= k < |s| ==> IsDigit(s[k])
    ensures NumeralValue("0" + s) == NumeralValue(s)
    decreases |s|
  {
    if |s| > 0 {
      var t := "0" + s;
      assert t[..|t| - 1] == "0" + s[..|s| - 1];
      LeadingZeroValue(s[..|s| - 1]);
    } else {
      assert ("0" + s)[..0] == [];
    }
  }

  /**
   * `String.format("%02d", i)`: the decimal numeral of `i`, with a `-` sign
   * when negative, zero-padded after the sign to at least two characters.
   */
  function FormatIndex(i: Int32): (r: string)
    ensures |r| >= 2
    ensures ' ' !in r
    ensures ParseIndex(r) == Some(i as int)
    ensures 0 <= i < 10 ==> |r| == 2
    ensures i >= 10 ==> r[0] != '0'
    ensures i < 0 ==> r[0] == '-' && r[1] != '0'
    ensures r[0] == '-' <==> i < 0
  {
    if i >= 0 then
      var digits := NatDigits(i);
      NatDigitsValue(i);
      if i < 10 then
        LeadingZeroValue(digits);
        "0" + digits
      else digits
    else
      var magnitude: nat := -(i as int);
      NatDigitsValue(magnitude);
      "-" + NatDigits(magnitude)
  }

  /** Reads an optionally signed numeral back; `None` when `s` is not one. */
  function ParseIndex(s: string): Option<int>
  {
    if |s| > 0 && s[0] == '-' then
      var body := s[1..];
      if |body| > 0 && forall k :: 0 <= k < |body| ==> IsDigit(body[k])
      then var v: int := 0 - NumeralValue(body) as int; Some(v) else None
    else if |s| > 0 && forall k :: 0 <= k < |s| ==> IsDigit(s[k])
    then var v: int := NumeralValue(s); Some(v)
    else None
  }

  lemma FormatIndexExamples()
    ensures FormatIndex(0) == "00"
    ensures FormatIndex(7) == "07"
    ensures FormatIndex(42) == "42"
    ensures FormatIndex(-3) == "-3"
  {
    assert NatDigits(42) == NatDigits(4) + [DigitChar(2)];
  }

  // ---------------------------------------------------------------------------
  // Whitespace replacement of `replaceAll("\\s", " ")`

  /** The characters of the regular-expression class `\s`: space, tab, line feed, vertical tab, form feed, carriage return. */
  predicate IsJavaWhitespace(c: char)
  {
    c == ' ' || c == '\t' || c == '\n' || c == '\U{000B}' || c == '\U{000C}' || c == '\r'
  }

  /** Replaces each whitespace character by one space, leaving the rest in place. */
  function ReplaceWhitespace(s: string): (r: string)
    ensures |r| == |s|
    ensures forall k :: 0 <= k < |s| ==> r[k] == (if IsJavaWhitespace(s[k]) then ' ' else s[k])
    ensures forall k :: 0 <= k < |r| && IsJavaWhitespace(r[k]) ==> r[k] == ' '
    decreases |s|
  {
    if |s| == 0 then []
    else [if IsJavaWhitespace(s[0]) then ' ' else s[0]] + ReplaceWhitespace(s[1..])
  }

  /** Replacing twice is replacing once; a message with only plain spaces is left alone. */
  lemma ReplaceWhitespaceIdempotent(s: string)
    ensures ReplaceWhitespace(ReplaceWhitespace(s)) == ReplaceWhitespace(s)
    ensures (forall k :: 0 <= k < |s| && IsJavaWhitespace(s[k]) ==> s[k] == ' ') ==> ReplaceWhitespace(s) == s
  {
  }

  // ---------------------------------------------------------------------------
  // toString

  /** `toString()`: `"%02d - %s"` of the index and the message with whitespace flattened. */
  function ToString(s: Scenario): (r: string)
    ensures ParseDisplay(r) == Some((s.index as int, ReplaceWhitespace(s.exception.message)))
    ensures r[..FirstSpace(r)] == FormatIndex(s.index)
  {
    var head := FormatIndex(s.index);
    var r := head + " - " + ReplaceWhitespace(s.exception.message);
    DisplaySplitsAtFirstSpace(head, ReplaceWhitespace(s.exception.message));
    r
  }

  /** The position of the first space in `s`, or `|s|` when there is none. */
  function FirstSpace(s: string): (p: nat)
    ensures p <= |s|
    ensures p < |s| ==> s[p] == ' '
    ensures forall k :: 0 <= k < p ==> s[k] != ' '
    decreases |s|
  {
    if |s| == 0 then 0 else if s[0] == ' ' then 0 else 1 + FirstSpace(s[1..])
  }

  /** Splits a rendered scenario back into its index and its message part. */
  function ParseDisplay(text: string): Option<(int, string)>
  {
    var p := FirstSpace(text);
    var rest := text[p..];
    if |rest| >= 3 && rest[..3] == " - " then
      match ParseIndex(text[..p])
      case Some(i) => Some((i, rest[3..]))
      case None => None
    else None
  }

  lemma DisplaySplitsAtFirstSpace(head: string, msg: string)
    requires ' ' !in head && |head| >= 2
    ensures FirstSpace(head + " - " + msg) == |head|
    ensures ParseDisplay(head + " - " + msg) ==
              (match ParseIndex(head) case Some(i) => Some((i, msg)) case None => None)
  {
    var text := head + " - " + msg;
    var p := FirstSpace(text);
    assert text[|head|] == ' ';
    assert forall k :: 0 <= k < |head| ==> text[k] == head[k];
    assert p == |head|;
    assert text[..p] == head;
    assert text[p..][..3] == " - ";
    assert text[p..][3..] == msg;
  }

  /** A freshly created scenario at index `i` prints as the index, ` - `, and the fixed message. */
  lemma CreatedScenarioDisplay(cause: Option<string>, i: Int32)
    ensures ToString(SetIndex(Create(cause), i)) == FormatIndex(i) + " - " + ParseErrorMessage
  {
    ParseErrorMessageIsFlat();
    ReplaceWhitespaceIdempotent(ParseErrorMessage);
  }

  /** The fixed message has no whitespace other than plain spaces. */
  lemma ParseErrorMessageIsFlat()
    ensures forall k :: 0 <= k < |ParseErrorMessage| && IsJavaWhitespace(ParseErrorMessage[k]) ==> ParseErrorMessage[k] == ' '
  {
  }
}
