/** Numbers as text: the digits Rust's `Display` and `{:x}` write, and what `parse` accepts. */
module Numerals {
  import opened Wrappers

  type Base = b: nat | b == 10 || b == 16 witness 10

  function DigitChar(d: nat): char
    requires d < 16
  {
    if d < 10 then ('0' as int + d) as char else ('a' as int + (d - 10)) as char
  }

  function DigitValue(c: char): Option<nat> {
    if '0' <= c <= '9' then Some(c as int - '0' as int)
    else if 'a' <= c <= 'f' then Some(c as int - 'a' as int + 10)
    else None
  }

  predicate IsDigit(c: char, base: Base) {
    DigitValue(c).Some? && DigitValue(c).value < base
  }

  lemma DigitsAreRead(d: nat, base: Base)
    requires d < base
    ensures IsDigit(DigitChar(d), base) && DigitValue(DigitChar(d)) == Some(d)
  {
  }

  function Digits(n: nat, base: Base): (text: string)
    ensures text != "" && forall c | c in text :: IsDigit(c, base)
  {
    DigitsAreRead(n % base, base);
    (if n < base then "" else Digits(n / base, base)) + [DigitChar(n % base)]
  }

  function ValueOf(text: string, base: Base): nat
    requires forall c | c in text :: IsDigit(c, base)
  {
    if text == "" then 0
    else
      assert IsDigit(text[|text| - 1], base);
      base * ValueOf(text[..|text| - 1], base) + DigitValue(text[|text| - 1]).value
  }

  lemma {:induction false} DigitsRoundTrip(n: nat, base: Base)
    ensures ValueOf(Digits(n, base), base) == n
  {
    var text := Digits(n, base);
    DigitsAreRead(n % base, base);
    if n < base {
      assert text[..|text| - 1] == "";
    } else {
      assert text[..|text| - 1] == Digits(n / base, base);
      DigitsRoundTrip(n / base, base);
    }
  }

  /** Different numbers are spelled differently. */
  lemma DigitsAreInjective(m: nat, n: nat, base: Base)
    requires Digits(m, base) == Digits(n, base)
    ensures m == n
  {
    DigitsRoundTrip(m, base);
    DigitsRoundTrip(n, base);
  }

  /** Rust's unsigned `parse`: one `+` is allowed in front, and nothing past the type's range. */
  function ParseUnsigned(text: string, limit: nat): Option<nat> {
    var digits := if |text| > 1 && text[0] == '+' then text[1..] else text;
    if digits != "" && (forall c | c in digits :: IsDigit(c, 10)) && ValueOf(digits, 10) < limit
    then Some(ValueOf(digits, 10)) else None
  }

  lemma ParseReadsDigits(n: nat, limit: nat)
    requires n < limit
    ensures ParseUnsigned(Digits(n, 10), limit) == Some(n)
  {
    DigitsRoundTrip(n, 10);
    var text := Digits(n, 10);
    assert text[0] in text;
  }

  /** As `Display` writes a number: no sign, and no zero in front of anything. */
  predicate Plain(text: string) {
    text != "" && text[0] != '+' && (text[0] == '0' ==> |text| == 1)
  }

  lemma {:induction false} DigitsArePlain(n: nat)
    ensures Plain(Digits(n, 10)) && (Digits(n, 10)[0] == '0' ==> n == 0)
  {
    DigitsAreRead(n % 10, 10);
    if n >= 10 {
      DigitsArePlain(n / 10);
      assert Digits(n, 10)[0] == Digits(n / 10, 10)[0];
    } else {
      assert Digits(n, 10) == [DigitChar(n)];
      if DigitChar(n) == '0' { assert DigitValue('0') == Some(n); }
    }
  }

  lemma DigitIsSpelled(c: char, base: Base)
    requires IsDigit(c, base)
    ensures DigitChar(DigitValue(c).value) == c
  {
  }

  lemma OneMoreDigit(front: nat, d: nat)
    requires d < 10
    ensures Digits(10 * front + d, 10) == (if front == 0 then "" else Digits(front, 10)) + [DigitChar(d)]
  {
    assert (10 * front + d) / 10 == front && (10 * front + d) % 10 == d;
  }

  predicate AllDigits(text: string) {
    forall c | c in text :: IsDigit(c, 10)
  }

  lemma ValueOfMore(front: string, last: char)
    requires AllDigits(front) && IsDigit(last, 10)
    ensures AllDigits(front + [last])
    ensures ValueOf(front + [last], 10) == 10 * ValueOf(front, 10) + DigitValue(last).value
  {
    assert (front + [last])[..|front|] == front;
  }

  lemma SpelledOneMore(value: nat, front: string, last: char)
    requires IsDigit(last, 10) && (if front == "" then value == 0 else Digits(value, 10) == front && value > 0)
    ensures Digits(10 * value + DigitValue(last).value, 10) == front + [last]
  {
    DigitIsSpelled(last, 10);
    OneMoreDigit(value, DigitValue(last).value);
  }

  lemma PlainOneMore(front: string, last: char)
    requires AllDigits(front) && IsDigit(last, 10)
    requires front != "" ==> Digits(ValueOf(front, 10), 10) == front && ValueOf(front, 10) > 0
    ensures AllDigits(front + [last]) && Digits(ValueOf(front + [last], 10), 10) == front + [last]
    ensures front != "" || last != '0' ==> ValueOf(front + [last], 10) > 0
  {
    PlainDigit(last);
    SpelledOneMore(ValueOf(front, 10), front, last);
    ValueOfMore(front, last);
  }

  lemma {:induction false} PlainIsDigits(text: string)
    requires Plain(text) && AllDigits(text)
    ensures Digits(ValueOf(text, 10), 10) == text && (text[0] != '0' ==> ValueOf(text, 10) > 0)
    decreases |text|
  {
    var front, last := text[..|text| - 1], text[|text| - 1];
    assert AllDigits(front) && IsDigit(last, 10);
    assert text == front + [last];
    if front != "" { PlainIsDigits(front); }
    PlainOneMore(front, last);
  }

  lemma PlainDigit(c: char)
    requires IsDigit(c, 10)
    ensures ValueOf("", 10) == 0 && (c != '0' ==> DigitValue(c).value > 0)
  {
  }

  /** Of everything `parse` accepts, only the plain numerals are what writing the number gives. */
  lemma ParsedIsSpelledIffPlain(text: string, limit: nat)
    requires ParseUnsigned(text, limit).Some?
    ensures Digits(ParseUnsigned(text, limit).value, 10) == text <==> Plain(text)
  {
    DigitsArePlain(ParseUnsigned(text, limit).value);
    if Plain(text) { PlainIsDigits(text); }
  }

  /** The text before and after the first `mark`. */
  function SplitOnce(text: string, mark: char): Option<(string, string)>
    decreases |text|
  {
    if text == "" then None
    else if text[0] == mark then Some(("", text[1..]))
    else
      var rest := SplitOnce(text[1..], mark);
      if rest.None? then None else Some(([text[0]] + rest.value.0, rest.value.1))
  }

  lemma {:induction false} SplitOnceFinds(before: string, mark: char, after: string)
    requires mark !in before
    ensures SplitOnce(before + [mark] + after, mark) == Some((before, after))
    decreases |before|
  {
    var text := before + [mark] + after;
    if before == "" {
      assert text[1..] == after;
    } else {
      assert text[0] == before[0] && before[0] in before;
      assert text[1..] == before[1..] + [mark] + after;
      SplitOnceFinds(before[1..], mark, after);
      assert [before[0]] + before[1..] == before;
    }
  }

  lemma {:induction false} SplitOnceJoins(text: string, mark: char)
    requires SplitOnce(text, mark).Some?
    ensures var (before, after) := SplitOnce(text, mark).value; mark !in before && text == before + [mark] + after
    decreases |text|
  {
    if text[0] == mark {
      assert text == "" + [mark] + text[1..];
    } else {
      SplitOnceJoins(text[1..], mark);
      var (before, after) := SplitOnce(text[1..], mark).value;
      assert text == [text[0]] + text[1..];
      assert [text[0]] + (before + [mark] + after) == ([text[0]] + before) + [mark] + after;
    }
  }
}
