/**
 * The validated fields of a contact: `Name`, `Phone` and `Birthday`
 * (main.py:15-49). A field is built only from text its rule accepts; the
 * constructors raise ValueError otherwise, so a stored field always satisfies
 * its rule. The subset types below carry that invariant.
 */
module Fields {
  import opened Text
  import opened Calendar
  import opened Wrappers

  /** `Name.validate`: because of the `or`, the names it refuses are exactly the all-digit strings of one or two characters; the empty name passes. */
  predicate NameValid(value: string): (ok: bool)
    ensures !ok <==> (|value| == 1 || |value| == 2) && forall i :: 0 <= i < |value| ==> IsDigit(value[i])
  {
    |value| > 2 || !IsDigits(value)
  }

  type NameText = s: string | NameValid(s) witness ""

  /** Python's `value[1:]`. */
  function Tail(value: string): string {
    if value == [] then [] else value[1..]
  }

  /**
   * `Phone.validate`: the tail after the first character has at least ten
   * characters, and either the value starts with `+` or the tail is not all
   * digits. Said without `isdigit`: at least eleven characters, and a `+` in
   * front or some non-digit after the first character.
   */
  predicate PhoneValid(value: string): (ok: bool)
    ensures ok <==> |value| >= 11 && (value[0] == '+' || exists i :: 1 <= i < |value| && !IsDigit(value[i]))
  {
    TailDigits(value);
    && ((|value| > 0 && value[0] == '+') || !IsDigits(Tail(value)))
    && |Tail(value)| >= 10
  }

  /** `value[1:].isdigit()` in terms of the characters of `value`. */
  lemma TailDigits(value: string)
    ensures IsDigits(Tail(value)) <==> |value| >= 2 && forall i :: 1 <= i < |value| ==> IsDigit(value[i])
  {
    if |value| >= 2 && !IsDigits(Tail(value)) {
      var k :| 0 <= k < |Tail(value)| && !IsDigit(Tail(value)[k]);
      assert !IsDigit(value[k + 1]);
    }
  }

  type PhoneText = s: string | PhoneValid(s) witness "+0000000000"

  lemma FieldExamples()
    ensures NameValid("") && NameValid("007") && NameValid("a1") && !NameValid("12") && !NameValid("7")
    ensures PhoneValid("+15551234567")
    ensures !PhoneValid("15551234567")
    ensures PhoneValid("5551234567x")
    ensures !PhoneValid("+555123456")
  {
    assert !IsDigit("a1"[0]);
    assert IsDigits(Tail("15551234567"));
    assert !IsDigits(Tail("5551234567x")) by { assert !IsDigit(Tail("5551234567x")[9]); }
  }

  // ----- Birthday: text in the fixed form DD.MM.YYYY -----

  function DigitValue(c: char): nat
    requires IsDigit(c)
  {
    c as int - '0' as int
  }

  function DigitChar(n: nat): (c: char)
    requires n < 10
    ensures IsDigit(c) && DigitValue(c) == n
  {
    ('0' as int + n) as char
  }

  /** The decimal number a string of digits spells. */
  function Number(s: string): nat
    requires forall i :: 0 <= i < |s| ==> IsDigit(s[i])
  {
    if s == [] then 0 else 10 * Number(s[..|s| - 1]) + DigitValue(s[|s| - 1])
  }

  /** `n` written with exactly `width` digits, zero-padded (`%02d`, `%04d`). */
  function Padded(n: nat, width: nat): (s: string)
    ensures |s| == width
    ensures forall i :: 0 <= i < |s| ==> IsDigit(s[i])
  {
    if width == 0 then [] else Padded(n / 10, width - 1) + [DigitChar(n % 10)]
  }

  function Power10(k: nat): nat {
    if k == 0 then 1 else 10 * Power10(k - 1)
  }

  /** A date written as `strftime("%d.%m.%Y")` writes it. */
  function RenderDate(d: CalendarDate): (s: string)
    ensures |s| == 10
    ensures Shaped(s)
  {
    Padded(d.day, 2) + "." + Padded(d.month, 2) + "." + Padded(d.year, 4)
  }

  /** Text laid out as DD.MM.YYYY: digits everywhere except the two dots. */
  predicate Shaped(s: string) {
    && |s| == 10
    && s[2] == '.' && s[5] == '.'
    && (forall i :: 0 <= i < 2 ==> IsDigit(s[i]))
    && (forall i :: 3 <= i < 5 ==> IsDigit(s[i]))
    && (forall i :: 6 <= i < 10 ==> IsDigit(s[i]))
  }

  /** `Birthday(value)`: `strptime(value, "%d.%m.%Y")`; None stands for the ValueError raised for any other text or a day that does not exist. */
  function ParseDate(s: string): (r: Option<CalendarDate>)
    ensures r.Some? ==> RenderDate(r.value) == s
  {
    if !Shaped(s) then None
    else
      var d := Date(Number(s[0..2]), Number(s[3..5]), Number(s[6..10]));
      if ValidDate(d) then
        ShapedRendered(s);
        Some(d)
      else None
  }

  /** Reading back a zero-padded number gives the number. */
  lemma {:induction false} NumberPadded(n: nat, width: nat)
    requires n < Power10(width)
    ensures Number(Padded(n, width)) == n
  {
    if width > 0 {
      var s := Padded(n, width);
      assert s[..|s| - 1] == Padded(n / 10, width - 1);
      NumberPadded(n / 10, width - 1);
    }
  }

  /** Padding the number a digit string spells gives the string back. */
  lemma {:induction false} PaddedNumber(s: string)
    requires forall i :: 0 <= i < |s| ==> IsDigit(s[i])
    ensures Number(s) < Power10(|s|)
    ensures Padded(Number(s), |s|) == s
  {
    if s != [] {
      var init := s[..|s| - 1];
      PaddedNumber(init);
      var n := Number(s);
      assert n / 10 == Number(init) && n % 10 == DigitValue(s[|s| - 1]);
      assert s == init + [s[|s| - 1]];
    }
  }

  /** Rendering a date and parsing the text gives the date back. */
  lemma ParseRender(d: CalendarDate)
    ensures ParseDate(RenderDate(d)) == Some(d)
  {
    var s := RenderDate(d);
    var dd, mm, yy := Padded(d.day, 2), Padded(d.month, 2), Padded(d.year, 4);
    assert s[0..2] == dd && s[3..5] == mm && s[6..10] == yy;
    assert Power10(2) == 100 && Power10(4) == 10000;
    NumberPadded(d.day, 2);
    NumberPadded(d.month, 2);
    NumberPadded(d.year, 4);
  }

  /** A rendered date at the end of a longer text reads back from its last ten characters. */
  lemma RenderedAtEnd(front: string, d: CalendarDate)
    ensures |front + RenderDate(d)| >= 10
    ensures ParseDate((front + RenderDate(d))[|front + RenderDate(d)| - 10..]) == Some(d)
  {
    var s := front + RenderDate(d);
    assert s[|front|..] == RenderDate(d);
    ParseRender(d);
  }

  /** Padding the three fields of a DD.MM.YYYY text back to their widths gives the text again. */
  lemma ShapedRendered(s: string)
    requires Shaped(s)
    ensures Padded(Number(s[0..2]), 2) + "." + Padded(Number(s[3..5]), 2) + "." + Padded(Number(s[6..10]), 4) == s
  {
    ShapedPieces(s);
    PaddedNumber(s[0..2]);
    PaddedNumber(s[3..5]);
    PaddedNumber(s[6..10]);
  }

  /** A DD.MM.YYYY text is its three digit fields joined by dots. */
  lemma ShapedPieces(s: string)
    requires Shaped(s)
    ensures s == s[0..2] + "." + s[3..5] + "." + s[6..10]
    ensures forall i :: 0 <= i < 2 ==> IsDigit(s[0..2][i]) && IsDigit(s[3..5][i])
    ensures forall i :: 0 <= i < 4 ==> IsDigit(s[6..10][i])
  {
  }

  lemma Number1(a: char)
    requires IsDigit(a)
    ensures Number([a]) == DigitValue(a)
  {
    assert [a][..0] == [];
  }

  lemma Number2(a: char, b: char)
    requires IsDigit(a) && IsDigit(b)
    ensures Number([a, b]) == 10 * DigitValue(a) + DigitValue(b)
  {
    assert [a, b][..1] == [a];
    Number1(a);
  }

  lemma Number3(a: char, b: char, c: char)
    requires IsDigit(a) && IsDigit(b) && IsDigit(c)
    ensures Number([a, b, c]) == 100 * DigitValue(a) + 10 * DigitValue(b) + DigitValue(c)
  {
    assert [a, b, c][..2] == [a, b];
    Number2(a, b);
  }

  lemma Number4(a: char, b: char, c: char, d: char)
    requires IsDigit(a) && IsDigit(b) && IsDigit(c) && IsDigit(d)
    ensures Number([a, b, c, d]) == 1000 * DigitValue(a) + 100 * DigitValue(b) + 10 * DigitValue(c) + DigitValue(d)
  {
    assert [a, b, c, d][..3] == [a, b, c];
    Number3(a, b, c);
  }

  /** The fields of a DD.MM.YYYY text, read digit by digit. */
  lemma ParseDigits(s: string)
    requires Shaped(s)
    ensures Number(s[0..2]) == 10 * DigitValue(s[0]) + DigitValue(s[1])
    ensures Number(s[3..5]) == 10 * DigitValue(s[3]) + DigitValue(s[4])
    ensures Number(s[6..10]) == 1000 * DigitValue(s[6]) + 100 * DigitValue(s[7]) + 10 * DigitValue(s[8]) + DigitValue(s[9])
  {
    assert s[0..2] == [s[0], s[1]];
    assert s[3..5] == [s[3], s[4]];
    assert s[6..10] == [s[6], s[7], s[8], s[9]];
    Number2(s[0], s[1]);
    Number2(s[3], s[4]);
    Number4(s[6], s[7], s[8], s[9]);
  }

  lemma ParseLeapDay()
    ensures ParseDate("29.02.2000") == Some(Date(29, 2, 2000))
  {
    var t := "29.02.2000";
    assert Shaped(t);
    ParseDigits(t);
    assert Number(t[0..2]) == 29 && Number(t[3..5]) == 2 && Number(t[6..10]) == 2000;
    assert ValidDate(Date(29, 2, 2000));
  }

  /** A day the month does not have is refused: there is no 31 April. */
  lemma ParseRejectsMissingDay()
    ensures ParseDate("31.04.2020").None?
  {
    var t := "31.04.2020";
    assert Shaped(t);
    ParseDigits(t);
    assert Number(t[0..2]) == 31 && Number(t[3..5]) == 4;
    assert !ValidDate(Date(31, 4, Number(t[6..10])));
  }

  /** 29 February is refused outside leap years. */
  lemma ParseRejectsLeapDay()
    ensures ParseDate("29.02.2023").None?
  {
    var u := "29.02.2023";
    assert Shaped(u);
    ParseDigits(u);
    assert Number(u[0..2]) == 29 && Number(u[3..5]) == 2 && Number(u[6..10]) == 2023;
    assert !ValidDate(Date(29, 2, 2023));
  }

  /** Only the DD.MM.YYYY layout is read; an ISO-ordered date is refused. */
  lemma ParseRejectsLayout()
    ensures ParseDate("2000.02.29").None?
  {
    assert "2000.02.29"[2] == '0';
  }
}
