/**
 Twelve-hour clock labels of the form "HH:MM AM": a zero-padded display hour,
 a colon, a zero-padded minute, a space and the period. A parser is given as
 the formatter's inverse, so that a label can be read back as the slot that
 produced it.
 */
module Labels {

  datatype Option<T> = None | Some(value: T)

  predicate IsDigit(c: char) {
    '0' <= c <= '9'
  }

  function Digit(d: nat): (c: char)
    requires d < 10
    ensures IsDigit(c)
  {
    ('0' as int + d) as char
  }

  function DigitValue(c: char): (d: nat)
    requires IsDigit(c)
    ensures d < 10 && Digit(d) == c
  {
    c as int - '0' as int
  }

  predicate AllDigits(s: string) {
    forall i :: 0 <= i < |s| ==> IsDigit(s[i])
  }

  /** The decimal numeral of `n`, most significant digit first, without padding. */
  function DecimalString(n: nat): (s: string)
    ensures 1 <= |s| && AllDigits(s)
    ensures n < 10 <==> |s| == 1
  {
    if n < 10 then [Digit(n)] else DecimalString(n / 10) + [Digit(n % 10)]
  }

  /** The number a digit string denotes. */
  function DigitsValue(s: string): (v: nat)
    requires AllDigits(s)
    ensures |s| <= 1 ==> v < 10
  {
    if |s| == 0 then 0 else 10 * DigitsValue(s[..|s| - 1]) + DigitValue(s[|s| - 1])
  }

  /** Reading a decimal numeral gives back the number it was written from. */
  lemma {:induction false} DecimalRoundTrip(n: nat)
    ensures DigitsValue(DecimalString(n)) == n
  {
    if n >= 10 {
      var s := DecimalString(n);
      assert s[..|s| - 1] == DecimalString(n / 10);
      DecimalRoundTrip(n / 10);
    }
  }

  /** Integer formatting with width 2 and zero fill. */
  function ZeroPad2(n: nat): (s: string)
    ensures 2 <= |s| && (n < 100 <==> |s| == 2)
  {
    if n < 10 then ['0'] + DecimalString(n) else DecimalString(n)
  }

  /** A zero-padded numeral has at least two digits, and exactly two below 100. */
  lemma ZeroPad2Digits(n: nat)
    ensures 2 <= |ZeroPad2(n)| && AllDigits(ZeroPad2(n))
    ensures n < 100 ==> ZeroPad2(n) == [Digit(n / 10), Digit(n % 10)]
  {
    if 10 <= n < 100 {
      assert DecimalString(n / 10) == [Digit(n / 10)];
    }
  }

  /** Zero padding does not change the value a numeral denotes. */
  lemma ZeroPad2RoundTrip(n: nat)
    ensures AllDigits(ZeroPad2(n)) && DigitsValue(ZeroPad2(n)) == n
  {
    ZeroPad2Digits(n);
    DecimalRoundTrip(n);
    if n < 10 {
      var s := ZeroPad2(n);
      assert s[..1] == ['0'];
    }
  }

  /** The hour shown on a 12-hour clock face. */
  function DisplayHour(hour: nat): (d: nat)
    ensures hour < 24 ==> 1 <= d <= 12 && d % 12 == hour % 12
  {
    var d := if hour <= 12 then hour else hour - 12;
    if d == 0 then 12 else d
  }

  /** "AM" before noon, "PM" from noon on. */
  function Period(hour: nat): (p: string)
    ensures |p| == 2 && p[1] == 'M'
    ensures p[0] == 'P' <==> hour >= 12
    ensures p[0] == 'A' <==> hour < 12
  {
    if hour >= 12 then "PM" else "AM"
  }

  /**
   The label of the slot (hour, minute), including the generator's special
   case that names hour 24 (midnight at the end of the day) "12 AM".
   */
  function Label(hour: nat, minute: nat): (s: string)
    ensures hour <= 24 && minute < 100 ==> |s| == 8 && s[2] == ':' && s[5] == ' ' && s[7] == 'M'
  {
    var display := if hour == 24 then 12 else DisplayHour(hour);
    var period := if hour == 24 then "AM" else Period(hour);
    ZeroPad2(display) + ":" + ZeroPad2(minute) + " " + period
  }

  /**
   A label of a time up to midnight is always the eight characters
   "DD:MM XM": the display hour and the minute as two digits each, a space,
   then 'P' exactly from noon to the hour before midnight, else 'A', then 'M'.
   */
  lemma LabelChars(hour: nat, minute: nat)
    requires hour <= 24 && minute < 60
    ensures var d := if hour == 24 then 12 else DisplayHour(hour);
            Label(hour, minute)
            == [Digit(d / 10), Digit(d % 10), ':', Digit(minute / 10), Digit(minute % 10),
                ' ', if 12 <= hour < 24 then 'P' else 'A', 'M']
  {
    ZeroPad2Digits(if hour == 24 then 12 else DisplayHour(hour));
    ZeroPad2Digits(minute);
  }

  /**
   Closing at hour 24 reads "12:00 AM", the midnight of the next day; the
   general rule alone would have called it PM.
   */
  lemma MidnightLabel()
    ensures Label(24, 0) == "12:00 AM"
    ensures Period(24) == "PM"
  {
    LabelChars(24, 0);
    assert Digit(0) == '0' && Digit(1) == '1' && Digit(2) == '2';
  }

  /** The labels of the three opening hours of the weekly table. */
  lemma OpeningLabels()
    ensures Label(10, 0) == "10:00 AM" && Label(12, 0) == "12:00 PM" && Label(14, 0) == "02:00 PM"
  {
    LabelChars(10, 0);
    LabelChars(12, 0);
    LabelChars(14, 0);
    assert Digit(0) == '0' && Digit(1) == '1' && Digit(2) == '2';
  }

  /** The labels of the last slots before 22:00 and before midnight. */
  lemma LastSlotLabels()
    ensures Label(21, 30) == "09:30 PM" && Label(23, 30) == "11:30 PM"
  {
    LabelChars(21, 30);
    LabelChars(23, 30);
    assert Digit(0) == '0' && Digit(1) == '1' && Digit(3) == '3' && Digit(9) == '9';
  }

  /** The label of the Tuesday closing hour. */
  lemma TenPmLabel()
    ensures Label(22, 0) == "10:00 PM"
  {
    LabelChars(22, 0);
    assert Digit(0) == '0' && Digit(1) == '1';
  }

  /** The two digits of a number below 100 read back as that number. */
  lemma TwoDigits(n: nat)
    requires n < 100
    ensures 10 * DigitValue(Digit(n / 10)) + DigitValue(Digit(n % 10)) == n
  {
  }

  /** Read an "HH:MM AM" label back to the 24-hour (hour, minute) it names. */
  function ParseLabel(s: string): (r: Option<(nat, nat)>)
    ensures r.Some? ==> r.value.0 < 24 && r.value.1 < 60
  {
    if |s| == 8 && IsDigit(s[0]) && IsDigit(s[1]) && s[2] == ':' && IsDigit(s[3])
       && IsDigit(s[4]) && s[5] == ' ' && (s[6] == 'A' || s[6] == 'P') && s[7] == 'M'
    then
      var d := 10 * DigitValue(s[0]) + DigitValue(s[1]);
      var m := 10 * DigitValue(s[3]) + DigitValue(s[4]);
      if 1 <= d <= 12 && m < 60 then
        var h := if s[6] == 'A' then d % 12 else d % 12 + 12;
        Some((h, m))
      else
        None
    else
      None
  }

  /** Every label of an hour before midnight parses back to its slot. */
  lemma LabelRoundTrip(hour: nat, minute: nat)
    requires hour < 24 && minute < 60
    ensures ParseLabel(Label(hour, minute)) == Some((hour, minute))
  {
    var s := Label(hour, minute);
    var d := DisplayHour(hour);
    LabelChars(hour, minute);
    TwoDigits(d);
    TwoDigits(minute);
    assert 10 * DigitValue(s[0]) + DigitValue(s[1]) == d;
    assert 10 * DigitValue(s[3]) + DigitValue(s[4]) == minute;
  }

  /** Every string the parser accepts is exactly the label of what it returns. */
  lemma ParseLabelSound(s: string)
    requires ParseLabel(s).Some?
    ensures Label(ParseLabel(s).value.0, ParseLabel(s).value.1) == s
  {
    var (h, m) := ParseLabel(s).value;
    var t := Label(h, m);
    var d := 10 * DigitValue(s[0]) + DigitValue(s[1]);
    assert d / 10 == DigitValue(s[0]) && d % 10 == DigitValue(s[1]);
    assert m / 10 == DigitValue(s[3]) && m % 10 == DigitValue(s[4]);
    assert DisplayHour(h) == d;
    LabelChars(h, m);
    forall i | 0 <= i < 8
      ensures t[i] == s[i]
    {
    }
  }

  /** Distinct slots before midnight get distinct labels. */
  lemma LabelInjective(h1: nat, m1: nat, h2: nat, m2: nat)
    requires h1 < 24 && m1 < 60 && h2 < 24 && m2 < 60
    requires Label(h1, m1) == Label(h2, m2)
    ensures h1 == h2 && m1 == m2
  {
    LabelRoundTrip(h1, m1);
    LabelRoundTrip(h2, m2);
  }
}
