/** The countdown's text: decimal digits, two-digit padding, the `HH:MM:SS`
    display and the `"<h>h <m>m <s>s"` duration of a saved session. */
module Clock {

  predicate IsDigit(c: char)
  {
    '0' <= c <= '9'
  }

  predicate AllDigits(s: string)
  {
    forall i :: 0 <= i < |s| ==> IsDigit(s[i])
  }

  function DigitChar(d: nat): (c: char)
    requires d < 10
    ensures IsDigit(c) && c as int - '0' as int == d
  {
    ('0' as int + d) as char
  }

  /** The value a string of decimal digits denotes, read left to right; the
      empty string denotes 0. */
  function DigitsValue(s: string): nat
    requires AllDigits(s)
  {
    if s == [] then 0
    else DigitsValue(s[..|s| - 1]) * 10 + (s[|s| - 1] as int - '0' as int)
  }

  /** `n.toString()` for a non-negative integer: its decimal digits, with no
      leading zero except for 0 itself. */
  function Decimal(n: nat): (r: string)
    ensures AllDigits(r) && |r| >= 1
    ensures r[0] == '0' ==> n == 0 && r == "0"
    ensures n < 10 <==> |r| == 1
    ensures n < 100 ==> |r| <= 2
  {
    if n < 10 then [DigitChar(n)]
    else Decimal(n / 10) + [DigitChar(n % 10)]
  }

  /** Reading the digits back gives the number. */
  lemma {:induction false} DecimalValue(n: nat)
    ensures DigitsValue(Decimal(n)) == n
  {
    var r := Decimal(n);
    if n < 10 {
      assert r[..0] == [];
    } else {
      DecimalValue(n / 10);
      assert r[..|r| - 1] == Decimal(n / 10);
    }
  }

  /** Different numbers have different decimal texts. */
  lemma DecimalInjective(a: nat, b: nat)
    requires Decimal(a) == Decimal(b)
    ensures a == b
  {
    DecimalValue(a);
    DecimalValue(b);
  }

  /** `padStart(2, "0")`: zeros in front up to two characters; a longer string
      is kept as it is. */
  function PadStart2(s: string): (r: string)
    ensures |s| >= 2 ==> r == s
    ensures |s| < 2 ==> r == seq(2 - |s|, _ => '0') + s
  {
    if |s| >= 2 then s
    else if |s| == 1 then ['0'] + s
    else "00"
  }

  /** A leading zero does not change the value of a digit string. */
  lemma {:induction false} LeadingZero(s: string)
    requires AllDigits(s)
    ensures AllDigits(['0'] + s) && DigitsValue(['0'] + s) == DigitsValue(s)
  {
    var z := ['0'] + s;
    if s != [] {
      LeadingZero(s[..|s| - 1]);
      assert z[..|z| - 1] == ['0'] + s[..|s| - 1];
    } else {
      assert z[..0] == [];
    }
  }

  /** Padding keeps the digits and their value. */
  lemma PadKeepsValue(s: string)
    requires AllDigits(s)
    ensures AllDigits(PadStart2(s)) && DigitsValue(PadStart2(s)) == DigitsValue(s)
  {
    if |s| == 1 {
      LeadingZero(s);
    } else if |s| == 0 {
      LeadingZero(s);
      LeadingZero(['0'] + s);
      assert PadStart2(s) == ['0'] + (['0'] + s);
    }
  }

  /** The running timer's display for `t` seconds. */
  function FormatClock(t: nat): (r: string)
    ensures |r| >= 8
  {
    PadStart2(Decimal(t / 3600)) + ":" + PadStart2(Decimal(t % 3600 / 60)) + ":" + PadStart2(Decimal(t % 60))
  }

  /** The display is shown only while there is time left. */
  function Display(timeLeft: int): (r: ClockText)
    ensures r.Shown? <==> timeLeft > 0
    ensures r.Shown? ==> |r.text| >= 8
  {
    if timeLeft > 0 then Shown(FormatClock(timeLeft)) else Hidden
  }

  datatype ClockText = Hidden | Shown(text: string)

  /** The three fields of `HH:MM:SS` as numbers. */
  function ClockFields(s: string): (r: (nat, nat, nat))
    requires |s| == 8 && AllDigits(s[0..2]) && AllDigits(s[3..5]) && AllDigits(s[6..8])
  {
    (DigitsValue(s[0..2]), DigitsValue(s[3..5]), DigitsValue(s[6..8]))
  }

  lemma PadDecimal(n: nat)
    requires n < 100
    ensures |PadStart2(Decimal(n))| == 2 && AllDigits(PadStart2(Decimal(n)))
    ensures DigitsValue(PadStart2(Decimal(n))) == n
  {
    DecimalValue(n);
    PadKeepsValue(Decimal(n));
  }

  /** Splitting `a:b:c` back into its two-character fields. */
  lemma ClockSlices(a: string, b: string, c: string)
    requires |a| == 2 && |b| == 2 && |c| == 2
    ensures var r := a + ":" + b + ":" + c;
      |r| == 8 && r[2] == ':' && r[5] == ':' && r[0..2] == a && r[3..5] == b && r[6..8] == c
  {
  }

  /** Hours, minutes and seconds of `t` add back up to `t`. */
  lemma ClockArithmetic(t: nat)
    ensures t % 3600 / 60 < 60 && t % 60 < 60
    ensures t / 3600 * 3600 + t % 3600 / 60 * 60 + t % 60 == t
  {
    var q, r := t / 3600, t % 3600;
    assert t == q * 3600 + r;
    assert r == r / 60 * 60 + r % 60;
    assert r % 60 == t % 60 by {
      assert t == (q * 60 + r / 60) * 60 + r % 60;
    }
  }

  /** Whole hours and the seconds left over are unique. */
  lemma HourSplit(t: int, q: int, r: int)
    requires 0 <= r < 3600 && t == q * 3600 + r
    ensures t / 3600 == q && t % 3600 == r
  {
  }

  /** Whole minutes and the seconds left over are unique. */
  lemma MinuteSplit(t: int, q: int, r: int)
    requires 0 <= r < 60 && t == q * 60 + r
    ensures t / 60 == q && t % 60 == r
  {
  }

  /** Below 100 hours the display is eight characters `HH:MM:SS` whose fields
      read back as hours, minutes under 60 and seconds under 60 that add up
      to `t`. */
  lemma FormatClockReadsBack(t: nat)
    requires t < 100 * 3600
    ensures var r := FormatClock(t);
      |r| == 8 && r[2] == ':' && r[5] == ':'
      && AllDigits(r[0..2]) && AllDigits(r[3..5]) && AllDigits(r[6..8])
      && var (hh, mm, ss) := ClockFields(r);
      hh == t / 3600 && mm == t % 3600 / 60 && ss == t % 60
      && mm < 60 && ss < 60 && hh * 3600 + mm * 60 + ss == t
  {
    var h, m, s := t / 3600, t % 3600 / 60, t % 60;
    ClockArithmetic(t);
    PadDecimal(h);
    PadDecimal(m);
    PadDecimal(s);
    ClockSlices(PadStart2(Decimal(h)), PadStart2(Decimal(m)), PadStart2(Decimal(s)));
  }

  /** A session's duration text, `"<h>h <m>m <s>s"`. */
  function DurationText(h: nat, m: nat, s: nat): (r: string)
    ensures |r| >= 8 && r[|r| - 1] == 's'
  {
    Decimal(h) + ("h " + (Decimal(m) + ("m " + (Decimal(s) + "s"))))
  }

  /** Two numbers followed by texts that start with a non-digit are equal
      when the concatenations are. */
  lemma DecimalPrefix(a: nat, x: string, b: nat, y: string)
    requires x != [] && y != [] && !IsDigit(x[0]) && !IsDigit(y[0])
    requires Decimal(a) + x == Decimal(b) + y
    ensures a == b && x == y
  {
    var da, db := Decimal(a), Decimal(b);
    var w := da + x;
    assert forall i :: 0 <= i < |da| ==> IsDigit(w[i]);
    assert forall i :: 0 <= i < |db| ==> IsDigit(w[i]);
    assert !IsDigit(w[|da|]) && !IsDigit(w[|db|]);
    assert |da| == |db|;
    assert da == (da + x)[..|da|];
    assert db == (db + y)[..|db|];
    DecimalInjective(a, b);
    assert x == (da + x)[|da|..];
    assert y == (db + y)[|db|..];
  }

  /** The duration text names its hours, minutes and seconds unambiguously. */
  lemma DurationInjective(h: nat, m: nat, s: nat, h': nat, m': nat, s': nat)
    requires DurationText(h, m, s) == DurationText(h', m', s')
    ensures h == h' && m == m' && s == s'
  {
    var rest, rest' := "m " + (Decimal(s) + "s"), "m " + (Decimal(s') + "s");
    var tail, tail' := "h " + (Decimal(m) + rest), "h " + (Decimal(m') + rest');
    DecimalPrefix(h, tail, h', tail');
    assert Decimal(m) + rest == tail[2..];
    assert Decimal(m') + rest' == tail'[2..];
    DecimalPrefix(m, rest, m', rest');
    assert Decimal(s) + "s" == rest[2..];
    assert Decimal(s') + "s" == rest'[2..];
    DecimalPrefix(s, "s", s', "s");
  }
}
