/** The elapsed-time display of the recorder (`formattedTime`, script.js
    lines 17-21): minutes and seconds, each written with
    `Number.prototype.toString` and left-padded with `'0'` to width 2. */
module TimeFormat {
  import opened Wrappers

  predicate IsDigit(c: char) { '0' <= c <= '9' }

  predicate AllDigits(s: string) { forall i :: 0 <= i < |s| ==> IsDigit(s[i]) }

  function DigitValue(c: char): (d: nat)
    requires IsDigit(c)
    ensures d < 10
  {
    c as int - '0' as int
  }

  function DigitChar(d: nat): (c: char)
    requires d < 10
    ensures IsDigit(c) && DigitValue(c) == d
  {
    ('0' as int + d) as char
  }

  /** `n.toString()` for a non-negative integer: its decimal digits. */
  function Decimal(n: nat): (s: string)
    ensures 1 <= |s| && AllDigits(s)
    decreases n
  {
    if n < 10 then [DigitChar(n)] else Decimal(n / 10) + [DigitChar(n % 10)]
  }

  /** The number a string of decimal digits denotes (leading zeros allowed). */
  function ValueOf(s: string): nat
    requires AllDigits(s)
  {
    if s == [] then 0 else 10 * ValueOf(s[..|s| - 1]) + DigitValue(s[|s| - 1])
  }

  /** `s.padStart(width, fill)` with a one-character fill: as many copies of
      `fill` as `s` is short of `width`, then `s`. */
  function PadStart(s: string, width: nat, fill: char): string
  {
    if |s| >= width then s else seq(width - |s|, _ => fill) + s
  }

  /** The `MM:SS` display of `t` seconds. */
  function FormattedTime(t: nat): string
  {
    Clock(t / 60, t % 60)
  }

  /** The two padded fields joined by a colon. */
  function Clock(minutes: nat, seconds: nat): string
  {
    PadStart(Decimal(minutes), 2, '0') + ":" + PadStart(Decimal(seconds), 2, '0')
  }

  /** Reads an `MM:SS` display back as a number of seconds; `None` when the text
      is not digits, a colon and two digits denoting less than 60. */
  function ParseClock(s: string): (r: Option<nat>)
  {
    if |s| >= 5 && s[|s| - 3] == ':' && AllDigits(s[..|s| - 3]) && AllDigits(s[|s| - 2..])
       && ValueOf(s[|s| - 2..]) < 60
    then Some(60 * ValueOf(s[..|s| - 3]) + ValueOf(s[|s| - 2..]))
    else None
  }

  /** The decimal form starts with `'0'` only for zero: no leading zeros. */
  lemma {:induction false} DecimalNoLeadingZero(n: nat)
    ensures (Decimal(n)[0] == '0') <==> (n == 0)
    decreases n
  {
    if n >= 10 {
      DecimalNoLeadingZero(n / 10);
      assert Decimal(n)[0] == Decimal(n / 10)[0];
    } else {
      assert DigitValue(Decimal(n)[0]) == n;
    }
  }

  /** The decimal form denotes the number. */
  lemma {:induction false} DecimalValue(n: nat)
    ensures ValueOf(Decimal(n)) == n
    decreases n
  {
    if n >= 10 {
      DecimalValue(n / 10);
      var s := Decimal(n);
      assert s[..|s| - 1] == Decimal(n / 10);
    }
  }

  lemma {:induction false} DecimalShort(n: nat)
    requires n < 100
    ensures |Decimal(n)| <= 2
  {
    if n >= 10 {
      assert Decimal(n / 10) == [DigitChar(n / 10)];
    }
  }

  /** What `padStart` promises: the width is reached, `s` is kept at the end,
      and everything before it is `fill`. */
  lemma PadStartParts(s: string, width: nat, fill: char)
    ensures var r := PadStart(s, width, fill);
      && |r| == (if |s| < width then width else |s|)
      && r[|r| - |s|..] == s
      && forall i :: 0 <= i < |r| - |s| ==> r[i] == fill
  {
    if |s| < width {
      var r := PadStart(s, width, fill);
      assert r[|r| - |s|..] == s;
    }
  }

  lemma {:induction false} ValueOfLeadingZeros(z: string, s: string)
    requires forall i :: 0 <= i < |z| ==> z[i] == '0'
    requires AllDigits(s)
    ensures AllDigits(z + s) && ValueOf(z + s) == ValueOf(s)
    decreases |s|
  {
    var zs := z + s;
    if s == [] {
      assert zs == z;
      ValueOfZeros(z);
    } else {
      assert zs[..|zs| - 1] == z + s[..|s| - 1];
      ValueOfLeadingZeros(z, s[..|s| - 1]);
    }
  }

  lemma {:induction false} ValueOfZeros(z: string)
    requires forall i :: 0 <= i < |z| ==> z[i] == '0'
    ensures AllDigits(z) && ValueOf(z) == 0
    decreases |z|
  {
    if z != [] {
      ValueOfZeros(z[..|z| - 1]);
    }
  }

  /** Padding with zeros does not change the number a field denotes. */
  lemma PaddedValue(n: nat)
    ensures AllDigits(PadStart(Decimal(n), 2, '0'))
    ensures ValueOf(PadStart(Decimal(n), 2, '0')) == n
  {
    var d := Decimal(n);
    var p := PadStart(d, 2, '0');
    PadStartParts(d, 2, '0');
    assert p == p[..|p| - |d|] + d;
    ValueOfLeadingZeros(p[..|p| - |d|], d);
    DecimalValue(n);
  }

  /** The minutes field holds `t / 60` (never truncated: it is the whole
      decimal form of the minutes, widened to 2 characters when shorter), the
      seconds field holds `t % 60` in exactly two digits. */
  lemma FormattedTimeFields(t: nat)
    ensures var r := FormattedTime(t);
      && |r| >= 5 && r[|r| - 3] == ':'
      && AllDigits(r[..|r| - 3]) && AllDigits(r[|r| - 2..])
      && ValueOf(r[..|r| - 3]) == t / 60
      && ValueOf(r[|r| - 2..]) == t % 60
      && |r[..|r| - 3]| == (if |Decimal(t / 60)| < 2 then 2 else |Decimal(t / 60)|)
      && (|Decimal(t / 60)| >= 2 ==> r[..|r| - 3] == Decimal(t / 60))
  {
    ClockFields(t / 60, t % 60);
  }

  lemma ClockFields(minutes: nat, seconds: nat)
    requires seconds < 60
    ensures var r := Clock(minutes, seconds);
      && |r| >= 5 && r[|r| - 3] == ':'
      && AllDigits(r[..|r| - 3]) && AllDigits(r[|r| - 2..])
      && ValueOf(r[..|r| - 3]) == minutes
      && ValueOf(r[|r| - 2..]) == seconds
      && |r[..|r| - 3]| == (if |Decimal(minutes)| < 2 then 2 else |Decimal(minutes)|)
      && (|Decimal(minutes)| >= 2 ==> r[..|r| - 3] == Decimal(minutes))
  {
    ClockSplit(minutes, seconds);
    PadStartParts(Decimal(minutes), 2, '0');
    PaddedValue(minutes);
    PaddedValue(seconds);
  }

  /** The display is the padded minutes, a colon and the two-character
      padded seconds. */
  lemma ClockSplit(minutes: nat, seconds: nat)
    requires seconds < 60
    ensures var r := Clock(minutes, seconds);
      && |r| >= 5 && r[|r| - 3] == ':'
      && r[..|r| - 3] == PadStart(Decimal(minutes), 2, '0')
      && r[|r| - 2..] == PadStart(Decimal(seconds), 2, '0')
  {
    PadStartParts(Decimal(minutes), 2, '0');
    PadStartParts(Decimal(seconds), 2, '0');
    DecimalShort(seconds);
    Fields(PadStart(Decimal(minutes), 2, '0'), PadStart(Decimal(seconds), 2, '0'));
  }

  /** Splitting `m + ":" + s` at the colon three places from the end. */
  lemma Fields(m: string, s: string)
    requires |s| == 2
    ensures var r := m + ":" + s;
      && |r| == |m| + 3 && r[|r| - 3] == ':' && r[..|r| - 3] == m && r[|r| - 2..] == s
  {
  }

  /** Reading the display back gives the elapsed seconds: minutes * 60 + seconds == t. */
  lemma FormattedTimeRoundTrip(t: nat)
    ensures ParseClock(FormattedTime(t)) == Some(t)
  {
    FormattedTimeFields(t);
  }

  /** Below 100 minutes the display is exactly five characters, `MM:SS`. */
  lemma FormattedTimeWidth(t: nat)
    requires t < 6000
    ensures |FormattedTime(t)| == 5
  {
    DecimalShort(t / 60);
    FormattedTimeFields(t);
  }

  /** A number below 100 padded to width 2 is its tens digit then its units digit. */
  lemma TwoDigits(n: nat)
    requires n < 100
    ensures PadStart(Decimal(n), 2, '0') == [DigitChar(n / 10), DigitChar(n % 10)]
  {
    if n < 10 {
      assert Decimal(n) == [DigitChar(n)];
      assert DigitChar(0) == '0';
      assert PadStart(Decimal(n), 2, '0') == ['0'] + [DigitChar(n)];
    } else {
      assert Decimal(n / 10) == [DigitChar(n / 10)];
      assert Decimal(n) == [DigitChar(n / 10), DigitChar(n % 10)];
    }
  }

  /** Below 100 minutes the display is the two digits of the minutes, a colon
      and the two digits of the seconds. */
  lemma FormattedTimeDigits(t: nat)
    requires t < 6000
    ensures var m, s := t / 60, t % 60;
      FormattedTime(t) == [DigitChar(m / 10), DigitChar(m % 10), ':', DigitChar(s / 10), DigitChar(s % 10)]
  {
    ClockDigits(t / 60, t % 60);
  }

  lemma {:induction false} ClockDigits(minutes: nat, seconds: nat)
    requires minutes < 100 && seconds < 60
    ensures Clock(minutes, seconds)
      == [DigitChar(minutes / 10), DigitChar(minutes % 10), ':', DigitChar(seconds / 10), DigitChar(seconds % 10)]
  {
    TwoDigits(minutes);
    TwoDigits(seconds);
    Joined(PadStart(Decimal(minutes), 2, '0'), PadStart(Decimal(seconds), 2, '0'));
  }

  lemma Joined(m: string, s: string)
    requires |m| == 2 && |s| == 2
    ensures m + ":" + s == [m[0], m[1], ':', s[0], s[1]]
  {
  }

  /** Different elapsed times never show the same display. */
  lemma FormattedTimeInjective(t1: nat, t2: nat)
    requires FormattedTime(t1) == FormattedTime(t2)
    ensures t1 == t2
  {
    FormattedTimeRoundTrip(t1);
    FormattedTimeRoundTrip(t2);
  }
}
