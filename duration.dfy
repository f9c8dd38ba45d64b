/** `formatDuration` of `LibraryView.swift` (both copies): whole seconds
    as minutes, ':', and two-digit seconds. */
module DurationFormat {
  import opened Text

  /** `String(format: "%d:%02d", minutes, seconds)`. */
  function MinutesSeconds(minutes: nat, seconds: nat): string
    requires seconds < 60
  {
    Decimal(minutes) + ":" + ZeroPad(Decimal(seconds), 2)
  }

  /** `formatDuration` for `n == Int(duration)` whole seconds. */
  function FormatDuration(n: nat): string {
    MinutesSeconds(n / 60, n % 60)
  }

  /** The text is the unpadded minutes, ':', then the two digits of the
      seconds, and reading the two parts back gives minutes and seconds. */
  lemma MinutesSecondsShape(minutes: nat, seconds: nat)
    requires seconds < 60
    ensures var r := MinutesSeconds(minutes, seconds);
      && |r| >= 4 && r[|r| - 3] == ':'
      && r[..|r| - 3] == Decimal(minutes)
      && AllDigits(r[..|r| - 3]) && AllDigits(r[|r| - 2..])
      && DigitsValue(r[..|r| - 3]) == minutes
      && DigitsValue(r[|r| - 2..]) == seconds
      && (r[0] == '0' ==> minutes == 0)
  {
    PaddedSeconds(seconds);
    DecimalValue(minutes);
    AroundColon(Decimal(minutes), ZeroPad(Decimal(seconds), 2));
  }

  /** The parts of `m + ":" + p` with a two-character `p`. */
  lemma AroundColon(m: string, p: string)
    requires m != [] && |p| == 2
    ensures var r := m + ":" + p;
      |r| == |m| + 3 && r[|r| - 3] == ':' && r[..|r| - 3] == m && r[|r| - 2..] == p && r[0] == m[0]
  {
    var r := m + ":" + p;
    assert r[..|r| - 3] == m;
    assert r[|r| - 2..] == p;
  }

  /** `%02d` of seconds is two digits that read back as the seconds. */
  lemma PaddedSeconds(seconds: nat)
    requires seconds < 60
    ensures var p := ZeroPad(Decimal(seconds), 2);
      |p| == 2 && AllDigits(p) && DigitsValue(p) == seconds
  {
    TwoDigits(seconds);
    TwoDigitsValue(seconds);
  }

  /** Two digits read back as the number below 100 they spell. */
  lemma TwoDigitsValue(d: nat)
    requires d < 100
    ensures DigitsValue([Digit(d / 10), Digit(d % 10)]) == d
  {
    var s := [Digit(d / 10), Digit(d % 10)];
    assert s[..1] == [Digit(d / 10)];
    assert [Digit(d / 10)][..0] == [];
    assert DigitsValue(s[..1]) == d / 10;
    assert DigitsValue(s) == 10 * (d / 10) + d % 10;
  }

  /** `formatDuration(n)` reads back as a minutes part and a seconds part
      below 60 with minutes * 60 + seconds == n; the minutes carry no
      leading zero unless the duration is under a minute. */
  lemma FormatDurationValue(n: nat)
    ensures var r := FormatDuration(n);
      && |r| >= 4 && r[|r| - 3] == ':'
      && AllDigits(r[..|r| - 3]) && AllDigits(r[|r| - 2..])
      && DigitsValue(r[|r| - 2..]) < 60
      && DigitsValue(r[..|r| - 3]) * 60 + DigitsValue(r[|r| - 2..]) == n
      && (r[0] == '0' ==> n < 60)
  {
    var q, s := n / 60, n % 60;
    assert q * 60 + s == n && s < 60;
    MinutesSecondsShape(q, s);
  }

  /** The number of seconds a `m:ss` text stands for. */
  function ReadDuration(r: string): nat
    requires |r| >= 4 && AllDigits(r[..|r| - 3]) && AllDigits(r[|r| - 2..])
  {
    DigitsValue(r[..|r| - 3]) * 60 + DigitsValue(r[|r| - 2..])
  }

  /** Reading the text back gives the duration. */
  lemma FormatDurationReadsBack(n: nat)
    ensures var r := FormatDuration(n);
      |r| >= 4 && AllDigits(r[..|r| - 3]) && AllDigits(r[|r| - 2..]) && ReadDuration(r) == n
  {
    FormatDurationValue(n);
  }

  /** Different durations are shown differently. */
  lemma FormatDurationInjective(m: nat, n: nat)
    ensures FormatDuration(m) == FormatDuration(n) ==> m == n
  {
    FormatDurationReadsBack(m);
    FormatDurationReadsBack(n);
  }
}
