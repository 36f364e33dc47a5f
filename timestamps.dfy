/**
 * The two `to_utc_z` helpers of the fetcher and the wire format they render
 * a datetime in, `YYYY-MM-DDTHH:MM:SSZ` (strftime `%Y-%m-%dT%H:%M:%SZ`).
 */
module Timestamps {
  import opened Wrappers

  type Year = y: int | 1 <= y <= 9999 witness 1
  type Month = m: int | 1 <= m <= 12 witness 1
  type Day = d: int | 1 <= d <= 31 witness 1
  type Hour = h: int | 0 <= h <= 23 witness 0
  type Minute = m: int | 0 <= m <= 59 witness 0
  type Second = s: int | 0 <= s <= 59 witness 0

  /**
   * A Python `datetime`, down to the second (the format drops the rest).
   * Every month admits days 1 to 31, so a few values with no Python
   * counterpart (February 30, say) are datetimes here too; the format and
   * its inverse parser are proved over this larger set.
   */
  datatype DateTime = DateTime(year: Year, month: Month, day: Day, hour: Hour, minute: Minute, second: Second)

  /** The Python values the helpers are given: a datetime, a str, or None. */
  datatype TimeArg = Moment(moment: DateTime) | Str(text: string) | Missing

  predicate IsDigit(c: char) {
    '0' <= c <= '9'
  }

  function DigitChar(n: int): (c: char)
    requires 0 <= n <= 9
    ensures IsDigit(c)
  {
    (48 + n) as char
  }

  function DigitValue(c: char): int {
    c as int - 48
  }

  /** A number below 100 as two zero-padded decimal digits. */
  function Pad2(n: int): (s: string)
    requires 0 <= n <= 99
    ensures |s| == 2 && IsDigit(s[0]) && IsDigit(s[1])
  {
    [DigitChar(n / 10), DigitChar(n % 10)]
  }

  /** strftime("%Y-%m-%dT%H:%M:%SZ"). */
  function FormatUtcZ(d: DateTime): (s: string)
    ensures |s| == 20 && s[19] == 'Z' && s[10] == 'T'
    ensures s[4] == '-' && s[7] == '-' && s[13] == ':' && s[16] == ':'
  {
    Pad2(d.year / 100) + Pad2(d.year % 100) + "-" + Pad2(d.month) + "-" + Pad2(d.day)
    + "T" + Pad2(d.hour) + ":" + Pad2(d.minute) + ":" + Pad2(d.second) + "Z"
  }

  predicate DigitPair(s: string, i: nat) {
    i + 1 < |s| && IsDigit(s[i]) && IsDigit(s[i + 1])
  }

  /** The two-digit number at offset `i`. */
  function Pair(s: string, i: nat): int
    requires i + 1 < |s|
  {
    10 * DigitValue(s[i]) + DigitValue(s[i + 1])
  }

  predicate WellShaped(s: string) {
    && |s| == 20
    && s[4] == '-' && s[7] == '-' && s[10] == 'T' && s[13] == ':' && s[16] == ':' && s[19] == 'Z'
    && DigitPair(s, 0) && DigitPair(s, 2) && DigitPair(s, 5) && DigitPair(s, 8)
    && DigitPair(s, 11) && DigitPair(s, 14) && DigitPair(s, 17)
  }

  /** The inverse of FormatUtcZ: reads a `YYYY-MM-DDTHH:MM:SSZ` string back. */
  function ParseUtcZ(s: string): Option<DateTime> {
    if !WellShaped(s) then None
    else
      var y := 100 * Pair(s, 0) + Pair(s, 2);
      var mo := Pair(s, 5);
      var d := Pair(s, 8);
      var h := Pair(s, 11);
      var mi := Pair(s, 14);
      var sec := Pair(s, 17);
      if 1 <= y <= 9999 && 1 <= mo <= 12 && 1 <= d <= 31 && h <= 23 && mi <= 59 && sec <= 59
      then Some(DateTime(y, mo, d, h, mi, sec))
      else None
  }

  lemma Pad2Value(n: int)
    requires 0 <= n <= 99
    ensures Pair(Pad2(n), 0) == n
  {
  }

  lemma PairPad2(s: string, i: nat)
    requires DigitPair(s, i)
    ensures 0 <= Pair(s, i) <= 99 && Pad2(Pair(s, i)) == s[i..i + 2]
  {
    var a, b := DigitValue(s[i]), DigitValue(s[i + 1]);
    assert (10 * a + b) / 10 == a && (10 * a + b) % 10 == b;
    assert DigitChar(a) == s[i] && DigitChar(b) == s[i + 1];
  }

  lemma {:induction false} FormatThenParse(d: DateTime)
    ensures ParseUtcZ(FormatUtcZ(d)) == Some(d)
  {
    var s := FormatUtcZ(d);
    assert s[0..2] == Pad2(d.year / 100) && s[2..4] == Pad2(d.year % 100);
    assert s[5..7] == Pad2(d.month) && s[8..10] == Pad2(d.day);
    assert s[11..13] == Pad2(d.hour) && s[14..16] == Pad2(d.minute) && s[17..19] == Pad2(d.second);
    Pad2Value(d.year / 100);
    Pad2Value(d.year % 100);
    Pad2Value(d.month);
    Pad2Value(d.day);
    Pad2Value(d.hour);
    Pad2Value(d.minute);
    Pad2Value(d.second);
    assert Pair(s, 0) == Pair(s[0..2], 0) && Pair(s, 2) == Pair(s[2..4], 0);
    assert Pair(s, 5) == Pair(s[5..7], 0) && Pair(s, 8) == Pair(s[8..10], 0);
    assert Pair(s, 11) == Pair(s[11..13], 0) && Pair(s, 14) == Pair(s[14..16], 0);
    assert Pair(s, 17) == Pair(s[17..19], 0);
  }

  lemma {:induction false} ParseThenFormat(s: string)
    requires ParseUtcZ(s).Some?
    ensures FormatUtcZ(ParseUtcZ(s).value) == s
  {
    var d := ParseUtcZ(s).value;
    PairPad2(s, 0);
    PairPad2(s, 2);
    PairPad2(s, 5);
    PairPad2(s, 8);
    PairPad2(s, 11);
    PairPad2(s, 14);
    PairPad2(s, 17);
    assert d.year / 100 == Pair(s, 0) && d.year % 100 == Pair(s, 2);
    var f := FormatUtcZ(d);
    assert f[0..2] == s[0..2] && f[2..4] == s[2..4] && f[5..7] == s[5..7] && f[8..10] == s[8..10];
    assert f[11..13] == s[11..13] && f[14..16] == s[14..16] && f[17..19] == s[17..19];
    assert forall i :: 0 <= i < 20 ==> f[i] == s[i] by {
      forall i | 0 <= i < 20 ensures f[i] == s[i] {
        if i < 2 { assert f[i] == f[0..2][i]; }
        else if i < 4 { assert f[i] == f[2..4][i - 2]; }
        else if 5 <= i < 7 { assert f[i] == f[5..7][i - 5]; }
        else if 8 <= i < 10 { assert f[i] == f[8..10][i - 8]; }
        else if 11 <= i < 13 { assert f[i] == f[11..13][i - 11]; }
        else if 14 <= i < 16 { assert f[i] == f[14..16][i - 14]; }
        else if 17 <= i < 19 { assert f[i] == f[17..19][i - 17]; }
      }
    }
  }

  predicate EndsWithZ(s: string) {
    |s| > 0 && s[|s| - 1] == 'Z'
  }

  /** The helper of fetch_and_save_videos_from_channel: renders a datetime, passes anything else through. */
  function PassThroughUtcZ(t: TimeArg): Option<string> {
    match t
    case Moment(d) => Some(FormatUtcZ(d))
    case Str(s) => Some(s)
    case Missing => None
  }

  /** The helper of get_channel_videos_with_cache: renders a datetime, appends "Z" to a str lacking it. */
  function AppendUtcZ(t: TimeArg): Option<string> {
    match t
    case Moment(d) => Some(FormatUtcZ(d))
    case Str(s) => if EndsWithZ(s) then Some(s) else Some(s + "Z")
    case Missing => None
  }

  /** A str or None as the Python value handed on to the next call. */
  function AsTimeArg(o: Option<string>): (t: TimeArg)
    ensures PassThroughUtcZ(t) == o
  {
    match o
    case Some(s) => Str(s)
    case None => Missing
  }

  lemma PassThroughUtcZKeepsStrings(s: string)
    ensures PassThroughUtcZ(Str(s)) == Some(s)
  {
  }

  lemma AppendUtcZAppendsOnce(s: string)
    ensures AppendUtcZ(Str(s)).Some?
    ensures var r := AppendUtcZ(Str(s)).value; EndsWithZ(r) && (r == s <==> EndsWithZ(s)) && (r != s ==> r == s + "Z")
  {
  }

  lemma AppendUtcZIdempotent(t: TimeArg)
    requires AppendUtcZ(t).Some?
    ensures AppendUtcZ(Str(AppendUtcZ(t).value)) == AppendUtcZ(t)
  {
  }

  /** On a datetime both helpers give the same `YYYY-MM-DDTHH:MM:SSZ` text. */
  lemma UtcZHelpersAgreeOnDateTimes(d: DateTime)
    ensures PassThroughUtcZ(Moment(d)) == AppendUtcZ(Moment(d)) == Some(FormatUtcZ(d))
  {
  }
}
