/** The persisted progress record and the `yyyy-MM-dd HH:mm:ss` layout of its
    last-play timestamp. The clock is a parameter: `New` takes the moment of
    construction. */
module GameData {
  import opened Common

  /** A calendar moment, in the range .NET's DateTime covers (years 1 to 9999). */
  datatype DateTime = DateTime(year: int, month: int, day: int, hour: int, minute: int, second: int)

  predicate IsLeapYear(y: int) {
    (y % 4 == 0 && y % 100 != 0) || y % 400 == 0
  }

  function DaysInMonth(y: int, m: int): int {
    if m == 2 then (if IsLeapYear(y) then 29 else 28)
    else if m == 4 || m == 6 || m == 9 || m == 11 then 30
    else 31
  }

  predicate ValidDateTime(t: DateTime) {
    && 1 <= t.year <= 9999
    && 1 <= t.month <= 12
    && 1 <= t.day <= DaysInMonth(t.year, t.month)
    && 0 <= t.hour < 24
    && 0 <= t.minute < 60
    && 0 <= t.second < 60
  }

  /** The record; the four upgrade levels are `float` fields in the source. */
  datatype GameData = GameData(
    maxMoney: int,
    maxSushiCount: int,
    lastPlayTime: string,
    totalGamesPlayed: int,
    bonusLevel: real,
    rateLevel: real,
    spLevel: real,
    specialBonusLevel: real)

  /** The constructor: every counter and level zero, the timestamp set to `now`. */
  function New(now: DateTime): (d: GameData)
    requires ValidDateTime(now)
    ensures d.maxMoney == 0 && d.maxSushiCount == 0 && d.totalGamesPlayed == 0
    ensures d.bonusLevel == 0.0 && d.rateLevel == 0.0 && d.spLevel == 0.0 && d.specialBonusLevel == 0.0
    ensures |d.lastPlayTime| == 19
    ensures ParseTimestamp(d.lastPlayTime) == Some(now)
  {
    ParseFormatRoundTrip(now);
    GameData(0, 0, FormatTimestamp(now), 0, 0.0, 0.0, 0.0, 0.0)
  }

  predicate IsDigit(c: char) {
    '0' <= c <= '9'
  }

  function DigitChar(d: int): (c: char)
    requires 0 <= d < 10
    ensures IsDigit(c)
  {
    (48 + d) as char
  }

  function DigitValue(c: char): (d: int)
    requires IsDigit(c)
    ensures 0 <= d < 10
  {
    c as int - 48
  }

  lemma DigitRoundTrip(d: int)
    requires 0 <= d < 10
    ensures DigitValue(DigitChar(d)) == d
  {
  }

  /** `n` written in decimal with exactly `width` digits, zero-padded on the left. */
  function PadDigits(n: nat, width: nat): (s: string)
    ensures |s| == width
    ensures forall i :: 0 <= i < |s| ==> IsDigit(s[i])
  {
    if width == 0 then [] else PadDigits(n / 10, width - 1) + [DigitChar(n % 10)]
  }

  /** The value of a string of decimal digits. */
  function DigitsValue(s: string): (n: nat)
    requires forall i :: 0 <= i < |s| ==> IsDigit(s[i])
  {
    if |s| == 0 then 0 else 10 * DigitsValue(s[..|s| - 1]) + DigitValue(s[|s| - 1])
  }

  function Pow10(k: nat): (p: nat)
    ensures p >= 1
  {
    if k == 0 then 1 else 10 * Pow10(k - 1)
  }

  /** Reading back a padded number gives the number itself, when it fits the width. */
  lemma {:induction false} PadDigitsRoundTrip(n: nat, width: nat)
    requires n < Pow10(width)
    ensures DigitsValue(PadDigits(n, width)) == n
  {
    if width > 0 {
      var s := PadDigits(n, width);
      assert s[..|s| - 1] == PadDigits(n / 10, width - 1);
      assert s[|s| - 1] == DigitChar(n % 10);
      PadDigitsRoundTrip(n / 10, width - 1);
      DigitRoundTrip(n % 10);
    }
  }

  /** Writing out the value of a digit string of width `|s|` gives the string back. */
  lemma {:induction false} DigitsValueRoundTrip(s: string)
    requires forall i :: 0 <= i < |s| ==> IsDigit(s[i])
    ensures DigitsValue(s) < Pow10(|s|)
    ensures PadDigits(DigitsValue(s), |s|) == s
  {
    if |s| > 0 {
      var pre := s[..|s| - 1];
      DigitsValueRoundTrip(pre);
      var n := DigitsValue(s);
      assert n / 10 == DigitsValue(pre);
      assert n % 10 == DigitValue(s[|s| - 1]);
      assert DigitChar(DigitValue(s[|s| - 1])) == s[|s| - 1];
      assert s == pre + [s[|s| - 1]];
    }
  }

  /** `DateTime.ToString("yyyy-MM-dd HH:mm:ss")` with the invariant culture. */
  function FormatTimestamp(t: DateTime): (s: string)
    requires ValidDateTime(t)
    ensures |s| == 19
    ensures s[4] == '-' && s[7] == '-' && s[10] == ' ' && s[13] == ':' && s[16] == ':'
  {
    PadDigits(t.year, 4) + "-" + PadDigits(t.month, 2) + "-" + PadDigits(t.day, 2) + " "
    + PadDigits(t.hour, 2) + ":" + PadDigits(t.minute, 2) + ":" + PadDigits(t.second, 2)
  }

  predicate DigitsAt(s: string, lo: nat, hi: nat)
    requires lo <= hi <= |s|
  {
    forall i :: lo <= i < hi ==> IsDigit(s[i])
  }

  predicate TimestampShape(s: string) {
    && |s| == 19
    && s[4] == '-' && s[7] == '-' && s[10] == ' ' && s[13] == ':' && s[16] == ':'
    && DigitsAt(s, 0, 4) && DigitsAt(s, 5, 7) && DigitsAt(s, 8, 10)
    && DigitsAt(s, 11, 13) && DigitsAt(s, 14, 16) && DigitsAt(s, 17, 19)
  }

  function Field(s: string, lo: nat, hi: nat): nat
    requires lo <= hi <= |s| && DigitsAt(s, lo, hi)
  {
    DigitsValue(s[lo..hi])
  }

  /** The moment a `yyyy-MM-dd HH:mm:ss` string denotes, if it is one. */
  function ParseTimestamp(s: string): (r: Option<DateTime>)
    ensures r.Some? ==> ValidDateTime(r.value)
  {
    if !TimestampShape(s) then None
    else
      var t := DateTime(Field(s, 0, 4), Field(s, 5, 7), Field(s, 8, 10),
                        Field(s, 11, 13), Field(s, 14, 16), Field(s, 17, 19));
      if ValidDateTime(t) then Some(t) else None
  }

  /** Formatting pieces sit at fixed positions of the 19-character string. */
  lemma FormatLayout(t: DateTime)
    requires ValidDateTime(t)
    ensures var s := FormatTimestamp(t);
            && s[0..4] == PadDigits(t.year, 4) && s[5..7] == PadDigits(t.month, 2)
            && s[8..10] == PadDigits(t.day, 2) && s[11..13] == PadDigits(t.hour, 2)
            && s[14..16] == PadDigits(t.minute, 2) && s[17..19] == PadDigits(t.second, 2)
  {
  }

  /** Every field of the formatted timestamp is a zero-padded run of digits. */
  lemma FormatShape(t: DateTime)
    requires ValidDateTime(t)
    ensures TimestampShape(FormatTimestamp(t))
  {
    var s := FormatTimestamp(t);
    FormatLayout(t);
    assert forall i :: 0 <= i < 4 ==> s[i] == s[0..4][i];
    assert forall i :: 5 <= i < 7 ==> s[i] == s[5..7][i - 5];
    assert forall i :: 8 <= i < 10 ==> s[i] == s[8..10][i - 8];
    assert forall i :: 11 <= i < 13 ==> s[i] == s[11..13][i - 11];
    assert forall i :: 14 <= i < 16 ==> s[i] == s[14..16][i - 14];
    assert forall i :: 17 <= i < 19 ==> s[i] == s[17..19][i - 17];
  }

  /** The formatted timestamp parses back to the moment it was made from. */
  lemma ParseFormatRoundTrip(t: DateTime)
    requires ValidDateTime(t)
    ensures ParseTimestamp(FormatTimestamp(t)) == Some(t)
  {
    FormatShape(t);
    FormatLayout(t);
    PadDigitsRoundTrip(t.year, 4);
    PadDigitsRoundTrip(t.month, 2);
    PadDigitsRoundTrip(t.day, 2);
    PadDigitsRoundTrip(t.hour, 2);
    PadDigitsRoundTrip(t.minute, 2);
    PadDigitsRoundTrip(t.second, 2);
  }

  /** Conversely, a string the parser accepts is exactly the formatting of its result. */
  lemma FormatParseRoundTrip(s: string)
    requires ParseTimestamp(s).Some?
    ensures FormatTimestamp(ParseTimestamp(s).value) == s
  {
    var t := ParseTimestamp(s).value;
    assert TimestampShape(s);
    DigitsValueRoundTrip(s[0..4]);
    DigitsValueRoundTrip(s[5..7]);
    DigitsValueRoundTrip(s[8..10]);
    DigitsValueRoundTrip(s[11..13]);
    DigitsValueRoundTrip(s[14..16]);
    DigitsValueRoundTrip(s[17..19]);
    var f := FormatTimestamp(t);
    FormatLayout(t);
    assert f[0..4] == s[0..4] && f[5..7] == s[5..7] && f[8..10] == s[8..10];
    assert f[11..13] == s[11..13] && f[14..16] == s[14..16] && f[17..19] == s[17..19];
    assert forall i :: 0 <= i < 19 ==> f[i] == s[i] by {
      forall i | 0 <= i < 19 ensures f[i] == s[i] {
        if i < 4 { assert f[i] == f[0..4][i]; assert s[i] == s[0..4][i]; }
        else if i == 4 || i == 7 || i == 10 || i == 13 || i == 16 { }
        else if i < 7 { assert f[i] == f[5..7][i - 5]; assert s[i] == s[5..7][i - 5]; }
        else if i < 10 { assert f[i] == f[8..10][i - 8]; assert s[i] == s[8..10][i - 8]; }
        else if i < 13 { assert f[i] == f[11..13][i - 11]; assert s[i] == s[11..13][i - 11]; }
        else if i < 16 { assert f[i] == f[14..16][i - 14]; assert s[i] == s[14..16][i - 14]; }
        else { assert f[i] == f[17..19][i - 17]; assert s[i] == s[17..19][i - 17]; }
      }
    }
  }
}
