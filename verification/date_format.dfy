/** The two `SimpleDateFormat` patterns the sampler names its files with,
    `yyyy_MM_dd_HH` (the hourly metadata log, `.lson`) and
    `yyyy_MM_dd_HH_mm_ss` (one recording, `.pcm`). The clock is not modelled:
    the calendar fields are given. Every numeric field is printed in decimal,
    zero-padded on the left to the number of pattern letters; a year above
    9999 simply prints with more digits. */
module DateFormat {
  import opened Jvm

  /** Calendar fields of a local date-time, as `Date()` would be broken down. */
  datatype DateTime = DateTime(year: nat, month: nat, day: nat, hour: nat, minute: nat, second: nat)

  predicate Valid(d: DateTime) {
    1 <= d.month <= 12 && 1 <= d.day <= 31 && d.hour < 24 && d.minute < 60 && d.second < 60
  }

  /** The same instant truncated to its hour, the granularity of the log file. */
  function HourOf(d: DateTime): DateTime {
    d.(minute := 0, second := 0)
  }

  predicate IsDigit(c: char) {
    '0' <= c <= '9'
  }

  predicate AllDigits(s: string) {
    forall i :: 0 <= i < |s| ==> IsDigit(s[i])
  }

  function DigitChar(d: nat): (c: char)
    requires d < 10
    ensures IsDigit(c)
  {
    ('0' as int + d) as char
  }

  function DigitValue(c: char): nat
    requires IsDigit(c)
  {
    c as int - '0' as int
  }

  function Pow10(w: nat): nat {
    if w == 0 then 1 else 10 * Pow10(w - 1)
  }

  /** The shortest decimal numeral of `n` ("0" for zero). */
  function Decimal(n: nat): (s: string)
    ensures 1 <= |s| && AllDigits(s)
  {
    if n < 10 then [DigitChar(n)] else Decimal(n / 10) + [DigitChar(n % 10)]
  }

  function Zeros(k: nat): (s: string)
    ensures |s| == k && AllDigits(s)
  {
    seq(k, _ => '0')
  }

  /** A numeric pattern field of `width` letters: at least `width` digits. */
  function Pad(n: nat, width: nat): (s: string)
    ensures AllDigits(s)
  {
    var d := Decimal(n);
    if |d| >= width then d else Zeros(width - |d|) + d
  }

  /** The number a string of decimal digits denotes. */
  function Value(s: string): nat
    requires AllDigits(s)
  {
    if s == [] then 0 else Value(s[..|s| - 1]) * 10 + DigitValue(s[|s| - 1])
  }

  /** Hour stamp shared by both patterns: `yyyy_MM_dd_HH`. */
  function HourStamp(d: DateTime): string {
    Pad(d.year, 4) + "_" + Pad(d.month, 2) + "_" + Pad(d.day, 2) + "_" + Pad(d.hour, 2)
  }

  /** Name of the hourly metadata log (`getMappingFile`). */
  function LogFileName(d: DateTime): string {
    HourStamp(d) + ".lson"
  }

  /** Name of the recording started at `d` (`sample`). */
  function RecordingName(d: DateTime): string {
    HourStamp(d) + "_" + Pad(d.minute, 2) + "_" + Pad(d.second, 2) + ".pcm"
  }

  /** The number in `s[lo..hi]`, if that slice is all digits. */
  function Field(s: string, lo: nat, hi: nat): Option<nat>
    requires lo <= hi <= |s|
  {
    if AllDigits(s[lo..hi]) then Some(Value(s[lo..hi])) else None
  }

  predicate StampShape(s: string) {
    |s| >= 13 && s[4] == '_' && s[7] == '_' && s[10] == '_'
  }

  /** Reads a four-digit-year log file name back into the hour it names. */
  function ParseLogFileName(s: string): Option<DateTime> {
    if !StampShape(s) || s[13..] != ".lson" then None
    else
      var y :- Field(s, 0, 4);
      var mo :- Field(s, 5, 7);
      var dd :- Field(s, 8, 10);
      var h :- Field(s, 11, 13);
      Some(DateTime(y, mo, dd, h, 0, 0))
  }

  /** Reads a four-digit-year recording name back into its date-time. */
  function ParseRecordingName(s: string): Option<DateTime> {
    if !StampShape(s) || |s| != 23 || s[13] != '_' || s[16] != '_' || s[19..] != ".pcm" then None
    else
      var y :- Field(s, 0, 4);
      var mo :- Field(s, 5, 7);
      var dd :- Field(s, 8, 10);
      var h :- Field(s, 11, 13);
      var mi :- Field(s, 14, 16);
      var sec :- Field(s, 17, 19);
      Some(DateTime(y, mo, dd, h, mi, sec))
  }

  // ---------------------------------------------------------------------
  // Numerals
  // ---------------------------------------------------------------------

  lemma {:induction false} ValueOfDecimal(n: nat)
    ensures Value(Decimal(n)) == n
  {
    if n >= 10 {
      var d := Decimal(n);
      assert d[..|d| - 1] == Decimal(n / 10);
      ValueOfDecimal(n / 10);
    }
  }

  lemma {:induction false} ValueOfZeros(k: nat)
    ensures Value(Zeros(k)) == 0
  {
    if k > 0 {
      assert Zeros(k)[..k - 1] == Zeros(k - 1);
      ValueOfZeros(k - 1);
    }
  }

  /** Leading zeros do not change a numeral's value. */
  lemma {:induction false} ValueIgnoresLeadingZeros(k: nat, s: string)
    requires AllDigits(s)
    ensures AllDigits(Zeros(k) + s) && Value(Zeros(k) + s) == Value(s)
    decreases |s|
  {
    var t := Zeros(k) + s;
    assert AllDigits(t);
    if s == [] {
      assert t == Zeros(k);
      ValueOfZeros(k);
    } else {
      assert t[..|t| - 1] == Zeros(k) + s[..|s| - 1];
      ValueIgnoresLeadingZeros(k, s[..|s| - 1]);
    }
  }

  /** A padded field reads back as the number that was printed. */
  lemma PadRoundTrip(n: nat, width: nat)
    ensures Value(Pad(n, width)) == n
  {
    var d := Decimal(n);
    ValueOfDecimal(n);
    if |d| < width {
      ValueIgnoresLeadingZeros(width - |d|, d);
    }
  }

  lemma {:induction false} DecimalFits(n: nat, w: nat)
    requires 1 <= w && n < Pow10(w)
    ensures |Decimal(n)| <= w
  {
    if n >= 10 {
      assert Pow10(1) == 10;
      assert w >= 2;
      assert n / 10 < Pow10(w - 1);
      DecimalFits(n / 10, w - 1);
    }
  }

  /** A number below 10^width fills its field exactly. */
  lemma PadWidth(n: nat, width: nat)
    requires 1 <= width && n < Pow10(width)
    ensures |Pad(n, width)| == width
  {
    DecimalFits(n, width);
  }

  lemma FieldOfPad(s: string, lo: nat, n: nat, width: nat)
    requires 1 <= width && n < Pow10(width)
    requires lo + width <= |s| && s[lo..lo + width] == Pad(n, width)
    ensures Field(s, lo, lo + width) == Some(n)
  {
    PadRoundTrip(n, width);
  }

  // ---------------------------------------------------------------------
  // File names
  // ---------------------------------------------------------------------

  lemma StampLayout(d: DateTime)
    requires Valid(d) && d.year < 10000
    ensures |HourStamp(d)| == 13 && StampShape(HourStamp(d))
    ensures HourStamp(d)[0..4] == Pad(d.year, 4)
    ensures HourStamp(d)[5..7] == Pad(d.month, 2)
    ensures HourStamp(d)[8..10] == Pad(d.day, 2)
    ensures HourStamp(d)[11..13] == Pad(d.hour, 2)
  {
    assert Pow10(2) == 100 && Pow10(4) == 10000;
    PadWidth(d.year, 4);
    PadWidth(d.month, 2);
    PadWidth(d.day, 2);
    PadWidth(d.hour, 2);
  }

  /** `yyyy_MM_dd_HH.lson` names exactly the hour of `d`: it parses back to it. */
  lemma LogFileNameRoundTrip(d: DateTime)
    requires Valid(d) && d.year < 10000
    ensures |LogFileName(d)| == 18
    ensures ParseLogFileName(LogFileName(d)) == Some(HourOf(d))
  {
    var s := LogFileName(d);
    StampLayout(d);
    var h := HourStamp(d);
    assert Pow10(2) == 100 && Pow10(4) == 10000;
    assert s[..13] == h;
    assert s[13..] == ".lson";
    assert s[0..4] == h[0..4] && s[5..7] == h[5..7] && s[8..10] == h[8..10] && s[11..13] == h[11..13];
    FieldOfPad(s, 0, d.year, 4);
    FieldOfPad(s, 5, d.month, 2);
    FieldOfPad(s, 8, d.day, 2);
    FieldOfPad(s, 11, d.hour, 2);
  }

  /** `yyyy_MM_dd_HH_mm_ss.pcm` parses back to the date-time it was made from. */
  lemma RecordingNameRoundTrip(d: DateTime)
    requires Valid(d) && d.year < 10000
    ensures |RecordingName(d)| == 23
    ensures ParseRecordingName(RecordingName(d)) == Some(d)
  {
    var s := RecordingName(d);
    StampLayout(d);
    var h := HourStamp(d);
    assert Pow10(2) == 100 && Pow10(4) == 10000;
    PadWidth(d.minute, 2);
    PadWidth(d.second, 2);
    assert s[..13] == h;
    assert s[13] == '_' && s[16] == '_';
    assert s[14..16] == Pad(d.minute, 2) && s[17..19] == Pad(d.second, 2);
    assert s[19..] == ".pcm";
    assert s[0..4] == h[0..4] && s[5..7] == h[5..7] && s[8..10] == h[8..10] && s[11..13] == h[11..13];
    FieldOfPad(s, 0, d.year, 4);
    FieldOfPad(s, 5, d.month, 2);
    FieldOfPad(s, 8, d.day, 2);
    FieldOfPad(s, 11, d.hour, 2);
    FieldOfPad(s, 14, d.minute, 2);
    FieldOfPad(s, 17, d.second, 2);
  }

  /** Two captures share a log file exactly when they fall in the same hour. */
  lemma SameLogFileIffSameHour(d1: DateTime, d2: DateTime)
    requires Valid(d1) && d1.year < 10000 && Valid(d2) && d2.year < 10000
    ensures LogFileName(d1) == LogFileName(d2) <==> HourOf(d1) == HourOf(d2)
  {
    LogFileNameRoundTrip(d1);
    LogFileNameRoundTrip(d2);
  }

  /** Two recordings get the same name exactly when they start in the same second. */
  lemma SameRecordingIffSameSecond(d1: DateTime, d2: DateTime)
    requires Valid(d1) && d1.year < 10000 && Valid(d2) && d2.year < 10000
    ensures RecordingName(d1) == RecordingName(d2) <==> d1 == d2
  {
    RecordingNameRoundTrip(d1);
    RecordingNameRoundTrip(d2);
  }

  /** A recording's name begins with the hour stamp of the log file for the same instant. */
  lemma RecordingSharesHourStamp(d: DateTime)
    ensures LogFileName(d)[..|HourStamp(d)|] == HourStamp(d)
    ensures RecordingName(d)[..|HourStamp(d)| + 1] == HourStamp(d) + "_"
  {
    var h := HourStamp(d);
    assert RecordingName(d) == (h + "_") + (Pad(d.minute, 2) + "_" + Pad(d.second, 2) + ".pcm");
  }
}
