/** The sampler's two settings, kept as Longs in a key-value preference
    store: how many seconds one recording lasts and how many seconds apart
    recordings start. Absent keys read as the defaults 4 and 60. The setters
    reject bad values silently, and the interval setter clamps the length
    down below the interval. The loop waits the gap `interval - length`
    between recordings so that one recording starts every `interval`
    seconds. */
module SampleConfig {
  import opened Jvm

  // The keys say "msecs" but the stored values are seconds.
  const KEY_SAMPLE_LENGTH: string := "serc.sample.len.msecs"
  const KEY_SAMPLE_INTERVAL: string := "serc.sample.interval.msecs"
  const DEFAULT_SAMPLE_LENGTH_SECONDS: Long := 4
  const DEFAULT_SAMPLE_INTERVAL_SECONDS: Long := 60

  /** The preference store, seen through `getLong`/`preserveLong`. */
  type Prefs = map<string, Long>

  function GetSampleSecondLength(p: Prefs): Long {
    if KEY_SAMPLE_LENGTH in p then p[KEY_SAMPLE_LENGTH] else DEFAULT_SAMPLE_LENGTH_SECONDS
  }

  function GetSampleSecondInterval(p: Prefs): Long {
    if KEY_SAMPLE_INTERVAL in p then p[KEY_SAMPLE_INTERVAL] else DEFAULT_SAMPLE_INTERVAL_SECONDS
  }

  /** The configuration the setters are meant to keep: a positive length
      strictly shorter than the interval. */
  predicate ValidConfig(p: Prefs) {
    0 < GetSampleSecondLength(p) < GetSampleSecondInterval(p)
  }

  /** Stores `len` only when it is positive and below the current interval. */
  function SetSampleSecondLength(p: Prefs, len: Long): (r: Prefs)
    ensures r - {KEY_SAMPLE_LENGTH} == p - {KEY_SAMPLE_LENGTH}
    ensures GetSampleSecondInterval(r) == GetSampleSecondInterval(p)
    ensures 0 < len < GetSampleSecondInterval(p) ==> GetSampleSecondLength(r) == len
    ensures !(0 < len < GetSampleSecondInterval(p)) ==> r == p
  {
    if len > 0 && len < GetSampleSecondInterval(p) then p[KEY_SAMPLE_LENGTH := len] else p
  }

  /** Stores `i` only when positive; then, if the stored length is not below
      the interval now in force, stores `interval - 1` (Long arithmetic) as
      the length. */
  function SetSampleSecondInterval(p: Prefs, i: Long): (r: Prefs)
    ensures r - {KEY_SAMPLE_LENGTH, KEY_SAMPLE_INTERVAL} == p - {KEY_SAMPLE_LENGTH, KEY_SAMPLE_INTERVAL}
    ensures GetSampleSecondInterval(r) == if i > 0 then i else GetSampleSecondInterval(p)
    ensures GetSampleSecondLength(p) >= GetSampleSecondInterval(r) ==>
                  GetSampleSecondLength(r) == SubLong(GetSampleSecondInterval(r), 1)
    ensures GetSampleSecondLength(p) < GetSampleSecondInterval(r) ==>
                  GetSampleSecondLength(r) == GetSampleSecondLength(p)
    ensures GetSampleSecondInterval(r) != LONG_MIN ==>
                  GetSampleSecondLength(r) < GetSampleSecondInterval(r)
  {
    var p1 := if i > 0 then p[KEY_SAMPLE_INTERVAL := i] else p;
    if GetSampleSecondLength(p1) >= GetSampleSecondInterval(p1)
    then p1[KEY_SAMPLE_LENGTH := SubLong(GetSampleSecondInterval(p1), 1)]
    else p1
  }

  /** Milliseconds the loop waits before each recording:
      `(interval - length) * 1000` in Long arithmetic. */
  function GapMillis(p: Prefs): (r: Long)
    ensures GetSampleSecondLength(p) < GetSampleSecondInterval(p)
              && GetSampleSecondInterval(p) - GetSampleSecondLength(p) <= LONG_MAX / 1000 ==>
                  r > 0 && r % 1000 == 0
                  && r / 1000 + GetSampleSecondLength(p) == GetSampleSecondInterval(p)
  {
    MulLong(SubLong(GetSampleSecondInterval(p), GetSampleSecondLength(p)), 1000)
  }

  // ---------------------------------------------------------------------
  // Properties
  // ---------------------------------------------------------------------

  /** With nothing stored, the length reads 4 and the interval 60, a valid configuration. */
  lemma DefaultsWhenUnset(p: Prefs)
    requires KEY_SAMPLE_LENGTH !in p && KEY_SAMPLE_INTERVAL !in p
    ensures GetSampleSecondLength(p) == 4 && GetSampleSecondInterval(p) == 60
    ensures ValidConfig(p)
  {
  }

  /** `getLong` reads back what `preserveLong` stored under its own key, and
      a write under any other key leaves both settings as they were. */
  lemma StoredSettingsReadBack(p: Prefs, k: string, v: Long)
    ensures GetSampleSecondLength(p[KEY_SAMPLE_LENGTH := v]) == v
    ensures GetSampleSecondInterval(p[KEY_SAMPLE_INTERVAL := v]) == v
    ensures GetSampleSecondInterval(p[KEY_SAMPLE_LENGTH := v]) == GetSampleSecondInterval(p)
    ensures GetSampleSecondLength(p[KEY_SAMPLE_INTERVAL := v]) == GetSampleSecondLength(p)
    ensures k != KEY_SAMPLE_LENGTH && k != KEY_SAMPLE_INTERVAL ==>
              GetSampleSecondLength(p[k := v]) == GetSampleSecondLength(p)
              && GetSampleSecondInterval(p[k := v]) == GetSampleSecondInterval(p)
  {
  }

  /** `setSampleSecondLength` never breaks `length < interval`, nor validity. */
  lemma SetLengthKeepsOrder(p: Prefs, len: Long)
    ensures GetSampleSecondLength(p) < GetSampleSecondInterval(p) ==>
                  GetSampleSecondLength(SetSampleSecondLength(p, len))
                  < GetSampleSecondInterval(SetSampleSecondLength(p, len))
    ensures ValidConfig(p) ==> ValidConfig(SetSampleSecondLength(p, len))
  {
  }

  /** A length equal to the interval is rejected: from the defaults,
      `setSampleSecondLength(60)` changes nothing. */
  lemma SetLengthRejectsInterval(p: Prefs)
    ensures SetSampleSecondLength(p, GetSampleSecondInterval(p)) == p
  {
  }

  /** Length 10, then interval 5, leaves the length clamped to 4. */
  lemma ClampExample()
    ensures var p := SetSampleSecondInterval(SetSampleSecondLength(map[], 10), 5);
            GetSampleSecondLength(p) == 4 && GetSampleSecondInterval(p) == 5
  {
    var p1 := SetSampleSecondLength(map[], 10);
    assert GetSampleSecondLength(p1) == 10;
  }

  /** As written, an interval of 1 is accepted and clamps the length to 0,
      although `setSampleSecondLength` never stores a length below 1; the
      loop then waits a whole second and asks the recorder for zero. */
  lemma IntervalOneZeroesLength(p: Prefs)
    requires ValidConfig(p)
    ensures GetSampleSecondLength(SetSampleSecondInterval(p, 1)) == 0
    ensures !ValidConfig(SetSampleSecondInterval(p, 1))
    ensures GapMillis(SetSampleSecondInterval(p, 1)) == 1000
  {
  }

  /** When an interval of `LONG_MIN` is already stored and the new value is
      rejected, `interval - 1` wraps to `LONG_MAX` and the order is lost. */
  lemma MinLongIntervalWraps()
    ensures var p := SetSampleSecondInterval(map[KEY_SAMPLE_INTERVAL := LONG_MIN], 0);
            GetSampleSecondLength(p) == LONG_MAX && GetSampleSecondLength(p) > GetSampleSecondInterval(p)
  {
  }

  /** For a gap beyond `LONG_MAX / 1000` seconds the product wraps, so the
      wait no longer matches the gap; at interval `LONG_MAX` it is negative
      and the loop does not wait at all. */
  lemma HugeIntervalGapWraps()
    ensures var p := map[KEY_SAMPLE_LENGTH := 1, KEY_SAMPLE_INTERVAL := LONG_MAX];
            ValidConfig(p) && GapMillis(p) < 0
  {
  }

  /** The interval setter with the guard the length setter implies: an
      interval is accepted only when it leaves room for a positive length. */
  function SetSampleSecondIntervalGuarded(p: Prefs, i: Long): (r: Prefs)
    ensures GetSampleSecondInterval(r) == if i > 1 then i else GetSampleSecondInterval(p)
    ensures ValidConfig(p) ==> ValidConfig(r)
    ensures ValidConfig(p) && GetSampleSecondLength(p) < GetSampleSecondInterval(r) ==>
                  GetSampleSecondLength(r) == GetSampleSecondLength(p)
    ensures ValidConfig(p) && GetSampleSecondLength(p) >= GetSampleSecondInterval(r) ==>
                  GetSampleSecondLength(r) == GetSampleSecondInterval(r) - 1
  {
    var p1 := if i > 1 then p[KEY_SAMPLE_INTERVAL := i] else p;
    if GetSampleSecondLength(p1) >= GetSampleSecondInterval(p1)
    then p1[KEY_SAMPLE_LENGTH := SubLong(GetSampleSecondInterval(p1), 1)]
    else p1
  }
}
