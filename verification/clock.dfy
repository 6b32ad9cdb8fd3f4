/** The `"%Y%m%d_%H%M%S"` timestamps used to make names unique. The clock
    itself is not modelled: the current time is always a parameter. Like
    `datetime.now()`, a time carries microseconds, and the format drops
    them, so two times within one second share a timestamp. */
module Clock {
  import opened Base
  import opened Numerals

  datatype DateTime = DateTime(year: int, month: int, day: int, hour: int, minute: int, second: int,
                                microsecond: int)

  /** The field ranges of Python's `datetime`, with four-digit years. */
  predicate Formattable(d: DateTime) {
    && 1000 <= d.year <= 9999
    && 1 <= d.month <= 12
    && 1 <= d.day <= 31
    && 0 <= d.hour <= 23
    && 0 <= d.minute <= 59
    && 0 <= d.second <= 59
    && 0 <= d.microsecond <= 999999
  }

  /** The time truncated to the whole second. */
  function WholeSecond(d: DateTime): DateTime {
    d.(microsecond := 0)
  }

  /** The shape of a timestamp: fifteen characters, six digit fields and an
      underscore at index 8. */
  predicate TimestampShaped(s: string) {
    && |s| == 15
    && s[8] == '_'
    && AllDigits(s[0..4]) && AllDigits(s[4..6]) && AllDigits(s[6..8])
    && AllDigits(s[9..11]) && AllDigits(s[11..13]) && AllDigits(s[13..15])
  }

  /** `d.strftime("%Y%m%d_%H%M%S")`. */
  function Timestamp(d: DateTime): (s: string)
    requires Formattable(d)
    ensures TimestampShaped(s)
  {
    Padded(d.year, 4) + Padded(d.month, 2) + Padded(d.day, 2) + "_"
      + Padded(d.hour, 2) + Padded(d.minute, 2) + Padded(d.second, 2)
  }

  /** Reads a timestamp back as a whole second; `None` for anything
      `Timestamp` cannot produce. */
  function ParseTimestamp(s: string): (r: Option<DateTime>)
    ensures r.Some? ==> Formattable(r.value) && r.value.microsecond == 0 && Timestamp(r.value) == s
  {
    if TimestampShaped(s) then
      var d := DateTime(DigitsValue(s[0..4]), DigitsValue(s[4..6]), DigitsValue(s[6..8]),
                        DigitsValue(s[9..11]), DigitsValue(s[11..13]), DigitsValue(s[13..15]), 0);
      if Formattable(d) then
        DigitsRoundTrip(s[0..4]);
        DigitsRoundTrip(s[4..6]);
        DigitsRoundTrip(s[6..8]);
        DigitsRoundTrip(s[9..11]);
        DigitsRoundTrip(s[11..13]);
        DigitsRoundTrip(s[13..15]);
        SplitTimestamp(s);
        Some(d)
      else
        None
    else
      None
  }

  lemma SplitTimestamp(s: string)
    requires |s| == 15 && s[8] == '_'
    ensures s == s[0..4] + s[4..6] + s[6..8] + "_" + s[9..11] + s[11..13] + s[13..15]
  {
    assert s[..6] == s[0..4] + s[4..6];
    assert s[..8] == s[..6] + s[6..8];
    assert s[..9] == s[..8] + "_";
    assert s[..11] == s[..9] + s[9..11];
    assert s[..13] == s[..11] + s[11..13];
    assert s == s[..13] + s[13..15];
  }

  /** Every timestamp reads back as the time it was made from, truncated to
      the second. */
  lemma ParseTimestampRoundTrip(d: DateTime)
    requires Formattable(d)
    ensures ParseTimestamp(Timestamp(d)) == Some(WholeSecond(d))
  {
    var s := Timestamp(d);
    assert s[0..4] == Padded(d.year, 4);
    assert s[4..6] == Padded(d.month, 2);
    assert s[6..8] == Padded(d.day, 2);
    assert s[9..11] == Padded(d.hour, 2);
    assert s[11..13] == Padded(d.minute, 2);
    assert s[13..15] == Padded(d.second, 2);
    PaddedRoundTrip(d.year, 4);
    PaddedRoundTrip(d.month, 2);
    PaddedRoundTrip(d.day, 2);
    PaddedRoundTrip(d.hour, 2);
    PaddedRoundTrip(d.minute, 2);
    PaddedRoundTrip(d.second, 2);
  }

  /** Two times share a timestamp exactly when they fall in the same second. */
  lemma TimestampSameSecond(d: DateTime, e: DateTime)
    requires Formattable(d) && Formattable(e)
    ensures Timestamp(d) == Timestamp(e) <==> WholeSecond(d) == WholeSecond(e)
  {
    if Timestamp(d) == Timestamp(e) {
      ParseTimestampRoundTrip(d);
      ParseTimestampRoundTrip(e);
    }
  }

  /** 12:00:00.1 and 12:00:00.9 on the same day are different times with
      the same timestamp. */
  lemma TimestampDropsMicroseconds()
    ensures var d := DateTime(2024, 1, 1, 12, 0, 0, 100000);
            var e := DateTime(2024, 1, 1, 12, 0, 0, 900000);
            d != e && Timestamp(d) == Timestamp(e)
  {
    var d := DateTime(2024, 1, 1, 12, 0, 0, 100000);
    var e := DateTime(2024, 1, 1, 12, 0, 0, 900000);
    TimestampSameSecond(d, e);
  }
}
