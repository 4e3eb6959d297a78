/** Python `datetime` values as the session registry uses them: the
    `%Y%m%d%H%M%S` text form written by `strftime` and read by `strptime`,
    and the difference of two instants as a `timedelta`. */
module Timestamps {
  import opened Wrappers
  import opened Strings

  /** A naive `datetime` (no time zone), down to the microsecond. */
  datatype DateTime = DateTime(year: int, month: int, day: int,
                               hour: int, minute: int, second: int, micro: int)

  /** A day in seconds (DAY in the service). */
  const DAY := 86400

  predicate IsLeap(y: int) {
    y % 4 == 0 && (y % 100 != 0 || y % 400 == 0)
  }

  function DaysInMonth(y: int, m: int): int
    requires 1 <= m <= 12
  {
    if m == 2 then (if IsLeap(y) then 29 else 28)
    else if m == 4 || m == 6 || m == 9 || m == 11 then 30
    else 31
  }

  /** The field ranges the `datetime` constructor accepts. */
  predicate Valid(d: DateTime) {
    && 1 <= d.year <= 9999
    && 1 <= d.month <= 12
    && 1 <= d.day <= DaysInMonth(d.year, d.month)
    && 0 <= d.hour < 24 && 0 <= d.minute < 60 && 0 <= d.second < 60
    && 0 <= d.micro < 1000000
  }

  /** `d.strftime('%Y%m%d%H%M%S')`: fourteen digits, the year padded to four. */
  function Format14(d: DateTime): (s: string)
    requires Valid(d)
    ensures |s| == 14 && AllDigits(s)
  {
    Pad(d.year, 4) + Pad(d.month, 2) + Pad(d.day, 2)
      + Pad(d.hour, 2) + Pad(d.minute, 2) + Pad(d.second, 2)
  }

  /** The fields of a fourteen-digit string, read at their fixed offsets. */
  function Fields14(s: string): DateTime
    requires |s| == 14 && AllDigits(s)
  {
    DateTime(DigitsValue(s[0..4]), DigitsValue(s[4..6]), DigitsValue(s[6..8]),
             DigitsValue(s[8..10]), DigitsValue(s[10..12]), DigitsValue(s[12..14]), 0)
  }

  /** `datetime.strptime(s, '%Y%m%d%H%M%S')` on a fourteen-digit string:
      None stands for the ValueError raised by a malformed string or an
      out-of-range field. */
  function Parse14(s: string): (r: Option<DateTime>)
    ensures r.Some? ==> Valid(r.value) && r.value.micro == 0
    ensures r.Some? ==> |s| == 14 && AllDigits(s)
  {
    if |s| != 14 || !AllDigits(s) then None
    else if Valid(Fields14(s)) then Some(Fields14(s))
    else None
  }

  /** Writing a date and reading it back keeps it to the second. */
  lemma ParseFormat(d: DateTime)
    requires Valid(d)
    ensures Parse14(Format14(d)) == Some(d.(micro := 0))
  {
    var s := Format14(d);
    PadValue(d.year, 4);
    PadValue(d.month, 2);
    PadValue(d.day, 2);
    PadValue(d.hour, 2);
    PadValue(d.minute, 2);
    PadValue(d.second, 2);
    assert s[0..4] == Pad(d.year, 4);
    assert s[4..6] == Pad(d.month, 2);
    assert s[6..8] == Pad(d.day, 2);
    assert s[8..10] == Pad(d.hour, 2);
    assert s[10..12] == Pad(d.minute, 2);
    assert s[12..14] == Pad(d.second, 2);
  }

  /** A string the parser accepts is written back unchanged. */
  lemma FormatParse(s: string)
    requires Parse14(s).Some?
    ensures Format14(Parse14(s).value) == s
  {
    var d := Parse14(s).value;
    assert d == Fields14(s);
    PadField(s, 0, 4);
    PadField(s, 4, 6);
    PadField(s, 6, 8);
    PadField(s, 8, 10);
    PadField(s, 10, 12);
    PadField(s, 12, 14);
    Pieces14(s);
    assert Format14(d) == s[0..4] + s[4..6] + s[6..8] + s[8..10] + s[10..12] + s[12..14];
  }

  /** A field of a digit string, read and written back at its width, is unchanged. */
  lemma PadField(s: string, i: nat, j: nat)
    requires i <= j <= |s| && AllDigits(s)
    ensures Pad(DigitsValue(s[i..j]), j - i) == s[i..j]
  {
    assert forall k :: 0 <= k < j - i ==> s[i..j][k] == s[i + k];
    ValuePad(s[i..j]);
  }

  lemma Pieces14<T>(s: seq<T>)
    requires |s| == 14
    ensures s == s[0..4] + s[4..6] + s[6..8] + s[8..10] + s[10..12] + s[12..14]
  {
  }

  /** `datetime.strptime(s, '%Y-%m-%dT%H:%M:%S')` on the zero-padded form
      `YYYY-MM-DDTHH:MM:SS`: the same fields as the fourteen-digit form, with
      separators between them. */
  function ParseIso(s: string): (r: Option<DateTime>)
    ensures r.Some? ==> Valid(r.value) && r.value.micro == 0
    ensures r.Some? ==> |s| == 19 && s[4] == '-' && s[10] == 'T' && s[13] == ':'
  {
    if |s| != 19 || s[4] != '-' || s[7] != '-' || s[10] != 'T' || s[13] != ':' || s[16] != ':' then None
    else Parse14(s[0..4] + s[5..7] + s[8..10] + s[11..13] + s[14..16] + s[17..19])
  }

  // ---------------------------------------------------------------------------
  // Instants and differences

  /** The number of days before January 1 of year y, counting from 1 January of year 1. */
  function DaysBeforeYear(y: int): int
    requires y >= 1
  {
    var p := y - 1;
    p * 365 + p / 4 - p / 100 + p / 400
  }

  function DaysBeforeMonth(y: int, m: int): int
    requires 1 <= m <= 12
    decreases m
  {
    if m == 1 then 0 else DaysBeforeMonth(y, m - 1) + DaysInMonth(y, m - 1)
  }

  /** `d.toordinal()`: 1 for 1 January of year 1. */
  function Ordinal(d: DateTime): int
    requires Valid(d)
  {
    DaysBeforeYear(d.year) + DaysBeforeMonth(d.year, d.month) + d.day
  }

  /** The instant d in microseconds since the start of the proleptic calendar. */
  function Micros(d: DateTime): int
    requires Valid(d)
  {
    ((Ordinal(d) * DAY + d.hour * 3600 + d.minute * 60 + d.second) * 1000000) + d.micro
  }

  /** `a - b` as a number of microseconds (the exact timedelta). */
  function ElapsedMicros(a: DateTime, b: DateTime): int
    requires Valid(a) && Valid(b)
  {
    Micros(a) - Micros(b)
  }

  /** `(a - b).seconds`: the seconds part of the normalised timedelta, which
      keeps whole days in `.days` and microseconds in `.microseconds`. */
  function TimedeltaSeconds(a: DateTime, b: DateTime): (s: int)
    requires Valid(a) && Valid(b)
    ensures 0 <= s < DAY
  {
    (ElapsedMicros(a, b) / 1000000) % DAY
  }
}
