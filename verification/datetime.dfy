/** Timestamps: the `date-time` production of section 5.6 of RFC 3339, which
    the schema demands of `createdAt`, `updatedAt` and a non-null
    `completedAt`; and the text `Date.prototype.toISOString` writes, which
    `complete` sends as the completion instant. */
module DateTime {
  import opened Text

  predicate IsLeapYear(year: int) {
    year % 4 == 0 && (year % 100 != 0 || year % 400 == 0)
  }

  /** The last valid day of a month (appendix C of RFC 3339). */
  function DaysInMonth(year: int, month: int): nat
    requires 1 <= month <= 12
  {
    if month == 2 then (if IsLeapYear(year) then 29 else 28)
    else if month == 4 || month == 6 || month == 9 || month == 11 then 30
    else 31
  }

  /** `s[a..b]` exists and is all decimal digits. */
  predicate DigitsAt(s: string, a: int, b: int) {
    0 <= a <= b <= |s| && AllDigits(s[a..b])
  }

  function ValueAt(s: string, a: int, b: int): nat
    requires DigitsAt(s, a, b)
  {
    DigitsValue(s[a..b])
  }

  /** `full-date`: YYYY-MM-DD naming a day that exists. */
  predicate IsFullDate(s: string) {
    && |s| == 10
    && DigitsAt(s, 0, 4) && s[4] == '-' && DigitsAt(s, 5, 7) && s[7] == '-' && DigitsAt(s, 8, 10)
    && 1 <= ValueAt(s, 5, 7) <= 12
    && 1 <= ValueAt(s, 8, 10) <= DaysInMonth(ValueAt(s, 0, 4), ValueAt(s, 5, 7))
  }

  /** `partial-time` without its fraction: HH:MM:SS, allowing a leap second 60. */
  predicate IsHourMinuteSecond(s: string) {
    && |s| == 8
    && DigitsAt(s, 0, 2) && s[2] == ':' && DigitsAt(s, 3, 5) && s[5] == ':' && DigitsAt(s, 6, 8)
    && ValueAt(s, 0, 2) <= 23 && ValueAt(s, 3, 5) <= 59 && ValueAt(s, 6, 8) <= 60
  }

  /** `time-offset`: Z, or a signed HH:MM. */
  predicate IsTimeOffset(s: string) {
    || s == "Z" || s == "z"
    || (&& |s| == 6 && (s[0] == '+' || s[0] == '-')
        && DigitsAt(s, 1, 3) && s[3] == ':' && DigitsAt(s, 4, 6)
        && ValueAt(s, 1, 3) <= 23 && ValueAt(s, 4, 6) <= 59)
  }

  /** Length of the optional `time-secfrac` ("." and one or more digits)
      at the start of `s`; 0 when there is none. */
  function SecFracLength(s: string): (n: nat)
    ensures n <= |s|
  {
    if |s| >= 2 && s[0] == '.' && IsDigit(s[1]) then 1 + DigitPrefix(s[1..]) else 0
  }

  /** `date-time`: full-date "T" partial-time time-offset. "T" and "Z" may be
      lower case, as the RFC allows. */
  predicate IsDateTime(s: string) {
    && |s| >= 20
    && IsFullDate(s[..10])
    && (s[10] == 'T' || s[10] == 't')
    && IsHourMinuteSecond(s[11..19])
    && IsTimeOffset(s[19 + SecFracLength(s[19..])..])
  }

  // ---------------------------------------------------------------------------
  // Date.prototype.toISOString
  // ---------------------------------------------------------------------------

  /** A reading of the clock, in UTC calendar fields. */
  datatype Instant = Instant(year: int, month: int, day: int,
                             hour: int, minute: int, second: int, millisecond: int)

  /** Fields of an instant in the years a JavaScript `Date` reaches, -271821 to
      275760. This is a superset of what a `Date` holds: it stops at
      -271821-04-20 and 275760-09-13, while every day of those two years is
      admitted here. */
  predicate ValidInstant(t: Instant) {
    && -271821 <= t.year <= 275760
    && 1 <= t.month <= 12 && 1 <= t.day <= DaysInMonth(t.year, t.month)
    && 0 <= t.hour < 24 && 0 <= t.minute < 60 && 0 <= t.second < 60
    && 0 <= t.millisecond < 1000
  }

  /** Four digits for years 0 to 9999; otherwise a sign and six digits. */
  function YearText(year: int): (r: string)
    requires -999999 <= year <= 999999
    ensures |r| == if 0 <= year <= 9999 then 4 else 7
  {
    assert Pow10(4) == 10000 && Pow10(6) == 1000000;
    if 0 <= year <= 9999 then Pad(year, 4)
    else if year < 0 then "-" + Pad(-year, 6)
    else "+" + Pad(year, 6)
  }

  function DateText(t: Instant): string
    requires ValidInstant(t)
  {
    assert Pow10(2) == 100;
    YearText(t.year) + "-" + Pad(t.month, 2) + "-" + Pad(t.day, 2)
  }

  function TimeText(t: Instant): string
    requires ValidInstant(t)
  {
    assert Pow10(2) == 100;
    Pad(t.hour, 2) + ":" + Pad(t.minute, 2) + ":" + Pad(t.second, 2)
  }

  /** `YYYY-MM-DDTHH:mm:ss.sssZ`, always in UTC; years outside 0..9999 are
      written with a sign and six digits. */
  function ToIsoString(t: Instant): (r: string)
    requires ValidInstant(t)
    ensures |r| == if 0 <= t.year <= 9999 then 24 else 27
    ensures r[|r| - 1] == 'Z' && r[|r| - 5] == '.' && r[|r| - 14] == 'T'
    ensures !(0 <= t.year <= 9999) <==> r[0] == '+' || r[0] == '-'
  {
    assert Pow10(3) == 1000;
    DateText(t) + "T" + TimeText(t) + "." + Pad(t.millisecond, 3) + "Z"
  }

  lemma DateTextIsFullDate(t: Instant)
    requires ValidInstant(t) && 0 <= t.year <= 9999
    ensures IsFullDate(DateText(t))
    ensures ValueAt(DateText(t), 0, 4) == t.year
    ensures ValueAt(DateText(t), 5, 7) == t.month
    ensures ValueAt(DateText(t), 8, 10) == t.day
  {
    assert Pow10(2) == 100 && Pow10(4) == 10000;
    var s := DateText(t);
    assert s[0..4] == Pad(t.year, 4);
    assert s[5..7] == Pad(t.month, 2);
    assert s[8..10] == Pad(t.day, 2);
  }

  lemma TimeTextIsHourMinuteSecond(t: Instant)
    requires ValidInstant(t)
    ensures IsHourMinuteSecond(TimeText(t))
    ensures ValueAt(TimeText(t), 0, 2) == t.hour
    ensures ValueAt(TimeText(t), 3, 5) == t.minute
    ensures ValueAt(TimeText(t), 6, 8) == t.second
  {
    assert Pow10(2) == 100;
    var s := TimeText(t);
    assert s[0..2] == Pad(t.hour, 2);
    assert s[3..5] == Pad(t.minute, 2);
    assert s[6..8] == Pad(t.second, 2);
  }

  /** What `toISOString` writes is an RFC 3339 date-time exactly when the year
      fits in four digits, and then it names the same calendar day and time. */
  lemma IsoStringIsDateTime(t: Instant)
    requires ValidInstant(t)
    ensures IsDateTime(ToIsoString(t)) <==> 0 <= t.year <= 9999
    ensures 0 <= t.year <= 9999 ==>
      var s := ToIsoString(t);
      && ValueAt(s[..10], 0, 4) == t.year && ValueAt(s[..10], 5, 7) == t.month
      && ValueAt(s[..10], 8, 10) == t.day
      && ValueAt(s[11..19], 0, 2) == t.hour && ValueAt(s[11..19], 3, 5) == t.minute
      && ValueAt(s[11..19], 6, 8) == t.second
  {
    if 0 <= t.year <= 9999 {
      IsoStringInRange(t);
    } else {
      IsoStringOutOfRange(t);
    }
  }

  lemma IsoStringInRange(t: Instant)
    requires ValidInstant(t) && 0 <= t.year <= 9999
    ensures IsDateTime(ToIsoString(t))
    ensures var s := ToIsoString(t);
      && ValueAt(s[..10], 0, 4) == t.year && ValueAt(s[..10], 5, 7) == t.month
      && ValueAt(s[..10], 8, 10) == t.day
      && ValueAt(s[11..19], 0, 2) == t.hour && ValueAt(s[11..19], 3, 5) == t.minute
      && ValueAt(s[11..19], 6, 8) == t.second
  {
    assert Pow10(3) == 1000;
    var s := ToIsoString(t);
    var date := DateText(t);
    var time := TimeText(t);
    DateTextIsFullDate(t);
    TimeTextIsHourMinuteSecond(t);
    assert |date| == 10 && |time| == 8;
    assert s[..10] == date;
    assert s[10] == 'T';
    assert s[11..19] == time;
    IsoStringEnding(t);
  }

  /** After the seconds come three fraction digits and "Z". */
  lemma IsoStringEnding(t: Instant)
    requires ValidInstant(t) && 0 <= t.year <= 9999
    ensures |ToIsoString(t)| == 24
    ensures SecFracLength(ToIsoString(t)[19..]) == 4 && ToIsoString(t)[23..] == "Z"
  {
    assert Pow10(2) == 100 && Pow10(3) == 1000 && Pow10(4) == 10000;
    var s := ToIsoString(t);
    var ms := Pad(t.millisecond, 3);
    assert |DateText(t)| == 10 && |TimeText(t)| == 8;
    var tail := s[19..];
    assert tail == "." + ms + "Z";
    assert tail[1..] == ms + "Z";
    DigitPrefixOfNumeral(ms, "Z");
  }

  lemma IsoStringOutOfRange(t: Instant)
    requires ValidInstant(t) && !(0 <= t.year <= 9999)
    ensures !IsDateTime(ToIsoString(t))
  {
    var s := ToIsoString(t);
    assert s[0] == YearText(t.year)[0];
    assert !IsDigit(s[0]);
    assert s[..10][0..4][0] == s[0];
    assert !IsFullDate(s[..10]);
  }
}
