/** The human-readable date of a daily bucket, `YYYY-MM-DD` in the proleptic
    Gregorian calendar (UTC), as `Date.toISOString().split('T')[0]` prints it,
    and the 32-bit integer arithmetic the handler performs before asking for it. */
module CivilDate {
  import opened Text

  const I32Limit: int := 0x8000_0000
  const SecondsPerDay: nat := 86400
  const MillisPerDay: nat := 86_400_000

  datatype Date = Date(year: int, month: int, day: int)

  /** Two's-complement wrap-around of an integer to a signed 32-bit value. */
  function WrapI32(x: int): (r: int)
    ensures -I32Limit <= r < I32Limit
    ensures (x - r) % 0x1_0000_0000 == 0
    ensures -I32Limit <= x < I32Limit ==> r == x
  {
    var m := x % 0x1_0000_0000;
    if m >= I32Limit then m - 0x1_0000_0000 else m
  }

  /** The day (since 1970-01-01) that a millisecond instant falls in: floor division. */
  function DayOfMillis(ms: int): (day: int)
    ensures day * MillisPerDay <= ms < (day + 1) * MillisPerDay
  {
    ms / MillisPerDay
  }

  /** Days from the start of a 400-year era to the start of its year `yoe` (years begin on March 1st). */
  function YearStartInEra(yoe: int): int {
    365 * yoe + yoe / 4 - yoe / 100
  }

  /** Days from March 1st to the start of month `mp` counted from March (0 = March). */
  function MonthStart(mp: int): int {
    (153 * mp + 2) / 5
  }

  /** Splits a day of a 400-year era (counted from March 1st of its first year) into the
      year of the era and the day of that March-based year. */
  function SplitDayOfEra(doe: int): (r: (int, int))
    requires 0 <= doe < 146097
    ensures 0 <= r.0 < 400 && 0 <= r.1 < 366
    ensures r.1 == 365 ==> r.0 % 4 == 3 && (r.0 % 100 != 99 || r.0 == 399)
    ensures doe == YearStartInEra(r.0) + r.1
  {
    var century := if doe / 36524 < 4 then doe / 36524 else 3;  // the last century has 36525 days
    var inCentury := doe - 36524 * century;
    var block := inCentury / 1461;                                 // four-year blocks
    var inBlock := inCentury - 1461 * block;
    var year := if inBlock / 365 < 4 then inBlock / 365 else 3;     // the last year of a block has 366 days
    var yoe := 100 * century + 4 * block + year;
    assert yoe / 4 == 25 * century + block;
    assert yoe / 100 == century;
    (yoe, inBlock - 365 * year)
  }

  /** Gregorian leap years: every fourth year, except centuries not divisible by 400. */
  predicate IsLeapYear(y: int) {
    y % 4 == 0 && (y % 100 != 0 || y % 400 == 0)
  }

  function DaysInMonth(y: int, m: int): (n: int)
    requires 1 <= m <= 12
    ensures 28 <= n <= 31
  {
    if m == 2 then (if IsLeapYear(y) then 29 else 28)
    else if m == 4 || m == 6 || m == 9 || m == 11 then 30
    else 31
  }

  /** Converts a day count since 1970-01-01 to a civil date (year, month, day). */
  function CivilFromDays(z: int): (date: Date)
    ensures 1 <= date.month <= 12 && 1 <= date.day <= 31
  {
    var shifted := z + 719468;           // days since 0000-03-01
    var era := shifted / 146097;         // 400-year eras, floor division
    var doe := shifted - era * 146097;   // day of era, 0 ..= 146096
    var (yoe, doy) := SplitDayOfEra(doe);
    DateOfEraDay(era, yoe, doy)
  }

  /** The date of every day count exists in the Gregorian calendar: its day is within the
      length of its month, 29 February only in leap years. */
  lemma CivilDateExists(z: int)
    ensures var date := CivilFromDays(z);
            1 <= date.day <= DaysInMonth(date.year, date.month)
  {
    var shifted := z + 719468;
    var era := shifted / 146097;
    var (yoe, doy) := SplitDayOfEra(shifted - era * 146097);
    assert CivilFromDays(z) == DateOfEraDay(era, yoe, doy);
  }

  /** Month lengths counted from March: MonthStart steps by 31 or 30 days. */
  lemma MonthLength(mp: int)
    requires 0 <= mp < 11
    ensures MonthStart(mp + 1) - MonthStart(mp) == if mp in {1, 3, 6, 8} then 30 else 31
  {
    if mp < 6 {
      if mp < 3 { assert mp == 0 || mp == 1 || mp == 2; } else { assert mp == 3 || mp == 4 || mp == 5; }
    } else {
      if mp < 9 { assert mp == 6 || mp == 7 || mp == 8; } else { assert mp == 9 || mp == 10; }
    }
  }

  /** The year that contains the last day (day 365) of a long March-based year of an era is a leap year. */
  lemma LeapYearOfEra(era: int, yoe: int)
    requires 0 <= yoe < 400 && yoe % 4 == 3 && (yoe % 100 != 99 || yoe == 399)
    ensures IsLeapYear(yoe + era * 400 + 1)
  {
    var y := yoe + era * 400 + 1;
    var q := (yoe + 1) / 4;
    assert yoe + 1 == 4 * q;
    assert y == 4 * (q + 100 * era);
    if yoe == 399 {
      assert y == 400 * (era + 1);
    } else {
      var k, m := y / 100 - 4 * era, y % 100;
      assert yoe + 1 == 100 * k + m;
      assert m != 0 by {
        if k == 0 { } else if k == 1 { } else if k == 2 { } else { assert k == 3; }
      }
    }
  }

  /** The date of day `doy` (counted from March 1st) of year `yoe` of era `era`. */
  function DateOfEraDay(era: int, yoe: int, doy: int): (date: Date)
    requires 0 <= yoe < 400 && 0 <= doy < 366
    requires doy == 365 ==> yoe % 4 == 3 && (yoe % 100 != 99 || yoe == 399)
    ensures 1 <= date.month <= 12
    ensures 1 <= date.day <= DaysInMonth(date.year, date.month)
  {
    var mp := (5 * doy + 2) / 153;       // month counted from March, 0 ..= 11
    var d := doy - MonthStart(mp) + 1;
    var m := if mp < 10 then mp + 3 else mp - 9;
    var y := if m <= 2 then yoe + era * 400 + 1 else yoe + era * 400;
    MonthOfYearRoundTrip(doy);
    if mp < 11 then
      MonthLength(mp);
      Date(y, m, d)
    else
      assert MonthStart(11) == 337;
      if doy == 365 then
        LeapYearOfEra(era, yoe);
        Date(y, m, d)
      else Date(y, m, d)
  }

  /** Converts a civil date back to its day count since 1970-01-01 (the inverse of CivilFromDays). */
  function DaysFromCivil(date: Date): int
    requires 1 <= date.month <= 12
  {
    var y := if date.month <= 2 then date.year - 1 else date.year;
    var era := y / 400;
    var yoe := y - era * 400;
    var mp := if date.month > 2 then date.month - 3 else date.month + 9;
    var doy := MonthStart(mp) + date.day - 1;
    var doe := YearStartInEra(yoe) + doy;
    era * 146097 + doe - 719468
  }

  /** The month-and-day split of a March-based day of year converts back to that day. */
  lemma MonthOfYearRoundTrip(doy: int)
    requires 0 <= doy < 366
    ensures var mp := (5 * doy + 2) / 153;
            var m := if mp < 10 then mp + 3 else mp - 9;
            && 0 <= mp < 12
            && (if m > 2 then m - 3 else m + 9) == mp
            && MonthStart(mp) <= doy
            && (mp < 11 ==> doy < MonthStart(mp + 1))
  {
  }

  lemma EraRoundTrip(era: int, yoe: int)
    requires 0 <= yoe < 400
    ensures (yoe + era * 400) / 400 == era
  {
  }

  lemma DateOfEraDayRoundTrip(era: int, yoe: int, doy: int)
    requires 0 <= yoe < 400 && 0 <= doy < 366
    requires doy == 365 ==> yoe % 4 == 3 && (yoe % 100 != 99 || yoe == 399)
    ensures DaysFromCivil(DateOfEraDay(era, yoe, doy)) == era * 146097 + YearStartInEra(yoe) + doy - 719468
  {
    MonthOfYearRoundTrip(doy);
    EraRoundTrip(era, yoe);
    var date := DateOfEraDay(era, yoe, doy);
    var y := if date.month <= 2 then date.year - 1 else date.year;
    assert y == yoe + era * 400;
    var mp := if date.month > 2 then date.month - 3 else date.month + 9;
    assert MonthStart(mp) + date.day - 1 == doy;
  }

  /** Every day count names a date that converts back to it. */
  lemma CivilRoundTrip(z: int)
    ensures DaysFromCivil(CivilFromDays(z)) == z
  {
    var shifted := z + 719468;
    var era := shifted / 146097;
    var doe := shifted - era * 146097;
    var (yoe, doy) := SplitDayOfEra(doe);
    assert CivilFromDays(z) == DateOfEraDay(era, yoe, doy);
    DateOfEraDayRoundTrip(era, yoe, doy);
  }

  function Zeros(n: nat): (s: string)
    ensures |s| == n && IsDigits(s)
  {
    if n == 0 then [] else Zeros(n - 1) + "0"
  }

  /** A string of zeros reads as 0. */
  lemma {:induction false} ZerosReadAsZero(n: nat)
    ensures ParseDecimal(Zeros(n)) == 0
  {
    if n > 0 {
      var z := Zeros(n);
      assert z[..n - 1] == Zeros(n - 1);
      ZerosReadAsZero(n - 1);
    }
  }

  /** Leading zeros do not change the number a digit string reads as. */
  lemma {:induction false} LeadingZerosReadAsNothing(n: nat, t: string)
    requires IsDigits(t)
    ensures IsDigits(Zeros(n) + t) && ParseDecimal(Zeros(n) + t) == ParseDecimal(t)
    decreases |t|
  {
    var u := Zeros(n) + t;
    assert IsDigits(u) by {
      forall i | 0 <= i < |u|
        ensures '0' <= u[i] <= '9'
      {
        if i >= n {
          assert u[i] == t[i - n];
        }
      }
    }
    if t == [] {
      assert u == Zeros(n);
      ZerosReadAsZero(n);
    } else {
      assert u[..|u| - 1] == Zeros(n) + t[..|t| - 1];
      LeadingZerosReadAsNothing(n, t[..|t| - 1]);
    }
  }

  /** `n` in decimal, left-padded with zeros to at least `width` characters. */
  function Padded(n: nat, width: nat): (s: string)
    ensures IsDigits(s) && ParseDecimal(s) == n
    ensures |s| >= width
    ensures |DecimalString(n)| <= width ==> |s| == width
  {
    var digits := DecimalString(n);
    DecimalRoundTrip(n);
    if |digits| < width then
      LeadingZerosReadAsNothing(width - |digits|, digits);
      Zeros(width - |digits|) + digits
    else digits
  }

  lemma SmallDecimalLength(n: nat, width: nat)
    requires 1 <= width <= 4
    requires n < if width == 1 then 10 else if width == 2 then 100 else if width == 3 then 1000 else 10000
    ensures |DecimalString(n)| <= width
  {
    if n >= 10 {
      SmallDecimalLength(n / 10, width - 1);
    }
  }

  /** ISO 8601 year: four digits in 0 ..= 9999, otherwise a sign and at least six digits. */
  function IsoYear(y: int): (s: string)
    ensures |s| >= 4
    ensures 0 <= y <= 9999 ==> |s| == 4 && IsDigits(s) && ParseDecimal(s) == y
    ensures y < 0 ==> |s| >= 7 && s[0] == '-' && IsDigits(s[1..]) && ParseDecimal(s[1..]) == -y
    ensures y > 9999 ==> |s| >= 7 && s[0] == '+' && IsDigits(s[1..]) && ParseDecimal(s[1..]) == y
  {
    if 0 <= y <= 9999 then
      SmallDecimalLength(y, 4);
      Padded(y, 4)
    else if y < 0 then
      var p := Padded(-y, 6);
      assert ("-" + p)[1..] == p;
      "-" + p
    else
      var p := Padded(y, 6);
      assert ("+" + p)[1..] == p;
      "+" + p
  }

  /** Joining a year and two two-character fields with dashes keeps each field at its place. */
  lemma DashJoin(year: string, month: string, day: string)
    requires |month| == 2 && |day| == 2
    ensures var s, n := year + "-" + month + "-" + day, |year|;
            && |s| == n + 6 && s[..n] == year && s[n] == '-' && s[n + 3] == '-'
            && s[n + 1..n + 3] == month && s[n + 4..] == day
  {
    var s, n := year + "-" + month + "-" + day, |year|;
    assert s[..n] == year;
    assert s[n + 1..n + 3] == month;
    assert s[n + 4..] == day;
  }

  /** `YYYY-MM-DD` of a civil date: the year, a dash, the two-digit month, a dash and the
      two-digit day. */
  function IsoDate(date: Date): (s: string)
    requires 1 <= date.month <= 12 && 1 <= date.day <= 31
    ensures |s| >= 10
  {
    var year, month, day := IsoYear(date.year), Padded(date.month, 2), Padded(date.day, 2);
    year + "-" + month + "-" + day
  }

  /** For a year in 0 ..= 9999 the label is exactly `YYYY-MM-DD`: ten characters, whose
      three dash-separated fields parse to the year, the month and the day. */
  lemma IsoDateReadsBack(date: Date)
    requires 1 <= date.month <= 12 && 1 <= date.day <= 31
    requires 0 <= date.year <= 9999
    ensures var s := IsoDate(date);
            && |s| == 10 && s[4] == '-' && s[7] == '-'
            && IsDigits(s[..4]) && ParseDecimal(s[..4]) == date.year
            && IsDigits(s[5..7]) && ParseDecimal(s[5..7]) == date.month
            && IsDigits(s[8..]) && ParseDecimal(s[8..]) == date.day
  {
    SmallDecimalLength(date.month, 2);
    SmallDecimalLength(date.day, 2);
    var year, month, day := IsoYear(date.year), Padded(date.month, 2), Padded(date.day, 2);
    var s := IsoDate(date);
    assert s == year + "-" + month + "-" + day;
    assert |year| == 4;
    DashJoin(year, month, day);
  }

  /** The date label of a day bucket: the UTC calendar day numbered `day` since 1970-01-01. */
  function DayDate(day: int): string
  {
    IsoDate(CivilFromDays(day))
  }

  /** The day bucket key of a timestamp (seconds since the epoch, fitting in i32). */
  function DayId(timestamp: nat): (day: nat)
    requires timestamp < I32Limit
    ensures day * SecondsPerDay <= timestamp < (day + 1) * SecondsPerDay
  {
    timestamp / SecondsPerDay
  }

  /** Every timestamp of a bucket gets the bucket's date, and that date is the one of the
      full-width millisecond instant `timestamp * 1000`. */
  lemma DayDateMatchesMillis(timestamp: nat)
    requires timestamp < I32Limit
    ensures DayOfMillis(timestamp * 1000) == DayId(timestamp)
    ensures DayDate(DayId(timestamp)) == IsoDate(CivilFromDays(DayOfMillis(timestamp * 1000)))
  {
    var day := DayId(timestamp);
    assert day * MillisPerDay <= timestamp * 1000 < (day + 1) * MillisPerDay;
  }

  /** The day that `new Date(timestamp.toI32() * 1000)` denotes when the product is
      computed in 32-bit arithmetic. */
  function AsWrittenDay(timestamp: nat): int
    requires timestamp < I32Limit
  {
    DayOfMillis(WrapI32(WrapI32(timestamp) * 1000))
  }

  /** The 32-bit product names the bucket's day exactly when it does not overflow,
      that is up to timestamp 2147483 (1970-01-25). */
  lemma AsWrittenDayMatchesBucketIff(timestamp: nat)
    requires timestamp < I32Limit
    ensures AsWrittenDay(timestamp) == DayId(timestamp) <==> timestamp * 1000 < I32Limit
  {
    var ms := timestamp * 1000;
    if ms < I32Limit {
      assert WrapI32(ms) == ms;
      DayDateMatchesMillis(timestamp);
    } else {
      var w := WrapI32(ms);
      var day := DayOfMillis(w);
      assert day <= 24;
      if timestamp < 0x1_0000_0000 / 1000 + 1 {
        assert ms < 0x1_0000_0000;
        assert w == ms - 0x1_0000_0000;
        assert day < 0;
      } else {
        assert DayId(timestamp) >= 49;
      }
    }
  }

  /** A timestamp of 2023-11-14 falls, as written, on day -10 instead of day 19675. */
  lemma AsWrittenDateExample()
    ensures DayId(1700000000) == 19675
    ensures AsWrittenDay(1700000000) == -10
  {
    var w := WrapI32(WrapI32(1700000000) * 1000);
    assert w == -807049216;
    assert DayOfMillis(w) == -10;
  }

  /** Day 19675, the bucket of timestamp 1700000000, is 2023-11-14. */
  lemma BucketDateExample()
    ensures CivilFromDays(19675) == Date(2023, 11, 14)
  {
    assert (19675 + 719468) / 146097 == 5;
    assert SplitDayOfEra(8658) == (23, 258);
  }

  /** Day -10, the day the overflowing product names, is 1969-12-22. */
  lemma WrappedDateExample()
    ensures CivilFromDays(-10) == Date(1969, 12, 22)
  {
    assert (-10 + 719468) / 146097 == 4;
    assert SplitDayOfEra(135070) == (369, 296);
  }
}
