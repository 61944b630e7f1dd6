/**
 * Python's `datetime.date` and `datetime.time`, with the renderings the core
 * uses: `date.isoformat()`, `strftime("%d/%m/%Y")`, `strftime("%H:%M")` and
 * the weekday numbering of `date.weekday()` (Monday is 0).
 */
module Dates {
  import opened Text

  /** A proleptic Gregorian calendar date. */
  datatype Date = Date(year: int, month: int, day: int)

  predicate IsLeap(y: int) {
    (y % 4 == 0 && y % 100 != 0) || y % 400 == 0
  }

  function DaysInMonth(y: int, m: int): int {
    if m == 2 then (if IsLeap(y) then 29 else 28)
    else if m == 4 || m == 6 || m == 9 || m == 11 then 30
    else 31
  }

  /** The range Python's `date` accepts. */
  predicate ValidDate(d: Date) {
    1 <= d.year <= 9999 && 1 <= d.month <= 12 && 1 <= d.day <= DaysInMonth(d.year, d.month)
  }

  type Day = d: Date | ValidDate(d) witness Date(1970, 1, 1)

  /** A `datetime.time` (microseconds are not modelled). */
  datatype Clock = Clock(hour: int, minute: int, second: int)

  type Time = c: Clock | 0 <= c.hour < 24 && 0 <= c.minute < 60 && 0 <= c.second < 60
    witness Clock(0, 0, 0)

  /** Days since 1970-01-01 (the civil-to-days count of the Gregorian calendar). */
  function DayNumber(d: Date): int {
    var y := if d.month <= 2 then d.year - 1 else d.year;
    var era := y / 400;
    var yoe := y - era * 400;
    var mp := if d.month > 2 then d.month - 3 else d.month + 9;
    var doy := (153 * mp + 2) / 5 + d.day - 1;
    var doe := yoe * 365 + yoe / 4 - yoe / 100 + doy;
    era * 146097 + doe - 719468
  }

  /** `date.weekday()` for the day with this number: Monday is 0 (1970-01-01 was a Thursday). */
  function WeekdayOf(n: int): (w: int)
    ensures 0 <= w < 7
  {
    (n + 3) % 7
  }

  function Weekday(d: Date): (w: int)
    ensures 0 <= w < 7
  {
    WeekdayOf(DayNumber(d))
  }

  /** `d.isoformat()`: `YYYY-MM-DD`. */
  function IsoDate(d: Day): (r: string)
    ensures |r| == 10 && r[4] == '-' && r[7] == '-'
    ensures AllDigits(r[..4]) && AllDigits(r[5..7]) && AllDigits(r[8..])
    ensures ParseNat(r[..4]) == d.year && ParseNat(r[5..7]) == d.month && ParseNat(r[8..]) == d.day
  {
    var year, month, day := PadNat(d.year, 4), PadNat(d.month, 2), PadNat(d.day, 2);
    PadWidth(d.year, 4); PadWidth(d.month, 2); PadWidth(d.day, 2);
    var r := year + "-" + month + "-" + day;
    assert r[..4] == year && r[5..7] == month && r[8..] == day;
    r
  }

  /** Distinct days have distinct ISO forms. */
  lemma IsoDateInjective(a: Day, b: Day)
    requires IsoDate(a) == IsoDate(b)
    ensures a == b
  {
    PadWidth(a.year, 4); PadWidth(a.month, 2);
    PadWidth(b.year, 4); PadWidth(b.month, 2);
    FieldsInjective(PadNat(a.year, 4), PadNat(a.month, 2), PadNat(a.day, 2),
                    PadNat(b.year, 4), PadNat(b.month, 2), PadNat(b.day, 2), "-", "-");
  }

  /** A number padded to a width it fits in takes exactly that width. */
  lemma PadWidth(n: nat, width: nat)
    requires (width == 2 && n < 100) || (width == 4 && n < 10000)
    ensures |PadNat(n, width)| == width
  {
  }

  /** Three fields joined by fixed separators read back field by field when the first two have fixed widths. */
  lemma FieldsInjective(x: string, y: string, z: string, x': string, y': string, z': string, s: string, t: string)
    requires |x| == |x'| && |y| == |y'|
    requires x + s + y + t + z == x' + s + y' + t + z'
    ensures x == x' && y == y' && z == z'
  {
    var k, k' := x + s + y + t + z, x' + s + y' + t + z';
    var i, j := |x| + |s|, |x| + |s| + |y| + |t|;
    assert k[..|x|] == x && k'[..|x|] == x';
    assert k[i..i + |y|] == y && k'[i..i + |y|] == y';
    assert k[j..] == z && k'[j..] == z';
  }

  /** `d.strftime("%d/%m/%Y")`. */
  function DayKey(d: Day): (r: string)
    ensures |r| == 10
  {
    PadNat(d.day, 2) + "/" + PadNat(d.month, 2) + "/" + PadNat(d.year, 4)
  }

  /** Distinct days have distinct `dd/mm/yyyy` keys, so grouping by key is grouping by day. */
  lemma DayKeyInjective(a: Day, b: Day)
    requires DayKey(a) == DayKey(b)
    ensures a == b
  {
    PadWidth(a.day, 2); PadWidth(a.month, 2);
    PadWidth(b.day, 2); PadWidth(b.month, 2);
    FieldsInjective(PadNat(a.day, 2), PadNat(a.month, 2), PadNat(a.year, 4),
                    PadNat(b.day, 2), PadNat(b.month, 2), PadNat(b.year, 4), "/", "/");
  }

  /** `t.strftime("%H:%M")`. */
  function HourMinute(t: Time): (r: string)
    ensures |r| == 5 && r[2] == ':'
    ensures AllDigits(r[..2]) && AllDigits(r[3..])
    ensures ParseNat(r[..2]) == t.hour && ParseNat(r[3..]) == t.minute
  {
    var r := Pad2(t.hour) + ":" + Pad2(t.minute);
    assert r[..2] == Pad2(t.hour) && r[3..] == Pad2(t.minute);
    r
  }

  /** `str(t)` for a time without microseconds: `HH:MM:SS`. */
  function HourMinuteSecond(t: Time): (r: string)
    ensures |r| == 8 && r[..5] == HourMinute(t) && r[5] == ':'
  {
    HourMinute(t) + ":" + Pad2(t.second)
  }

  /** `%H:%M` keeps exactly the hour and the minute: seconds never show. */
  lemma HourMinuteExact(t: Time, u: Time)
    ensures HourMinute(t) == HourMinute(u) <==> t.hour == u.hour && t.minute == u.minute
  {
    if HourMinute(t) == HourMinute(u) {
      assert HourMinute(t)[..2] == HourMinute(u)[..2];
      assert HourMinute(t)[3..] == HourMinute(u)[3..];
    }
  }

  /** The Monday that opens the week of day number `n`, and its Sunday six days later. */
  function WeekStart(n: int): (m: int)
    ensures WeekdayOf(m) == 0
    ensures m <= n <= m + 6
  {
    n - WeekdayOf(n)
  }

  /** 2023-01-02 was a Monday, and the civil count places it 19359 days after 1970-01-01. */
  lemma MondayExample()
    ensures DayNumber(Date(2023, 1, 2)) == 19359
    ensures Weekday(Date(2023, 1, 2)) == 0
    ensures WeekStart(DayNumber(Date(2023, 1, 8))) == DayNumber(Date(2023, 1, 2))
  {
    assert 2022 / 400 == 5 && 22 / 4 == 5 && 22 / 100 == 0 && (153 * 10 + 2) / 5 == 306;
    assert DayNumber(Date(2023, 1, 2)) == 19359;
    assert DayNumber(Date(2023, 1, 8)) == 19365;
    assert (19359 + 3) % 7 == 0 && (19365 + 3) % 7 == 6;
  }

  /**
   * `dd/mm/yyyy` keys do not sort like the days they name: 30/01/2023 comes
   * before 01/02/2023 in the calendar but after it as text.
   */
  const Jan30: Day := Date(2023, 1, 30)
  const Feb1: Day := Date(2023, 2, 1)

  lemma DayKeyOrderDiffers()
    ensures DayNumber(Jan30) < DayNumber(Feb1)
    ensures !LexLe(DayKey(Jan30), DayKey(Feb1))
  {
    assert DayKey(Jan30)[0] == '3';
    assert DayKey(Feb1)[0] == '0';
  }
}
