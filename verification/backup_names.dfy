/**
 * Backup naming and the retention window of app.js: the folder name
 * `backup-DD-MMM-YYYY` (line 35), its strict parse (line 101) and the
 * inclusive keep-range [now - numDaysKept days, now] (lines 106-110).
 *
 * Calendar dates are proleptic Gregorian with four-digit years; an instant
 * is a day number and a time of day in milliseconds, so "midnight of a
 * date" and "now minus N days" are plain integer arithmetic.
 */
module BackupNames {
  import opened Wrappers

  datatype Date = Date(year: int, month: int, day: int)

  predicate IsLeapYear(y: int) {
    y % 4 == 0 && (y % 100 != 0 || y % 400 == 0)
  }

  function DaysInMonth(y: int, m: int): (n: int)
    requires 1 <= m <= 12
    ensures 28 <= n <= 31
  {
    if m == 2 then (if IsLeapYear(y) then 29 else 28)
    else if m == 4 || m == 6 || m == 9 || m == 11 then 30
    else 31
  }

  /** A date `DD-MMM-YYYY` can write: a real calendar day in years 0000 to 9999. */
  predicate ValidDate(d: Date) {
    0 <= d.year <= 9999 && 1 <= d.month <= 12 && 1 <= d.day <= DaysInMonth(d.year, d.month)
  }

  const MonthNames: seq<string> :=
    ["Jan", "Feb", "Mar", "Apr", "May", "Jun", "Jul", "Aug", "Sep", "Oct", "Nov", "Dec"]

  // ---------------------------------------------------------------------
  // Fixed-width decimal fields

  predicate IsDigitChar(ch: char) {
    '0' <= ch <= '9'
  }

  function DigitChar(n: int): (ch: char)
    requires 0 <= n < 10
    ensures IsDigitChar(ch)
  {
    ('0' as int + n) as char
  }

  function Pow10(w: nat): (r: nat)
    ensures r >= 1
  {
    if w == 0 then 1 else 10 * Pow10(w - 1)
  }

  /** The last `width` decimal digits of `n`, zero-padded: `DD` for width 2, `YYYY` for width 4. */
  function Digits(n: nat, width: nat): (r: string)
    ensures |r| == width && forall k :: 0 <= k < width ==> IsDigitChar(r[k])
  {
    if width == 0 then [] else Digits(n / 10, width - 1) + [DigitChar(n % 10)]
  }

  function DigitOf(ch: char): (n: nat)
    requires IsDigitChar(ch)
    ensures n < 10
  {
    ch as int - '0' as int
  }

  /** The number a string of decimal digits denotes. */
  function DigitsValue(s: string): (n: nat)
    requires forall k :: 0 <= k < |s| ==> IsDigitChar(s[k])
  {
    if s == [] then 0 else 10 * DigitsValue(s[..|s| - 1]) + DigitOf(s[|s| - 1])
  }

  lemma {:induction false} ValueOfDigits(n: nat, width: nat)
    requires n < Pow10(width)
    ensures DigitsValue(Digits(n, width)) == n
  {
    if width > 0 {
      var r := Digits(n, width);
      ValueOfDigits(n / 10, width - 1);
      assert r[..|r| - 1] == Digits(n / 10, width - 1);
    }
  }

  lemma {:induction false} DigitsOfValue(s: string)
    requires forall k :: 0 <= k < |s| ==> IsDigitChar(s[k])
    ensures DigitsValue(s) < Pow10(|s|) && Digits(DigitsValue(s), |s|) == s
  {
    if s != [] {
      var init := s[..|s| - 1];
      DigitsOfValue(init);
      var v, d := DigitsValue(init), DigitOf(s[|s| - 1]);
      assert (10 * v + d) / 10 == v && (10 * v + d) % 10 == d;
      assert s == init + [s[|s| - 1]];
    }
  }

  // ---------------------------------------------------------------------
  // `DD-MMM-YYYY`

  /** The month numbered by a three-letter abbreviation. */
  function MonthOf(name: string): (r: Option<int>)
    ensures r.Some? ==> 1 <= r.value <= 12 && MonthNames[r.value - 1] == name
    ensures r.None? ==> name !in MonthNames
  {
    MonthFrom(name, 0)
  }

  function MonthFrom(name: string, k: nat): (r: Option<int>)
    requires k <= 12
    ensures r.Some? ==> k + 1 <= r.value <= 12 && MonthNames[r.value - 1] == name
    ensures r.None? ==> forall j :: k <= j < 12 ==> MonthNames[j] != name
    decreases 12 - k
  {
    if k == 12 then None
    else if MonthNames[k] == name then Some(k + 1)
    else MonthFrom(name, k + 1)
  }

  lemma MonthNamesDistinct()
    ensures forall i, j :: 0 <= i < j < 12 ==> MonthNames[i] != MonthNames[j]
  {
  }

  /** moment's `format("DD-MMM-YYYY")`. */
  function FormatDate(d: Date): (r: string)
    requires ValidDate(d)
    ensures |r| == 11
  {
    Digits(d.day, 2) + "-" + MonthNames[d.month - 1] + "-" + Digits(d.year, 4)
  }

  /**
   * Strict parse of `DD-MMM-YYYY`: exactly two day digits, an English month
   * abbreviation, four year digits, and a day that exists in that month.
   */
  function ParseDate(s: string): (r: Option<Date>)
    ensures r.Some? ==> ValidDate(r.value) && FormatDate(r.value) == s
  {
    if |s| == 11 && s[2] == '-' && s[6] == '-'
      && IsDigitChar(s[0]) && IsDigitChar(s[1])
      && IsDigitChar(s[7]) && IsDigitChar(s[8]) && IsDigitChar(s[9]) && IsDigitChar(s[10])
      && MonthOf(s[3..6]).Some?
    then
      var d := Date(DigitsValue(s[7..11]), MonthOf(s[3..6]).value, DigitsValue(s[0..2]));
      if ValidDate(d) then
        FieldsFormat(s, d);
        Some(d)
      else None
    else None
  }

  /** The fields `ParseDate` reads back format to the string they came from. */
  lemma FieldsFormat(s: string, d: Date)
    requires |s| == 11 && s[2] == '-' && s[6] == '-'
    requires forall k :: 0 <= k < 2 ==> IsDigitChar(s[k])
    requires forall k :: 7 <= k < 11 ==> IsDigitChar(s[k])
    requires ValidDate(d) && MonthNames[d.month - 1] == s[3..6]
    requires d.year == DigitsValue(s[7..11]) && d.day == DigitsValue(s[0..2])
    ensures FormatDate(d) == s
  {
    DigitsOfValue(s[0..2]);
    DigitsOfValue(s[7..11]);
    assert s == s[0..2] + "-" + s[3..6] + "-" + s[7..11];
  }

  const BackupPrefix := "backup-"

  /**
   * Line 35: the folder (and rclone destination) name of a run on date `d`:
   * "backup-" and the eleven characters of the date (`BackupNameRoundTrip`
   * reads it back).
   */
  function BackupName(d: Date): (r: string)
    requires ValidDate(d)
    ensures |r| == |BackupPrefix| + 11 && r[..|BackupPrefix|] == BackupPrefix
  {
    BackupPrefix + FormatDate(d)
  }

  /**
   * Line 101: reads the date of a top-level common prefix, which carries the
   * listing's "/" delimiter at its end. `None` for anything that is not
   * `backup-DD-MMM-YYYY`, with or without that one trailing "/".
   */
  function ParseBackupPrefix(prefix: string): (r: Option<Date>)
    ensures r.Some? ==>
      ValidDate(r.value) && (prefix == BackupName(r.value) || prefix == BackupName(r.value) + "/")
  {
    var name := if |prefix| > 0 && prefix[|prefix| - 1] == '/' then prefix[..|prefix| - 1] else prefix;
    if |name| >= |BackupPrefix| && name[..|BackupPrefix|] == BackupPrefix then
      var r := ParseDate(name[|BackupPrefix|..]);
      assert r.Some? ==> name == BackupPrefix + name[|BackupPrefix|..];
      r
    else None
  }

  /** The strict parser inverts the formatter. */
  lemma {:induction false} ParseFormatRoundTrip(d: Date)
    requires ValidDate(d)
    ensures ParseDate(FormatDate(d)) == Some(d)
  {
    var s := FormatDate(d);
    ValueOfDigits(d.day, 2);
    ValueOfDigits(d.year, 4);
    assert s[0..2] == Digits(d.day, 2);
    assert s[3..6] == MonthNames[d.month - 1];
    assert s[7..11] == Digits(d.year, 4);
    MonthNamesDistinct();
  }

  /** The name a run gives its folder parses back, with or without the delimiter, to the run's date. */
  lemma BackupNameRoundTrip(d: Date)
    requires ValidDate(d)
    ensures ParseBackupPrefix(BackupName(d)) == Some(d)
    ensures ParseBackupPrefix(BackupName(d) + "/") == Some(d)
  {
    ParseFormatRoundTrip(d);
    var n := BackupName(d);
    assert n[..|BackupPrefix|] == BackupPrefix && n[|BackupPrefix|..] == FormatDate(d);
    assert (n + "/")[..|n|] == n;
    assert n[|n| - 1] == Digits(d.year, 4)[3];
  }

  // ---------------------------------------------------------------------
  // Day numbers

  function YearLength(y: int): int {
    if IsLeapYear(y) then 366 else 365
  }

  /** Days from 1 January of year 0 to 1 January of year `y`: 365 a year plus one per leap year before `y`. */
  function DaysBeforeYear(y: nat): int {
    365 * y + (y + 3) / 4 - (y + 99) / 100 + (y + 399) / 400
  }

  /** Days from 1 January to the first of month `m` of year `y`. */
  function DaysBeforeMonth(y: int, m: int): (n: int)
    requires 1 <= m <= 12
    ensures 28 * (m - 1) <= n <= 31 * (m - 1)
  {
    if m == 1 then 0 else DaysBeforeMonth(y, m - 1) + DaysInMonth(y, m - 1)
  }

  /** Consecutive days of a valid date's calendar get consecutive numbers; 1 January 0000 is day 0. */
  function DayNumber(d: Date): int
    requires ValidDate(d)
  {
    DaysBeforeYear(d.year) + DaysBeforeMonth(d.year, d.month) + d.day - 1
  }

  /** Calendar order. */
  predicate DateBefore(a: Date, b: Date) {
    a.year < b.year
    || (a.year == b.year && a.month < b.month)
    || (a.year == b.year && a.month == b.month && a.day < b.day)
  }

  lemma YearStep(y: nat)
    ensures DaysBeforeYear(y + 1) == DaysBeforeYear(y) + YearLength(y)
  {
    var a, b, c := (y + 4) / 4 - (y + 3) / 4, (y + 100) / 100 - (y + 99) / 100, (y + 400) / 400 - (y + 399) / 400;
    assert DaysBeforeYear(y + 1) - DaysBeforeYear(y) == 365 + a - b + c;
    StepsEvery4(y);
    StepsEvery100(y);
    StepsEvery400(y);
    CenturiesDivide(y);
  }

  lemma CenturiesDivide(y: nat)
    ensures y % 100 == 0 ==> y % 4 == 0
    ensures y % 400 == 0 ==> y % 100 == 0
  {
    if y % 100 == 0 {
      var q := y / 100;
      assert y == 4 * (25 * q);
    }
    if y % 400 == 0 {
      var q := y / 400;
      assert y == 100 * (4 * q);
    }
  }

  lemma StepsEvery4(y: nat)
    ensures (y + 4) / 4 - (y + 3) / 4 == if y % 4 == 0 then 1 else 0
  {
  }

  lemma StepsEvery100(y: nat)
    ensures (y + 100) / 100 - (y + 99) / 100 == if y % 100 == 0 then 1 else 0
  {
  }

  lemma StepsEvery400(y: nat)
    ensures (y + 400) / 400 - (y + 399) / 400 == if y % 400 == 0 then 1 else 0
  {
  }

  lemma {:induction false} YearsMonotone(a: nat, b: nat)
    requires a < b
    ensures DaysBeforeYear(a) + YearLength(a) <= DaysBeforeYear(b)
    decreases b - a
  {
    YearStep(a);
    if a + 1 < b {
      YearsMonotone(a + 1, b);
    }
  }

  lemma {:induction false} MonthsMonotone(y: int, a: int, b: int)
    requires 1 <= a < b <= 12
    ensures DaysBeforeMonth(y, a) + DaysInMonth(y, a) <= DaysBeforeMonth(y, b)
    decreases b - a
  {
    if a + 1 < b {
      MonthsMonotone(y, a + 1, b);
    }
  }

  lemma EndOfYear(d: Date)
    requires ValidDate(d)
    ensures DayNumber(d) < DaysBeforeYear(d.year) + YearLength(d.year)
  {
    if d.month < 12 {
      MonthsMonotone(d.year, d.month, 12);
    }
    var y := d.year;
    var feb := DaysInMonth(y, 2);
    assert DaysBeforeMonth(y, 3) == 31 + feb;
    assert DaysBeforeMonth(y, 5) == 92 + feb;
    assert DaysBeforeMonth(y, 7) == 153 + feb;
    assert DaysBeforeMonth(y, 9) == 215 + feb;
    assert DaysBeforeMonth(y, 11) == 276 + feb;
    assert DaysBeforeMonth(y, 12) == 306 + feb;
  }

  /** The calendar day after `d`, rolling over into the next month and the next year. */
  function NextDay(d: Date): (r: Date)
    requires ValidDate(d) && d.year < 9999
    ensures ValidDate(r) && DateBefore(d, r)
  {
    if d.day < DaysInMonth(d.year, d.month) then Date(d.year, d.month, d.day + 1)
    else if d.month < 12 then Date(d.year, d.month + 1, 1)
    else Date(d.year + 1, 1, 1)
  }

  /** Consecutive days get consecutive numbers, across month and year ends. */
  lemma NextDayNumber(d: Date)
    requires ValidDate(d) && d.year < 9999
    ensures DayNumber(NextDay(d)) == DayNumber(d) + 1
  {
    if d.day == DaysInMonth(d.year, d.month) && d.month == 12 {
      YearStep(d.year);
      var y := d.year;
      var feb := DaysInMonth(y, 2);
      assert DaysBeforeMonth(y, 3) == 31 + feb;
      assert DaysBeforeMonth(y, 5) == 92 + feb;
      assert DaysBeforeMonth(y, 7) == 153 + feb;
      assert DaysBeforeMonth(y, 9) == 215 + feb;
      assert DaysBeforeMonth(y, 11) == 276 + feb;
      assert DaysBeforeMonth(y, 12) == 306 + feb;
    }
  }

  /** Day numbers follow calendar order, so distinct dates have distinct numbers. */
  lemma DayNumberMonotone(a: Date, b: Date)
    requires ValidDate(a) && ValidDate(b) && DateBefore(a, b)
    ensures DayNumber(a) < DayNumber(b)
  {
    if a.year < b.year {
      EndOfYear(a);
      YearsMonotone(a.year, b.year);
    } else if a.month < b.month {
      MonthsMonotone(a.year, a.month, b.month);
    }
  }

  // ---------------------------------------------------------------------
  // The keep-range

  const MillisPerDay := 86_400_000

  /** A local time: a calendar date and the milliseconds elapsed since its midnight. */
  datatype Instant = Instant(date: Date, millis: int)

  predicate ValidInstant(t: Instant) {
    ValidDate(t.date) && 0 <= t.millis < MillisPerDay
  }

  /** A point on the time line: a day number and a time of day. */
  datatype Stamp = Stamp(day: int, millis: int)

  predicate NotAfter(a: Stamp, b: Stamp) {
    a.day < b.day || (a.day == b.day && a.millis <= b.millis)
  }

  /**
   * Lines 106-110: whether midnight of `d` lies in the inclusive range from
   * `now` minus `daysKept` days (same time of day) to `now`. So a backup is
   * kept iff it is less than `daysKept` days old, or exactly that old while
   * `now` is exactly midnight: the lower bound carries the current time of
   * day.
   */
  predicate Kept(d: Date, now: Instant, daysKept: nat)
    requires ValidDate(d) && ValidInstant(now)
    ensures var age := DayNumber(now.date) - DayNumber(d);
      Kept(d, now, daysKept) <==> (0 <= age < daysKept || (age == daysKept && now.millis == 0))
  {
    var today := DayNumber(now.date);
    var backup := Stamp(DayNumber(d), 0);
    NotAfter(Stamp(today - daysKept, now.millis), backup) && NotAfter(backup, Stamp(today, now.millis))
  }

  /**
   * Lines 101-110: a top-level prefix is deleted iff it is a backup folder
   * dated outside the keep-range. Only `backup-DD-MMM-YYYY` folders are ever
   * candidates; `misc/` and the like are never touched.
   */
  predicate IsDeletionCandidate(prefix: string, now: Instant, daysKept: nat)
    requires ValidInstant(now)
    ensures IsDeletionCandidate(prefix, now, daysKept) ==>
      |prefix| >= |BackupPrefix| && prefix[..|BackupPrefix|] == BackupPrefix
  {
    match ParseBackupPrefix(prefix)
    case None => false
    case Some(d) =>
      ParsedFolderIsBackup(prefix);
      !Kept(d, now, daysKept)
  }

  /** A backup dated after today is always outside the range. */
  lemma FutureBackupNotKept(d: Date, now: Instant, daysKept: nat)
    requires ValidDate(d) && ValidInstant(now) && DateBefore(now.date, d)
    ensures !Kept(d, now, daysKept)
  {
    DayNumberMonotone(now.date, d);
  }

  lemma ParsedFolderIsBackup(prefix: string)
    requires ParseBackupPrefix(prefix).Some?
    ensures |prefix| >= |BackupPrefix| && prefix[..|BackupPrefix|] == BackupPrefix
  {
    var name := if |prefix| > 0 && prefix[|prefix| - 1] == '/' then prefix[..|prefix| - 1] else prefix;
    assert prefix[..|BackupPrefix|] == name[..|BackupPrefix|];
  }

  /** With at least one day kept, the folder a run creates today is not a deletion candidate today. */
  lemma OwnBackupKept(now: Instant, daysKept: nat)
    requires ValidInstant(now) && daysKept >= 1
    ensures !IsDeletionCandidate(BackupName(now.date) + "/", now, daysKept)
  {
    BackupNameRoundTrip(now.date);
  }

  /**
   * Today 20 January 2024 at 09:00 with seven days kept: the folder of
   * 10 January is deleted, that of 15 January is kept, and `misc/` is not a
   * backup folder at all.
   */
  lemma RetentionExample()
    ensures var now := Instant(Date(2024, 1, 20), 9 * 3_600_000);
      && IsDeletionCandidate("backup-10-Jan-2024/", now, 7)
      && !IsDeletionCandidate("backup-15-Jan-2024/", now, 7)
      && !IsDeletionCandidate("misc/", now, 7)
  {
    TenDaysOld();
    FiveDaysOld();
    assert ParseBackupPrefix("misc/") == None;
  }

  lemma TenDaysOld()
    ensures IsDeletionCandidate("backup-10-Jan-2024/", Instant(Date(2024, 1, 20), 9 * 3_600_000), 7)
  {
    var jan10 := Date(2024, 1, 10);
    NameExample(jan10, "10");
    assert "backup-" + "10" + "-Jan-2024/" == "backup-10-Jan-2024/";
    JanuaryDays(10, 20);
  }

  lemma FiveDaysOld()
    ensures !IsDeletionCandidate("backup-15-Jan-2024/", Instant(Date(2024, 1, 20), 9 * 3_600_000), 7)
  {
    var jan15 := Date(2024, 1, 15);
    NameExample(jan15, "15");
    assert "backup-" + "15" + "-Jan-2024/" == "backup-15-Jan-2024/";
    JanuaryDays(15, 20);
  }

  lemma JanuaryDays(a: int, b: int)
    requires 1 <= a <= 31 && 1 <= b <= 31
    ensures DayNumber(Date(2024, 1, b)) - DayNumber(Date(2024, 1, a)) == b - a
  {
  }

  lemma NameExample(d: Date, dd: string)
    requires d.year == 2024 && d.month == 1 && 10 <= d.day < 20 && dd == [DigitChar(1), DigitChar(d.day - 10)]
    ensures ParseBackupPrefix("backup-" + dd + "-Jan-2024/") == Some(d)
  {
    BackupNameRoundTrip(d);
    JanuaryName(d, dd);
    assert BackupName(d) + "/" == "backup-" + dd + "-Jan-2024/";
  }

  lemma JanuaryName(d: Date, dd: string)
    requires d.year == 2024 && d.month == 1 && 10 <= d.day < 20 && dd == [DigitChar(1), DigitChar(d.day - 10)]
    ensures FormatDate(d) == dd + "-Jan-2024"
  {
    YearDigits2024();
    assert Digits(d.day, 2) == dd;
  }

  lemma YearDigits2024()
    ensures Digits(2024, 4) == "2024"
  {
  }

  /** Exactly seven days old: deleted at 09:00, kept only at the stroke of midnight. */
  lemma BoundaryExample()
    ensures !Kept(Date(2024, 1, 13), Instant(Date(2024, 1, 20), 9 * 3_600_000), 7)
    ensures Kept(Date(2024, 1, 13), Instant(Date(2024, 1, 20), 0), 7)
  {
  }
}
