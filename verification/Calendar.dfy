/**
 Dates from day counts (crates/core/src/timefmt.rs), against a calendar that
 knows only month lengths, leap years and "the day after".
 */
module Calendar {
  import opened Wrappers
  import opened Text

  datatype Date = Date(year: nat, month: nat, day: nat)

  // ----- the reference calendar -----

  predicate IsLeap(year: nat) {
    year % 4 == 0 && (year % 100 != 0 || year % 400 == 0)
  }

  function DaysInMonth(year: nat, month: nat): nat {
    if month == 2 then if IsLeap(year) then 29 else 28
    else if month in {4, 6, 9, 11} then 30 else 31
  }

  predicate ValidDate(d: Date) {
    1 <= d.month <= 12 && 1 <= d.day <= DaysInMonth(d.year, d.month)
  }

  function DayAfter(d: Date): Date {
    if d.day < DaysInMonth(d.year, d.month) then d.(day := d.day + 1)
    else if d.month < 12 then Date(d.year, d.month + 1, 1)
    else Date(d.year + 1, 1, 1)
  }

  const Epoch := Date(1970, 1, 1)

  /** The date `n` days after the epoch, counted one day at a time. */
  function DateOf(n: nat): Date {
    if n == 0 then Epoch else DayAfter(DateOf(n - 1))
  }

  // ----- the source's arithmetic -----

  const U64: nat := 0x1_0000_0000_0000_0000
  const SECONDS_PER_DAY: nat := 86_400

  function DayOfEra(z: nat): nat {
    (z + 719_468) % 146_097
  }

  function YearOfEra(doe: int): int {
    (doe - doe / 1460 + doe / 36_524 - doe / 146_096) / 365
  }

  /** Days of the era before its year `yoe`; years begin in March. */
  function DaysBefore(yoe: int): int {
    365 * yoe + yoe / 4 - yoe / 100
  }

  function MonthFromMarch(doy: int): int {
    (5 * doy + 2) / 153
  }

  function DayOfMonth(doy: int): int {
    doy - (153 * MonthFromMarch(doy) + 2) / 5 + 1
  }

  /** The date of day `doy` of the year that begins in March of `year`. */
  function MarchDate(year: int, doy: int): (int, int, int) {
    var mp := MonthFromMarch(doy);
    var month := if mp < 10 then mp + 3 else mp - 9;
    (year + (if month <= 2 then 1 else 0), month, DayOfMonth(doy))
  }

  // ----- days to years of an era: centuries of 36524 days, four-year blocks of 1461 -----

  lemma {:induction false} BlockIndex(c: int, q: int, s: int)
    requires 0 <= c <= 3 && 0 <= q <= 24 && 0 <= s <= 1460 && 1461 * q + s < 36_524
    ensures var doe := 36_524 * c + 1461 * q + s;
      && doe / 36_524 == c && doe / 146_096 == 0
      && doe / 1460 == 25 * c + q + (if 24 * c + q + s >= 1460 then 1 else 0)
  {
    var doe := 36_524 * c + 1461 * q + s;
    assert doe == 1460 * (25 * c + q) + (24 * c + q + s);
  }

  lemma {:induction false} YearOfBlock(c: int, q: int, s: int)
    requires 0 <= c <= 3 && 0 <= q <= 24 && 0 <= s <= 1460 && 1461 * q + s < 36_524
    ensures YearOfEra(36_524 * c + 1461 * q + s) == 100 * c + 4 * q + (if s >= 1095 then 3 else s / 365)
  {
    var doe := 36_524 * c + 1461 * q + s;
    BlockIndex(c, q, s);
    var e := if 24 * c + q + s >= 1460 then 1 else 0;
    assert doe - doe / 1460 + doe / 36_524 - doe / 146_096 == 365 * (100 * c + 4 * q) + (s - e);
    assert (s - e) / 365 == if s >= 1095 then 3 else s / 365;
  }

  lemma {:induction false} DaysBeforeBlock(c: int, q: int, t: int)
    requires 0 <= c <= 4 && 0 <= q <= 24 && 0 <= t <= 3
    ensures DaysBefore(100 * c + 4 * q + t) == 36_524 * c + 1461 * q + 365 * t
  {
    var y := 100 * c + 4 * q + t;
    assert y / 4 == 25 * c + q;
    assert y / 100 == c;
  }

  /** Day `s` of block `q` of century `c` lies between the first days of its year and of the next. */
  lemma {:induction false} BlockYear(c: int, q: int, s: int)
    requires 0 <= c <= 3 && 0 <= q <= 24 && 0 <= s <= 1460 && 1461 * q + s < 36_524
    ensures var doe, year := 36_524 * c + 1461 * q + s, 100 * c + 4 * q + (if s >= 1095 then 3 else s / 365);
      DaysBefore(year) <= doe < DaysBefore(year + 1)
  {
    var t := if s >= 1095 then 3 else s / 365;
    DaysBeforeBlock(c, q, t);
    if t < 3 {
      DaysBeforeBlock(c, q, t + 1);
    } else if q < 24 {
      DaysBeforeBlock(c, q + 1, 0);
    } else {
      DaysBeforeBlock(c + 1, 0, 0);
    }
  }

  /** The year a day of the era falls in, with its first day and the first day of the next. */
  lemma {:induction false} YearOfEraBounds(doe: int)
    requires 0 <= doe < 146_097
    ensures 0 <= YearOfEra(doe) < 400
    ensures DaysBefore(YearOfEra(doe)) <= doe
    ensures YearOfEra(doe) < 399 ==> doe < DaysBefore(YearOfEra(doe) + 1)
  {
    if doe < 146_096 {
      var c, r := doe / 36_524, doe % 36_524;
      var q, s := r / 1461, r % 1461;
      YearOfBlock(c, q, s);
      BlockYear(c, q, s);
    }
  }

  /** A March year has a leap day when the calendar year it ends in has one. */
  function YearLength(yoe: int): int {
    if (yoe + 1) % 4 == 0 && ((yoe + 1) % 100 != 0 || (yoe + 1) % 400 == 0) then 366 else 365
  }

  lemma {:induction false} DaysBeforeNext(yoe: int)
    requires 0 <= yoe < 400
    ensures DaysBefore(yoe + 1) + (if yoe == 399 then 1 else 0) == DaysBefore(yoe) + YearLength(yoe)
  {
    assert (yoe + 1) / 4 == yoe / 4 + if (yoe + 1) % 4 == 0 then 1 else 0;
    assert (yoe + 1) / 100 == yoe / 100 + if (yoe + 1) % 100 == 0 then 1 else 0;
    assert (yoe + 1) % 100 == 0 ==> (yoe + 1) % 4 == 0;
  }

  lemma {:induction false} DaysBeforeGrows(a: int, b: int)
    requires 0 <= a <= b <= 400
    ensures DaysBefore(b) >= DaysBefore(a) + 365 * (b - a)
    decreases b - a
  {
    if a < b {
      DaysBeforeNext(b - 1);
      DaysBeforeGrows(a, b - 1);
    }
  }

  /** Which year a day falls in is decided by the bounds. */
  lemma {:induction false} YearIsUnique(doe: int, yoe: int)
    requires 0 <= doe < 146_097 && 0 <= yoe < 400
    requires DaysBefore(yoe) <= doe && (yoe < 399 ==> doe < DaysBefore(yoe + 1))
    ensures YearOfEra(doe) == yoe
  {
    YearOfEraBounds(doe);
    var y := YearOfEra(doe);
    if y < yoe { DaysBeforeGrows(y + 1, yoe); }
    if yoe < y { DaysBeforeGrows(yoe + 1, y); }
  }

  // ----- the source's function -----

  function CivilFromDays(z: nat): (int, int, int) {
    var shifted := z + 719_468;
    var era := shifted / 146_097;
    var doe := shifted - era * 146_097;
    var yoe := YearOfEra(doe);
    var year := yoe + era * 400;
    var doy := doe - DaysBefore(yoe);
    MarchDate(year, doy)
  }

  /** Era, year of era and day of year of a day count. */
  lemma {:induction false} Parts(z: nat) returns (era: int, yoe: int, doy: int)
    ensures era >= 0 && 0 <= yoe < 400 && 0 <= doy < YearLength(yoe)
    ensures z + 719_468 == 146_097 * era + DaysBefore(yoe) + doy
  {
    var doe := DayOfEra(z);
    era, yoe := (z + 719_468) / 146_097, YearOfEra(doe);
    YearOfEraBounds(doe);
    DaysBeforeNext(yoe);
    doy := doe - DaysBefore(yoe);
  }

  ghost predicate AreParts(z: int, era: int, yoe: int, doy: int) {
    && era >= 0 && 0 <= yoe < 400 && 0 <= doy < YearLength(yoe)
    && z + 719_468 == 146_097 * era + DaysBefore(yoe) + doy
  }

  lemma {:induction false} EraOfParts(z: nat, era: int, yoe: int, doy: int)
    requires AreParts(z, era, yoe, doy)
    ensures (z + 719_468) / 146_097 == era && (z + 719_468) - era * 146_097 == DaysBefore(yoe) + doy
    ensures YearOfEra(DaysBefore(yoe) + doy) == yoe
  {
    DaysBeforeNext(yoe);
    DaysBeforeGrows(0, yoe);
    if yoe < 399 { DaysBeforeGrows(yoe + 1, 400); }
    YearIsUnique(DaysBefore(yoe) + doy, yoe);
  }

  /** The parts determine the date. */
  lemma {:induction false} DateOfParts(z: nat, era: int, yoe: int, doy: int)
    requires AreParts(z, era, yoe, doy)
    ensures CivilFromDays(z) == MarchDate(yoe + era * 400, doy)
  {
    EraOfParts(z, era, yoe, doy);
  }

  /** Within a March year each day is followed by the day after. */
  lemma {:induction false} MarchDayAfter(year: nat, doy: nat)
    requires doy < (if IsLeap(year + 1) then 366 else 365)
    ensures var (y, m, d) := MarchDate(year, doy);
      && y >= 0 && m >= 0 && d >= 0 && ValidDate(Date(y, m, d))
      && (doy + 1 < (if IsLeap(year + 1) then 366 else 365) ==>
            var (y', m', d') := MarchDate(year, doy + 1);
            y' >= 0 && m' >= 0 && d' >= 0 && Date(y', m', d') == DayAfter(Date(y, m, d)))
      && (doy + 1 == (if IsLeap(year + 1) then 366 else 365) ==>
            DayAfter(Date(y, m, d)) == Date(year + 1, 3, 1))
  {}

  lemma {:induction false} ModShift(x: int, k: int, m: int)
    requires m > 0
    ensures (x + m * k) % m == x % m
  {
    var q, r := x / m, x % m;
    assert x + m * k == m * (q + k) + r;
    ModIsRemainder(x + m * k, m, q + k, r);
  }

  lemma {:induction false} ModIsRemainder(x: int, m: int, q: int, r: int)
    requires m > 0 && x == m * q + r && 0 <= r < m
    ensures x % m == r
  {
    var d := q - x / m;
    assert x % m == r + m * d;
    MultipleIsFar(m, d);
  }

  lemma {:induction false} MultipleIsFar(m: int, d: int)
    requires m > 0
    ensures d >= 1 ==> m * d >= m
    ensures d <= -1 ==> m * d <= -m
  {}

  lemma {:induction false} LeapOfEra(era: nat, yoe: nat)
    requires yoe < 400
    ensures YearLength(yoe) == if IsLeap(yoe + era * 400 + 1) then 366 else 365
  {
    ModShift(yoe + 1, 100 * era, 4);
    ModShift(yoe + 1, 4 * era, 100);
    ModShift(yoe + 1, era, 400);
  }

  lemma {:induction false} CivilIsValid(z: nat)
    ensures var (year, month, day) := CivilFromDays(z);
      year >= 0 && month >= 0 && day >= 0 && ValidDate(Date(year, month, day))
  {
    var era, yoe, doy := Parts(z);
    DateOfParts(z, era, yoe, doy);
    LeapOfEra(era, yoe);
    MarchDayAfter(yoe + era * 400, doy);
  }

  /** The source's date as a date: every part is in range, for every day count. */
  function CivilDate(z: nat): (d: Date)
    ensures (d.year, d.month, d.day) == CivilFromDays(z)
    ensures ValidDate(d)
  {
    var (year, month, day) := CivilFromDays(z);
    CivilIsValid(z);
    Date(year, month, day)
  }

  /** The parts of the next day: the year goes on, or ends, or the era ends. */
  lemma {:induction false} PartsAfter(z: nat, era: int, yoe: int, doy: int)
    requires AreParts(z, era, yoe, doy)
    ensures if doy + 1 < YearLength(yoe) then AreParts(z + 1, era, yoe, doy + 1)
      else if yoe < 399 then AreParts(z + 1, era, yoe + 1, 0)
      else AreParts(z + 1, era + 1, 0, 0)
  {
    DaysBeforeNext(yoe);
  }

  /** March year and day of year of the next day. */
  function NextDay(era: int, yoe: int, doy: int): (int, int) {
    if doy + 1 < YearLength(yoe) then (yoe + era * 400, doy + 1) else (yoe + era * 400 + 1, 0)
  }

  lemma {:induction false} DateOfNext(z: nat, era: int, yoe: int, doy: int)
    requires AreParts(z, era, yoe, doy)
    ensures var (year, d) := NextDay(era, yoe, doy); CivilFromDays(z + 1) == MarchDate(year, d)
  {
    PartsAfter(z, era, yoe, doy);
    if doy + 1 < YearLength(yoe) {
      DateOfParts(z + 1, era, yoe, doy + 1);
    } else if yoe < 399 {
      DateOfParts(z + 1, era, yoe + 1, 0);
    } else {
      DateOfParts(z + 1, era + 1, 0, 0);
    }
  }

  lemma {:induction false} FirstMarch(year: int)
    ensures MarchDate(year, 0) == (year, 3, 1)
  {}

  lemma {:induction false} NextIsAfter(era: nat, yoe: nat, doy: nat)
    requires yoe < 400 && doy < YearLength(yoe)
    ensures var (y, m, d) := MarchDate(yoe + era * 400, doy);
      var (year, next) := NextDay(era, yoe, doy);
      var (y', m', d') := MarchDate(year, next);
      y >= 0 && m >= 0 && d >= 0 && y' >= 0 && m' >= 0 && d' >= 0 && Date(y', m', d') == DayAfter(Date(y, m, d))
  {
    LeapOfEra(era, yoe);
    MarchDayAfter(yoe + era * 400, doy);
    FirstMarch(yoe + era * 400 + 1);
  }

  /** One more day is the day after. */
  lemma {:induction false} CivilDayAfter(z: nat)
    ensures CivilDate(z + 1) == DayAfter(CivilDate(z))
  {
    var era, yoe, doy := Parts(z);
    DateOfParts(z, era, yoe, doy);
    DateOfNext(z, era, yoe, doy);
    NextIsAfter(era, yoe, doy);
  }

  /** A dating of day numbers that starts at the epoch and goes on day by day. */
  ghost predicate Successive(date: nat -> Date) {
    date(0) == Epoch && forall n: nat :: date(n + 1) == DayAfter(date(n))
  }

  lemma {:induction false} EpochIsCivil()
    ensures CivilDate(0) == Epoch
  {
    DateOfParts(0, 4, 369, 306);
  }

  lemma {:induction false} CivilIsSuccessive()
    ensures Successive(CivilDate)
  {
    EpochIsCivil();
    forall n: nat ensures CivilDate(n + 1) == DayAfter(CivilDate(n)) {
      CivilDayAfter(n);
    }
  }

  lemma {:induction false} SuccessiveIsCounted(date: nat -> Date, n: nat)
    requires Successive(date)
    ensures date(n) == DateOf(n)
  {
    if n > 0 { SuccessiveIsCounted(date, n - 1); }
  }

  /** The arithmetic gives the date that counting days gives. */
  lemma {:induction false} CivilIsCounted(z: nat)
    ensures CivilDate(z) == DateOf(z)
  {
    CivilIsSuccessive();
    SuccessiveIsCounted(CivilDate, z);
  }

  // ----- and back -----

  function DaysInYear(year: nat): nat {
    if IsLeap(year) then 366 else 365
  }

  /** Days from the epoch to the first of January, counted year by year. */
  function DaysToYear(year: nat): nat
    requires year >= 1970
  {
    if year == 1970 then 0 else DaysToYear(year - 1) + DaysInYear(year - 1)
  }

  function DaysToMonth(year: nat, month: nat): nat
    requires 1 <= month <= 12
  {
    if month == 1 then 0 else DaysToMonth(year, month - 1) + DaysInMonth(year, month - 1)
  }

  /** How many days after the epoch a date is. */
  function DayNumber(d: Date): nat
    requires ValidDate(d) && d.year >= 1970
  {
    DaysToYear(d.year) + DaysToMonth(d.year, d.month) + d.day - 1
  }

  lemma {:induction false} WholeYear(year: nat)
    ensures DaysToMonth(year, 12) + 31 == DaysInYear(year)
  {
    assert DaysToMonth(year, 2) == 31;
    assert DaysToMonth(year, 3) == 31 + DaysInMonth(year, 2);
    assert DaysToMonth(year, 4) == DaysToMonth(year, 3) + 31;
    assert DaysToMonth(year, 5) == DaysToMonth(year, 4) + 30;
    assert DaysToMonth(year, 6) == DaysToMonth(year, 5) + 31;
    assert DaysToMonth(year, 7) == DaysToMonth(year, 6) + 30;
    assert DaysToMonth(year, 8) == DaysToMonth(year, 7) + 31;
    assert DaysToMonth(year, 9) == DaysToMonth(year, 8) + 31;
    assert DaysToMonth(year, 10) == DaysToMonth(year, 9) + 30;
    assert DaysToMonth(year, 11) == DaysToMonth(year, 10) + 31;
  }

  lemma {:induction false} DayNumberAfter(d: Date)
    requires ValidDate(d) && d.year >= 1970
    ensures ValidDate(DayAfter(d)) && DayAfter(d).year >= 1970
    ensures DayNumber(DayAfter(d)) == DayNumber(d) + 1
  {
    WholeYear(d.year);
  }

  lemma {:induction false} CountedIsInverse(n: nat)
    ensures ValidDate(DateOf(n)) && DateOf(n).year >= 1970 && DayNumber(DateOf(n)) == n
  {
    if n > 0 {
      CountedIsInverse(n - 1);
      DayNumberAfter(DateOf(n - 1));
    }
  }

  function DayBefore(d: Date): Date
    requires ValidDate(d) && d != Epoch && d.year >= 1970
  {
    if d.day > 1 then d.(day := d.day - 1)
    else if d.month > 1 then Date(d.year, d.month - 1, DaysInMonth(d.year, d.month - 1))
    else Date(d.year - 1, 12, 31)
  }

  lemma {:induction false} EveryDateIsCounted(d: Date)
    requires ValidDate(d) && d.year >= 1970
    ensures DateOf(DayNumber(d)) == d
    decreases DayNumber(d)
  {
    if d != Epoch {
      var before := DayBefore(d);
      assert before.year >= 1970 && ValidDate(before) && DayAfter(before) == d;
      DayNumberAfter(before);
      EveryDateIsCounted(before);
    }
  }

  /** Counting the days up to the source's date gives the day count back. */
  lemma {:induction false} CivilIsInverse(z: nat)
    ensures CivilDate(z).year >= 1970 && DayNumber(CivilDate(z)) == z
  {
    CivilIsCounted(z);
    CountedIsInverse(z);
  }

  /** Every date from the epoch on is the source's date of its day number. */
  lemma {:induction false} EveryDateIsCivil(d: Date)
    requires ValidDate(d) && d.year >= 1970
    ensures CivilDate(DayNumber(d)) == d
  {
    EveryDateIsCounted(d);
    CivilIsCounted(DayNumber(d));
  }

  // ----- in machine words -----

  /** For a 64-bit second count no sum overflows and no difference goes below zero. */
  lemma {:induction false} FitsMachineWords(secs: nat)
    requires secs < U64
    ensures var z := secs / SECONDS_PER_DAY;
      var shifted := z + 719_468;
      var doe := shifted - shifted / 146_097 * 146_097;
      var yoe := YearOfEra(doe);
      && shifted < U64 && 0 <= doe && doe / 1460 <= doe && doe / 146_096 <= doe - doe / 1460 + doe / 36_524
      && yoe / 100 <= 365 * yoe + yoe / 4 && DaysBefore(yoe) <= doe
      && var doy := doe - DaysBefore(yoe);
      && (153 * MonthFromMarch(doy) + 2) / 5 <= doy
      && 0 <= MonthFromMarch(doy) <= 11
      && yoe + shifted / 146_097 * 400 + 1 < U64
  {
    var z := secs / SECONDS_PER_DAY;
    var doe := DayOfEra(z);
    YearOfEraBounds(doe);
    DaysBeforeNext(YearOfEra(doe));
  }

  // ----- the shown text -----

  function Zeros(n: nat): Bytes {
    if n == 0 then "" else "0" + Zeros(n - 1)
  }

  /** `n` in decimal with leading zeros up to `width` digits. */
  function Padded(n: nat, width: nat): Bytes {
    var digits := Decimal(n);
    (if |digits| < width then Zeros(width - |digits|) else "") + digits
  }

  function Hour(secs: nat): nat {
    secs % SECONDS_PER_DAY / 3600
  }

  function Minute(secs: nat): nat {
    secs % SECONDS_PER_DAY % 3600 / 60
  }

  function Clock(d: Date, hour: nat, minute: nat): Bytes {
    "-" + Padded(d.month, 2) + "-" + Padded(d.day, 2) + " " + Padded(hour, 2) + ":" + Padded(minute, 2)
  }

  function ShortUnixTimestamp(secs: nat): Bytes {
    var d := CivilDate(secs / SECONDS_PER_DAY);
    Padded(d.year, 4) + Clock(d, Hour(secs), Minute(secs))
  }

  lemma {:induction false} ZerosAddNothing(k: nat, s: Bytes)
    ensures |Zeros(k)| == k && DigitsValue(Zeros(k) + s) == DigitsValue(s)
  {
    if s == "" {
      if k > 0 {
        ZerosAddNothing(k - 1, "");
        assert Zeros(k - 1) + "" == Zeros(k - 1);
        OneMoreZero(Zeros(k - 1));
      }
      assert Zeros(k) + "" == Zeros(k);
    } else {
      var front := s[..|s| - 1];
      ZerosAddNothing(k, front);
      assert (Zeros(k) + s)[..k + |front|] == Zeros(k) + front;
    }
  }

  lemma {:induction false} OneMoreZero(s: Bytes)
    ensures DigitsValue("0" + s) == DigitsValue(s)
  {
    if s != "" {
      OneMoreZero(s[..|s| - 1]);
      assert ("0" + s)[..|s|] == "0" + s[..|s| - 1];
    }
  }

  /** Padded digits read back as the number, so equal texts are equal numbers. */
  lemma {:induction false} PaddedReads(n: nat, width: nat)
    ensures DigitsValue(Padded(n, width)) == Some(n) && |Padded(n, width)| >= width
  {
    DecimalReads(n);
    ZerosAddNothing(if |Decimal(n)| < width then width - |Decimal(n)| else 0, Decimal(n));
    assert "" + Decimal(n) == Decimal(n);
  }

  lemma {:induction false} TwoDigits(n: nat)
    requires n < 100
    ensures |Padded(n, 2)| == 2 && DigitsValue(Padded(n, 2)) == Some(n)
  {
    PaddedReads(n, 2);
    ZerosAddNothing(1, Decimal(n));
    if n >= 10 { assert |Decimal(n / 10)| == 1; }
  }

  lemma {:induction false} ClockShape(d: Date, hour: nat, minute: nat)
    requires d.month < 100 && d.day < 100 && hour < 100 && minute < 100
    ensures var c := Clock(d, hour, minute);
      && |c| == 12
      && DigitsValue(c[1..3]) == Some(d.month) && DigitsValue(c[4..6]) == Some(d.day)
      && DigitsValue(c[7..9]) == Some(hour) && DigitsValue(c[10..12]) == Some(minute)
  {
    TwoDigits(d.month);
    TwoDigits(d.day);
    TwoDigits(hour);
    TwoDigits(minute);
    Pieces(Padded(d.month, 2), Padded(d.day, 2), Padded(hour, 2), Padded(minute, 2));
  }

  lemma {:induction false} Pieces(m: Bytes, d: Bytes, h: Bytes, n: Bytes)
    requires |m| == |d| == |h| == |n| == 2
    ensures var c := "-" + m + "-" + d + " " + h + ":" + n;
      |c| == 12 && c[1..3] == m && c[4..6] == d && c[7..9] == h && c[10..12] == n
  {}

  /** The minute a second count falls in, from its parts. */
  lemma {:induction false} MinuteOfParts(secs: nat)
    ensures secs / 60 == 1440 * (secs / SECONDS_PER_DAY) + 60 * Hour(secs) + Minute(secs)
    ensures Hour(secs) < 24 && Minute(secs) < 60
  {}

  lemma {:induction false} ShapeOf(secs: nat)
    ensures var d := CivilDate(secs / SECONDS_PER_DAY);
      && |Clock(d, Hour(secs), Minute(secs))| == 12
      && d.month < 100 && d.day < 100 && Hour(secs) < 100 && Minute(secs) < 100
  {
    MinuteOfParts(secs);
    var d := CivilDate(secs / SECONDS_PER_DAY);
    assert ValidDate(d);
    ClockShape(d, Hour(secs), Minute(secs));
  }

  /** Equal texts come from equal dates and times. */
  lemma {:induction false} TextDeterminesParts(d: Date, hour: nat, minute: nat, e: Date, hour': nat, minute': nat)
    requires d.month < 100 && d.day < 100 && hour < 100 && minute < 100
    requires e.month < 100 && e.day < 100 && hour' < 100 && minute' < 100
    requires Padded(d.year, 4) + Clock(d, hour, minute) == Padded(e.year, 4) + Clock(e, hour', minute')
    ensures d == e && hour == hour' && minute == minute'
  {
    ClockShape(d, hour, minute);
    ClockShape(e, hour', minute');
    var s, t := Padded(d.year, 4) + Clock(d, hour, minute), Padded(e.year, 4) + Clock(e, hour', minute');
    var n := |s| - 12;
    assert s[..n] == Padded(d.year, 4) && t[..n] == Padded(e.year, 4);
    assert s[n..] == Clock(d, hour, minute) && t[n..] == Clock(e, hour', minute');
    PaddedReads(d.year, 4);
    PaddedReads(e.year, 4);
  }

  lemma {:induction false} NoLeadingZero(n: nat)
    requires n > 0
    ensures Decimal(n)[0] != '0'
  {
    if n >= 10 {
      NoLeadingZero(n / 10);
      assert Decimal(n)[0] == Decimal(n / 10)[0];
    }
  }

  lemma {:induction false} PaddedToWidth(n: nat, width: nat)
    ensures var s := Padded(n, width); |s| == width || (|s| > width && s[0] != '0') || (n == 0 && width == 0)
  {
    if n > 0 {
      NoLeadingZero(n);
    }
    ZerosAddNothing(if |Decimal(n)| < width then width - |Decimal(n)| else 0, Decimal(n));
  }

  /** The fields at their places: year, month, day, hour and minute, with the separators between. */
  ghost predicate Displays(s: Bytes, d: Date, hour: nat, minute: nat) {
    var n := |s|;
    && n >= 16 && (n > 16 ==> s[0] != '0')
    && DigitsValue(s[..n - 12]) == Some(d.year)
    && s[n - 12] == '-' && DigitsValue(s[n - 11..n - 9]) == Some(d.month)
    && s[n - 9] == '-' && DigitsValue(s[n - 8..n - 6]) == Some(d.day)
    && s[n - 6] == ' ' && DigitsValue(s[n - 5..n - 3]) == Some(hour)
    && s[n - 3] == ':' && DigitsValue(s[n - 2..]) == Some(minute)
  }

  /** The text shows the date that counting days gives, then the hour and the minute of that day. */
  lemma {:induction false} TextShowsTime(secs: nat)
    ensures Displays(ShortUnixTimestamp(secs), DateOf(secs / 86_400), secs % 86_400 / 3600, secs % 3600 / 60)
  {
    ShapeOf(secs);
    CivilIsCounted(secs / 86_400);
    OfTheDay(secs);
    var d := DateOf(secs / 86_400);
    ClockDisplays(d, Hour(secs), Minute(secs));
    assert ShortUnixTimestamp(secs) == Padded(d.year, 4) + Clock(d, Hour(secs), Minute(secs));
  }

  lemma {:induction false} OfTheDay(secs: nat)
    ensures Hour(secs) == secs % 86_400 / 3600 && Minute(secs) == secs % 3600 / 60
  {
    var rest := secs % 86_400;
    assert secs == 3600 * (24 * (secs / 86_400) + rest / 3600) + rest % 3600;
    RemainderIs(secs, 24 * (secs / 86_400) + rest / 3600, rest % 3600);
  }

  lemma {:induction false} RemainderIs(n: nat, hours: nat, rest: nat)
    requires n == 3600 * hours + rest && rest < 3600
    ensures n % 3600 == rest
  {
  }

  lemma {:induction false} ClockDisplays(d: Date, hour: nat, minute: nat)
    requires d.month < 100 && d.day < 100 && hour < 100 && minute < 100
    ensures Displays(Padded(d.year, 4) + Clock(d, hour, minute), d, hour, minute)
  {
    PaddedReads(d.year, 4);
    PaddedToWidth(d.year, 4);
    ClockShape(d, hour, minute);
    Separated(d, hour, minute);
    Appended(Padded(d.year, 4), Clock(d, hour, minute));
  }

  lemma {:induction false} Separated(d: Date, hour: nat, minute: nat)
    requires d.month < 100 && d.day < 100 && hour < 100 && minute < 100
    ensures var c := Clock(d, hour, minute); |c| == 12 && c[0] == '-' && c[3] == '-' && c[6] == ' ' && c[9] == ':'
  {
    TwoDigits(d.month);
    TwoDigits(d.day);
    TwoDigits(hour);
    TwoDigits(minute);
  }

  lemma {:induction false} Appended(year: Bytes, clock: Bytes)
    requires |clock| == 12
    ensures var s, n := year + clock, |year| + 12;
      && |s| == n && s[..n - 12] == year && s[n - 12..] == clock
      && s[n - 11..n - 9] == clock[1..3] && s[n - 8..n - 6] == clock[4..6]
      && s[n - 5..n - 3] == clock[7..9] && s[n - 2..] == clock[10..12]
      && s[n - 12] == clock[0] && s[n - 9] == clock[3] && s[n - 6] == clock[6] && s[n - 3] == clock[9]
      && (|year| > 0 ==> s[0] == year[0])
  {
  }

  /** Two times show the same text exactly when they fall in the same minute. */
  lemma {:induction false} TextIsTheMinute(a: nat, b: nat)
    ensures ShortUnixTimestamp(a) == ShortUnixTimestamp(b) <==> a / 60 == b / 60
  {
    MinuteOfParts(a);
    MinuteOfParts(b);
    if ShortUnixTimestamp(a) == ShortUnixTimestamp(b) {
      ShapeOf(a);
      ShapeOf(b);
      var d, e := CivilDate(a / SECONDS_PER_DAY), CivilDate(b / SECONDS_PER_DAY);
      TextDeterminesParts(d, Hour(a), Minute(a), e, Hour(b), Minute(b));
      CivilIsInverse(a / SECONDS_PER_DAY);
      CivilIsInverse(b / SECONDS_PER_DAY);
    }
    if a / 60 == b / 60 { SameMinuteSameParts(a, b); }
  }

  lemma {:induction false} SameMinuteSameParts(a: nat, b: nat)
    requires a / 60 == b / 60
    ensures a / SECONDS_PER_DAY == b / SECONDS_PER_DAY && Hour(a) == Hour(b) && Minute(a) == Minute(b)
  {
    assert a / SECONDS_PER_DAY == a / 60 / 1440 && b / SECONDS_PER_DAY == b / 60 / 1440;
    MinuteOfParts(a);
    MinuteOfParts(b);
  }
}
