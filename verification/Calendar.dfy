// rucelium-federation/src/sensorthings.rs: rfc3339_from_ns, constant-time calendar
// arithmetic against the Gregorian calendar counted day by day.
module Calendar {
  import opened Words

  // ---------------------------------------------------------------------
  // The calendar, day by day
  // ---------------------------------------------------------------------

  datatype Date = Date(year: nat, month: nat, day: nat)

  predicate IsLeap(year: nat) {
    year % 4 == 0 && (year % 100 != 0 || year % 400 == 0)
  }

  function DaysInMonth(year: nat, month: nat): nat {
    if month == 2 then (if IsLeap(year) then 29 else 28)
    else if month in {4, 6, 9, 11} then 30
    else 31
  }

  predicate Valid(d: Date) {
    1 <= d.month <= 12 && 1 <= d.day <= DaysInMonth(d.year, d.month)
  }

  ghost function Tomorrow(d: Date): Date {
    if d.day < DaysInMonth(d.year, d.month) then d.(day := d.day + 1)
    else if d.month < 12 then Date(d.year, d.month + 1, 1)
    else Date(d.year + 1, 1, 1)
  }

  // The date n days after 1 January 1970.
  ghost function DateOfDay(n: nat): Date {
    if n == 0 then Date(1970, 1, 1) else Tomorrow(DateOfDay(n - 1))
  }

  // ---------------------------------------------------------------------
  // The arithmetic of the source
  // ---------------------------------------------------------------------

  function YearOfEra(doe: nat): int {
    (doe - doe / 1_460 + doe / 36_524 - doe / 146_096) / 365
  }

  // The date of day doy of the year that starts on 1 March of `year`.
  function OfYearDay(year: nat, doy: nat): (date: Date)
    requires doy <= if IsLeap(year + 1) then 365 else 364
    ensures Valid(date)
  {
    MonthIsRight(doy);
    var mp := (5 * doy + 2) / 153;
    var day := doy - (153 * mp + 2) / 5 + 1;
    var month := if mp < 10 then mp + 3 else mp - 9;
    Date(if month <= 2 then year + 1 else year, month, day)
  }

  function CivilFromDays(days: nat): (date: Date)
    ensures Valid(date)
  {
    var z := days + 719_468;
    var era, doe := z / 146_097, z % 146_097;
    YearOfEraIsRight(doe);
    var yoe: nat := YearOfEra(doe);
    LeapByEra(era, yoe);
    OfYearDay(yoe + era * 400, doe - Before(yoe))
  }

  // Days of an era, which starts on 1 March, before its year yoe.
  function Before(yoe: int): int {
    365 * yoe + yoe / 4 - yoe / 100
  }

  // Days of such a year before its month mp, March being 0.
  function MonthStart(mp: int): int {
    (153 * mp + 2) / 5
  }

  // The February of an era's year yoe lies in the next calendar year.
  ghost predicate EndsInLeap(yoe: int) {
    (yoe + 1) % 4 == 0 && ((yoe + 1) % 100 != 0 || yoe == 399)
  }

  // The year found contains the day.
  lemma YearOfEraIsRight(doe: nat)
    requires doe < 146_097
    ensures var yoe := YearOfEra(doe);
            0 <= yoe < 400 && Before(yoe) <= doe <= Before(yoe) + (if EndsInLeap(yoe) then 365 else 364)
  {
    // whole centuries, at most three, then whole groups of four years
    hide Before, EndsInLeap;
    var c := doe / 36_524 - doe / 146_096;
    WholeCenturies(doe, c);
    var r := doe - 36_524 * c;
    var g, t := r / 1_461, r % 1_461;
    var q := (g + t + 24 * c) / 1_460;
    WholeGroups(c, g, t, q);
    var y := (t - q) / 365;
    assert YearOfEra(doe) == 100 * c + 4 * g + y;
    CenturyYears(c, g, y);
  }

  lemma WholeCenturies(doe: nat, c: int)
    requires doe < 146_097 && c == doe / 36_524 - doe / 146_096
    ensures 0 <= c <= 3 && 0 <= doe - 36_524 * c <= 36_524 && (doe - 36_524 * c == 36_524 ==> c == 3)
  {
  }

  lemma WholeGroups(c: nat, g: nat, t: nat, q: nat)
    requires c <= 3 && t < 1_461 && 1_461 * g + t <= 36_524 && q == (g + t + 24 * c) / 1_460
    ensures g <= 24 && q <= 1 && 0 <= t - q < 4 * 365
    ensures var doe := 36_524 * c + 1_461 * g + t;
            doe - doe / 1_460 + c == 36_500 * c + 1_460 * g + (t - q)
  {
    var doe := 36_524 * c + 1_461 * g + t;
    assert doe == 1_460 * (25 * c + g) + (g + t + 24 * c);
  }

  lemma CenturyYears(c: int, g: int, y: int)
    requires 0 <= c <= 3 && 0 <= g <= 24 && 0 <= y <= 3
    ensures Before(100 * c + 4 * g + y) == 36_524 * c + 1_461 * g + 365 * y
    ensures EndsInLeap(100 * c + 4 * g + y) <==> y == 3 && (g != 24 || c == 3)
  {
    var n := 100 * c + 4 * g + y;
    assert n / 4 == 25 * c + g && n / 100 == c;
    assert (n + 1) % 4 == (y + 1) % 4;
    assert (n + 1) % 100 == (4 * g + y + 1) % 100;
  }

  // The month found contains the day.
  lemma MonthIsRight(doy: nat)
    requires doy <= 365
    ensures var mp := (5 * doy + 2) / 153;
            0 <= mp <= 11 && MonthStart(mp) <= doy && (mp < 11 ==> doy < MonthStart(mp + 1))
  {
  }

  lemma LeapByEra(era: nat, yoe: nat)
    requires yoe < 400
    ensures IsLeap(yoe + era * 400 + 1) <==> EndsInLeap(yoe)
  {
    var n, year := yoe + 1, yoe + era * 400 + 1;
    assert year == n + 4 * (100 * era) == n + 100 * (4 * era) == n + 400 * era;
    FourYears(n, 100 * era);
    Centuries(n, 4 * era);
    Eras(n, era);
  }

  lemma {:induction false} FourYears(n: nat, a: nat)
    ensures (n + 4 * a) % 4 == n % 4
  {
    assert n + 4 * a == 4 * (n / 4 + a) + n % 4;
  }

  lemma {:induction false} Centuries(n: nat, a: nat)
    ensures (n + 100 * a) % 100 == n % 100
  {
    assert n + 100 * a == 100 * (n / 100 + a) + n % 100;
  }

  lemma {:induction false} Eras(n: nat, a: nat)
    ensures (n + 400 * a) % 400 == n % 400
  {
    assert n + 400 * a == 400 * (n / 400 + a) + n % 400;
  }

  // ---------------------------------------------------------------------
  // Counting back
  // ---------------------------------------------------------------------

  // Days from 1 January 1970 to a date, through the eras; negative before it.
  ghost function DaysFromDate(d: Date): int {
    var y := if d.month <= 2 then d.year - 1 else d.year;
    var mp := if d.month <= 2 then d.month + 9 else d.month - 3;
    (y / 400) * 146_097 + Before(y % 400) + MonthStart(mp) + d.day - 1 - 719_468
  }

  lemma EraYear(era: nat, yoe: nat)
    requires yoe < 400
    ensures (yoe + era * 400) / 400 == era && (yoe + era * 400) % 400 == yoe
  {
  }

  // Where the year that starts on 1 March of y lies.
  ghost function YearStart(y: nat): int {
    (y / 400) * 146_097 + Before(y % 400) - 719_468
  }

  lemma YearDayCountsBack(year: nat, doy: nat)
    requires doy <= if IsLeap(year + 1) then 365 else 364
    ensures DaysFromDate(OfYearDay(year, doy)) == YearStart(year) + doy
  {
    hide Before, IsLeap;
    MonthIsRight(doy);
  }

  // The computed date counts back to the day.
  lemma CivilCountsBack(days: nat)
    ensures DaysFromDate(CivilFromDays(days)) == days
  {
    hide YearOfEra, Before, IsLeap, EndsInLeap, OfYearDay, DaysFromDate;
    var z := days + 719_468;
    var era, doe := z / 146_097, z % 146_097;
    YearOfEraIsRight(doe);
    var yoe: nat := YearOfEra(doe);
    LeapByEra(era, yoe);
    EraYear(era, yoe);
    YearDayCountsBack(yoe + era * 400, doe - Before(yoe));
  }

  lemma NextYearStarts(y: int)
    requires y >= 0
    ensures ((y + 1) / 400) * 146_097 + Before((y + 1) % 400)
         == (y / 400) * 146_097 + Before(y % 400) + (if IsLeap(y + 1) then 366 else 365)
  {
    var era, yoe := y / 400, y % 400;
    LeapByEra(era, yoe);
    if yoe < 399 {
      EraYear(era, yoe + 1);
      CenturySteps(yoe);
    } else {
      EraYear(era + 1, 0);
    }
  }

  lemma CenturySteps(yoe: int)
    requires 0 <= yoe < 399
    ensures Before(yoe + 1) == Before(yoe) + (if EndsInLeap(yoe) then 366 else 365)
  {
  }

  lemma MonthsAreLaidOut(year: nat, month: nat)
    requires 1 <= month <= 12 && month != 2
    ensures var mp := if month == 1 then 10 else month - 3;
            MonthStart(mp) + DaysInMonth(year, month) == MonthStart(mp + 1)
  {
  }

  // Consecutive dates count one day apart.
  lemma TomorrowIsOneLater(d: Date)
    requires Valid(d) && d.year >= 1
    ensures Valid(Tomorrow(d)) && DaysFromDate(Tomorrow(d)) == DaysFromDate(d) + 1
  {
    hide Before, IsLeap, MonthStart;
    if d.month == 2 && d.day == DaysInMonth(d.year, 2) {
      NextYearStarts(d.year - 1);
      assert MonthStart(11) == 337 && MonthStart(0) == 0 by { YearEnds(); }
    } else if d.day == DaysInMonth(d.year, d.month) {
      MonthsAreLaidOut(d.year, d.month);
    }
  }

  lemma YearEnds()
    ensures MonthStart(11) == 337 && MonthStart(0) == 0
  {
  }

  lemma WithinYear(d: Date)
    requires Valid(d) && d.year >= 1
    ensures var y := if d.month <= 2 then d.year - 1 else d.year;
            var start := (y / 400) * 146_097 + Before(y % 400) - 719_468;
            start <= DaysFromDate(d) < start + (if IsLeap(y + 1) then 366 else 365)
  {
  }

  lemma {:induction false} YearsStartInOrder(y: int, y': int)
    requires 0 <= y < y'
    ensures (y / 400) * 146_097 + Before(y % 400) + (if IsLeap(y + 1) then 366 else 365)
         <= (y' / 400) * 146_097 + Before(y' % 400)
    decreases y' - y
  {
    NextYearStarts(y);
    if y + 1 < y' {
      YearsStartInOrder(y + 1, y');
    }
  }

  // No two dates count the same.
  lemma DaysTellDatesApart(a: Date, b: Date)
    requires Valid(a) && Valid(b) && a.year >= 1 && b.year >= 1
    requires DaysFromDate(a) == DaysFromDate(b)
    ensures a == b
  {
    hide IsLeap, Before;
    var ya := if a.month <= 2 then a.year - 1 else a.year;
    var yb := if b.month <= 2 then b.year - 1 else b.year;
    WithinYear(a);
    WithinYear(b);
    if ya < yb {
      YearsStartInOrder(ya, yb);
    } else if yb < ya {
      YearsStartInOrder(yb, ya);
    }
    assert ya == yb;
    SameYear(a, b);
  }

  lemma SameYear(a: Date, b: Date)
    requires Valid(a) && Valid(b) && a.year >= 1 && b.year >= 1
    requires (if a.month <= 2 then a.year - 1 else a.year) == (if b.month <= 2 then b.year - 1 else b.year)
    requires DaysFromDate(a) == DaysFromDate(b)
    ensures a == b
  {
    hide Before, IsLeap;
    var ma := if a.month <= 2 then a.month + 9 else a.month - 3;
    var mb := if b.month <= 2 then b.month + 9 else b.month - 3;
    assert MonthStart(ma) + a.day == MonthStart(mb) + b.day;
    MonthsInOrder(a, ma, mb);
    MonthsInOrder(b, mb, ma);
  }

  lemma MonthsInOrder(d: Date, m: int, m': int)
    requires Valid(d) && 0 <= m <= 11 && 0 <= m' <= 11
    requires m == if d.month <= 2 then d.month + 9 else d.month - 3
    ensures m < m' ==> MonthStart(m) + d.day <= MonthStart(m')
  {
  }

  // For every day the constant-time conversion is the calendar counted day by day.
  lemma {:induction false} CivilIsCounted(days: nat)
    ensures CivilFromDays(days) == DateOfDay(days)
  {
    CountedIsValid(days);
    CivilCountsBack(days);
    CivilIsModern(days);
    DaysTellDatesApart(CivilFromDays(days), DateOfDay(days));
  }

  lemma CivilIsModern(days: nat)
    ensures CivilFromDays(days).year >= 1
  {
  }

  lemma {:induction false} CountedIsValid(n: nat)
    ensures var d := DateOfDay(n); Valid(d) && d.year >= 1970 && DaysFromDate(d) == n
  {
    hide DaysFromDate;
    if n == 0 {
      EpochIsDayZero();
    } else {
      CountedIsValid(n - 1);
      TomorrowIsOneLater(DateOfDay(n - 1));
    }
  }

  lemma EpochIsDayZero()
    ensures DaysFromDate(Date(1970, 1, 1)) == 0
  {
  }

  // ---------------------------------------------------------------------
  // The timestamp
  // ---------------------------------------------------------------------

  datatype Stamp = Stamp(date: Date, hour: nat, minute: nat, second: nat, millis: nat)

  function StampOf(ns: U64): Stamp {
    var secs, millis := ns / 1_000_000_000, (ns % 1_000_000_000) / 1_000_000;
    var secondOfDay := secs % 86_400;
    Stamp(CivilFromDays(secs / 86_400), secondOfDay / 3_600, (secondOfDay % 3_600) / 60, secondOfDay % 60, millis)
  }

  // Milliseconds since the epoch that a timestamp names.
  ghost function MillisOf(s: Stamp): int {
    (DaysFromDate(s.date) * 86_400 + s.hour * 3_600 + s.minute * 60 + s.second) * 1_000 + s.millis
  }

  // Every field is in range, the year fits four digits, and together they name the
  // millisecond that contains the instant.
  lemma StampNamesTheMillisecond(ns: U64)
    ensures var s := StampOf(ns);
            && Valid(s.date) && 1970 <= s.date.year <= 9999
            && s.hour < 24 && s.minute < 60 && s.second < 60 && s.millis < 1_000
            && MillisOf(s) == ns / 1_000_000
  {
    var days := ns / 1_000_000_000 / 86_400;
    CivilCountsBack(days);
    CivilIsCounted(days);
    CountedIsValid(days);
    YearFitsFourDigits(days);
    SplitSeconds(ns);
    hide CivilFromDays, DaysFromDate, DateOfDay;
  }

  lemma SplitSeconds(ns: U64)
    ensures var secs := ns / 1_000_000_000;
            && secs == secs / 86_400 * 86_400 + secs % 86_400
            && secs % 86_400 == secs % 86_400 / 3_600 * 3_600 + secs % 86_400 % 3_600 / 60 * 60 + secs % 86_400 % 60
            && ns / 1_000_000 == secs * 1_000 + ns % 1_000_000_000 / 1_000_000
  {
  }

  lemma YearFitsFourDigits(days: nat)
    requires days < 1_000_000
    ensures CivilFromDays(days).year <= 9999
  {
  }

  function Digit(n: nat): char {
    '0' + (n % 10) as char
  }

  // Zero-padded decimal of a fixed width.
  function Pad(n: nat, width: nat): (text: string)
    ensures |text| == width
  {
    if width == 0 then "" else Pad(n / 10, width - 1) + [Digit(n)]
  }

  function Rfc3339(ns: U64): (text: string)
    ensures |text| == 24
  {
    var s := StampOf(ns);
    Pad(s.date.year, 4) + "-" + Pad(s.date.month, 2) + "-" + Pad(s.date.day, 2) + "T" + Pad(s.hour, 2) + ":"
    + Pad(s.minute, 2) + ":" + Pad(s.second, 2) + "." + Pad(s.millis, 3) + "Z"
  }

  function Power10(n: nat): (p: nat)
    ensures p > 0
  {
    if n == 0 then 1 else 10 * Power10(n - 1)
  }

  lemma {:induction false} PadTellsApart(a: nat, b: nat, width: nat)
    requires a < Power10(width) && b < Power10(width) && Pad(a, width) == Pad(b, width)
    ensures a == b
  {
    if width > 0 {
      assert Pad(a, width)[..width - 1] == Pad(a / 10, width - 1) && Pad(a, width)[width - 1] == Digit(a);
      assert Pad(b, width)[..width - 1] == Pad(b / 10, width - 1) && Pad(b, width)[width - 1] == Digit(b);
      PadTellsApart(a / 10, b / 10, width - 1);
    }
  }

  // The number a run of decimal digits writes.
  ghost function ReadDecimal(text: string): int {
    if text == "" then 0 else 10 * ReadDecimal(text[..|text| - 1]) + (text[|text| - 1] as int - '0' as int)
  }

  ghost predicate Writes(text: string, n: int) {
    (forall i :: 0 <= i < |text| ==> '0' <= text[i] <= '9') && ReadDecimal(text) == n
  }

  lemma {:induction false} PadWrites(n: nat, width: nat)
    requires n < Power10(width)
    ensures Writes(Pad(n, width), n)
  {
    if width > 0 {
      PadWrites(n / 10, width - 1);
      assert Pad(n, width)[..width - 1] == Pad(n / 10, width - 1) && Pad(n, width)[width - 1] == Digit(n);
    }
  }

  // Year, month, day, hour, minute, second and millisecond stand in their columns with
  // the separators of RFC 3339 between them: the day counted from 1970, and the time
  // within it.
  lemma TextReadsBack(ns: U64)
    ensures var text, date, time := Rfc3339(ns), DateOfDay(ns / 86_400_000_000_000), ns / 1_000_000 % 86_400_000;
            && text[4] == text[7] == '-' && text[10] == 'T' && text[13] == text[16] == ':'
            && text[19] == '.' && text[23] == 'Z'
            && Writes(text[..4], date.year) && Writes(text[5..7], date.month) && Writes(text[8..10], date.day)
            && Writes(text[11..13], time / 3_600_000) && Writes(text[14..16], time / 60_000 % 60)
            && Writes(text[17..19], time / 1_000 % 60) && Writes(text[20..23], time % 1_000)
  {
    hide StampOf, Pad, Writes, DateOfDay, MillisOf, CivilFromDays;
    var s := StampOf(ns);
    StampNamesTheMillisecond(ns);
    TimeOfDay(ns);
    Columns(ns);
    TensAndThousands();
    PadWrites(s.date.year, 4);
    PadWrites(s.date.month, 2);
    PadWrites(s.date.day, 2);
    PadWrites(s.hour, 2);
    PadWrites(s.minute, 2);
    PadWrites(s.second, 2);
    PadWrites(s.millis, 3);
  }

  lemma TimeOfDay(ns: U64)
    ensures var s, time := StampOf(ns), ns / 1_000_000 % 86_400_000;
            && s.date == DateOfDay(ns / 86_400_000_000_000)
            && s.hour == time / 3_600_000 && s.minute == time / 60_000 % 60
            && s.second == time / 1_000 % 60 && s.millis == time % 1_000
  {
    hide CivilFromDays, DateOfDay;
    CivilIsCounted(ns / 86_400_000_000_000);
    SameDay(ns);
    SplitTime(ns);
  }

  lemma SameDay(ns: U64)
    ensures ns / 1_000_000_000 / 86_400 == ns / 86_400_000_000_000
  {
  }

  lemma SplitTime(ns: U64)
    ensures var second, time := ns / 1_000_000_000 % 86_400, ns / 1_000_000 % 86_400_000;
            && time == second * 1_000 + ns % 1_000_000_000 / 1_000_000
            && second / 3_600 == time / 3_600_000 && second % 3_600 / 60 == time / 60_000 % 60
            && second % 60 == time / 1_000 % 60
  {
    var ms := ns / 1_000_000;
    WholeMillis(ns);
    MillisOfDay(ms);
    ClockOf(ms % 86_400_000);
  }

  lemma WholeMillis(ns: U64)
    ensures ns / 1_000_000_000 == ns / 1_000_000 / 1_000
    ensures ns % 1_000_000_000 / 1_000_000 == ns / 1_000_000 % 1_000
  {
  }

  lemma MillisOfDay(ms: nat)
    ensures ms / 1_000 % 86_400 == ms % 86_400_000 / 1_000 && ms % 1_000 == ms % 86_400_000 % 1_000
  {
    var day, time := ms / 86_400_000, ms % 86_400_000;
    assert ms == 86_400_000 * day + time;
    assert ms / 1_000 == 86_400 * day + time / 1_000;
  }

  lemma ClockOf(time: nat)
    ensures time == time / 1_000 * 1_000 + time % 1_000
    ensures time / 1_000 / 3_600 == time / 3_600_000
    ensures time / 1_000 % 3_600 / 60 == time / 60_000 % 60
  {
    MinuteOf(time / 1_000);
    assert time / 1_000 / 60 == time / 60_000;
  }

  lemma MinuteOf(second: nat)
    ensures second % 3_600 / 60 == second / 60 % 60
  {
    var hour, rest := second / 3_600, second % 3_600;
    assert second / 60 == 60 * hour + rest / 60;
  }

  lemma Columns(ns: U64)
    ensures var s, text := StampOf(ns), Rfc3339(ns);
            && text[..4] == Pad(s.date.year, 4) && text[5..7] == Pad(s.date.month, 2)
            && text[8..10] == Pad(s.date.day, 2) && text[11..13] == Pad(s.hour, 2)
            && text[14..16] == Pad(s.minute, 2) && text[17..19] == Pad(s.second, 2)
            && text[20..23] == Pad(s.millis, 3)
            && text[4] == text[7] == '-' && text[10] == 'T' && text[13] == text[16] == ':'
            && text[19] == '.' && text[23] == 'Z'
  {
    hide StampOf, Pad;
  }

  // Two instants print alike exactly when they share their millisecond.
  lemma TextTellsMillisecondsApart(a: U64, b: U64)
    ensures Rfc3339(a) == Rfc3339(b) <==> a / 1_000_000 == b / 1_000_000
  {
    hide Pad, MillisOf, CivilFromDays, Rfc3339;
    if Rfc3339(a) == Rfc3339(b) {
      hide StampOf;
      StampNamesTheMillisecond(a);
      StampNamesTheMillisecond(b);
      Columns(a);
      Columns(b);
      var s, s' := StampOf(a), StampOf(b);
      TensAndThousands();
      PadTellsApart(s.date.year, s'.date.year, 4);
      PadTellsApart(s.date.month, s'.date.month, 2);
      PadTellsApart(s.date.day, s'.date.day, 2);
      PadTellsApart(s.hour, s'.hour, 2);
      PadTellsApart(s.minute, s'.minute, 2);
      PadTellsApart(s.second, s'.second, 2);
      PadTellsApart(s.millis, s'.millis, 3);
    } else {
      SameMillisecondSameStamp(a, b);
    }
  }

  lemma TensAndThousands()
    ensures Power10(2) == 100 && Power10(3) == 1_000 && Power10(4) == 10_000
  {
    assert Power10(1) == 10;
  }

  lemma SameMillisecondSameStamp(a: U64, b: U64)
    ensures a / 1_000_000 == b / 1_000_000 ==> StampOf(a) == StampOf(b) && Rfc3339(a) == Rfc3339(b)
  {
    hide CivilFromDays, Pad;
    assert forall ns: U64 :: ns / 1_000_000_000 == ns / 1_000_000 / 1_000
                          && ns % 1_000_000_000 / 1_000_000 == ns / 1_000_000 % 1_000;
  }
}
