/**
 Instants and the UTC stamps that are stored for them, and why comparing two stamps
 as text compares the instants they name.
 */
module Clock {
  import opened Text

  /** An aware UTC datetime by its fields, years 1 to 9999. */
  datatype Civil = Civil(year: nat, month: nat, day: nat, hour: nat, minute: nat, second: nat, micro: nat)

  predicate IsLeap(y: nat) {
    y % 4 == 0 && (y % 100 != 0 || y % 400 == 0)
  }

  function DaysIn(y: nat, m: nat): nat {
    if m == 2 then (if IsLeap(y) then 29 else 28)
    else if m == 4 || m == 6 || m == 9 || m == 11 then 30 else 31
  }

  predicate IsCivil(c: Civil) {
    && 1 <= c.year <= 9999
    && 1 <= c.month <= 12
    && 1 <= c.day <= DaysIn(c.year, c.month)
    && c.hour < 24 && c.minute < 60 && c.second < 60 && c.micro < 1_000_000
  }

  function DaysBeforeYear(y: int): int {
    (y - 1) * 365 + (y - 1) / 4 - (y - 1) / 100 + (y - 1) / 400
  }

  function DaysBeforeMonth(y: nat, m: nat): nat {
    if m <= 1 then 0 else DaysBeforeMonth(y, m - 1) + DaysIn(y, m - 1)
  }

  /** date.toordinal(). */
  function Ordinal(y: nat, m: nat, d: nat): int {
    DaysBeforeYear(y) + DaysBeforeMonth(y, m) + d
  }

  const DAY := 86_400_000_000

  function TimeOfDay(c: Civil): nat {
    ((c.hour * 60 + c.minute) * 60 + c.second) * 1_000_000 + c.micro
  }

  /** Microseconds on one line of time. */
  function Instant(c: Civil): int {
    Ordinal(c.year, c.month, c.day) * DAY + TimeOfDay(c)
  }

  // ----- Fields in order are instants in order -----

  predicate DateBefore(a: Civil, b: Civil) {
    a.year < b.year || (a.year == b.year && (a.month < b.month || (a.month == b.month && a.day < b.day)))
  }

  predicate SameDate(a: Civil, b: Civil) {
    a.year == b.year && a.month == b.month && a.day == b.day
  }

  predicate TimeBefore(a: Civil, b: Civil) {
    || a.hour < b.hour
    || (a.hour == b.hour
        && (a.minute < b.minute
            || (a.minute == b.minute
                && (a.second < b.second || (a.second == b.second && a.micro < b.micro)))))
  }

  predicate Before(a: Civil, b: Civil) {
    DateBefore(a, b) || (SameDate(a, b) && TimeBefore(a, b))
  }

  lemma Quarter(y: nat)
    requires y >= 1
    ensures y / 4 == (y - 1) / 4 + if y % 4 == 0 then 1 else 0
  {
  }

  lemma Century(y: nat)
    requires y >= 1
    ensures y / 100 == (y - 1) / 100 + if y % 100 == 0 then 1 else 0
  {
  }

  lemma FourCenturies(y: nat)
    requires y >= 1
    ensures y / 400 == (y - 1) / 400 + if y % 400 == 0 then 1 else 0
  {
  }

  lemma Multiple100(y: nat, k: nat)
    requires y == 100 * k
    ensures y % 100 == 0
  {
  }

  lemma Multiple4(y: nat, k: nat)
    requires y == 4 * k
    ensures y % 4 == 0
  {
  }

  lemma LeapNests(y: nat)
    ensures y % 400 == 0 ==> y % 100 == 0
    ensures y % 100 == 0 ==> y % 4 == 0
  {
    if y % 400 == 0 {
      Multiple100(y, 4 * (y / 400));
    }
    if y % 100 == 0 {
      Multiple4(y, 25 * (y / 100));
    }
  }

  lemma YearLength(y: nat)
    requires y >= 1
    ensures DaysBeforeYear(y + 1) == DaysBeforeYear(y) + if IsLeap(y) then 366 else 365
  {
    Quarter(y);
    Century(y);
    FourCenturies(y);
    LeapNests(y);
  }

  lemma {:induction false} YearsGrow(y: nat, z: nat)
    requires 1 <= y <= z
    ensures DaysBeforeYear(y) + 365 * (z - y) <= DaysBeforeYear(z)
    decreases z - y
  {
    if y < z {
      YearsGrow(y, z - 1);
      YearLength(z - 1);
    }
  }

  lemma {:induction false} MonthsGrow(y: nat, m: nat, n: nat)
    requires 1 <= m < n <= 13
    ensures DaysBeforeMonth(y, m) + DaysIn(y, m) <= DaysBeforeMonth(y, n)
  {
    if m + 1 < n {
      MonthsGrow(y, m, n - 1);
    }
  }

  lemma MonthsOfYear(y: nat)
    ensures DaysBeforeMonth(y, 13) == if IsLeap(y) then 366 else 365
  {
    assert DaysBeforeMonth(y, 2) == 31;
    assert DaysBeforeMonth(y, 3) == 31 + DaysIn(y, 2);
    assert DaysBeforeMonth(y, 5) == DaysBeforeMonth(y, 3) + 61;
    assert DaysBeforeMonth(y, 7) == DaysBeforeMonth(y, 5) + 61;
    assert DaysBeforeMonth(y, 9) == DaysBeforeMonth(y, 7) + 62;
    assert DaysBeforeMonth(y, 11) == DaysBeforeMonth(y, 9) + 61;
    assert DaysBeforeMonth(y, 13) == DaysBeforeMonth(y, 11) + 61;
  }

  /** Every date of a year lies within the year. */
  lemma OrdinalInYear(c: Civil)
    requires IsCivil(c)
    ensures DaysBeforeYear(c.year) < Ordinal(c.year, c.month, c.day) <= DaysBeforeYear(c.year + 1)
  {
    MonthsGrow(c.year, c.month, 13);
    MonthsOfYear(c.year);
    YearLength(c.year);
  }

  lemma DateOrder(a: Civil, b: Civil)
    requires IsCivil(a) && IsCivil(b) && DateBefore(a, b)
    ensures Ordinal(a.year, a.month, a.day) < Ordinal(b.year, b.month, b.day)
  {
    if a.year < b.year {
      OrdinalInYear(a);
      OrdinalInYear(b);
      YearsGrow(a.year + 1, b.year);
    } else if a.month < b.month {
      MonthsGrow(a.year, a.month, b.month);
    }
  }

  lemma TimeOrder(a: Civil, b: Civil)
    requires IsCivil(a) && IsCivil(b)
    ensures TimeBefore(a, b) <==> TimeOfDay(a) < TimeOfDay(b)
    ensures 0 <= TimeOfDay(a) < DAY
  {
  }

  lemma BeforeIsEarlier(a: Civil, b: Civil)
    requires IsCivil(a) && IsCivil(b)
    ensures Before(a, b) <==> Instant(a) < Instant(b)
  {
    TimeOrder(a, b);
    TimeOrder(b, a);
    if DateBefore(a, b) {
      DateOrder(a, b);
    } else if DateBefore(b, a) {
      DateOrder(b, a);
    }
  }

  // ----- Text -----

  function DateText(c: Civil, rest: string): string {
    Pad(c.year, 4) + (['-'] + (Pad(c.month, 2) + (['-'] + (Pad(c.day, 2) + (['T'] + rest)))))
  }

  function TimeText(c: Civil, rest: string): string {
    Pad(c.hour, 2) + ([':'] + (Pad(c.minute, 2) + ([':'] + (Pad(c.second, 2) + rest))))
  }

  function FractionText(c: Civil): string {
    ['.'] + (Pad(c.micro, 6) + "+00:00")
  }

  /** isoformat(timespec="microseconds"), as now_iso and to_iso write it. */
  function IsoStamp(c: Civil): (s: string)
    ensures |s| == 32
  {
    DateText(c, TimeText(c, FractionText(c)))
  }

  /** isoformat(), which drops a zero fraction. */
  function IsoCutoff(c: Civil): string {
    if c.micro == 0 then DateText(c, TimeText(c, "+00:00")) else IsoStamp(c)
  }

  lemma FieldOrder(m: nat, n: nat, width: nat, r: string, s: string)
    requires m < Pow10(width) && n < Pow10(width)
    ensures Less(Pad(m, width) + r, Pad(n, width) + s) <==> m < n || (m == n && Less(r, s))
  {
    LessConcat(Pad(m, width), Pad(n, width), r, s);
    PadOrder(m, n, width);
  }

  lemma SeparatorOrder(c: char, r: string, s: string)
    ensures Less([c] + r, [c] + s) <==> Less(r, s)
  {
    assert ([c] + r)[1..] == r && ([c] + s)[1..] == s;
  }

  lemma FieldThenSeparator(m: nat, n: nat, width: nat, c: char, r: string, s: string)
    requires m < Pow10(width) && n < Pow10(width)
    ensures Less(Pad(m, width) + ([c] + r), Pad(n, width) + ([c] + s)) <==> m < n || (m == n && Less(r, s))
  {
    FieldOrder(m, n, width, [c] + r, [c] + s);
    SeparatorOrder(c, r, s);
  }

  lemma Widths()
    ensures Pow10(2) == 100 && Pow10(4) == 10_000 && Pow10(6) == 1_000_000
  {
    assert Pow10(1) == 10 && Pow10(3) == 1000 && Pow10(5) == 100_000;
  }

  lemma DateTextOrder(a: Civil, b: Civil, r: string, s: string)
    requires IsCivil(a) && IsCivil(b)
    ensures Less(DateText(a, r), DateText(b, s)) <==> DateBefore(a, b) || (SameDate(a, b) && Less(r, s))
  {
    Widths();
    var x, y := Pad(a.day, 2) + (['T'] + r), Pad(b.day, 2) + (['T'] + s);
    FieldThenSeparator(a.day, b.day, 2, 'T', r, s);
    FieldThenSeparator(a.month, b.month, 2, '-', x, y);
    FieldThenSeparator(a.year, b.year, 4, '-', Pad(a.month, 2) + (['-'] + x), Pad(b.month, 2) + (['-'] + y));
  }

  lemma TimeTextOrder(a: Civil, b: Civil, r: string, s: string)
    requires IsCivil(a) && IsCivil(b)
    ensures Less(TimeText(a, r), TimeText(b, s)) <==>
            || a.hour < b.hour
            || (a.hour == b.hour
                && (a.minute < b.minute
                    || (a.minute == b.minute
                        && (a.second < b.second || (a.second == b.second && Less(r, s))))))
  {
    Widths();
    var x, y := Pad(a.second, 2) + r, Pad(b.second, 2) + s;
    FieldOrder(a.second, b.second, 2, r, s);
    FieldThenSeparator(a.minute, b.minute, 2, ':', x, y);
    FieldThenSeparator(a.hour, b.hour, 2, ':', Pad(a.minute, 2) + ([':'] + x), Pad(b.minute, 2) + ([':'] + y));
  }

  lemma FractionOrder(a: Civil, b: Civil)
    requires IsCivil(a) && IsCivil(b)
    ensures Less(FractionText(a), FractionText(b)) <==> a.micro < b.micro
    ensures !Less(FractionText(a), "+00:00")
  {
    Widths();
    LessTotal("+00:00", "+00:00");
    FieldOrder(a.micro, b.micro, 6, "+00:00", "+00:00");
    SeparatorOrder('.', Pad(a.micro, 6) + "+00:00", Pad(b.micro, 6) + "+00:00");
  }

  /** Stamps compare as text exactly as their instants compare. */
  lemma StampOrder(a: Civil, b: Civil)
    requires IsCivil(a) && IsCivil(b)
    ensures Less(IsoStamp(a), IsoStamp(b)) <==> Instant(a) < Instant(b)
  {
    DateTextOrder(a, b, TimeText(a, FractionText(a)), TimeText(b, FractionText(b)));
    TimeTextOrder(a, b, FractionText(a), FractionText(b));
    FractionOrder(a, b);
    BeforeIsEarlier(a, b);
  }

  /** So does a stamp against a cutoff, although a whole-second cutoff drops its fraction. */
  lemma CutoffOrder(stamp: Civil, cutoff: Civil)
    requires IsCivil(stamp) && IsCivil(cutoff)
    ensures Less(IsoStamp(stamp), IsoCutoff(cutoff)) <==> Instant(stamp) < Instant(cutoff)
  {
    if cutoff.micro == 0 {
      DateTextOrder(stamp, cutoff, TimeText(stamp, FractionText(stamp)), TimeText(cutoff, "+00:00"));
      TimeTextOrder(stamp, cutoff, FractionText(stamp), "+00:00");
      FractionOrder(stamp, cutoff);
      BeforeIsEarlier(stamp, cutoff);
    } else {
      StampOrder(stamp, cutoff);
    }
  }

  // ----- Every instant in range has its stamp -----

  const FIRST := DAY
  const END := 3_652_060 * DAY

  /** An instant the program can write down; rows hold these in place of their stamps. */
  type Time = t: int | FIRST <= t < END witness FIRST

  lemma CalendarEnd()
    ensures DaysBeforeYear(10_000) == 3_652_059
  {
  }

  lemma {:induction false} DateAt(n: int) returns (y: nat, m: nat, d: nat)
    requires 1 <= n <= 3_652_059
    ensures 1 <= y <= 9999 && 1 <= m <= 12 && 1 <= d <= DaysIn(y, m) && Ordinal(y, m, d) == n
    decreases n
  {
    if n == 1 {
      y, m, d := 1, 1, 1;
    } else {
      y, m, d := DateAt(n - 1);
      if d < DaysIn(y, m) {
        d := d + 1;
      } else if m < 12 {
        m, d := m + 1, 1;
      } else {
        MonthsOfYear(y);
        YearLength(y);
        CalendarEnd();
        y, m, d := y + 1, 1, 1;
      }
    }
  }

  lemma CivilAt(t: Time) returns (c: Civil)
    ensures IsCivil(c) && Instant(c) == t
  {
    var y, m, d := DateAt(t / DAY);
    var r := t % DAY;
    var sec := r / 1_000_000;
    c := Civil(y, m, d, sec / 3600, sec / 60 % 60, sec % 60, r % 1_000_000);
    assert sec == (c.hour * 60 + c.minute) * 60 + c.second;
  }

  ghost predicate Stamps(t: int, c: Civil, s: string) {
    IsCivil(c) && Instant(c) == t && s == IsoStamp(c)
  }

  /** The stamp of an instant: the text the program writes for it. */
  ghost function StampOf(t: Time): (s: string)
    ensures exists c :: Stamps(t, c, s)
  {
    assert exists s, c :: Stamps(t, c, s) by {
      var c := CivilAt(t);
      assert Stamps(t, c, IsoStamp(c));
    }
    var s :| exists c :: Stamps(t, c, s);
    s
  }

  /** Instants can stand for their stamps: the order is the same and no two share one. */
  lemma StampOfOrder(s: Time, t: Time)
    ensures Less(StampOf(s), StampOf(t)) <==> s < t
    ensures StampOf(s) == StampOf(t) <==> s == t
  {
    var x, y := StampOf(s), StampOf(t);
    var a :| Stamps(s, a, x);
    var b :| Stamps(t, b, y);
    StampOrder(a, b);
    StampOrder(b, a);
    LessTotal(x, y);
  }

  function DatePart(c: Civil): string {
    Pad(c.year, 4) + ("-" + (Pad(c.month, 2) + ("-" + Pad(c.day, 2))))
  }

  lemma DatePartIs(c: Civil)
    ensures IsoStamp(c)[..10] == DatePart(c)
  {
  }

  lemma DatePartUnique(a: Civil, b: Civil)
    requires IsCivil(a) && IsCivil(b)
    ensures DatePart(a) == DatePart(b) <==> SameDate(a, b)
  {
    Widths();
    PadOrder(a.year, b.year, 4);
    PadOrder(a.month, b.month, 2);
    PadOrder(a.day, b.day, 2);
    if DatePart(a) == DatePart(b) {
      assert Pad(a.year, 4) == DatePart(a)[..4] && Pad(b.year, 4) == DatePart(b)[..4];
      assert Pad(a.month, 2) == DatePart(a)[5..7] && Pad(b.month, 2) == DatePart(b)[5..7];
      assert Pad(a.day, 2) == DatePart(a)[8..] && Pad(b.day, 2) == DatePart(b)[8..];
    }
  }

  lemma {:induction false} PadValue(n: nat, width: nat)
    requires n < Pow10(width)
    ensures Value(Pad(n, width)) == n
  {
    if width > 0 {
      PadValue(n / 10, width - 1);
      assert Pad(n, width)[..width - 1] == Pad(n / 10, width - 1);
    }
  }

  /** A run of digits in a text denotes this number. */
  predicate Shows(s: string, from: nat, to: nat, n: nat) {
    from <= to <= |s| && AllDigits(s[from..to]) && Value(s[from..to]) == n
  }

  lemma FieldShows(s: string, from: nat, n: nat, width: nat)
    requires from + width <= |s| && s[from..from + width] == Pad(n, width) && n < Pow10(width)
    ensures Shows(s, from, from + width, n)
  {
    PadValue(n, width);
  }

  lemma DateSlices(c: Civil, rest: string)
    ensures var s := DateText(c, rest);
      && |s| == 11 + |rest| && s[0..4] == Pad(c.year, 4) && s[5..7] == Pad(c.month, 2) && s[8..10] == Pad(c.day, 2)
      && s[4] == s[7] == '-' && s[10] == 'T' && s[11..] == rest
  {
    var day := Pad(c.day, 2) + (['T'] + rest);
    var month := Pad(c.month, 2) + (['-'] + day);
    assert DateText(c, rest)[5..] == month && month[3..] == day && day[3..] == rest;
  }

  lemma TimeSlices(c: Civil, rest: string)
    ensures var s := TimeText(c, rest);
      && |s| == 8 + |rest| && s[0..2] == Pad(c.hour, 2) && s[3..5] == Pad(c.minute, 2) && s[6..8] == Pad(c.second, 2)
      && s[2] == s[5] == ':' && s[8..] == rest
  {
    var second := Pad(c.second, 2) + rest;
    var minute := Pad(c.minute, 2) + ([':'] + second);
    assert TimeText(c, rest)[3..] == minute && minute[3..] == second && second[2..] == rest;
  }

  /** A stamp reads back field by field: YYYY-MM-DDTHH:MM:SS.ffffff+00:00. */
  lemma StampReads(c: Civil)
    requires IsCivil(c)
    ensures var s := IsoStamp(c);
      && Shows(s, 0, 4, c.year) && Shows(s, 5, 7, c.month) && Shows(s, 8, 10, c.day)
      && Shows(s, 11, 13, c.hour) && Shows(s, 14, 16, c.minute) && Shows(s, 17, 19, c.second)
      && Shows(s, 20, 26, c.micro)
      && s[4] == s[7] == '-' && s[10] == 'T' && s[13] == s[16] == ':' && s[19] == '.' && s[26..] == "+00:00"
  {
    hide Pad, Value, AllDigits, Shows, DateText, TimeText;
    Widths();
    var s := IsoStamp(c);
    var t := s[11..];
    DateSlices(c, TimeText(c, FractionText(c)));
    TimeSlices(c, FractionText(c));
    assert s[11..13] == t[0..2] && s[14..16] == t[3..5] && s[17..19] == t[6..8] && t[8..] == s[19..];
    assert s[20..26] == s[19..][1..7] && s[26..] == s[19..][7..];
    FieldShows(s, 0, c.year, 4);
    FieldShows(s, 5, c.month, 2);
    FieldShows(s, 8, c.day, 2);
    FieldShows(s, 11, c.hour, 2);
    FieldShows(s, 14, c.minute, 2);
    FieldShows(s, 17, c.second, 2);
    FieldShows(s, 20, c.micro, 6);
  }

  lemma DayOfInstant(c: Civil)
    requires IsCivil(c)
    ensures Instant(c) / DAY == Ordinal(c.year, c.month, c.day)
  {
    TimeOrder(c, c);
  }

  /** Two stamps begin with the same ten characters exactly when they fall on one UTC day. */
  lemma StampDate(s: Time, t: Time)
    ensures StampOf(s)[..10] == StampOf(t)[..10] <==> s / DAY == t / DAY
  {
    var x, y := StampOf(s), StampOf(t);
    var a :| Stamps(s, a, x);
    var b :| Stamps(t, b, y);
    DatePartIs(a);
    DatePartIs(b);
    DatePartUnique(a, b);
    DayOfInstant(a);
    DayOfInstant(b);
    if DateBefore(a, b) {
      DateOrder(a, b);
    } else if DateBefore(b, a) {
      DateOrder(b, a);
    }
  }

  ghost predicate Cuts(t: int, c: Civil, s: string) {
    IsCivil(c) && Instant(c) == t && s == IsoCutoff(c)
  }

  /** The text of an instant used as a cutoff. */
  ghost function CutoffOf(t: Time): (s: string)
    ensures exists c :: Cuts(t, c, s)
  {
    assert exists s, c :: Cuts(t, c, s) by {
      var c := CivilAt(t);
      assert Cuts(t, c, IsoCutoff(c));
    }
    var s :| exists c :: Cuts(t, c, s);
    s
  }

  /** A stamp stands before a cutoff's text exactly when its instant comes before the cutoff. */
  lemma CutoffOfOrder(s: Time, t: Time)
    ensures Less(StampOf(s), CutoffOf(t)) <==> s < t
  {
    var x, y := StampOf(s), CutoffOf(t);
    var a :| Stamps(s, a, x);
    var b :| Cuts(t, b, y);
    CutoffOrder(a, b);
  }
}
