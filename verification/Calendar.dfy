// Dates, their ISO form, and why comparing the strings compares the days.

module Calendar {
  datatype Date = Date(year: nat, month: nat, day: nat)

  predicate Leap(y: nat) { y % 4 == 0 && (y % 100 != 0 || y % 400 == 0) }

  function DaysIn(y: nat, m: nat): nat {
    if m == 2 then (if Leap(y) then 29 else 28)
    else if m == 4 || m == 6 || m == 9 || m == 11 then 30
    else 31
  }

  predicate Valid(d: Date) {
    1 <= d.year && 1 <= d.month <= 12 && 1 <= d.day <= DaysIn(d.year, d.month)
  }

  function DaysBeforeYear(y: nat): nat
    requires y >= 1
  {
    365 * (y - 1) + (y - 1) / 4 - (y - 1) / 100 + (y - 1) / 400
  }

  function DaysBeforeMonth(y: nat, m: nat): nat
    requires m >= 1
  {
    if m == 1 then 0 else DaysBeforeMonth(y, m - 1) + DaysIn(y, m - 1)
  }

  // The proleptic Gregorian ordinal: 1 is January 1 of year 1.
  function Ordinal(d: Date): nat
    requires Valid(d)
  {
    DaysBeforeYear(d.year) + DaysBeforeMonth(d.year, d.month) + d.day
  }

  function NextDay(d: Date): Date
    requires Valid(d)
  {
    if d.day < DaysIn(d.year, d.month) then d.(day := d.day + 1)
    else if d.month < 12 then Date(d.year, d.month + 1, 1)
    else Date(d.year + 1, 1, 1)
  }

  // Stepping from y - 1 to y crosses a multiple of k iff y is one.
  lemma Crossing(y: nat)
    requires y >= 1
    ensures y / 4 - (y - 1) / 4 == if y % 4 == 0 then 1 else 0
    ensures y / 100 - (y - 1) / 100 == if y % 100 == 0 then 1 else 0
    ensures y / 400 - (y - 1) / 400 == if y % 400 == 0 then 1 else 0
  {
  }

  lemma YearLength(y: nat)
    requires y >= 1
    ensures DaysBeforeYear(y + 1) == DaysBeforeYear(y) + 365 + (if Leap(y) then 1 else 0)
  {
    Crossing(y);
    Multiples(y);
    assert DaysBeforeYear(y + 1) == 365 * y + y / 4 - y / 100 + y / 400;
  }

  lemma Multiples(y: nat)
    ensures y % 400 == 0 ==> y % 100 == 0
    ensures y % 100 == 0 ==> y % 4 == 0
  {
    if y % 400 == 0 {
      assert y == 100 * (4 * (y / 400));
    }
    if y % 100 == 0 {
      assert y == 4 * (25 * (y / 100));
    }
  }

  lemma MonthsOfYear(y: nat)
    ensures DaysBeforeMonth(y, 12) + 31 == 365 + (if Leap(y) then 1 else 0)
  {
    assert DaysBeforeMonth(y, 2) == 31;
    assert DaysBeforeMonth(y, 3) == 31 + DaysIn(y, 2);
    assert DaysBeforeMonth(y, 5) == DaysBeforeMonth(y, 3) + 61;
    assert DaysBeforeMonth(y, 7) == DaysBeforeMonth(y, 5) + 61;
    assert DaysBeforeMonth(y, 9) == DaysBeforeMonth(y, 7) + 62;
    assert DaysBeforeMonth(y, 11) == DaysBeforeMonth(y, 9) + 61;
    assert DaysBeforeMonth(y, 12) == DaysBeforeMonth(y, 11) + 30;
  }

  lemma NextDayOrdinal(d: Date)
    requires Valid(d)
    ensures Valid(NextDay(d)) && Ordinal(NextDay(d)) == Ordinal(d) + 1
  {
    if d.day == DaysIn(d.year, d.month) && d.month == 12 {
      YearLength(d.year);
      MonthsOfYear(d.year);
    }
  }

  // The date with ordinal n.
  function DateOf(n: nat): (d: Date)
    requires n >= 1
    ensures Valid(d) && Ordinal(d) == n
  {
    if n == 1 then Date(1, 1, 1)
    else
      NextDayOrdinal(DateOf(n - 1));
      NextDay(DateOf(n - 1))
  }

  // ---------------------------------------------------------------------------------------
  // Calendar order
  // ---------------------------------------------------------------------------------------

  predicate Before(a: Date, b: Date) {
    || a.year < b.year
    || (a.year == b.year && a.month < b.month)
    || (a.year == b.year && a.month == b.month && a.day < b.day)
  }

  lemma {:induction false} YearsGrow(x: nat, y: nat)
    requires 1 <= x < y
    ensures DaysBeforeYear(x) + 365 + (if Leap(x) then 1 else 0) <= DaysBeforeYear(y)
    decreases y - x
  {
    YearLength(y - 1);
    if x < y - 1 {
      YearsGrow(x, y - 1);
    }
  }

  lemma {:induction false} MonthsGrow(y: nat, l: nat, m: nat)
    requires 1 <= l < m
    ensures DaysBeforeMonth(y, l) + DaysIn(y, l) <= DaysBeforeMonth(y, m)
    decreases m - l
  {
    if l < m - 1 {
      MonthsGrow(y, l, m - 1);
    }
  }

  lemma WithinYear(d: Date)
    requires Valid(d)
    ensures DaysBeforeYear(d.year) < Ordinal(d) <= DaysBeforeYear(d.year) + 365 + (if Leap(d.year) then 1 else 0)
  {
    MonthsOfYear(d.year);
    if d.month < 12 {
      MonthsGrow(d.year, d.month, 12);
    }
  }

  lemma BeforeIsSmaller(a: Date, b: Date)
    requires Valid(a) && Valid(b) && Before(a, b)
    ensures Ordinal(a) < Ordinal(b)
  {
    if a.year < b.year {
      WithinYear(a);
      WithinYear(b);
      YearsGrow(a.year, b.year);
    } else if a.month < b.month {
      MonthsGrow(a.year, a.month, b.month);
    }
  }

  lemma BeforeIffSmaller(a: Date, b: Date)
    requires Valid(a) && Valid(b)
    ensures Before(a, b) <==> Ordinal(a) < Ordinal(b)
  {
    if Before(a, b) {
      BeforeIsSmaller(a, b);
    } else if a != b {
      BeforeIsSmaller(b, a);
    }
  }

  // ---------------------------------------------------------------------------------------
  // ISO strings
  // ---------------------------------------------------------------------------------------

  function Digit(n: nat): char
    requires n < 10
  {
    (n + '0' as int) as char
  }

  function Pad2(n: nat): string
    requires n < 100
  {
    [Digit(n / 10), Digit(n % 10)]
  }

  function Pad4(n: nat): string
    requires n < 10000
  {
    Pad2(n / 100) + Pad2(n % 100)
  }

  // isoformat(), and strftime("%Y-%m-%d")
  function Iso(d: Date): (s: string)
    requires Valid(d) && d.year < 10000
    ensures |s| == 10
  {
    Pad4(d.year) + "-" + Pad2(d.month) + "-" + Pad2(d.day)
  }

  // Python's order on strings.
  predicate Less(a: string, b: string) {
    b != "" && (a == "" || a[0] < b[0] || (a[0] == b[0] && Less(a[1..], b[1..])))
  }

  lemma {:induction false} LessPrefix(a: string, b: string, s: string, t: string)
    requires |a| == |b|
    ensures Less(a + s, b + t) <==> Less(a, b) || (a == b && Less(s, t))
  {
    if a == "" {
      assert a + s == s && b + t == t;
    } else {
      assert (a + s)[1..] == a[1..] + s && (b + t)[1..] == b[1..] + t;
      LessPrefix(a[1..], b[1..], s, t);
      assert a == [a[0]] + a[1..] && b == [b[0]] + b[1..];
    }
  }

  lemma LessPad2(m: nat, n: nat)
    requires m < 100 && n < 100
    ensures Less(Pad2(m), Pad2(n)) <==> m < n
    ensures Pad2(m) == Pad2(n) <==> m == n
  {
    var a, b := Pad2(m), Pad2(n);
    assert a[0] == Digit(m / 10) && a[1] == Digit(m % 10) && b[0] == Digit(n / 10) && b[1] == Digit(n % 10);
    assert Less(a[1..], b[1..]) <==> a[1] < b[1] by {
      assert a[1..][1..] == "" && b[1..][1..] == "";
    }
    assert m == 10 * (m / 10) + m % 10 && n == 10 * (n / 10) + n % 10;
  }

  lemma LessPad4(m: nat, n: nat)
    requires m < 10000 && n < 10000
    ensures Less(Pad4(m), Pad4(n)) <==> m < n
    ensures Pad4(m) == Pad4(n) <==> m == n
  {
    LessPad2(m / 100, n / 100);
    LessPad2(m % 100, n % 100);
    LessPrefix(Pad2(m / 100), Pad2(n / 100), Pad2(m % 100), Pad2(n % 100));
    assert Pad4(m)[..2] == Pad2(m / 100) && Pad4(m)[2..] == Pad2(m % 100);
    assert Pad4(n)[..2] == Pad2(n / 100) && Pad4(n)[2..] == Pad2(n % 100);
    assert m == 100 * (m / 100) + m % 100 && n == 100 * (n / 100) + n % 100;
  }

  lemma NotLessSelf(s: string)
    ensures !Less(s, s)
  {
  }

  // Comparing ISO strings is comparing dates, up to year 9999.
  lemma IsoOrder(a: Date, b: Date)
    requires Valid(a) && Valid(b) && a.year < 10000 && b.year < 10000
    ensures Less(Iso(a), Iso(b)) <==> Before(a, b)
  {
    LessPad4(a.year, b.year);
    LessPad2(a.month, b.month);
    LessPad2(a.day, b.day);
    var ra, rb := Pad2(a.month) + "-" + Pad2(a.day), Pad2(b.month) + "-" + Pad2(b.day);
    assert Iso(a) == Pad4(a.year) + ("-" + ra);
    assert Iso(b) == Pad4(b.year) + ("-" + rb);
    LessPrefix(Pad4(a.year), Pad4(b.year), "-" + ra, "-" + rb);
    NotLessSelf("-");
    LessPrefix("-", "-", ra, rb);
    assert ra == Pad2(a.month) + ("-" + Pad2(a.day)) && rb == Pad2(b.month) + ("-" + Pad2(b.day));
    LessPrefix(Pad2(a.month), Pad2(b.month), "-" + Pad2(a.day), "-" + Pad2(b.day));
    LessPrefix("-", "-", Pad2(a.day), Pad2(b.day));
  }

  // ---------------------------------------------------------------------------------------
  // Epoch seconds
  // ---------------------------------------------------------------------------------------

  const DAY := 86400
  const EPOCH_ORDINAL := 719163        // January 1, 1970
  const LAST_ORDINAL := 3652059        // December 31, 9999

  lemma EpochAndEnd()
    ensures Ordinal(Date(1970, 1, 1)) == EPOCH_ORDINAL
    ensures Ordinal(Date(9999, 12, 31)) == LAST_ORDINAL
  {
    MonthsOfYear(9999);
  }

  lemma YearInRange(n: nat)
    requires 1 <= n <= LAST_ORDINAL
    ensures DateOf(n).year < 10000
  {
    EpochAndEnd();
    BeforeIffSmaller(Date(9999, 12, 31), DateOf(n));
  }

  // Seconds for which a UTC date exists.
  type Clock = t: int | 0 <= t < (LAST_ORDINAL - EPOCH_ORDINAL + 1) * DAY

  function DayOf(t: Clock): (n: nat)
    ensures EPOCH_ORDINAL <= n <= LAST_ORDINAL
  {
    EPOCH_ORDINAL + t / DAY
  }

  // Day numbers count UTC midnights: 86400 seconds later it is the next date, and the count starts on
  // January 1, 1970.
  lemma DaysOfSeconds(t: Clock)
    requires t + 86400 < (LAST_ORDINAL - EPOCH_ORDINAL + 1) * DAY
    ensures DateOf(DayOf(t + 86400)) == NextDay(DateOf(DayOf(t)))
    ensures t < 86400 ==> DateOf(DayOf(t)) == Date(1970, 1, 1)
    ensures t % 86400 < 86399 ==> DayOf(t + 1) == DayOf(t)
  {
    if t < 86400 {
      EpochAndEnd();
      BeforeIffSmaller(DateOf(DayOf(t)), Date(1970, 1, 1));
      BeforeIffSmaller(Date(1970, 1, 1), DateOf(DayOf(t)));
    }
  }

  function IsoOf(n: nat): (s: string)
    requires 1 <= n <= LAST_ORDINAL
    ensures |s| == 10
  {
    YearInRange(n);
    Iso(DateOf(n))
  }

  lemma IsoOfOrder(m: nat, n: nat)
    requires 1 <= m <= LAST_ORDINAL && 1 <= n <= LAST_ORDINAL
    ensures Less(IsoOf(m), IsoOf(n)) <==> m < n
    ensures IsoOf(m) == IsoOf(n) ==> m == n
  {
    YearInRange(m);
    YearInRange(n);
    IsoOrder(DateOf(m), DateOf(n));
    BeforeIffSmaller(DateOf(m), DateOf(n));
    IsoOrder(DateOf(n), DateOf(m));
    BeforeIffSmaller(DateOf(n), DateOf(m));
    NotLessSelf(IsoOf(m));
  }
}
