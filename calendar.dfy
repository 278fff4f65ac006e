/**
 * Python's datetime.date on the proleptic Gregorian calendar, with a date held
 * as its ordinal (date.toordinal(): 0001-01-01 is day 1, a Monday).
 * date(y, m, d) is partial: it raises ValueError outside years 1..9999 or past
 * the month's last day, modelled as MakeDate returning None.
 */
module Calendar {
  import opened Wrappers
  import Strings

  const MaxYear := 9999
  /** date(9999, 12, 31).toordinal(). */
  const MaxOrdinal := 3652059

  predicate IsLeap(y: int) {
    y % 4 == 0 && (y % 100 != 0 || y % 400 == 0)
  }

  function DaysInMonth(y: int, m: int): int
    requires 1 <= m <= 12
  {
    if m == 2 then (if IsLeap(y) then 29 else 28)
    else if m == 4 || m == 6 || m == 9 || m == 11 then 30
    else 31
  }

  function DaysInYear(y: int): int {
    if IsLeap(y) then 366 else 365
  }

  predicate IsValidDate(y: int, m: int, d: int) {
    1 <= y <= MaxYear && 1 <= m <= 12 && 1 <= d <= DaysInMonth(y, m)
  }

  /** Days in the years before year y. */
  function DaysBeforeYear(y: int): int
    requires y >= 1
  {
    var x := y - 1;
    365 * x + x / 4 - x / 100 + x / 400
  }

  /** Days in the months of year y before month m. */
  function DaysBeforeMonth(y: int, m: int): int
    requires 1 <= m <= 12
  {
    var common := [0, 31, 59, 90, 120, 151, 181, 212, 243, 273, 304, 334][m - 1];
    if m > 2 && IsLeap(y) then common + 1 else common
  }

  /** date(y, m, d).toordinal(). */
  function Ordinal(y: int, m: int, d: int): int
    requires IsValidDate(y, m, d)
  {
    DaysBeforeYear(y) + DaysBeforeMonth(y, m) + d
  }

  /** date(y, m, d) as an ordinal, or None where Python raises ValueError. */
  function MakeDate(y: int, m: int, d: int): (r: Option<int>)
    ensures r.Some? <==> IsValidDate(y, m, d)
    ensures r.Some? ==> 1 <= r.value <= MaxOrdinal && FromOrdinal(r.value) == (y, m, d)
  {
    if IsValidDate(y, m, d) then
      OrdinalInRange(y, m, d);
      OrdinalUnique(y, m, d);
      Some(Ordinal(y, m, d))
    else None
  }

  /** date.weekday(): Monday is 0 and Sunday is 6. */
  function Weekday(n: int): (w: int)
    ensures 0 <= w < 7
    ensures (n - w) % 7 == 1 % 7 && (n - w - 1) % 7 == 0
  {
    (n + 6) % 7
  }

  lemma YearLength(y: int)
    requires y >= 1
    ensures DaysBeforeYear(y + 1) == DaysBeforeYear(y) + DaysInYear(y)
  {
    var x := y - 1;
    var q4, r4 := x / 4, x % 4;
    var q100, r100 := x / 100, x % 100;
    var q400, r400 := x / 400, x % 400;
    assert (x + 1) / 4 == if r4 == 3 then q4 + 1 else q4;
    assert (x + 1) / 100 == if r100 == 99 then q100 + 1 else q100;
    assert (x + 1) / 400 == if r400 == 399 then q400 + 1 else q400;
    assert IsLeap(y) <==> r4 == 3 && (r100 != 99 || r400 == 399);
  }

  lemma {:induction false} DaysBeforeYearMonotone(y: int, z: int)
    requires 1 <= y <= z
    ensures DaysBeforeYear(y) <= DaysBeforeYear(z)
    ensures y < z ==> DaysBeforeYear(y) + DaysInYear(y) <= DaysBeforeYear(z)
    decreases z - y
  {
    if y < z {
      YearLength(y);
      DaysBeforeYearMonotone(y + 1, z);
    }
  }

  lemma MonthTable(y: int, m: int)
    requires 1 <= m <= 12
    ensures m < 12 ==> DaysBeforeMonth(y, m + 1) == DaysBeforeMonth(y, m) + DaysInMonth(y, m)
    ensures m == 12 ==> DaysBeforeMonth(y, m) + DaysInMonth(y, m) == DaysInYear(y)
  {
  }

  /** A valid date's ordinal lies in 1..MaxOrdinal. */
  lemma OrdinalInRange(y: int, m: int, d: int)
    requires IsValidDate(y, m, d)
    ensures 1 <= Ordinal(y, m, d) <= MaxOrdinal
    ensures DaysBeforeYear(y) < Ordinal(y, m, d) <= DaysBeforeYear(y + 1)
  {
    YearLength(y);
    DaysBeforeYearMonotone(1, y);
    DaysBeforeYearMonotone(y + 1, MaxYear + 1);
    MonthWithinYear(y, m);
  }

  lemma MonthWithinYear(y: int, m: int)
    requires 1 <= m <= 12
    ensures DaysBeforeMonth(y, m) + DaysInMonth(y, m) <= DaysInYear(y)
  {
  }

  /** The year holding day n, searching upwards from year y. */
  function FindYear(n: int, y: int): (r: int)
    requires 1 <= y <= MaxYear && DaysBeforeYear(y) < n <= MaxOrdinal
    ensures y <= r <= MaxYear && DaysBeforeYear(r) < n <= DaysBeforeYear(r + 1)
    decreases MaxYear - y
  {
    if n <= DaysBeforeYear(y + 1) then y
    else
      assert y < MaxYear;
      FindYear(n, y + 1)
  }

  /** The month holding day-of-year doy, searching upwards from month m. */
  function FindMonth(y: int, doy: int, m: int): (r: int)
    requires 1 <= m <= 12 && DaysBeforeMonth(y, m) < doy <= DaysInYear(y)
    ensures m <= r <= 12 && DaysBeforeMonth(y, r) < doy <= DaysBeforeMonth(y, r) + DaysInMonth(y, r)
    decreases 12 - m
  {
    MonthTable(y, m);
    if m == 12 || doy <= DaysBeforeMonth(y, m + 1) then m
    else FindMonth(y, doy, m + 1)
  }

  /** date.fromordinal(n) as (year, month, day): the inverse of Ordinal. */
  function FromOrdinal(n: int): (r: (int, int, int))
    requires 1 <= n <= MaxOrdinal
    ensures IsValidDate(r.0, r.1, r.2) && Ordinal(r.0, r.1, r.2) == n
  {
    assert DaysBeforeYear(1) == 0;
    var y := FindYear(n, 1);
    YearLength(y);
    var doy := n - DaysBeforeYear(y);
    var m := FindMonth(y, doy, 1);
    (y, m, doy - DaysBeforeMonth(y, m))
  }

  /** Ordinal is injective: a valid date is the one FromOrdinal recovers. */
  lemma OrdinalUnique(y: int, m: int, d: int)
    requires IsValidDate(y, m, d)
    ensures 1 <= Ordinal(y, m, d) <= MaxOrdinal
    ensures FromOrdinal(Ordinal(y, m, d)) == (y, m, d)
  {
    OrdinalInRange(y, m, d);
    var r := FromOrdinal(Ordinal(y, m, d));
    SameOrdinal(y, m, d, r.0, r.1, r.2);
  }

  /** Two valid dates with the same ordinal are the same date. */
  lemma SameOrdinal(y: int, m: int, d: int, y': int, m': int, d': int)
    requires IsValidDate(y, m, d) && IsValidDate(y', m', d')
    requires Ordinal(y, m, d) == Ordinal(y', m', d')
    ensures y == y' && m == m' && d == d'
  {
    SameYear(y, m, d, y', m', d');
    if m != m' {
      if m < m' {
        MonthsOrdered(y, m, m');
      } else {
        MonthsOrdered(y, m', m);
      }
    }
  }

  lemma SameYear(y: int, m: int, d: int, y': int, m': int, d': int)
    requires IsValidDate(y, m, d) && IsValidDate(y', m', d')
    requires Ordinal(y, m, d) == Ordinal(y', m', d')
    ensures y == y'
  {
    OrdinalInRange(y, m, d);
    OrdinalInRange(y', m', d');
    if y' < y {
      DaysBeforeYearMonotone(y' + 1, y);
    } else if y' > y {
      DaysBeforeYearMonotone(y + 1, y');
    }
  }

  /** Month m ends before month m' begins when m < m'. */
  lemma {:induction false} MonthsOrdered(y: int, m: int, m': int)
    requires 1 <= m < m' <= 12
    ensures DaysBeforeMonth(y, m) + DaysInMonth(y, m) <= DaysBeforeMonth(y, m')
    decreases m' - m
  {
    MonthTable(y, m);
    if m + 1 < m' {
      MonthsOrdered(y, m + 1, m');
    }
  }

  /** An earlier (year, month, day) has the smaller ordinal. */
  lemma OrdinalBefore(y: int, m: int, d: int, y': int, m': int, d': int)
    requires IsValidDate(y, m, d) && IsValidDate(y', m', d')
    requires y < y' || (y == y' && (m < m' || (m == m' && d < d')))
    ensures Ordinal(y, m, d) < Ordinal(y', m', d')
  {
    if y < y' {
      OrdinalInRange(y, m, d);
      OrdinalInRange(y', m', d');
      DaysBeforeYearMonotone(y + 1, y');
    } else if m < m' {
      MonthsOrdered(y, m, m');
    }
  }

  /** Ordinal order is calendar order: comparing dates is comparing (year, month, day) lexicographically. */
  lemma OrdinalOrder(y: int, m: int, d: int, y': int, m': int, d': int)
    requires IsValidDate(y, m, d) && IsValidDate(y', m', d')
    ensures Ordinal(y, m, d) < Ordinal(y', m', d') <==> y < y' || (y == y' && (m < m' || (m == m' && d < d')))
  {
    if y < y' || (y == y' && (m < m' || (m == m' && d < d'))) {
      OrdinalBefore(y, m, d, y', m', d');
    } else if y == y' && m == m' && d == d' {
    } else {
      OrdinalBefore(y', m', d', y, m, d);
    }
  }

  /**
   * date.strftime('%Y-%m-%d') of day n, the year written with four digits
   * (which strftime does for years 1000..9999).
   */
  function IsoDate(n: int): (s: string)
    requires 1 <= n <= MaxOrdinal
    ensures |s| == 10
  {
    var (y, m, d) := FromOrdinal(n);
    Strings.Pad4(y) + ("-" + (Strings.Pad2(m) + ("-" + Strings.Pad2(d))))
  }

  /** Python's string order on the ISO texts is the order of the days, and only equal days share a text. */
  lemma IsoDateOrder(a: int, b: int)
    requires 1 <= a <= MaxOrdinal && 1 <= b <= MaxOrdinal
    ensures Strings.StrLess(IsoDate(a), IsoDate(b)) <==> a < b
    ensures IsoDate(a) == IsoDate(b) <==> a == b
  {
    var (y, m, d) := FromOrdinal(a);
    var (y', m', d') := FromOrdinal(b);
    var md, md' := Strings.Pad2(m) + ("-" + Strings.Pad2(d)), Strings.Pad2(m') + ("-" + Strings.Pad2(d'));
    Strings.StrLessConcat(Strings.Pad4(y), Strings.Pad4(y'), "-" + md, "-" + md');
    Strings.StrLessConcat("-", "-", md, md');
    Strings.StrLessConcat(Strings.Pad2(m), Strings.Pad2(m'), "-" + Strings.Pad2(d), "-" + Strings.Pad2(d'));
    Strings.StrLessConcat("-", "-", Strings.Pad2(d), Strings.Pad2(d'));
    Strings.Pad4Order(y, y');
    Strings.Pad2Order(m, m');
    Strings.Pad2Order(d, d');
    OrdinalOrder(y, m, d, y', m', d');
  }

  /** The last day a date can hold is written "9999-12-31". */
  lemma IsoDateMax()
    ensures IsoDate(MaxOrdinal) == "9999-12-31"
  {
    assert Ordinal(9999, 12, 31) == MaxOrdinal;
    OrdinalUnique(9999, 12, 31);
    assert Strings.Pad4(9999) == "9999";
  }
}
