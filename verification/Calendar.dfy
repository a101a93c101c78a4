/**
 The proleptic Gregorian calendar of Python's datetime module: proleptic ordinals,
 month lengths with leap years, and months counted in one line so that the
 (year, month) walk of the scripts is a walk over consecutive numbers.
 */
module Calendar {

  predicate Leap(y: int) {
    y % 4 == 0 && (y % 100 != 0 || y % 400 == 0)
  }

  /** calendar.monthrange(y, m)[1] */
  function DaysInMonth(y: int, m: int): (d: int)
    requires 1 <= m <= 12
    ensures 28 <= d <= 31
  {
    if m == 2 then (if Leap(y) then 29 else 28)
    else if m == 4 || m == 6 || m == 9 || m == 11 then 30
    else 31
  }

  function DaysBeforeYear(y: int): int {
    (y - 1) * 365 + (y - 1) / 4 - (y - 1) / 100 + (y - 1) / 400
  }

  function DaysBeforeMonth(y: int, m: int): int
    requires 1 <= m <= 13
    decreases m
  {
    if m == 1 then 0 else DaysBeforeMonth(y, m - 1) + DaysInMonth(y, m - 1)
  }

  /** date(y, m, d).toordinal() */
  function Ordinal(y: int, m: int, d: int): int
    requires 1 <= m <= 12
  {
    DaysBeforeYear(y) + DaysBeforeMonth(y, m) + d
  }

  lemma MonthsSum(y: int)
    ensures DaysBeforeMonth(y, 13) == if Leap(y) then 366 else 365
  {
    assert DaysBeforeMonth(y, 4) == 31 + DaysInMonth(y, 2) + 31 by {
      assert DaysBeforeMonth(y, 2) == 31;
      assert DaysBeforeMonth(y, 3) == 31 + DaysInMonth(y, 2);
    }
    assert DaysBeforeMonth(y, 7) == DaysBeforeMonth(y, 4) + 91 by {
      assert DaysBeforeMonth(y, 5) == DaysBeforeMonth(y, 4) + 30;
      assert DaysBeforeMonth(y, 6) == DaysBeforeMonth(y, 5) + 31;
    }
    assert DaysBeforeMonth(y, 10) == DaysBeforeMonth(y, 7) + 92 by {
      assert DaysBeforeMonth(y, 8) == DaysBeforeMonth(y, 7) + 31;
      assert DaysBeforeMonth(y, 9) == DaysBeforeMonth(y, 8) + 31;
    }
    assert DaysBeforeMonth(y, 13) == DaysBeforeMonth(y, 10) + 92 by {
      assert DaysBeforeMonth(y, 11) == DaysBeforeMonth(y, 10) + 31;
      assert DaysBeforeMonth(y, 12) == DaysBeforeMonth(y, 11) + 30;
    }
  }

  lemma QuotientStep(y: int, n: int)
    requires y >= 1 && n > 0
    ensures y / n - (y - 1) / n == if y % n == 0 then 1 else 0
  {
    var q, r := (y - 1) / n, (y - 1) % n;
    assert y == q * n + (r + 1);
    if r + 1 == n {
      assert y == (q + 1) * n;
      Quotient(y, n, q + 1, 0);
    } else {
      Quotient(y, n, q, r + 1);
    }
  }

  lemma Quotient(y: int, n: int, q: int, r: int)
    requires n > 0 && 0 <= r < n && y == q * n + r
    ensures y / n == q && y % n == r
  {
    var d := y / n - q;
    assert n * d == r - y % n;
    if d != 0 {
      MultipleIsFar(n, d);
    }
  }

  lemma MultipleIsFar(n: int, d: int)
    requires n > 0 && d != 0
    ensures n * d >= n || n * d <= -n
  {
    if d > 0 {
      assert n * (d - 1) >= 0;
    } else {
      assert n * (-d - 1) >= 0;
    }
  }

  lemma LeapCenturies(y: int)
    ensures y % 100 == 0 ==> y % 4 == 0
    ensures y % 400 == 0 ==> y % 100 == 0
  {
    Quotient(y - y % 100, 4, 25 * (y / 100), 0);
    Quotient(y - y % 400, 100, 4 * (y / 400), 0);
  }

  lemma YearsBefore(y: int, fours: int, centuries: int, quads: int)
    requires fours == (y - 1) / 4 && centuries == (y - 1) / 100 && quads == (y - 1) / 400
    ensures DaysBeforeYear(y) == (y - 1) * 365 + fours - centuries + quads
  {
  }

  lemma YearLength(y: int)
    requires y >= 1
    ensures DaysBeforeYear(y + 1) == DaysBeforeYear(y) + DaysBeforeMonth(y, 13)
  {
    MonthsSum(y);
    QuotientStep(y, 4);
    QuotientStep(y, 100);
    QuotientStep(y, 400);
    LeapCenturies(y);
    YearsBefore(y + 1, y / 4, y / 100, y / 400);
    YearsBefore(y, (y - 1) / 4, (y - 1) / 100, (y - 1) / 400);
  }

  // ---- Months in one line ----

  /** January of year 1 is month 0. */
  function MonthIndex(y: int, m: int): int {
    12 * (y - 1) + (m - 1)
  }

  function YearOf(k: nat): int { k / 12 + 1 }

  function MonthOf(k: nat): (m: int)
    ensures 1 <= m <= 12
  {
    k % 12 + 1
  }

  function MonthStart(k: nat): int {
    Ordinal(YearOf(k), MonthOf(k), 1)
  }

  function MonthEnd(k: nat): int {
    Ordinal(YearOf(k), MonthOf(k), DaysInMonth(YearOf(k), MonthOf(k)))
  }

  lemma MonthIndexInverse(y: int, m: int)
    requires y >= 1 && 1 <= m <= 12
    ensures MonthIndex(y, m) >= 0
    ensures YearOf(MonthIndex(y, m)) == y && MonthOf(MonthIndex(y, m)) == m
  {
  }

  lemma SameMonth(j: nat, k: nat)
    requires YearOf(j) == YearOf(k) && MonthOf(j) == MonthOf(k)
    ensures j == k
  {
    assert j == 12 * (YearOf(j) - 1) + (MonthOf(j) - 1);
    assert k == 12 * (YearOf(k) - 1) + (MonthOf(k) - 1);
  }

  /** The first of the next month is the day after monthrange's month end, year ends included. */
  lemma MonthsAbut(k: nat)
    ensures MonthStart(k + 1) == MonthEnd(k) + 1
    ensures MonthStart(k) + 27 <= MonthEnd(k)
  {
    if MonthOf(k) == 12 {
      assert YearOf(k + 1) == YearOf(k) + 1 && MonthOf(k + 1) == 1;
      DecemberAbuts(YearOf(k));
    } else {
      assert YearOf(k + 1) == YearOf(k) && MonthOf(k + 1) == MonthOf(k) + 1;
    }
  }

  lemma DecemberAbuts(y: int)
    requires y >= 1
    ensures Ordinal(y + 1, 1, 1) == Ordinal(y, 12, DaysInMonth(y, 12)) + 1
  {
    YearLength(y);
    assert DaysBeforeMonth(y, 13) == DaysBeforeMonth(y, 12) + DaysInMonth(y, 12);
  }

  lemma {:induction false} MonthsOrdered(j: nat, k: nat)
    requires j < k
    ensures MonthEnd(j) < MonthStart(k)
    decreases k - j
  {
    MonthsAbut(j);
    if j + 1 < k {
      MonthsAbut(j + 1);
      MonthsOrdered(j + 1, k);
    }
  }

  /** Month boundaries order as months do. */
  lemma MonthOrder(j: nat, k: nat)
    ensures j <= k <==> MonthStart(j) <= MonthEnd(k)
    ensures j < k <==> MonthEnd(j) < MonthStart(k)
  {
    MonthsAbut(j);
    MonthsAbut(k);
    if j < k {
      MonthsOrdered(j, k);
    } else if k < j {
      MonthsOrdered(k, j);
    }
  }

  /** The first of month j lies in month k only if they are one month. */
  lemma FirstDayInMonth(j: nat, k: nat)
    ensures MonthStart(k) <= MonthStart(j) <= MonthEnd(k) <==> j == k
  {
    MonthOrder(j, k);
    MonthOrder(k, j);
    MonthsAbut(j);
    MonthsAbut(k);
  }

  /** Every day of a run of months lies in exactly one of them. */
  lemma {:induction false} DayHasMonth(lo: nat, hi: nat, day: int) returns (k: nat)
    requires lo <= hi && MonthStart(lo) <= day <= MonthEnd(hi)
    ensures lo <= k <= hi && MonthStart(k) <= day <= MonthEnd(k)
    ensures forall j: nat :: MonthStart(j) <= day <= MonthEnd(j) ==> j == k
    decreases hi - lo
  {
    if day <= MonthEnd(lo) {
      k := lo;
    } else {
      MonthsAbut(lo);
      MonthOrder(lo, hi);
      k := DayHasMonth(lo + 1, hi, day);
    }
    forall j: nat | MonthStart(j) <= day <= MonthEnd(j) ensures j == k {
      MonthOrder(j, k);
      MonthOrder(k, j);
    }
  }

  /** Days alternate between 31 and 30, starting over with August; February has 28 or 29. */
  lemma MonthLengths(y: int, m: int)
    requires 1 <= m <= 12
    ensures m != 2 ==> DaysInMonth(y, m) == 30 + (m + m / 8) % 2
    ensures DaysInMonth(y, 2) == if y % 400 == 0 || (y % 4 == 0 && y % 100 != 0) then 29 else 28
  {
  }

  /** Ordinal 1 is the first of January of year 1. */
  lemma FirstOrdinal()
    ensures Ordinal(1, 1, 1) == 1
  {
    assert DaysBeforeYear(1) == 0 && DaysBeforeMonth(1, 1) == 0;
  }
}
