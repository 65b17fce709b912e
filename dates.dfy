/// Calendar dates as day numbers, and the raw `YYYY-MM-DD` strings the
/// remote source sends.
///
/// A date is the proleptic Gregorian ordinal that Python's `date.toordinal()`
/// returns (0001-01-01 is day 1), so `timedelta(days = n)` is `+ n` and the
/// `.days` of a date difference is an integer subtraction.
module Dates {

  import opened Wrappers

  type Date = int

  predicate IsLeap(y: int) {
    y % 4 == 0 && (y % 100 != 0 || y % 400 == 0)
  }

  function DaysInYear(y: int): int {
    if IsLeap(y) then 366 else 365
  }

  function DaysInMonth(y: int, m: int): int
    requires 1 <= m <= 12
  {
    if m == 2 then (if IsLeap(y) then 29 else 28)
    else if m == 4 || m == 6 || m == 9 || m == 11 then 30
    else 31
  }

  /// Days of year `y` that lie before the first day of month `m`.
  function DaysBeforeMonth(y: int, m: int): int
    requires 1 <= m <= 12
  {
    [0, 31, 59, 90, 120, 151, 181, 212, 243, 273, 304, 334][m - 1]
      + (if m > 2 && IsLeap(y) then 1 else 0)
  }

  /// Days of the proleptic Gregorian calendar before January 1 of year `y`.
  function DaysBeforeYear(y: int): int
    requires y >= 1
  {
    (y - 1) * 365 + (y - 1) / 4 - (y - 1) / 100 + (y - 1) / 400
  }

  predicate ValidDate(y: int, m: int, d: int) {
    1 <= y <= 9999 && 1 <= m <= 12 && 1 <= d <= DaysInMonth(y, m)
  }

  /// The ordinal of a valid calendar date, as `date(y, m, d).toordinal()`.
  function Ordinal(y: int, m: int, d: int): Date
    requires ValidDate(y, m, d)
  {
    DaysBeforeYear(y) + DaysBeforeMonth(y, m) + d
  }

  /// The cursor an incremental run starts from when no sync state is stored.
  const DefaultSince: Date := Ordinal(2020, 1, 1)

  lemma DefaultSinceValue()
    ensures DefaultSince == 737425
  {
  }

  lemma YearStep(y: int)
    requires y >= 1
    ensures DaysBeforeYear(y + 1) == DaysBeforeYear(y) + DaysInYear(y)
  {
    assert y / 4 - (y - 1) / 4 == (if y % 4 == 0 then 1 else 0);
    assert y / 100 - (y - 1) / 100 == (if y % 100 == 0 then 1 else 0);
    assert y / 400 - (y - 1) / 400 == (if y % 400 == 0 then 1 else 0);
  }

  lemma {:induction false} YearsAdvance(y: int, y': int)
    requires 1 <= y < y'
    ensures DaysBeforeYear(y) + DaysInYear(y) <= DaysBeforeYear(y')
    decreases y' - y
  {
    YearStep(y);
    if y + 1 < y' {
      YearsAdvance(y + 1, y');
    }
  }

  /// Later calendar dates have larger ordinals: day numbers order dates the
  /// way the calendar does.
  lemma OrdinalMonotone(y: int, m: int, d: int, y': int, m': int, d': int)
    requires ValidDate(y, m, d) && ValidDate(y', m', d')
    requires y < y' || (y == y' && m < m') || (y == y' && m == m' && d < d')
    ensures Ordinal(y, m, d) < Ordinal(y', m', d')
  {
    if y < y' {
      assert DaysBeforeMonth(y, m) + d <= DaysInYear(y) by {
        MonthsAdvance(y, m, 12);
      }
      YearsAdvance(y, y');
    } else if m < m' {
      MonthsAdvance(y, m, m');
    }
  }

  lemma {:induction false} MonthsAdvance(y: int, m: int, m': int)
    requires 1 <= m <= m' <= 12
    ensures DaysBeforeMonth(y, m) + DaysInMonth(y, m) <= DaysBeforeMonth(y, m') + DaysInMonth(y, m')
    ensures m' == 12 ==> DaysBeforeMonth(y, m') + DaysInMonth(y, m') == DaysInYear(y)
    ensures m < m' ==> DaysBeforeMonth(y, m) + DaysInMonth(y, m) <= DaysBeforeMonth(y, m')
    decreases m' - m
  {
    if m < m' {
      MonthsAdvance(y, m + 1, m');
    }
  }

  // ---------------------------------------------------------------------------
  // Python's `<` on `str`: lexicographic by code point, a proper prefix first.
  // (Dafny's own `<` on sequences is the proper-prefix relation, not this.)

  predicate StrLess(a: string, b: string) {
    if a == [] then b != []
    else if b == [] then false
    else if a[0] != b[0] then a[0] < b[0]
    else StrLess(a[1..], b[1..])
  }

  lemma {:induction false} StrLessIrreflexive(a: string)
    ensures !StrLess(a, a)
  {
    if a != [] {
      StrLessIrreflexive(a[1..]);
    }
  }

  lemma {:induction false} StrLessTransitive(a: string, b: string, c: string)
    requires StrLess(a, b) && StrLess(b, c)
    ensures StrLess(a, c)
  {
    if a != [] && b != [] && c != [] && a[0] == b[0] && b[0] == c[0] {
      StrLessTransitive(a[1..], b[1..], c[1..]);
    }
  }

  /// Two different strings are always ordered one way or the other.
  lemma {:induction false} StrLessTotal(a: string, b: string)
    ensures a == b || StrLess(a, b) || StrLess(b, a)
    ensures !(StrLess(a, b) && StrLess(b, a))
  {
    if a != [] && b != [] && a[0] == b[0] {
      StrLessTotal(a[1..], b[1..]);
      if a[1..] == b[1..] {
        assert a == [a[0]] + a[1..] && b == [b[0]] + b[1..];
      }
    }
  }

  /// Between equal-length strings that agree before index `p` and differ at
  /// `p`, the string order is decided by the characters at `p`.
  lemma {:induction false} StrLessAtFirstDifference(a: string, b: string, p: nat)
    requires |a| == |b| && p < |a|
    requires forall i :: 0 <= i < p ==> a[i] == b[i]
    requires a[p] != b[p]
    ensures StrLess(a, b) <==> a[p] < b[p]
  {
    if p > 0 {
      StrLessAtFirstDifference(a[1..], b[1..], p - 1);
    }
  }

  // ---------------------------------------------------------------------------
  // Well-formed ISO dates.

  predicate IsDigit(c: char) {
    '0' <= c <= '9'
  }

  function DigitValue(c: char): int {
    c as int - '0' as int
  }

  /// The shape `YYYY-MM-DD`: ten characters, digits except for the two dashes.
  predicate WellFormedIso(s: string) {
    && |s| == 10
    && s[4] == '-' && s[7] == '-'
    && forall i :: 0 <= i < 10 && i != 4 && i != 7 ==> IsDigit(s[i])
  }

  function IsoYear(s: string): int
    requires WellFormedIso(s)
  {
    1000 * DigitValue(s[0]) + 100 * DigitValue(s[1]) + 10 * DigitValue(s[2]) + DigitValue(s[3])
  }

  function IsoMonth(s: string): int
    requires WellFormedIso(s)
  {
    10 * DigitValue(s[5]) + DigitValue(s[6])
  }

  function IsoDay(s: string): int
    requires WellFormedIso(s)
  {
    10 * DigitValue(s[8]) + DigitValue(s[9])
  }

  /// The digits of a well-formed date read as the number YYYYMMDD.
  function IsoKey(s: string): int
    requires WellFormedIso(s)
  {
    10000 * IsoYear(s) + 100 * IsoMonth(s) + IsoDay(s)
  }

  /// `datetime.fromisoformat(s).date()` restricted to the `YYYY-MM-DD` form;
  /// anything else, and any impossible date, is the `ValueError` (None).
  function ParseIsoDate(s: string): (r: Option<Date>)
    ensures r.Some? ==> WellFormedIso(s) && ValidDate(IsoYear(s), IsoMonth(s), IsoDay(s))
    ensures r.Some? ==> r.value == Ordinal(IsoYear(s), IsoMonth(s), IsoDay(s))
    ensures WellFormedIso(s) && ValidDate(IsoYear(s), IsoMonth(s), IsoDay(s)) ==> r.Some?
  {
    if WellFormedIso(s) && ValidDate(IsoYear(s), IsoMonth(s), IsoDay(s))
    then Some(Ordinal(IsoYear(s), IsoMonth(s), IsoDay(s)))
    else None
  }

  /// On well-formed strings, string order is the order of the YYYYMMDD number.
  lemma IsoStringOrderIsKeyOrder(a: string, b: string)
    requires WellFormedIso(a) && WellFormedIso(b)
    ensures StrLess(a, b) <==> IsoKey(a) < IsoKey(b)
  {
    if a == b {
      StrLessIrreflexive(a);
    } else if p :| 0 <= p < 10 && a[p] != b[p] && forall i :: 0 <= i < p ==> a[i] == b[i] {
      StrLessAtFirstDifference(a, b, p);
    } else {
      FirstDifference(a, b);
    }
  }

  lemma FirstDifference(a: string, b: string)
    requires |a| == |b| && a != b
    ensures exists p :: 0 <= p < |a| && a[p] != b[p] && forall i :: 0 <= i < p ==> a[i] == b[i]
  {
    var p :| 0 <= p < |a| && a[p] != b[p];
    var q := p;
    while q > 0 && (exists i :: 0 <= i < q && a[i] != b[i])
      invariant 0 <= q <= p && a[q] != b[q]
      decreases q
    {
      var i :| 0 <= i < q && a[i] != b[i];
      q := i;
    }
  }

  /// The property the string comparison of the CSV revision relies on: for
  /// well-formed, valid dates the string order is the calendar order.
  lemma IsoStringOrderIsDateOrder(a: string, b: string)
    requires ParseIsoDate(a).Some? && ParseIsoDate(b).Some?
    ensures StrLess(a, b) <==> ParseIsoDate(a).value < ParseIsoDate(b).value
  {
    IsoStringOrderIsKeyOrder(a, b);
    var ya, ma, da := IsoYear(a), IsoMonth(a), IsoDay(a);
    var yb, mb, db := IsoYear(b), IsoMonth(b), IsoDay(b);
    if ya < yb || (ya == yb && ma < mb) || (ya == yb && ma == mb && da < db) {
      OrdinalMonotone(ya, ma, da, yb, mb, db);
    } else if yb < ya || (ya == yb && mb < ma) || (ya == yb && ma == mb && db < da) {
      OrdinalMonotone(yb, mb, db, ya, ma, da);
    }
  }

  /// Without the zero padding the string order is not the date order:
  /// September 30 sorts after October 1.
  lemma UnpaddedMonthMisorders()
    ensures StrLess("2024-10-01", "2024-9-30")
    ensures Ordinal(2024, 9, 30) < Ordinal(2024, 10, 1)
  {
    var a, b := "2024-10-01", "2024-9-30";
    assert a[1..] == "024-10-01" && b[1..] == "024-9-30";
    assert a[2..] == "24-10-01" && b[2..] == "24-9-30";
    assert a[3..] == "4-10-01" && b[3..] == "4-9-30";
    assert a[4..] == "-10-01" && b[4..] == "-9-30";
    assert a[5..] == "10-01" && b[5..] == "9-30";
  }
}
