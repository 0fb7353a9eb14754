/** The proleptic Gregorian calendar as far as expiry dates need it. Monday is weekday 0. */
module Calendar {
  import opened Common

  const TUESDAY := 1

  predicate IsLeap(y: int) { y % 4 == 0 && (y % 100 != 0 || y % 400 == 0) }

  function DaysIn(y: int, m: int): int
    requires 1 <= m <= 12
  {
    if m == 2 then (if IsLeap(y) then 29 else 28)
    else if m in {4, 6, 9, 11} then 30
    else 31
  }

  predicate IsDate(y: int, m: int, d: int) { y >= 1 && 1 <= m <= 12 && 1 <= d <= DaysIn(y, m) }

  datatype Date = Date(y: int, m: int, d: int) {
    predicate Valid() { IsDate(y, m, d) }
  }

  function DaysBeforeYear(y: int): int { (y - 1) * 365 + (y - 1) / 4 - (y - 1) / 100 + (y - 1) / 400 }

  function DaysBeforeMonth(y: int, m: int): int
    requires 1 <= m <= 12
  {
    if m == 1 then 0 else DaysBeforeMonth(y, m - 1) + DaysIn(y, m - 1)
  }

  /** Day 1 is 1 January of year 1, a Monday. */
  function Ordinal(y: int, m: int, d: int): int
    requires 1 <= m <= 12
  {
    DaysBeforeYear(y) + DaysBeforeMonth(y, m) + d
  }

  function Weekday(y: int, m: int, d: int): int
    requires 1 <= m <= 12
  {
    (Ordinal(y, m, d) + 6) % 7
  }

  // ---- the month as weeks of seven cells ----

  function FirstColumn(y: int, m: int): (c: int)
    requires 1 <= m <= 12
    ensures 0 <= c < 7
  {
    Weekday(y, m, 1)
  }

  function Weeks(y: int, m: int): nat
    requires 1 <= m <= 12
  {
    (FirstColumn(y, m) + DaysIn(y, m) + 6) / 7
  }

  /** The day shown in a cell, 0 outside the month. */
  function Cell(y: int, m: int, week: int, col: int): int
    requires 1 <= m <= 12
  {
    var day := 7 * week + col - FirstColumn(y, m) + 1;
    if 1 <= day <= DaysIn(y, m) then day else 0
  }

  function MonthCalendar(y: int, m: int): seq<seq<int>>
    requires 1 <= m <= 12
  {
    seq(Weeks(y, m), w requires 0 <= w => seq(7, c requires 0 <= c => Cell(y, m, w, c)))
  }

  /** The first non-zero cell of a column, looking at the weeks from the last one back. */
  function LastInColumn(cal: seq<seq<int>>, col: int): Option<int>
    requires 0 <= col < 7 && forall w :: 0 <= w < |cal| ==> |cal[w]| == 7
  {
    if cal == [] then None
    else if cal[|cal| - 1][col] != 0 then Some(cal[|cal| - 1][col])
    else LastInColumn(cal[..|cal| - 1], col)
  }

  const FALLBACK := 28

  function LastTuesday(y: int, m: int): int
    requires 1 <= m <= 12
  {
    match LastInColumn(MonthCalendar(y, m), TUESDAY)
    case Some(d) => d
    case None => FALLBACK
  }

  predicate IsLastWeekdayOfMonth(date: Date)
    requires date.Valid()
  {
    match LastInColumn(MonthCalendar(date.y, date.m), Weekday(date.y, date.m, date.d))
    case Some(d) => d == date.d
    case None => false
  }

  // ---- what the search finds ----

  /** Weekdays advance by one a day. */
  lemma WeekdayOf(y: int, m: int, d: int)
    requires 1 <= m <= 12
    ensures Weekday(y, m, d) == (FirstColumn(y, m) + d - 1) % 7
  {
    var k := Ordinal(y, m, 1) + 6;
    assert Ordinal(y, m, d) + 6 == k + (d - 1);
    hide Ordinal;
    assert (k + (d - 1)) % 7 == (k % 7 + (d - 1)) % 7;
  }

  /** Cells show days under their own weekday. */
  lemma CellWeekday(y: int, m: int, week: int, col: int)
    requires 1 <= m <= 12 && 0 <= col < 7 && Cell(y, m, week, col) != 0
    ensures Weekday(y, m, Cell(y, m, week, col)) == col
  {
    WeekdayOf(y, m, Cell(y, m, week, col));
    hide Weekday;
  }

  /**
   The search over a month's calendar always succeeds: it finds the one day of that
   weekday within the last seven days, so neither fallback is ever reached.
   */
  lemma SearchFindsLast(y: int, m: int, col: int)
    requires 1 <= m <= 12 && 0 <= col < 7
    ensures var r := LastInColumn(MonthCalendar(y, m), col);
      r.Some? && IsLastOf(y, m, col, r.value)
  {
    var cal, k, n := MonthCalendar(y, m), Weeks(y, m), DaysIn(y, m);
    hide Weekday;
    var last := Cell(y, m, k - 1, col);
    assert k >= 5 - 1 && 7 * (k - 1) < FirstColumn(y, m) + n <= 7 * k;
    assert cal[k - 1][col] == last;
    if last != 0 {
      CellWeekday(y, m, k - 1, col);
    } else {
      var shorter := cal[..k - 1];
      assert shorter[k - 2][col] == Cell(y, m, k - 2, col) != 0;
      CellWeekday(y, m, k - 2, col);
      assert LastInColumn(cal, col) == LastInColumn(shorter, col);
    }
  }

  predicate IsLastOf(y: int, m: int, col: int, d: int)
    requires 1 <= m <= 12
  {
    1 <= d <= DaysIn(y, m) < d + 7 && Weekday(y, m, d) == col
  }

  /** Two last days of one weekday in one month are the same day. */
  lemma LastIsUnique(y: int, m: int, col: int, a: int, b: int)
    requires 1 <= m <= 12 && IsLastOf(y, m, col, a) && IsLastOf(y, m, col, b)
    ensures a == b
  {
    WeekdayOf(y, m, a);
    WeekdayOf(y, m, b);
    hide Weekday;
  }

  /** `LastTuesday` is a Tuesday in the month's last seven days, in every month. */
  lemma LastTuesdayIsLast(y: int, m: int)
    requires 1 <= m <= 12
    ensures IsLastOf(y, m, TUESDAY, LastTuesday(y, m))
  {
    SearchFindsLast(y, m, TUESDAY);
  }

  /** A date is the last of its weekday exactly when a week later is another month. */
  lemma LastWeekdayIff(date: Date)
    requires date.Valid()
    ensures IsLastWeekdayOfMonth(date) <==> date.d + 7 > DaysIn(date.y, date.m)
  {
    var col := Weekday(date.y, date.m, date.d);
    SearchFindsLast(date.y, date.m, col);
    if date.d + 7 > DaysIn(date.y, date.m) {
      LastIsUnique(date.y, date.m, col, date.d, LastInColumn(MonthCalendar(date.y, date.m), col).value);
    }
  }

  // ---- the calendar itself ----

  /** Months alternate between 31 and 30 days with a second 31 in August; February has 28, in leap years 29. */
  lemma MonthLengths(y: int, m: int)
    requires 1 <= m <= 12
    ensures m != 2 ==> DaysIn(y, m) == 30 + (m + m / 8) % 2
    ensures m == 2 ==> DaysIn(y, m) == if (y % 4 == 0 && y % 100 != 0) || y % 400 == 0 then 29 else 28
  {}

  /** Days follow each other without a gap, through the ends of months and years. */
  lemma DaysFollow(y: int, m: int, d: int)
    requires IsDate(y, m, d)
    ensures d < DaysIn(y, m) ==> Ordinal(y, m, d + 1) == Ordinal(y, m, d) + 1
    ensures d == DaysIn(y, m) && m < 12 ==> Ordinal(y, m + 1, 1) == Ordinal(y, m, d) + 1
    ensures d == DaysIn(y, m) && m == 12 ==> Ordinal(y + 1, 1, 1) == Ordinal(y, m, d) + 1
  {
    if m == 12 { YearLength(y); }
  }

  lemma YearLength(y: int)
    ensures DaysBeforeYear(y + 1) - DaysBeforeYear(y) == DaysBeforeMonth(y, 12) + 31
  {
    assert DaysBeforeMonth(y, 2) == 31;
    assert DaysBeforeMonth(y, 4) == 62 + DaysIn(y, 2);
    assert DaysBeforeMonth(y, 6) == 123 + DaysIn(y, 2);
    assert DaysBeforeMonth(y, 8) == 184 + DaysIn(y, 2);
    assert DaysBeforeMonth(y, 10) == 245 + DaysIn(y, 2);
    assert DaysBeforeMonth(y, 12) == 306 + DaysIn(y, 2);
    MultiplesPassed(y);
  }

  /** One more multiple of 4, 100 or 400 is passed exactly when the year is one. */
  lemma MultiplesPassed(y: int)
    ensures y / 4 - (y - 1) / 4 == if y % 4 == 0 then 1 else 0
    ensures y / 100 - (y - 1) / 100 == if y % 100 == 0 then 1 else 0
    ensures y / 400 - (y - 1) / 400 == if y % 400 == 0 then 1 else 0
    ensures (y % 400 == 0 ==> y % 100 == 0) && (y % 100 == 0 ==> y % 4 == 0)
  {}

  /** 1 January 2000 was a Saturday, which fixes every weekday. */
  lemma Millennium()
    ensures Weekday(2000, 1, 1) == 5
  {}
}
