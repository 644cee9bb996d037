/** Calendar arithmetic of the proleptic Gregorian calendar as Python's `date`
    does it: `add_months` (month arithmetic with day clamping), `iter_windows`
    (the month windows a full load walks through) and day numbers
    (`date.toordinal()`), which the scheduler uses for instants and weekdays. */
module Dates {
  import opened Seqs

  datatype Date = Date(year: int, month: int, day: int)

  predicate IsLeap(y: int) {
    y % 4 == 0 && (y % 100 != 0 || y % 400 == 0)
  }

  /** `calendar.monthrange(y, m)[1]`. */
  function DaysInMonth(y: int, m: int): (n: int)
    requires 1 <= m <= 12
    ensures 28 <= n <= 31
  {
    if m == 2 then (if IsLeap(y) then 29 else 28)
    else if m == 4 || m == 6 || m == 9 || m == 11 then 30
    else 31
  }

  /** A date on the proleptic Gregorian calendar from year 1 (`MINYEAR`) on,
      with a real month and day. Python's upper bound, year 9999 (`MAXYEAR`),
      is not imposed. */
  predicate Valid(d: Date) {
    1 <= d.year && 1 <= d.month <= 12 && 1 <= d.day <= DaysInMonth(d.year, d.month)
  }

  /** `a < b` on dates. */
  predicate Before(a: Date, b: Date) {
    a.year < b.year || (a.year == b.year && (a.month < b.month || (a.month == b.month && a.day < b.day)))
  }

  /** `a <= b` on dates. */
  predicate AtMost(a: Date, b: Date) {
    !Before(b, a)
  }

  // ---------------------------------------------------------------------------
  // Day numbers
  // ---------------------------------------------------------------------------

  function DaysBeforeYear(y: int): int
    requires y >= 1
  {
    var p := y - 1;
    p * 365 + p / 4 - p / 100 + p / 400
  }

  function DaysBeforeMonth(y: int, m: int): (n: int)
    requires 1 <= m <= 12
    ensures n >= 0
  {
    if m == 1 then 0 else DaysBeforeMonth(y, m - 1) + DaysInMonth(y, m - 1)
  }

  /** `date.toordinal()`: 1 for 0001-01-01. */
  function DayNumber(d: Date): int
    requires Valid(d)
  {
    DaysBeforeYear(d.year) + DaysBeforeMonth(d.year, d.month) + d.day
  }

  /** `date.weekday()`: 0 is Monday (0001-01-01 was a Monday). */
  function Weekday(dayNumber: int): (w: int)
    ensures 0 <= w < 7
  {
    (dayNumber + 6) % 7
  }

  lemma YearLength(y: int)
    requires y >= 1
    ensures DaysBeforeYear(y + 1) - DaysBeforeYear(y) == if IsLeap(y) then 366 else 365
    ensures DaysBeforeMonth(y, 12) + 31 == if IsLeap(y) then 366 else 365
  {
    assert y / 4 == (y - 1) / 4 + (if y % 4 == 0 then 1 else 0);
    assert y / 100 == (y - 1) / 100 + (if y % 100 == 0 then 1 else 0);
    assert y / 400 == (y - 1) / 400 + (if y % 400 == 0 then 1 else 0);
    assert y % 400 == 0 ==> y % 100 == 0 && y % 4 == 0;
    assert y % 100 == 0 ==> y % 4 == 0;
    var feb := DaysInMonth(y, 2);
    assert DaysBeforeMonth(y, 2) == 31;
    assert DaysBeforeMonth(y, 3) == 31 + feb;
    assert DaysBeforeMonth(y, 4) == 62 + feb;
    assert DaysBeforeMonth(y, 5) == 92 + feb;
    assert DaysBeforeMonth(y, 6) == 123 + feb;
    assert DaysBeforeMonth(y, 7) == 153 + feb;
    assert DaysBeforeMonth(y, 8) == 184 + feb;
    assert DaysBeforeMonth(y, 9) == 215 + feb;
    assert DaysBeforeMonth(y, 10) == 245 + feb;
    assert DaysBeforeMonth(y, 11) == 276 + feb;
    assert DaysBeforeMonth(y, 12) == DaysInMonth(y, 2) + 306;
  }

  lemma {:induction false} MonthsAdvance(y: int, m1: int, m2: int)
    requires 1 <= m1 < m2 <= 12
    ensures DaysBeforeMonth(y, m1) + DaysInMonth(y, m1) <= DaysBeforeMonth(y, m2)
    decreases m2 - m1
  {
    if m1 + 1 < m2 {
      MonthsAdvance(y, m1 + 1, m2);
    }
  }

  lemma {:induction false} YearsAdvance(y1: int, y2: int)
    requires 1 <= y1 < y2
    ensures DaysBeforeYear(y1) + DaysBeforeMonth(y1, 12) + 31 <= DaysBeforeYear(y2)
    decreases y2 - y1
  {
    YearLength(y1);
    if y1 + 1 < y2 {
      YearsAdvance(y1 + 1, y2);
      YearLength(y1 + 1);
    }
  }

  /** Day numbers follow the order of dates, so comparing instants built from
      them is comparing dates. */
  lemma DayNumberMonotone(a: Date, b: Date)
    requires Valid(a) && Valid(b) && Before(a, b)
    ensures DayNumber(a) < DayNumber(b)
  {
    if a.year < b.year {
      if a.month < 12 {
        MonthsAdvance(a.year, a.month, 12);
      }
      YearsAdvance(a.year, b.year);
    } else if a.month < b.month {
      MonthsAdvance(a.year, a.month, b.month);
    }
  }

  // ---------------------------------------------------------------------------
  // Next and previous day
  // ---------------------------------------------------------------------------

  /** `d + timedelta(days=1)`. */
  function NextDay(d: Date): (r: Date)
    requires Valid(d)
    ensures Valid(r) && Before(d, r)
  {
    if d.day < DaysInMonth(d.year, d.month) then Date(d.year, d.month, d.day + 1)
    else if d.month < 12 then Date(d.year, d.month + 1, 1)
    else Date(d.year + 1, 1, 1)
  }

  /** `d - timedelta(days=1)`; 0001-01-01 has no predecessor. */
  function PrevDay(d: Date): (r: Date)
    requires Valid(d) && d != Date(1, 1, 1)
    ensures Valid(r) && Before(r, d) && NextDay(r) == d
  {
    if d.day > 1 then Date(d.year, d.month, d.day - 1)
    else if d.month > 1 then Date(d.year, d.month - 1, DaysInMonth(d.year, d.month - 1))
    else Date(d.year - 1, 12, 31)
  }

  /** Nothing lies strictly between the day before `d` and `d`. */
  lemma BeforePrevDay(x: Date, d: Date)
    requires Valid(x) && Valid(d) && d != Date(1, 1, 1) && Before(x, d)
    ensures AtMost(x, PrevDay(d))
  {
  }

  lemma NextDayNumber(d: Date)
    requires Valid(d)
    ensures DayNumber(NextDay(d)) == DayNumber(d) + 1
  {
    if d.day == DaysInMonth(d.year, d.month) && d.month == 12 {
      YearLength(d.year);
    }
  }

  // ---------------------------------------------------------------------------
  // add_months
  // ---------------------------------------------------------------------------

  /** The month count `year * 12 + month - 1` that `add_months` advances. */
  function MonthIndex(d: Date): int {
    d.year * 12 + d.month - 1
  }

  /** The year `add_months(d, months)` lands in; Python's `//` by 12 is Dafny's
      `/` since the divisor is positive. */
  function TargetYear(d: Date, months: int): int {
    d.year + (d.month - 1 + months) / 12
  }

  /** `add_months(d, months)`: the same day `months` months on, clamped to the
      last day of a shorter target month. `date(y, ...)` raises for a year
      below 1, which callers avoid. */
  function AddMonths(d: Date, months: int): (r: Date)
    requires Valid(d) && TargetYear(d, months) >= 1
    ensures Valid(r)
    ensures MonthIndex(r) == MonthIndex(d) + months
    ensures d.day <= DaysInMonth(r.year, r.month) ==> r.day == d.day
    ensures d.day > DaysInMonth(r.year, r.month) ==> r.day == DaysInMonth(r.year, r.month)
  {
    var m := d.month - 1 + months;
    var y := d.year + m / 12;
    var m' := m % 12 + 1;
    var last := DaysInMonth(y, m');
    Date(y, m', if d.day < last then d.day else last)
  }

  /** Moving forward by at least one month lands strictly later. */
  lemma AddMonthsLater(d: Date, months: int)
    requires Valid(d) && months >= 1
    ensures TargetYear(d, months) >= 1
    ensures Before(d, AddMonths(d, months))
  {
    var r := AddMonths(d, months);
    assert MonthIndex(r) > MonthIndex(d);
  }

  /** The last day of the window that starts at `cur`: one day before
      `add_months(cur, months)`. */
  function WindowEnd(cur: Date, months: int): (e: Date)
    requires Valid(cur) && months >= 1
    ensures Valid(e) && AtMost(cur, e)
  {
    AddMonthsLater(cur, months);
    var next := AddMonths(cur, months);
    BeforePrevDay(cur, next);
    PrevDay(next)
  }

  // ---------------------------------------------------------------------------
  // iter_windows
  // ---------------------------------------------------------------------------

  /** `cur_end` of the window starting at `cur`: its window end, clamped to `end`. */
  function WindowLast(cur: Date, end: Date, months: int): (last: Date)
    requires Valid(cur) && Valid(end) && months >= 1 && AtMost(cur, end)
    ensures Valid(last) && AtMost(cur, last) && AtMost(last, end)
    ensures last == end || last == WindowEnd(cur, months)
    ensures AtMost(last, WindowEnd(cur, months))
  {
    var e := WindowEnd(cur, months);
    if Before(end, e) then end else e
  }

  /** The windows `iter_windows` yields from `cur` on: `(cur, cur_end)`, then
      on from the day after `cur_end`. */
  function Windows(cur: Date, end: Date, months: int): (ws: seq<(Date, Date)>)
    requires Valid(cur) && Valid(end) && months >= 1
    ensures Before(end, cur) <==> ws == []
    decreases end.year - cur.year, 12 - cur.month, 31 - cur.day
  {
    if Before(end, cur) then []
    else
      var last := WindowLast(cur, end, months);
      [(cur, last)] + Windows(NextDay(last), end, months)
  }

  /** Consecutive windows: each next one starts the day after the previous ends. */
  predicate Contiguous(ws: seq<(Date, Date)>) {
    forall k :: 0 <= k < |ws| - 1 ==> Valid(ws[k].1) && ws[k + 1].0 == NextDay(ws[k].1)
  }

  /** A non-empty window that spans at most `months` months. */
  predicate GoodWindow(w: (Date, Date), months: int)
    requires months >= 1
  {
    Valid(w.0) && Valid(w.1) && AtMost(w.0, w.1) && AtMost(w.1, WindowEnd(w.0, months))
  }

  /** A window that spans exactly `months` months. */
  predicate FullWindow(w: (Date, Date), months: int)
    requires months >= 1
  {
    Valid(w.0) && w.1 == WindowEnd(w.0, months)
  }

  /** Every window is good, and every window but the last one is full. */
  predicate WellSized(ws: seq<(Date, Date)>, months: int)
    requires months >= 1
  {
    forall k :: 0 <= k < |ws| ==> GoodWindow(ws[k], months) && (k + 1 < |ws| ==> FullWindow(ws[k], months))
  }

  lemma ContiguousCons(w: (Date, Date), rest: seq<(Date, Date)>)
    requires Contiguous(rest)
    requires rest != [] ==> Valid(w.1) && rest[0].0 == NextDay(w.1)
    ensures Contiguous([w] + rest)
  {
    var ws := [w] + rest;
    forall k | 0 <= k < |ws| - 1
      ensures Valid(ws[k].1) && ws[k + 1].0 == NextDay(ws[k].1)
    {
      if k > 0 {
        assert ws[k] == rest[k - 1] && ws[k + 1] == rest[k];
      }
    }
    assert Contiguous(ws);
  }

  lemma WellSizedCons(w: (Date, Date), rest: seq<(Date, Date)>, months: int)
    requires months >= 1 && GoodWindow(w, months) && WellSized(rest, months)
    requires rest != [] ==> FullWindow(w, months)
    ensures WellSized([w] + rest, months)
  {
    var ws := [w] + rest;
    forall k | 0 <= k < |ws|
      ensures GoodWindow(ws[k], months) && (k + 1 < |ws| ==> FullWindow(ws[k], months))
    {
      if k > 0 {
        assert ws[k] == rest[k - 1];
      }
    }
  }

  lemma {:induction false} WindowsCoverFrom(cur: Date, end: Date, months: int)
    requires Valid(cur) && Valid(end) && months >= 1 && AtMost(cur, end)
    ensures var ws := Windows(cur, end, months);
      |ws| > 0 && ws[0].0 == cur && ws[|ws| - 1].1 == end
      && Contiguous(ws) && WellSized(ws, months)
    decreases end.year - cur.year, 12 - cur.month, 31 - cur.day
  {
    var last := WindowLast(cur, end, months);
    var next := NextDay(last);
    var rest := Windows(next, end, months);
    var w := (cur, last);
    assert Windows(cur, end, months) == [w] + rest;
    assert GoodWindow(w, months);
    if Before(end, next) {
      assert last == end;
      assert Contiguous(rest) && WellSized(rest, months);
    } else {
      WindowsCoverFrom(next, end, months);
      assert FullWindow(w, months);
    }
    ContiguousCons(w, rest);
    WellSizedCons(w, rest, months);
  }

  /** What `iter_windows(start, end, months)` promises for `months >= 1`:
      nothing when `start > end`; otherwise contiguous, non-empty windows of at
      most `months` months, the first starting at `start` and the last ending
      exactly at `end`. */
  lemma WindowsCover(start: Date, end: Date, months: int)
    requires Valid(start) && Valid(end) && months >= 1
    ensures Before(end, start) ==> Windows(start, end, months) == []
    ensures AtMost(start, end) ==>
      var ws := Windows(start, end, months);
      |ws| > 0 && ws[0].0 == start && ws[|ws| - 1].1 == end
      && Contiguous(ws) && WellSized(ws, months)
  {
    if AtMost(start, end) {
      WindowsCoverFrom(start, end, months);
    }
  }

  /** `iter_windows` itself: the generator's loop, collecting what it yields. */
  method IterWindows(start: Date, end: Date, months: int) returns (ws: seq<(Date, Date)>)
    requires Valid(start) && Valid(end) && months >= 1
    ensures ws == Windows(start, end, months)
  {
    ws := [];
    var cur := start;
    while AtMost(cur, end)
      invariant Valid(cur)
      invariant ws + Windows(cur, end, months) == Windows(start, end, months)
      decreases end.year - cur.year, 12 - cur.month, 31 - cur.day
    {
      AddMonthsLater(cur, months);
      var curEnd := PrevDay(AddMonths(cur, months));
      if Before(end, curEnd) {
        curEnd := end;
      }
      assert curEnd == WindowLast(cur, end, months);
      var next := NextDay(curEnd);
      ghost var rest := Windows(next, end, months);
      assert Windows(cur, end, months) == [(cur, curEnd)] + rest;
      AppendAssoc(ws, [(cur, curEnd)], rest);
      ws := ws + [(cur, curEnd)];
      cur := next;
    }
  }
}
