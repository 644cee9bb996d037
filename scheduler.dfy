/** The scheduling side of `raw_sync`: the timed refresh jobs at the end of
    `run_incremental`, the weekly pipeline and its in-progress marker, the
    weekly and monthly triggers of the main loop, and the loop's handling of
    a failed cycle. What each job does to the tables is modelled by the
    loader and maintainer modules; here a job is seen through its outcome. */
module Scheduler {
  import opened Wrappers
  import opened Text
  import opened Dates
  import opened Connections

  // ---------------------------------------------------------------------------
  // Time
  // ---------------------------------------------------------------------------

  /** Instants are counted in microseconds, the resolution of `datetime`. */
  const Second: int := 1_000_000
  const Minute: int := 60_000_000
  const Day: int := 86_400_000_000
  const Week: int := 604_800_000_000

  /** A reading of `datetime.now()`: a date and the microseconds since its
      midnight. */
  datatype Clock = Clock(date: Date, micros: int)

  predicate ValidClock(c: Clock) {
    Valid(c.date) && 0 <= c.micros < Day
  }

  /** The reading's place on the time line; comparing and subtracting
      `datetime` values is comparing and subtracting these. */
  function Instant(c: Clock): int
    requires ValidClock(c)
  {
    DayNumber(c.date) * Day + c.micros
  }

  /** A later date is a later instant, whatever the times of day. */
  lemma InstantMonotone(a: Clock, b: Clock)
    requires ValidClock(a) && ValidClock(b) && Before(a.date, b.date)
    ensures Instant(a) < Instant(b)
  {
    DayNumberMonotone(a.date, b.date);
  }

  /** `hour, minute = [int(x) for x in t.split(":")]`; a `ValueError` (a
      part that is not an integer, or not exactly two parts) gives 02:00. */
  function ParseTime(t: string): (int, int) {
    var parts := Split(t, ':');
    if |parts| == 2 && ParseInt(parts[0]).Some? && ParseInt(parts[1]).Some? then
      (ParseInt(parts[0]).value, ParseInt(parts[1]).value)
    else
      (2, 0)
  }

  /** `ParseTime` reads back what `f"{h}:{m}"` writes. */
  lemma ParseTimeShow(h: nat, m: nat)
    ensures ParseTime(ShowNat(h) + ":" + ShowNat(m)) == (h, m)
  {
    var a, b := ShowNat(h), ShowNat(m);
    assert a + ":" + b == a + [':'] + b;
    assert ':' !in a && ':' !in b;
    SplitAt(a, b, ':');
    SplitNoSep(b, ':');
    var parts := Split(a + ":" + b, ':');
    assert parts == [a, b];
    ParseIntShowNat(h);
    ParseIntShowNat(m);
  }

  /** A time without a colon, or with two, falls back to 02:00. */
  lemma ParseTimeFallback(t: string)
    requires |Split(t, ':')| != 2
    ensures ParseTime(t) == (2, 0)
  {
  }

  /** The hour and minute `datetime(...)` accepts. */
  predicate ValidTime(hm: (int, int)) {
    0 <= hm.0 < 24 && 0 <= hm.1 < 60
  }

  /** The offset of `hm` from midnight. */
  function TimeMicros(hm: (int, int)): (t: int)
    requires ValidTime(hm)
    ensures 0 <= t < Day
  {
    hm.0 * 3_600_000_000 + hm.1 * Minute
  }

  // ---------------------------------------------------------------------------
  // The weekly and monthly occurrences
  // ---------------------------------------------------------------------------

  /** Going back `(weekday(d) - w) % 7` days from day `d` lands on weekday
      `w % 7`. */
  lemma WeekdayBack(d: int, w: int)
    ensures Weekday(d - (Weekday(d) - w) % 7) == w % 7
  {
    var back := (Weekday(d) - w) % 7;
    var q1 := (d + 6) / 7;
    var q2 := (Weekday(d) - w) / 7;
    var q3 := w / 7;
    assert d + 6 == 7 * q1 + Weekday(d);
    assert Weekday(d) - w == 7 * q2 + back;
    assert w == 7 * q3 + w % 7;
    var k := d - back + 6;
    assert k == 7 * (q1 + q2 + q3) + w % 7;
    ModUnique(k, q1 + q2 + q3, w % 7);
  }

  /** Euclidean division has one remainder. */
  lemma ModUnique(k: int, q: int, r: int)
    requires 0 <= r < 7 && k == 7 * q + r
    ensures k % 7 == r
  {
    var q' := k / 7;
    assert 7 * (q - q') == k % 7 - r;
  }

  /** The weekly occurrence the loop checks: today at `hm`, moved back to
      the configured weekday, and a week further back while that is still
      ahead of `now`. `datetime(...)` raises `ValueError` for an hour or
      minute out of range (`None`). */
  function WeeklyScheduled(now: Clock, weeklyDay: int, hm: (int, int)): (s: Option<int>)
    requires ValidClock(now) && weeklyDay >= 0
    ensures s.Some? <==> ValidTime(hm)
    ensures s.Some? ==> s.value <= Instant(now) < s.value + Week
    ensures s.Some? ==> exists d :: s.value == d * Day + TimeMicros(hm) && Weekday(d) == weeklyDay % 7
  {
    if !ValidTime(hm) then None
    else
      var dn := DayNumber(now.date);
      var back := (Weekday(dn) - weeklyDay) % 7;
      var d := dn - back;
      WeekdayBack(dn, weeklyDay);
      if d * Day + TimeMicros(hm) > Instant(now) then
        assert back == 0;
        assert Weekday(d - 7) == Weekday(d);
        assert (d - 7) * Day + TimeMicros(hm) == d * Day + TimeMicros(hm) - Week;
        Some(d * Day + TimeMicros(hm) - Week)
      else
        Some(d * Day + TimeMicros(hm))
  }

  /** `(y, m)` with the month moved back by one, January wrapping to the
      previous year's December. */
  function PrevMonth(y: int, m: int): (r: (int, int))
    requires 1 <= m <= 12
    ensures 1 <= r.1 <= 12
    ensures r.0 * 12 + r.1 == y * 12 + m - 1
    ensures m == 1 ==> r == (y - 1, 12)
  {
    if m == 1 then (y - 1, 12) else (y, m - 1)
  }

  /** The monthly occurrence the loop checks: this month's `monthlyDay` at
      `hm`, or when that is still ahead of `now`, `replace(year, month)` of
      it into the previous month. `datetime(...)` raises for a time or day
      out of range and `replace` for a day the previous month lacks
      (`None`). */
  function MonthlyScheduled(now: Clock, monthlyDay: int, hm: (int, int)): (s: Option<Clock>)
    requires ValidClock(now) && monthlyDay >= 1
    ensures s.Some? ==> ValidClock(s.value) && Instant(s.value) <= Instant(now)
    ensures s.Some? ==> s.value.date.day == monthlyDay && ValidTime(hm) && s.value.micros == TimeMicros(hm)
    ensures s.Some? ==>
      var here := Clock(Date(now.date.year, now.date.month, monthlyDay), TimeMicros(hm));
      if Valid(here.date) && Instant(here) <= Instant(now) then s.value == here
      else (s.value.date.year, s.value.date.month) == PrevMonth(now.date.year, now.date.month)
    ensures s.None? <==>
      !ValidTime(hm) || monthlyDay > DaysInMonth(now.date.year, now.date.month)
      || (Instant(Clock(Date(now.date.year, now.date.month, monthlyDay), TimeMicros(hm))) > Instant(now)
          && !Valid(Date(PrevMonth(now.date.year, now.date.month).0, PrevMonth(now.date.year, now.date.month).1, monthlyDay)))
  {
    if !ValidTime(hm) || monthlyDay > DaysInMonth(now.date.year, now.date.month) then None
    else
      var here := Clock(Date(now.date.year, now.date.month, monthlyDay), TimeMicros(hm));
      if Instant(here) <= Instant(now) then Some(here)
      else
        var p := PrevMonth(now.date.year, now.date.month);
        var there := Clock(Date(p.0, p.1, monthlyDay), TimeMicros(hm));
        if !Valid(there.date) then None
        else
          assert Before(there.date, now.date);
          InstantMonotone(there, now);
          Some(there)
  }

  /** The trigger both schedules share: `now` is no more than `window`
      minutes past the occurrence, and the job has not run since it. */
  predicate Due(now: int, scheduled: int, windowMinutes: int, lastRun: Option<int>) {
    now >= scheduled && now - scheduled <= windowMinutes * Minute && (lastRun.None? || lastRun.value < scheduled)
  }

  /** Once a run that finished after the check that started it is recorded,
      the same occurrence is never due again. */
  lemma DueOnce(now: int, scheduled: int, windowMinutes: int, lastRun: Option<int>, finished: int, later: int)
    requires Due(now, scheduled, windowMinutes, lastRun) && finished >= now
    ensures !Due(later, scheduled, windowMinutes, Some(finished))
  {
  }

  // ---------------------------------------------------------------------------
  // Timed jobs
  // ---------------------------------------------------------------------------

  /** A timed job is due when it never ran or its interval has elapsed. */
  predicate TimerDue(last: Option<int>, now: int, intervalSeconds: int) {
    last.None? || now - last.value >= intervalSeconds * Second
  }

  datatype CycleError =
    | IngestFailed
    | JobFailed
    | BadScheduleTime
    | WeeklyFailed
    | ForecastFailed(code: int)
    | MonthlyFailed

  /** One timed job: skipped unless enabled and due; a run that raises
      leaves the last-run time alone and aborts `run_incremental`; a run
      that succeeds records `now`. */
  function JobStep(last: Option<int>, enabled: bool, now: int, intervalSeconds: int, ok: bool): (r: Result<Option<int>, CycleError>)
    ensures r.Err? <==> enabled && TimerDue(last, now, intervalSeconds) && !ok
    ensures r.Ok? && r.value != last ==> r.value == Some(now) && ok
    ensures enabled && TimerDue(last, now, intervalSeconds) && ok ==> r == Ok(Some(now))
    ensures !enabled || !TimerDue(last, now, intervalSeconds) ==> r == Ok(last)
  {
    if enabled && TimerDue(last, now, intervalSeconds) then
      if ok then Ok(Some(now)) else Err(JobFailed)
    else Ok(last)
  }

  /** After a run is recorded, the job is not due again until its interval
      has passed. */
  lemma JobNotDueAgain(last: Option<int>, now: int, intervalSeconds: int, later: int)
    requires JobStep(last, true, now, intervalSeconds, true) == Ok(Some(now))
    requires later - now < intervalSeconds * Second
    ensures !TimerDue(Some(now), later, intervalSeconds)
  {
  }

  // ---------------------------------------------------------------------------
  // The weekly pipeline
  // ---------------------------------------------------------------------------

  /** The settings the loop reads from the environment. */
  datatype Config = Config(
    openOrderSeconds: int, core5MinSql: string, core5MinSeconds: int,
    dashboardSql: string, dashboardSeconds: int,
    weeklyEnabled: bool, weeklyDay: int, weeklyTime: string, weeklyWindowMinutes: int,
    weeklyPreSql: string, weeklyPostSql: string, forecastCommand: string,
    monthlyEnabled: bool, monthlyDay: int, monthlyTime: string, monthlyWindowMinutes: int,
    monthlySeatSql: string)

  /** How each stage of the weekly pipeline goes: the loads (full BOM load,
      live BOM catch-up, stock master reload, unique-material rebuild), the
      two SQL files, and the forecast command's exit code. */
  datatype WeeklyRun = WeeklyRun(loadsOk: bool, preSqlOk: bool, forecastExit: int, postSqlOk: bool)

  /** The pipeline's outcome: the first stage that raises ends it; an unset
      SQL file or forecast command is skipped, and a forecast that exits
      non-zero raises `RuntimeError`. */
  function WeeklyPipeline(cfg: Config, run: WeeklyRun): (r: Result<(), CycleError>)
    ensures r.Ok? ==> run.loadsOk
    ensures r.Ok? && cfg.forecastCommand != "" ==> run.forecastExit == 0
    ensures run.loadsOk && (cfg.weeklyPreSql == "" || run.preSqlOk) && cfg.forecastCommand != "" && run.forecastExit != 0 ==>
      r == Err(ForecastFailed(run.forecastExit))
    ensures r.Err? <==>
      !run.loadsOk || (cfg.weeklyPreSql != "" && !run.preSqlOk)
      || (cfg.forecastCommand != "" && run.forecastExit != 0) || (cfg.weeklyPostSql != "" && !run.postSqlOk)
  {
    if !run.loadsOk then Err(WeeklyFailed)
    else if cfg.weeklyPreSql != "" && !run.preSqlOk then Err(WeeklyFailed)
    else if cfg.forecastCommand != "" && run.forecastExit != 0 then Err(ForecastFailed(run.forecastExit))
    else if cfg.weeklyPostSql != "" && !run.postSqlOk then Err(WeeklyFailed)
    else Ok(())
  }

  // ---------------------------------------------------------------------------
  // The loop's state
  // ---------------------------------------------------------------------------

  /** The values of the `LAST_*_RUN` globals and whether the weekly marker
      file exists. */
  datatype LoopState = LoopState(
    lastCore: Option<int>, lastDashboard: Option<int>, lastOpenOrder: Option<int>,
    lastWeekly: Option<int>, lastMonthly: Option<int>, weeklyMarker: bool)

  /** What `run_incremental` does to the loop's state, and how it ends. */
  function IncrementalStep(cfg: Config, s: LoopState, ingestOk: bool, runRefreshJobs: bool,
                           nowOpen: int, openOk: bool, nowCore: int, coreOk: bool, nowDash: int, dashOk: bool)
    : (out: (Result<(), CycleError>, LoopState))
    ensures out.1.lastWeekly == s.lastWeekly && out.1.lastMonthly == s.lastMonthly && out.1.weeklyMarker == s.weeklyMarker
    ensures !ingestOk ==> out == (Err(IngestFailed), s)
    ensures out.1.lastOpenOrder != s.lastOpenOrder ==> out.1.lastOpenOrder == Some(nowOpen) && openOk
    ensures out.1.lastCore != s.lastCore ==>
      out.1.lastCore == Some(nowCore) && coreOk
      && JobStep(s.lastOpenOrder, runRefreshJobs && cfg.openOrderSeconds > 0, nowOpen, cfg.openOrderSeconds, openOk).Ok?
    ensures out.1.lastDashboard != s.lastDashboard ==> out.1.lastDashboard == Some(nowDash) && dashOk && out.0.Ok?
  {
    if !ingestOk then (Err(IngestFailed), s)
    else
      var o := JobStep(s.lastOpenOrder, runRefreshJobs && cfg.openOrderSeconds > 0, nowOpen, cfg.openOrderSeconds, openOk);
      if o.Err? then (Err(JobFailed), s)
      else
        var s1 := s.(lastOpenOrder := o.value);
        var c := JobStep(s.lastCore, runRefreshJobs && cfg.core5MinSql != "" && cfg.core5MinSeconds > 0, nowCore, cfg.core5MinSeconds, coreOk);
        if c.Err? then (Err(JobFailed), s1)
        else
          var s2 := s1.(lastCore := c.value);
          var d := JobStep(s.lastDashboard, runRefreshJobs && cfg.dashboardSql != "" && cfg.dashboardSeconds > 0, nowDash, cfg.dashboardSeconds, dashOk);
          if d.Err? then (Err(JobFailed), s2)
          else (Ok(()), s2.(lastDashboard := d.value))
  }

  /** What the weekly check of the loop does to the state: `Ok(true)` when it
      ran the weekly pipeline, `Ok(false)` when nothing was due. */
  function WeeklyStep(cfg: Config, s: LoopState, now: Clock, run: WeeklyRun, finished: int)
    : (out: (Result<bool, CycleError>, LoopState))
    requires ValidClock(now)
    ensures out.1.lastCore == s.lastCore && out.1.lastDashboard == s.lastDashboard
    ensures out.1.lastOpenOrder == s.lastOpenOrder && out.1.lastMonthly == s.lastMonthly
    ensures out.1.lastWeekly != s.lastWeekly ==> out.1.lastWeekly == Some(finished) && !out.1.weeklyMarker && out.0 == Ok(true)
    ensures out.0 == Ok(true) ==> WeeklyPipeline(cfg, run).Ok? && out.1.lastWeekly == Some(finished) && !out.1.weeklyMarker
    ensures out.0 == Ok(false) ==> out.1 == s
  {
    if !(cfg.weeklyEnabled && cfg.weeklyDay >= 0) then (Ok(false), s)
    else
      match WeeklyScheduled(now, cfg.weeklyDay, ParseTime(cfg.weeklyTime))
      case None => (Err(BadScheduleTime), s)
      case Some(sch) =>
        if !Due(Instant(now), sch, cfg.weeklyWindowMinutes, s.lastWeekly) then (Ok(false), s)
        else
          var p := WeeklyPipeline(cfg, run);
          if p.Err? then (Err(p.error), s.(weeklyMarker := true))
          else (Ok(true), s.(weeklyMarker := false, lastWeekly := Some(finished)))
  }

  /** What the monthly check of the loop does to the state. */
  function MonthlyStep(cfg: Config, s: LoopState, now: Clock, seatOk: bool, finished: int)
    : (out: (Result<bool, CycleError>, LoopState))
    requires ValidClock(now)
    ensures out.1 == s.(lastMonthly := out.1.lastMonthly)
    ensures out.1.lastMonthly != s.lastMonthly ==> out.1.lastMonthly == Some(finished) && cfg.monthlySeatSql != "" && seatOk && out.0 == Ok(true)
    ensures out.0.Err? ==> out.1 == s
  {
    if !(cfg.monthlyEnabled && cfg.monthlyDay >= 1) then (Ok(false), s)
    else
      match MonthlyScheduled(now, cfg.monthlyDay, ParseTime(cfg.monthlyTime))
      case None => (Err(BadScheduleTime), s)
      case Some(sch) =>
        if !Due(Instant(now), Instant(sch), cfg.monthlyWindowMinutes, s.lastMonthly) then (Ok(false), s)
        else if cfg.monthlySeatSql == "" then (Ok(true), s)
        else if seatOk then (Ok(true), s.(lastMonthly := Some(finished)))
        else (Err(MonthlyFailed), s)
  }

  /** The module globals the loop updates (`LAST_*_RUN`) and the weekly
      marker file, which outlives the process. */
  class Loop {
    var lastCore: Option<int>
    var lastDashboard: Option<int>
    var lastOpenOrder: Option<int>
    var lastWeekly: Option<int>
    var lastMonthly: Option<int>
    var weeklyMarker: bool
    const cfg: Config

    function State(): LoopState
      reads this
    {
      LoopState(lastCore, lastDashboard, lastOpenOrder, lastWeekly, lastMonthly, weeklyMarker)
    }

    /** Process start: no job has run; the marker is whatever the last
        process left behind. */
    constructor (config: Config, markerLeft: bool)
      ensures cfg == config && weeklyMarker == markerLeft
      ensures lastCore.None? && lastDashboard.None? && lastOpenOrder.None? && lastWeekly.None? && lastMonthly.None?
    {
      cfg := config;
      weeklyMarker := markerLeft;
      lastCore := None;
      lastDashboard := None;
      lastOpenOrder := None;
      lastWeekly := None;
      lastMonthly := None;
    }

    /** `run_incremental`: the loaders and maintainers (whose outcome is
        `ingestOk`), then the open-order refresh, the core SQL and the
        dashboard SQL, each on its own timer read from its own clock. A
        failure anywhere raises and stops the later jobs. */
    method RunIncremental(ingestOk: bool, runRefreshJobs: bool,
                          nowOpen: int, openOk: bool, nowCore: int, coreOk: bool, nowDash: int, dashOk: bool)
      returns (r: Result<(), CycleError>)
      modifies this
      ensures r == IncrementalStep(cfg, old(State()), ingestOk, runRefreshJobs, nowOpen, openOk, nowCore, coreOk, nowDash, dashOk).0
      ensures State() == IncrementalStep(cfg, old(State()), ingestOk, runRefreshJobs, nowOpen, openOk, nowCore, coreOk, nowDash, dashOk).1
    {
      var s := State();
      if !ingestOk {
        return Err(IngestFailed);
      }
      var o := JobStep(s.lastOpenOrder, runRefreshJobs && cfg.openOrderSeconds > 0, nowOpen, cfg.openOrderSeconds, openOk);
      if o.Err? {
        return Err(JobFailed);
      }
      var c := JobStep(s.lastCore, runRefreshJobs && cfg.core5MinSql != "" && cfg.core5MinSeconds > 0, nowCore, cfg.core5MinSeconds, coreOk);
      if c.Err? {
        lastOpenOrder := o.value;
        return Err(JobFailed);
      }
      var d := JobStep(s.lastDashboard, runRefreshJobs && cfg.dashboardSql != "" && cfg.dashboardSeconds > 0, nowDash, cfg.dashboardSeconds, dashOk);
      lastOpenOrder, lastCore := o.value, c.value;
      if d.Err? {
        return Err(JobFailed);
      }
      lastDashboard := d.value;
      return Ok(());
    }

    /** `run_weekly`: the marker is written before any work and cleared only
        when the whole pipeline succeeds, which also records `finished`
        (the clock read at the end); a failure keeps the marker for a retry
        and re-raises. */
    method RunWeekly(run: WeeklyRun, finished: int) returns (r: Result<(), CycleError>)
      modifies this
      ensures r == WeeklyPipeline(cfg, run)
      ensures weeklyMarker <==> r.Err?
      ensures lastWeekly == (if r.Ok? then Some(finished) else old(lastWeekly))
      ensures lastCore == old(lastCore) && lastDashboard == old(lastDashboard)
      ensures lastOpenOrder == old(lastOpenOrder) && lastMonthly == old(lastMonthly)
    {
      weeklyMarker := true;
      r := WeeklyPipeline(cfg, run);
      if r.Err? {
        return;
      }
      weeklyMarker := false;
      lastWeekly := Some(finished);
    }

    /** Start-up: a marker left by an interrupted weekly run is retried once
        when the weekly schedule is enabled; a failure is logged only. */
    method RetryWeeklyAtStartup(run: WeeklyRun, finished: int)
      modifies this
      ensures !(cfg.weeklyEnabled && old(weeklyMarker)) ==> weeklyMarker == old(weeklyMarker) && lastWeekly == old(lastWeekly)
      ensures cfg.weeklyEnabled && old(weeklyMarker) ==>
        (weeklyMarker <==> WeeklyPipeline(cfg, run).Err?)
        && lastWeekly == (if WeeklyPipeline(cfg, run).Ok? then Some(finished) else old(lastWeekly))
      ensures lastCore == old(lastCore) && lastDashboard == old(lastDashboard)
      ensures lastOpenOrder == old(lastOpenOrder) && lastMonthly == old(lastMonthly)
    {
      if cfg.weeklyEnabled && weeklyMarker {
        var _ := RunWeekly(run, finished);
      }
    }

    /** `run_monthly_seat`: without a seat SQL file it returns at once and
        records nothing; otherwise a successful run records `finished`. */
    method RunMonthlySeat(seatOk: bool, finished: int) returns (r: Result<(), CycleError>)
      modifies this
      ensures cfg.monthlySeatSql == "" ==> r == Ok(()) && lastMonthly == old(lastMonthly)
      ensures cfg.monthlySeatSql != "" && !seatOk ==> r == Err(MonthlyFailed) && lastMonthly == old(lastMonthly)
      ensures cfg.monthlySeatSql != "" && seatOk ==> r == Ok(()) && lastMonthly == Some(finished)
      ensures lastCore == old(lastCore) && lastDashboard == old(lastDashboard) && lastOpenOrder == old(lastOpenOrder)
      ensures lastWeekly == old(lastWeekly) && weeklyMarker == old(weeklyMarker)
    {
      if cfg.monthlySeatSql == "" {
        return Ok(());
      }
      if !seatOk {
        return Err(MonthlyFailed);
      }
      lastMonthly := Some(finished);
      return Ok(());
    }

    /** The weekly check of the loop, with `now` read for it. */
    method WeeklyCheck(now: Clock, run: WeeklyRun, finished: int) returns (r: Result<bool, CycleError>)
      requires ValidClock(now)
      modifies this
      ensures (r, State()) == WeeklyStep(cfg, old(State()), now, run, finished)
      ensures lastCore == old(lastCore) && lastDashboard == old(lastDashboard)
      ensures lastOpenOrder == old(lastOpenOrder) && lastMonthly == old(lastMonthly)
      ensures !(cfg.weeklyEnabled && cfg.weeklyDay >= 0) ==>
        r == Ok(false) && lastWeekly == old(lastWeekly) && weeklyMarker == old(weeklyMarker)
      ensures cfg.weeklyEnabled && cfg.weeklyDay >= 0 ==>
        match WeeklyScheduled(now, cfg.weeklyDay, ParseTime(cfg.weeklyTime))
        case None =>
          r == Err(BadScheduleTime) && lastWeekly == old(lastWeekly) && weeklyMarker == old(weeklyMarker)
        case Some(s) =>
          if Due(Instant(now), s, cfg.weeklyWindowMinutes, old(lastWeekly)) then
            var p := WeeklyPipeline(cfg, run);
            (p.Ok? ==> r == Ok(true) && lastWeekly == Some(finished) && !weeklyMarker)
            && (p.Err? ==> r == Err(p.error) && lastWeekly == old(lastWeekly) && weeklyMarker)
          else
            r == Ok(false) && lastWeekly == old(lastWeekly) && weeklyMarker == old(weeklyMarker)
    {
      if !(cfg.weeklyEnabled && cfg.weeklyDay >= 0) {
        return Ok(false);
      }
      var s := WeeklyScheduled(now, cfg.weeklyDay, ParseTime(cfg.weeklyTime));
      if s.None? {
        return Err(BadScheduleTime);
      }
      if !Due(Instant(now), s.value, cfg.weeklyWindowMinutes, lastWeekly) {
        return Ok(false);
      }
      var w := RunWeekly(run, finished);
      if w.Err? {
        return Err(w.error);
      }
      return Ok(true);
    }

    /** The monthly check of the loop, with `now` read for it. */
    method MonthlyCheck(now: Clock, seatOk: bool, finished: int) returns (r: Result<bool, CycleError>)
      requires ValidClock(now)
      modifies this
      ensures (r, State()) == MonthlyStep(cfg, old(State()), now, seatOk, finished)
      ensures lastCore == old(lastCore) && lastDashboard == old(lastDashboard) && lastOpenOrder == old(lastOpenOrder)
      ensures lastWeekly == old(lastWeekly) && weeklyMarker == old(weeklyMarker)
      ensures !(cfg.monthlyEnabled && cfg.monthlyDay >= 1) ==> r == Ok(false) && lastMonthly == old(lastMonthly)
      ensures cfg.monthlyEnabled && cfg.monthlyDay >= 1 ==>
        match MonthlyScheduled(now, cfg.monthlyDay, ParseTime(cfg.monthlyTime))
        case None =>
          r == Err(BadScheduleTime) && lastMonthly == old(lastMonthly)
        case Some(s) =>
          if Due(Instant(now), Instant(s), cfg.monthlyWindowMinutes, old(lastMonthly)) then
            if cfg.monthlySeatSql == "" then r == Ok(true) && lastMonthly == old(lastMonthly)
            else if seatOk then r == Ok(true) && lastMonthly == Some(finished)
            else r == Err(MonthlyFailed) && lastMonthly == old(lastMonthly)
          else
            r == Ok(false) && lastMonthly == old(lastMonthly)
    {
      if !(cfg.monthlyEnabled && cfg.monthlyDay >= 1) {
        return Ok(false);
      }
      var s := MonthlyScheduled(now, cfg.monthlyDay, ParseTime(cfg.monthlyTime));
      if s.None? {
        return Err(BadScheduleTime);
      }
      if !Due(Instant(now), Instant(s.value), cfg.monthlyWindowMinutes, lastMonthly) {
        return Ok(false);
      }
      var m := RunMonthlySeat(seatOk, finished);
      if m.Err? {
        return Err(m.error);
      }
      return Ok(true);
    }
  }

  /** What one pass of the loop meets: the outcomes of `run_incremental`'s
      parts and the clocks each part reads, the weekly run and the monthly
      seat refresh should they fire, and when each finishes. */
  datatype Pass = Pass(
    ingestOk: bool, nowOpen: int, openOk: bool, nowCore: int, coreOk: bool, nowDash: int, dashOk: bool,
    weeklyNow: Clock, weekly: WeeklyRun, weeklyFinished: int,
    monthlyNow: Clock, seatOk: bool, monthlyFinished: int)

  /** One pass of the `while True` loop on the loop's state: the three parts
      in order, the first error ending the pass. */
  function CycleStep(cfg: Config, s: LoopState, p: Pass): (out: (Result<(), CycleError>, LoopState))
    requires ValidClock(p.weeklyNow) && ValidClock(p.monthlyNow)
    ensures !p.ingestOk ==> out == (Err(IngestFailed), s)
    ensures out.0.Ok? ==> p.ingestOk
    ensures out.1.lastWeekly != s.lastWeekly ==> out.1.lastWeekly == Some(p.weeklyFinished) && !out.1.weeklyMarker
    ensures out.1.lastMonthly != s.lastMonthly ==> out.1.lastMonthly == Some(p.monthlyFinished) && cfg.monthlySeatSql != ""
    ensures var inc := IncrementalStep(cfg, s, p.ingestOk, true, p.nowOpen, p.openOk, p.nowCore, p.coreOk, p.nowDash, p.dashOk);
      inc.0.Err? ==> out == (Err(inc.0.error), inc.1) && out.1.lastWeekly == s.lastWeekly && out.1.lastMonthly == s.lastMonthly
    ensures var inc := IncrementalStep(cfg, s, p.ingestOk, true, p.nowOpen, p.openOk, p.nowCore, p.coreOk, p.nowDash, p.dashOk);
      var wk := WeeklyStep(cfg, inc.1, p.weeklyNow, p.weekly, p.weeklyFinished);
      inc.0.Ok? && wk.0.Err? ==> out == (Err(wk.0.error), wk.1) && out.1.lastMonthly == s.lastMonthly
  {
    var inc := IncrementalStep(cfg, s, p.ingestOk, true, p.nowOpen, p.openOk, p.nowCore, p.coreOk, p.nowDash, p.dashOk);
    if inc.0.Err? then (Err(inc.0.error), inc.1)
    else
      var wk := WeeklyStep(cfg, inc.1, p.weeklyNow, p.weekly, p.weeklyFinished);
      if wk.0.Err? then (Err(wk.0.error), wk.1)
      else
        var mo := MonthlyStep(cfg, wk.1, p.monthlyNow, p.seatOk, p.monthlyFinished);
        if mo.0.Err? then (Err(mo.0.error), mo.1) else (Ok(()), mo.1)
  }

  /** One pass of the `while True` loop: `run_incremental`, then the weekly
      check, then the monthly check. An exception anywhere skips the rest of
      the pass, is logged, and closes the source connection; the loop goes
      on either way. */
  method Cycle(loop: Loop, link: FirebirdLink, p: Pass) returns (r: Result<(), CycleError>)
    requires ValidClock(p.weeklyNow) && ValidClock(p.monthlyNow)
    modifies loop, link
    ensures (r, loop.State()) == CycleStep(loop.cfg, old(loop.State()), p)
    ensures r.Err? ==> link.conn.None? && link.connDsn.None? && link.Valid()
    ensures link.activeDsn == old(link.activeDsn)
  {
    var inc := loop.RunIncremental(p.ingestOk, true, p.nowOpen, p.openOk, p.nowCore, p.coreOk, p.nowDash, p.dashOk);
    if inc.Err? {
      link.CloseFb();
      return Err(inc.error);
    }
    var w := loop.WeeklyCheck(p.weeklyNow, p.weekly, p.weeklyFinished);
    if w.Err? {
      link.CloseFb();
      return Err(w.error);
    }
    var m := loop.MonthlyCheck(p.monthlyNow, p.seatOk, p.monthlyFinished);
    if m.Err? {
      link.CloseFb();
      return Err(m.error);
    }
    return Ok(());
  }
}
