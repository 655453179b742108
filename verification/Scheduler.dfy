/**
  The background analysis scheduler. Steps are taken in lock order: an alert arrives, the run in flight
  completes, or the configuration is reloaded. Times and days are given with each step.
*/
module BackgroundScheduler {
  import opened Seqs
  import opened Compaction
  import opened Configs
  import opened Durations

  datatype Outcome = Answered(cached: bool) | Failed(message: string)

  /** An error with an empty message is recorded as an answer without content. */
  predicate IsError(o: Outcome) {
    o.Failed? && o.message != ""
  }

  predicate IsCached(o: Outcome) {
    o.Answered? && o.cached
  }

  datatype Reason =
    | NoConfig | SchedulerDisabled | AutoAnalyzeDisabled | NotConfigured | NonCritical
    | InFlight | InCooldown | TooSoon | CycleLimit | TokenBudget

  datatype Decision = Start | Skip(reason: Reason)

  /** What a started run takes along: its reservation, its start and the error cooldown of its configuration. */
  datatype Job = Job(startedAt: int, reserved: nat, cooldown: int)

  datatype RunRecord = RunRecord(job: Job, finishedAt: int, outcome: Outcome)

  function Reservation(cfg: AI): (r: nat)
    ensures r >= 1
  {
    if cfg.maxTokens < 1 then 1 else cfg.maxTokens
  }

  /** The checks made before the lock is taken. */
  function Barred(cfg: Option<AI>, critical: bool): Option<Reason> {
    if cfg.None? then Some(NoConfig)
    else if !cfg.value.scheduler.enabled then Some(SchedulerDisabled)
    else if !cfg.value.autoAnalyze then Some(AutoAnalyzeDisabled)
    else if !(cfg.value.enabled && cfg.value.hasKey) then Some(NotConfigured)
    else if !critical then Some(NonCritical)
    else None
  }

  // ---- the tracker ----

  datatype Tracker = Tracker(
    inFlight: bool, lastEventAt: Option<int>, lastStartedAt: Option<int>, lastSkip: Option<Reason>,
    lastError: string, cooldownUntil: Option<int>, cycleStarts: seq<int>, reservedDay: Option<int>,
    reservedToday: int, historyLimit: nat, recentRuns: seq<RunRecord>,
    lastRun: Option<RunRecord>)

  function Limit(cfg: Option<AI>): (n: nat)
    ensures n >= 1
  {
    if cfg.Some? && cfg.value.scheduler.historyLimit >= 1 then cfg.value.scheduler.historyLimit else 1
  }

  function ApplyConfig(b: Tracker, cfg: Option<AI>): Tracker {
    b.(historyLimit := Limit(cfg), recentRuns := LastN(b.recentRuns, Limit(cfg)))
  }

  /** The bookkeeping every admissible alert does under the lock before the decision. */
  function Refresh(b: Tracker, now: int, day: int, cfg: AI): Tracker {
    var b := ApplyConfig(b, Some(cfg));
    var newDay := b.reservedDay != Some(day);
    b.(lastEventAt := Some(now), cycleStarts := Since(b.cycleStarts, now - HOUR),
       reservedDay := Some(day), reservedToday := if newDay then 0 else b.reservedToday)
  }

  function Decide(b: Tracker, now: int, cfg: AI): Decision {
    var s := cfg.scheduler;
    if b.inFlight then Skip(InFlight)
    else if b.cooldownUntil.Some? && now < b.cooldownUntil.value then Skip(InCooldown)
    else if s.minInterval > 0 && b.lastStartedAt.Some? && now - b.lastStartedAt.value < s.minInterval then Skip(TooSoon)
    else if s.maxCyclesPerHour > 0 && |b.cycleStarts| >= s.maxCyclesPerHour then Skip(CycleLimit)
    else if s.maxReservedTokensPerDay > 0
      && b.reservedToday + Reservation(cfg) > s.maxReservedTokensPerDay then Skip(TokenBudget)
    else Start
  }

  function Apply(b: Tracker, now: int, cfg: AI, d: Decision): Tracker {
    match d
    case Skip(reason) => b.(lastSkip := Some(reason))
    case Start => b.(inFlight := true, lastSkip := None, lastStartedAt := Some(now),
                     cycleStarts := b.cycleStarts + [now], reservedToday := b.reservedToday + Reservation(cfg))
  }

  function JobFor(now: int, cfg: AI): Job {
    Job(now, Reservation(cfg), cfg.scheduler.cooldownAfterError)
  }

  function Complete(b: Tracker, job: Job, finishedAt: int, now: int, o: Outcome): Tracker {
    var run := RunRecord(job, finishedAt, o);
    var runs := b.recentRuns + [run];
    b.(inFlight := false,
       reservedToday := if IsCached(o) && b.reservedToday >= job.reserved then b.reservedToday - job.reserved
           else b.reservedToday,
       lastError := if IsError(o) then o.message else "",
       cooldownUntil := if !IsError(o) then None else if job.cooldown > 0 then Some(now + job.cooldown)
           else b.cooldownUntil,
       lastRun := Some(run), recentRuns := if b.historyLimit > 0 then LastN(runs, b.historyLimit) else runs)
  }

  class BackgroundTracker {
    var inFlight: bool
    var lastEventAt: Option<int>
    var lastStartedAt: Option<int>
    var lastSkip: Option<Reason>
    var lastError: string
    var cooldownUntil: Option<int>
    var cycleStarts: seq<int>
    var reservedDay: Option<int>
    var reservedToday: int
    var historyLimit: nat
    var recentRuns: seq<RunRecord>
    var lastRun: Option<RunRecord>

    ghost function View(): Tracker reads this {
      Tracker(inFlight, lastEventAt, lastStartedAt, lastSkip, lastError, cooldownUntil, cycleStarts,
              reservedDay, reservedToday, historyLimit, recentRuns, lastRun)
    }

    constructor ()
      ensures View() == IDLE
    {
      inFlight, lastEventAt, lastStartedAt, lastSkip, lastError := false, None, None, None, "";
      cooldownUntil, cycleStarts, reservedDay, reservedToday, historyLimit, recentRuns := None, [], None, 0, 1, [];
      lastRun := None;
    }

    method ApplySettings(cfg: Option<AI>)
      modifies `historyLimit, `recentRuns
      ensures View() == ApplyConfig(old(View()), cfg)
      ensures historyLimit ==
              if cfg.None? || cfg.value.scheduler.historyLimit < 1 then 1 else cfg.value.scheduler.historyLimit
    {
      var limit := 1;
      if cfg.Some? {
        limit := cfg.value.scheduler.historyLimit;
      }
      if limit < 1 {
        limit := 1;
      }
      historyLimit := limit;
      if |recentRuns| > limit {
        recentRuns := recentRuns[|recentRuns| - limit..];
      }
    }

    method ResetReservedDay(day: int)
      modifies `reservedDay, `reservedToday
      ensures reservedDay == Some(day)
      ensures reservedToday == if old(reservedDay) == Some(day) then old(reservedToday) else 0
    {
      if reservedDay == Some(day) {
        return;
      }
      reservedDay := Some(day);
      reservedToday := 0;
    }

    /** The switch: the first obstacle found is the reason to skip. */
    method Choose(now: int, c: AI, reserved: nat) returns (d: Decision)
      requires reserved == Reservation(c)
      ensures d == Decide(View(), now, c)
    {
      if inFlight {
        d := Skip(InFlight);
      } else if cooldownUntil.Some? && now < cooldownUntil.value {
        d := Skip(InCooldown);
      } else if c.scheduler.minInterval > 0 && lastStartedAt.Some?
          && now - lastStartedAt.value < c.scheduler.minInterval {
        d := Skip(TooSoon);
      } else if c.scheduler.maxCyclesPerHour > 0 && |cycleStarts| >= c.scheduler.maxCyclesPerHour {
        d := Skip(CycleLimit);
      } else if c.scheduler.maxReservedTokensPerDay > 0
        && reservedToday + reserved > c.scheduler.maxReservedTokensPerDay {
        d := Skip(TokenBudget);
      } else {
        d := Start;
      }
    }

    /** The bookkeeping before the decision. */
    method Note(now: int, day: int, c: AI)
      modifies this
      ensures View() == Refresh(old(View()), now, day, c)
    {
      hide Since, LastN;
      ApplySettings(Some(c));
      lastEventAt := Some(now);
      cycleStarts := Compact(cycleStarts, now - HOUR);
      ResetReservedDay(day);
    }

    /** An alert arrives. A job in the result is handed to a new worker. */
    method MaybeSchedule(now: int, day: int, cfg: Option<AI>, critical: bool) returns (job: Option<Job>)
      modifies this
      ensures View() == AlertStep(old(View()), now, day, cfg, critical).0
      ensures job.Some? <==> AlertStep(old(View()), now, day, cfg, critical).1 == Start
      ensures job.Some? ==> cfg.Some? && job.value == JobFor(now, cfg.value)
    {
      var barred := Barred(cfg, critical);
      if barred.Some? {
        lastEventAt := Some(now);
        lastSkip := barred;
        return None;
      }
      var c := cfg.value;
      var reserved := c.maxTokens;
      if reserved < 1 {
        reserved := 1;
      }
      hide Refresh, Decide;
      Note(now, day, c);
      var d := Choose(now, c, reserved);
      if d.Skip? {
        lastSkip := Some(d.reason);
        return None;
      }
      inFlight := true;
      lastSkip := None;
      lastStartedAt := Some(now);
      cycleStarts := cycleStarts + [now];
      reservedToday := reservedToday + reserved;
      job := Some(Job(now, reserved, c.scheduler.cooldownAfterError));
    }

    /** The locked part of a run's completion; `finishedAt` was read before the lock. */
    method Finish(job: Job, finishedAt: int, now: int, o: Outcome)
      modifies this
      ensures View() == Complete(old(View()), job, finishedAt, now, o)
    {
      hide LastN;
      inFlight := false;
      if IsCached(o) && reservedToday >= job.reserved {
        reservedToday := reservedToday - job.reserved;
      }
      if IsError(o) {
        lastError := o.message;
        if job.cooldown > 0 {
          cooldownUntil := Some(now + job.cooldown);
        }
      } else {
        lastError := "";
        cooldownUntil := None;
      }
      Remember(RunRecord(job, finishedAt, o));
    }

    method Remember(run: RunRecord)
      modifies `lastRun, `recentRuns
      ensures lastRun == Some(run)
      ensures var runs := old(recentRuns) + [run];
              recentRuns == if historyLimit > 0 then LastN(runs, historyLimit) else runs
    {
      lastRun := Some(run);
      recentRuns := recentRuns + [run];
      if historyLimit > 0 && |recentRuns| > historyLimit {
        recentRuns := recentRuns[|recentRuns| - historyLimit..];
      }
    }
  }

  function AlertStep(b: Tracker, now: int, day: int, cfg: Option<AI>, critical: bool): (Tracker, Decision) {
    match Barred(cfg, critical)
    case Some(reason) => (b.(lastEventAt := Some(now), lastSkip := Some(reason)), Skip(reason))
    case None =>
      var r := Refresh(b, now, day, cfg.value);
      var d := Decide(r, now, cfg.value);
      (Apply(r, now, cfg.value, d), d)
  }

  // ---- whole runs ----

  datatype Event =
    | Alert(now: int, day: int, cfg: Option<AI>, critical: bool)
    | Done(now: int, day: int, finishedAt: int, outcome: Outcome)
    | Reload(now: int, day: int, cfg: Option<AI>)

  /** The tracker together with the worker that is out, if any. */
  datatype System = System(bg: Tracker, worker: Option<Job>)

  const IDLE: Tracker := Tracker(false, None, None, None, "", None, [], None, 0, 1, [], None)

  /** Done can only come from a worker that is out; without one it does nothing. */
  function Step(s: System, e: Event): System {
    match e
    case Alert(now, day, cfg, critical) =>
      var (b, d) := AlertStep(s.bg, now, day, cfg, critical);
      System(b, if d == Start && cfg.Some? then Some(JobFor(now, cfg.value)) else s.worker)
    case Done(now, _, finishedAt, o) =>
      if s.worker.None? then s else System(Complete(s.bg, s.worker.value, finishedAt, now, o), None)
    case Reload(_, _, cfg) => System(ApplyConfig(s.bg, cfg), s.worker)
  }

  function Run(es: seq<Event>): System {
    if es == [] then System(IDLE, None) else Step(Run(Front(es)), Last(es))
  }

  /** Neither the clock nor the calendar goes back from one step to the next. */
  ghost predicate Ordered(es: seq<Event>) {
    forall i, j :: 0 <= i <= j < |es| ==> es[i].now <= es[j].now && es[i].day <= es[j].day
  }

  // ---- the plain scheduler: nothing but the log of started runs ----

  datatype End = End(at: int, finishedAt: int, outcome: Outcome)

  datatype Entry = Entry(at: int, day: int, cfg: AI, end: Option<End>)

  function Starts(log: seq<Entry>): (r: seq<int>)
    ensures |r| == |log|
  {
    seq(|log|, i requires 0 <= i < |log| => log[i].at)
  }

  function Refunded(x: Entry): bool {
    x.end.Some? && IsCached(x.end.value.outcome)
  }

  /** The tokens reserved by the runs started on a day, except those that turned out to be cached. */
  function Charged(log: seq<Entry>, day: int): nat {
    if log == [] then 0
    else Charged(Front(log), day) + if Last(log).day == day && !Refunded(Last(log)) then Reservation(Last(log).cfg)
        else 0
  }

  /** Until when errors hold back the next start. */
  function CooldownEnd(log: seq<Entry>): Option<int> {
    if log == [] then None
    else if Last(log).end.None? then CooldownEnd(Front(log))
    else
      var End(at, _, o) := Last(log).end.value;
      if !IsError(o) then None
      else if Last(log).cfg.scheduler.cooldownAfterError > 0 then Some(at + Last(log).cfg.scheduler.cooldownAfterError)
      else CooldownEnd(Front(log))
  }

  predicate Busy(log: seq<Entry>) {
    log != [] && Last(log).end.None?
  }

  function PlainDecide(log: seq<Entry>, now: int, day: int, cfg: Option<AI>, critical: bool): Decision {
    match Barred(cfg, critical)
    case Some(reason) => Skip(reason)
    case None =>
      var s := cfg.value.scheduler;
      if Busy(log) then Skip(InFlight)
      else if CooldownEnd(log).Some? && now < CooldownEnd(log).value then Skip(InCooldown)
      else if s.minInterval > 0 && log != [] && now - Last(log).at < s.minInterval then Skip(TooSoon)
      else if s.maxCyclesPerHour > 0
        && CountBetween(Starts(log), now - HOUR, now) >= s.maxCyclesPerHour then Skip(CycleLimit)
      else if s.maxReservedTokensPerDay > 0
        && Charged(log, day) + Reservation(cfg.value) > s.maxReservedTokensPerDay then Skip(TokenBudget)
      else Start
  }

  function PlainStep(log: seq<Entry>, e: Event): seq<Entry> {
    match e
    case Alert(now, day, cfg, critical) =>
      if PlainDecide(log, now, day, cfg, critical) == Start && cfg.Some? then log + [Entry(now, day, cfg.value, None)]
          else log
    case Done(now, _, finishedAt, o) =>
      if Busy(log) then Front(log) + [Last(log).(end := Some(End(now, finishedAt, o)))] else log
    case Reload(_, _, _) => log
  }

  function PlainRun(es: seq<Event>): seq<Entry> {
    if es == [] then [] else PlainStep(PlainRun(Front(es)), Last(es))
  }

  // ---- the tracker is the plain scheduler ----

  /** The log itself: in order, one run at a time. */
  ghost predicate LogOk(log: seq<Entry>, now: int, day: int) {
    && (forall i :: 0 <= i < |log| ==> log[i].at <= now && log[i].day <= day)
    && (forall i :: 0 <= i < |log| - 1 ==> log[i].end.Some?)
    && (forall i :: 0 <= i < |log| && log[i].end.Some? ==> log[i].at <= log[i].end.value.at <= now)
    && (forall i, j :: 0 <= i < j < |log| && log[i].end.Some? ==>
          log[i].end.value.at <= log[j].at && log[i].day <= log[j].day)
  }

  ghost predicate Tracks(s: System, log: seq<Entry>, now: int, day: int) {
    && (s.worker == if Busy(log) then Some(JobFor(Last(log).at, Last(log).cfg)) else None)
    && s.bg.inFlight == Busy(log)
    && s.bg.lastStartedAt == (if log == [] then None else Some(Last(log).at))
    && s.bg.cooldownUntil == CooldownEnd(log)
    && (forall from :: from >= now - HOUR ==> Since(s.bg.cycleStarts, from) == Since(Starts(log), from))
    && (match s.bg.reservedDay
        case None => log == [] && s.bg.reservedToday == 0
        case Some(d) =>
          d <= day && s.bg.reservedToday == Charged(log, d) && forall i :: 0 <= i < |log| ==> log[i].day <= d)
  }

  lemma {:induction false} NothingCharged(log: seq<Entry>, day: int)
    requires forall i :: 0 <= i < |log| ==> log[i].day != day
    ensures Charged(log, day) == 0
  {
    if log != [] {
      NothingCharged(Front(log), day);
    }
  }

  lemma StartsOf(log: seq<Entry>, now: int)
    requires forall i :: 0 <= i < |log| ==> log[i].at <= now
    ensures CountBetween(Starts(log), now - HOUR, now) == |Since(Starts(log), now - HOUR)|
  {
    CountIsSince(Starts(log), now - HOUR, now);
  }

  /** After the bookkeeping the tracker's numbers are the log's, at the new time and day. */
  lemma RefreshTracks(s: System, log: seq<Entry>, t: int, d: int, now: int, day: int, cfg: AI)
    requires LogOk(log, t, d) && Tracks(s, log, t, d) && t <= now && d <= day
    ensures var b := Refresh(s.bg, now, day, cfg);
            && LogOk(log, now, day) && Tracks(System(b, s.worker), log, now, day)
            && b.reservedToday == Charged(log, day) && b.reservedDay == Some(day)
            && |b.cycleStarts| == CountBetween(Starts(log), now - HOUR, now)
            && b.cycleStarts == Since(Starts(log), now - HOUR)
  {
    var b := Refresh(s.bg, now, day, cfg);
    if s.bg.reservedDay != Some(day) {
      NothingCharged(log, day);
    }
    StartsOf(log, now);
    forall from | from >= now - HOUR ensures Since(b.cycleStarts, from) == Since(Starts(log), from) {
      SinceTwice(s.bg.cycleStarts, now - HOUR, from);
    }
  }

  lemma DecideAgrees(s: System, b: Tracker, log: seq<Entry>, now: int, day: int, cfg: AI)
    requires Tracks(System(b, s.worker), log, now, day) && b.reservedToday == Charged(log, day)
    requires |b.cycleStarts| == CountBetween(Starts(log), now - HOUR, now)
    requires Barred(Some(cfg), true).None?
    ensures Decide(b, now, cfg) == PlainDecide(log, now, day, Some(cfg), true)
    ensures Decide(b, now, cfg) == Start ==> !Busy(log)
  {
    hide Since, Charged, CooldownEnd, CountBetween;
  }

  lemma StartLogged(log: seq<Entry>, now: int, day: int, cfg: AI)
    requires LogOk(log, now, day) && !Busy(log)
    ensures LogOk(log + [Entry(now, day, cfg, None)], now, day)
  {
    var log' := log + [Entry(now, day, cfg, None)];
    forall i | 0 <= i < |log'| - 1 ensures log'[i].end.Some? {
      assert log'[i] == log[i];
    }
  }

  lemma StartTracks(b: Tracker, worker: Option<Job>, log: seq<Entry>, now: int, day: int, cfg: AI)
    requires Tracks(System(b, worker), log, now, day) && (forall i :: 0 <= i < |log| ==> log[i].day <= day)
    requires b.reservedDay == Some(day) && !Busy(log)
    ensures Tracks(System(Apply(b, now, cfg, Start), Some(JobFor(now, cfg))),
                   log + [Entry(now, day, cfg, None)], now, day)
  {
    var b', log' := Apply(b, now, cfg, Start), log + [Entry(now, day, cfg, None)];
    assert Front(log') == log && Starts(log') == Starts(log) + [now];
    assert Charged(log', day) == b'.reservedToday && CooldownEnd(log') == CooldownEnd(log);
    hide Since, Starts, Charged, CooldownEnd;
    forall from | from >= now - HOUR
      ensures Since(b'.cycleStarts, from) == Since(Starts(log'), from)
    {
      SinceAppend(b.cycleStarts, now, from);
      SinceAppend(Starts(log), now, from);
    }
  }

  /** An alert that passes the checks before the lock. */
  lemma AdmittedTracks(s: System, log: seq<Entry>, t: int, d: int, now: int, day: int, cfg: AI)
    requires LogOk(log, t, d) && Tracks(s, log, t, d) && t <= now && d <= day && Barred(Some(cfg), true).None?
    ensures AlertStep(s.bg, now, day, Some(cfg), true).1 == PlainDecide(log, now, day, Some(cfg), true)
    ensures var e := Alert(now, day, Some(cfg), true);
            LogOk(PlainStep(log, e), now, day) && Tracks(Step(s, e), PlainStep(log, e), now, day)
  {
    var b := Refresh(s.bg, now, day, cfg);
    RefreshTracks(s, log, t, d, now, day, cfg);
    DecideAgrees(s, b, log, now, day, cfg);
    if Decide(b, now, cfg) == Start {
      StartLogged(log, now, day, cfg);
      StartTracks(b, s.worker, log, now, day, cfg);
    } else {
      SkipTracks(b, s.worker, log, now, day, Decide(b, now, cfg).reason);
    }
    hide Refresh, LogOk, Tracks, Decide, PlainDecide, Barred, JobFor;
  }

  lemma AlertTracks(s: System, log: seq<Entry>, t: int, d: int, e: Event)
    requires LogOk(log, t, d) && Tracks(s, log, t, d) && e.Alert? && t <= e.now && d <= e.day
    ensures AlertStep(s.bg, e.now, e.day, e.cfg, e.critical).1 == PlainDecide(log, e.now, e.day, e.cfg, e.critical)
    ensures LogOk(PlainStep(log, e), e.now, e.day) && Tracks(Step(s, e), PlainStep(log, e), e.now, e.day)
  {
    if Barred(e.cfg, e.critical).None? {
      assert e.critical && e.cfg.Some?;
      AdmittedTracks(s, log, t, d, e.now, e.day, e.cfg.value);
    } else {
      BarredTracks(s, log, t, d, e);
    }
    hide LogOk, Tracks, Step, AlertStep, PlainStep;
  }

  lemma SkipTracks(b: Tracker, worker: Option<Job>, log: seq<Entry>, now: int, day: int, reason: Reason)
    requires Tracks(System(b, worker), log, now, day)
    ensures Tracks(System(b.(lastSkip := Some(reason)), worker), log, now, day)
  {
    hide Since, Charged, CooldownEnd;
  }

  lemma BarredTracks(s: System, log: seq<Entry>, t: int, d: int, e: Event)
    requires LogOk(log, t, d) && Tracks(s, log, t, d) && e.Alert? && t <= e.now && d <= e.day
    requires Barred(e.cfg, e.critical).Some?
    ensures PlainStep(log, e) == log && LogOk(log, e.now, e.day) && Tracks(Step(s, e), log, e.now, e.day)
  {
    hide Since, Charged, CooldownEnd;
  }

  /** The guard on the refund fires exactly for a run of the current day. */
  lemma RefundGuard(s: System, log: seq<Entry>, t: int, d: int)
    requires LogOk(log, t, d) && Tracks(s, log, t, d) && Busy(log)
    ensures s.bg.reservedDay.Some?
    ensures s.bg.reservedToday >= Reservation(Last(log).cfg) <==> s.bg.reservedDay == Some(Last(log).day)
  {
    if s.bg.reservedDay != Some(Last(log).day) {
      NothingCharged(log, s.bg.reservedDay.value);
    }
  }

  lemma DoneTracks(s: System, log: seq<Entry>, t: int, d: int, e: Event)
    requires LogOk(log, t, d) && Tracks(s, log, t, d) && e.Done? && t <= e.now && d <= e.day
    ensures LogOk(PlainStep(log, e), e.now, e.day) && Tracks(Step(s, e), PlainStep(log, e), e.now, e.day)
  {
    if Busy(log) {
      hide LastN, Since;
      RefundGuard(s, log, t, d);
      var last, log' := Last(log), PlainStep(log, e);
      assert Front(log') == Front(log) && Starts(log') == Starts(log);
    }
  }

  /**
    Over any ordered run the tracker behaves as the plain scheduler: its numbers are those of the log of
    started runs. In particular the day's tokens are what the runs started that day reserved and did not
    find cached, even after a rollover with a run in flight.
  */
  lemma {:induction false} TrackerRefinesLog(es: seq<Event>)
    requires Ordered(es) && es != []
    ensures LogOk(PlainRun(es), Last(es).now, Last(es).day)
    ensures Tracks(Run(es), PlainRun(es), Last(es).now, Last(es).day)
  {
    var e := Last(es);
    var log, s := PlainRun(Front(es)), Run(Front(es));
    if Front(es) == [] {
      assert LogOk(log, e.now, e.day) && Tracks(s, log, e.now, e.day);
      StepTracks(s, log, e.now, e.day, e);
    } else {
      TrackerRefinesLog(Front(es));
      var p := Last(Front(es));
      assert p == es[|es|-2];
      StepTracks(s, log, p.now, p.day, e);
    }
  }

  lemma StepTracks(s: System, log: seq<Entry>, t: int, d: int, e: Event)
    requires LogOk(log, t, d) && Tracks(s, log, t, d) && t <= e.now && d <= e.day
    ensures LogOk(PlainStep(log, e), e.now, e.day) && Tracks(Step(s, e), PlainStep(log, e), e.now, e.day)
  {
    match e
    case Alert(_, _, _, _) => AlertTracks(s, log, t, d, e);
    case Done(_, _, _, _) => DoneTracks(s, log, t, d, e);
    case Reload(_, _, _) =>
  }

  /** Every decision is the one the log alone would make. */
  lemma DecisionsMatchLog(es: seq<Event>, e: Event)
    requires Ordered(es + [e]) && e.Alert?
    ensures AlertStep(Run(es).bg, e.now, e.day, e.cfg, e.critical).1
         == PlainDecide(PlainRun(es), e.now, e.day, e.cfg, e.critical)
  {
    assert forall i :: 0 <= i < |es| ==> (es + [e])[i] == es[i];
    assert (es + [e])[|es|] == e;
    if es == [] {
      assert LogOk([], e.now, e.day) && Tracks(Run(es), [], e.now, e.day);
      AlertTracks(Run(es), [], e.now, e.day, e);
    } else {
      TrackerRefinesLog(es);
      AlertTracks(Run(es), PlainRun(es), Last(es).now, Last(es).day, e);
    }
  }

  /** After each trim the tracker's start list is the full start history restricted to the last hour. */
  lemma TrimKeepsLastHour(es: seq<Event>, e: Event)
    requires Ordered(es + [e]) && e.Alert? && e.cfg.Some? && Barred(e.cfg, e.critical).None?
    ensures Refresh(Run(es).bg, e.now, e.day, e.cfg.value).cycleStarts == Since(Starts(PlainRun(es)), e.now - HOUR)
  {
    var t, d := Reaches(es, e);
    RefreshTracks(Run(es), PlainRun(es), t, d, e.now, e.day, e.cfg.value);
  }

  /** The refund guard `reserved today >= reserved` is exactly "the run belongs to the current day". */
  lemma RefundsExactlyCurrentDay(es: seq<Event>, e: Event)
    requires Ordered(es + [e]) && e.Done? && Run(es).worker.Some?
    ensures Busy(PlainRun(es)) && Run(es).bg.reservedDay.Some?
    ensures Run(es).bg.reservedToday >= Run(es).worker.value.reserved
            <==> Run(es).bg.reservedDay == Some(Last(PlainRun(es)).day)
  {
    var t, d := Reaches(es, e);
    RefundGuard(Run(es), PlainRun(es), t, d);
  }

  /** The state before any further step of an ordered run. */
  lemma Reaches(es: seq<Event>, e: Event) returns (t: int, d: int)
    requires Ordered(es + [e])
    ensures LogOk(PlainRun(es), t, d) && Tracks(Run(es), PlainRun(es), t, d) && t <= e.now && d <= e.day
  {
    assert forall i :: 0 <= i < |es| ==> (es + [e])[i] == es[i];
    assert (es + [e])[|es|] == e;
    if es == [] {
      t, d := e.now, e.day;
    } else {
      TrackerRefinesLog(es);
      t, d := Last(es).now, Last(es).day;
      assert es[|es|-1] == (es + [e])[|es|-1];
    }
  }

  // ---- safety of every run ----

  /** If x ended in an error, `at` is not before the end of its cooldown. */
  ghost predicate HeldBack(x: Entry, at: int) {
    x.end.Some? && IsError(x.end.value.outcome) && x.cfg.scheduler.cooldownAfterError > 0 ==>
      at >= x.end.value.at + x.cfg.scheduler.cooldownAfterError
  }

  /** The newest start keeps the limits in force when it was made, against everything before it. */
  ghost predicate LastWithinLimits(log: seq<Entry>)
    requires log != []
  {
    var x, before := Last(log), Front(log);
    var s := x.cfg.scheduler;
    && (s.minInterval > 0 && before != [] ==> x.at - Last(before).at >= s.minInterval)
    && (forall y :: y in before ==> HeldBack(y, x.at))
    && (s.maxCyclesPerHour > 0 ==> CountBetween(Starts(log), x.at - HOUR, x.at) <= s.maxCyclesPerHour)
    && (s.maxReservedTokensPerDay > 0 ==> Charged(log, x.day) <= s.maxReservedTokensPerDay)
  }

  /** Every start does. */
  ghost predicate WithinLimits(log: seq<Entry>) {
    log == [] || (LastWithinLimits(log) && WithinLimits(Front(log)))
  }

  lemma StartWithinLimits(log: seq<Entry>, now: int, day: int, cfg: AI)
    requires LogOk(log, now, day) && WithinLimits(log)
    requires PlainDecide(log, now, day, Some(cfg), true) == Start
    ensures WithinLimits(log + [Entry(now, day, cfg, None)])
  {
    var log' := log + [Entry(now, day, cfg, None)];
    assert Front(log') == log && Starts(log') == Starts(log) + [now];
    assert Front(Starts(log')) == Starts(log);
    forall y | y in log ensures HeldBack(y, now) {
      if y != Last(log) {
        assert y in Front(log);
        assert HeldBack(y, Last(log).at) && log[|log|-1].at <= now;
      }
    }
    hide LogOk, CountBetween, CooldownEnd, HeldBack, Starts;
  }

  lemma DoneWithinLimits(log: seq<Entry>, end: End)
    requires WithinLimits(log) && Busy(log)
    ensures WithinLimits(Front(log) + [Last(log).(end := Some(end))])
  {
    var x := Last(log).(end := Some(end));
    var log' := Front(log) + [x];
    assert Starts(log') == Starts(log) && Front(log') == Front(log);
    hide CountBetween, HeldBack;
  }

  /**
    Over every ordered run: runs never overlap, each start respects the minimum interval, the cooldown of
    every earlier error, the hourly limit and the daily budget in force at that start.
  */
  lemma {:induction false} EveryRunIsSafe(es: seq<Event>)
    requires Ordered(es)
    ensures WithinLimits(PlainRun(es))
    ensures var log := PlainRun(es);
            forall i, j :: 0 <= i < j < |log| ==> log[i].end.Some? && log[i].end.value.at <= log[j].at
  {
    if es != [] {
      var e, log := Last(es), PlainRun(Front(es));
      EveryRunIsSafe(Front(es));
      assert es == Front(es) + [e];
      var t, d := Reaches(Front(es), e);
      SafeStep(log, e, t, d);
      hide WithinLimits, LogOk, Tracks, PlainStep;
    }
    OneAtATime(es);
  }

  lemma SafeStep(log: seq<Entry>, e: Event, t: int, d: int)
    requires WithinLimits(log) && LogOk(log, t, d) && t <= e.now && d <= e.day
    ensures WithinLimits(PlainStep(log, e))
  {
    LaterLogOk(log, t, d, e.now, e.day);
    hide WithinLimits, LogOk;
    match e
    case Alert(now, day, cfg, critical) =>
      if PlainDecide(log, now, day, cfg, critical) == Start {
        StartWithinLimits(log, now, day, cfg.value);
      }
    case Done(now, _, finishedAt, o) =>
      if Busy(log) {
        DoneWithinLimits(log, End(now, finishedAt, o));
      }
    case Reload(_, _, _) =>
  }

  lemma LaterLogOk(log: seq<Entry>, t: int, d: int, now: int, day: int)
    requires LogOk(log, t, d) && t <= now && d <= day
    ensures LogOk(log, now, day)
  {
  }

  lemma OneAtATime(es: seq<Event>)
    requires Ordered(es)
    ensures var log := PlainRun(es);
            forall i, j :: 0 <= i < j < |log| ==> log[i].end.Some? && log[i].end.value.at <= log[j].at
  {
    if es != [] {
      TrackerRefinesLog(es);
    }
  }

  // ---- under one configuration ----

  lemma {:induction false} EntriesUse(es: seq<Event>, m: int, cap: int)
    requires forall i :: 0 <= i < |es| && es[i].Alert? && es[i].cfg.Some? ==>
               es[i].cfg.value.scheduler.maxCyclesPerHour == m
               && es[i].cfg.value.scheduler.maxReservedTokensPerDay == cap
    ensures forall x :: x in PlainRun(es) ==>
              x.cfg.scheduler.maxCyclesPerHour == m && x.cfg.scheduler.maxReservedTokensPerDay == cap
  {
    if es != [] {
      EntriesUse(Front(es), m, cap);
      var log := PlainRun(Front(es));
      assert log != [] ==> Last(log) in log;
      assert forall x :: log != [] && x in Front(log) ==> x in log;
      hide PlainDecide;
    }
  }

  lemma {:induction false} EveryWindow(log: seq<Entry>, m: int, t: int)
    requires WithinLimits(log) && m > 0 && forall x :: x in log ==> x.cfg.scheduler.maxCyclesPerHour == m
    requires NonDecreasing(Starts(log))
    ensures CountBetween(Starts(log), t, t + HOUR) <= m
  {
    if log != [] {
      var s, at := Starts(log), Last(log).at;
      assert Front(s) == Starts(Front(log)) && Last(s) == at;
      assert Last(log) in log && forall x :: x in Front(log) ==> x in log;
      EveryWindow(Front(log), m, t);
      if t <= at <= t + HOUR {
        assert CountBetween(s, at - HOUR, at) <= m;
        WindowEndsAtLast(s, at, t);
      }
    }
  }

  lemma WindowEndsAtLast(s: seq<int>, at: int, t: int)
    requires NonDecreasing(s) && s != [] && Last(s) == at && t <= at <= t + HOUR
    ensures CountBetween(s, t, t + HOUR) <= CountBetween(s, at - HOUR, at)
  {
    CountNarrower(s, t, t + HOUR, at - HOUR, t + HOUR);
    CountIsSince(s, at - HOUR, t + HOUR);
    CountIsSince(s, at - HOUR, at);
  }

  lemma {:induction false} EveryDay(log: seq<Entry>, cap: int, day: int)
    requires WithinLimits(log) && cap > 0 && forall x :: x in log ==> x.cfg.scheduler.maxReservedTokensPerDay == cap
    ensures Charged(log, day) <= cap
  {
    if log != [] {
      assert Last(log) in log && forall x :: x in Front(log) ==> x in log;
      EveryDay(Front(log), cap, day);
      hide CountBetween, HeldBack;
    }
  }

  /** With the limits fixed, every closed hour holds at most m starts and every day is charged at most cap. */
  lemma HourlyAndDailyLimits(es: seq<Event>, m: int, cap: int, t: int, day: int)
    requires Ordered(es) && m > 0 && cap > 0
    requires forall i :: 0 <= i < |es| && es[i].Alert? && es[i].cfg.Some? ==>
               es[i].cfg.value.scheduler.maxCyclesPerHour == m
               && es[i].cfg.value.scheduler.maxReservedTokensPerDay == cap
    ensures CountBetween(Starts(PlainRun(es)), t, t + HOUR) <= m
    ensures Charged(PlainRun(es), day) <= cap
  {
    hide PlainRun, NonDecreasing, Starts, WithinLimits, Ordered, CountBetween, Charged;
    EveryRunIsSafe(es);
    EntriesUse(es, m, cap);
    StartsInOrder(es);
    EveryWindow(PlainRun(es), m, t);
    EveryDay(PlainRun(es), cap, day);
  }

  lemma StartsInOrder(es: seq<Event>)
    requires Ordered(es)
    ensures NonDecreasing(Starts(PlainRun(es)))
  {
    hide PlainStep, Tracks, Charged, CooldownEnd, Since;
    if es != [] {
      var log := PlainRun(es);
      TrackerRefinesLog(es);
      forall i, j | 0 <= i < j < |log| ensures log[i].at <= log[j].at {
        assert log[i].end.Some?;
      }
    }
  }

  /**
    No wedge: under a validated configuration an admissible critical alert is started whenever nothing is
    in flight, cooldown and minimum interval are over, the last start is more than an hour old and the day is new.
  */
  lemma NeverWedged(es: seq<Event>, e: Event)
    requires Ordered(es + [e]) && e.Alert? && e.cfg.Some? && Clamped(e.cfg.value) && e.critical
    requires e.cfg.value.scheduler.enabled && e.cfg.value.autoAnalyze && e.cfg.value.enabled && e.cfg.value.hasKey
    requires var b := Run(es).bg;
             && !b.inFlight
             && (b.cooldownUntil.Some? ==> e.now >= b.cooldownUntil.value)
             && (b.lastStartedAt.Some? ==> e.now - b.lastStartedAt.value >= e.cfg.value.scheduler.minInterval)
             && (b.lastStartedAt.Some? ==> e.now - b.lastStartedAt.value > HOUR)
             && b.reservedDay != Some(e.day)
    ensures AlertStep(Run(es).bg, e.now, e.day, e.cfg, e.critical).1 == Start
    ensures Step(Run(es), e).worker == Some(JobFor(e.now, e.cfg.value))
  {
    var t, d := Reaches(es, e);
    RefreshedWhenIdle(Run(es), PlainRun(es), t, d, e.now, e.day, e.cfg.value);
    IdleStarts(Refresh(Run(es).bg, e.now, e.day, e.cfg.value), e.now, e.cfg.value);
    hide Run, PlainRun, LogOk, Tracks, Since, Decide;
  }

  lemma RefreshedWhenIdle(s: System, log: seq<Entry>, t: int, d: int, now: int, day: int, cfg: AI)
    requires LogOk(log, t, d) && Tracks(s, log, t, d) && t <= now && d <= day
    requires s.bg.lastStartedAt.Some? ==> now - s.bg.lastStartedAt.value > HOUR
    requires s.bg.reservedDay != Some(day)
    ensures var b := Refresh(s.bg, now, day, cfg); b.cycleStarts == [] && b.reservedToday == 0
  {
    RefreshTracks(s, log, t, d, now, day, cfg);
    NoneRecent(log, t, d, now);
    hide Since, Charged, CooldownEnd, CountBetween, Starts, LogOk;
  }

  lemma IdleStarts(b: Tracker, now: int, cfg: AI)
    requires Clamped(cfg) && !b.inFlight && b.cycleStarts == [] && b.reservedToday == 0
    requires b.cooldownUntil.Some? ==> now >= b.cooldownUntil.value
    requires b.lastStartedAt.Some? ==> now - b.lastStartedAt.value >= cfg.scheduler.minInterval
    ensures Decide(b, now, cfg) == Start
  {
  }

  lemma NoneRecent(log: seq<Entry>, t: int, d: int, now: int)
    requires LogOk(log, t, d) && (log != [] ==> now - Last(log).at > HOUR)
    ensures Since(Starts(log), now - HOUR) == []
  {
    forall x | x in Starts(log) ensures x < now - HOUR {
      var i :| 0 <= i < |log| && Starts(log)[i] == x;
      assert i < |log| - 1 ==> log[i].end.Some? && log[i].end.value.at <= log[|log|-1].at;
    }
    SinceNone(Starts(log), now - HOUR);
  }

  // ---- the run history shown to the user ----

  function Completed(log: seq<Entry>): seq<RunRecord> {
    if log == [] then []
    else if Last(log).end.None? then Completed(Front(log))
    else Completed(Front(log))
         + [RunRecord(JobFor(Last(log).at, Last(log).cfg), Last(log).end.value.finishedAt, Last(log).end.value.outcome)]
  }

  function Min(a: nat, b: nat): nat {
    if a <= b then a else b
  }

  /** The history limit in force after an event; n was before it. */
  function NewLimit(n: nat, e: Event): (n': nat)
    ensures n >= 1 ==> n' >= 1
  {
    match e
    case Alert(_, _, cfg, critical) => if Barred(cfg, critical).None? then Limit(cfg) else n
    case Done(_, _, _, _) => n
    case Reload(_, _, cfg) => Limit(cfg)
  }

  /** How many runs are shown after an event: one more for a run that ends, never more than the limit. */
  function NewKept(kept: nat, limit: nat, busy: bool, e: Event): nat {
    if !e.Done? then Min(kept, limit) else if busy then Min(kept + 1, limit) else kept
  }

  /** The limit of the newest reload or admitted alert. */
  function LimitAfter(es: seq<Event>): (n: nat)
    ensures n >= 1
  {
    if es == [] then 1 else NewLimit(LimitAfter(Front(es)), Last(es))
  }

  /** How many completed runs are still shown after a run of events. */
  function KeptAfter(es: seq<Event>): nat {
    if es == [] then 0
    else NewKept(KeptAfter(Front(es)), LimitAfter(es), Busy(PlainRun(Front(es))), Last(es))
  }

  lemma {:induction false} KeptWithinBounds(es: seq<Event>)
    ensures KeptAfter(es) <= |Completed(PlainRun(es))| && KeptAfter(es) <= LimitAfter(es)
  {
    if es != [] {
      KeptWithinBounds(Front(es));
      CompletedStep(PlainRun(Front(es)), Last(es));
      hide Completed, PlainStep, Barred, Limit, Busy;
    }
  }

  /** The recent runs are exactly the newest completed runs, as many as the limits on the way have left. */
  lemma {:induction false} RecentRunsAreNewest(es: seq<Event>)
    requires Ordered(es)
    ensures KeptAfter(es) <= |Completed(PlainRun(es))| && KeptAfter(es) <= LimitAfter(es)
    ensures Run(es).bg.historyLimit == LimitAfter(es)
    ensures Run(es).bg.recentRuns == LastN(Completed(PlainRun(es)), KeptAfter(es))
  {
    KeptWithinBounds(es);
    if es != [] {
      hide Completed, PlainStep, LogOk, Tracks, Step, LastN, Busy, JobFor, NewLimit, NewKept;
      var pre, e := Front(es), Last(es);
      RecentRunsAreNewest(pre);
      assert es == pre + [e];
      var t, d := Reaches(pre, e);
      CompletedStep(PlainRun(pre), e);
      WorkerIsLast(Run(pre), PlainRun(pre), t, d);
      assert Run(es) == Step(Run(pre), e) && PlainRun(es) == PlainStep(PlainRun(pre), e);
      assert LimitAfter(es) == NewLimit(LimitAfter(pre), e);
      assert KeptAfter(es) == NewKept(KeptAfter(pre), LimitAfter(es), Busy(PlainRun(pre)), e);
      hide Ordered, Run, PlainRun, KeptAfter, LimitAfter;
      NewestStep(Run(pre), PlainRun(pre), e, KeptAfter(pre));
    }
  }

  lemma CutTwice<T>(s: seq<T>, k: nat, n: nat)
    requires k <= |s|
    ensures LastN(LastN(s, k), n) == LastN(s, Min(k, n))
  {
  }

  lemma OneMoreKept<T>(s: seq<T>, x: T, k: nat, n: nat)
    requires k <= |s|
    ensures LastN(LastN(s, k) + [x], n) == LastN(s + [x], Min(k + 1, n))
  {
  }

  lemma WorkerIsLast(s: System, log: seq<Entry>, t: int, d: int)
    requires Tracks(s, log, t, d)
    ensures s.worker == if Busy(log) then Some(JobFor(Last(log).at, Last(log).cfg)) else None
  {
  }

  lemma NewestStep(s: System, log: seq<Entry>, e: Event, kept: nat)
    requires kept <= |Completed(log)| && 1 <= s.bg.historyLimit && kept <= s.bg.historyLimit
    requires s.bg.recentRuns == LastN(Completed(log), kept)
    requires s.worker == if Busy(log) then Some(JobFor(Last(log).at, Last(log).cfg)) else None
    requires Completed(PlainStep(log, e)) == Completed(log) +
              if e.Done? && Busy(log) then [RunRecord(JobFor(Last(log).at, Last(log).cfg), e.finishedAt, e.outcome)]
                  else []
    ensures var b := Step(s, e).bg;
            && b.historyLimit == NewLimit(s.bg.historyLimit, e)
            && b.recentRuns == LastN(Completed(PlainStep(log, e)), NewKept(kept, b.historyLimit, Busy(log), e))
  {
    hide Since, PlainStep, Completed, Decide, LastN;
    var done := Completed(log);
    assert done + [] == done;
    if e.Done? {
      if Busy(log) {
        OneMoreKept(done, RunRecord(s.worker.value, e.finishedAt, e.outcome), kept, s.bg.historyLimit);
      }
    } else {
      CutTwice(done, kept, Limit(e.cfg));
    }
  }

  /** Every reload and every admitted alert carries the same limit. */
  ghost predicate OneLimit(es: seq<Event>, n: nat) {
    forall i :: 0 <= i < |es| ==> CarriesLimit(es[i], n)
  }

  predicate CarriesLimit(e: Event, n: nat) {
    match e
    case Alert(_, _, cfg, critical) => Barred(cfg, critical).None? ==> Limit(cfg) == n
    case Done(_, _, _, _) => true
    case Reload(_, _, cfg) => Limit(cfg) == n
  }

  /** Under one limit n the history is the last n completed runs. */
  lemma {:induction false} LastRunsUnderOneLimit(es: seq<Event>, n: nat)
    requires Ordered(es) && OneLimit(es, n)
    ensures Run(es).bg.recentRuns == LastN(Completed(PlainRun(es)), n)
  {
    RecentRunsAreNewest(es);
    KeptUnderOneLimit(es, n);
    hide Run, PlainRun, Completed, KeptAfter, LimitAfter, OneLimit;
  }

  lemma {:induction false} KeptUnderOneLimit(es: seq<Event>, n: nat)
    requires OneLimit(es, n)
    ensures PlainRun(es) != [] ==> LimitAfter(es) == n
    ensures KeptAfter(es) == Min(|Completed(PlainRun(es))|, n)
  {
    if es != [] {
      var pre, e := Front(es), Last(es);
      assert OneLimit(pre, n) && CarriesLimit(e, n);
      KeptUnderOneLimit(pre, n);
      CompletedStep(PlainRun(pre), e);
      assert PlainRun(es) == PlainStep(PlainRun(pre), e);
      hide OneLimit;
      if PlainRun(pre) == [] {
        assert Completed(PlainRun(pre)) == [] && KeptAfter(pre) == 0;
      }
      hide Completed;
    }
  }

  lemma CompletedStep(log: seq<Entry>, e: Event)
    ensures Completed(PlainStep(log, e)) == Completed(log) +
              if e.Done? && Busy(log) then [RunRecord(JobFor(Last(log).at, Last(log).cfg), e.finishedAt, e.outcome)]
                  else []
  {
    hide PlainDecide;
    match e
    case Alert(now, day, cfg, critical) =>
      if PlainDecide(log, now, day, cfg, critical) == Start && cfg.Some? {
        assert Front(log + [Entry(now, day, cfg.value, None)]) == log;
      }
    case Done(now, _, finishedAt, o) =>
      if Busy(log) {
        assert Front(Front(log) + [Last(log).(end := Some(End(now, finishedAt, o)))]) == Front(log);
      }
    case Reload(_, _, _) =>
  }

  // ---- the status shown to the user ----

  /** Where the newest alert of a run stands. */
  function NewestAlert(es: seq<Event>): (n: Option<nat>)
    ensures n.Some? ==> n.value < |es| && es[n.value].Alert?
  {
    if es == [] then None else if Last(es).Alert? then Some(|es| - 1) else NewestAlert(Front(es))
  }

  function SkipOf(d: Decision): Option<Reason> {
    match d
    case Start => None
    case Skip(reason) => Some(reason)
  }

  /**
    The status fields are those of the newest alert, decided from the log before it, and of the newest
    completed run.
  */
  ghost predicate ShowsStatus(b: Tracker, es: seq<Event>) {
    && (match NewestAlert(es)
        case None => b.lastEventAt == None && b.lastSkip == None
        case Some(n) =>
          var e := es[n];
          && b.lastEventAt == Some(e.now)
          && b.lastSkip == SkipOf(PlainDecide(PlainRun(es[..n]), e.now, e.day, e.cfg, e.critical)))
    && ShowsLastRun(b, Completed(PlainRun(es)))
  }

  ghost predicate ShowsLastRun(b: Tracker, done: seq<RunRecord>) {
    && b.lastRun == (if done == [] then None else Some(Last(done)))
    && b.lastError == (if done != [] && IsError(Last(done).outcome) then Last(done).outcome.message else "")
  }

  lemma {:induction false} StatusFollowsRun(es: seq<Event>)
    requires Ordered(es)
    ensures ShowsStatus(Run(es).bg, es)
  {
    if es != [] {
      var pre, e := Front(es), Last(es);
      var log, s := PlainRun(pre), Run(pre);
      assert es == pre + [e];
      StatusFollowsRun(pre);
      var t, d := Reaches(pre, e);
      WorkerIsLast(s, log, t, d);
      CompletedStep(log, e);
      if e.Alert? {
        DecisionsMatchLog(pre, e);
      }
      AlertStatus(s.bg, e);
      StatusStep(s, log, e);
      hide ShowsLastRun, Run, PlainRun, LogOk, Tracks, Busy, Completed, PlainStep, PlainDecide, AlertStep;
      assert Front(es) == pre && PlainRun(es) == PlainStep(log, e);
      NewestAlertStep(pre, e);
    }
  }

  lemma NewestAlertStep(pre: seq<Event>, e: Event)
    ensures NewestAlert(pre + [e]) == if e.Alert? then Some(|pre|) else NewestAlert(pre)
    ensures (pre + [e])[..|pre|] == pre
    ensures NewestAlert(pre).Some? ==>
              var n := NewestAlert(pre).value; (pre + [e])[..n] == pre[..n] && (pre + [e])[n] == pre[n]
  {
    assert Front(pre + [e]) == pre;
  }

  lemma AlertStatus(b: Tracker, e: Event)
    ensures e.Alert? ==>
              var (b', d) := AlertStep(b, e.now, e.day, e.cfg, e.critical);
              && b'.lastEventAt == Some(e.now) && b'.lastSkip == SkipOf(d)
              && b'.lastError == b.lastError && b'.lastRun == b.lastRun
  {
    hide Decide, Since, LastN;
  }

  lemma StatusStep(s: System, log: seq<Entry>, e: Event)
    requires s.worker == if Busy(log) then Some(JobFor(Last(log).at, Last(log).cfg)) else None
    requires Completed(PlainStep(log, e)) == Completed(log) +
              if e.Done? && Busy(log) then [RunRecord(JobFor(Last(log).at, Last(log).cfg), e.finishedAt, e.outcome)]
                  else []
    requires ShowsLastRun(s.bg, Completed(log))
    ensures ShowsLastRun(Step(s, e).bg, Completed(PlainStep(log, e)))
    ensures !e.Alert? ==> Step(s, e).bg.lastEventAt == s.bg.lastEventAt && Step(s, e).bg.lastSkip == s.bg.lastSkip
  {
    AlertStatus(s.bg, e);
    hide Completed, PlainStep, AlertStep, LastN;
    assert Completed(log) + [] == Completed(log);
  }

  // ---- decisions on the fields of the configuration and the log ----

  /** Automatic analysis is switched on and can reach the service. */
  predicate SwitchedOn(cfg: AI) {
    cfg.scheduler.enabled && cfg.autoAnalyze && cfg.enabled && cfg.hasKey
  }

  /** Before the lock the reason to skip is the first of five conditions that fails, and nothing starts then. */
  lemma ReasonBeforeLock(b: Tracker, now: int, day: int, cfg: Option<AI>, critical: bool)
    ensures var d := AlertStep(b, now, day, cfg, critical).1;
            && (d == Skip(NoConfig) <==> cfg.None?)
            && (d == Skip(SchedulerDisabled) <==> cfg.Some? && !cfg.value.scheduler.enabled)
            && (d == Skip(AutoAnalyzeDisabled) <==>
                  cfg.Some? && cfg.value.scheduler.enabled && !cfg.value.autoAnalyze)
            && (d == Skip(NotConfigured) <==>
                  cfg.Some? && cfg.value.scheduler.enabled && cfg.value.autoAnalyze
                  && !(cfg.value.enabled && cfg.value.hasKey))
            && (d == Skip(NonCritical) <==> cfg.Some? && SwitchedOn(cfg.value) && !critical)
            && (d == Start ==> cfg.Some? && SwitchedOn(cfg.value) && critical)
  {
    hide Refresh;
  }

  /** A failed run still holds back: its cooldown lasts, and no later run succeeded or set another one. */
  ghost predicate Holding(log: seq<Entry>, i: nat, now: int) {
    && i < |log| && log[i].end.Some?
    && log[i].end.value.outcome.Failed? && log[i].end.value.outcome.message != ""
    && log[i].cfg.scheduler.cooldownAfterError > 0
    && now < log[i].end.value.at + log[i].cfg.scheduler.cooldownAfterError
    && forall j :: i < j < |log| && log[j].end.Some? ==> Harmless(log[j])
  }

  /** A failure without a cooldown of its own leaves an earlier one in force. */
  predicate Harmless(x: Entry)
    requires x.end.Some?
  {
    x.end.value.outcome.Failed? && x.end.value.outcome.message != "" && x.cfg.scheduler.cooldownAfterError <= 0
  }

  lemma {:induction false} CooldownIsHeld(log: seq<Entry>, now: int)
    ensures (CooldownEnd(log).Some? && now < CooldownEnd(log).value) <==> exists i: nat :: Holding(log, i, now)
  {
    if log != [] {
      var pre, n := Front(log), |log| - 1;
      CooldownIsHeld(pre, now);
      assert forall i :: 0 <= i < n ==> pre[i] == log[i];
      forall i: nat | i < n
        ensures Holding(log, i, now) <==> Holding(pre, i, now) && (log[n].end.Some? ==> Harmless(log[n]))
      {
      }
      assert forall i: nat | Holding(log, i, now) :: i <= n;
      assert forall i: nat | Holding(pre, i, now) :: i < n;
      if log[n].end.Some? && !Harmless(log[n]) {
        assert Holding(log, n, now) <==> CooldownEnd(log).Some? && now < CooldownEnd(log).value;
      } else {
        assert !Holding(log, n, now);
        if i: nat :| Holding(pre, i, now) {
          assert Holding(log, i, now);
        }
      }
    }
  }

  /** What a run of this configuration reserves: its token limit, at least one. */
  function Price(cfg: AI): int {
    if cfg.maxTokens < 1 then 1 else cfg.maxTokens
  }

  /**
    Over every ordered run, an admissible critical alert is decided by the log of started runs alone: it is
    skipped for the first of five obstacles, in this order, and started if and only if there is none.
  */
  lemma ReasonUnderLock(es: seq<Event>, e: Event)
    requires Ordered(es + [e]) && e.Alert? && e.cfg.Some? && SwitchedOn(e.cfg.value) && e.critical
    ensures var d := AlertStep(Run(es).bg, e.now, e.day, e.cfg, e.critical).1;
            var log, s := PlainRun(es), e.cfg.value.scheduler;
            var out := log != [] && Last(log).end.None?;
            var cooling := exists i: nat :: Holding(log, i, e.now);
            var soon := s.minInterval > 0 && log != [] && e.now - Last(log).at < s.minInterval;
            var many := s.maxCyclesPerHour > 0
                        && CountBetween(Starts(log), e.now - HOUR, e.now) >= s.maxCyclesPerHour;
            var dear := s.maxReservedTokensPerDay > 0
                        && Charged(log, e.day) + Price(e.cfg.value) > s.maxReservedTokensPerDay;
            && (d == Skip(InFlight) <==> out)
            && (d == Skip(InCooldown) <==> !out && cooling)
            && (d == Skip(TooSoon) <==> !out && !cooling && soon)
            && (d == Skip(CycleLimit) <==> !out && !cooling && !soon && many)
            && (d == Skip(TokenBudget) <==> !out && !cooling && !soon && !many && dear)
            && (d == Start <==> !out && !cooling && !soon && !many && !dear)
  {
    DecisionsMatchLog(es, e);
    CooldownIsHeld(PlainRun(es), e.now);
    hide Run, PlainRun, AlertStep, CooldownEnd, Charged, CountBetween, Starts, Holding, Ordered;
  }

  /** The day's charge is the sum of the token limits of its runs, leaving out those answered from the cache. */
  lemma {:induction false} ChargedAdds(log: seq<Entry>, x: Entry, day: int)
    ensures var free := x.end.Some? && x.end.value.outcome == Answered(true);
            Charged(log + [x], day) == Charged(log, day) + if x.day == day && !free then Price(x.cfg) else 0
  {
    assert Front(log + [x]) == log;
  }

  /** The alert that started a run. */
  ghost predicate StartedBy(es: seq<Event>, i: nat, x: Entry) {
    && i < |es| && es[i].Alert? && es[i].critical
    && es[i].cfg == Some(x.cfg) && es[i].now == x.at && es[i].day == x.day
    && SwitchedOn(x.cfg)
  }

  /** Every run of the log was started by a critical alert under a configuration that is switched on. */
  lemma {:induction false} EveryStartHasItsAlert(es: seq<Event>, k: nat) returns (i: nat)
    requires k < |PlainRun(es)|
    ensures StartedBy(es, i, PlainRun(es)[k])
  {
    hide CooldownEnd, Charged, CountBetween, Starts;
    var pre, e := Front(es), Last(es);
    if k < |PlainRun(pre)| {
      i := EveryStartHasItsAlert(pre, k);
    } else {
      i := |es| - 1;
    }
  }
}
