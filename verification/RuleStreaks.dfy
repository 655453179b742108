/** What the rules detector does to one (rule, process) pair over a whole run of ticks. */
module RuleStreaks {
  import opened Seqs
  import opened Keys
  import opened Processes
  import opened RuleActions
  import opened Durations

  datatype Moment = Moment(now: int, env: Env, procs: seq<ProcessInfo>)

  /** The detector's states after a run under a fixed rule list. */
  function RunStates(rules: seq<Rule>, run: seq<Moment>): map<string, RuleState> {
    if run == [] then map[]
    else Tick(Last(run).env, RunStates(rules, Front(run)), rules, Last(run).procs, Last(run).now).0
  }

  /** The effects of the newest tick. */
  function LastEffects(rules: seq<Rule>, run: seq<Moment>): seq<Effect>
    requires run != []
  {
    Tick(Last(run).env, RunStates(rules, Front(run)), rules, Last(run).procs, Last(run).now).1
  }

  ghost predicate WellFormed(rules: seq<Rule>, run: seq<Moment>) {
    && DistinctNames(rules)
    && (forall i :: 0 <= i < |run| ==> Distinct(run[i].procs))
    && (forall i, j :: 0 <= i <= j < |run| ==> run[i].now <= run[j].now)
  }

  // ---- the plain account of a pair, told from the ticks alone ----

  predicate IsHit(m: Moment, r: Rule, pid: PID) {
    MatchOf(m.env, r, m.procs, pid) == Hit
  }

  /** The tick the current unbroken run of hits began with; |run| when the newest tick is no hit. */
  function StreakStart(run: seq<Moment>, r: Rule, pid: PID): nat {
    if run == [] || !IsHit(Last(run), r, pid) then |run|
    else if StreakStart(Front(run), r, pid) == |run| - 1 then |run| - 1
    else StreakStart(Front(run), r, pid)
  }

  lemma {:induction false} StreakIsUnbroken(run: seq<Moment>, r: Rule, pid: PID)
    ensures var s := StreakStart(run, r, pid);
            && s <= |run|
            && (s == |run| <==> run == [] || !IsHit(Last(run), r, pid))
            && (forall j :: s <= j < |run| ==> IsHit(run[j], r, pid))
            && (s > 0 ==> s == |run| || !IsHit(run[s-1], r, pid))
  {
    if run != [] && IsHit(Last(run), r, pid) {
      StreakIsUnbroken(Front(run), r, pid);
      assert forall j :: 0 <= j < |run| - 1 ==> Front(run)[j] == run[j];
      if Front(run) != [] && StreakStart(Front(run), r, pid) == |run| - 1 {
        assert !IsHit(Last(Front(run)), r, pid);
        assert Last(Front(run)) == run[|run|-2];
      }
    }
  }

  /** Did the newest tick act on the pair, and did the action succeed? */
  predicate Acts(rules: seq<Rule>, run: seq<Moment>, r: Rule, pid: PID) {
    run != [] && exists k, ok :: Attempt(k, r.name, pid, ok) in LastEffects(rules, run)
  }

  predicate Succeeds(rules: seq<Rule>, run: seq<Moment>, r: Rule, pid: PID) {
    run != [] && exists k :: Attempt(k, r.name, pid, true) in LastEffects(rules, run)
  }

  /** When the pair last acted with success inside the current streak. */
  function LastSuccess(rules: seq<Rule>, run: seq<Moment>, r: Rule, pid: PID): Option<int> {
    if run == [] || !IsHit(Last(run), r, pid) then None
    else if Succeeds(rules, run, r, pid) then Some(Last(run).now)
    else LastSuccess(rules, Front(run), r, pid)
  }

  /** The pair is allowed to act on the newest tick. */
  predicate MayAct(rules: seq<Rule>, run: seq<Moment>, r: Rule, pid: PID) {
    && run != [] && IsHit(Last(run), r, pid)
    && (StreakStart(run, r, pid) < |run| ==> Last(run).now - run[StreakStart(run, r, pid)].now >= r.hold)
    && ActionKind(Last(run).env.text, r).Some? && Last(run).env.actuator.Some?
    && var before := LastSuccess(rules, Front(run), r, pid);
       before.Some? ==> Last(run).now - before.value >= EffectiveCooldown(r)
  }

  lemma {:induction false} MemberOfPairEffects(effects: seq<Effect>, e: Effect)
    ensures e in effects <==> e in PairEffects(effects, e.rule, e.pid)
  {
    if effects != [] {
      MemberOfPairEffects(Front(effects), e);
      assert effects == Front(effects) + [Last(effects)];
    }
  }

  /** What a tick does to the pair, from the state before it. */
  lemma TickOnPair(rules: seq<Rule>, run: seq<Moment>, r: Rule, pid: PID)
    requires WellFormed(rules, run) && r in rules && run != []
    ensures var m := Last(run);
            var (st, effects) := PairStep(m.env, r, pid, Lookup(RunStates(rules, Front(run)), Key(r.name, pid)),
                                          MatchOf(m.env, r, m.procs, pid), m.now);
            && Lookup(RunStates(rules, run), Key(r.name, pid)) == st
            && (forall e :: About(e, r.name, pid) ==> (e in LastEffects(rules, run) <==> e in effects))
            && (forall k, ok ::
                  Attempt(k, r.name, pid, ok) in LastEffects(rules, run) <==> Attempt(k, r.name, pid, ok) in effects)
  {
    var m := Last(run);
    TickIsPairwise(m.env, RunStates(rules, Front(run)), rules, m.procs, m.now, r, pid);
    hide Tick, PairStep, PairEffects, MatchOf;
    forall e | About(e, r.name, pid)
      ensures e in LastEffects(rules, run) <==> e in PairEffects(LastEffects(rules, run), r.name, pid)
    {
      MemberOfPairEffects(LastEffects(rules, run), e);
    }
    assert forall k, ok :: About(Attempt(k, r.name, pid, ok), r.name, pid);
  }

  predicate About(e: Effect, rule: string, pid: PID) {
    e.rule == rule && e.pid == pid
  }

  /** The detector's memory of a pair: the start of the current streak and the last success inside it. */
  ghost predicate Remembers(rules: seq<Rule>, run: seq<Moment>, r: Rule, pid: PID) {
    var st := Lookup(RunStates(rules, run), Key(r.name, pid));
    var s := StreakStart(run, r, pid);
    && (st.Some? <==> s < |run|)
    && (st.Some? ==> st.value.matchingSince == run[s].now && st.value.lastActionAt == LastSuccess(rules, run, r, pid))
  }

  /**
    Over any run: the memory is exact, and a kill or suspend is attempted on a tick exactly when the hits
    have lasted unbroken for the hold time and no success of the same streak is within the cooldown.
  */
  lemma {:induction false} ActsExactlyWhenDue(rules: seq<Rule>, run: seq<Moment>, r: Rule, pid: PID)
    requires WellFormed(rules, run) && r in rules
    ensures Remembers(rules, run, r, pid)
    ensures Acts(rules, run, r, pid) <==> MayAct(rules, run, r, pid)
    ensures Succeeds(rules, run, r, pid) ==> Acts(rules, run, r, pid)
  {
    if run != [] {
      var pre, m := Front(run), Last(run);
      assert forall i :: 0 <= i < |pre| ==> pre[i] == run[i];
      ActsExactlyWhenDue(rules, pre, r, pid);
      TickOnPair(rules, run, r, pid);
      StreakIsUnbroken(pre, r, pid);
      var st := Lookup(RunStates(rules, pre), Key(r.name, pid));
      if IsHit(m, r, pid) {
        HitFacts(m, r, pid, st);
        hide OnHit, MatchOf, Key, RunStates, LastEffects;
        assert !st.Some? ==> LastSuccess(rules, pre, r, pid) == None;
      } else {
        hide MatchOf, Key, RunStates, LastEffects, OnHit;
      }
    }
  }

  lemma HitFacts(m: Moment, r: Rule, pid: PID, st: Option<RuleState>)
    ensures var (st', effects) := OnHit(m.env, r, pid, st, m.now);
            var from := if st.Some? then st.value else RuleState(m.now, None);
            && st'.matchingSince == from.matchingSince
            && ((exists k, ok :: Attempt(k, r.name, pid, ok) in effects) <==> Due(m.env, r, from, m.now))
            && ((exists k :: Attempt(k, r.name, pid, true) in effects) ==> Due(m.env, r, from, m.now))
            && st'.lastActionAt == (if exists k :: Attempt(k, r.name, pid, true) in effects then Some(m.now)
                else from.lastActionAt)
  {
    var (st', effects) := OnHit(m.env, r, pid, st, m.now);
    var from := if st.Some? then st.value else RuleState(m.now, None);
    if Due(m.env, r, from, m.now) {
      var kind := ActionKind(m.env.text, r).value;
      var ok := m.env.actuator.value(kind, r.name, pid);
      assert effects[1] == Attempt(kind, r.name, pid, ok);
    }
  }

  // ---- alerts ----

  lemma OnHitAlerts(env: Env, r: Rule, pid: PID, st: Option<RuleState>, now: int)
    ensures var effects := OnHit(env, r, pid, st, now).1;
            var since := if st.Some? then st.value.matchingSince else now;
            && (RaiseAlert(r.name, pid) in effects <==> now - since >= r.hold)
            && ClearAlert(r.name, pid) !in effects
            && (forall k, ok :: Attempt(k, r.name, pid, ok) in effects ==>
                  && RaiseAlert(r.name, pid) in effects
                  && env.text.lower(env.text.trim(r.action)) == if k == Kill then "kill" else "suspend")
  {
    var from := if st.Some? then st.value else RuleState(now, None);
    if now - from.matchingSince >= r.hold && Due(env, r, from, now) {
      var kind := ActionKind(env.text, r).value;
      var effects := OnHit(env, r, pid, st, now).1;
      assert effects[0] == RaiseAlert(r.name, pid);
      assert effects == [RaiseAlert(r.name, pid), Attempt(kind, r.name, pid, env.actuator.value(kind, r.name, pid))];
    } else if now - from.matchingSince >= r.hold {
      assert OnHit(env, r, pid, st, now).1[0] == RaiseAlert(r.name, pid);
    }
  }

  /**
    Over any run: a tick raises the alert of a pair exactly when the hits have lasted for the hold time, whether
    or not the rule acts; it clears the alert exactly when the rule judged the process and missed. Every
    attempt comes with the alert, and is of the kind the rule names.
  */
  lemma AlertFollowsStreak(rules: seq<Rule>, run: seq<Moment>, r: Rule, pid: PID)
    requires WellFormed(rules, run) && r in rules && run != []
    ensures var effects, s, m := LastEffects(rules, run), StreakStart(run, r, pid), Last(run);
            && (RaiseAlert(r.name, pid) in effects <==> s < |run| && m.now - run[s].now >= r.hold)
            && (ClearAlert(r.name, pid) in effects <==> MatchOf(m.env, r, m.procs, pid) == Miss)
            && (forall k, ok :: Attempt(k, r.name, pid, ok) in effects ==>
                  && RaiseAlert(r.name, pid) in effects
                  && m.env.text.lower(m.env.text.trim(r.action)) == if k == Kill then "kill" else "suspend")
  {
    var pre, m := Front(run), Last(run);
    assert forall i :: 0 <= i < |pre| ==> pre[i] == run[i];
    ActsExactlyWhenDue(rules, pre, r, pid);
    TickOnPair(rules, run, r, pid);
    StreakIsUnbroken(pre, r, pid);
    StreakIsUnbroken(run, r, pid);
    var st := Lookup(RunStates(rules, pre), Key(r.name, pid));
    OnHitAlerts(m.env, r, pid, st, m.now);
    assert About(RaiseAlert(r.name, pid), r.name, pid) && About(ClearAlert(r.name, pid), r.name, pid);
    hide OnHit, MatchOf, Key, RunStates, LastEffects, WellFormed, LastSuccess, Acts, MayAct, Succeeds;
  }

  /** When an attempt is made, on the fields of the rule. */
  lemma ActsOnFields(rules: seq<Rule>, run: seq<Moment>, r: Rule, pid: PID)
    requires WellFormed(rules, run) && r in rules && run != []
    ensures var s, m, before := StreakStart(run, r, pid), Last(run), LastSuccess(rules, Front(run), r, pid);
            var pause := if r.cooldown <= 0 then 60_000_000_000 else r.cooldown;
            Acts(rules, run, r, pid) <==>
              && s < |run| && m.now - run[s].now >= r.hold
              && m.env.text.lower(m.env.text.trim(r.action)) in {"kill", "suspend"}
              && m.env.actuator.Some?
              && (before.Some? ==> m.now - before.value >= pause)
  {
    ActsExactlyWhenDue(rules, run, r, pid);
    StreakIsUnbroken(run, r, pid);
    hide WellFormed, StreakStart, LastSuccess, Acts, Remembers, IsHit;
  }

  // ---- how far apart two successful actions are ----

  lemma {:induction false} SuccessRemembered(rules: seq<Rule>, run: seq<Moment>, i: nat, r: Rule, pid: PID)
    requires WellFormed(rules, run) && i < |run| && Succeeds(rules, run[..i+1], r, pid)
    requires forall k :: i <= k < |run| ==> IsHit(run[k], r, pid)
    ensures LastSuccess(rules, run, r, pid).Some? && LastSuccess(rules, run, r, pid).value >= run[i].now
  {
    hide Succeeds, IsHit;
    if i == |run| - 1 {
      assert run[..i+1] == run;
    } else {
      var pre := Front(run);
      assert pre[..i+1] == run[..i+1];
      assert forall k :: 0 <= k < |pre| ==> pre[k] == run[k];
      SuccessRemembered(rules, pre, i, r, pid);
    }
  }

  lemma PrefixWellFormed(rules: seq<Rule>, run: seq<Moment>, n: nat)
    requires WellFormed(rules, run) && n <= |run|
    ensures WellFormed(rules, run[..n])
  {
  }

  /** Ticks come at least `step` apart. */
  ghost predicate Spaced(run: seq<Moment>, step: nat) {
    forall i, j :: 0 <= i < j < |run| ==> run[j].now - run[i].now >= step
  }

  /** What a new streak needs before its first action: nothing, or at least one more tick. */
  function FirstActionAfter(r: Rule, step: nat): nat {
    if r.hold <= 0 then 0 else if r.hold < step then step else r.hold
  }

  /** A miss between two successes is neither of them, and the streak of the second began after it. */
  lemma StreakAfterMiss(rules: seq<Rule>, run: seq<Moment>, i: nat, k: nat, j: nat, r: Rule, pid: PID)
    requires WellFormed(rules, run) && r in rules && i <= k <= j < |run| && !IsHit(run[k], r, pid)
    requires Succeeds(rules, run[..i+1], r, pid) && Succeeds(rules, run[..j+1], r, pid)
    ensures i < k < StreakStart(run[..j+1], r, pid) <= j
    ensures run[j].now - run[StreakStart(run[..j+1], r, pid)].now >= r.hold
  {
    var upto := run[..j+1];
    PrefixWellFormed(rules, run, i + 1);
    PrefixWellFormed(rules, run, j + 1);
    ActsExactlyWhenDue(rules, run[..i+1], r, pid);
    ActsExactlyWhenDue(rules, upto, r, pid);
    StreakIsUnbroken(upto, r, pid);
    hide IsHit, Succeeds, StreakStart, LastSuccess, WellFormed;
    assert Last(upto) == run[j] && Last(run[..i+1]) == run[i] && upto[k] == run[k];
  }

  lemma SuccessesInStreak(rules: seq<Rule>, run: seq<Moment>, i: nat, j: nat, r: Rule, pid: PID)
    requires WellFormed(rules, run) && r in rules && i < j < |run|
    requires Succeeds(rules, run[..i+1], r, pid) && Succeeds(rules, run[..j+1], r, pid)
    requires forall k :: i <= k <= j ==> IsHit(run[k], r, pid)
    ensures run[j].now - run[i].now >= EffectiveCooldown(r)
  {
    hide IsHit, Succeeds;
    var pre := run[..j];
    PrefixWellFormed(rules, run, j + 1);
    PrefixWellFormed(rules, run, j);
    ActsExactlyWhenDue(rules, run[..j+1], r, pid);
    assert Front(run[..j+1]) == pre && pre[..i+1] == run[..i+1];
    assert forall k :: i <= k < j ==> pre[k] == run[k];
    SuccessRemembered(rules, pre, i, r, pid);
  }

  /**
    Two successful actions on a pair are at least the cooldown apart while the hits last. A miss erases the
    memory of the first, and then they are only apart by the miss, the new hit and the hold time.
  */
  lemma TwoSuccesses(rules: seq<Rule>, run: seq<Moment>, i: nat, j: nat, r: Rule, pid: PID, step: nat)
    requires WellFormed(rules, run) && Spaced(run, step) && r in rules && i < j < |run|
    requires Succeeds(rules, run[..i+1], r, pid) && Succeeds(rules, run[..j+1], r, pid)
    ensures (forall k :: i <= k <= j ==> IsHit(run[k], r, pid)) ==> run[j].now - run[i].now >= EffectiveCooldown(r)
    ensures !(forall k :: i <= k <= j ==> IsHit(run[k], r, pid)) ==>
              run[j].now - run[i].now >= 2 * step + FirstActionAfter(r, step)
  {
    hide Succeeds, IsHit, WellFormed, StreakStart;
    if forall k :: i <= k <= j ==> IsHit(run[k], r, pid) {
      SuccessesInStreak(rules, run, i, j, r, pid);
    } else {
      var k :| i <= k <= j && !IsHit(run[k], r, pid);
      StreakAfterMiss(rules, run, i, k, j, r, pid);
      assert run[k].now - run[i].now >= step;
      assert run[StreakStart(run[..j+1], r, pid)].now - run[k].now >= step;
    }
  }

  ghost predicate BothSucceed(rules: seq<Rule>, run: seq<Moment>, i: nat, j: nat, r: Rule, pid: PID) {
    i < j < |run| && Succeeds(rules, run[..i+1], r, pid) && Succeeds(rules, run[..j+1], r, pid)
  }

  ghost predicate FixedEnv(run: seq<Moment>, env: Env) {
    forall k :: 0 <= k < |run| ==> run[k].env == env
  }

  /**
    The documented promise, for one rule in one fixed environment whose ticks come at least `step` apart:
    successful actions on a process keep the cooldown.
  */
  ghost predicate CooldownKept(rules: seq<Rule>, r: Rule, env: Env, step: nat) {
    forall run: seq<Moment>, pid: PID, i: nat, j: nat ::
      WellFormed(rules, run) && Spaced(run, step) && FixedEnv(run, env) && BothSucceed(rules, run, i, j, r, pid)
      ==> run[j].now - run[i].now >= EffectiveCooldown(r)
  }

  /** The rule asks for an action, and the environment carries it out on this process. */
  predicate CanAct(env: Env, r: Rule, pid: PID) {
    && ActionKind(env.text, r).Some? && env.actuator.Some?
    && env.actuator.value(ActionKind(env.text, r).value, r.name, pid)
  }

  lemma ActingSucceeds(rules: seq<Rule>, run: seq<Moment>, r: Rule, pid: PID)
    requires WellFormed(rules, run) && r in rules && run != [] && CanAct(Last(run).env, r, pid)
    requires MayAct(rules, run, r, pid)
    ensures Succeeds(rules, run, r, pid)
  {
    hide MayAct, WellFormed;
    ActsExactlyWhenDue(rules, run, r, pid);
    TickOnPair(rules, run, r, pid);
    hide RunStates, LastEffects, MatchOf, Key, ActionKind;
    var k, ok :| Attempt(k, r.name, pid, ok) in LastEffects(rules, run);
    assert Attempt(k, r.name, pid, true) in LastEffects(rules, run);
  }

  /** Tick n begins a streak of hits. */
  predicate Begins(run: seq<Moment>, n: nat, r: Rule, pid: PID) {
    n < |run| && IsHit(run[n], r, pid) && (n > 0 ==> !IsHit(run[n-1], r, pid))
  }

  lemma StreakBegins(rules: seq<Rule>, run: seq<Moment>, n: nat, r: Rule, pid: PID)
    requires Begins(run, n, r, pid)
    ensures StreakStart(run[..n+1], r, pid) == n && LastSuccess(rules, run[..n], r, pid) == None
  {
    assert Front(run[..n+1]) == run[..n];
    hide IsHit;
  }

  /** Without a hold time the first hit of a streak acts. */
  lemma FirstHitActs(rules: seq<Rule>, run: seq<Moment>, n: nat, r: Rule, pid: PID)
    requires WellFormed(rules, run) && r in rules && Begins(run, n, r, pid)
    requires CanAct(run[n].env, r, pid) && r.hold <= 0
    ensures Succeeds(rules, run[..n+1], r, pid)
  {
    StreakBegins(rules, run, n, r, pid);
    PrefixWellFormed(rules, run, n + 1);
    hide IsHit, StreakStart, LastSuccess, WellFormed, Succeeds;
    assert Front(run[..n+1]) == run[..n];
    ActingSucceeds(rules, run[..n+1], r, pid);
  }

  /** With one, the second hit acts if it comes late enough. */
  lemma SecondHitActs(rules: seq<Rule>, run: seq<Moment>, n: nat, r: Rule, pid: PID)
    requires WellFormed(rules, run) && r in rules && 0 < n < |run|
    requires Begins(run, n - 1, r, pid) && IsHit(run[n], r, pid)
    requires CanAct(run[n].env, r, pid) && 0 < r.hold <= run[n].now - run[n-1].now
    ensures Succeeds(rules, run[..n+1], r, pid)
  {
    var one, two := run[..n], run[..n+1];
    StreakBegins(rules, run, n - 1, r, pid);
    assert run[..n-1+1] == one && Front(two) == one && Front(one) == run[..n-1];
    assert StreakStart(two, r, pid) == n - 1;
    PrefixWellFormed(rules, run, n);
    PrefixWellFormed(rules, run, n + 1);
    ActsExactlyWhenDue(rules, one, r, pid);
    assert LastSuccess(rules, one, r, pid) == None;
    hide IsHit, StreakStart, LastSuccess, WellFormed, Succeeds;
    ActingSucceeds(rules, two, r, pid);
  }

  lemma OnlyProcess(env: Env, r: Rule, p: ProcessInfo, pid: PID)
    ensures MatchOf(env, r, [p], pid) == if p.pid == pid then Judge(env, r, p) else Absent
  {
    assert Front([p]) == [];
  }

  /** A run of single-process ticks. */
  function Ticks(env: Env, at: seq<(int, ProcessInfo)>): (run: seq<Moment>)
    ensures |run| == |at|
    ensures forall k :: 0 <= k < |at| ==> run[k] == Moment(at[k].0, env, [at[k].1])
  {
    seq(|at|, k requires 0 <= k < |at| => Moment(at[k].0, env, [at[k].1]))
  }

  lemma TickHits(env: Env, at: seq<(int, ProcessInfo)>, k: nat, r: Rule, pid: PID)
    requires k < |at|
    ensures IsHit(Ticks(env, at)[k], r, pid) <==> at[k].1.pid == pid && Judge(env, r, at[k].1) == Hit
  {
    hide Judge;
    OnlyProcess(env, r, at[k].1, pid);
  }

  lemma TicksAre(rules: seq<Rule>, env: Env, at: seq<(int, ProcessInfo)>, step: nat)
    requires DistinctNames(rules) && forall k :: 0 < k < |at| ==> at[k].0 - at[k-1].0 >= step
    ensures WellFormed(rules, Ticks(env, at)) && Spaced(Ticks(env, at), step) && FixedEnv(Ticks(env, at), env)
  {
    forall i, j | 0 <= i < j < |at| ensures at[j].0 - at[i].0 >= step {
      LaterBy(at, i, j, step);
    }
  }

  lemma {:induction false} LaterBy(at: seq<(int, ProcessInfo)>, i: nat, j: nat, step: nat)
    requires forall k :: 0 < k < |at| ==> at[k].0 - at[k-1].0 >= step
    requires i < j < |at|
    ensures at[j].0 - at[i].0 >= step
    decreases j
  {
    if i < j - 1 {
      LaterBy(at, i, j - 1, step);
    }
  }

  /**
    A flapping run: the pair acts, one tick lists another process or another reading of this one, the
    process is found again and acted on again. No action comes sooner than that.
  */
  ghost predicate Flaps(rules: seq<Rule>, r: Rule, env: Env, pid: PID, step: nat, run: seq<Moment>, i: nat) {
    && WellFormed(rules, run) && Spaced(run, step) && FixedEnv(run, env)
    && (forall k :: 0 <= k < |run| ==> |run[k].procs| == 1)
    && i < |run| - 1 && BothSucceed(rules, run, i, |run| - 1, r, pid)
    && run[|run|-1].now - run[i].now == 2 * step + FirstActionAfter(r, step)
  }

  lemma FlapsAtOnce(rules: seq<Rule>, r: Rule, env: Env, p: ProcessInfo, other: ProcessInfo, step: nat)
    requires DistinctNames(rules) && r in rules && Judge(env, r, p) == Hit && CanAct(env, r, p.pid) && r.hold <= 0
    requires other.pid == p.pid ==> Judge(env, r, other) != Hit
    ensures Flaps(rules, r, env, p.pid, step, Ticks(env, [(0, p), (step, other), (2 * step, p)]), 0)
  {
    var at := [(0, p), (step, other), (2 * step, p)];
    var run := Ticks(env, at);
    hide IsHit, Judge, CanAct, Succeeds, WellFormed, Spaced, FixedEnv, Ticks;
    TicksAre(rules, env, at, step);
    TickHits(env, at, 0, r, p.pid);
    TickHits(env, at, 1, r, p.pid);
    TickHits(env, at, 2, r, p.pid);
    FirstHitActs(rules, run, 0, r, p.pid);
    FirstHitActs(rules, run, 2, r, p.pid);
  }

  lemma FlapsAfterHold(rules: seq<Rule>, r: Rule, env: Env, p: ProcessInfo, other: ProcessInfo, step: nat, h: int)
    requires DistinctNames(rules) && r in rules && Judge(env, r, p) == Hit && CanAct(env, r, p.pid) && r.hold > 0
    requires other.pid == p.pid ==> Judge(env, r, other) != Hit
    requires h == FirstActionAfter(r, step)
    ensures Flaps(rules, r, env, p.pid, step,
                  Ticks(env, [(0, p), (h, p), (h + step, other), (h + 2 * step, p), (2 * h + 2 * step, p)]), 1)
  {
    var at := [(0, p), (h, p), (h + step, other), (h + 2 * step, p), (2 * h + 2 * step, p)];
    var run := Ticks(env, at);
    hide IsHit, Judge, CanAct, Succeeds, WellFormed, Spaced, FixedEnv, Ticks;
    TicksAre(rules, env, at, step);
    TickHits(env, at, 0, r, p.pid);
    TickHits(env, at, 1, r, p.pid);
    TickHits(env, at, 2, r, p.pid);
    TickHits(env, at, 3, r, p.pid);
    TickHits(env, at, 4, r, p.pid);
    SecondHitActs(rules, run, 1, r, p.pid);
    SecondHitActs(rules, run, 4, r, p.pid);
  }

  /** Flapping takes two ticks and the hold time, whatever the cooldown is. */
  lemma Flapping(rules: seq<Rule>, r: Rule, env: Env, p: ProcessInfo, other: ProcessInfo, step: nat)
    requires DistinctNames(rules) && r in rules && Judge(env, r, p) == Hit && CanAct(env, r, p.pid)
    requires other.pid == p.pid ==> Judge(env, r, other) != Hit
    ensures exists run: seq<Moment>, i: nat :: Flaps(rules, r, env, p.pid, step, run, i)
  {
    hide Flaps, Judge, CanAct, Ticks;
    if r.hold <= 0 {
      FlapsAtOnce(rules, r, env, p, other, step);
    } else {
      FlapsAfterHold(rules, r, env, p, other, step, FirstActionAfter(r, step));
    }
  }

  /**
    The cooldown promise holds of a rule that can act exactly when two ticks and its hold time are no
    shorter than its cooldown.
  */
  lemma CooldownKeptIff(rules: seq<Rule>, r: Rule, env: Env, p: ProcessInfo, step: nat)
    requires DistinctNames(rules) && r in rules
    requires Judge(env, r, p) == Hit && CanAct(env, r, p.pid)
    ensures CooldownKept(rules, r, env, step) <==> 2 * step + FirstActionAfter(r, step) >= EffectiveCooldown(r)
  {
    hide Succeeds, IsHit, Judge, FirstActionAfter;
    if 2 * step + FirstActionAfter(r, step) < EffectiveCooldown(r) {
      Flapping(rules, r, env, p, p.(pid := if p.pid == 0 then 1 else 0), step);
      var run: seq<Moment>, i: nat :| Flaps(rules, r, env, p.pid, step, run, i);
      assert !(run[|run|-1].now - run[i].now >= EffectiveCooldown(r));
    } else {
      forall run: seq<Moment>, pid: PID, i: nat, j: nat |
        WellFormed(rules, run) && Spaced(run, step) && BothSucceed(rules, run, i, j, r, pid)
        ensures run[j].now - run[i].now >= EffectiveCooldown(r)
      {
        TwoSuccesses(rules, run, i, j, r, pid, step);
      }
    }
  }

  /** The engine never analyses more often than this. */
  const MIN_SPACING: nat := 500 * MILLISECOND

  /**
    At the engine's fastest pace: a rule held for 59 seconds keeps a cooldown of a minute, because a miss
    and a new hit take another second; held for any less it does not.
  */
  lemma MinuteCooldown(rules: seq<Rule>, r: Rule, env: Env, p: ProcessInfo)
    requires DistinctNames(rules) && r in rules && Judge(env, r, p) == Hit && CanAct(env, r, p.pid)
    requires r.cooldown <= 0 || r.cooldown == MINUTE
    ensures CooldownKept(rules, r, env, MIN_SPACING) <==> r.hold >= 59 * SECOND
  {
    hide Judge, CanAct, CooldownKept;
    CooldownKeptIff(rules, r, env, p, MIN_SPACING);
  }
}
