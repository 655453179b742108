/** The hung-process detector: per-process activity records and the gate before an alert. */
module HungProcesses {
  import opened Processes
  import opened Seqs

  /** 64-bit unsigned wrap-around. */
  const WORD: int := 0x1_0000_0000_0000_0000

  function Wrap(x: int): (r: nat)
    ensures r < WORD
  {
    x % WORD
  }

  const MIN_PEAK_CPU: real := 5.0
  const MIN_PEAK_IO: int := 10 * 1024 * 1024

  /** `lower` folds case and `ignored` is the global ignore list; both are fixed for a run. */
  datatype Config = Config(
    zeroActivity: int, criticalAfter: int, whitelist: seq<string>, lower: string -> string, ignored: string -> bool)

  datatype HungState = HungState(since: int, lastIO: nat, lastCPU: real, peakCPU: real, baselineIO: nat, wasBusy: bool)

  datatype Effect = Clear(pid: PID) | Raise(pid: PID, critical: bool, idleFor: int)

  predicate Whitelisted(cfg: Config, name: string) {
    exists i :: 0 <= i < |cfg.whitelist| && cfg.lower(cfg.whitelist[i]) == cfg.lower(name)
  }

  predicate Skipped(cfg: Config, p: ProcessInfo) {
    Whitelisted(cfg, p.name) || cfg.ignored(p.name)
  }

  function IOSum(p: ProcessInfo): nat {
    Wrap(p.ioRead + p.ioWrite)
  }

  // ---- one observation, as the detector handles it ----

  function FirstSight(now: int, p: ProcessInfo): HungState {
    HungState(now, IOSum(p), p.cpu, p.cpu, IOSum(p), false)
  }

  predicate IsBusy(st: HungState, p: ProcessInfo) {
    p.cpu > 0.5 || IOSum(p) != st.lastIO
  }

  function Observe(st: HungState, now: int, p: ProcessInfo): HungState {
    var st := st.(peakCPU := if p.cpu > st.peakCPU then p.cpu else st.peakCPU);
    if IsBusy(st, p) then st.(since := now, lastIO := IOSum(p), lastCPU := p.cpu, wasBusy := true) else st
  }

  /** The prior-activity gate, as written: three conditions, one on a wrapped difference. */
  predicate GateBlocks(st: HungState, p: ProcessInfo) {
    !st.wasBusy && st.peakCPU < MIN_PEAK_CPU && Wrap(IOSum(p) - st.baselineIO) < MIN_PEAK_IO
  }

  function React(st: HungState, now: int, p: ProcessInfo, cfg: Config): seq<Effect> {
    var st' := Observe(st, now, p);
    if IsBusy(st, p) then [Clear(p.pid)]
    else if now - st.since < cfg.zeroActivity || GateBlocks(st', p) then []
    else [Raise(p.pid, now - st.since >= cfg.criticalAfter, now - st.since)]
  }

  datatype Step = Step(states: map<PID, HungState>, effects: seq<Effect>)

  function Visit(s: Step, now: int, p: ProcessInfo, cfg: Config): Step {
    if Skipped(cfg, p) then s
    else if p.pid !in s.states then s.(states := s.states[p.pid := FirstSight(now, p)])
    else Step(s.states[p.pid := Observe(s.states[p.pid], now, p)], s.effects + React(s.states[p.pid], now, p, cfg))
  }

  function VisitAll(s: Step, now: int, procs: seq<ProcessInfo>, cfg: Config): Step {
    if procs == [] then s else Visit(VisitAll(s, now, Front(procs), cfg), now, Last(procs), cfg)
  }

  function Tick(states: map<PID, HungState>, now: int, procs: seq<ProcessInfo>, cfg: Config): Step {
    var s := VisitAll(Step(states, []), now, procs, cfg);
    Step(map pid | pid in s.states && pid in Live(procs) :: s.states[pid], s.effects)
  }

  class HungProcessDetector {
    var states: map<PID, HungState>

    constructor ()
      ensures states == map[]
    {
      states := map[];
    }

    /** One process: update its record in place and say what the alerts should do. */
    method AnalyzeProcess(now: int, p: ProcessInfo, cfg: Config, skip: bool) returns (effects: seq<Effect>)
      requires skip == Skipped(cfg, p)
      modifies this
      ensures Step(states, effects) == Visit(Step(old(states), []), now, p, cfg)
    {
      effects := [];
      if skip {
        return;
      }
      var ioSum := Wrap(p.ioRead + p.ioWrite);
      if p.pid !in states {
        states := states[p.pid := HungState(now, ioSum, p.cpu, p.cpu, ioSum, false)];
        return;
      }
      var st := states[p.pid];
      if p.cpu > st.peakCPU {
        st := st.(peakCPU := p.cpu);
      }
      var busy := p.cpu > 0.5 || ioSum != st.lastIO;
      if busy {
        st := st.(since := now, lastIO := ioSum, lastCPU := p.cpu, wasBusy := true);
        states := states[p.pid := st];
        return [Clear(p.pid)];
      }
      states := states[p.pid := st];
      var idleFor := now - st.since;
      if idleFor < cfg.zeroActivity {
        return;
      }
      var peakIO := Wrap(ioSum - st.baselineIO);
      if !st.wasBusy && st.peakCPU < MIN_PEAK_CPU && peakIO < MIN_PEAK_IO {
        return;
      }
      return [Raise(p.pid, idleFor >= cfg.criticalAfter, idleFor)];
    }

    method Analyze(enabled: bool, now: int, procs: seq<ProcessInfo>, cfg: Config) returns (effects: seq<Effect>)
      modifies this
      ensures !enabled ==> states == old(states) && effects == []
      ensures enabled ==> Step(states, effects) == Tick(old(states), now, procs, cfg)
    {
      effects := [];
      if !enabled {
        return;
      }
      var live: set<PID> := {};
      for i := 0 to |procs|
        invariant live == Live(procs[..i])
        invariant Step(states, effects) == VisitAll(Step(old(states), []), now, procs[..i], cfg)
      {
        var p := procs[i];
        assert Front(procs[..i+1]) == procs[..i] && Last(procs[..i+1]) == p;
        live := live + {p.pid};
        ghost var before := Step(states, effects);
        var skip := Skipped(cfg, p);
        var more := AnalyzeProcess(now, p, cfg, skip);
        VisitAppends(before.states, before.effects, now, p, cfg);
        effects := effects + more;
      }
      assert procs[..|procs|] == procs;
      states := map pid | pid in states && pid in live :: states[pid];
    }
  }

  lemma VisitAppends(states: map<PID, HungState>, effects: seq<Effect>, now: int, p: ProcessInfo, cfg: Config)
    ensures Visit(Step(states, effects), now, p, cfg).states == Visit(Step(states, []), now, p, cfg).states
    ensures Visit(Step(states, effects), now, p, cfg).effects == effects + Visit(Step(states, []), now, p, cfg).effects
  {
    assert effects + [] == effects;
  }

  /** Reads and writes both count, as long as their sum fits 64 bits. */
  lemma TransfersCount(p: ProcessInfo, q: ProcessInfo)
    requires p.ioRead + p.ioWrite < WORD && q.ioRead + q.ioWrite < WORD
    ensures IOSum(p) == IOSum(q) <==> p.ioRead + p.ioWrite == q.ioRead + q.ioWrite
  {
  }

  /** A process is left alone exactly if it is ignored or its folded name is a folded whitelist entry. */
  lemma SkippedOnFields(s: Step, now: int, p: ProcessInfo, cfg: Config)
    ensures var exempt := cfg.ignored(p.name) || exists w :: w in cfg.whitelist && cfg.lower(w) == cfg.lower(p.name);
            && (exempt ==> Visit(s, now, p, cfg) == s)
            && (!exempt ==> p.pid in Visit(s, now, p, cfg).states)
            && (!exempt && p.pid !in s.states ==>
                  Visit(s, now, p, cfg).states[p.pid]
                  == HungState(now, IOSum(p), p.cpu, p.cpu, IOSum(p), false))
  {
    hide IOSum, React, Observe;
    assert Whitelisted(cfg, p.name) <==> exists w :: w in cfg.whitelist && cfg.lower(w) == cfg.lower(p.name);
  }

  // ---- what a process showed since it was first seen, and what that says ----

  datatype Seen = Seen(now: int, cpu: real, io: nat)

  predicate BusyAt(log: seq<Seen>, i: nat)
    requires i < |log|
  {
    i > 0 && (log[i].cpu > 0.5 || log[i].io != log[i-1].io)
  }

  /** Busy at some sample after the first. */
  function EverBusy(log: seq<Seen>): bool {
    log != [] && (EverBusy(Front(log)) || BusyAt(log, |log| - 1))
  }

  /** When the process was last busy, or first seen. */
  function QuietSince(log: seq<Seen>): int
    requires log != []
  {
    if |log| == 1 || BusyAt(log, |log| - 1) then Last(log).now else QuietSince(Front(log))
  }

  /** What the newest sample calls for. */
  function Verdict(log: seq<Seen>, pid: PID, cfg: Config): seq<Effect>
    requires log != []
  {
    var idle := Last(log).now - QuietSince(log);
    if |log| == 1 then []
    else if BusyAt(log, |log| - 1) then [Clear(pid)]
    else if idle >= cfg.zeroActivity && (EverBusy(log) || log[0].cpu >= MIN_PEAK_CPU)
    then [Raise(pid, idle >= cfg.criticalAfter, idle)]
    else []
  }

  function MaxCPU(log: seq<Seen>): real
    requires log != []
  {
    if |log| == 1 then log[0].cpu
    else if Last(log).cpu > MaxCPU(Front(log)) then Last(log).cpu else MaxCPU(Front(log))
  }

  /** The record the detector keeps is a summary of the log. */
  ghost predicate Summarizes(st: HungState, log: seq<Seen>)
    requires log != []
  {
    && st.since == QuietSince(log)
    && st.lastIO == Last(log).io
    && st.baselineIO == log[0].io
    && st.wasBusy == EverBusy(log)
    && st.peakCPU == MaxCPU(log)
    && (!st.wasBusy ==> st.lastIO == st.baselineIO)
    && (!st.wasBusy ==> st.peakCPU == log[0].cpu || st.peakCPU <= 0.5)
    && st.peakCPU >= log[0].cpu
  }

  /**
    One observation: the record stays a summary, and the detector does what the log calls for. The gate's
    wrapped subtraction never matters: a process that was never busy has moved no IO at all.
  */
  lemma ObserveSummarizes(st: HungState, log: seq<Seen>, now: int, p: ProcessInfo, cfg: Config)
    requires log != [] && Summarizes(st, log)
    ensures var log' := log + [Seen(now, p.cpu, IOSum(p))];
            Summarizes(Observe(st, now, p), log') && React(st, now, p, cfg) == Verdict(log', p.pid, cfg)
  {
    var log' := log + [Seen(now, p.cpu, IOSum(p))];
    assert Front(log') == log && Last(log') == Seen(now, p.cpu, IOSum(p));
    assert log'[0] == log[0] && log'[|log|-1] == Last(log);
  }

  /** The three-part gate is "was never busy, and was first seen below the CPU bound". */
  lemma GateMeansDaemon(st: HungState, log: seq<Seen>, now: int, p: ProcessInfo)
    requires log != [] && Summarizes(st, log) && !IsBusy(st, p)
    ensures GateBlocks(Observe(st, now, p), p) <==> !EverBusy(log) && log[0].cpu < MIN_PEAK_CPU
    ensures !EverBusy(log) ==> Wrap(IOSum(p) - st.baselineIO) == 0
  {
  }

  // ---- whole runs ----

  datatype Snapshot = Snapshot(now: int, procs: seq<ProcessInfo>)

  function Observations(now: int, procs: seq<ProcessInfo>, pid: PID, cfg: Config): seq<Seen> {
    if procs == [] then []
    else Observations(now, Front(procs), pid, cfg) +
         (if Last(procs).pid == pid && !Skipped(cfg, Last(procs)) then [Seen(now, Last(procs).cpu, IOSum(Last(procs)))]
             else [])
  }

  /** Every observation of pid since it last appeared in the process list. */
  function LogOf(run: seq<Snapshot>, pid: PID, cfg: Config): seq<Seen> {
    if run == [] then []
    else if pid !in Live(Last(run).procs) then []
    else LogOf(Front(run), pid, cfg) + Observations(Last(run).now, Last(run).procs, pid, cfg)
  }

  function RunStates(run: seq<Snapshot>, cfg: Config): map<PID, HungState> {
    if run == [] then map[] else Tick(RunStates(Front(run), cfg), Last(run).now, Last(run).procs, cfg).states
  }

  /** What each observation of pid in one snapshot calls for, given the log before it. */
  function Verdicts(log: seq<Seen>, now: int, procs: seq<ProcessInfo>, pid: PID, cfg: Config): seq<Effect> {
    if procs == [] then []
    else
      var earlier := Verdicts(log, now, Front(procs), pid, cfg);
      if Last(procs).pid == pid && !Skipped(cfg, Last(procs))
      then earlier + Verdict(log + Observations(now, procs, pid, cfg), pid, cfg)
      else earlier
  }

  function AboutProcess(pid: PID): Effect -> bool {
    (e: Effect) => e.pid == pid
  }

  function ProcessEffects(effects: seq<Effect>, pid: PID): seq<Effect> {
    Select(effects, AboutProcess(pid))
  }

  ghost predicate Holds(states: map<PID, HungState>, pid: PID, log: seq<Seen>) {
    && (pid in states <==> log != [])
    && (log != [] ==> Summarizes(states[pid], log))
  }

  lemma {:induction false} VisitAllHolds(states: map<PID, HungState>, now: int, procs: seq<ProcessInfo>, cfg: Config,
                                         pid: PID, log: seq<Seen>)
    requires Holds(states, pid, log)
    ensures var s := VisitAll(Step(states, []), now, procs, cfg);
            && Holds(s.states, pid, log + Observations(now, procs, pid, cfg))
            && ProcessEffects(s.effects, pid) == Verdicts(log, now, procs, pid, cfg)
  {
    if procs == [] {
      assert log + [] == log;
    } else {
      hide Visit, Verdict, Skipped, Holds, IOSum;
      VisitAllHolds(states, now, Front(procs), cfg, pid, log);
      var s, p := VisitAll(Step(states, []), now, Front(procs), cfg), Last(procs);
      VisitHolds(s, now, p, cfg, pid, log + Observations(now, Front(procs), pid, cfg));
      var more := if p.pid == pid && !Skipped(cfg, p) then [Seen(now, p.cpu, IOSum(p))] else [];
      assert log + Observations(now, procs, pid, cfg) == log + Observations(now, Front(procs), pid, cfg) + more;
    }
  }

  lemma VisitHolds(s: Step, now: int, p: ProcessInfo, cfg: Config, pid: PID, log: seq<Seen>)
    requires Holds(s.states, pid, log)
    ensures var s' := Visit(s, now, p, cfg); var mine := p.pid == pid && !Skipped(cfg, p);
            var log' := log + if mine then [Seen(now, p.cpu, IOSum(p))] else [];
            && Holds(s'.states, pid, log')
            && ProcessEffects(s'.effects, pid)
               == ProcessEffects(s.effects, pid) + if mine then Verdict(log', pid, cfg) else []
  {
    hide Skipped, Summarizes, Verdict, React, Observe;
    assert log + [] == log;
    if !Skipped(cfg, p) {
      if p.pid !in s.states {
        if p.pid == pid {
          FirstSightSummarizes(now, p, cfg);
        }
      } else {
        var more := React(s.states[p.pid], now, p, cfg);
        SelectAppend(s.effects, more, AboutProcess(pid));
        ReactIsLocal(s.states[p.pid], now, p, cfg, pid);
        if p.pid == pid {
          ObserveSummarizes(s.states[pid], log, now, p, cfg);
        }
      }
    }
  }

  lemma FirstSightSummarizes(now: int, p: ProcessInfo, cfg: Config)
    ensures var log := [] + [Seen(now, p.cpu, IOSum(p))];
            Summarizes(FirstSight(now, p), log) && Verdict(log, p.pid, cfg) == []
  {
    var log := [] + [Seen(now, p.cpu, IOSum(p))];
    assert Front(log) == [];
  }

  lemma ReactIsLocal(st: HungState, now: int, p: ProcessInfo, cfg: Config, pid: PID)
    ensures ProcessEffects(React(st, now, p, cfg), pid) == if p.pid == pid then React(st, now, p, cfg) else []
  {
    var r := React(st, now, p, cfg);
    if r != [] {
      assert |r| == 1 && Front(r) == [] && r == [Last(r)];
      assert Select(Front(r), AboutProcess(pid)) == [];
    }
  }

  /**
    Over any run, whatever processes come and go: the detector's record of a process summarises everything
    it showed since it appeared, and at every observation the detector clears or raises exactly as that log
    calls for, a raise needing activity after the first sample or a first sample at the CPU bound.
  */
  lemma {:induction false} DetectorFollowsLog(run: seq<Snapshot>, cfg: Config, pid: PID)
    ensures Holds(RunStates(run, cfg), pid, LogOf(run, pid, cfg))
    ensures run != [] ==>
              ProcessEffects(Tick(RunStates(Front(run), cfg), Last(run).now, Last(run).procs, cfg).effects, pid)
              == Verdicts(LogOf(Front(run), pid, cfg), Last(run).now, Last(run).procs, pid, cfg)
  {
    if run != [] {
      DetectorFollowsLog(Front(run), cfg, pid);
      VisitAllHolds(RunStates(Front(run), cfg), Last(run).now, Last(run).procs, cfg, pid, LogOf(Front(run), pid, cfg));
    }
  }

  // ---- the documented promise ----

  /** What the comment on the thresholds calls a daemon: CPU at most 5%, at most 10 MB moved. */
  ghost predicate ShowedLittle(log: seq<Seen>) {
    forall i :: 0 <= i < |log| ==> log[i].cpu <= MIN_PEAK_CPU && 0 <= log[i].io - log[0].io <= MIN_PEAK_IO
  }

  /** However long the process now stays idle, and whatever little CPU it shows, no alert comes of it. */
  ghost predicate NeverAlerted(log: seq<Seen>, pid: PID, cfg: Config)
    requires log != []
  {
    forall now: int, cpu: real :: cpu <= 0.5 ==> Verdict(log + [Seen(now, cpu, Last(log).io)], pid, cfg) == []
  }

  /**
    A process is safe from the alert exactly when it was never busy after its first sample and was first
    seen below the CPU bound; how much it showed otherwise does not matter.
  */
  lemma DaemonIff(log: seq<Seen>, pid: PID, cfg: Config)
    requires log != []
    ensures NeverAlerted(log, pid, cfg) <==> !EverBusy(log) && log[0].cpu < 5.0
  {
    forall now: int, cpu: real | cpu <= 0.5
      ensures Verdict(log + [Seen(now, cpu, Last(log).io)], pid, cfg) == []
              <==> now - QuietSince(log) < cfg.zeroActivity || (!EverBusy(log) && log[0].cpu < MIN_PEAK_CPU)
    {
      IdleVerdict(log, now, cpu, pid, cfg);
    }
    hide Verdict, EverBusy, QuietSince;
    var late := QuietSince(log) + cfg.zeroActivity;
    assert NeverAlerted(log, pid, cfg) ==> Verdict(log + [Seen(late, 0.0, Last(log).io)], pid, cfg) == [];
  }

  lemma IdleVerdict(log: seq<Seen>, now: int, cpu: real, pid: PID, cfg: Config)
    requires log != [] && cpu <= 0.5
    ensures var idle := now - QuietSince(log);
            Verdict(log + [Seen(now, cpu, Last(log).io)], pid, cfg)
            == if idle >= cfg.zeroActivity && (EverBusy(log) || log[0].cpu >= MIN_PEAK_CPU)
               then [Raise(pid, idle >= cfg.criticalAfter, idle)] else []
  {
    var log' := log + [Seen(now, cpu, Last(log).io)];
    assert Front(log') == log && Last(log') == Seen(now, cpu, Last(log).io);
    assert log'[0] == log[0] && log'[|log|-1] == Last(log);
    assert !BusyAt(log', |log|);
  }

  /** The process after it read one byte more. */
  function OneByteOn(p: ProcessInfo): (q: ProcessInfo)
    ensures q.pid == p.pid && q.cpu == p.cpu
  {
    p.(ioRead := p.ioRead + 1)
  }

  /** The process is seen twice, having moved one byte in between. */
  function OneByteMoved(p: ProcessInfo, step: nat): seq<Snapshot> {
    [Snapshot(0, [p])] + [Snapshot(step, [OneByteOn(p)])]
  }

  lemma OneByteSeen(p: ProcessInfo, cfg: Config, step: nat)
    requires !Skipped(cfg, p) && !Skipped(cfg, OneByteOn(p))
    ensures LogOf(OneByteMoved(p, step), p.pid, cfg)
         == [] + [Seen(0, p.cpu, IOSum(p))] + [Seen(step, p.cpu, IOSum(OneByteOn(p)))]
  {
    assert LogOf([], p.pid, cfg) == [];
    hide LogOf, Tick, RunStates, ProcessEffects, Skipped, Verdict, IOSum, OneByteOn;
    OneMoreSnapshot([], Snapshot(0, [p]), p, cfg);
    assert [] + [Snapshot(0, [p])] == [Snapshot(0, [p])];
    OneMoreSnapshot([Snapshot(0, [p])], Snapshot(step, [OneByteOn(p)]), OneByteOn(p), cfg);
  }

  lemma OneByteFacts(p: ProcessInfo, cfg: Config)
    requires !Skipped(cfg, p) && p.ioRead + p.ioWrite + 1 < WORD
    ensures IOSum(OneByteOn(p)) == IOSum(p) + 1 && !Skipped(cfg, OneByteOn(p))
  {
  }

  /** The promise fails: a process that only ever moved one byte is alerted once it has been idle for long enough. */
  lemma OneByteIsAlerted(p: ProcessInfo, cfg: Config, step: nat, idle: nat)
    requires !Skipped(cfg, p) && 0.0 <= p.cpu <= 0.5 && p.ioRead + p.ioWrite + 1 < WORD
    requires idle >= cfg.zeroActivity
    ensures ShowedLittle(LogOf(OneByteMoved(p, step) + [Snapshot(step + idle, [OneByteOn(p)])], p.pid, cfg))
    ensures ProcessEffects(Tick(RunStates(OneByteMoved(p, step), cfg), step + idle, [OneByteOn(p)], cfg).effects, p.pid)
         == [Raise(p.pid, idle >= cfg.criticalAfter, idle)]
  {
    OneByteFacts(p, cfg);
    hide LogOf, Tick, RunStates, ProcessEffects, Skipped, Verdict, IOSum, OneByteMoved, ShowedLittle, OneByteOn;
    OneByteSeen(p, cfg, step);
    OneMoreSnapshot(OneByteMoved(p, step), Snapshot(step + idle, [OneByteOn(p)]), OneByteOn(p), cfg);
    OneByteLog(p.cpu, IOSum(p), step, step + idle, p.pid, cfg);
  }

  lemma OneByteLog(cpu: real, io: nat, step: nat, later: int, pid: PID, cfg: Config)
    requires 0.0 <= cpu <= 0.5 && later - step >= cfg.zeroActivity
    ensures var log := [] + [Seen(0, cpu, io)] + [Seen(step, cpu, io + 1)] + [Seen(later, cpu, io + 1)];
            && ShowedLittle(log)
            && Verdict(log, pid, cfg) == [Raise(pid, later - step >= cfg.criticalAfter, later - step)]
  {
    var log := [] + [Seen(0, cpu, io)] + [Seen(step, cpu, io + 1)];
    assert log[0].io == io && BusyAt(log, 1) && Last(log) == log[1] && |log| == 2;
    IdleVerdict(log, later, cpu, pid, cfg);
  }

  lemma OneMoreSnapshot(run: seq<Snapshot>, s: Snapshot, p: ProcessInfo, cfg: Config)
    requires s.procs == [p] && !Skipped(cfg, p)
    ensures LogOf(run + [s], p.pid, cfg) == LogOf(run, p.pid, cfg) + [Seen(s.now, p.cpu, IOSum(p))]
    ensures ProcessEffects(Tick(RunStates(run, cfg), s.now, [p], cfg).effects, p.pid)
        == Verdict(LogOf(run + [s], p.pid, cfg), p.pid, cfg)
  {
    var run' := run + [s];
    assert Front(run') == run && Last(run') == s && Front([p]) == [];
    assert p.pid in Live([p]);
    DetectorFollowsLog(run', cfg, p.pid);
    hide Tick, RunStates, ProcessEffects, Skipped, Verdict;
    var log, more := LogOf(run, p.pid, cfg), [Seen(s.now, p.cpu, IOSum(p))];
    assert Observations(s.now, [], p.pid, cfg) == [];
    assert Observations(s.now, [p], p.pid, cfg) == [] + more == more;
    assert Verdicts(log, s.now, [], p.pid, cfg) == [];
    assert Verdicts(log, s.now, [p], p.pid, cfg) == [] + Verdict(log + more, p.pid, cfg);
  }
}
