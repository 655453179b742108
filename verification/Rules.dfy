/** The rules detector: hit streaks, actions and cooldowns per (rule, process). */
module RuleActions {
  import opened Seqs
  import opened Keys
  import opened Processes
  import opened Texts
  import opened Durations

  datatype Rule = Rule(
    name: string, enabled: bool, pattern: string, metric: string, op: string, threshold: real,
    hold: int, action: string, cooldown: int)

  datatype Kind = Kill | Suspend

  /** Everything a tick is judged with besides rules and processes. No actuator may be wired. */
  datatype Env = Env(text: Text, ignored: string -> bool, actuator: Option<(Kind, string, PID) -> bool>)

  predicate Contains(s: string, sub: string) {
    exists i :: 0 <= i <= |s| && sub <= s[i..]
  }

  function MetricValue(text: Text, metric: string, p: ProcessInfo): Option<real> {
    var m := text.lower(text.trim(metric));
    if m == "cpu_percent" || m == "cpu" then Some(p.cpu)
    else if m == "memory_bytes" || m == "memory" || m == "working_set" then Some(p.workingSet as real)
    else if m == "private_bytes" then Some(p.privateBytes as real)
    else if m == "thread_count" || m == "threads" then Some(p.threads as real)
    else None
  }

  function OpOrDefault(text: Text, op: string): string {
    if text.trim(op) == "" then ">=" else text.trim(op)
  }

  predicate Compare(text: Text, value: real, op: string, threshold: real) {
    var op := OpOrDefault(text, op);
    || (op == ">" && value > threshold)
    || (op == ">=" && value >= threshold)
    || (op == "<" && value < threshold)
    || (op == "<=" && value <= threshold)
  }

  /**
    The metric names the detector knows, what they read, and how readings are compared; any other name reads
    nothing, and any other operator compares false.
  */
  lemma MetricsRead(text: Text, metric: string, p: ProcessInfo)
    ensures var key := text.lower(text.trim(metric));
            && (key in {"cpu_percent", "cpu"} ==> MetricValue(text, metric, p) == Some(p.cpu))
            && (key in {"memory_bytes", "memory", "working_set"} ==>
                  MetricValue(text, metric, p) == Some(p.workingSet as real))
            && (key == "private_bytes" ==> MetricValue(text, metric, p) == Some(p.privateBytes as real))
            && (key in {"thread_count", "threads"} ==> MetricValue(text, metric, p) == Some(p.threads as real))
            && (MetricValue(text, metric, p).Some? ==>
                  key in {"cpu_percent", "cpu", "memory_bytes", "memory", "working_set", "private_bytes",
                          "thread_count", "threads"})
  {
  }

  lemma OperatorsCompare(text: Text, value: real, op: string, threshold: real)
    ensures text.trim(op) == "" ==> (Compare(text, value, op, threshold) <==> value >= threshold)
    ensures text.trim(op) == ">=" ==> (Compare(text, value, op, threshold) <==> value >= threshold)
    ensures text.trim(op) == ">" ==> (Compare(text, value, op, threshold) <==> value > threshold)
    ensures text.trim(op) == "<=" ==> (Compare(text, value, op, threshold) <==> value <= threshold)
    ensures text.trim(op) == "<" ==> (Compare(text, value, op, threshold) <==> value < threshold)
    ensures text.trim(op) !in {"", ">", ">=", "<", "<="} ==> !Compare(text, value, op, threshold)
  {
  }

  /** How a rule finds a process on one tick. */
  datatype Match = Absent | Miss | Hit

  function Judge(env: Env, r: Rule, p: ProcessInfo): Match {
    if !r.enabled || env.text.trim(r.pattern) == "" then Absent
    else if !Contains(env.text.lower(p.name), env.text.lower(env.text.trim(r.pattern))) then Absent
    else if env.ignored(p.name) then Absent
    else
      var v := MetricValue(env.text, r.metric, p);
      if v.None? then Absent else if Compare(env.text, v.value, r.op, r.threshold) then Hit else Miss
  }

  /**
    A rule judges a process exactly if it is enabled, has a pattern, finds it in the folded name of a process
    that is not ignored, and knows the metric; it hits exactly if the reading compares true.
  */
  lemma JudgeOnFields(env: Env, r: Rule, p: ProcessInfo)
    ensures var pattern := env.text.trim(r.pattern);
            var found := exists before: string, after: string ::
                           env.text.lower(p.name) == before + env.text.lower(pattern) + after;
            var reading := MetricValue(env.text, r.metric, p);
            && (Judge(env, r, p) != Absent <==>
                  r.enabled && pattern != "" && found && !env.ignored(p.name) && reading.Some?)
            && (Judge(env, r, p) != Absent ==>
                  (Judge(env, r, p) == Hit <==> Compare(env.text, reading.value, r.op, r.threshold)))
  {
    hide MetricValue, Compare;
    ContainsIff(env.text.lower(p.name), env.text.lower(env.text.trim(r.pattern)));
  }

  lemma ContainsIff(s: string, sub: string)
    ensures Contains(s, sub) <==> exists before: string, after: string :: s == before + sub + after
  {
    if Contains(s, sub) {
      var i :| 0 <= i <= |s| && sub <= s[i..];
      assert s == s[..i] + sub + s[i + |sub|..];
    }
    if before: string, after: string :| s == before + sub + after {
      assert sub <= s[|before|..];
    }
  }

  function EffectiveCooldown(r: Rule): (c: int)
    ensures c > 0
  {
    if r.cooldown <= 0 then MINUTE else r.cooldown
  }

  /** The action the rule asks for, if it is more than an alert. */
  function ActionKind(text: Text, r: Rule): Option<Kind> {
    var a := text.lower(text.trim(r.action));
    if a == "kill" then Some(Kill) else if a == "suspend" then Some(Suspend) else None
  }

  // ---- one (rule, process) pair ----

  datatype RuleState = RuleState(matchingSince: int, lastActionAt: Option<int>)

  datatype Effect =
    | ClearAlert(rule: string, pid: PID)
    | RaiseAlert(rule: string, pid: PID)
    | Attempt(kind: Kind, rule: string, pid: PID, ok: bool)

  /** May the pair act now, given its state after the hit was noted? */
  predicate Due(env: Env, r: Rule, st: RuleState, now: int) {
    && now - st.matchingSince >= r.hold
    && ActionKind(env.text, r).Some? && env.actuator.Some?
    && (st.lastActionAt.Some? ==> now - st.lastActionAt.value >= EffectiveCooldown(r))
  }

  function OnHit(env: Env, r: Rule, pid: PID, st: Option<RuleState>, now: int): (RuleState, seq<Effect>) {
    var st := if st.Some? then st.value else RuleState(now, None);
    if now - st.matchingSince < r.hold then (st, [])
    else if !Due(env, r, st, now) then (st, [RaiseAlert(r.name, pid)])
    else
      var kind := ActionKind(env.text, r).value;
      var ok := env.actuator.value(kind, r.name, pid);
      (if ok then st.(lastActionAt := Some(now)) else st, [RaiseAlert(r.name, pid), Attempt(kind, r.name, pid, ok)])
  }

  function PairStep(env: Env, r: Rule, pid: PID, st: Option<RuleState>, m: Match, now: int)
    : (Option<RuleState>, seq<Effect>)
  {
    match m
    case Absent => (None, [])
    case Miss => (None, [ClearAlert(r.name, pid)])
    case Hit => var (st', effects) := OnHit(env, r, pid, st, now); (Some(st'), effects)
  }

  // ---- one tick over all rules and processes ----

  datatype Acc = Acc(states: map<string, RuleState>, live: set<string>, effects: seq<Effect>)

  function Lookup(states: map<string, RuleState>, key: string): Option<RuleState> {
    if key in states then Some(states[key]) else None
  }

  function Visit(env: Env, a: Acc, r: Rule, p: ProcessInfo, now: int): Acc {
    var key := Key(r.name, p.pid);
    match Judge(env, r, p)
    case Absent => a
    case Miss => Acc(a.states - {key}, a.live + {key}, a.effects + [ClearAlert(r.name, p.pid)])
    case Hit =>
      var (st, effects) := OnHit(env, r, p.pid, Lookup(a.states, key), now);
      Acc(a.states[key := st], a.live + {key}, a.effects + effects)
  }

  function VisitProcs(env: Env, a: Acc, r: Rule, procs: seq<ProcessInfo>, now: int): Acc {
    if procs == [] then a else Visit(env, VisitProcs(env, a, r, Front(procs), now), r, Last(procs), now)
  }

  function VisitRules(env: Env, a: Acc, rules: seq<Rule>, procs: seq<ProcessInfo>, now: int): Acc {
    if rules == [] then a
    else VisitProcs(env, VisitRules(env, a, Front(rules), procs, now), Last(rules), procs, now)
  }

  function Tick(env: Env, states: map<string, RuleState>, rules: seq<Rule>, procs: seq<ProcessInfo>, now: int)
    : (map<string, RuleState>, seq<Effect>)
  {
    if rules == [] then (states, [])
    else
      var a := VisitRules(env, Acc(states, {}, []), rules, procs, now);
      (map k | k in a.states && k in a.live :: a.states[k], a.effects)
  }

  class RulesDetector {
    var states: map<string, RuleState>

    constructor ()
      ensures states == map[]
    {
      states := map[];
    }

    /** A hit: note it, wait out the hold time, raise the alert, act unless cooling down. */
    method HandleHit(env: Env, r: Rule, p: ProcessInfo, now: int) returns (effects: seq<Effect>)
      modifies this
      ensures var (st, e) := OnHit(env, r, p.pid, Lookup(old(states), Key(r.name, p.pid)), now);
              states == old(states)[Key(r.name, p.pid) := st] && effects == e
    {
      var digits := Uint32ToA(p.pid);
      var key := r.name + "/" + digits;
      assert key == Key(r.name, p.pid);
      if key !in states {
        states := states[key := RuleState(now, None)];
      } else {
        assert states[key := states[key]] == states;
      }
      var st := states[key];
      effects := [];
      if now - st.matchingSince < r.hold {
        return;
      }
      var cooldown := r.cooldown;
      if cooldown <= 0 {
        cooldown := MINUTE;
      }
      effects := [RaiseAlert(r.name, p.pid)];
      var kind := ActionKind(env.text, r);
      if kind.None? {
        return;
      }
      if st.lastActionAt.Some? && now - st.lastActionAt.value < cooldown {
        return;
      }
      if env.actuator.None? {
        return;
      }
      var ok := env.actuator.value(kind.value, r.name, p.pid);
      if ok {
        states := states[key := st.(lastActionAt := Some(now))];
      }
      effects := effects + [Attempt(kind.value, r.name, p.pid, ok)];
    }

    method AnalyzeRule(env: Env, r: Rule, procs: seq<ProcessInfo>, now: int, live0: set<string>, effects0: seq<Effect>)
      returns (live: set<string>, effects: seq<Effect>)
      modifies this
      ensures Acc(states, live, effects) == VisitProcs(env, Acc(old(states), live0, effects0), r, procs, now)
    {
      live, effects := live0, effects0;
      for i := 0 to |procs|
        invariant Acc(states, live, effects) == VisitProcs(env, Acc(old(states), live0, effects0), r, procs[..i], now)
      {
        var p := procs[i];
        assert Front(procs[..i+1]) == procs[..i] && Last(procs[..i+1]) == p;
        var m := Judge(env, r, p);
        if m == Absent {
          continue;
        }
        var key := Key(r.name, p.pid);
        live := live + {key};
        if m == Miss {
          states := states - {key};
          effects := effects + [ClearAlert(r.name, p.pid)];
          continue;
        }
        var more := HandleHit(env, r, p, now);
        effects := effects + more;
      }
      assert procs[..|procs|] == procs;
    }

    method Analyze(env: Env, rules: seq<Rule>, procs: seq<ProcessInfo>, now: int) returns (effects: seq<Effect>)
      modifies this
      ensures (states, effects) == Tick(env, old(states), rules, procs, now)
    {
      effects := [];
      if |rules| == 0 {
        return;
      }
      var live: set<string> := {};
      for i := 0 to |rules|
        invariant Acc(states, live, effects) == VisitRules(env, Acc(old(states), {}, []), rules[..i], procs, now)
      {
        assert Front(rules[..i+1]) == rules[..i] && Last(rules[..i+1]) == rules[i];
        live, effects := AnalyzeRule(env, rules[i], procs, now, live, effects);
      }
      assert rules[..|rules|] == rules;
      DropDead(live);
    }

    /** Forgets the pairs no process was judged for on this tick. */
    method DropDead(live: set<string>)
      modifies this
      ensures states == map k | k in old(states) && k in live :: old(states)[k]
    {
      var todo := states.Keys;
      while todo != {}
        invariant todo <= states.Keys <= old(states).Keys
        invariant forall k :: k in states ==> states[k] == old(states)[k]
        invariant forall k :: k in old(states) ==> (k in states <==> k in todo || k in live)
      {
        var k :| k in todo;
        if k !in live {
          states := states - {k};
        }
        todo := todo - {k};
      }
    }
  }

  // ---- a tick treats every pair on its own ----

  ghost predicate DistinctNames(rules: seq<Rule>) {
    forall i, j :: 0 <= i < j < |rules| ==> rules[i].name != rules[j].name
  }

  /** How the rule finds the process with this id, if it is listed. */
  function MatchOf(env: Env, r: Rule, procs: seq<ProcessInfo>, pid: PID): Match {
    if procs == [] then Absent
    else if Last(procs).pid == pid then Judge(env, r, Last(procs))
    else MatchOf(env, r, Front(procs), pid)
  }

  function AboutPair(rule: string, pid: PID): Effect -> bool {
    (e: Effect) => e.rule == rule && e.pid == pid
  }

  function PairEffects(effects: seq<Effect>, rule: string, pid: PID): seq<Effect> {
    Select(effects, AboutPair(rule, pid))
  }

  lemma {:induction false} AllPairEffects(effects: seq<Effect>, rule: string, pid: PID, mine: bool)
    requires forall e :: e in effects ==> ((e.rule == rule && e.pid == pid) <==> mine)
    ensures PairEffects(effects, rule, pid) == if mine then effects else []
  {
    if effects != [] {
      assert forall e :: e in Front(effects) ==> e in effects;
      assert Last(effects) in effects;
      AllPairEffects(Front(effects), rule, pid, mine);
      assert effects == Front(effects) + [Last(effects)];
    }
  }

  /** What an accumulator says about one pair: its state, whether it was judged, its effects. */
  datatype Slot = Slot(state: Option<RuleState>, live: bool, effects: seq<Effect>)

  function SlotOf(a: Acc, rule: string, pid: PID): Slot {
    Slot(Lookup(a.states, Key(rule, pid)), Key(rule, pid) in a.live, PairEffects(a.effects, rule, pid))
  }

  /** The slot of the pair after the process was judged m. */
  function Judged(env: Env, s: Slot, r: Rule, pid: PID, m: Match, now: int): Slot {
    if m == Absent then s
    else
      var (st, effects) := PairStep(env, r, pid, s.state, m, now);
      Slot(st, true, s.effects + effects)
  }

  lemma VisitSlot(env: Env, a: Acc, r: Rule, p: ProcessInfo, now: int, rule: string, pid: PID)
    ensures SlotOf(Visit(env, a, r, p, now), rule, pid)
         == if r.name == rule && p.pid == pid then Judged(env, SlotOf(a, rule, pid), r, pid, Judge(env, r, p), now)
            else SlotOf(a, rule, pid)
  {
    hide Judge, Key, Select, Due;
    var mine := r.name == rule && p.pid == pid;
    if Key(r.name, p.pid) == Key(rule, pid) {
      SplitsAtLastSlash(r.name, p.pid, rule, pid);
    }
    var (st, more) := PairStep(env, r, p.pid, Lookup(a.states, Key(r.name, p.pid)), Judge(env, r, p), now);
    AllPairEffects(more, rule, pid, mine);
    SelectAppend(a.effects, more, AboutPair(rule, pid));
    assert PairEffects(a.effects, rule, pid) + [] == PairEffects(a.effects, rule, pid);
  }

  lemma {:induction false} VisitProcsSlot(env: Env, a: Acc, r: Rule, procs: seq<ProcessInfo>, now: int, rule: string,
      pid: PID)
    requires Distinct(procs)
    ensures SlotOf(VisitProcs(env, a, r, procs, now), rule, pid)
         == if r.name == rule then Judged(env, SlotOf(a, rule, pid), r, pid, MatchOf(env, r, procs, pid), now)
            else SlotOf(a, rule, pid)
  {
    hide Judge, SlotOf, PairStep, Visit;
    if procs != [] {
      VisitProcsSlot(env, a, r, Front(procs), now, rule, pid);
      VisitSlot(env, VisitProcs(env, a, r, Front(procs), now), r, Last(procs), now, rule, pid);
      if Last(procs).pid == pid {
        AbsentWhenUnlisted(env, r, Front(procs), pid);
      }
    }
  }

  /** The one process listed with this id is the one that is judged. */
  lemma {:induction false} MatchWhenListed(env: Env, r: Rule, procs: seq<ProcessInfo>, i: nat)
    requires Distinct(procs) && i < |procs|
    ensures MatchOf(env, r, procs, procs[i].pid) == Judge(env, r, procs[i])
  {
    if i < |procs| - 1 {
      MatchWhenListed(env, r, Front(procs), i);
    }
  }

  lemma {:induction false} AbsentWhenUnlisted(env: Env, r: Rule, procs: seq<ProcessInfo>, pid: PID)
    requires forall i :: 0 <= i < |procs| ==> procs[i].pid != pid
    ensures MatchOf(env, r, procs, pid) == Absent
  {
    if procs != [] {
      AbsentWhenUnlisted(env, r, Front(procs), pid);
    }
  }

  lemma {:induction false} VisitRulesSlot(env: Env, a: Acc, rules: seq<Rule>, procs: seq<ProcessInfo>, now: int,
      r: Rule, pid: PID)
    requires Distinct(procs) && DistinctNames(rules)
    requires r in rules || forall i :: 0 <= i < |rules| ==> rules[i].name != r.name
    ensures SlotOf(VisitRules(env, a, rules, procs, now), r.name, pid)
         == if r in rules then Judged(env, SlotOf(a, r.name, pid), r, pid, MatchOf(env, r, procs, pid), now)
            else SlotOf(a, r.name, pid)
  {
    hide SlotOf, Judged, VisitProcs;
    if rules != [] {
      var n := |rules| - 1;
      assert rules == Front(rules) + [Last(rules)];
      if r in Front(rules) {
        var i :| 0 <= i < n && Front(rules)[i] == r;
        assert rules[i].name != rules[n].name;
      }
      VisitRulesSlot(env, a, Front(rules), procs, now, r, pid);
      VisitProcsSlot(env, VisitRules(env, a, Front(rules), procs, now), Last(rules), procs, now, r.name, pid);
    }
  }

  /**
    With distinctly named rules and distinct process ids, a tick advances each pair by its own small
    machine, whatever the other rules and processes do.
  */
  lemma TickIsPairwise(env: Env, states: map<string, RuleState>, rules: seq<Rule>, procs: seq<ProcessInfo>, now: int,
      r: Rule, pid: PID)
    requires Distinct(procs) && DistinctNames(rules) && r in rules
    ensures var key := Key(r.name, pid); var (states', effects) := Tick(env, states, rules, procs, now);
            (Lookup(states', key), PairEffects(effects, r.name, pid))
            == PairStep(env, r, pid, Lookup(states, key), MatchOf(env, r, procs, pid), now)
  {
    VisitRulesSlot(env, Acc(states, {}, []), rules, procs, now, r, pid);
    hide VisitRules, MatchOf, OnHit, Key;
    var a := VisitRules(env, Acc(states, {}, []), rules, procs, now);
    assert SlotOf(Acc(states, {}, []), r.name, pid) == Slot(Lookup(states, Key(r.name, pid)), false, []);
    var (st, more) := PairStep(env, r, pid, Lookup(states, Key(r.name, pid)), MatchOf(env, r, procs, pid), now);
    assert [] + more == more;
  }
}
