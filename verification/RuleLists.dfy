/** Rules on the wire and rules in the configuration: parsing, printing, and the two ways a list is changed. */
module RuleLists {
  import opened Seqs
  import opened Texts
  import opened RuleActions
  import opened Durations

  const HALF: int := 0x8000_0000_0000_0000
  const DAY_SECONDS: int := 86400

  /** 64-bit signed wrap-around. */
  function Wrap64(x: int): (r: int)
    ensures -HALF <= r < HALF
    ensures -HALF <= x < HALF ==> r == x
  {
    (x + HALF) % (2 * HALF) - HALF
  }

  /** Integer division toward zero. */
  function Quot(x: int, y: int): int
    requires y > 0
  {
    if x >= 0 then x / y else -((-x) / y)
  }

  /** A count of seconds as a 64-bit duration in nanoseconds. */
  function Duration(seconds: int): int {
    Wrap64(seconds * SECOND)
  }

  datatype RuleDTO = RuleDTO(
    name: string, enabled: bool, pattern: string, metric: string, op: string, threshold: real,
    forSeconds: int, action: string, cooldownSeconds: int)

  datatype Problem =
    | NameRequired | DuplicateName | PatternRequired | BadMetric | BadOp | BadAction | BadHold | RuleRequired

  datatype Parsed<+T> = Accepted(value: T) | Rejected(index: nat, problem: Problem)

  /** Durations are 64-bit. */
  ghost predicate Sized(rs: seq<Rule>) {
    forall i :: 0 <= i < |rs| ==> -HALF <= rs[i].hold < HALF && -HALF <= rs[i].cooldown < HALF
  }

  // ---- printing ----

  function ToDTO(r: Rule): RuleDTO {
    RuleDTO(r.name, r.enabled, r.pattern, r.metric, r.op, r.threshold, Quot(r.hold, SECOND), r.action, Quot(r.cooldown,
        SECOND))
  }

  function ToDTOs(rs: seq<Rule>): (ds: seq<RuleDTO>)
    ensures |ds| == |rs|
  {
    if rs == [] then [] else ToDTOs(Front(rs)) + [ToDTO(Last(rs))]
  }

  method RulesToDTO(rs: seq<Rule>) returns (ds: seq<RuleDTO>)
    ensures ds == ToDTOs(rs)
  {
    ds := [];
    for i := 0 to |rs|
      invariant ds == ToDTOs(rs[..i])
    {
      assert Front(rs[..i+1]) == rs[..i] && Last(rs[..i+1]) == rs[i];
      ds := ds + [ToDTO(rs[i])];
    }
    assert rs[..|rs|] == rs;
  }

  // ---- parsing ----

  function ActionOf(t: Text, action: string): string {
    if t.lower(t.trim(action)) == "" then "alert" else t.lower(t.trim(action))
  }

  function NonNegative(x: int): nat {
    if x < 0 then 0 else x
  }

  /** The first problem of one rule, in the order the checks are made. */
  function ProblemOf(t: Text, d: RuleDTO, seen: set<string>): Option<Problem> {
    if t.trim(d.name) == "" then Some(NameRequired)
    else if t.trim(d.name) in seen then Some(DuplicateName)
    else if t.trim(d.pattern) == "" then Some(PatternRequired)
    else if t.lower(t.trim(d.metric)) !in METRICS then Some(BadMetric)
    else if OpOrDefault(t, d.op) !in OPS then Some(BadOp)
    else if ActionOf(t, d.action) !in ACTIONS then Some(BadAction)
    else if d.forSeconds < 0 || d.forSeconds > DAY_SECONDS then Some(BadHold)
    else None
  }

  function RuleOf(t: Text, d: RuleDTO): Rule {
    Rule(t.trim(d.name), d.enabled, d.pattern, t.lower(t.trim(d.metric)), OpOrDefault(t, d.op), d.threshold,
         Duration(d.forSeconds), ActionOf(t, d.action), Duration(NonNegative(d.cooldownSeconds)))
  }

  function Names(rs: seq<Rule>): set<string> {
    set i | 0 <= i < |rs| :: rs[i].name
  }

  function FromDTOs(t: Text, ds: seq<RuleDTO>): Parsed<seq<Rule>> {
    if ds == [] then Accepted([])
    else
      var front := FromDTOs(t, Front(ds));
      if front.Rejected? then front
      else
        var p := ProblemOf(t, Last(ds), Names(front.value));
        if p.Some? then Rejected(|ds| - 1, p.value) else Accepted(front.value + [RuleOf(t, Last(ds))])
  }

  method RulesFromDTO(t: Text, ds: seq<RuleDTO>) returns (r: Parsed<seq<Rule>>)
    ensures r == FromDTOs(t, ds)
  {
    var out: seq<Rule> := [];
    var seen: set<string> := {};
    for i := 0 to |ds|
      invariant FromDTOs(t, ds[..i]) == Accepted(out) && seen == Names(out)
    {
      assert Front(ds[..i+1]) == ds[..i] && Last(ds[..i+1]) == ds[i];
      var p := Check(t, ds[i], seen);
      if p.Some? {
        RejectionStays(t, ds, i + 1);
        return Rejected(i, p.value);
      }
      OneMoreName(out, RuleOf(t, ds[i]));
      seen := seen + {t.trim(ds[i].name)};
      out := out + [RuleOf(t, ds[i])];
    }
    assert ds[..|ds|] == ds;
    r := Accepted(out);
  }

  /** The checks on one rule, one after the other. */
  method Check(t: Text, d: RuleDTO, seen: set<string>) returns (p: Option<Problem>)
    ensures p == ProblemOf(t, d, seen)
  {
    hide KnownMetric, KnownOp, KnownAction;
    var name := t.trim(d.name);
    if name == "" {
      return Some(NameRequired);
    }
    if name in seen {
      return Some(DuplicateName);
    }
    if t.trim(d.pattern) == "" {
      return Some(PatternRequired);
    }
    var metric := t.lower(t.trim(d.metric));
    if !KnownMetric(metric) {
      return Some(BadMetric);
    }
    var op := t.trim(d.op);
    if op == "" {
      op := ">=";
    }
    if !KnownOp(op) {
      return Some(BadOp);
    }
    var action := t.lower(t.trim(d.action));
    if action == "" {
      action := "alert";
    }
    if !KnownAction(action) {
      return Some(BadAction);
    }
    if d.forSeconds < 0 || d.forSeconds > DAY_SECONDS {
      return Some(BadHold);
    }
    p := None;
  }

  lemma OneMoreName(rs: seq<Rule>, r: Rule)
    ensures Names(rs + [r]) == Names(rs) + {r.name}
  {
    forall x | x in Names(rs) + {r.name} ensures x in Names(rs + [r]) {
      if x in Names(rs) {
        var i :| 0 <= i < |rs| && rs[i].name == x;
        assert (rs + [r])[i].name == x;
      } else {
        assert (rs + [r])[|rs|].name == x;
      }
    }
    forall x | x in Names(rs + [r]) ensures x in Names(rs) + {r.name} {
      var i :| 0 <= i < |rs + [r]| && (rs + [r])[i].name == x;
      assert i < |rs| ==> rs[i].name == x;
    }
  }

  lemma {:induction false} RejectionStays(t: Text, ds: seq<RuleDTO>, n: nat)
    requires n <= |ds| && FromDTOs(t, ds[..n]).Rejected?
    ensures FromDTOs(t, ds) == FromDTOs(t, ds[..n])
  {
    if n == |ds| {
      assert ds[..n] == ds;
    } else {
      assert Front(ds)[..n] == ds[..n];
      RejectionStays(t, Front(ds), n);
    }
  }

  // ---- the rules that survive a round trip ----

  ghost predicate NormalRule(t: Text, r: Rule) {
    && t.trim(r.name) == r.name != "" && t.trim(r.pattern) != ""
    && r.metric in METRICS && r.op in OPS && r.action in ACTIONS
    && 0 <= r.hold <= DAY_SECONDS * SECOND && r.hold % SECOND == 0
    && r.cooldown >= 0 && r.cooldown % SECOND == 0
  }

  ghost predicate Normal(t: Text, rs: seq<Rule>) {
    && (forall i :: 0 <= i < |rs| ==> NormalRule(t, rs[i]))
    && DistinctNames(rs)
  }

  lemma NormalSplits(t: Text, rs: seq<Rule>, r: Rule)
    ensures Normal(t, rs + [r]) <==> Normal(t, rs) && NormalRule(t, r) && r.name !in Names(rs)
  {
    var all := rs + [r];
    assert all[|rs|] == r && forall i :: 0 <= i < |rs| ==> all[i] == rs[i];
    hide NormalRule;
    if r.name in Names(rs) {
      var i :| 0 <= i < |rs| && rs[i].name == r.name;
      assert all[i].name == all[|rs|].name;
    }
    if Normal(t, all) {
      assert forall i, j :: 0 <= i < j < |rs| ==> all[i].name != all[j].name;
      assert forall i :: 0 <= i < |rs| ==> NormalRule(t, all[i]);
    }
    if r.name !in Names(rs) {
      assert forall i :: 0 <= i < |rs| ==> rs[i].name in Names(rs);
    }
  }

  lemma WholeSeconds(x: int)
    requires -HALF <= x < HALF
    ensures 0 <= x && x % SECOND == 0 ==> Duration(Quot(x, SECOND)) == x && Quot(x, SECOND) >= 0
    ensures Duration(NonNegative(Quot(x, SECOND))) == x ==> 0 <= x && x % SECOND == 0
    ensures 0 <= Quot(x, SECOND) <= DAY_SECONDS && Duration(Quot(x, SECOND)) == x ==>
              0 <= x <= DAY_SECONDS * SECOND && x % SECOND == 0
    ensures 0 <= x <= DAY_SECONDS * SECOND ==> Quot(x, SECOND) <= DAY_SECONDS
  {
    if x >= 0 {
      assert 0 <= (x / SECOND) * SECOND <= x;
    }
  }

  /** One rule survives the trip through the wire form exactly when it is normal. */
  lemma RuleRoundTrip(t: Text, r: Rule, seen: set<string>)
    requires Lawful(t) && -HALF <= r.hold < HALF && -HALF <= r.cooldown < HALF
    ensures ProblemOf(t, ToDTO(r), seen) == None && RuleOf(t, ToDTO(r)) == r
            <==> NormalRule(t, r) && r.name !in seen
  {
    WholeSeconds(r.hold);
    WholeSeconds(r.cooldown);
    hide Quot, Duration;
    if r.metric in METRICS { assert r.metric in METRICS + ACTIONS; }
    if r.action in ACTIONS { assert r.action in METRICS + ACTIONS; }
  }

  /**
    Printing a rule list and parsing it back gives the same list exactly when the list is normal:
    trimmed distinct names, keywords in canonical form, whole non-negative seconds within range.
  */
  lemma {:induction false} RoundTripIff(t: Text, rs: seq<Rule>)
    requires Lawful(t) && Sized(rs)
    ensures FromDTOs(t, ToDTOs(rs)) == Accepted(rs) <==> Normal(t, rs)
  {
    hide Lawful, NormalRule, ProblemOf, RuleOf, ToDTO;
    if rs != [] {
      var front, r := Front(rs), Last(rs);
      assert rs == front + [r] && Front(ToDTOs(rs)) == ToDTOs(front);
      assert forall i :: 0 <= i < |front| ==> front[i] == rs[i];
      RoundTripIff(t, front);
      NormalSplits(t, front, r);
      RuleRoundTrip(t, r, Names(front));
      var parsed := FromDTOs(t, ToDTOs(front));
      if FromDTOs(t, ToDTOs(rs)) == Accepted(rs) {
        assert Front(rs) == parsed.value;
      }
    }
  }

  // ---- what parsing accepts ----

  /** The largest count of whole seconds in a 64-bit duration, some 292 years. */
  const MAX_SECONDS: int := 9_223_372_036
  /** Seconds this far apart give the same 64-bit duration, because a second is 2^9 * 5^9 nanoseconds. */
  const PERIOD: int := 0x80_0000_0000_0000

  /** Negative cooldowns count as zero; any other fits when what is left of it after whole periods does. */
  predicate CooldownFits(seconds: int) {
    seconds < 0 || seconds % PERIOD <= MAX_SECONDS
  }

  lemma DurationIsPeriodic(seconds: int)
    ensures Duration(seconds) == Duration(seconds % PERIOD)
  {
    var q, m := seconds / PERIOD, seconds % PERIOD;
    assert seconds * SECOND == m * SECOND + (q * 1953125) * (2 * HALF);
    WrapIsPeriodic(m * SECOND, q * 1953125);
  }

  lemma WrapIsPeriodic(x: int, k: int)
    ensures Wrap64(x + k * (2 * HALF)) == Wrap64(x)
  {
    var y, z := x + HALF, x + k * (2 * HALF) + HALF;
    assert z == (y / (2 * HALF) + k) * (2 * HALF) + y % (2 * HALF);
  }

  /** Within one period only the counts up to the maximum come out as whole non-negative seconds. */
  lemma FitsInPeriod(m: int)
    requires 0 <= m < PERIOD
    ensures Duration(m) >= 0 && Duration(m) % SECOND == 0 <==> m <= MAX_SECONDS
  {
    var d := Duration(m);
    if m <= MAX_SECONDS {
      assert d == m * SECOND;
      assert (m * SECOND) % SECOND == 0;
    }
    if d >= 0 && d % SECOND == 0 {
      var c, k := d / SECOND, (m * SECOND + HALF) / (2 * HALF);
      assert m * SECOND - c * SECOND == k * (2 * HALF);
      assert (m - c) * 1953125 == k * PERIOD;
      SameInPeriod(m, c, k);
    }
  }

  /** INVERSE * 5^9 == MULTIPLE * PERIOD + 1. */
  const INVERSE: int := 20211507185753197
  const MULTIPLE: int := 1095668

  /** 5^9 is invertible modulo a power of two. */
  lemma SameInPeriod(m: int, c: int, k: int)
    requires (m - c) * 1953125 == k * PERIOD && -PERIOD < m - c < PERIOD
    ensures m == c
  {
    assert (m - c) == PERIOD * (INVERSE * k - MULTIPLE * (m - c));
  }

  /** A cooldown comes out as whole non-negative seconds exactly when it fits. */
  lemma FitsIff(seconds: int)
    ensures CooldownFits(seconds) <==>
              Duration(NonNegative(seconds)) >= 0 && Duration(NonNegative(seconds)) % SECOND == 0
  {
    var n := NonNegative(seconds);
    DurationIsPeriodic(n);
    FitsInPeriod(n % PERIOD);
  }

  /** A cooldown comes out as the one asked for exactly up to the maximum. */
  lemma KeptIff(seconds: int)
    ensures Duration(NonNegative(seconds)) == NonNegative(seconds) * SECOND <==> seconds <= MAX_SECONDS
  {
  }

  lemma AcceptedRule(t: Text, d: RuleDTO, seen: set<string>)
    requires Lawful(t) && ProblemOf(t, d, seen) == None
    ensures NormalRule(t, RuleOf(t, d)) <==> CooldownFits(d.cooldownSeconds)
    ensures RuleOf(t, d).name !in seen
  {
    assert 0 <= d.forSeconds * SECOND <= DAY_SECONDS * SECOND < HALF;
    assert (d.forSeconds * SECOND) % SECOND == 0;
    FitsIff(d.cooldownSeconds);
    hide Quot, CooldownFits;
  }

  predicate AllFit(ds: seq<RuleDTO>) {
    forall i :: 0 <= i < |ds| ==> CooldownFits(ds[i].cooldownSeconds)
  }

  lemma AllFitSplits(ds: seq<RuleDTO>)
    requires ds != []
    ensures AllFit(ds) <==> AllFit(Front(ds)) && CooldownFits(Last(ds).cooldownSeconds)
  {
    hide CooldownFits;
    assert forall i :: 0 <= i < |ds| - 1 ==> Front(ds)[i] == ds[i];
  }

  lemma OneMoreDistinct(rs: seq<Rule>, r: Rule)
    requires DistinctNames(rs) && r.name !in Names(rs) && Sized(rs) && Sized([r])
    ensures DistinctNames(rs + [r]) && Sized(rs + [r])
  {
    assert forall i :: 0 <= i < |rs| ==> rs[i].name in Names(rs);
    assert [r][0] == r;
  }

  /** Every accepted list is normal, and so survives the round trip, exactly when its cooldowns fit. */
  lemma {:induction false} AcceptedIsNormalIff(t: Text, ds: seq<RuleDTO>)
    requires Lawful(t) && FromDTOs(t, ds).Accepted?
    ensures var rs := FromDTOs(t, ds).value;
            && |rs| == |ds| && Sized(rs) && DistinctNames(rs)
            && (Normal(t, rs) <==> AllFit(ds))
            && (FromDTOs(t, ToDTOs(rs)) == Accepted(rs) <==> AllFit(ds))
  {
    AcceptedParts(t, ds);
    RoundTripIff(t, FromDTOs(t, ds).value);
  }

  lemma {:induction false} AcceptedParts(t: Text, ds: seq<RuleDTO>)
    requires Lawful(t) && FromDTOs(t, ds).Accepted?
    ensures var rs := FromDTOs(t, ds).value;
            && |rs| == |ds| && Sized(rs) && DistinctNames(rs)
            && (Normal(t, rs) <==> AllFit(ds))
  {
    if ds != [] {
      AcceptedParts(t, Front(ds));
      var front, d := FromDTOs(t, Front(ds)).value, Last(ds);
      var r := RuleOf(t, d);
      AcceptedRule(t, d, Names(front));
      NormalSplits(t, front, r);
      AllFitSplits(ds);
      assert Sized([r]);
      OneMoreDistinct(front, r);
      hide ProblemOf, Names, RuleOf, Lawful, NormalRule, CooldownFits, AllFit, Normal, Sized, DistinctNames;
    }
  }

  /** Parsing works rule by rule. */
  lemma {:induction false} AcceptedOneByOne(t: Text, ds: seq<RuleDTO>)
    requires FromDTOs(t, ds).Accepted?
    ensures var rs := FromDTOs(t, ds).value; |rs| == |ds| && forall i :: 0 <= i < |ds| ==> rs[i] == RuleOf(t, ds[i])
  {
    hide ProblemOf, RuleOf;
    if ds != [] {
      AcceptedOneByOne(t, Front(ds));
      assert forall i :: 0 <= i < |ds| - 1 ==> Front(ds)[i] == ds[i];
    }
  }

  /** Every rule got the cooldown that was asked for, a negative one counting as none. */
  ghost predicate CooldownsKept(rs: seq<Rule>, ds: seq<RuleDTO>)
    requires |rs| == |ds|
  {
    forall i :: 0 <= i < |ds| ==> rs[i].cooldown == NonNegative(ds[i].cooldownSeconds) * SECOND
  }

  /** An accepted list has the cooldowns asked for exactly when none is above the maximum. */
  lemma {:induction false} CooldownsKeptIff(t: Text, ds: seq<RuleDTO>)
    requires FromDTOs(t, ds).Accepted?
    ensures var rs := FromDTOs(t, ds).value;
            && |rs| == |ds|
            && (CooldownsKept(rs, ds) <==> forall i :: 0 <= i < |ds| ==> ds[i].cooldownSeconds <= MAX_SECONDS)
  {
    AcceptedOneByOne(t, ds);
    var rs := FromDTOs(t, ds).value;
    forall i | 0 <= i < |ds|
      ensures rs[i].cooldown == NonNegative(ds[i].cooldownSeconds) * SECOND <==> ds[i].cooldownSeconds <= MAX_SECONDS
    {
      KeptIff(ds[i].cooldownSeconds);
    }
    hide FromDTOs, NonNegative;
  }

  lemma PeriodIsNoTime()
    ensures Duration(NonNegative(PERIOD)) == 0
  {
    DurationIsPeriodic(PERIOD);
  }

  /**
    A cooldown of one whole period is accepted and survives every later round trip, but as no cooldown at
    all, which the detector takes for a minute.
  */
  lemma PeriodBecomesNothing(t: Text, d: RuleDTO)
    requires Lawful(t) && ProblemOf(t, d, {}) == None && d.cooldownSeconds == PERIOD
    ensures var r := RuleOf(t, d);
            && FromDTOs(t, [d]) == Accepted([r]) && FromDTOs(t, ToDTOs([r])) == Accepted([r])
            && r.cooldown == 0 && EffectiveCooldown(r) == MINUTE
  {
    PeriodIsNoTime();
    assert CooldownFits(PERIOD) && [d][0] == d;
    hide Duration, NonNegative, CooldownFits, Lawful;
    assert AllFit([d]);
    hide AllFit, ProblemOf;
    OneAccepted(t, d);
    hide FromDTOs;
    AcceptedIsNormalIff(t, [d]);
  }

  lemma OneAccepted(t: Text, d: RuleDTO)
    requires ProblemOf(t, d, {}) == None
    ensures FromDTOs(t, [d]) == Accepted([RuleOf(t, d)])
  {
    hide ProblemOf, RuleOf;
    var none: seq<Rule> := [];
    assert Front([d]) == [] && FromDTOs(t, []) == Accepted(none) && Names(none) == {};
    assert none + [RuleOf(t, d)] == [RuleOf(t, d)];
  }

  // ---- acceptance, field by field ----

  /** What the checks ask of one rule, apart from its name being new. */
  predicate Acceptable(t: Text, d: RuleDTO) {
    && t.trim(d.name) != "" && t.trim(d.pattern) != ""
    && t.lower(t.trim(d.metric)) in {"cpu_percent", "memory_bytes", "private_bytes", "thread_count"}
    && t.trim(d.op) in {"", ">", ">=", "<", "<="}
    && t.lower(t.trim(d.action)) in {"", "alert", "kill", "suspend"}
    && 0 <= d.forSeconds <= 86400
  }

  ghost predicate DistinctTrimmed(t: Text, ds: seq<RuleDTO>) {
    forall i, j :: 0 <= i < j < |ds| ==> t.trim(ds[i].name) != t.trim(ds[j].name)
  }

  lemma ProblemIff(t: Text, d: RuleDTO, seen: set<string>)
    ensures ProblemOf(t, d, seen) == None <==> Acceptable(t, d) && t.trim(d.name) !in seen
  {
  }

  /** A list is accepted exactly when every rule passes the checks and no two trimmed names agree. */
  lemma {:induction false} AcceptedIff(t: Text, ds: seq<RuleDTO>)
    ensures FromDTOs(t, ds).Accepted? <==>
              (forall i :: 0 <= i < |ds| ==> Acceptable(t, ds[i])) && DistinctTrimmed(t, ds)
    ensures FromDTOs(t, ds).Accepted? ==> forall x :: x in Names(FromDTOs(t, ds).value) <==>
              exists i :: 0 <= i < |ds| && t.trim(ds[i].name) == x
  {
    if ds != [] {
      var front, d, n := FromDTOs(t, Front(ds)), Last(ds), |ds| - 1;
      assert forall i :: 0 <= i < n ==> Front(ds)[i] == ds[i];
      AcceptedIff(t, Front(ds));
      hide Acceptable, RuleOf;
      if front.Accepted? {
        ProblemIff(t, d, Names(front.value));
        hide ProblemOf;
        NamedAs(t, d);
        OneMoreName(front.value, RuleOf(t, d));
        assert DistinctTrimmed(t, ds) <==> t.trim(d.name) !in Names(front.value);
      } else if DistinctTrimmed(t, ds) {
        assert DistinctTrimmed(t, Front(ds));
      }
    }
  }

  lemma NamedAs(t: Text, d: RuleDTO)
    ensures RuleOf(t, d).name == t.trim(d.name)
  {
  }

  /** Which problem is reported: the first in this order. */
  lemma ProblemOnFields(t: Text, d: RuleDTO, seen: set<string>)
    ensures var named, isNew := t.trim(d.name) != "", t.trim(d.name) !in seen;
            var watches := t.trim(d.pattern) != "";
            var metric := t.lower(t.trim(d.metric)) in {"cpu_percent", "memory_bytes", "private_bytes", "thread_count"};
            var op := t.trim(d.op) in {"", ">", ">=", "<", "<="};
            var action := t.lower(t.trim(d.action)) in {"", "alert", "kill", "suspend"};
            var p := ProblemOf(t, d, seen);
            && (p == Some(NameRequired) <==> !named)
            && (p == Some(DuplicateName) <==> named && !isNew)
            && (p == Some(PatternRequired) <==> named && isNew && !watches)
            && (p == Some(BadMetric) <==> named && isNew && watches && !metric)
            && (p == Some(BadOp) <==> named && isNew && watches && metric && !op)
            && (p == Some(BadAction) <==> named && isNew && watches && metric && op && !action)
            && (p == Some(BadHold) <==>
                  named && isNew && watches && metric && op && action && !(0 <= d.forSeconds <= 86400))
  {
  }

  /** A rejection names the first rule with a problem: all rules before it are accepted. */
  lemma {:induction false} RejectedAtFirst(t: Text, ds: seq<RuleDTO>, i: nat, p: Problem)
    ensures FromDTOs(t, ds) == Rejected(i, p) <==>
              && i < |ds| && FromDTOs(t, ds[..i]).Accepted?
              && ProblemOf(t, ds[i], Names(FromDTOs(t, ds[..i]).value)) == Some(p)
  {
    hide ProblemOf, RuleOf;
    if i < |ds| {
      assert Front(ds[..i+1]) == ds[..i] && Last(ds[..i+1]) == ds[i];
      if FromDTOs(t, ds[..i]).Rejected? {
        NotBefore(t, ds[..i], 0);
        RejectionStays(t, ds, i);
      } else if FromDTOs(t, ds[..i+1]).Rejected? {
        RejectionStays(t, ds, i + 1);
      } else {
        NotBefore(t, ds, i + 1);
      }
    } else {
      NotBefore(t, ds, 0);
    }
  }

  /** If a prefix is accepted, a rejection names a later rule. */
  lemma {:induction false} NotBefore(t: Text, ds: seq<RuleDTO>, n: nat)
    requires n <= |ds| && FromDTOs(t, ds[..n]).Accepted?
    ensures FromDTOs(t, ds).Rejected? ==> n <= FromDTOs(t, ds).index < |ds|
  {
    if n == |ds| {
      assert ds[..n] == ds;
    } else {
      assert Front(ds)[..n] == ds[..n];
      NotBefore(t, Front(ds), n);
    }
  }

  /** What an accepted rule becomes: trimmed name, folded keywords, defaults for empty ones, the rest as given. */
  lemma {:induction false} AcceptedOnFields(t: Text, ds: seq<RuleDTO>, i: nat)
    requires FromDTOs(t, ds).Accepted? && i < |ds|
    ensures |FromDTOs(t, ds).value| == |ds|
    ensures var r, d := FromDTOs(t, ds).value[i], ds[i];
            var op, action := t.trim(d.op), t.lower(t.trim(d.action));
            && r.name == t.trim(d.name) && r.enabled == d.enabled && r.pattern == d.pattern
            && r.metric == t.lower(t.trim(d.metric)) && r.threshold == d.threshold
            && r.op == (if op == "" then ">=" else op) && r.action == (if action == "" then "alert" else action)
            && r.hold == d.forSeconds * SECOND
  {
    AcceptedOneByOne(t, ds);
    AcceptedIff(t, ds);
    assert Acceptable(t, ds[i]);
    hide FromDTOs;
  }

  // ---- rules suggested by the advisor ----

  datatype Suggestion = Suggestion(
    name: string, enabled: bool, pattern: string, metric: string, op: string, threshold: real,
    for_: int, forSeconds: int, action: string, cooldown: int, cooldownSeconds: int)

  function Either(a: int, b: int): int {
    if a == 0 then b else a
  }

  /** A suggestion read as a wire rule: the pattern trimmed and the two spellings of each duration merged. */
  function AsDTO(t: Text, s: Suggestion): RuleDTO {
    RuleDTO(s.name, s.enabled, t.trim(s.pattern), s.metric, s.op, s.threshold,
            Either(s.forSeconds, s.for_), s.action, Either(s.cooldownSeconds, s.cooldown))
  }

  method AiRuleToConfig(t: Text, suggestion: Option<Suggestion>) returns (r: Parsed<Rule>)
    requires Lawful(t)
    ensures suggestion.None? ==> r == Rejected(0, RuleRequired)
    ensures suggestion.Some? ==> r == FromSuggestion(t, suggestion.value)
  {
    if suggestion.None? {
      return Rejected(0, RuleRequired);
    }
    hide Duration, KnownMetric, KnownOp, KnownAction;
    var d := suggestion.value;
    var name := t.trim(d.name);
    if name == "" {
      return Rejected(0, NameRequired);
    }
    var pattern := t.trim(d.pattern);
    if pattern == "" {
      return Rejected(0, PatternRequired);
    }
    var metric := t.lower(t.trim(d.metric));
    if !KnownMetric(metric) {
      return Rejected(0, BadMetric);
    }
    var op := t.trim(d.op);
    if op == "" {
      op := ">=";
    }
    if !KnownOp(op) {
      return Rejected(0, BadOp);
    }
    var action := t.lower(t.trim(d.action));
    if action == "" {
      action := "alert";
    }
    if !KnownAction(action) {
      return Rejected(0, BadAction);
    }
    var forSec := d.forSeconds;
    if forSec == 0 {
      forSec := d.for_;
    }
    if forSec < 0 || forSec > DAY_SECONDS {
      return Rejected(0, BadHold);
    }
    var coolSec := d.cooldownSeconds;
    if coolSec == 0 {
      coolSec := d.cooldown;
    }
    if coolSec < 0 {
      coolSec := 0;
    }
    r := Accepted(Rule(name, d.enabled, pattern, metric, op, d.threshold, Duration(forSec), action, Duration(coolSec)));
  }

  /** The same checks as the manual table, so a suggestion cannot get past them. */
  function FromSuggestion(t: Text, s: Suggestion): Parsed<Rule> {
    var d := AsDTO(t, s);
    var p := ProblemOf(t, d, {});
    if p.Some? then Rejected(0, p.value) else Accepted(RuleOf(t, d))
  }

  // ---- the rule list of the server ----

  /** `same` is the case-insensitive comparison of names. */
  predicate NameTaken(rs: seq<Rule>, name: string, same: (string, string) -> bool) {
    exists i :: 0 <= i < |rs| && same(rs[i].name, name)
  }

  datatype Change =
    | Replace(rules: seq<RuleDTO>, saved: bool)
    | AddRule(suggestion: Suggestion, saved: bool)

  /** A change takes effect only if it is acceptable and the new configuration validates and saves. */
  function ApplyChange(t: Text, same: (string, string) -> bool, rs: seq<Rule>, c: Change): seq<Rule> {
    match c
    case Replace(ds, saved) =>
      if FromDTOs(t, ds).Accepted? && saved then FromDTOs(t, ds).value else rs
    case AddRule(s, saved) =>
      var r := FromSuggestion(t, s);
      if r.Accepted? && !NameTaken(rs, r.value.name, same) && saved then rs + [r.value] else rs
  }

  function ApplyAll(t: Text, same: (string, string) -> bool, rs0: seq<Rule>, cs: seq<Change>): seq<Rule> {
    if cs == [] then rs0 else ApplyChange(t, same, ApplyAll(t, same, rs0, Front(cs)), Last(cs))
  }

  predicate ChangeFits(c: Change) {
    match c
    case Replace(ds, _) => AllFit(ds)
    case AddRule(s, _) => CooldownFits(Either(s.cooldownSeconds, s.cooldown))
  }

  class RuleServer {
    var rules: seq<Rule>
    const text: Text
    const same: (string, string) -> bool

    /** Starts with the rules of the configuration file. */
    constructor (rules: seq<Rule>, text: Text, same: (string, string) -> bool)
      ensures this.rules == rules && this.text == text && this.same == same
    {
      this.rules := rules;
      this.text := text;
      this.same := same;
    }

    method HandleRulesUpdate(ds: seq<RuleDTO>, saved: bool)
      modifies this
      ensures rules == ApplyChange(text, same, old(rules), Replace(ds, saved))
    {
      var parsed := RulesFromDTO(text, ds);
      if parsed.Accepted? && saved {
        rules := parsed.value;
      }
    }

    method ExecuteAddRule(s: Suggestion, saved: bool)
      requires Lawful(text)
      modifies this
      ensures rules == ApplyChange(text, same, old(rules), AddRule(s, saved))
    {
      var rule := AiRuleToConfig(text, Some(s));
      if rule.Rejected? {
        return;
      }
      for i := 0 to |rules|
        invariant rules == old(rules)
        invariant forall j :: 0 <= j < i ==> !same(rules[j].name, rule.value.name)
      {
        if same(rules[i].name, rule.value.name) {
          return;
        }
      }
      if saved {
        rules := rules + [rule.value];
      }
    }
  }

  /** An accepted suggestion survives the round trip, and has the cooldown asked for, exactly under these bounds. */
  lemma SuggestionIsNormal(t: Text, s: Suggestion)
    requires Lawful(t) && FromSuggestion(t, s).Accepted?
    ensures var r, seconds := FromSuggestion(t, s).value, Either(s.cooldownSeconds, s.cooldown);
            && Sized([r])
            && (NormalRule(t, r) <==> CooldownFits(seconds))
            && (FromDTOs(t, ToDTOs([r])) == Accepted([r]) <==> CooldownFits(seconds))
            && (r.cooldown == NonNegative(seconds) * SECOND <==> seconds <= MAX_SECONDS)
  {
    var r := FromSuggestion(t, s).value;
    AcceptedRule(t, AsDTO(t, s), {});
    KeptIff(AsDTO(t, s).cooldownSeconds);
    RoundTripIff(t, [r]);
    NormalSplits(t, [], r);
    assert [] + [r] == [r];
  }

  /** A change that is not saved, not acceptable or, for a suggestion, whose name is taken, has no effect. */
  lemma ChangeOnFields(t: Text, same: (string, string) -> bool, rs: seq<Rule>, c: Change)
    ensures !c.saved ==> ApplyChange(t, same, rs, c) == rs
    ensures c.Replace? && c.saved ==>
              ApplyChange(t, same, rs, c) == if FromDTOs(t, c.rules).Accepted? then FromDTOs(t, c.rules).value else rs
    ensures c.AddRule? && c.saved ==>
              var s, d := c.suggestion, AsDTO(t, c.suggestion);
              if Acceptable(t, d) && forall i :: 0 <= i < |rs| ==> !same(rs[i].name, t.trim(s.name))
              then
                && |ApplyChange(t, same, rs, c)| == |rs| + 1 && ApplyChange(t, same, rs, c)[..|rs|] == rs
                && Last(ApplyChange(t, same, rs, c)).pattern == t.trim(s.pattern)
                && Last(ApplyChange(t, same, rs, c)).hold
                   == Duration(if s.forSeconds != 0 then s.forSeconds else s.for_)
                && Last(ApplyChange(t, same, rs, c)).cooldown
                   == Duration(NonNegative(if s.cooldownSeconds != 0 then s.cooldownSeconds else s.cooldown))
              else ApplyChange(t, same, rs, c) == rs
  {
    if c.AddRule? {
      ProblemIff(t, AsDTO(t, c.suggestion), {});
      hide ProblemOf, Acceptable, Duration, NonNegative;
      assert FromSuggestion(t, c.suggestion).Accepted? ==>
          FromSuggestion(t, c.suggestion).value.name == t.trim(c.suggestion.name);
    }
  }

  /** One change keeps a normal list normal, and a saved replacement that is accepted makes any list normal. */
  lemma {:induction false} ChangeKeepsNormal(t: Text, same: (string, string) -> bool, rs: seq<Rule>, c: Change)
    requires Lawful(t) && (forall x :: same(x, x)) && ChangeFits(c)
    requires (Normal(t, rs) && Sized(rs)) || Repairs(t, c)
    ensures var rs' := ApplyChange(t, same, rs, c); Normal(t, rs') && Sized(rs')
  {
    hide Lawful, NormalRule, CooldownFits, ProblemOf, FromDTOs;
    match c
    case Replace(ds, saved) =>
      if FromDTOs(t, ds).Accepted? {
        AcceptedIsNormalIff(t, ds);
      }
    case AddRule(s, saved) =>
      var parsed := FromSuggestion(t, s);
      if parsed.Accepted? && !NameTaken(rs, parsed.value.name, same) {
        var r := parsed.value;
        SuggestionIsNormal(t, s);
        NotTaken(rs, r.name, same);
        NormalSplits(t, rs, r);
        assert [r][0] == r;
      }
  }

  /** The whole table is replaced by one that is accepted and saved. */
  predicate Repairs(t: Text, c: Change) {
    c.Replace? && c.saved && FromDTOs(t, c.rules).Accepted?
  }

  /**
    From the rules of the configuration file, any sequence of rule replacements and suggested rules,
    whichever of them are rejected or fail to save, leaves a list that survives the round trip, if the
    first list did or one replacement took effect. `k` is that replacement, or 0 for a normal first list.
  */
  lemma {:induction false} RulesStayNormal(t: Text, same: (string, string) -> bool, rs0: seq<Rule>, cs: seq<Change>,
      k: nat)
    requires Lawful(t) && forall x :: same(x, x)
    requires k <= |cs| && forall i :: k <= i < |cs| ==> ChangeFits(cs[i])
    requires (k == 0 && Normal(t, rs0) && Sized(rs0)) || (k < |cs| && Repairs(t, cs[k]))
    ensures var rs := ApplyAll(t, same, rs0, cs); Normal(t, rs) && Sized(rs) && FromDTOs(t, ToDTOs(rs)) == Accepted(rs)
  {
    StayNormal(t, same, rs0, cs, k);
    RoundTripIff(t, ApplyAll(t, same, rs0, cs));
  }

  lemma {:induction false} StayNormal(t: Text, same: (string, string) -> bool, rs0: seq<Rule>, cs: seq<Change>, k: nat)
    requires Lawful(t) && forall x :: same(x, x)
    requires k <= |cs| && forall i :: k <= i < |cs| ==> ChangeFits(cs[i])
    requires (k == 0 && Normal(t, rs0) && Sized(rs0)) || (k < |cs| && Repairs(t, cs[k]))
    ensures var rs := ApplyAll(t, same, rs0, cs); Normal(t, rs) && Sized(rs)
  {
    hide Lawful, Normal, Sized, ChangeFits, Repairs, ApplyChange;
    if cs != [] {
      var n := |cs| - 1;
      assert forall i :: 0 <= i < n ==> Front(cs)[i] == cs[i];
      if k < n || (k == 0 && Normal(t, rs0) && Sized(rs0)) {
        StayNormal(t, same, rs0, Front(cs), k);
      }
      ChangeKeepsNormal(t, same, ApplyAll(t, same, rs0, Front(cs)), cs[n]);
    }
  }

  lemma NotTaken(rs: seq<Rule>, name: string, same: (string, string) -> bool)
    requires !NameTaken(rs, name, same) && forall x :: same(x, x)
    ensures name !in Names(rs)
  {
    assert same(name, name);
    assert forall i :: 0 <= i < |rs| ==> !same(rs[i].name, name);
  }
}
