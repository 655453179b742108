/** The spawn-storm detector: which processes are new, and how many each parent started in the last minute. */
module SpawnStorms {
  import opened Seqs
  import opened Compaction
  import opened Processes
  import opened Durations

  /** `ignored` is the user's ignore list and `whitelisted` the built-in one; both are fixed for a run. */
  datatype Config = Config(maxChildrenPerMinute: int, ignored: string -> bool, whitelisted: string -> bool)

  datatype State = State(known: set<PID>, events: map<PID, seq<int>>)

  function EventsOf(s: State, parent: PID): seq<int> {
    if parent in s.events then s.events[parent] else []
  }

  // ---- one analysis ----

  function Discover(s: State, now: int, p: ProcessInfo): State {
    if p.pid in s.known then s
    else if p.parent == 0 then s.(known := s.known + {p.pid})
    else State(s.known + {p.pid}, s.events[p.parent := EventsOf(s, p.parent) + [now]])
  }

  function DiscoverAll(s: State, now: int, procs: seq<ProcessInfo>): State {
    if procs == [] then s else Discover(DiscoverAll(s, now, Front(procs)), now, Last(procs))
  }

  /** The oldest time still inside the minute. */
  function Horizon(now: int): int {
    now - MINUTE + 1
  }

  function Trim(events: map<PID, seq<int>>, now: int): map<PID, seq<int>> {
    map p | p in events && Since(events[p], Horizon(now)) != [] :: Since(events[p], Horizon(now))
  }

  function Tick(s: State, now: int, procs: seq<ProcessInfo>): State {
    var d := DiscoverAll(s, now, procs);
    State(d.known * Live(procs), Trim(d.events, now))
  }

  /** The first listed process with this id. */
  function FindProcess(procs: seq<ProcessInfo>, pid: PID): Option<ProcessInfo> {
    if procs == [] then None
    else if FindProcess(Front(procs), pid).Some? then FindProcess(Front(procs), pid)
    else if Last(procs).pid == pid then Some(Last(procs)) else None
  }

  predicate Accusable(procs: seq<ProcessInfo>, parent: PID, cfg: Config) {
    var p := FindProcess(procs, parent);
    p.Some? && !cfg.ignored(p.value.name) && !cfg.whitelisted(p.value.name)
  }

  /** The parents an alert is raised for. */
  function Raised(events: map<PID, seq<int>>, procs: seq<ProcessInfo>, cfg: Config): set<PID> {
    set p | p in events && |events[p]| >= cfg.maxChildrenPerMinute && Accusable(procs, p, cfg)
  }

  /** Enough of these births are recent, and the parent may be accused. */
  predicate Storms(births: seq<int>, now: int, procs: seq<ProcessInfo>, parent: PID, cfg: Config) {
    var recent := Since(births, Horizon(now));
    recent != [] && |recent| >= cfg.maxChildrenPerMinute && Accusable(procs, parent, cfg)
  }

  class SpawnStormDetector {
    var parentEvents: map<PID, seq<int>>
    var knownPIDs: set<PID>

    ghost function View(): State reads this {
      State(knownPIDs, parentEvents)
    }

    constructor ()
      ensures View() == State({}, map[])
    {
      parentEvents, knownPIDs := map[], {};
    }

    method Analyze(enabled: bool, now: int, procs: seq<ProcessInfo>, cfg: Config) returns (raised: set<PID>)
      modifies this
      ensures !enabled ==> View() == old(View()) && raised == {}
      ensures enabled ==> View() == Tick(old(View()), now, procs) && raised == Raised(parentEvents, procs, cfg)
    {
      raised := {};
      if !enabled {
        return;
      }
      var current := DiscoverNew(now, procs);
      DropDisappeared(current);
      raised := TrimAndCheck(now, procs, cfg);
    }

    /** Notes every process not known yet as a birth of its parent. */
    method DiscoverNew(now: int, procs: seq<ProcessInfo>) returns (current: set<PID>)
      modifies this
      ensures current == Live(procs) && View() == DiscoverAll(old(View()), now, procs)
    {
      current := {};
      for i := 0 to |procs|
        invariant current == Live(procs[..i]) && View() == DiscoverAll(old(View()), now, procs[..i])
      {
        var p := procs[i];
        assert Front(procs[..i+1]) == procs[..i] && Last(procs[..i+1]) == p;
        current := current + {p.pid};
        if p.pid in knownPIDs {
          continue;
        }
        knownPIDs := knownPIDs + {p.pid};
        if p.parent == 0 {
          continue;
        }
        parentEvents := parentEvents[p.parent := (if p.parent in parentEvents then parentEvents[p.parent]
            else []) + [now]];
      }
      assert procs[..|procs|] == procs;
    }

    method DropDisappeared(current: set<PID>)
      modifies `knownPIDs
      ensures knownPIDs == old(knownPIDs) * current
    {
      var todo := knownPIDs;
      while todo != {}
        invariant todo <= knownPIDs <= old(knownPIDs)
        invariant forall pid :: pid in old(knownPIDs) ==> (pid in knownPIDs <==> pid in todo || pid in current)
      {
        var pid :| pid in todo;
        if pid !in current {
          knownPIDs := knownPIDs - {pid};
        }
        todo := todo - {pid};
      }
    }

    /** Walks the parents in no particular order, compacting each list in place and dropping empty ones. */
    method TrimAndCheck(now: int, procs: seq<ProcessInfo>, cfg: Config) returns (raised: set<PID>)
      modifies `parentEvents
      ensures parentEvents == Trim(old(parentEvents), now)
      ensures raised == Raised(parentEvents, procs, cfg)
    {
      hide Since, Accusable;
      raised := {};
      ghost var before := parentEvents;
      var todo := parentEvents.Keys;
      while todo != {}
        invariant todo <= parentEvents.Keys && parentEvents.Keys <= before.Keys
        invariant forall p :: p in todo ==> parentEvents[p] == before[p]
        invariant forall p :: p in before && p !in todo ==>
                    (p in parentEvents <==> Since(before[p], Horizon(now)) != [])
        invariant forall p :: p in parentEvents && p !in todo ==> parentEvents[p] == Since(before[p], Horizon(now))
        invariant forall p :: p in raised <==> p in before && p !in todo && Storms(before[p], now, procs, p, cfg)
      {
        var parent :| parent in todo;
        todo := todo - {parent};
        var recent := TrimParent(parent, now);
        if |recent| == 0 {
          continue;
        }
        if |recent| >= cfg.maxChildrenPerMinute {
          var accuse := IsAccusable(procs, parent, cfg);
          if !accuse {
            continue;
          }
          raised := raised + {parent};
        }
      }
      assert parentEvents == Trim(before, now);
      assert raised == Raised(parentEvents, procs, cfg);
    }

    method TrimParent(parent: PID, now: int) returns (recent: seq<int>)
      requires parent in parentEvents
      modifies `parentEvents
      ensures recent == Since(old(parentEvents)[parent], Horizon(now))
      ensures parentEvents == if recent == [] then old(parentEvents) - {parent} else old(parentEvents)[parent := recent]
    {
      recent := Compact(parentEvents[parent], now - MINUTE + 1);
      if |recent| == 0 {
        parentEvents := parentEvents - {parent};
      } else {
        parentEvents := parentEvents[parent := recent];
      }
    }
  }

  method IsAccusable(procs: seq<ProcessInfo>, parent: PID, cfg: Config) returns (b: bool)
    ensures b == Accusable(procs, parent, cfg)
  {
    var found := Find(procs, parent);
    if found.None? {
      return false;
    }
    if cfg.ignored(found.value.name) {
      return false;
    }
    b := !cfg.whitelisted(found.value.name);
  }

  method Find(procs: seq<ProcessInfo>, pid: PID) returns (r: Option<ProcessInfo>)
    ensures r == FindProcess(procs, pid)
  {
    for i := 0 to |procs|
      invariant FindProcess(procs[..i], pid) == None
    {
      assert Front(procs[..i+1]) == procs[..i] && Last(procs[..i+1]) == procs[i];
      if procs[i].pid == pid {
        FindStays(procs, i + 1, pid);
        return Some(procs[i]);
      }
    }
    assert procs[..|procs|] == procs;
    r := None;
  }

  lemma {:induction false} FindStays(procs: seq<ProcessInfo>, i: nat, pid: PID)
    requires i <= |procs| && FindProcess(procs[..i], pid).Some?
    ensures FindProcess(procs, pid) == FindProcess(procs[..i], pid)
  {
    if i == |procs| {
      assert procs[..i] == procs;
    } else {
      assert Front(procs)[..i] == procs[..i];
      FindStays(Front(procs), i, pid);
    }
  }

  // ---- what the detector should know, told from the snapshots alone ----

  datatype Snapshot = Snapshot(now: int, procs: seq<ProcessInfo>)

  /** The births a snapshot shows for parent: processes absent from `before`, each counted at its first listing. */
  function BirthsIn(before: set<PID>, now: int, procs: seq<ProcessInfo>, parent: PID): seq<int> {
    if procs == [] then []
    else BirthsIn(before, now, Front(procs), parent) +
         (if Last(procs).pid !in before && Last(procs).pid !in Live(Front(procs))
            && Last(procs).parent == parent && parent != 0
          then [now] else [])
  }

  function LiveAfter(run: seq<Snapshot>): set<PID> {
    if run == [] then {} else Live(Last(run).procs)
  }

  /** Every birth ever seen for parent, in order. */
  function Births(run: seq<Snapshot>, parent: PID): seq<int> {
    if run == [] then []
    else Births(Front(run), parent) + BirthsIn(LiveAfter(Front(run)), Last(run).now, Last(run).procs, parent)
  }

  function Run(run: seq<Snapshot>): State {
    if run == [] then State({}, map[]) else Tick(Run(Front(run)), Last(run).now, Last(run).procs)
  }

  ghost predicate Ordered(run: seq<Snapshot>) {
    forall i, j :: 0 <= i <= j < |run| ==> run[i].now <= run[j].now
  }

  lemma DiscoverOne(s: State, now: int, p: ProcessInfo, parent: PID)
    ensures Discover(s, now, p).known == s.known + {p.pid}
    ensures EventsOf(Discover(s, now, p), parent) == EventsOf(s, parent) +
              if p.pid !in s.known && p.parent == parent && parent != 0 then [now] else []
  {
    assert EventsOf(s, parent) + [] == EventsOf(s, parent);
  }

  lemma {:induction false} DiscoverAllKnows(s: State, now: int, procs: seq<ProcessInfo>, parent: PID)
    ensures DiscoverAll(s, now, procs).known == s.known + Live(procs)
    ensures EventsOf(DiscoverAll(s, now, procs), parent) == EventsOf(s, parent) + BirthsIn(s.known, now, procs, parent)
  {
    if procs == [] {
      assert EventsOf(s, parent) + [] == EventsOf(s, parent);
    } else {
      hide EventsOf, Discover;
      var d, p := DiscoverAll(s, now, Front(procs)), Last(procs);
      DiscoverAllKnows(s, now, Front(procs), parent);
      DiscoverOne(d, now, p, parent);
      var born := BirthsIn(s.known, now, Front(procs), parent);
      var more := if p.pid !in d.known && p.parent == parent && parent != 0 then [now] else [];
      assert EventsOf(s, parent) + (born + more) == (EventsOf(s, parent) + born) + more;
    }
  }

  lemma {:induction false} BirthsInAreNow(before: set<PID>, now: int, procs: seq<ProcessInfo>, parent: PID)
    ensures forall t :: t in BirthsIn(before, now, procs, parent) ==> t == now
  {
    if procs != [] {
      BirthsInAreNow(before, now, Front(procs), parent);
    }
  }

  lemma TrimIsSince(events: map<PID, seq<int>>, now: int, parent: PID)
    ensures var t := Trim(events, now); var all := if parent in events then events[parent] else [];
            && (parent in t <==> Since(all, Horizon(now)) != [])
            && (parent in t ==> t[parent] == Since(all, Horizon(now)))
  {
  }

  /**
    After every analysis of an ordered run the detector knows exactly the listed processes, and holds for
    each parent exactly its births of the last minute, in order, with no entry when there are none.
  */
  lemma {:induction false} WindowIsLastMinute(run: seq<Snapshot>, parent: PID)
    requires Ordered(run) && run != []
    ensures Run(run).known == Live(Last(run).procs)
    ensures var recent := Since(Births(run, parent), Horizon(Last(run).now));
            && EventsOf(Run(run), parent) == recent
            && (parent in Run(run).events <==> recent != [])
  {
    var s, now, procs, from := Run(Front(run)), Last(run).now, Last(run).procs, Horizon(Last(run).now);
    var earlier, more := Births(Front(run), parent), BirthsIn(s.known, now, procs, parent);
    hide Since, BirthsIn, Live, DiscoverAll, Trim;
    DiscoverAllKnows(s, now, procs, parent);
    TrimIsSince(DiscoverAll(s, now, procs).events, now, parent);
    SinceConcat(EventsOf(s, parent), more, from);
    SinceConcat(earlier, more, from);
    if Front(run) != [] {
      WindowIsLastMinute(Front(run), parent);
      assert Last(Front(run)) == run[|run|-2];
      SinceTwice(earlier, Horizon(Last(Front(run)).now), from);
    }
    assert s.known == LiveAfter(Front(run));
  }

  /** An alert is raised for exactly the eligible parents with enough births in the last minute. */
  lemma RaisedByBirths(run: seq<Snapshot>, cfg: Config, parent: PID)
    requires Ordered(run) && run != []
    ensures var n := |Since(Births(run, parent), Horizon(Last(run).now))|;
            parent in Raised(Run(run).events, Last(run).procs, cfg)
            <==> n > 0 && n >= cfg.maxChildrenPerMinute && Accusable(Last(run).procs, parent, cfg)
  {
    WindowIsLastMinute(run, parent);
  }

  /**
    The same on the fields: what counts is a first sighting less than a minute old, and what is accused is the
    listed process with that id, unless it is ignored or on the built-in whitelist.
  */
  lemma RaisedOnFields(run: seq<Snapshot>, cfg: Config, parent: PID)
    requires Ordered(run) && run != [] && Distinct(Last(run).procs)
    ensures var recent := Since(Births(run, parent), Last(run).now - 60_000_000_000 + 1);
            && (forall t :: t in recent <==> t in Births(run, parent) && Last(run).now - t < 60_000_000_000)
            && (parent in Raised(Run(run).events, Last(run).procs, cfg) <==>
                  && |recent| > 0 && |recent| >= cfg.maxChildrenPerMinute
                  && exists p ::
                       p in Last(run).procs && p.pid == parent && !cfg.ignored(p.name) && !cfg.whitelisted(p.name))
  {
    RaisedByBirths(run, cfg, parent);
    SinceMembers(Births(run, parent), Last(run).now - 60_000_000_000 + 1);
    FoundIsListed(Last(run).procs, parent);
    hide Run, Raised, Births, Since, FindProcess;
  }

  lemma {:induction false} FoundIsListed(procs: seq<ProcessInfo>, pid: PID)
    requires Distinct(procs)
    ensures forall p :: FindProcess(procs, pid) == Some(p) <==> p in procs && p.pid == pid
  {
    if procs != [] {
      FoundIsListed(Front(procs), pid);
      assert procs == Front(procs) + [Last(procs)];
      assert forall p :: p in Front(procs) ==> p.pid != Last(procs).pid;
    }
  }

  // ---- what the first sighting of a child stands for ----

  function ListedChildren(procs: seq<ProcessInfo>, parent: PID): nat {
    if procs == [] then 0 else ListedChildren(Front(procs), parent) + if Last(procs).parent == parent then 1 else 0
  }

  lemma {:induction false} AllAreBorn(now: int, procs: seq<ProcessInfo>, parent: PID)
    requires Distinct(procs) && parent != 0
    ensures |BirthsIn({}, now, procs, parent)| == ListedChildren(procs, parent)
  {
    if procs != [] {
      AllAreBorn(now, Front(procs), parent);
      NotYetListed(procs);
    }
  }

  lemma NotYetListed(procs: seq<ProcessInfo>)
    requires Distinct(procs) && procs != []
    ensures Last(procs).pid !in Live(Front(procs))
  {
    forall pid | pid in Live(Front(procs)) ensures pid != Last(procs).pid {
      var i := LiveIsListed(Front(procs), pid);
      assert procs[i].pid == pid;
    }
  }

  lemma {:induction false} LiveIsListed(procs: seq<ProcessInfo>, pid: PID) returns (i: nat)
    requires pid in Live(procs)
    ensures i < |procs| && procs[i].pid == pid
  {
    if Last(procs).pid == pid {
      i := |procs| - 1;
    } else {
      i := LiveIsListed(Front(procs), pid);
    }
  }

  /**
    The first analysis takes every listed child for one born that moment: a parent is accused for the
    children it has, however long ago they were created.
  */
  lemma FirstAnalysisCountsChildren(s: Snapshot, cfg: Config, parent: PID)
    requires Distinct(s.procs) && parent != 0
    ensures var n := ListedChildren(s.procs, parent);
            parent in Raised(Run([s]).events, s.procs, cfg)
            <==> n > 0 && n >= cfg.maxChildrenPerMinute && Accusable(s.procs, parent, cfg)
  {
    RaisedByBirths([s], cfg, parent);
    AllAreBorn(s.now, s.procs, parent);
    BirthsInAreNow({}, s.now, s.procs, parent);
    assert Front([s]) == [] && Births([], parent) == [];
    var births := BirthsIn({}, s.now, s.procs, parent);
    assert Births([s], parent) == [] + births == births;
    SinceAll(births, Horizon(s.now));
  }

  /** A parent is accused although none of its children is younger than a minute. */
  lemma OldChildrenAreAccused(s: Snapshot, cfg: Config, parent: PID)
    requires Distinct(s.procs) && parent != 0 && Accusable(s.procs, parent, cfg)
    requires ListedChildren(s.procs, parent) >= cfg.maxChildrenPerMinute > 0
    requires forall p :: p in s.procs && p.parent == parent ==> CreationTime(p) < Horizon(s.now)
    ensures parent in Raised(Run([s]).events, s.procs, cfg)
    ensures Since(Created([s], parent), Horizon(s.now)) == []
  {
    hide Run, Raised, Accusable, ListedChildren;
    FirstAnalysisCountsChildren(s, cfg, parent);
    NoneCreatedSince({}, s.procs, parent, Horizon(s.now));
    assert Front([s]) == [] && Created([], parent) == [];
    assert Created([s], parent) == [] + CreatedIn({}, s.procs, parent) == CreatedIn({}, s.procs, parent);
  }

  lemma {:induction false} NoneCreatedSince(before: set<PID>, procs: seq<ProcessInfo>, parent: PID, from: int)
    requires forall p :: p in procs && p.parent == parent ==> CreationTime(p) < from
    ensures Since(CreatedIn(before, procs, parent), from) == []
  {
    if procs != [] {
      assert procs == Front(procs) + [Last(procs)];
      NoneCreatedSince(before, Front(procs), parent, from);
      var created := CreatedIn(before, Front(procs), parent);
      SinceAppend(created, CreationTime(Last(procs)), from);
      assert created + [] == created;
    }
  }

  /** Creation times are reported in whole seconds. */
  function CreationTime(p: ProcessInfo): int {
    p.createTime * SECOND
  }

  /** The creation times of the processes `BirthsIn` counts. */
  function CreatedIn(before: set<PID>, procs: seq<ProcessInfo>, parent: PID): seq<int> {
    if procs == [] then []
    else CreatedIn(before, Front(procs), parent) +
         (if Last(procs).pid !in before && Last(procs).pid !in Live(Front(procs))
            && Last(procs).parent == parent && parent != 0
          then [CreationTime(Last(procs))] else [])
  }

  /** The creation times of all children of parent ever seen. */
  function Created(run: seq<Snapshot>, parent: PID): seq<int> {
    if run == [] then []
    else Created(Front(run), parent) + CreatedIn(LiveAfter(Front(run)), Last(run).procs, parent)
  }

  /** No child of parent reports a creation later than the analysis that first lists it. */
  ghost predicate NotFromFuture(run: seq<Snapshot>, parent: PID) {
    forall i :: 0 <= i < |run| ==>
      forall c :: c in CreatedIn(LiveAfter(run[..i]), run[i].procs, parent) ==> c <= run[i].now
  }

  /**
    What an analysis lists as new, other than the first, reports a creation at most `lag` before the analysis
    that precedes it. The lag covers the cut to whole seconds and the age of the snapshot analysed.
  */
  ghost predicate Prompt(run: seq<Snapshot>, parent: PID, lag: nat) {
    forall i :: 0 < i < |run| ==>
      forall c :: c in CreatedIn(LiveAfter(run[..i]), run[i].procs, parent) ==> run[i-1].now < c + lag
  }

  /** When the last analysis before `from` was, or the first of all if there was none. */
  function LastBefore(run: seq<Snapshot>, from: int): int
    requires run != []
  {
    if |run| == 1 || Last(run).now < from then Last(run).now else LastBefore(Front(run), from)
  }

  lemma {:induction false} LastBeforeIs(run: seq<Snapshot>, from: int) returns (k: nat)
    requires Ordered(run) && run != []
    ensures k < |run| && LastBefore(run, from) == run[k].now && (k == 0 || run[k].now < from)
    ensures forall i :: k < i < |run| ==> run[i].now >= from
  {
    if |run| == 1 || Last(run).now < from {
      k := |run| - 1;
    } else {
      k := LastBeforeIs(Front(run), from);
    }
  }

  lemma {:induction false} SameBirths(before: set<PID>, now: int, procs: seq<ProcessInfo>, parent: PID)
    ensures |BirthsIn(before, now, procs, parent)| == |CreatedIn(before, procs, parent)|
  {
    if procs != [] {
      SameBirths(before, now, Front(procs), parent);
    }
  }

  lemma {:induction false} SameLength(run: seq<Snapshot>, parent: PID)
    ensures |Births(run, parent)| == |Created(run, parent)|
  {
    if run != [] {
      SameLength(Front(run), parent);
      SameBirths(LiveAfter(Front(run)), Last(run).now, Last(run).procs, parent);
    }
  }

  /** Which analysis the k-th child of parent was first listed by. */
  lemma {:induction false} SightedBy(run: seq<Snapshot>, parent: PID, k: nat) returns (i: nat)
    requires k < |Births(run, parent)| == |Created(run, parent)|
    ensures i < |run| && Births(run, parent)[k] == run[i].now
    ensures Created(run, parent)[k] in CreatedIn(LiveAfter(run[..i]), run[i].procs, parent)
  {
    hide BirthsIn, CreatedIn, LiveAfter;
    var pre, s := Front(run), Last(run);
    SameLength(pre, parent);
    if k < |Births(pre, parent)| {
      i := SightedBy(pre, parent, k);
      assert pre[..i] == run[..i];
    } else {
      i := |run| - 1;
      var j := k - |Births(pre, parent)|;
      assert Births(run, parent)[k] == BirthsIn(LiveAfter(pre), s.now, s.procs, parent)[j];
      assert Created(run, parent)[k] == CreatedIn(LiveAfter(pre), s.procs, parent)[j];
      assert Births(run, parent)[k] in BirthsIn(LiveAfter(pre), s.now, s.procs, parent);
      BirthsInAreNow(LiveAfter(pre), s.now, s.procs, parent);
    }
  }

  // ---- no storm is missed ----

  /** Whenever a child was created, it was seen no earlier. */
  lemma CreationsAreSeen(run: seq<Snapshot>, parent: PID, from: int)
    requires NotFromFuture(run, parent)
    ensures |Since(Created(run, parent), from)| <= |Since(Births(run, parent), from)|
  {
    var born, created := Births(run, parent), Created(run, parent);
    SameLength(run, parent);
    hide Births, Created, CreatedIn;
    forall k | 0 <= k < |created| && created[k] >= from ensures born[k] >= from {
      var i := SightedBy(run, parent, k);
    }
    SinceDominates(created, born, from, from);
  }

  /** Enough listed children created within the minute mean an alert, whatever the pace of the analyses. */
  lemma NoStormIsMissed(run: seq<Snapshot>, cfg: Config, parent: PID)
    requires Ordered(run) && run != [] && NotFromFuture(run, parent)
    requires |Since(Created(run, parent), Horizon(Last(run).now))| >= cfg.maxChildrenPerMinute > 0
    requires Accusable(Last(run).procs, parent, cfg)
    ensures parent in Raised(Run(run).events, Last(run).procs, cfg)
  {
    hide Run, Births, Created, Since, Accusable, Raised, NotFromFuture, Ordered;
    CreationsAreSeen(run, parent, Horizon(Last(run).now));
    RaisedByBirths(run, cfg, parent);
  }

  // ---- alerts are genuine ----

  /** The first analysis of all, which takes old children for new, is out of the window or listed none. */
  predicate WarmedUp(run: seq<Snapshot>, parent: PID, from: int) {
    run != [] && (run[0].now < from || CreatedIn({}, run[0].procs, parent) == [])
  }

  /** What was seen since `from` was created no earlier than a gap between analyses and the lag before. */
  lemma SightingsAreRecent(run: seq<Snapshot>, parent: PID, from: int, gap: nat, lag: nat)
    requires Prompt(run, parent, lag) && WarmedUp(run, parent, from)
    requires forall i :: 0 < i < |run| ==> run[i].now - run[i-1].now <= gap
    ensures |Since(Births(run, parent), from)| <= |Since(Created(run, parent), from - gap - lag)|
  {
    var born, created := Births(run, parent), Created(run, parent);
    SameLength(run, parent);
    hide Births, Created, CreatedIn;
    forall k | 0 <= k < |born| && born[k] >= from ensures created[k] >= from - gap - lag {
      var i := SightedBy(run, parent, k);
      assert LiveAfter(run[..0]) == {};
    }
    SinceDominates(born, created, from, from - gap - lag);
  }

  /**
    An alert means enough creations within the minute, one gap between analyses, and the lag with which
    children come to be listed.
  */
  lemma AlertsAreGenuine(run: seq<Snapshot>, cfg: Config, parent: PID, gap: nat, lag: nat)
    requires Ordered(run) && Prompt(run, parent, lag)
    requires run != [] && WarmedUp(run, parent, Horizon(Last(run).now))
    requires forall i :: 0 < i < |run| ==> run[i].now - run[i-1].now <= gap
    requires parent in Raised(Run(run).events, Last(run).procs, cfg)
    ensures |Since(Created(run, parent), Horizon(Last(run).now) - gap - lag)| >= cfg.maxChildrenPerMinute
  {
    hide Run, Births, Created, Since, Accusable, Raised, Prompt, Ordered, WarmedUp;
    RaisedByBirths(run, cfg, parent);
    SightingsAreRecent(run, parent, Horizon(Last(run).now), gap, lag);
  }

  // ---- the exact count, when there is no lag ----

  lemma PromptSighting(run: seq<Snapshot>, parent: PID, from: int, k: nat)
    requires Ordered(run) && NotFromFuture(run, parent) && Prompt(run, parent, 0) && WarmedUp(run, parent, from)
    requires k < |Births(run, parent)| == |Created(run, parent)|
    ensures Births(run, parent)[k] >= from <==> Created(run, parent)[k] >= LastBefore(run, from) + 1
  {
    hide Births, Created, CreatedIn, LastBefore;
    var i := SightedBy(run, parent, k);
    var j := LastBeforeIs(run, from);
    assert LiveAfter(run[..0]) == {};
    assert i <= j ==> run[i].now <= run[j].now;
    assert i > j ==> run[j].now <= run[i-1].now;
  }

  /** Without lag the births since `from` are the children created after the analysis before it. */
  lemma BirthsAreCreations(run: seq<Snapshot>, parent: PID, from: int)
    requires Ordered(run) && NotFromFuture(run, parent) && Prompt(run, parent, 0) && WarmedUp(run, parent, from)
    ensures |Since(Births(run, parent), from)| == |Since(Created(run, parent), LastBefore(run, from) + 1)|
  {
    var born, created := Births(run, parent), Created(run, parent);
    SameLength(run, parent);
    assert run != [];
    hide Births, Created, NotFromFuture, Prompt, WarmedUp, Ordered, LastBefore;
    forall k | 0 <= k < |born| ensures born[k] >= from <==> created[k] >= LastBefore(run, from) + 1 {
      PromptSighting(run, parent, from, k);
    }
    SinceDominates(born, created, from, LastBefore(run, from) + 1);
    SinceDominates(created, born, LastBefore(run, from) + 1, from);
  }

  /**
    When every new child was created after the preceding analysis, to the second, an alert is raised for
    exactly the eligible parents with enough children created after the last analysis before the minute.
  */
  lemma PromptAlertsCountCreations(run: seq<Snapshot>, cfg: Config, parent: PID)
    requires Ordered(run) && NotFromFuture(run, parent) && Prompt(run, parent, 0)
    requires run != [] && WarmedUp(run, parent, Horizon(Last(run).now))
    ensures var n := |Since(Created(run, parent), LastBefore(run, Horizon(Last(run).now)) + 1)|;
            parent in Raised(Run(run).events, Last(run).procs, cfg)
            <==> n > 0 && n >= cfg.maxChildrenPerMinute && Accusable(Last(run).procs, parent, cfg)
  {
    hide Run, Births, Since, Created, Accusable, NotFromFuture, Prompt, WarmedUp, Ordered, Raised, LastBefore;
    RaisedByBirths(run, cfg, parent);
    BirthsAreCreations(run, parent, Horizon(Last(run).now));
  }
}
