/** Per-process sample history: a map of rings kept beside a map of last-seen times. */
module History {
  import opened Processes
  import opened Seqs
  import opened Rings

  datatype Sample = Sample(time: int, cpu: real, workingSet: nat, privateBytes: nat, ioRead: nat, ioWrite: nat,
      threads: nat)

  function ToSample(now: int, p: ProcessInfo): Sample {
    Sample(now, p.cpu, p.workingSet, p.privateBytes, p.ioRead, p.ioWrite, p.threads)
  }

  datatype Event = Snapshot(now: int, procs: seq<ProcessInfo>) | Prune(cutoff: int)

  // ---- what one process's history should be, told from the events alone ----

  /** The samples one snapshot records for pid, in list order. */
  function SamplesIn(now: int, procs: seq<ProcessInfo>, pid: PID): seq<Sample> {
    if procs == [] then []
    else SamplesIn(now, Front(procs), pid) + if Last(procs).pid == pid then [ToSample(now, Last(procs))] else []
  }

  /** Every sample recorded for pid since it was last pruned. */
  function SamplesSince(es: seq<Event>, pid: PID): seq<Sample> {
    if es == [] then [] else
      var prior := SamplesSince(Front(es), pid);
      match Last(es)
      case Snapshot(now, procs) => prior + SamplesIn(now, procs, pid)
      case Prune(cutoff) => if prior != [] && Last(prior).time < cutoff then [] else prior
  }

  // ---- what the store holds ----

  datatype State = State(hist: map<PID, seq<Sample>>, seen: map<PID, int>)

  function Record(s: State, now: int, p: ProcessInfo, cap: nat): State {
    var prior := if p.pid in s.hist then s.hist[p.pid] else [];
    State(s.hist[p.pid := LastN(prior + [ToSample(now, p)], cap)], s.seen[p.pid := now])
  }

  function RecordAll(s: State, now: int, procs: seq<ProcessInfo>, cap: nat): State {
    if procs == [] then s else Record(RecordAll(s, now, Front(procs), cap), now, Last(procs), cap)
  }

  function PruneBefore(s: State, cutoff: int): State {
    State(map pid | pid in s.hist && !(pid in s.seen && s.seen[pid] < cutoff) :: s.hist[pid],
          map pid | pid in s.seen && !(s.seen[pid] < cutoff) :: s.seen[pid])
  }

  function Step(s: State, e: Event, cap: nat): State {
    match e
    case Snapshot(now, procs) => RecordAll(s, now, procs, cap)
    case Prune(cutoff) => PruneBefore(s, cutoff)
  }

  function Run(es: seq<Event>, cap: nat): State {
    if es == [] then State(map[], map[]) else Step(Run(Front(es), cap), Last(es), cap)
  }

  /** The state holds, for one pid, the last cap of the samples in log and the time of the newest. */
  ghost predicate Holds(s: State, pid: PID, log: seq<Sample>, cap: nat) {
    && (pid in s.hist <==> log != [])
    && (pid in s.seen <==> log != [])
    && (log != [] ==> s.hist[pid] == LastN(log, cap) && s.seen[pid] == Last(log).time)
  }

  lemma {:induction false} RecordAllHolds(s: State, now: int, procs: seq<ProcessInfo>, cap: nat, pid: PID,
      log: seq<Sample>)
    requires Holds(s, pid, log, cap)
    ensures Holds(RecordAll(s, now, procs, cap), pid, log + SamplesIn(now, procs, pid), cap)
  {
    hide Holds, Record, ToSample;
    if procs == [] {
      assert log + [] == log;
    } else {
      RecordAllHolds(s, now, Front(procs), cap, pid, log);
      var mid, p := log + SamplesIn(now, Front(procs), pid), Last(procs);
      RecordHolds(RecordAll(s, now, Front(procs), cap), now, p, cap, pid, mid);
      assert log + SamplesIn(now, procs, pid) == mid + if p.pid == pid then [ToSample(now, p)] else [];
    }
  }

  lemma RecordHolds(s: State, now: int, p: ProcessInfo, cap: nat, pid: PID, log: seq<Sample>)
    requires Holds(s, pid, log, cap)
    ensures Holds(Record(s, now, p, cap), pid, log + if p.pid == pid then [ToSample(now, p)] else [], cap)
  {
    if p.pid == pid {
      var x := ToSample(now, p);
      LastNAppend(log, x, cap);
      assert log == [] ==> LastN(log, cap) == [];
      hide LastN, ToSample;
      assert Last(log + [x]) == x && x.time == now;
    } else {
      assert log + [] == log;
      hide LastN, ToSample;
    }
  }

  /**
    After any run, each process's ring holds the last cap samples recorded for it since it was last
    pruned, it was last seen when the newest of them was taken, and both maps track exactly the
    processes that have such samples.
  */
  lemma {:induction false} HistoryIsLastSamples(es: seq<Event>, cap: nat, pid: PID)
    ensures Holds(Run(es, cap), pid, SamplesSince(es, pid), cap)
  {
    if es != [] {
      HistoryIsLastSamples(Front(es), cap, pid);
      match Last(es)
      case Snapshot(now, procs) => 
        RecordAllHolds(Run(Front(es), cap), now, procs, cap, pid, SamplesSince(Front(es), pid));
      case Prune(cutoff) =>
    }
  }

  /** A listed process adds a sample with its own readings, taken at the time of the snapshot. */
  lemma SampleOnFields(es: seq<Event>, now: int, procs: seq<ProcessInfo>, i: nat)
    requires Distinct(procs) && i < |procs|
    ensures var p, log := procs[i], SamplesSince(es + [Snapshot(now, procs)], procs[i].pid);
            && |log| == |SamplesSince(es, p.pid)| + 1
            && Last(log).time == now && Last(log).cpu == p.cpu
            && Last(log).workingSet == p.workingSet && Last(log).privateBytes == p.privateBytes
            && Last(log).ioRead == p.ioRead && Last(log).ioWrite == p.ioWrite && Last(log).threads == p.threads
  {
    assert Front(es + [Snapshot(now, procs)]) == es;
    OneSample(now, procs, i);
  }

  lemma {:induction false} OneSample(now: int, procs: seq<ProcessInfo>, i: nat)
    requires Distinct(procs) && i < |procs|
    ensures SamplesIn(now, procs, procs[i].pid) == [ToSample(now, procs[i])]
  {
    if i < |procs| - 1 {
      OneSample(now, Front(procs), i);
    } else {
      NoSample(now, Front(procs), procs[i].pid);
    }
  }

  lemma {:induction false} NoSample(now: int, procs: seq<ProcessInfo>, pid: PID)
    requires forall i :: 0 <= i < |procs| ==> procs[i].pid != pid
    ensures SamplesIn(now, procs, pid) == []
  {
    if procs != [] {
      NoSample(now, Front(procs), pid);
    }
  }

  /** A prune drops exactly the processes last seen before the cutoff and leaves every other history alone. */
  lemma PruneDropsExactlyStale(es: seq<Event>, cap: nat, cutoff: int, pid: PID)
    ensures var s, s' := Run(es, cap), Run(es + [Prune(cutoff)], cap);
            && (pid in s'.hist <==> pid in s.hist && pid in s.seen && s.seen[pid] >= cutoff)
            && (pid in s'.hist ==> s'.hist[pid] == s.hist[pid] && s'.seen[pid] == s.seen[pid])
            && s'.hist.Keys == s'.seen.Keys
  {
    assert Front(es + [Prune(cutoff)]) == es;
    HistoryIsLastSamples(es, cap, pid);
    forall q ensures q in Run(es + [Prune(cutoff)], cap).hist <==> q in Run(es + [Prune(cutoff)], cap).seen {
      HistoryIsLastSamples(es + [Prune(cutoff)], cap, q);
    }
  }

  lemma OneChange(h: map<PID, seq<Sample>>, h': map<PID, seq<Sample>>, pid: PID)
    requires h'.Keys == h.Keys + {pid}
    requires forall q :: q in h && q != pid ==> h'[q] == h[q]
    ensures h' == h[pid := h'[pid]]
  {
  }

  /** Making an empty ring first and then appending to it is recording one sample. */
  lemma RecordInTwo(h: map<PID, seq<Sample>>, h1: map<PID, seq<Sample>>, h2: map<PID, seq<Sample>>,
                    seen: map<PID, int>, now: int, p: ProcessInfo, cap: nat)
    requires h1 == if p.pid in h then h else h[p.pid := []]
    requires h2 == h1[p.pid := LastN(h1[p.pid] + [ToSample(now, p)], cap)]
    ensures State(h2, seen[p.pid := now]) == Record(State(h, seen), now, p, cap)
  {
  }

  lemma PruneResult(s: State, s': State, cutoff: int)
    requires s.hist.Keys == s.seen.Keys && s'.hist.Keys == s'.seen.Keys <= s.seen.Keys
    requires forall pid :: pid in s.seen ==> (pid in s'.seen <==> !(s.seen[pid] < cutoff))
    requires forall pid :: pid in s'.seen ==> s'.seen[pid] == s.seen[pid] && s'.hist[pid] == s.hist[pid]
    ensures s' == PruneBefore(s, cutoff)
  {
    var p := PruneBefore(s, cutoff);
    assert s'.hist == p.hist && s'.seen == p.seen;
  }

  /** No two processes share a ring or the array under it. */
  ghost predicate Apart(rings: map<PID, RingBuffer<Sample>>) {
    forall p, q :: p in rings && q in rings && p != q ==> rings[p] != rings[q] && rings[p].data != rings[q].data
  }

  lemma ApartGrows(rings: map<PID, RingBuffer<Sample>>, pid: PID, ring: RingBuffer<Sample>)
    requires Apart(rings) && forall q :: q in rings ==> rings[q] != ring && rings[q].data != ring.data
    ensures Apart(rings[pid := ring])
  {
  }

  /** The rings of all processes and when each was last seen. */
  class ProcessRings {
    const procCap: nat
    var procHistory: map<PID, RingBuffer<Sample>>
    var procSeen: map<PID, int>
    ghost var Repr: set<object>

    ghost predicate Valid()
      reads this, Repr
    {
      procHistory.Keys == procSeen.Keys && ValidRings()
    }

    ghost predicate ValidRings()
      reads `procHistory, `Repr, Repr
      ensures ValidRings() ==> this !in Repr
    {
      && procCap >= 10 && this !in Repr
      && (forall pid :: pid in procHistory ==> Owns(procHistory[pid]))
      && Apart(procHistory)
    }

    ghost predicate Owns(ring: RingBuffer<Sample>)
      reads `Repr, Repr
    {
      && ring in Repr && ring.data in Repr
      && ring.Valid() && ring.capacity == procCap
    }

    ghost function Histories(): (h: map<PID, seq<Sample>>)
      requires ValidRings()
      reads `procHistory, `Repr, Repr
      ensures h.Keys == procHistory.Keys
      ensures forall pid :: pid in h ==> h[pid] == procHistory[pid].Contents()
    {
      map pid | pid in procHistory :: procHistory[pid].Contents()
    }

    ghost function View(): State
      requires Valid()
      reads this, Repr
    {
      State(Histories(), procSeen)
    }

    constructor (procHistoryCap: int)
      ensures Valid() && fresh(Repr) && View() == Run([], procCap)
      ensures procCap == if procHistoryCap < 10 then 10 else procHistoryCap
    {
      procCap := if procHistoryCap < 10 then 10 else procHistoryCap;
      procHistory, procSeen, Repr := map[], map[], {};
    }

    /** A ring that nothing was written to is still owned and holds the same samples. */
    twostate lemma Untouched(ring: RingBuffer<Sample>)
      requires old(Owns(ring)) && unchanged(ring) && unchanged(ring.data) && ring in Repr && ring.data in Repr
      ensures Owns(ring) && ring.Contents() == old(ring.Contents())
    {
    }

    /** Finds or makes the ring of a process. */
    method RingFor(pid: PID) returns (buf: RingBuffer<Sample>)
      requires Valid()
      modifies this
      ensures ValidRings() && fresh(Repr - old(Repr)) && old(Repr) <= Repr && procSeen == old(procSeen)
      ensures procHistory.Keys == old(procHistory).Keys + {pid}
      ensures procHistory[pid] == buf && buf in Repr && buf.data in Repr
      ensures Histories() == if pid in old(Histories()) then old(Histories()) else old(Histories())[pid := []]
    {
      hide RingBuffer.Contents, RingBuffer.Valid, Histories;
      if pid in procHistory {
        buf := procHistory[pid];
        assert Owns(buf);
      } else {
        buf := MakeRing(pid);
      }
    }

    method MakeRing(pid: PID) returns (buf: RingBuffer<Sample>)
      requires Valid() && pid !in procHistory
      modifies `procHistory, `Repr
      ensures ValidRings() && fresh(Repr - old(Repr)) && old(Repr) <= Repr
      ensures procHistory == old(procHistory)[pid := buf] && buf in Repr && buf.data in Repr
      ensures Histories() == old(Histories())[pid := []]
    {
      hide RingBuffer.Contents, RingBuffer.Valid, Histories, Owns, Apart;
      AllInRepr();
      assert forall q :: q in procHistory ==> old(Owns(procHistory[q]));
      buf := new RingBuffer<Sample>(procCap);
      ApartGrows(procHistory, pid, buf);
      procHistory := procHistory[pid := buf];
      Repr := Repr + {buf, buf.data};
      assert Owns(buf) by { OwnsFresh(buf); }
      forall q | q in old(procHistory)
        ensures Owns(procHistory[q]) && procHistory[q].Contents() == old(procHistory[q].Contents())
      {
        Untouched(procHistory[q]);
      }
      OneChange(old(Histories()), Histories(), pid);
    }

    lemma AllInRepr()
      requires ValidRings()
      ensures forall q :: q in procHistory ==>
                procHistory[q] in Repr && procHistory[q].data in Repr && procHistory[q].Valid()
    {
      assert forall q :: q in procHistory ==> Owns(procHistory[q]);
    }

    lemma OwnsFresh(ring: RingBuffer<Sample>)
      requires ring in Repr && ring.data in Repr && ring.Valid() && ring.capacity == procCap
      ensures Owns(ring)
    {
    }

    /** Appends a sample to one ring and notes its time; no other ring is touched. */
    method AddTo(buf: RingBuffer<Sample>, pid: PID, x: Sample)
      requires ValidRings() && pid in procHistory && procHistory[pid] == buf
      requires procHistory.Keys == procSeen.Keys + {pid}
      modifies `procSeen, buf, buf.data
      ensures Valid()
      ensures View() == State(old(Histories())[pid := LastN(old(Histories())[pid] + [x], procCap)],
                              old(procSeen)[pid := x.time])
    {
      hide RingBuffer.Contents, RingBuffer.Valid, LastN, Histories, ValidRings, Owns;
      Append(buf, pid, x);
      procSeen := procSeen[pid := x.time];
    }

    method Append(buf: RingBuffer<Sample>, pid: PID, x: Sample)
      requires ValidRings() && pid in procHistory && procHistory[pid] == buf
      modifies buf, buf.data
      ensures ValidRings()
      ensures Histories() == old(Histories())[pid := LastN(old(Histories())[pid] + [x], procCap)]
    {
      hide RingBuffer.Contents, LastN, Histories;
      AllInRepr();
      assert Owns(buf);
      assert forall q :: q in procHistory ==> old(Owns(procHistory[q]));
      assert forall q :: q in procHistory && q != pid ==> procHistory[q] != buf && procHistory[q].data != buf.data;
      hide Apart, RingBuffer.Valid;
      buf.Add(x);
      hide Owns;
      assert Owns(buf) by { OwnsFresh(buf); }
      forall q | q in procHistory && q != pid
        ensures Owns(procHistory[q]) && procHistory[q].Contents() == old(procHistory[q].Contents())
      {
        Untouched(procHistory[q]);
      }
      OneChange(old(Histories()), Histories(), pid);
    }

    /** One process of a snapshot: find or make its ring, append, note the time. */
    method RecordProcess(now: int, p: ProcessInfo)
      requires Valid()
      modifies this, Repr
      ensures Valid() && fresh(Repr - old(Repr))
      ensures View() == Record(old(View()), now, p, procCap)
    {
      hide LastN, ValidRings, Histories, Record;
      ghost var h := Histories();
      var buf := RingFor(p.pid);
      ghost var h1 := Histories();
      AddTo(buf, p.pid, ToSample(now, p));
      RecordInTwo(h, h1, Histories(), old(procSeen), now, p, procCap);
    }

    method RecordSnapshot(now: int, procs: seq<ProcessInfo>)
      requires Valid()
      modifies this, Repr
      ensures Valid() && fresh(Repr - old(Repr))
      ensures View() == Step(old(View()), Snapshot(now, procs), procCap)
    {
      for i := 0 to |procs|
        invariant Valid() && fresh(Repr - old(Repr))
        invariant View() == RecordAll(old(View()), now, procs[..i], procCap)
      {
        RecordProcess(now, procs[i]);
        assert Front(procs[..i+1]) == procs[..i];
      }
      assert procs[..|procs|] == procs;
    }

    method ProcessHistory(pid: PID) returns (r: seq<Sample>)
      requires Valid()
      ensures r == if pid in View().hist then View().hist[pid] else []
    {
      if pid !in procHistory {
        return [];
      }
      r := procHistory[pid].Slice();
    }

    method PruneStaleProcesses(cutoff: int) returns (removed: nat)
      requires Valid()
      modifies `procHistory, `procSeen
      ensures Valid()
      ensures View() == Step(old(View()), Prune(cutoff), procCap)
      ensures removed == |old(procSeen)| - |procSeen|
    {
      hide RingBuffer.Contents, RingBuffer.Valid, PruneBefore, Histories, LastN;
      assert forall pid :: pid in procHistory ==> Owns(procHistory[pid]);
      AllInRepr();
      hide Owns;
      removed := DropStale(cutoff);
      forall pid | pid in procHistory
        ensures Owns(procHistory[pid]) && procHistory[pid].Contents() == old(procHistory[pid].Contents())
      {
        Untouched(procHistory[pid]);
      }
      assert Apart(procHistory);
      assert ValidRings();
      hide Owns, Apart;
      PruneResult(old(View()), View(), cutoff);
    }

    /** The loop of the prune, over the two maps alone. */
    method DropStale(cutoff: int) returns (removed: nat)
      requires procHistory.Keys == procSeen.Keys
      modifies `procHistory, `procSeen
      ensures procHistory.Keys == procSeen.Keys <= old(procSeen).Keys
      ensures forall pid :: pid in old(procSeen) ==> (pid in procSeen <==> !(old(procSeen)[pid] < cutoff))
      ensures forall pid :: pid in procSeen ==>
                procSeen[pid] == old(procSeen)[pid] && procHistory[pid] == old(procHistory)[pid]
      ensures removed == |old(procSeen)| - |procSeen|
    {
      removed := 0;
      var todo := procSeen.Keys;
      while todo != {}
        invariant todo <= procSeen.Keys == procHistory.Keys <= old(procSeen).Keys
        invariant forall pid :: pid in procSeen ==> procSeen[pid] == old(procSeen)[pid]
        invariant forall pid :: pid in procSeen ==> procHistory[pid] == old(procHistory)[pid]
        invariant forall pid :: pid in old(procSeen) ==>
                    (pid in procSeen <==> pid in todo || !(old(procSeen)[pid] < cutoff))
        invariant removed == |old(procSeen)| - |procSeen|
      {
        var pid :| pid in todo;
        if procSeen[pid] < cutoff {
          assert |procSeen - {pid}| == |procSeen| - 1 by {
            assert (procSeen - {pid}).Keys == procSeen.Keys - {pid};
            assert |(procSeen - {pid}).Keys| == |procSeen.Keys| - 1;
          }
          procHistory := procHistory - {pid};
          procSeen := procSeen - {pid};
          removed := removed + 1;
        }
        todo := todo - {pid};
      }
    }
  }

  // ---- the whole store ----

  datatype Metrics = Metrics(cpu: real, memoryUsed: nat, gpu: real, networkBytes: nat, diskBytes: nat)

  datatype SystemSnapshot = SystemSnapshot(now: int, metrics: Metrics, procs: seq<ProcessInfo>)

  datatype TimestampedSystem = TimestampedSystem(time: int, metrics: Metrics)

  class Store {
    var latest: Option<SystemSnapshot>
    const systemHistory: RingBuffer<TimestampedSystem>
    const processes: ProcessRings

    ghost predicate Valid()
      reads this, systemHistory, processes, processes.Repr
    {
      && processes.Valid() && systemHistory.Valid()
      && {this, systemHistory, systemHistory.data} !! processes.Repr
    }

    constructor (historyCap: int, procHistoryCap: int)
      ensures Valid() && fresh(systemHistory) && fresh(systemHistory.data) && fresh(processes) && fresh(processes.Repr)
      ensures latest == None && systemHistory.Contents() == [] && processes.View() == Run([], processes.procCap)
      ensures systemHistory.capacity == if historyCap < 60 then 60 else historyCap
      ensures processes.procCap == if procHistoryCap < 10 then 10 else procHistoryCap
    {
      latest := None;
      systemHistory := new RingBuffer<TimestampedSystem>(if historyCap < 60 then 60 else historyCap);
      processes := new ProcessRings(procHistoryCap);
    }

    /** The newest snapshot replaces the latest, adds a row to the system history and a sample per listed process. */
    method SetLatest(snap: SystemSnapshot)
      requires Valid()
      modifies this, systemHistory, systemHistory.data, processes, processes.Repr
      ensures Valid() && fresh(processes.Repr - old(processes.Repr))
      ensures latest == Some(snap)
      ensures systemHistory.Contents()
           == LastN(old(systemHistory.Contents()) + [TimestampedSystem(snap.now, snap.metrics)], systemHistory.capacity)
      ensures processes.View() == Step(old(processes.View()), Snapshot(snap.now, snap.procs), processes.procCap)
    {
      hide Step, LastN, RingBuffer.Contents, ProcessRings.ValidRings, ProcessRings.Histories, RingBuffer.Valid;
      latest := Some(snap);
      systemHistory.Add(TimestampedSystem(snap.now, snap.metrics));
      processes.RecordSnapshot(snap.now, snap.procs);
    }
  }
}
