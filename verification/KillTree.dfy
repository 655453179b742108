/** Collecting a process's descendants with an explicit stack, and killing them one by one. */
module KillTrees {
  import opened Processes
  import opened Seqs
  import opened ParentLinks
  import opened ProcessTrees

  predicate IsChild(p: ProcessInfo, pid: PID, parent: PID) {
    p.pid == pid && p.parent == parent
  }

  /** Who points at whom, with every reported parent kept. */
  function RawLinks(procs: seq<ProcessInfo>): Links {
    if procs == [] then map[] else RawLinks(Front(procs))[Last(procs).pid := Last(procs).parent]
  }

  lemma {:induction false} RawLinksAre(procs: seq<ProcessInfo>)
    ensures forall pid :: pid in RawLinks(procs) ==>
              exists i :: 0 <= i < |procs| && IsChild(procs[i], pid, RawLinks(procs)[pid])
    ensures forall i :: 0 <= i < |procs| ==> procs[i].pid in RawLinks(procs)
  {
    if procs != [] {
      var n, rest := |procs| - 1, RawLinks(Front(procs));
      RawLinksAre(Front(procs));
      assert forall i :: 0 <= i < n ==> Front(procs)[i] == procs[i];
      forall pid | pid in RawLinks(procs)
        ensures exists i :: 0 <= i < |procs| && IsChild(procs[i], pid, RawLinks(procs)[pid])
      {
        if pid == procs[n].pid {
          assert IsChild(procs[n], pid, RawLinks(procs)[pid]);
        } else {
          var i :| 0 <= i < n && IsChild(Front(procs)[i], pid, rest[pid]);
          assert IsChild(procs[i], pid, RawLinks(procs)[pid]);
        }
      }
    }
  }

  lemma {:induction false} RawLinksSize(procs: seq<ProcessInfo>)
    ensures |RawLinks(procs).Keys| <= |procs|
  {
    if procs != [] {
      RawLinksSize(Front(procs));
      assert RawLinks(procs).Keys == RawLinks(Front(procs)).Keys + {Last(procs).pid};
    }
  }

  /** The children of a process, in list order. */
  function ChildrenOf(procs: seq<ProcessInfo>, pid: PID): seq<PID> {
    if procs == [] then []
    else ChildrenOf(Front(procs), pid) + if Last(procs).parent == pid then [Last(procs).pid] else []
  }

  lemma {:induction false} ChildrenAre(procs: seq<ProcessInfo>, pid: PID)
    ensures forall c :: c in ChildrenOf(procs, pid) <==> exists i :: 0 <= i < |procs| && IsChild(procs[i], c, pid)
    ensures Distinct(procs) ==> NoDuplicates(ChildrenOf(procs, pid))
  {
    if procs != [] {
      ChildrenAre(Front(procs), pid);
      assert procs == Front(procs) + [Last(procs)];
      assert forall i :: 0 <= i < |procs| - 1 ==> procs[i] == Front(procs)[i];
      var n, kids := |procs| - 1, ChildrenOf(Front(procs), pid);
      if Distinct(procs) {
        assert forall i :: 0 <= i < n ==> !IsChild(Front(procs)[i], procs[n].pid, pid);
        assert procs[n].pid !in kids;
        assert NoDuplicates(kids);
      }
    }
  }

  lemma ChildrenAreLinked(procs: seq<ProcessInfo>, pid: PID)
    requires Distinct(procs)
    ensures NoDuplicates(ChildrenOf(procs, pid))
    ensures forall c :: c in ChildrenOf(procs, pid) <==> c in RawLinks(procs) && RawLinks(procs)[c] == pid
  {
    ChildrenAre(procs, pid);
    RawLinksAre(procs);
    var links := RawLinks(procs);
    forall c ensures c in ChildrenOf(procs, pid) <==> c in links && links[c] == pid {
      if c in ChildrenOf(procs, pid) {
        var i :| 0 <= i < |procs| && IsChild(procs[i], c, pid);
        assert procs[i].pid in links;
        var j :| 0 <= j < |procs| && IsChild(procs[j], c, links[c]);
        assert i == j;
      } else if c in links {
        var j :| 0 <= j < |procs| && IsChild(procs[j], c, links[c]);
      }
    }
  }

  // ---- the search, one step at a time ----

  datatype Search = Search(stack: seq<PID>, out: seq<PID>)

  function Start(procs: seq<ProcessInfo>, root: PID): Search {
    Search(ChildrenOf(procs, root), [])
  }

  /** Pop a process, report it, push its children. There is no record of what was visited. */
  function Step(procs: seq<ProcessInfo>, s: Search): Search
    requires s.stack != []
  {
    Search(Front(s.stack) + ChildrenOf(procs, Last(s.stack)), s.out + [Last(s.stack)])
  }

  function Steps(procs: seq<ProcessInfo>, s: Search, n: nat): Search
    decreases n
  {
    if n == 0 || s.stack == [] then s else Steps(procs, Step(procs, s), n - 1)
  }

  ghost predicate Terminates(procs: seq<ProcessInfo>, root: PID) {
    exists n: nat :: Steps(procs, Start(procs, root), n).stack == []
  }

  // ---- what the search should find ----

  /** Every proper descendant, once, each after its parent. */
  ghost predicate IsDescendantList(links: Links, root: PID, out: seq<PID>) {
    && NoDuplicates(out)
    && (forall p :: p in out <==> Below(links, p, root))
    && ParentsFirst(links, root, out)
  }

  ghost predicate ParentsFirst(links: Links, root: PID, out: seq<PID>) {
    forall i :: 0 <= i < |out| ==> out[i] in links && (links[out[i]] == root || links[out[i]] in out[..i])
  }

  /** What has been reported or pushed is exactly what hangs off root or off something reported. */
  ghost predicate Frontier(links: Links, root: PID, out: seq<PID>, held: seq<PID>) {
    && NoDuplicates(held)
    && (forall p :: p in held <==> p in links && (links[p] == root || links[p] in out))
    && (forall p :: p in held ==> Below(links, p, root))
  }

  ghost predicate Invariant(links: Links, root: PID, s: Search) {
    Frontier(links, root, s.out, s.out + s.stack) && ParentsFirst(links, root, s.out)
  }

  lemma StartInvariant(procs: seq<ProcessInfo>, root: PID)
    requires Distinct(procs)
    ensures Invariant(RawLinks(procs), root, Start(procs, root))
  {
    var links, s := RawLinks(procs), Start(procs, root);
    assert s.out + s.stack == s.stack;
    ChildrenAreLinked(procs, root);
    forall p | p in s.stack ensures Below(links, p, root) {
      BelowStep(links, p, root);
    }
  }

  lemma {:induction false} StepInvariant(procs: seq<ProcessInfo>, root: PID, s: Search)
    requires Distinct(procs) && !OnCycle(RawLinks(procs), root)
    requires Invariant(RawLinks(procs), root, s) && s.stack != []
    ensures Invariant(RawLinks(procs), root, Step(procs, s))
    ensures |s.out| < |procs|
  {
    hide ChildrenOf, RawLinks, OnCycle, Below;
    var links, rest, pid := RawLinks(procs), Front(s.stack), Last(s.stack);
    var kids := ChildrenOf(procs, pid);
    ChildrenAreLinked(procs, pid);
    assert s.out + s.stack == s.out + rest + [pid];
    NotRoot(links, root, s.out, s.out + s.stack, pid);
    FrontierStep(links, root, s.out, rest, pid, kids);
    assert Step(procs, s) == Search(rest + kids, s.out + [pid]);
    OneMoreParentFirst(links, root, s.out, rest, pid);
    RawLinksSize(procs);
    NoDuplicatesFits(s.out + s.stack, links.Keys);
  }

  lemma NotRoot(links: Links, root: PID, out: seq<PID>, held: seq<PID>, pid: PID)
    requires !OnCycle(links, root) && Frontier(links, root, out, held) && pid in held
    ensures pid != root
  {
    assert Below(links, pid, root);
  }

  lemma OneMoreParentFirst(links: Links, root: PID, out: seq<PID>, rest: seq<PID>, pid: PID)
    requires Frontier(links, root, out, out + rest + [pid]) && ParentsFirst(links, root, out)
    ensures ParentsFirst(links, root, out + [pid])
  {
    var out' := out + [pid];
    assert pid in out + rest + [pid];
    forall i | 0 <= i < |out'| ensures out'[i] in links && (links[out'[i]] == root || links[out'[i]] in out'[..i]) {
      assert out'[..i] == out[..i];
    }
  }

  lemma FrontierStep(links: Links, root: PID, out: seq<PID>, rest: seq<PID>, pid: PID, kids: seq<PID>)
    requires Frontier(links, root, out, out + rest + [pid]) && pid != root
    requires NoDuplicates(kids) && forall c :: c in kids <==> c in links && links[c] == pid
    ensures Frontier(links, root, out + [pid], (out + [pid]) + (rest + kids))
  {
    hide Below;
    var held, held' := out + rest + [pid], (out + [pid]) + (rest + kids);
    assert pid in held;
    forall i | 0 <= i < |out| ensures out[i] != pid {
      assert held[i] == out[i] && held[|held| - 1] == pid;
    }
    forall c | c in kids ensures c !in held {
    }
    Rearranged(out, rest, pid, kids);
    forall p ensures p in held' <==> p in held || p in kids {
    }
    forall p | p in kids ensures Below(links, p, root) {
      BelowStep(links, p, root);
    }
  }

  lemma Rearranged(out: seq<PID>, rest: seq<PID>, pid: PID, kids: seq<PID>)
    requires NoDuplicates(out + rest + [pid]) && NoDuplicates(kids)
    requires forall c :: c in kids ==> c !in out + rest + [pid]
    ensures NoDuplicates((out + [pid]) + (rest + kids))
  {
    var held := out + rest + [pid];
    var held' := (out + [pid]) + (rest + kids);
    assert forall i :: 0 <= i < |out| ==> held'[i] == held[i];
    assert held'[|out|] == held[|held| - 1];
    assert forall i :: |out| < i < |held| ==> held'[i] == held[i - 1];
    assert forall i :: |held| <= i < |held'| ==> held'[i] == kids[i - |held|] && held'[i] in kids;
    forall i, j | 0 <= i < j < |held'| ensures held'[i] != held'[j] {
      if j < |held| {
      } else if i < |held| {
        assert held'[i] in held;
      }
    }
  }

  lemma {:induction false} AllBelowFound(links: Links, root: PID, out: seq<PID>, p: PID, k: nat)
    requires forall q :: q in links && (links[q] == root || links[q] in out) ==> q in out
    requires k > 0 && Ancestor(links, p, k) == Some(root)
    ensures p in out
    decreases k
  {
    if k > 1 {
      AllBelowFound(links, root, out, links[p], k - 1);
    }
  }

  lemma FinishedIsComplete(links: Links, root: PID, s: Search)
    requires Invariant(links, root, s) && s.stack == []
    ensures IsDescendantList(links, root, s.out)
  {
    assert s.out + s.stack == s.out;
    forall p | Below(links, p, root) ensures p in s.out {
      var k: nat :| k > 0 && Ancestor(links, p, k) == Some(root);
      AllBelowFound(links, root, s.out, p, k);
    }
  }

  lemma {:induction false} StepsFinish(procs: seq<ProcessInfo>, root: PID, s: Search, n: nat)
    requires Distinct(procs) && !OnCycle(RawLinks(procs), root)
    requires Invariant(RawLinks(procs), root, s)
    requires n >= |procs| - |s.out|
    ensures Steps(procs, s, n).stack == []
    ensures Invariant(RawLinks(procs), root, Steps(procs, s, n))
    decreases n
  {
    hide Invariant, OnCycle, RawLinks, ChildrenOf;
    if s.stack != [] {
      StepInvariant(procs, root, s);
      StepsFinish(procs, root, Step(procs, s), n - 1);
    }
  }

  lemma {:induction false} CycleNeverEmpties(procs: seq<ProcessInfo>, s: Search, x: PID, n: nat)
    requires Distinct(procs)
    requires x in s.stack && OnCycle(RawLinks(procs), x)
    ensures Steps(procs, s, n).stack != []
    decreases n
  {
    hide OnCycle, RawLinks, ChildrenOf;
    if n > 0 {
      var s' := Step(procs, s);
      if x == Last(s.stack) {
        var c := CyclePredecessor(RawLinks(procs), x);
        ChildrenAreLinked(procs, x);
        assert c in s'.stack;
        CycleNeverEmpties(procs, s', c, n - 1);
      } else {
        assert x in Front(s.stack);
        CycleNeverEmpties(procs, s', x, n - 1);
      }
    }
  }

  /**
    The search empties its stack exactly when root is not on a cycle of parent links; a process listed
    as its own parent, such as PID 0 with parent 0, is such a root.
  */
  lemma TerminatesIffAcyclicRoot(procs: seq<ProcessInfo>, root: PID)
    requires Distinct(procs)
    ensures Terminates(procs, root) <==> !OnCycle(RawLinks(procs), root)
  {
    if OnCycle(RawLinks(procs), root) {
      var c := CyclePredecessor(RawLinks(procs), root);
      ChildrenAreLinked(procs, root);
      forall n: nat ensures Steps(procs, Start(procs, root), n).stack != [] {
        CycleNeverEmpties(procs, Start(procs, root), c, n);
      }
    } else {
      StartInvariant(procs, root);
      StepsFinish(procs, root, Start(procs, root), |procs|);
    }
  }

  lemma ChildrenOfNext(procs: seq<ProcessInfo>, i: nat, pid: PID)
    requires i < |procs|
    ensures ChildrenOf(procs[..i+1], pid)
         == ChildrenOf(procs[..i], pid) + if procs[i].parent == pid then [procs[i].pid] else []
  {
    assert Front(procs[..i+1]) == procs[..i] && Last(procs[..i+1]) == procs[i];
  }

  method IndexChildren(procs: seq<ProcessInfo>) returns (children: map<PID, seq<PID>>)
    ensures forall p :: (if p in children then children[p] else []) == ChildrenOf(procs, p)
  {
    children := map[];
    assert forall p :: ChildrenOf(procs[..0], p) == [];
    hide ChildrenOf;
    for i := 0 to |procs|
      invariant forall p :: (if p in children then children[p] else []) == ChildrenOf(procs[..i], p)
    {
      var p := procs[i];
      forall q {
        ChildrenOfNext(procs, i, q);
      }
      children := children[p.parent := (if p.parent in children then children[p.parent] else []) + [p.pid]];
    }
    assert procs[..|procs|] == procs;
  }

  /** A process listed as its own parent is a root the search never finishes from. */
  lemma SelfParentNeverEnds(procs: seq<ProcessInfo>, i: nat)
    requires Distinct(procs) && i < |procs| && procs[i].parent == procs[i].pid
    ensures !Terminates(procs, procs[i].pid)
  {
    var links, pid := RawLinks(procs), procs[i].pid;
    RawLinksAre(procs);
    var j :| 0 <= j < |procs| && IsChild(procs[j], pid, links[pid]);
    assert i == j;
    assert Ancestor(links, pid, 1) == Some(pid);
    TerminatesIffAcyclicRoot(procs, pid);
  }

  /** Whatever the process forest shows below a process is in its kill list. */
  lemma KillListCoversForest(procs: seq<ProcessInfo>, root: PID, out: seq<PID>, q: PID)
    requires Distinct(procs) && IsDescendantList(RawLinks(procs), root, out)
    requires Under(KeptLinks(TableOf(procs)), q, root) && q != root
    ensures q in out
  {
    var t, raw := TableOf(procs), RawLinks(procs);
    RawLinksAre(procs);
    forall pid | pid in t ensures pid in raw && raw[pid] == t[pid].parent {
      var i :| 0 <= i < |procs| && procs[i] == t[pid];
      var j :| 0 <= j < |procs| && IsChild(procs[j], pid, raw[pid]);
      assert i == j;
    }
    ShownUnderIsDescendant(t, raw, q, root);
  }

  /** The loop. Its precondition is exactly the condition under which it ends. */
  method CollectDescendants(procs: seq<ProcessInfo>, root: PID) returns (out: seq<PID>)
    requires Distinct(procs) && !OnCycle(RawLinks(procs), root)
    ensures IsDescendantList(RawLinks(procs), root, out)
    ensures out == Steps(procs, Start(procs, root), |procs|).out
  {
    hide Invariant, OnCycle, RawLinks, IsDescendantList, ChildrenOf;
    var children := IndexChildren(procs);
    out := [];
    var stack := if root in children then children[root] else [];
    StartInvariant(procs, root);
    while |stack| > 0
      invariant Invariant(RawLinks(procs), root, Search(stack, out))
      invariant |out| <= |procs|
      invariant Steps(procs, Search(stack, out), |procs| - |out|) == Steps(procs, Start(procs, root), |procs|)
      decreases |procs| - |out|
    {
      ghost var s := Search(stack, out);
      StepInvariant(procs, root, s);
      var pid := stack[|stack|-1];
      stack := stack[..|stack|-1];
      out := out + [pid];
      stack := stack + if pid in children then children[pid] else [];
      assert Search(stack, out) == Step(procs, s);
    }
    FinishedIsComplete(RawLinks(procs), root, Search(stack, out));
  }

  // ---- killing ----

  datatype Error = NotFound | Failed(code: int)

  function CountKilled(order: seq<PID>, kill: PID -> Option<Error>): nat {
    if order == [] then 0 else CountKilled(Front(order), kill) + if kill(Last(order)).None? then 1 else 0
  }

  function FirstError(order: seq<PID>, kill: PID -> Option<Error>): Option<Error> {
    if order == [] then None
    else if FirstError(Front(order), kill).Some? then FirstError(Front(order), kill)
    else kill(Last(order))
  }

  /** Every target is tried: what was not killed failed, and an error is reported exactly when something failed. */
  lemma {:induction false} KillAccounts(order: seq<PID>, kill: PID -> Option<Error>)
    ensures FirstError(order, kill) == None <==> CountKilled(order, kill) == |order|
    ensures CountKilled(order, kill) <= |order|
    ensures FirstError(order, kill).Some? ==>
              exists i :: 0 <= i < |order| && kill(order[i]) == FirstError(order, kill)
                          && forall j :: 0 <= j < i ==> kill(order[j]) == None
  {
    if order != [] {
      KillAccounts(Front(order), kill);
      var n := |order| - 1;
      if FirstError(Front(order), kill).Some? {
        var i :| 0 <= i < n && kill(Front(order)[i]) == FirstError(Front(order), kill)
                 && forall j :: 0 <= j < i ==> kill(Front(order)[j]) == None;
        assert kill(order[i]) == FirstError(order, kill);
        assert forall j :: 0 <= j < i ==> kill(order[j]) == kill(Front(order)[j]);
      } else if FirstError(order, kill).Some? {
        NoErrorMeansAllKilled(Front(order), kill);
        assert kill(order[n]) == FirstError(order, kill);
        assert forall j :: 0 <= j < n ==> kill(order[j]) == kill(Front(order)[j]);
      }
    }
  }

  lemma {:induction false} NoErrorMeansAllKilled(order: seq<PID>, kill: PID -> Option<Error>)
    ensures FirstError(order, kill) == None <==> forall j :: 0 <= j < |order| ==> kill(order[j]) == None
  {
    if order != [] {
      NoErrorMeansAllKilled(Front(order), kill);
      assert forall j :: 0 <= j < |order| - 1 ==> order[j] == Front(order)[j];
    }
  }

  lemma RootLast(links: Links, root: PID, descendants: seq<PID>)
    requires IsDescendantList(links, root, descendants) && !OnCycle(links, root)
    ensures var all := descendants + [root];
            NoDuplicates(all) && Front(all) == descendants && Last(all) == root
  {
    assert root in descendants <==> Below(links, root, root);
    assert Below(links, root, root) <==> OnCycle(links, root);
    hide OnCycle, Below;
    NoDuplicatesConcat(descendants, [root]);
  }

  /**
    Kills the descendants and then the root. `kill` stands for what terminating one process answers;
    no process is attempted twice, so a function is enough.
  */
  method KillTree(snapshot: Option<seq<ProcessInfo>>, root: PID, kill: PID -> Option<Error>)
    returns (killed: nat, err: Option<Error>, ghost attempted: seq<PID>)
    requires snapshot.Some? ==> Distinct(snapshot.value) && !OnCycle(RawLinks(snapshot.value), root)
    ensures snapshot.None? ==> killed == 0 && err == Some(NotFound)
    ensures snapshot.None? ==> attempted == []
    ensures snapshot.Some? ==>
              && attempted != [] && Last(attempted) == root
              && NoDuplicates(attempted)
              && IsDescendantList(RawLinks(snapshot.value), root, Front(attempted))
              && killed == CountKilled(attempted, kill)
              && err == FirstError(attempted, kill)
  {
    if snapshot.None? {
      return 0, Some(NotFound), [];
    }
    hide RawLinks, OnCycle, IsDescendantList, CountKilled, FirstError, Distinct, NoDuplicates, Steps, Start;
    var descendants := CollectDescendants(snapshot.value, root);
    RootLast(RawLinks(snapshot.value), root, descendants);
    killed, err, attempted := KillAll(descendants + [root], kill);
  }

  /** The loop: tries every process in order, counts the successes and keeps the first error. */
  method KillAll(order: seq<PID>, kill: PID -> Option<Error>)
    returns (killed: nat, err: Option<Error>, ghost attempted: seq<PID>)
    ensures attempted == order && killed == CountKilled(order, kill) && err == FirstError(order, kill)
  {
    attempted, killed, err := [], 0, None;
    for i := 0 to |order|
      invariant attempted == order[..i]
      invariant killed == CountKilled(order[..i], kill) && err == FirstError(order[..i], kill)
    {
      assert Front(order[..i+1]) == order[..i] && Last(order[..i+1]) == order[i];
      var e := kill(order[i]);
      attempted := attempted + [order[i]];
      if e.Some? {
        if err.None? {
          err := e;
        }
        continue;
      }
      killed := killed + 1;
    }
    assert order[..|order|] == order;
  }
}
