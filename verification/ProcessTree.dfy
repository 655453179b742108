/** The process forest: nodes linked and numbered in place, over whatever parent links the list reports. */
module ProcessTrees {
  import opened Processes
  import opened Seqs
  import opened ParentLinks

  class ProcessNode {
    const process: ProcessInfo
    var children: seq<ProcessNode>
    var depth: nat
    var isOrphan: bool

    constructor (p: ProcessInfo)
      ensures process == p && children == [] && depth == 0 && !isOrphan
    {
      process, children, depth, isOrphan := p, [], 0, false;
    }
  }

  type Table = map<PID, ProcessInfo>

  /** The process table: when a PID is listed twice, the last listing wins. */
  function TableOf(procs: seq<ProcessInfo>): (t: Table)
    ensures forall pid :: pid in t ==> t[pid].pid == pid && t[pid] in procs
    ensures forall p :: p in procs ==> p.pid in t
  {
    if procs == [] then map[] else
      assert procs == Front(procs) + [Last(procs)];
      TableOf(Front(procs))[Last(procs).pid := Last(procs)]
  }

  predicate HasParent(t: Table, p: ProcessInfo) {
    p.parent in t && p.parent != 0
  }

  /** The reported parent was created after the child, so its PID was reused. */
  predicate ParentIsLater(t: Table, p: ProcessInfo)
    requires HasParent(t, p)
  {
    t[p.parent].createTime > p.createTime && t[p.parent].createTime > 0 && p.createTime > 0
  }

  /** The parent links the forest keeps. */
  function KeptLinks(t: Table): Links {
    map pid | pid in t && HasParent(t, t[pid]) && !ParentIsLater(t, t[pid]) :: t[pid].parent
  }

  type Nodes = map<PID, ProcessNode>

  ghost predicate Indexes(byPID: Nodes, t: Table) {
    && byPID.Keys == t.Keys
    && (forall pid :: pid in t ==> byPID[pid].process == t[pid] && t[pid].pid == pid)
  }

  /** nodes lists the nodes of the PIDs in which, each once. */
  ghost predicate Lists(nodes: seq<ProcessNode>, byPID: Nodes, which: set<PID>) {
    && NoDuplicates(nodes)
    && (forall n :: n in nodes ==> n.process.pid in which && n.process.pid in byPID && byPID[n.process.pid] == n)
    && (forall q :: q in which ==> q in byPID && byPID[q] in nodes)
  }

  ghost predicate ByCpuDescending(nodes: seq<ProcessNode>) {
    forall i, j :: 0 <= i < j < |nodes| ==> nodes[i].process.cpu >= nodes[j].process.cpu
  }

  function ChildSet(links: Links, pid: PID): set<PID> {
    set q | q in links && links[q] == pid
  }

  // ---- the parts of the finished structure, each over the field it is about ----

  /** Every node's child list holds exactly the processes whose kept parent it is. */
  ghost predicate Linked(byPID: Nodes, t: Table)
    reads byPID.Values`children
  {
    && Indexes(byPID, t)
    && (forall pid :: pid in byPID ==> Lists(byPID[pid].children, byPID, ChildSet(KeptLinks(t), pid)))
  }

  ghost predicate ChildrenSorted(byPID: Nodes)
    reads byPID.Values`children
  {
    forall pid :: pid in byPID ==> ByCpuDescending(byPID[pid].children)
  }

  /** The orphans are the processes that name a parent which was created later. */
  ghost predicate OrphansMarked(byPID: Nodes, t: Table)
    reads byPID.Values`isOrphan
  {
    forall pid :: pid in byPID && pid in t ==>
      (byPID[pid].isOrphan <==> HasParent(t, t[pid]) && ParentIsLater(t, t[pid]))
  }

  ghost predicate Unnumbered(byPID: Nodes)
    reads byPID.Values`depth
  {
    forall pid :: pid in byPID ==> byPID[pid].depth == 0
  }

  /** A process with a depth carries it; one on or below a cycle keeps the initial zero. */
  ghost predicate Numbered(byPID: Nodes, t: Table)
    reads byPID.Values`depth
  {
    && (forall pid, d: nat :: pid in byPID && DepthIs(KeptLinks(t), pid, d) ==> byPID[pid].depth == d)
    && (forall pid :: pid in byPID && !(exists d: nat :: DepthIs(KeptLinks(t), pid, d)) ==> byPID[pid].depth == 0)
  }

  // ---- indexing, linking, sorting ----

  method Index(procs: seq<ProcessInfo>) returns (byPID: Nodes)
    ensures Indexes(byPID, TableOf(procs))
    ensures Unnumbered(byPID)
    ensures forall pid :: pid in byPID ==> fresh(byPID[pid]) && byPID[pid].children == [] && !byPID[pid].isOrphan
  {
    byPID := map[];
    for i := 0 to |procs|
      invariant Indexes(byPID, TableOf(procs[..i]))
      invariant forall pid :: pid in byPID ==>
                  fresh(byPID[pid]) && byPID[pid].children == [] && byPID[pid].depth == 0 && !byPID[pid].isOrphan
    {
      assert Front(procs[..i+1]) == procs[..i] && Last(procs[..i+1]) == procs[i];
      var n := new ProcessNode(procs[i]);
      byPID := byPID[procs[i].pid := n];
    }
    assert procs[..|procs|] == procs;
  }

  lemma OneMore(nodes: seq<ProcessNode>, byPID: Nodes, which: set<PID>, pid: PID)
    requires Lists(nodes, byPID, which)
    requires pid in byPID && byPID[pid].process.pid == pid && pid !in which
    ensures Lists(nodes + [byPID[pid]], byPID, which + {pid})
  {
  }

  /** Which nodes a child list holds once the PIDs outside todo are linked. */
  lemma LinkedSoFar(links: Links, todo: set<PID>, pid: PID, p: PID)
    requires pid in todo
    ensures ChildSet(links, p) - (todo - {pid})
         == if pid in links && links[pid] == p then ChildSet(links, p) - todo + {pid} else ChildSet(links, p) - todo
  {
  }

  /** The PIDs outside todo are linked: under their kept parent, or among the roots. */
  ghost predicate LinkedExcept(byPID: Nodes, t: Table, roots: seq<ProcessNode>, todo: set<PID>)
    reads byPID.Values
  {
    && Lists(roots, byPID, t.Keys - KeptLinks(t).Keys - todo)
    && (forall pid :: pid in byPID ==> Lists(byPID[pid].children, byPID, ChildSet(KeptLinks(t), pid) - todo))
    && (forall pid :: pid in byPID && pid in t ==>
          (byPID[pid].isOrphan <==> pid !in todo && HasParent(t, t[pid]) && ParentIsLater(t, t[pid])))
  }

  method LinkOne(byPID: Nodes, ghost t: Table, pid: PID, roots: seq<ProcessNode>, ghost todo: set<PID>)
    returns (roots': seq<ProcessNode>)
    requires Indexes(byPID, t) && pid in todo && pid in t && LinkedExcept(byPID, t, roots, todo)
    modifies byPID.Values`children, byPID.Values`isOrphan
    ensures LinkedExcept(byPID, t, roots', todo - {pid})
  {
    hide Lists;
    ghost var links, rest := KeptLinks(t), t.Keys - KeptLinks(t).Keys;
    var n := byPID[pid];
    roots' := roots;
    if n.process.parent !in byPID || n.process.parent == 0 {
      OneMore(roots, byPID, rest - todo, pid);
      roots' := roots + [n];
    } else {
      var parent := byPID[n.process.parent];
      if parent.process.createTime > n.process.createTime && parent.process.createTime > 0 && n.process.createTime > 0 {
        OneMore(roots, byPID, rest - todo, pid);
        n.isOrphan := true;
        roots' := roots + [n];
      } else {
        OneMore(parent.children, byPID, ChildSet(links, n.process.parent) - todo, pid);
        parent.children := parent.children + [n];
      }
    }
    assert rest - (todo - {pid}) == if pid in links then rest - todo else rest - todo + {pid};
    forall p | p in byPID ensures Lists(byPID[p].children, byPID, ChildSet(links, p) - (todo - {pid})) {
      LinkedSoFar(links, todo, pid, p);
    }
  }

  /** Hangs every node under its kept parent, in no particular order. */
  method Link(byPID: Nodes, ghost t: Table) returns (roots: seq<ProcessNode>)
    requires Indexes(byPID, t)
    requires forall pid :: pid in byPID ==> byPID[pid].children == [] && !byPID[pid].isOrphan
    modifies byPID.Values`children, byPID.Values`isOrphan
    ensures Linked(byPID, t) && OrphansMarked(byPID, t) && Lists(roots, byPID, t.Keys - KeptLinks(t).Keys)
  {
    roots := [];
    var todo := byPID.Keys;
    while todo != {}
      invariant todo <= t.Keys && LinkedExcept(byPID, t, roots, todo)
    {
      var pid :| pid in todo;
      roots := LinkOne(byPID, t, pid, roots, todo);
      todo := todo - {pid};
    }
    AllLinked(byPID, t, roots);
  }

  lemma AllLinked(byPID: Nodes, t: Table, roots: seq<ProcessNode>)
    requires Indexes(byPID, t) && LinkedExcept(byPID, t, roots, {})
    ensures Linked(byPID, t) && OrphansMarked(byPID, t) && Lists(roots, byPID, t.Keys - KeptLinks(t).Keys)
  {
    hide Lists;
    assert t.Keys - KeptLinks(t).Keys - {} == t.Keys - KeptLinks(t).Keys;
    assert forall pid :: ChildSet(KeptLinks(t), pid) - {} == ChildSet(KeptLinks(t), pid);
  }

  lemma MiddleOut<T>(s: seq<T>, i: nat, x: T)
    requires i <= |s|
    ensures multiset(s[..i] + [x] + s[i..]) == multiset(s) + multiset{x}
  {
    assert s == s[..i] + s[i..];
  }

  /** Insertion into a list already in descending order of CPU. */
  method Insert(sorted: seq<ProcessNode>, n: ProcessNode) returns (r: seq<ProcessNode>)
    requires ByCpuDescending(sorted)
    ensures ByCpuDescending(r) && multiset(r) == multiset(sorted) + multiset{n}
  {
    var i := |sorted|;
    while i > 0 && sorted[i-1].process.cpu < n.process.cpu
      invariant 0 <= i <= |sorted|
      invariant forall k :: i <= k < |sorted| ==> sorted[k].process.cpu < n.process.cpu
    {
      i := i - 1;
    }
    MiddleOut(sorted, i, n);
    r := sorted[..i] + [n] + sorted[i..];
  }

  method SortByCpu(nodes: seq<ProcessNode>) returns (r: seq<ProcessNode>)
    ensures ByCpuDescending(r) && multiset(r) == multiset(nodes)
  {
    r := [];
    for i := 0 to |nodes|
      invariant ByCpuDescending(r) && multiset(r) == multiset(nodes[..i])
    {
      assert nodes[..i+1] == nodes[..i] + [nodes[i]];
      r := Insert(r, nodes[i]);
    }
    assert nodes[..|nodes|] == nodes;
  }

  /** A reordering lists the same nodes. */
  lemma SortedLists(nodes: seq<ProcessNode>, sorted: seq<ProcessNode>, byPID: Nodes, which: set<PID>)
    requires Lists(nodes, byPID, which) && multiset(sorted) == multiset(nodes)
    ensures Lists(sorted, byPID, which)
  {
    forall n ensures n in sorted <==> n in nodes {
      assert n in sorted <==> n in multiset(sorted);
      assert n in nodes <==> n in multiset(nodes);
    }
    NoDuplicatesMultiset(nodes);
    MultisetNoDuplicates(sorted);
  }

  lemma {:induction false} NoDuplicatesMultiset<T>(s: seq<T>)
    requires NoDuplicates(s)
    ensures forall x :: multiset(s)[x] <= 1
  {
    if s != [] {
      NoDuplicatesMultiset(Front(s));
      assert s == Front(s) + [Last(s)];
      forall x ensures multiset(s)[x] <= 1 {
        assert Last(s) !in Front(s);
      }
    }
  }

  lemma MultisetNoDuplicates<T>(s: seq<T>)
    requires forall x :: multiset(s)[x] <= 1
    ensures NoDuplicates(s)
  {
    forall i, j | 0 <= i < j < |s| ensures s[i] != s[j] {
      CountedTwice(s, i, j);
    }
  }

  lemma CountedTwice<T>(s: seq<T>, i: nat, j: nat)
    requires i < j < |s|
    ensures s[i] == s[j] ==> multiset(s)[s[i]] >= 2
  {
    assert s == s[..j] + [s[j]] + s[j+1..];
    assert s[..j][i] == s[i];
  }

  method SortChildren(byPID: Nodes, ghost t: Table)
    requires Linked(byPID, t)
    modifies byPID.Values`children
    ensures Linked(byPID, t) && ChildrenSorted(byPID)
  {
    hide Lists, KeptLinks, ByCpuDescending;
    var todo := byPID.Keys;
    while todo != {}
      invariant todo <= t.Keys && Linked(byPID, t)
      invariant forall pid :: pid in byPID && pid !in todo ==> ByCpuDescending(byPID[pid].children)
    {
      var pid :| pid in todo;
      var n := byPID[pid];
      var sorted := SortByCpu(n.children);
      SortedLists(n.children, sorted, byPID, ChildSet(KeptLinks(t), pid));
      n.children := sorted;
      todo := todo - {pid};
    }
  }

  // ---- the shape of the finished forest ----

  /** For each process, its children in the order they are shown. */
  type Kids = map<PID, seq<PID>>

  ghost predicate KidsMatch(kids: Kids, links: Links) {
    && (forall pid :: pid in kids ==>
          NoDuplicates(kids[pid]) && forall q :: q in kids[pid] <==> q in links && links[q] == pid)
    && (forall q :: q in links ==> q in kids && links[q] in kids)
  }

  /** The forest below the given nodes, all of depth d, in the order it is walked. */
  ghost function Preorder(links: Links, kids: Kids, nodes: seq<PID>, d: nat): seq<PID>
    requires KidsMatch(kids, links)
    requires forall c :: c in nodes ==> c in kids && DepthIs(links, c, d)
    decreases |kids| - d, |nodes|
  {
    if nodes == [] then [] else
      DepthBounded(links, nodes[0], d, kids.Keys);
      [nodes[0]] + Preorder(links, kids, kids[nodes[0]], d + 1) + Preorder(links, kids, nodes[1..], d)
  }

  /** A walk shows each process under its starting nodes, and no other, exactly once. */
  lemma {:induction false} PreorderExact(links: Links, kids: Kids, nodes: seq<PID>, d: nat)
    requires KidsMatch(kids, links) && NoDuplicates(nodes)
    requires forall c :: c in nodes ==> c in kids && DepthIs(links, c, d)
    ensures NoDuplicates(Preorder(links, kids, nodes, d))
    ensures forall q :: q in Preorder(links, kids, nodes, d) <==> exists c :: c in nodes && Under(links, q, c)
    decreases |kids| - d, |nodes|
  {
    if nodes != [] {
      hide Under, DepthIs, NoDuplicates;
      var n := nodes[0];
      DepthBounded(links, n, d, kids.Keys);
      ChildrenDepth(links, kids, n, d);
      FirstAndRest(nodes);
      var below, rest := Preorder(links, kids, kids[n], d + 1), Preorder(links, kids, nodes[1..], d);
      PreorderExact(links, kids, kids[n], d + 1);
      PreorderExact(links, kids, nodes[1..], d);
      forall q ensures q == n || q in below <==> Under(links, q, n) {
        UnderThroughChild(links, q, n);
      }
      assert n !in below by {
        if n in below {
          var c :| c in kids[n] && Under(links, n, c);
          NotUnderChild(links, n, c, d);
        }
      }
      forall q | q in rest ensures q != n && q !in below {
        var c :| c in nodes[1..] && Under(links, q, c);
        if Under(links, q, n) {
          SameDepthDisjoint(links, q, n, c, d);
        }
      }
      Singleton(n);
      NoDuplicatesConcat([n], below);
      NoDuplicatesConcat([n] + below, rest);
    }
  }

  lemma Singleton<T>(x: T)
    ensures NoDuplicates([x])
  {
  }

  lemma FirstAndRest<T>(s: seq<T>)
    requires s != [] && NoDuplicates(s)
    ensures NoDuplicates(s[1..]) && s[0] !in s[1..]
    ensures forall x :: x in s <==> x == s[0] || x in s[1..]
  {
    assert s == [s[0]] + s[1..];
  }

  lemma ChildrenDepth(links: Links, kids: Kids, n: PID, d: nat)
    requires KidsMatch(kids, links) && n in kids && DepthIs(links, n, d)
    ensures forall c :: c in kids[n] ==> c in kids && DepthIs(links, c, d + 1)
  {
  }

  lemma NotUnderChild(links: Links, n: PID, c: PID, d: nat)
    requires DepthIs(links, n, d) && c in links && links[c] == n
    ensures !Under(links, n, c)
  {
    if Under(links, n, c) {
      var k: nat :| Ancestor(links, n, k) == Some(c);
      AncestorAdds(links, n, k, d + 1);
      assert DepthIs(links, c, d + 1);
      DepthUnique(links, n, d, k + d + 1);
    }
  }

  /** Whatever hangs under a root has a depth, and conversely. */
  lemma UnderRootIffDepth(t: Table, q: PID)
    requires q in t
    ensures (exists r :: r in t && r !in KeptLinks(t) && Under(KeptLinks(t), q, r)) <==>
            exists d: nat :: DepthIs(KeptLinks(t), q, d)
  {
    var links := KeptLinks(t);
    if d: nat :| DepthIs(links, q, d) {
      var r := Ancestor(links, q, d).value;
      AncestorInTable(t, q, d);
      assert Under(links, q, r);
    }
    if r :| r in t && r !in links && Under(links, q, r) {
      var k: nat :| Ancestor(links, q, k) == Some(r);
      assert DepthIs(links, q, k);
    }
  }

  lemma {:induction false} AncestorInTable(t: Table, q: PID, d: nat)
    requires q in t && Ancestor(KeptLinks(t), q, d).Some?
    ensures Ancestor(KeptLinks(t), q, d).value in t
    decreases d
  {
    if d > 0 {
      AncestorInTable(t, KeptLinks(t)[q], d - 1);
    }
  }

  // ---- numbering ----

  /** The listed processes that are root or lie below it. */
  ghost function Subtree(links: Links, byPID: Nodes, root: PID): (s: set<PID>)
    ensures s <= byPID.Keys
  {
    set q | q in byPID && Under(links, q, root)
  }

  ghost function Subtrees(links: Links, byPID: Nodes, nodes: seq<ProcessNode>): set<PID> {
    if nodes == [] then {} else Subtrees(links, byPID, Front(nodes)) + Subtree(links, byPID, Last(nodes).process.pid)
  }

  lemma {:induction false} SubtreesAre(links: Links, byPID: Nodes, nodes: seq<ProcessNode>)
    ensures forall q :: q in Subtrees(links, byPID, nodes) <==>
              q in byPID && exists n :: n in nodes && Under(links, q, n.process.pid)
  {
    hide Under;
    if nodes != [] {
      SubtreesAre(links, byPID, Front(nodes));
      assert nodes == Front(nodes) + [Last(nodes)];
    }
  }

  lemma ChildrenUnder(byPID: Nodes, t: Table, n: ProcessNode)
    requires Linked(byPID, t) && n in byPID.Values
    ensures Subtree(KeptLinks(t), byPID, n.process.pid)
         == {n.process.pid} + Subtrees(KeptLinks(t), byPID, n.children)
  {
    hide Under, KeptLinks;
    var links, pid := KeptLinks(t), n.process.pid;
    SubtreesAre(links, byPID, n.children);
    forall q | q in byPID
      ensures Under(links, q, pid) <==> q == pid || q in Subtrees(links, byPID, n.children)
    {
      UnderThroughChild(links, q, pid);
      if c :| c in links && links[c] == pid && Under(links, q, c) {
        assert c in ChildSet(links, pid);
      }
      if c :| c in n.children && Under(links, q, c.process.pid) {
        assert c.process.pid in ChildSet(links, pid);
      }
    }
  }

  /**
    Numbers the tree under n from d down. It ends because a node with a depth cannot reach a cycle, and
    a depth is always less than the number of processes.
  */
  method AssignDepth(n: ProcessNode, d: nat, ghost byPID: Nodes, ghost t: Table)
    requires Linked(byPID, t) && n in byPID.Values && DepthIs(KeptLinks(t), n.process.pid, d)
    modifies byPID.Values`depth
    ensures forall q :: q in Subtree(KeptLinks(t), byPID, n.process.pid) ==> DepthIs(KeptLinks(t), q, byPID[q].depth)
    ensures forall q :: q in byPID && q !in Subtree(KeptLinks(t), byPID, n.process.pid) ==>
              byPID[q].depth == old(byPID[q].depth)
    decreases |byPID| - d
  {
    hide Under, DepthIs, KeptLinks, Subtree, Linked, Lists;
    ghost var links, pid := KeptLinks(t), n.process.pid;
    NodeFacts(byPID, t, n, d);
    ChildrenUnder(byPID, t, n);
    n.depth := d;
    var children := n.children;
    ghost var done: set<PID> := {pid};
    for i := 0 to |children|
      invariant done <= byPID.Keys
      invariant done == {pid} + Subtrees(links, byPID, children[..i])
      invariant forall q :: q in done ==> DepthIs(links, q, byPID[q].depth)
      invariant forall q :: q in byPID && q !in done ==> byPID[q].depth == old(byPID[q].depth)
    {
      var c := children[i];
      assert Front(children[..i+1]) == children[..i] && Last(children[..i+1]) == c;
      assert c in children;
      AssignDepth(c, d + 1, byPID, t);
      done := done + Subtree(links, byPID, c.process.pid);
    }
    assert children[..|children|] == children;
  }

  lemma NodeFacts(byPID: Nodes, t: Table, n: ProcessNode, d: nat)
    requires Linked(byPID, t) && n in byPID.Values && DepthIs(KeptLinks(t), n.process.pid, d)
    ensures d < |byPID| && n.process.pid in byPID && byPID[n.process.pid] == n
    ensures forall c :: c in n.children ==> c in byPID.Values && DepthIs(KeptLinks(t), c.process.pid, d + 1)
    ensures forall q :: q in byPID ==> byPID[q].process.pid == q
  {
    hide DepthIs;
    LinksStayInTable(t);
    DepthBounded(KeptLinks(t), n.process.pid, d, byPID.Keys);
    forall c | c in n.children ensures c in byPID.Values && DepthIs(KeptLinks(t), c.process.pid, d + 1) {
      assert c.process.pid in ChildSet(KeptLinks(t), n.process.pid);
      DepthChild(KeptLinks(t), c.process.pid, d);
    }
  }

  lemma LinksStayInTable(t: Table)
    ensures forall q :: q in KeptLinks(t) ==> q in t && KeptLinks(t)[q] in t
  {
  }

  function Pids(nodes: seq<ProcessNode>): (r: seq<PID>)
    ensures |r| == |nodes|
  {
    seq(|nodes|, i requires 0 <= i < |nodes| => nodes[i].process.pid)
  }

  ghost function KidsOf(byPID: Nodes): Kids
    reads byPID.Values
  {
    map pid | pid in byPID :: Pids(byPID[pid].children)
  }

  lemma PidsOfList(nodes: seq<ProcessNode>, byPID: Nodes, which: set<PID>)
    requires Lists(nodes, byPID, which) && forall pid :: pid in byPID ==> byPID[pid].process.pid == pid
    ensures NoDuplicates(Pids(nodes)) && forall q :: q in Pids(nodes) <==> q in which
  {
    forall q | q in which ensures q in Pids(nodes) {
      var i :| 0 <= i < |nodes| && nodes[i] == byPID[q];
      assert Pids(nodes)[i] == q;
    }
    forall i, j | 0 <= i < j < |nodes| ensures Pids(nodes)[i] != Pids(nodes)[j] {
      assert nodes[i] in nodes && nodes[j] in nodes;
    }
  }

  lemma KidsAreLinked(byPID: Nodes, t: Table)
    requires Linked(byPID, t)
    ensures KidsMatch(KidsOf(byPID), KeptLinks(t)) && KidsOf(byPID).Keys == t.Keys
  {
    var links, kids := KeptLinks(t), KidsOf(byPID);
    LinksStayInTable(t);
    forall pid | pid in kids
      ensures NoDuplicates(kids[pid]) && forall q :: q in kids[pid] <==> q in links && links[q] == pid
    {
      PidsOfList(byPID[pid].children, byPID, ChildSet(links, pid));
    }
  }

  /** What the builder promises about the nodes and roots it leaves behind. */
  ghost predicate IsForest(byPID: Nodes, roots: seq<ProcessNode>, t: Table)
    reads byPID.Values
  {
    && Linked(byPID, t) && ChildrenSorted(byPID)
    && Lists(roots, byPID, t.Keys - KeptLinks(t).Keys) && ByCpuDescending(roots)
    && OrphansMarked(byPID, t)
    && Numbered(byPID, t)
  }

  /** The child pointers and the roots, read as ids, are those the kept links call for. */
  lemma ForestShape(byPID: Nodes, roots: seq<ProcessNode>, t: Table)
    requires IsForest(byPID, roots, t)
    ensures KidsMatch(KidsOf(byPID), KeptLinks(t))
    ensures forall c :: c in Pids(roots) ==> c in KidsOf(byPID) && DepthIs(KeptLinks(t), c, 0)
    ensures NoDuplicates(Pids(roots)) && forall c :: c in Pids(roots) <==> c in t && c !in KeptLinks(t)
  {
    KidsAreLinked(byPID, t);
    PidsOfList(roots, byPID, t.Keys - KeptLinks(t).Keys);
    hide Linked, Lists, KidsOf, KeptLinks, ByCpuDescending, Numbered;
  }

  /** A walk of the finished forest from its roots. */
  ghost function Shown(byPID: Nodes, roots: seq<ProcessNode>, t: Table): (shown: seq<PID>)
    requires IsForest(byPID, roots, t)
    reads byPID.Values
  {
    ForestShape(byPID, roots, t);
    Preorder(KeptLinks(t), KidsOf(byPID), Pids(roots), 0)
  }

  /** The forest shows exactly the processes whose chain of kept parent links ends at a root, each once. */
  lemma ForestShowsExactly(byPID: Nodes, roots: seq<ProcessNode>, t: Table)
    requires IsForest(byPID, roots, t)
    ensures NoDuplicates(Shown(byPID, roots, t))
    ensures forall q :: q in t ==> (q in Shown(byPID, roots, t) <==> exists d: nat :: DepthIs(KeptLinks(t), q, d))
  {
    ForestShape(byPID, roots, t);
    hide IsForest, KidsMatch, KidsOf, KeptLinks, DepthIs, NoDuplicates, Preorder, Pids;
    WalkFromRoots(t, KidsOf(byPID), Pids(roots));
  }

  lemma WalkFromRoots(t: Table, kids: Kids, roots: seq<PID>)
    requires KidsMatch(kids, KeptLinks(t)) && NoDuplicates(roots)
    requires forall c :: c in roots <==> c in t && c !in KeptLinks(t)
    requires forall c :: c in roots ==> c in kids && DepthIs(KeptLinks(t), c, 0)
    ensures NoDuplicates(Preorder(KeptLinks(t), kids, roots, 0))
    ensures forall q :: q in t ==>
              (q in Preorder(KeptLinks(t), kids, roots, 0) <==> exists d: nat :: DepthIs(KeptLinks(t), q, d))
  {
    hide KidsMatch, KeptLinks, Under, DepthIs, NoDuplicates, Preorder;
    PreorderExact(KeptLinks(t), kids, roots, 0);
    forall q | q in t
      ensures (exists c :: c in roots && Under(KeptLinks(t), q, c)) <==> exists d: nat :: DepthIs(KeptLinks(t), q, d)
    {
      UnderRootIffDepth(t, q);
    }
  }

  /** A process is in no tree exactly when it is on or below a cycle of kept parent links. */
  lemma ForestOmitsCycles(byPID: Nodes, roots: seq<ProcessNode>, t: Table, q: PID)
    requires IsForest(byPID, roots, t) && q in t
    ensures q in Shown(byPID, roots, t) <==> !LeadsToCycle(KeptLinks(t), q)
  {
    hide IsForest, LeadsToCycle, KeptLinks, DepthIs, Shown;
    ForestShowsExactly(byPID, roots, t);
    DepthIffNoCycle(KeptLinks(t), q);
  }

  /** A process listed as its own parent is in no tree, and neither is anything below it; PID 0 alone is a root then. */
  lemma SelfParentInNoTree(byPID: Nodes, roots: seq<ProcessNode>, t: Table, pid: PID, q: PID)
    requires IsForest(byPID, roots, t) && pid in t && t[pid].parent == pid && t[pid].pid == pid
    ensures pid != 0 && q in t && Under(KeptLinks(t), q, pid) ==> q !in Shown(byPID, roots, t)
    ensures pid == 0 ==> pid in Shown(byPID, roots, t)
  {
    hide IsForest, Shown;
    var links := KeptLinks(t);
    if pid == 0 {
      assert DepthIs(links, 0, 0);
      ForestShowsExactly(byPID, roots, t);
    } else if q in t && Under(links, q, pid) {
      assert links[pid] == pid && Ancestor(links, pid, 1) == Some(pid);
      assert OnCycle(links, pid);
      ForestOmitsCycles(byPID, roots, t, q);
    }
  }

  /** The documented notion of an orphan: the parent does not exist, or was created later. */
  predicate ParentGone(t: Table, p: ProcessInfo) {
    p.parent !in t
    || (t[p.parent].createTime > p.createTime && t[p.parent].createTime > 0 && p.createTime > 0)
  }

  /**
    Every such process is a root, as documented. It is marked an orphan exactly when the parent is listed
    and is not process 0, so a process whose parent does not exist is an unmarked root.
  */
  lemma OrphansAsDocumented(byPID: Nodes, roots: seq<ProcessNode>, t: Table, pid: PID)
    requires IsForest(byPID, roots, t) && pid in t && ParentGone(t, t[pid])
    ensures pid in byPID && byPID[pid] in roots
    ensures byPID[pid].isOrphan <==> t[pid].parent in t && t[pid].parent != 0
  {
    hide ChildrenSorted, Numbered, ByCpuDescending;
  }

  /** What a process is listed as: its last entry in the list. */
  lemma {:induction false} TableIsLast(procs: seq<ProcessInfo>, i: nat)
    requires i < |procs| && forall j :: i < j < |procs| ==> procs[j].pid != procs[i].pid
    ensures procs[i].pid in TableOf(procs) && TableOf(procs)[procs[i].pid] == procs[i]
  {
    if i < |procs| - 1 {
      assert Front(procs)[i] == procs[i];
      TableIsLast(Front(procs), i);
    }
  }

  /**
    A process whose parent is listed and is not process 0 hangs under that parent and is no root, unless the
    parent was created later with both creation times known: then it is a root, marked an orphan.
  */
  lemma ListedParentKeepsChild(byPID: Nodes, roots: seq<ProcessNode>, t: Table, q: PID)
    requires IsForest(byPID, roots, t) && q in t && t[q].parent in t && t[q].parent != 0
    ensures q in byPID && t[q].parent in byPID
    ensures var p, parent := t[q], t[t[q].parent];
            var later := parent.createTime > p.createTime && parent.createTime > 0 && p.createTime > 0;
            && (byPID[q] in byPID[t[q].parent].children <==> !later)
            && (byPID[q] in roots <==> later)
            && (byPID[q].isOrphan <==> later)
  {
    hide ChildrenSorted, Numbered, ByCpuDescending;
    assert q in ChildSet(KeptLinks(t), t[q].parent) <==> q in KeptLinks(t);
  }

  /** A process without a listed parent, or with process 0 for one, is a root and no orphan. */
  lemma NoParentIsRoot(byPID: Nodes, roots: seq<ProcessNode>, t: Table, q: PID)
    requires IsForest(byPID, roots, t) && q in t && (t[q].parent !in t || t[q].parent == 0)
    ensures q in byPID && byPID[q] in roots && !byPID[q].isOrphan
    ensures forall pid :: pid in byPID ==> byPID[q] !in byPID[pid].children
  {
    hide ChildrenSorted, Numbered, ByCpuDescending;
    assert q !in KeptLinks(t);
    assert forall pid :: q !in ChildSet(KeptLinks(t), pid);
  }

  /** Everything the forest shows below a process is also found by following the raw parent links. */
  lemma ShownUnderIsDescendant(t: Table, raw: Links, q: PID, root: PID)
    requires forall pid :: pid in t ==> pid in raw && raw[pid] == t[pid].parent
    requires Under(KeptLinks(t), q, root) && q != root
    ensures Below(raw, q, root)
  {
    var k: nat :| Ancestor(KeptLinks(t), q, k) == Some(root);
    FewerLinks(KeptLinks(t), raw, q, k);
  }

  /** The last loop: number the tree of every root. */
  method AssignDepths(roots: seq<ProcessNode>, ghost byPID: Nodes, ghost t: Table)
    requires Linked(byPID, t) && Lists(roots, byPID, t.Keys - KeptLinks(t).Keys)
    requires Unnumbered(byPID)
    modifies byPID.Values`depth
    ensures Numbered(byPID, t)
  {
    hide Under, Subtree, Linked, Lists, DepthIs, KeptLinks, Indexes;
    ghost var links := KeptLinks(t);
    RootFacts(byPID, t, roots);
    ghost var done: set<PID> := {};
    for i := 0 to |roots|
      invariant done == Subtrees(links, byPID, roots[..i]) && done <= byPID.Keys
      invariant forall q :: q in done ==> DepthIs(links, q, byPID[q].depth)
      invariant forall q :: q in byPID && q !in done ==> byPID[q].depth == 0
    {
      assert Front(roots[..i+1]) == roots[..i] && Last(roots[..i+1]) == roots[i];
      assert roots[i] in roots;
      AssignDepth(roots[i], 0, byPID, t);
      done := done + Subtree(links, byPID, roots[i].process.pid);
    }
    assert roots[..|roots|] == roots;
    SubtreesAre(links, byPID, roots);
    forall q | q in byPID ensures q in done <==> exists d: nat :: DepthIs(links, q, d) {
      RootsCover(byPID, t, roots, q);
    }
    forall pid, d: nat | pid in byPID && DepthIs(links, pid, d) ensures byPID[pid].depth == d {
      DepthUnique(links, pid, d, byPID[pid].depth);
    }
  }

  lemma RootFacts(byPID: Nodes, t: Table, roots: seq<ProcessNode>)
    requires Linked(byPID, t) && Lists(roots, byPID, t.Keys - KeptLinks(t).Keys)
    ensures Indexes(byPID, t) && byPID.Keys == t.Keys
    ensures forall n :: n in roots ==> n in byPID.Values && DepthIs(KeptLinks(t), n.process.pid, 0)
  {
    forall n | n in roots ensures n in byPID.Values && DepthIs(KeptLinks(t), n.process.pid, 0) {
      assert n.process.pid in t.Keys - KeptLinks(t).Keys;
    }
  }

  lemma RootsCover(byPID: Nodes, t: Table, roots: seq<ProcessNode>, q: PID)
    requires Indexes(byPID, t) && Lists(roots, byPID, t.Keys - KeptLinks(t).Keys) && q in t
    ensures (exists n :: n in roots && Under(KeptLinks(t), q, n.process.pid)) <==>
            exists d: nat :: DepthIs(KeptLinks(t), q, d)
  {
    hide Under, DepthIs;
    var links := KeptLinks(t);
    UnderRootIffDepth(t, q);
    if r :| r in t && r !in links && Under(links, q, r) {
      assert r in t.Keys - links.Keys;
      assert byPID[r] in roots;
    }
    if n :| n in roots && Under(links, q, n.process.pid) {
      assert n.process.pid in t.Keys - links.Keys;
    }
  }

  method SortRoots(roots: seq<ProcessNode>, ghost byPID: Nodes, ghost t: Table) returns (sorted: seq<ProcessNode>)
    requires Lists(roots, byPID, t.Keys - KeptLinks(t).Keys)
    ensures Lists(sorted, byPID, t.Keys - KeptLinks(t).Keys) && ByCpuDescending(sorted)
  {
    sorted := SortByCpu(roots);
    SortedLists(roots, sorted, byPID, t.Keys - KeptLinks(t).Keys);
  }

  method BuildProcessTree(procs: seq<ProcessInfo>) returns (roots: seq<ProcessNode>, ghost byPID: Nodes)
    ensures forall pid :: pid in byPID ==> fresh(byPID[pid])
    ensures IsForest(byPID, roots, TableOf(procs))
  {
    hide Lists, ByCpuDescending, KeptLinks, Linked, ChildrenSorted, OrphansMarked, Unnumbered, Numbered, Indexes,
        TableOf;
    ghost var t := TableOf(procs);
    var nodes := Index(procs);
    byPID := nodes;
    roots := Link(nodes, t);
    assert Unnumbered(nodes);
    SortChildren(nodes, t);
    assert Unnumbered(nodes) && OrphansMarked(nodes, t);
    roots := SortRoots(roots, nodes, t);
    AssignDepths(roots, nodes, t);
  }
}
