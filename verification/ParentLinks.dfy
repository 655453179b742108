/** Parent links between processes: arbitrary, so possibly dangling or cyclic. */
module ParentLinks {
  import opened Processes
  import opened Seqs

  /** Each key points at its parent. A process with no entry has no parent to follow. */
  type Links = map<PID, PID>

  /** The k-th ancestor of pid, when the chain of links is that long. */
  function Ancestor(links: Links, pid: PID, k: nat): Option<PID>
    decreases k
  {
    if k == 0 then Some(pid)
    else if pid in links then Ancestor(links, links[pid], k - 1)
    else None
  }

  ghost predicate OnCycle(links: Links, pid: PID) {
    exists k: nat :: k > 0 && Ancestor(links, pid, k) == Some(pid)
  }

  /** pid lies strictly below root. */
  ghost predicate Below(links: Links, pid: PID, root: PID) {
    exists k: nat :: k > 0 && Ancestor(links, pid, k) == Some(root)
  }

  /** The chain of links from pid has exactly d links and ends at a process that has no parent. */
  ghost predicate DepthIs(links: Links, pid: PID, d: nat) {
    Ancestor(links, pid, d).Some? && Ancestor(links, pid, d).value !in links
  }

  lemma {:induction false} AncestorAdds(links: Links, pid: PID, j: nat, k: nat)
    requires Ancestor(links, pid, j).Some?
    ensures Ancestor(links, pid, j + k) == Ancestor(links, Ancestor(links, pid, j).value, k)
    decreases j
  {
    if j > 0 {
      AncestorAdds(links, links[pid], j - 1, k);
    }
  }

  lemma {:induction false} ChainPrefix(links: Links, pid: PID, j: nat, k: nat)
    requires j <= k && Ancestor(links, pid, k).Some?
    ensures Ancestor(links, pid, j).Some?
    decreases j
  {
    if j > 0 {
      ChainPrefix(links, links[pid], j - 1, k - 1);
    }
  }

  /** A process just below one that is on a cycle, and itself on that cycle, always exists. */
  lemma CyclePredecessor(links: Links, pid: PID) returns (child: PID)
    requires OnCycle(links, pid)
    ensures child in links && links[child] == pid && OnCycle(links, child)
  {
    var k: nat :| k > 0 && Ancestor(links, pid, k) == Some(pid);
    ChainPrefix(links, pid, k - 1, k);
    child := Ancestor(links, pid, k - 1).value;
    AncestorAdds(links, pid, k - 1, 1);
    assert Ancestor(links, child, 1) == Some(pid);
    AncestorAdds(links, child, 1, k - 1);
    assert Ancestor(links, child, k) == Some(child);
  }

  lemma BelowStep(links: Links, pid: PID, root: PID)
    requires pid in links
    ensures Below(links, pid, root) <==> links[pid] == root || Below(links, links[pid], root)
  {
    if Below(links, pid, root) {
      var k: nat :| k > 0 && Ancestor(links, pid, k) == Some(root);
      if k > 1 {
        assert Ancestor(links, links[pid], k - 1) == Some(root);
      }
    }
    if links[pid] == root {
      assert Ancestor(links, pid, 1) == Some(root);
    } else if Below(links, links[pid], root) {
      var k: nat :| k > 0 && Ancestor(links, links[pid], k) == Some(root);
      assert Ancestor(links, pid, k + 1) == Some(root);
    }
  }

  /** A depth is unique, and a process with a depth is neither on nor below a cycle. */
  lemma {:induction false} DepthUnique(links: Links, pid: PID, c: nat, d: nat)
    requires DepthIs(links, pid, c) && DepthIs(links, pid, d)
    ensures c == d
    decreases c
  {
    if c > 0 && d > 0 {
      DepthUnique(links, links[pid], c - 1, d - 1);
    }
  }

  lemma DepthNotOnCycle(links: Links, pid: PID, d: nat)
    requires DepthIs(links, pid, d)
    ensures !OnCycle(links, pid)
  {
    if OnCycle(links, pid) {
      var k: nat :| k > 0 && Ancestor(links, pid, k) == Some(pid);
      AncestorAdds(links, pid, k, d);
      assert DepthIs(links, pid, k + d);
      DepthUnique(links, pid, d, k + d);
    }
  }

  lemma DepthChild(links: Links, pid: PID, d: nat)
    requires pid in links && DepthIs(links, links[pid], d)
    ensures DepthIs(links, pid, d + 1)
  {
  }

  /** The processes on the chain of pid up to its d-th ancestor. */
  function Chain(links: Links, pid: PID, d: nat): set<PID>
    requires Ancestor(links, pid, d).Some?
    decreases d
  {
    if d == 0 then {pid} else Chain(links, links[pid], d - 1) + {pid}
  }

  lemma {:induction false} ChainMembers(links: Links, pid: PID, d: nat, q: PID)
    requires Ancestor(links, pid, d).Some? && q in Chain(links, pid, d)
    ensures exists j :: 0 <= j <= d && Ancestor(links, pid, j) == Some(q)
    decreases d
  {
    if q == pid {
      assert Ancestor(links, pid, 0) == Some(q);
    } else {
      ChainMembers(links, links[pid], d - 1, q);
      var j :| 0 <= j <= d - 1 && Ancestor(links, links[pid], j) == Some(q);
      assert Ancestor(links, pid, j + 1) == Some(q);
    }
  }

  /** A chain that ends never repeats a process, so it is shorter than any set of processes closed under links. */
  lemma {:induction false} DepthBounded(links: Links, pid: PID, d: nat, all: set<PID>)
    requires DepthIs(links, pid, d)
    requires pid in all && forall q :: q in links && q in all ==> links[q] in all
    ensures Chain(links, pid, d) <= all && |Chain(links, pid, d)| == d + 1
    ensures d < |all|
    decreases d
  {
    if d > 0 {
      DepthBounded(links, links[pid], d - 1, all);
      if pid in Chain(links, links[pid], d - 1) {
        ChainMembers(links, links[pid], d - 1, pid);
        var j :| 0 <= j <= d - 1 && Ancestor(links, links[pid], j) == Some(pid);
        assert Ancestor(links, pid, j + 1) == Some(pid);
        DepthNotOnCycle(links, pid, d);
        assert false;
      }
    }
    SubsetSize(Chain(links, pid, d), all);
  }

  /** pid is on a cycle of links or hangs below one. */
  ghost predicate LeadsToCycle(links: Links, pid: PID) {
    exists k: nat :: Ancestor(links, pid, k).Some? && OnCycle(links, Ancestor(links, pid, k).value)
  }

  /** A chain that ends never comes to a cycle. */
  lemma DepthAvoidsCycles(links: Links, pid: PID, d: nat, k: nat)
    requires DepthIs(links, pid, d) && Ancestor(links, pid, k).Some?
    ensures k <= d && !OnCycle(links, Ancestor(links, pid, k).value)
  {
    AncestorAdds(links, pid, d, 1);
    if k > d {
      ChainPrefix(links, pid, d + 1, k);
    }
    AncestorAdds(links, pid, k, d - k);
    DepthNotOnCycle(links, Ancestor(links, pid, k).value, d - k);
  }

  lemma {:induction false} EndlessChain(links: Links, pid: PID, k: nat)
    requires forall d: nat :: !DepthIs(links, pid, d)
    ensures Ancestor(links, pid, k).Some? && Ancestor(links, pid, k).value in links
  {
    if k > 0 {
      EndlessChain(links, pid, k - 1);
      AncestorAdds(links, pid, k - 1, 1);
      assert Ancestor(links, pid, k).Some?;
    }
    assert !DepthIs(links, pid, k);
  }

  /** A chain that does not end repeats an ancestor among the first |links| + 1, by the pigeonhole principle. */
  lemma EndlessMeetsCycle(links: Links, pid: PID)
    requires forall d: nat :: !DepthIs(links, pid, d)
    ensures LeadsToCycle(links, pid)
  {
    forall k: nat ensures Ancestor(links, pid, k).Some? && Ancestor(links, pid, k).value in links {
      EndlessChain(links, pid, k);
    }
    var chain := seq(|links.Keys| + 1, k requires k >= 0 => Ancestor(links, pid, k).value);
    if NoDuplicates(chain) {
      NoDuplicatesFits(chain, links.Keys);
    }
    var i, j :| 0 <= i < j < |chain| && chain[i] == chain[j];
    AncestorAdds(links, pid, i, j - i);
    assert Ancestor(links, chain[i], j - i) == Some(chain[i]);
    assert OnCycle(links, Ancestor(links, pid, i).value);
  }

  /** A process has a depth exactly when it is neither on nor below a cycle of links. */
  lemma DepthIffNoCycle(links: Links, pid: PID)
    ensures (exists d: nat :: DepthIs(links, pid, d)) <==> !LeadsToCycle(links, pid)
  {
    if d: nat :| DepthIs(links, pid, d) {
      forall k: nat | Ancestor(links, pid, k).Some? ensures !OnCycle(links, Ancestor(links, pid, k).value) {
        DepthAvoidsCycles(links, pid, d, k);
      }
    } else {
      EndlessMeetsCycle(links, pid);
    }
  }

  /** Cutting links keeps only chains that were there. */
  lemma {:induction false} FewerLinks(kept: Links, links: Links, pid: PID, k: nat)
    requires forall q :: q in kept ==> q in links && kept[q] == links[q]
    requires Ancestor(kept, pid, k).Some?
    ensures Ancestor(links, pid, k) == Ancestor(kept, pid, k)
    decreases k
  {
    if k > 0 {
      FewerLinks(kept, links, kept[pid], k - 1);
    }
  }

  /** pid is root or lies below it. */
  ghost predicate Under(links: Links, pid: PID, root: PID) {
    exists k: nat :: Ancestor(links, pid, k) == Some(root)
  }

  /** Below a process there is one of its children to go through. */
  lemma UnderThroughChild(links: Links, pid: PID, root: PID)
    ensures Under(links, pid, root) <==>
              pid == root || exists c :: c in links && links[c] == root && Under(links, pid, c)
  {
    if Under(links, pid, root) && pid != root {
      var k: nat :| Ancestor(links, pid, k) == Some(root);
      ChainPrefix(links, pid, k - 1, k);
      var c := Ancestor(links, pid, k - 1).value;
      AncestorAdds(links, pid, k - 1, 1);
      assert Ancestor(links, c, 1) == Some(root);
      assert Under(links, pid, c);
    }
    if exists c :: c in links && links[c] == root && Under(links, pid, c) {
      var c :| c in links && links[c] == root && Under(links, pid, c);
      var k: nat :| Ancestor(links, pid, k) == Some(c);
      AncestorAdds(links, pid, k, 1);
      assert Ancestor(links, pid, k + 1) == Some(root);
    }
    if pid == root {
      assert Ancestor(links, pid, 0) == Some(root);
    }
  }

  /** Two processes of the same depth have nothing under them in common. */
  lemma SameDepthDisjoint(links: Links, q: PID, a: PID, b: PID, d: nat)
    requires DepthIs(links, a, d) && DepthIs(links, b, d)
    requires Under(links, q, a) && Under(links, q, b)
    ensures a == b
  {
    var j: nat :| Ancestor(links, q, j) == Some(a);
    var k: nat :| Ancestor(links, q, k) == Some(b);
    AncestorAdds(links, q, j, d);
    AncestorAdds(links, q, k, d);
    DepthUnique(links, q, j + d, k + d);
  }
}
