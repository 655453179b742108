/** Dropping the old entries of a time list by sliding the survivors down the same array. */
module Compaction {
  import opened Seqs

  /** The entries no older than `from`, in order. */
  function Since(s: seq<int>, from: int): seq<int> {
    if s == [] then [] else Since(Front(s), from) + if Last(s) >= from then [Last(s)] else []
  }

  function CountBetween(s: seq<int>, lo: int, hi: int): nat {
    if s == [] then 0 else CountBetween(Front(s), lo, hi) + if lo <= Last(s) <= hi then 1 else 0
  }

  lemma SinceAppend(s: seq<int>, x: int, from: int)
    ensures Since(s + [x], from) == Since(s, from) + if x >= from then [x] else []
  {
    assert Front(s + [x]) == s;
  }

  /** Restricting twice is restricting to the later bound. */
  lemma {:induction false} SinceTwice(s: seq<int>, from: int, later: int)
    requires from <= later
    ensures Since(Since(s, from), later) == Since(s, later)
  {
    if s != [] {
      SinceTwice(Front(s), from, later);
      if Last(s) >= from {
        SinceAppend(Since(Front(s), from), Last(s), later);
      } else {
        assert Since(s, from) == Since(Front(s), from);
      }
    }
  }

  lemma {:induction false} SinceConcat(a: seq<int>, b: seq<int>, from: int)
    ensures Since(a + b, from) == Since(a, from) + Since(b, from)
  {
    if b == [] {
      assert a + b == a;
    } else {
      assert Front(a + b) == a + Front(b) && Last(a + b) == Last(b);
      SinceConcat(a, Front(b), from);
    }
  }

  lemma {:induction false} SinceAll(times: seq<int>, from: int)
    requires forall t :: t in times ==> t >= from
    ensures Since(times, from) == times
  {
    if times != [] {
      assert times == Front(times) + [Last(times)] && Last(times) in times;
      assert forall t :: t in Front(times) ==> t in times;
      SinceAll(Front(times), from);
    }
  }

  /** If every late entry of a stands beside a late entry of b, there are no more of them. */
  lemma {:induction false} SinceDominates(a: seq<int>, b: seq<int>, fromA: int, fromB: int)
    requires |a| == |b| && forall k :: 0 <= k < |a| && a[k] >= fromA ==> b[k] >= fromB
    ensures |Since(a, fromA)| <= |Since(b, fromB)|
  {
    if a != [] {
      SinceDominates(Front(a), Front(b), fromA, fromB);
    }
  }

  lemma {:induction false} SinceMembers(s: seq<int>, from: int)
    ensures forall x :: x in Since(s, from) <==> x in s && x >= from
    ensures |Since(s, from)| <= |s|
  {
    if s != [] {
      SinceMembers(Front(s), from);
      assert s == Front(s) + [Last(s)];
    }
  }

  /** Counting a window that reaches the end of the list is measuring what Since keeps. */
  lemma {:induction false} CountIsSince(s: seq<int>, lo: int, hi: int)
    requires forall x :: x in s ==> x <= hi
    ensures CountBetween(s, lo, hi) == |Since(s, lo)|
  {
    if s != [] {
      assert forall x :: x in Front(s) ==> x in s;
      assert Last(s) in s;
      CountIsSince(Front(s), lo, hi);
    }
  }

  lemma {:induction false} CountNarrower(s: seq<int>, lo: int, hi: int, lo': int, hi': int)
    requires lo' <= lo && hi <= hi'
    ensures CountBetween(s, lo, hi) <= CountBetween(s, lo', hi')
  {
    if s != [] {
      CountNarrower(Front(s), lo, hi, lo', hi');
    }
  }

  lemma {:induction false} SinceNone(s: seq<int>, from: int)
    requires forall x :: x in s ==> x < from
    ensures Since(s, from) == []
  {
    if s != [] {
      assert forall x :: x in Front(s) ==> x in s;
      assert Last(s) in s;
      SinceNone(Front(s), from);
    }
  }

  /**
    Filters the first n entries of an array into its own prefix; the write index never passes the read
    index, so nothing is overwritten before it is read.
  */
  method CompactInPlace(a: array<int>, from: int) returns (m: nat)
    modifies a
    ensures m <= a.Length && a[..m] == Since(old(a[..]), from)
  {
    m := 0;
    for i := 0 to a.Length
      invariant m <= i
      invariant a[..m] == Since(old(a[..])[..i], from)
      invariant a[i..] == old(a[..])[i..]
    {
      SinceAppend(old(a[..])[..i], old(a[..])[i], from);
      assert old(a[..])[..i+1] == old(a[..])[..i] + [old(a[..])[i]];
      assert a[i] == a[i..][0] == old(a[..])[i];
      if a[i] >= from {
        a[m] := a[i];
        m := m + 1;
      }
      assert a[i+1..] == old(a[..])[i+1..];
    }
    assert old(a[..])[..a.Length] == old(a[..]);
  }

  /** The slice-level operation: the same backing store, a shorter slice. */
  method Compact(times: seq<int>, from: int) returns (r: seq<int>)
    ensures r == Since(times, from)
  {
    var backing := new int[|times|](i requires 0 <= i < |times| => times[i]);
    assert backing[..] == times;
    var m := CompactInPlace(backing, from);
    r := backing[..m];
  }
}
