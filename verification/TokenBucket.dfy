/** The per-minute rate limiter: whole tokens, refilled by truncated elapsed time, and its swap on a config change. */
module RateLimit {
  import opened Seqs
  import opened Durations

  datatype Bucket = Bucket(max: nat, tokens: int, lastFill: int)

  function NewBucket(perMinute: int, now: int): (b: Bucket)
    ensures b.tokens == b.max && (perMinute >= 1 ==> b.max == perMinute) && (perMinute < 1 ==> b.max == 1)
  {
    var max := if perMinute < 1 then 1 else perMinute;
    Bucket(max, max, now)
  }

  /** What d nanoseconds earn, in units of 1/MINUTE of a token. */
  function Earned(max: nat, d: int): int {
    max * d
  }

  /** Whole tokens due after an elapsed time; the fraction is dropped. */
  function Due(b: Bucket, now: int): int {
    if now - b.lastFill <= 0 then 0 else Earned(b.max, now - b.lastFill) / MINUTE
  }

  function Refill(b: Bucket, now: int): Bucket {
    if Due(b, now) > 0 then
      Bucket(b.max, if b.tokens + Due(b, now) > b.max then b.max else b.tokens + Due(b, now), now)
    else b
  }

  function Spend(b: Bucket): Bucket {
    if b.tokens <= 0 then b else b.(tokens := b.tokens - 1)
  }

  class TokenBucket {
    var max: nat
    var tokens: int
    var lastFill: int

    ghost function View(): Bucket reads this {
      Bucket(max, tokens, lastFill)
    }

    constructor (perMinute: int, now: int)
      ensures View() == NewBucket(perMinute, now)
    {
      var limit := perMinute;
      if limit < 1 {
        limit := 1;
      }
      max, tokens, lastFill := limit, limit, now;
    }

    method DoRefill(now: int)
      modifies this
      ensures View() == Refill(old(View()), now)
    {
      var elapsed := now - lastFill;
      if elapsed <= 0 {
        return;
      }
      var add := max * elapsed / MINUTE;
      if add > 0 {
        tokens := tokens + add;
        if tokens > max {
          tokens := max;
        }
        lastFill := now;
      }
    }

    method Take(now: int) returns (ok: bool)
      modifies this
      ensures View() == Spend(Refill(old(View()), now))
      ensures ok <==> Refill(old(View()), now).tokens > 0
    {
      DoRefill(now);
      if tokens <= 0 {
        return false;
      }
      tokens := tokens - 1;
      ok := true;
    }

    method Available(now: int) returns (n: int)
      modifies this
      ensures View() == Refill(old(View()), now) && n == View().tokens
    {
      DoRefill(now);
      n := tokens;
    }
  }

  /** The advisor's hold on its limiter. */
  class Advisor {
    var limit: int
    var rl: TokenBucket

    ghost function View(): (int, Bucket) reads this, rl {
      (limit, rl.View())
    }

    constructor (limit: int, now: int)
      ensures View() == (limit, NewBucket(limit, now)) && fresh(rl)
    {
      this.limit := limit;
      rl := new TokenBucket(limit, now);
    }

    method SetConfig(newLimit: int, now: int)
      modifies this
      ensures View() == Reconfigure(old(View()), newLimit, now)
      ensures old(limit) == newLimit ==> rl == old(rl)
    {
      if limit != newLimit {
        rl := new TokenBucket(newLimit, now);
      }
      limit := newLimit;
    }
  }

  /** A config save rebuilds the bucket only when the limit changed. */
  function Reconfigure(a: (int, Bucket), newLimit: int, now: int): (int, Bucket) {
    (newLimit, if a.0 != newLimit then NewBucket(newLimit, now) else a.1)
  }

  // ---- runs ----

  datatype Op = Take(now: int) | Available(now: int) | SetConfig(now: int, newLimit: int)

  /** The limiter after an operation; ops are in lock order. */
  function Step(a: (int, Bucket), op: Op): (int, Bucket) {
    match op
    case Take(now) => (a.0, Spend(Refill(a.1, now)))
    case Available(now) => (a.0, Refill(a.1, now))
    case SetConfig(now, newLimit) => Reconfigure(a, newLimit, now)
  }

  function Granted(a: (int, Bucket), op: Op): nat {
    if op.Take? && Refill(a.1, op.now).tokens > 0 then 1 else 0
  }

  function Run(a: (int, Bucket), ops: seq<Op>): (int, Bucket) {
    if ops == [] then a else Step(Run(a, Front(ops)), Last(ops))
  }

  /** How many Takes succeeded. */
  function Grants(a: (int, Bucket), ops: seq<Op>): nat {
    if ops == [] then 0 else Grants(a, Front(ops)) + Granted(Run(a, Front(ops)), Last(ops))
  }

  /** Times never go back, start no earlier than `from`, and every config save keeps the limit. */
  ghost predicate Steady(ops: seq<Op>, from: int, limit: int) {
    && (forall i :: 0 <= i < |ops| ==> from <= ops[i].now)
    && (forall i, j :: 0 <= i <= j < |ops| ==> ops[i].now <= ops[j].now)
    && (forall i :: 0 <= i < |ops| && ops[i].SetConfig? ==> ops[i].newLimit == limit)
  }

  function EndTime(ops: seq<Op>, from: int): int {
    if ops == [] then from else Last(ops).now
  }

  ghost predicate Sound(b: Bucket) {
    b.max >= 1 && 0 <= b.tokens <= b.max
  }

  lemma EarnedAdds(max: nat, c: int, d: int)
    ensures Earned(max, c + d) == Earned(max, c) + Earned(max, d)
    ensures c <= d ==> Earned(max, c) <= Earned(max, d)
    ensures Earned(max, 0) == 0
  {
    if c <= d {
      assert max * (d - c) >= 0;
      assert max * d == max * c + max * (d - c);
    }
  }

  lemma RefillFacts(b: Bucket, now: int)
    requires Sound(b) && b.lastFill <= now
    ensures var b' := Refill(b, now);
            && Sound(b') && b'.max == b.max && b.lastFill <= b'.lastFill <= now
            && Earned(b.max, now - b'.lastFill) < MINUTE
            && (b'.tokens - b.tokens) * MINUTE <= Earned(b.max, b'.lastFill - b.lastFill)
            && Earned(b.max, b'.lastFill - b.lastFill) <= 2 * Due(b, now) * MINUTE
            && (b'.tokens < b.max ==> Earned(b.max, b'.lastFill - b.lastFill) <= 2 * (b'.tokens - b.tokens) * MINUTE)
  {
    EarnedAdds(b.max, 0, now - b.lastFill);
    hide Earned;
  }

  /**
    From any state: what is handed out plus what is left never exceeds what was there plus what the time
    between refills earned.
  */
  lemma {:induction false} Ceiling(a: (int, Bucket), ops: seq<Op>, from: int)
    requires Sound(a.1) && a.1.lastFill <= from && Steady(ops, from, a.0)
    ensures var z := Run(a, ops);
            && z.0 == a.0 && z.1.max == a.1.max && Sound(z.1)
            && a.1.lastFill <= z.1.lastFill <= EndTime(ops, from)
            && (Grants(a, ops) + z.1.tokens - a.1.tokens) * MINUTE <= Earned(a.1.max, z.1.lastFill - a.1.lastFill)
  {
    hide Earned;
    if ops == [] {
      EarnedAdds(a.1.max, 0, 0);
    } else {
      Ceiling(a, Front(ops), from);
      var y := Run(a, Front(ops));
      if !Last(ops).SetConfig? {
        CeilingStep(y, Last(ops));
        EarnedAdds(a.1.max, y.1.lastFill - a.1.lastFill, Step(y, Last(ops)).1.lastFill - y.1.lastFill);
        hide Step, Granted, Sound;
      }
    }
  }

  lemma CeilingStep(y: (int, Bucket), op: Op)
    requires Sound(y.1) && !op.SetConfig? && y.1.lastFill <= op.now
    ensures var z := Step(y, op);
            && z.0 == y.0 && z.1.max == y.1.max && Sound(z.1) && y.1.lastFill <= z.1.lastFill <= op.now
            && (Granted(y, op) + z.1.tokens - y.1.tokens) * MINUTE <= Earned(y.1.max, z.1.lastFill - y.1.lastFill)
  {
    hide Earned;
    RefillFacts(y.1, op.now);
  }

  /** Since creation, successes are at most the burst plus the whole tokens the elapsed time earned. */
  lemma {:induction false} GrantsSinceCreation(limit: int, ops: seq<Op>, t0: int)
    requires Steady(ops, t0, limit)
    ensures var a := (limit, NewBucket(limit, t0));
            Grants(a, ops) <= a.1.max + Earned(a.1.max, EndTime(ops, t0) - t0) / MINUTE
  {
    var a := (limit, NewBucket(limit, t0));
    Ceiling(a, ops, t0);
    var z := Run(a, ops).1;
    EarnedAdds(a.1.max, z.lastFill - t0, EndTime(ops, t0) - t0);
    hide Earned;
  }

  lemma {:induction false} RunSplits(a: (int, Bucket), pre: seq<Op>, post: seq<Op>)
    ensures Run(a, pre + post) == Run(Run(a, pre), post)
    ensures Grants(a, pre + post) == Grants(a, pre) + Grants(Run(a, pre), post)
  {
    if post == [] {
      assert pre + post == pre;
    } else {
      assert Front(pre + post) == pre + Front(post) && Last(pre + post) == Last(post);
      RunSplits(a, pre, Front(post));
    }
  }

  /** The first operation of a window may as well find the bucket already refilled. */
  lemma RefillFirst(a: (int, Bucket), op: Op)
    requires !op.SetConfig?
    ensures Step(a, op) == Step((a.0, Refill(a.1, op.now)), op)
    ensures Granted(a, op) == Granted((a.0, Refill(a.1, op.now)), op)
  {
    assert Refill(Refill(a.1, op.now), op.now) == Refill(a.1, op.now);
  }

  /** In any window of length d, successes stay below the burst plus what d earns plus one token. */
  lemma {:induction false} GrantsInWindow(limit: int, pre: seq<Op>, window: seq<Op>, t0: int, s: int, d: nat)
    requires Steady(pre + window, t0, limit)
    requires forall i :: 0 <= i < |window| ==> s <= window[i].now <= s + d
    ensures var a := (limit, NewBucket(limit, t0));
            Grants(Run(a, pre), window) * MINUTE < (a.1.max + 1) * MINUTE + Earned(a.1.max, d)
  {
    var a := (limit, NewBucket(limit, t0));
    assert forall i :: 0 <= i < |pre| ==> (pre + window)[i] == pre[i];
    assert forall i :: 0 <= i < |window| ==> (pre + window)[|pre| + i] == window[i];
    Ceiling(a, pre, t0);
    var y := Run(a, pre);
    if window != [] {
      assert y.1.lastFill <= window[0].now;
    }
    WindowFrom(y, window, s, d);
  }

  lemma {:induction false} WindowFrom(y: (int, Bucket), window: seq<Op>, s: int, d: nat)
    requires Sound(y.1) && Steady(window, s, y.0)
    requires window != [] ==> y.1.lastFill <= window[0].now && Last(window).now <= s + d
    ensures Grants(y, window) * MINUTE < (y.1.max + 1) * MINUTE + Earned(y.1.max, d)
    decreases |window|
  {
    EarnedAdds(y.1.max, 0, d);
    hide Earned, Refill;
    if window != [] {
      var op, rest := window[0], window[1..];
      assert window == [op] + rest;
      assert op.SetConfig? ==> op.newLimit == y.0;
      assert s <= op.now && Steady(window, op.now, y.0);
      if op.SetConfig? {
        assert rest != [] ==> Last(rest) == Last(window) && rest[0] == window[1];
        SaveFirst(y, op, rest);
        WindowFrom(y, rest, s, d);
      } else {
        var r := (y.0, Refill(y.1, op.now));
        RefillFacts(y.1, op.now);
        AsIfRefilled(y, op, rest);
        hide Steady, Run, Grants;
        Ceiling(r, window, op.now);
        assert Run(r, window).1.lastFill <= s + d;
        WindowArithmetic(r.1, Run(r, window).1, op.now, s, d);
      }
    }
  }

  lemma AsIfRefilled(y: (int, Bucket), op: Op, rest: seq<Op>)
    requires !op.SetConfig?
    ensures Grants(y, [op] + rest) == Grants((y.0, Refill(y.1, op.now)), [op] + rest)
  {
    hide Refill;
    var r := (y.0, Refill(y.1, op.now));
    RefillFirst(y, op);
    SingleRun(y, op);
    SingleRun(r, op);
    RunSplits(y, [op], rest);
    RunSplits(r, [op], rest);
  }

  /** A save that keeps the limit changes nothing. */
  lemma SaveFirst(y: (int, Bucket), op: Op, rest: seq<Op>)
    requires op.SetConfig? && op.newLimit == y.0
    ensures Grants(y, [op] + rest) == Grants(y, rest)
  {
    SingleRun(y, op);
    RunSplits(y, [op], rest);
  }

  lemma SingleRun(a: (int, Bucket), op: Op)
    ensures Run(a, [op]) == Step(a, op) && Grants(a, [op]) == Granted(a, op)
  {
    assert Front([op]) == [];
    assert Run(a, Front([op])) == a;
  }

  lemma WindowArithmetic(r: Bucket, z: Bucket, now: int, s: int, d: nat)
    requires r.lastFill <= now && s <= now && z.lastFill <= s + d
    requires Earned(r.max, now - r.lastFill) < MINUTE
    ensures Earned(r.max, z.lastFill - r.lastFill) < MINUTE + Earned(r.max, d)
  {
    EarnedAdds(r.max, now - r.lastFill, z.lastFill - now);
    EarnedAdds(r.max, z.lastFill - now, d);
  }

  // ---- the other direction: how little the truncation can hand out ----

  /** The whole tokens all refills came to, before the cap cut any of them off. */
  function TotalDue(a: (int, Bucket), ops: seq<Op>): int {
    if ops == [] then 0
    else TotalDue(a, Front(ops)) + if Last(ops).SetConfig? then 0 else Due(Run(a, Front(ops)).1, Last(ops).now)
  }

  /**
    However often the limiter is polled, truncation loses at most half of what the time up to the last
    refill earned, and since that refill less than one token is pending.
  */
  lemma {:induction false} TruncationLosesAtMostHalf(limit: int, ops: seq<Op>, t0: int)
    requires Steady(ops, t0, limit)
    ensures var a := (limit, NewBucket(limit, t0)); var z := Run(a, ops).1;
            && Earned(a.1.max, z.lastFill - t0) <= 2 * TotalDue(a, ops) * MINUTE
            && (ops != [] && !Last(ops).SetConfig? ==> Earned(a.1.max, Last(ops).now - z.lastFill) < MINUTE)
  {
    var a := (limit, NewBucket(limit, t0));
    hide Earned, Due, Refill;
    EarnedAdds(a.1.max, 0, 0);
    if ops != [] {
      TruncationLosesAtMostHalf(limit, Front(ops), t0);
      Ceiling(a, Front(ops), t0);
      var y, op := Run(a, Front(ops)).1, Last(ops);
      if !op.SetConfig? {
        RefillFacts(y, op.now);
        EarnedAdds(a.1.max, y.lastFill - t0, Refill(y, op.now).lastFill - y.lastFill);
      }
    }
  }

  /**
    One refill, by inequality: with w whole tokens earned since the last one, the bucket gets exactly those up
    to its size, and its clock moves only if there was one.
  */
  lemma RefillIsExact(b: Bucket, now: int, w: nat)
    requires Sound(b) && b.lastFill <= now
    requires w * 60_000_000_000 <= b.max * (now - b.lastFill) < (w + 1) * 60_000_000_000
    ensures Refill(b, now).tokens == if b.tokens + w > b.max then b.max else b.tokens + w
    ensures Refill(b, now).max == b.max && Refill(b, now).lastFill == if w > 0 then now else b.lastFill
  {
    WholeTokens(b, now, w);
    hide Earned, Due;
  }

  lemma WholeTokens(b: Bucket, now: int, w: nat)
    requires Sound(b) && b.lastFill <= now
    requires w * MINUTE <= Earned(b.max, now - b.lastFill) < (w + 1) * MINUTE
    ensures Due(b, now) == w
  {
    EarnedAdds(b.max, 0, 0);
    hide Earned;
  }

  /** The operations that refill. */
  function Refills(ops: seq<Op>): nat {
    if ops == [] then 0 else Refills(Front(ops)) + if Last(ops).SetConfig? then 0 else 1
  }

  /** What all refills came to is what the time earned, short of less than one token for each. */
  lemma {:induction false} RefillsLoseLessThanOneEach(limit: int, ops: seq<Op>, t0: int)
    requires Steady(ops, t0, limit)
    ensures var a := (limit, NewBucket(limit, t0)); var earned := Earned(a.1.max, Run(a, ops).1.lastFill - t0);
            && TotalDue(a, ops) * MINUTE <= earned <= TotalDue(a, ops) * MINUTE + Refills(ops) * (MINUTE - 1)
  {
    var a := (limit, NewBucket(limit, t0));
    hide Earned, Due, Refill;
    EarnedAdds(a.1.max, 0, 0);
    if ops != [] {
      RefillsLoseLessThanOneEach(limit, Front(ops), t0);
      Ceiling(a, Front(ops), t0);
      var y, op := Run(a, Front(ops)).1, Last(ops);
      if !op.SetConfig? {
        OneRefillLoses(y, op.now);
        EarnedAdds(a.1.max, y.lastFill - t0, Refill(y, op.now).lastFill - y.lastFill);
      }
    }
  }

  lemma OneRefillLoses(b: Bucket, now: int)
    requires Sound(b) && b.lastFill <= now
    ensures var earned := Earned(b.max, Refill(b, now).lastFill - b.lastFill);
            Due(b, now) * MINUTE <= earned <= Due(b, now) * MINUTE + MINUTE - 1
  {
    EarnedAdds(b.max, 0, now - b.lastFill);
    hide Earned;
  }

  /** Since when the bucket has not been full, and what was taken from it since. */
  datatype Ledger = Ledger(fullAt: int, taken: nat)

  function Account(a: (int, Bucket), ops: seq<Op>, t0: int): Ledger {
    if ops == [] then Ledger(t0, 0)
    else
      var l, y, op := Account(a, Front(ops), t0), Run(a, Front(ops)), Last(ops);
      if op.SetConfig? then l
      else
        var full := Due(y.1, op.now) > 0 && Refill(y.1, op.now).tokens == y.1.max;
        Ledger(if full then op.now else l.fullAt, (if full then 0 else l.taken) + Granted(y, op))
  }

  lemma {:induction false} Floor(limit: int, ops: seq<Op>, t0: int)
    requires Steady(ops, t0, limit)
    ensures var a := (limit, NewBucket(limit, t0)); var z, l := Run(a, ops).1, Account(a, ops, t0);
            && l.fullAt <= z.lastFill
            && Earned(a.1.max, z.lastFill - l.fullAt) <= 2 * (z.tokens + l.taken - a.1.max) * MINUTE
  {
    hide Earned;
    var a := (limit, NewBucket(limit, t0));
    if ops == [] {
      EarnedAdds(a.1.max, 0, 0);
    } else {
      Floor(limit, Front(ops), t0);
      Ceiling(a, Front(ops), t0);
      var y, op, l := Run(a, Front(ops)).1, Last(ops), Account(a, Front(ops), t0);
      if !op.SetConfig? {
        FloorRefill(y, op.now, l);
      }
    }
  }

  lemma FloorRefill(y: Bucket, now: int, l: Ledger)
    requires Sound(y) && l.fullAt <= y.lastFill <= now
    requires Earned(y.max, y.lastFill - l.fullAt) <= 2 * (y.tokens + l.taken - y.max) * MINUTE
    ensures var z := Refill(y, now);
            if Due(y, now) > 0 && z.tokens == y.max then now == z.lastFill && Earned(y.max, 0) == 0
            else Earned(y.max, z.lastFill - l.fullAt) <= 2 * (z.tokens + l.taken - y.max) * MINUTE
  {
    RefillFacts(y, now);
    var z := Refill(y, now);
    EarnedAdds(y.max, y.lastFill - l.fullAt, z.lastFill - y.lastFill);
    EarnedAdds(y.max, 0, 0);
    hide Earned, Sound;
  }

  /**
    A refused caller has had its share: since the bucket was last full the callers took the whole burst
    plus, up to one token, at least half of what the time since then earned, whatever the polling pattern.
  */
  lemma RefusedHadHalf(limit: int, ops: seq<Op>, t0: int)
    requires Steady(ops, t0, limit) && ops != [] && Last(ops).Take?
    requires Granted(Run((limit, NewBucket(limit, t0)), Front(ops)), Last(ops)) == 0
    ensures var a := (limit, NewBucket(limit, t0)); var l := Account(a, ops, t0);
            && t0 <= l.fullAt <= Last(ops).now
            && Earned(a.1.max, Last(ops).now - l.fullAt) < 2 * (l.taken - a.1.max) * MINUTE + MINUTE
  {
    hide Earned;
    var a := (limit, NewBucket(limit, t0));
    var y, z, l := Run(a, Front(ops)).1, Run(a, ops).1, Account(a, ops, t0);
    Ceiling(a, Front(ops), t0);
    Ceiling(a, ops, t0);
    RefillFacts(y, Last(ops).now);
    Floor(limit, ops, t0);
    FullAtAfter(a, ops, t0);
    EarnedAdds(a.1.max, z.lastFill - l.fullAt, Last(ops).now - z.lastFill);
  }

  lemma {:induction false} FullAtAfter(a: (int, Bucket), ops: seq<Op>, t0: int)
    requires forall i :: 0 <= i < |ops| ==> t0 <= ops[i].now
    ensures t0 <= Account(a, ops, t0).fullAt
  {
    if ops != [] {
      FullAtAfter(a, Front(ops), t0);
    }
  }

  // ---- limits that change ----

  ghost predicate Timely(ops: seq<Op>, from: int) {
    && (forall i :: 0 <= i < |ops| ==> from <= ops[i].now)
    && (forall i, j :: 0 <= i <= j < |ops| ==> ops[i].now <= ops[j].now)
  }

  /** The full buckets that config saves with another limit put in place. */
  function Bursts(a: (int, Bucket), ops: seq<Op>): nat {
    if ops == [] then 0
    else Bursts(a, Front(ops)) + BurstOf(Run(a, Front(ops)), Last(ops))
  }

  function BurstOf(a: (int, Bucket), op: Op): nat {
    if op.SetConfig? && op.newLimit != a.0 then NewBucket(op.newLimit, op.now).max else 0
  }

  /** What the time between the operations earned, each stretch at the limit then in force. */
  function Earnings(a: (int, Bucket), ops: seq<Op>, from: int): int {
    if ops == [] then 0
    else Earnings(a, Front(ops), from) + Earned(Run(a, Front(ops)).1.max, Last(ops).now - EndTime(Front(ops), from))
  }

  /**
    With any config saves in between: successes are at most the first burst, one more burst for every save
    that changed the limit, and the whole tokens earned.
  */
  lemma {:induction false} GrantsAcrossLimits(limit: int, ops: seq<Op>, t0: int)
    requires Timely(ops, t0)
    ensures var a := (limit, NewBucket(limit, t0));
            Grants(a, ops) <= a.1.max + Bursts(a, ops) + Earnings(a, ops, t0) / MINUTE
  {
    var a := (limit, NewBucket(limit, t0));
    CeilingAcross(a, ops, t0);
    EarnedAdds(Run(a, ops).1.max, 0, EndTime(ops, t0) - Run(a, ops).1.lastFill);
    hide Earned, Run, Grants, Bursts, Earnings;
  }

  lemma {:induction false} CeilingAcross(a: (int, Bucket), ops: seq<Op>, from: int)
    requires Sound(a.1) && a.1.lastFill == from && Timely(ops, from)
    ensures var z := Run(a, ops).1;
            && Sound(z) && z.lastFill <= EndTime(ops, from)
            && (Grants(a, ops) + z.tokens) * MINUTE + Earned(z.max, EndTime(ops, from) - z.lastFill)
               <= (a.1.tokens + Bursts(a, ops)) * MINUTE + Earnings(a, ops, from)
  {
    EarnedAdds(a.1.max, 0, 0);
    if ops != [] {
      var pre, op := Front(ops), Last(ops);
      assert Timely(pre, from) && EndTime(pre, from) <= op.now;
      CeilingAcross(a, pre, from);
      AcrossStep(Run(a, pre), op, EndTime(pre, from));
      assert Run(a, ops) == Step(Run(a, pre), op) && EndTime(ops, from) == op.now;
      hide Timely, Sound, Step, Granted, BurstOf, Earned, Run, EndTime;
    }
  }

  lemma AcrossStep(y: (int, Bucket), op: Op, end: int)
    requires Sound(y.1) && y.1.lastFill <= end <= op.now
    ensures var z := Step(y, op).1;
            && Sound(z) && z.lastFill <= op.now
            && (Granted(y, op) + z.tokens) * MINUTE + Earned(z.max, op.now - z.lastFill)
               <= (y.1.tokens + BurstOf(y, op)) * MINUTE + Earned(y.1.max, end - y.1.lastFill) + Earned(y.1.max,
                   op.now - end)
  {
    var b := y.1;
    EarnedAdds(b.max, end - b.lastFill, op.now - end);
    EarnedAdds(b.max, 0, op.now - b.lastFill);
    if op.SetConfig? {
      EarnedAdds(Step(y, op).1.max, 0, 0);
      hide Earned;
    } else {
      RefillFacts(b, op.now);
      EarnedAdds(b.max, Refill(b, op.now).lastFill - b.lastFill, op.now - Refill(b, op.now).lastFill);
      hide Earned, Refill;
    }
  }

  /** Going to another limit and back refills the bucket, so the bursts in the bound are really handed out. */
  lemma SwitchingRefills(a: (int, Bucket), other: int, now: int)
    requires other != a.0
    ensures var z := Run(a, [SetConfig(now, other), SetConfig(now, a.0)]);
            z == (a.0, NewBucket(a.0, now)) && z.1.tokens == z.1.max
    ensures Grants(a, [SetConfig(now, other), SetConfig(now, a.0), Take(now)]) == 1
  {
    var one, two := SetConfig(now, other), SetConfig(now, a.0);
    SingleRun(a, one);
    RunSplits(a, [one], [two]);
    SingleRun(Run(a, [one]), two);
    assert [one] + [two] == [one, two] && [one, two] + [Take(now)] == [one, two, Take(now)];
    RunSplits(a, [one, two], [Take(now)]);
    SingleRun(Run(a, [one, two]), Take(now));
  }

  /** n times: to another limit, back, and a take. */
  function Switches(limit: int, other: int, now: int, n: nat): seq<Op> {
    if n == 0 then []
    else Switches(limit, other, now, n - 1) + [SetConfig(now, other), SetConfig(now, limit), Take(now)]
  }

  /** No number of grants is too many for one instant, so no bound without the bursts can hold. */
  lemma {:induction false} AnyNumberAtOnce(limit: int, other: int, now: int, n: nat)
    requires other != limit
    ensures var a, ops := (limit, NewBucket(limit, now)), Switches(limit, other, now, n);
            && Timely(ops, now) && (forall i :: 0 <= i < |ops| ==> ops[i].now == now)
            && Earnings(a, ops, now) == 0 && Grants(a, ops) == n && Run(a, ops).0 == limit
  {
    var a := (limit, NewBucket(limit, now));
    if n > 0 {
      var pre, more := Switches(limit, other, now, n - 1), [SetConfig(now, other), SetConfig(now, limit), Take(now)];
      AnyNumberAtOnce(limit, other, now, n - 1);
      SwitchingRefills(Run(a, pre), other, now);
      RunSplits(a, pre, more);
      LimitAfterSwitch(Run(a, pre), other, now);
    }
    NothingEarned(a, Switches(limit, other, now, n), now);
  }

  lemma LimitAfterSwitch(a: (int, Bucket), other: int, now: int)
    requires other != a.0
    ensures Run(a, [SetConfig(now, other), SetConfig(now, a.0), Take(now)]).0 == a.0
  {
    SwitchingRefills(a, other, now);
    assert Front([SetConfig(now, other), SetConfig(now, a.0), Take(now)])
        == [SetConfig(now, other), SetConfig(now, a.0)];
  }

  lemma {:induction false} NothingEarned(a: (int, Bucket), ops: seq<Op>, now: int)
    requires forall i :: 0 <= i < |ops| ==> ops[i].now == now
    ensures Earnings(a, ops, now) == 0
  {
    if ops != [] {
      NothingEarned(a, Front(ops), now);
      EarnedAdds(Run(a, Front(ops)).1.max, 0, 0);
    }
  }
}
