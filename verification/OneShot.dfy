/** Tokens that expire and can be used once: a map from key to what was stored under it last. */
module OneShot {
  import opened Seqs

  datatype Item<V> = Item(value: V, expiresAt: int)

  /** What happens under the lock. A take first drops everything expired, as a prune does. */
  datatype Event<V, P> =
    | Prune(now: int)
    | Put(key: string, value: V, expiresAt: int)
    | Take(now: int, key: string, probe: P)

  type Tokens<V> = map<string, Item<V>>

  function Unexpired<V>(s: Tokens<V>, now: int): Tokens<V> {
    map k | k in s && s[k].expiresAt > now :: s[k]
  }

  /** What a take hands out, if it is granted. */
  function Granted<V, P>(s: Tokens<V>, fits: (V, P) -> bool, now: int, key: string, probe: P): Option<V> {
    var s := Unexpired(s, now);
    if key in s && fits(s[key].value, probe) then Some(s[key].value) else None
  }

  function Step<V, P>(s: Tokens<V>, fits: (V, P) -> bool, e: Event<V, P>): Tokens<V> {
    match e
    case Prune(now) => Unexpired(s, now)
    case Put(key, value, expiresAt) => s[key := Item(value, expiresAt)]
    case Take(now, key, probe) =>
      if Granted(s, fits, now, key, probe).Some? then Unexpired(s, now) - {key} else Unexpired(s, now)
  }

  function Run<V, P>(fits: (V, P) -> bool, es: seq<Event<V, P>>): Tokens<V> {
    if es == [] then map[] else Step(Run(fits, Front(es)), fits, Last(es))
  }

  function StepAll<V, P>(s: Tokens<V>, fits: (V, P) -> bool, es: seq<Event<V, P>>): Tokens<V> {
    if es == [] then s else Step(StepAll(s, fits, Front(es)), fits, Last(es))
  }

  lemma {:induction false} RunAppend<V, P>(fits: (V, P) -> bool, es: seq<Event<V, P>>, more: seq<Event<V, P>>)
    ensures Run(fits, es + more) == StepAll(Run(fits, es), fits, more)
  {
    if more == [] {
      assert es + more == es;
    } else {
      assert Front(es + more) == es + Front(more) && Last(es + more) == Last(more);
      RunAppend(fits, es, Front(more));
    }
  }

  /** The event leaves a token stored under key with this value and expiry in place. */
  predicate Spares<V, P>(e: Event<V, P>, fits: (V, P) -> bool, key: string, value: V, expiresAt: int) {
    match e
    case Prune(now) => now < expiresAt
    case Put(k, _, _) => k != key
    case Take(now, k, probe) => now < expiresAt && !(k == key && fits(value, probe))
  }

  /**
    The token put by event i is still there after es: nothing was put under its key since, nothing
    cleaned up at or after its expiry, and nobody who fits has taken it.
  */
  ghost predicate Alive<V, P>(fits: (V, P) -> bool, es: seq<Event<V, P>>, i: nat, key: string) {
    && i < |es| && es[i].Put? && es[i].key == key
    && forall m :: i < m < |es| ==> Spares(es[m], fits, key, es[i].value, es[i].expiresAt)
  }

  lemma AliveSteps<V, P>(fits: (V, P) -> bool, es: seq<Event<V, P>>, e: Event<V, P>, i: nat, key: string)
    ensures i < |es| ==> (Alive(fits, es + [e], i, key)
            <==> Alive(fits, es, i, key) && Spares(e, fits, key, es[i].value, es[i].expiresAt))
    ensures i == |es| ==> (Alive(fits, es + [e], i, key) <==> e.Put? && e.key == key)
  {
    var all := es + [e];
    assert all[|es|] == e && forall m :: 0 <= m < |es| ==> all[m] == es[m];
    if i < |es| && Alive(fits, all, i, key) {
      assert forall m :: i < m < |es| ==> Spares(all[m], fits, key, all[i].value, all[i].expiresAt);
    }
    hide Spares;
  }

  /** The map holds exactly the tokens that are alive, each under its own key. */
  lemma {:induction false} HoldsExactlyAlive<V, P>(fits: (V, P) -> bool, es: seq<Event<V, P>>, key: string)
    ensures key in Run(fits, es) <==> exists i: nat :: Alive(fits, es, i, key)
    ensures forall i: nat :: Alive(fits, es, i, key) ==>
              key in Run(fits, es) && Run(fits, es)[key] == Item(es[i].value, es[i].expiresAt)
  {
    if es != [] {
      var pre, e := Front(es), Last(es);
      assert es == pre + [e];
      HoldsExactlyAlive(fits, pre, key);
      forall i: nat | i < |es| ensures
        (i < |pre| ==> (Alive(fits, es, i, key)
            <==> Alive(fits, pre, i, key) && Spares(e, fits, key, pre[i].value, pre[i].expiresAt)))
        && (i == |pre| ==> (Alive(fits, es, i, key) <==> e.Put? && e.key == key))
      {
        AliveSteps(fits, pre, e, i, key);
      }
      AliveInRange(fits, es, key);
      AliveInRange(fits, pre, key);
      if e.Put? && e.key == key {
        assert Alive(fits, es, |pre|, key);
      } else if key in Run(fits, pre) {
        var i: nat :| Alive(fits, pre, i, key);
        assert Spares(e, fits, key, pre[i].value, pre[i].expiresAt) <==> key in Run(fits, es);
        assert Alive(fits, es, i, key) <==> key in Run(fits, es);
      }
    }
  }

  lemma AliveInRange<V, P>(fits: (V, P) -> bool, es: seq<Event<V, P>>, key: string)
    ensures forall i: nat :: Alive(fits, es, i, key) ==> i < |es|
  {
  }

  /**
    A take is granted exactly when the token last put under the key is alive, not expired at that very
    moment, and fits; it hands out that token and no other.
  */
  lemma GrantedIff<V, P>(fits: (V, P) -> bool, es: seq<Event<V, P>>, now: int, key: string, probe: P, v: V)
    ensures Granted(Run(fits, es), fits, now, key, probe) == Some(v)
            <==> exists i: nat ::
                   Alive(fits, es, i, key) && now < es[i].expiresAt && fits(es[i].value, probe) && es[i].value == v
  {
    HoldsExactlyAlive(fits, es, key);
    hide Alive, Run;
  }

  /** Event j is a take, and it was granted the token of event i. */
  ghost predicate Uses<V, P>(fits: (V, P) -> bool, es: seq<Event<V, P>>, i: nat, j: nat) {
    && i < j < |es| && es[j].Take?
    && Alive(fits, es[..j], i, es[j].key)
    && Granted(Run(fits, es[..j]), fits, es[j].now, es[j].key, es[j].probe).Some?
  }

  /** A token is used at most once, after it was put, before it expires, and only by someone it fits. */
  lemma UsedAtMostOnce<V, P>(fits: (V, P) -> bool, es: seq<Event<V, P>>, i: nat, j: nat, j': nat)
    requires Uses(fits, es, i, j)
    ensures es[i].Put? && es[i].key == es[j].key && es[j].now < es[i].expiresAt && fits(es[i].value, es[j].probe)
    ensures Granted(Run(fits, es[..j]), fits, es[j].now, es[j].key, es[j].probe) == Some(es[i].value)
    ensures Uses(fits, es, i, j') ==> j == j'
  {
    HoldsExactlyAlive(fits, es[..j], es[j].key);
    if Uses(fits, es, i, j') && j < j' {
      NotAfterUse(fits, es, i, j, j');
    } else if Uses(fits, es, i, j') && j' < j {
      HoldsExactlyAlive(fits, es[..j'], es[j'].key);
      NotAfterUse(fits, es, i, j', j);
    }
  }

  lemma NotAfterUse<V, P>(fits: (V, P) -> bool, es: seq<Event<V, P>>, i: nat, j: nat, later: nat)
    requires i < j < later < |es| && es[i].Put? && es[j].Take?
    requires es[i].key == es[j].key && fits(es[i].value, es[j].probe)
    ensures !Uses(fits, es, i, later)
  {
    var pre := es[..later];
    assert pre[i] == es[i] && pre[j] == es[j];
    assert !Spares(pre[j], fits, pre[i].key, pre[i].value, pre[i].expiresAt);
  }
}
