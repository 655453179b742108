/** Issued AI suggestions: each may be executed once, before it expires, exactly as it was issued. */
module SuggestionStores {
  import opened Seqs
  import OneShot
  import RuleLists

  datatype Suggestion = Suggestion(
    id: string, kind: string, pid: nat, name: string, reason: string, rule: Option<RuleLists.Suggestion>)

  /** Trimming and case-insensitive comparison, whatever they are. */
  datatype Comparison = Comparison(trim: string -> string, same: (string, string) -> bool)

  /** The payload comparison: free text such as the reason is not part of it. */
  predicate SameSuggestion(t: Comparison, left: Suggestion, right: Suggestion) {
    && t.trim(left.id) == t.trim(right.id)
    && t.same(t.trim(left.kind), t.trim(right.kind))
    && left.pid == right.pid
    && t.same(t.trim(left.name), t.trim(right.name))
    && left.rule == right.rule
  }

  function Fits(t: Comparison): (Suggestion, Suggestion) -> bool {
    (issued, expected) => SameSuggestion(t, issued, expected)
  }

  type Tokens = OneShot.Tokens<Suggestion>
  type Event = OneShot.Event<Suggestion, Suggestion>

  datatype Verdict = Consumed | IdRequired | NotFound | Mismatch

  /** The puts of one batch, in order; suggestions without an id are skipped. */
  function Puts(t: Comparison, items: seq<Suggestion>, expiresAt: int): seq<Event> {
    if items == [] then []
    else Puts(t, Front(items), expiresAt) +
         (if t.trim(Last(items).id) == "" then [] else [OneShot.Put(t.trim(Last(items).id), Last(items), expiresAt)])
  }

  /** The tokens after a batch was put on top of s. */
  function Issued(t: Comparison, s: Tokens, batch: seq<Suggestion>, expiresAt: int): Tokens {
    OneShot.StepAll(s, Fits(t), Puts(t, batch, expiresAt))
  }

  lemma IssuedSteps(t: Comparison, s: Tokens, batch: seq<Suggestion>, expiresAt: int)
    ensures batch == [] ==> Issued(t, s, batch, expiresAt) == s
    ensures batch != [] ==>
              var before, x := Issued(t, s, Front(batch), expiresAt), Last(batch);
              Issued(t, s, batch, expiresAt)
              == if t.trim(x.id) == "" then before else before[t.trim(x.id) := OneShot.Item(x, expiresAt)]
  {
    if batch != [] {
      var puts, x := Puts(t, Front(batch), expiresAt), Last(batch);
      if t.trim(x.id) == "" {
        assert puts + [] == puts;
      } else {
        assert Front(puts + [OneShot.Put(t.trim(x.id), x, expiresAt)]) == puts;
      }
    }
  }

  /** After a batch its last suggestion under an id stands there with the new deadline; other ids are as before. */
  lemma {:induction false} IssuedOnFields(t: Comparison, s: Tokens, batch: seq<Suggestion>, expiresAt: int, id: string)
    ensures forall i :: 0 <= i < |batch| && IsLastUnder(t, batch, i, id) ==>
              StandsAs(Issued(t, s, batch, expiresAt), id, batch[i], expiresAt)
    ensures id == "" || NoneUnder(t, batch, id) ==> SameAt(Issued(t, s, batch, expiresAt), s, id)
  {
    hide Issued, StandsAs, SameAt;
    IssuedSteps(t, s, batch, expiresAt);
    if batch == [] {
      assert SameAt(s, s, id) by { SameAtItself(s, id); }
    } else {
      var pre, x := Front(batch), Last(batch);
      IssuedOnFields(t, s, pre, expiresAt, id);
      OneIssued(t, Issued(t, s, pre, expiresAt), s, x, expiresAt, id);
      forall i | 0 <= i < |batch| && IsLastUnder(t, batch, i, id)
        ensures StandsAs(Issued(t, s, batch, expiresAt), id, batch[i], expiresAt)
      {
        if i < |pre| {
          assert t.trim(batch[|pre|].id) != id;
          assert IsLastUnder(t, pre, i, id);
          StandsStill(Issued(t, s, pre, expiresAt), x, expiresAt, id, pre[i], t);
        }
      }
      assert NoneUnder(t, batch, id) ==> NoneUnder(t, pre, id) && t.trim(batch[|pre|].id) != id;
    }
  }

  predicate StandsAs(s: Tokens, id: string, x: Suggestion, expiresAt: int) {
    id in s && s[id] == OneShot.Item(x, expiresAt)
  }

  predicate SameAt(s: Tokens, s': Tokens, id: string) {
    && (id in s <==> id in s')
    && (id in s ==> s[id] == s'[id])
  }

  predicate NoneUnder(t: Comparison, batch: seq<Suggestion>, id: string) {
    forall i :: 0 <= i < |batch| ==> t.trim(batch[i].id) != id
  }

  lemma SameAtItself(s: Tokens, id: string)
    ensures SameAt(s, s, id)
  {
  }

  lemma OneIssued(t: Comparison, s: Tokens, s0: Tokens, x: Suggestion, expiresAt: int, id: string)
    ensures var s' := if t.trim(x.id) == "" then s else s[t.trim(x.id) := OneShot.Item(x, expiresAt)];
            && (id != "" && t.trim(x.id) == id ==> StandsAs(s', id, x, expiresAt))
            && ((id == "" || t.trim(x.id) != id) && SameAt(s, s0, id) ==> SameAt(s', s0, id))
  {
  }

  lemma StandsStill(s: Tokens, x: Suggestion, expiresAt: int, id: string, y: Suggestion, t: Comparison)
    requires StandsAs(s, id, y, expiresAt) && t.trim(x.id) != id
    ensures StandsAs(if t.trim(x.id) == "" then s else s[t.trim(x.id) := OneShot.Item(x, expiresAt)], id, y, expiresAt)
  {
  }

  predicate IsLastUnder(t: Comparison, batch: seq<Suggestion>, i: nat, id: string)
    requires i < |batch|
  {
    id != "" && t.trim(batch[i].id) == id && forall j :: i < j < |batch| ==> t.trim(batch[j].id) != id
  }

  class AISuggestionStore {
    const text: Comparison
    const ttl: int
    var items: Tokens

    constructor (text: Comparison, ttl: int)
      ensures items == map[] && this.text == text && this.ttl == ttl
    {
      this.text, this.ttl, items := text, ttl, map[];
    }

    method Prune(now: int)
      modifies this
      ensures items == OneShot.Unexpired(old(items), now)
    {
      var todo := items.Keys;
      while todo != {}
        invariant todo <= items.Keys <= old(items).Keys
        invariant forall k :: k in items ==> items[k] == old(items)[k]
        invariant forall k :: k in old(items) ==> (k in items <==> k in todo || old(items)[k].expiresAt > now)
      {
        var id :| id in todo;
        if !(items[id].expiresAt > now) {
          items := items - {id};
        }
        todo := todo - {id};
      }
    }

    method Remember(batch: seq<Suggestion>, now: int)
      modifies this
      ensures batch == [] ==> items == old(items)
      ensures batch != [] ==> items == Issued(text, OneShot.Unexpired(old(items), now), batch, now + ttl)
    {
      if |batch| == 0 {
        return;
      }
      Prune(now);
      hide Issued, OneShot.Unexpired;
      ghost var pruned := items;
      IssuedSteps(text, pruned, batch[..0], now + ttl);
      for i := 0 to |batch|
        invariant items == Issued(text, pruned, batch[..i], now + ttl)
      {
        IssuedSteps(text, pruned, batch[..i+1], now + ttl);
        assert Front(batch[..i+1]) == batch[..i] && Last(batch[..i+1]) == batch[i];
        var id := text.trim(batch[i].id);
        if id == "" {
          continue;
        }
        items := items[id := OneShot.Item(batch[i], now + ttl)];
      }
      assert batch[..|batch|] == batch;
    }

    method Consume(expected: Suggestion, now: int) returns (v: Verdict)
      modifies this
      ensures v == IdRequired <==> text.trim(expected.id) == ""
      ensures v == IdRequired ==> items == old(items)
      ensures v != IdRequired ==>
                items == OneShot.Step(old(items), Fits(text), OneShot.Take(now, text.trim(expected.id), expected))
      ensures v == Consumed <==>
                text.trim(expected.id) != ""
                && OneShot.Granted(old(items), Fits(text), now, text.trim(expected.id), expected).Some?
      ensures v == NotFound <==>
                text.trim(expected.id) != "" && text.trim(expected.id) !in OneShot.Unexpired(old(items), now)
    {
      var id := text.trim(expected.id);
      if id == "" {
        return IdRequired;
      }
      Prune(now);
      if id !in items {
        return NotFound;
      }
      if !SameSuggestion(text, items[id].value, expected) {
        return Mismatch;
      }
      items := items - {id};
      v := Consumed;
    }
  }

  /**
    Over any interleaving of batches and executions: what is executed matches the latest suggestion issued
    under its id, strictly before it expires, and each issue is executed at most once.
  */
  lemma SuggestionConsumedOnce(t: Comparison, es: seq<Event>, i: nat, j: nat, j': nat)
    requires OneShot.Uses(Fits(t), es, i, j)
    ensures es[i].Put? && es[i].key == es[j].key && es[j].now < es[i].expiresAt
    ensures Matches(t, es[i].value, es[j].probe)
    ensures forall m :: i < m < j && es[m].Put? ==> es[m].key != es[j].key
    ensures OneShot.Uses(Fits(t), es, i, j') ==> j == j'
  {
    OneShot.UsedAtMostOnce(Fits(t), es, i, j, j');
    assert forall m :: i < m < j ==> es[..j][m] == es[m];
  }

  /** The payload, field by field: identity, kind, process and rule must agree, the reason need not. */
  predicate Matches(t: Comparison, issued: Suggestion, expected: Suggestion) {
    && t.trim(issued.id) == t.trim(expected.id) && issued.pid == expected.pid && issued.rule == expected.rule
    && t.same(t.trim(issued.kind), t.trim(expected.kind)) && t.same(t.trim(issued.name), t.trim(expected.name))
  }

  /** A suggestion is accepted exactly when the latest issue under its id still stands and matches it. */
  lemma ConsumedIff(t: Comparison, es: seq<Event>, now: int, expected: Suggestion)
    ensures var id := t.trim(expected.id);
            OneShot.Granted(OneShot.Run(Fits(t), es), Fits(t), now, id, expected).Some?
            <==> exists i: nat ::
                   OneShot.Alive(Fits(t), es, i, id) && now < es[i].expiresAt && Matches(t, es[i].value, expected)
  {
    var id := t.trim(expected.id);
    var granted := OneShot.Granted(OneShot.Run(Fits(t), es), Fits(t), now, id, expected);
    if granted.Some? {
      OneShot.GrantedIff(Fits(t), es, now, id, expected, granted.value);
    }
    if i: nat :| OneShot.Alive(Fits(t), es, i, id) && now < es[i].expiresAt && Matches(t, es[i].value, expected) {
      assert Fits(t)(es[i].value, expected);
      OneShot.GrantedIff(Fits(t), es, now, id, expected, es[i].value);
    }
  }
}
