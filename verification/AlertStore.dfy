/** Active, snoozed and historical alerts. */
module Alerts {
  import opened Seqs
  import opened Keys

  datatype Severity = Info | Warning | Critical

  datatype Alert = Alert(
    id: string, typeName: string, severity: Severity, title: string, description: string,
    pid: nat, processName: string, detected: int, action: string, details: string)

  function KeyOf(a: Alert): string {
    AlertKey(a.typeName, a.pid)
  }

  datatype State = State(
    active: map<string, Alert>, snoozed: map<string, int>, history: seq<Alert>,
    maxHistory: nat, maxActive: int, nextID: nat)

  function Empty(maxHistory: nat): State {
    State(map[], map[], [], if maxHistory < 32 then 32 else maxHistory, 200, 0)
  }

  predicate Muted(s: State, key: string, now: int) {
    key in s.snoozed && now < s.snoozed[key]
  }

  predicate Full(s: State) {
    s.maxActive > 0 && |s.active| >= s.maxActive
  }

  function Stamp(a: Alert, now: int): Alert {
    a.(id := KeyOf(a), detected := now)
  }

  /** What a raise appends to the history, if anything. */
  function LoggedBy(s: State, a: Alert, now: int): seq<Alert> {
    if Muted(s, KeyOf(a), now) || KeyOf(a) in s.active then [] else [Stamp(a, now)]
  }

  function Accepts(s: State, a: Alert, now: int): bool {
    LoggedBy(s, a, now) != [] && !Full(s)
  }

  function Refreshed(existing: Alert, a: Alert): Alert {
    existing.(description := a.description, severity := a.severity, details := a.details)
  }

  /** The alert handed back to the caller. */
  function Returned(s: State, a: Alert, now: int): Alert {
    if Muted(s, KeyOf(a), now) then a
    else if KeyOf(a) in s.active then Refreshed(s.active[KeyOf(a)], a)
    else Stamp(a, now)
  }

  function RaiseStep(s: State, a: Alert, now: int): State {
    var key := KeyOf(a);
    if Muted(s, key, now) then s else Announce(s.(snoozed := s.snoozed - {key}), a, now)
  }

  /** A raise that is not muted: refreshes the active alert, or logs and, below the cap, adds a new one. */
  function Announce(s: State, a: Alert, now: int): State {
    var key := KeyOf(a);
    if key in s.active then s.(active := s.active[key := Refreshed(s.active[key], a)])
    else
      var s := s.(nextID := s.nextID + 1, history := LastN(s.history + [Stamp(a, now)], s.maxHistory));
      if Full(s) then s else s.(active := s.active[key := Stamp(a, now)])
  }

  datatype Op =
    | Raise(alert: Alert, now: int)
    | ClearByType(typeName: string)
    | ClearAll
    | ClearByKey(key: string)
    | Snooze(key: string, until: int)
    | SetMaxActive(n: int)

  function Step(s: State, op: Op): State {
    match op
    case Raise(a, now) => RaiseStep(s, a, now)
    case ClearByType(t) => s.(active := map k | k in s.active && s.active[k].typeName != t :: s.active[k])
    case ClearAll => s.(active := map[])
    case ClearByKey(key) => s.(active := s.active - {key})
    case Snooze(key, until) => s.(active := s.active - {key}, snoozed := s.snoozed[key := until])
    case SetMaxActive(n) => s.(maxActive := n)
  }

  function Run(s: State, ops: seq<Op>): State {
    if ops == [] then s else Step(Run(s, Front(ops)), Last(ops))
  }

  // ---- the object ----

  class AlertStore {
    var active: map<string, Alert>
    var snoozed: map<string, int>
    var history: seq<Alert>
    var maxHistory: nat
    var maxActive: int
    var nextID: nat

    ghost function View(): State reads this {
      State(active, snoozed, history, maxHistory, maxActive, nextID)
    }

    /** Room for at least one entry, and never more entries than room. */
    ghost predicate Valid() reads this {
      maxHistory >= 32 && |history| <= maxHistory
    }

    constructor (maxHistory: int)
      ensures Valid() && View() == Empty(if maxHistory < 0 then 0 else maxHistory)
      ensures this.maxHistory == (if maxHistory < 32 then 32 else maxHistory) && maxActive == 200
    {
      var limit := maxHistory;
      if limit < 32 {
        limit := 32;
      }
      active, snoozed, history, this.maxHistory, maxActive, nextID := map[], map[], [], limit, 200, 0;
    }

    method SetMaxActive(n: int)
      requires Valid()
      modifies `maxActive
      ensures Valid() && View() == Step(old(View()), Op.SetMaxActive(n))
    {
      maxActive := n;
    }

    /** Shifts the oldest entry out when full, then appends. */
    method AppendHistory(a: Alert)
      requires Valid()
      modifies `history
      ensures Valid() && history == LastN(old(history) + [a], maxHistory)
    {
      if |history| >= maxHistory {
        history := history[1..];
      }
      history := history + [a];
    }

    method Raise(alert: Alert, now: int) returns (result: Alert, isNew: bool)
      requires Valid()
      modifies this
      ensures Valid() && View() == Step(old(View()), Op.Raise(alert, now))
      ensures isNew <==> Accepts(old(View()), alert, now)
      ensures result == Returned(old(View()), alert, now)
    {
      hide LastN, AlertKey, Announce, Stamp, Refreshed;
      var key := AlertKey(alert.typeName, alert.pid);
      if key in snoozed {
        if now < snoozed[key] {
          return alert, false;
        }
        snoozed := snoozed - {key};
      } else {
        assert snoozed - {key} == snoozed;
      }
      result, isNew := RaiseUnmuted(alert, key, now);
    }

    /** The rest of a raise, once the key is known not to be snoozed. */
    method RaiseUnmuted(alert: Alert, key: string, now: int) returns (result: Alert, isNew: bool)
      requires Valid() && key == KeyOf(alert)
      modifies this
      ensures Valid() && View() == Announce(old(View()), alert, now)
      ensures isNew <==> key !in old(active) && !Full(old(View()))
      ensures result == if key in old(active) then Refreshed(old(active)[key], alert) else Stamp(alert, now)
    {
      hide LastN, AlertKey;
      var a := alert;
      if key in active {
        var existing := active[key];
        existing := existing.(description := a.description, severity := a.severity, details := a.details);
        active := active[key := existing];
        return existing, false;
      }
      if maxActive > 0 && |active| >= maxActive {
        nextID := nextID + 1;
        a := a.(id := key, detected := now);
        AppendHistory(a);
        return a, false;
      }
      nextID := nextID + 1;
      a := a.(id := key, detected := now);
      active := active[key := a];
      AppendHistory(a);
      return a, true;
    }

    method ClearByType(typeName: string) returns (removed: nat)
      requires Valid()
      modifies this
      ensures Valid() && View() == Step(old(View()), Op.ClearByType(typeName))
      ensures removed == |old(active)| - |active|
    {
      removed := 0;
      var todo := active.Keys;
      while todo != {}
        invariant todo <= active.Keys <= old(active).Keys
        invariant forall k :: k in active ==> active[k] == old(active)[k]
        invariant forall k :: k in old(active) ==> (k in active <==> k in todo || old(active)[k].typeName != typeName)
        invariant removed == |old(active)| - |active|
        invariant snoozed == old(snoozed) && history == old(history) && maxHistory == old(maxHistory)
        invariant maxActive == old(maxActive) && nextID == old(nextID)
      {
        var key :| key in todo;
        if active[key].typeName == typeName {
          assert (active - {key}).Keys == active.Keys - {key};
          assert |(active - {key}).Keys| == |active.Keys| - 1;
          active := active - {key};
          removed := removed + 1;
        }
        todo := todo - {key};
      }
      assert active == Step(old(View()), Op.ClearByType(typeName)).active;
    }

    method ClearAll() returns (removed: nat)
      requires Valid()
      modifies this
      ensures Valid() && View() == Step(old(View()), Op.ClearAll) && removed == |old(active)|
    {
      removed := |active|;
      active := map[];
    }

    method Clear(typeName: string, pid: nat)
      requires Valid()
      modifies this
      ensures Valid() && View() == Step(old(View()), Op.ClearByKey(AlertKey(typeName, pid)))
    {
      ClearByKey(AlertKey(typeName, pid));
    }

    method ClearByKey(key: string)
      requires Valid()
      modifies this
      ensures Valid() && View() == Step(old(View()), Op.ClearByKey(key))
    {
      if key in active {
        active := active - {key};
      } else {
        assert active - {key} == active;
      }
    }

    method Snooze(typeName: string, pid: nat, until: int)
      requires Valid()
      modifies this
      ensures Valid() && View() == Step(old(View()), Op.Snooze(AlertKey(typeName, pid), until))
    {
      var key := AlertKey(typeName, pid);
      snoozed := snoozed[key := until];
      if key in active {
        active := active - {key};
      } else {
        assert active - {key} == active;
      }
    }
  }

  // ---- every reachable state ----

  /** Everything the run logged, however much of it the history has since dropped. */
  function Logged(s: State, ops: seq<Op>): seq<Alert> {
    if ops == [] then []
    else Logged(s, Front(ops)) +
         (if Last(ops).Raise? then LoggedBy(Run(s, Front(ops)), Last(ops).alert, Last(ops).now) else [])
  }

  ghost predicate Consistent(s: State, logged: seq<Alert>) {
    && (forall k :: k in s.active ==> KeyOf(s.active[k]) == k && s.active[k].id == k)
    && (forall k :: k in s.active ==> k !in s.snoozed)
    && s.history == LastN(logged, s.maxHistory)
    && s.nextID == |logged|
  }

  /**
    In every reachable state each active alert sits under its own key, no key is both active and snoozed,
    and the history is the newest part of everything logged, whatever was cleared in between.
  */
  lemma {:induction false} AlwaysConsistent(maxHistory: nat, ops: seq<Op>)
    ensures Consistent(Run(Empty(maxHistory), ops), Logged(Empty(maxHistory), ops))
  {
    if ops != [] {
      AlwaysConsistent(maxHistory, Front(ops));
      var s, logged := Run(Empty(maxHistory), Front(ops)), Logged(Empty(maxHistory), Front(ops));
      match Last(ops)
      case Raise(a, now) => RaiseConsistent(s, logged, a, now);
      case _ => assert Logged(Empty(maxHistory), ops) == logged;
    }
  }

  lemma RaiseConsistent(s: State, logged: seq<Alert>, a: Alert, now: int)
    requires Consistent(s, logged)
    ensures Consistent(RaiseStep(s, a, now), logged + LoggedBy(s, a, now))
  {
    LastNAppend(logged, Stamp(a, now), s.maxHistory);
    hide LastN, AlertKey;
    assert logged + [] == logged;
    assert KeyOf(Stamp(a, now)) == KeyOf(a);
    assert KeyOf(a) in s.active ==> KeyOf(Refreshed(s.active[KeyOf(a)], a)) == KeyOf(s.active[KeyOf(a)]);
  }

  /** How often a raise under key was reported as new. */
  function Announced(s: State, ops: seq<Op>, key: string): nat {
    if ops == [] then 0
    else Announced(s, Front(ops), key) +
         (if Last(ops).Raise? && KeyOf(Last(ops).alert) == key
            && Accepts(Run(s, Front(ops)), Last(ops).alert, Last(ops).now)
          then 1 else 0)
  }

  /** The operation takes the active alert under key away. */
  predicate Removes(s: State, op: Op, key: string) {
    key in s.active &&
    match op
    case Raise(_, _) => false
    case ClearByType(t) => s.active[key].typeName == t
    case ClearAll => true
    case ClearByKey(k) => k == key
    case Snooze(k, _) => k == key
    case SetMaxActive(_) => false
  }

  function Removals(s: State, ops: seq<Op>, key: string): nat {
    if ops == [] then 0
    else Removals(s, Front(ops), key) + (if Removes(Run(s, Front(ops)), Last(ops), key) then 1 else 0)
  }

  function IsActive(s: State, key: string): nat {
    if key in s.active then 1 else 0
  }

  /** Conservation: what was announced under a key is what was removed plus what is still active. */
  lemma {:induction false} AnnouncedBalance(s: State, ops: seq<Op>, key: string)
    ensures Announced(s, ops, key) + IsActive(s, key) == Removals(s, ops, key) + IsActive(Run(s, ops), key)
  {
    if ops != [] {
      AnnouncedBalance(s, Front(ops), key);
      StepBalance(Run(s, Front(ops)), Last(ops), key);
    }
  }

  lemma StepBalance(s: State, op: Op, key: string)
    ensures (if op.Raise? && KeyOf(op.alert) == key && Accepts(s, op.alert, op.now) then 1 else 0) + IsActive(s, key)
         == (if Removes(s, op, key) then 1 else 0) + IsActive(Step(s, op), key)
  {
    hide LastN, AlertKey;
  }

  /** Between removals a key is announced at most once. */
  lemma {:induction false} AnnouncedOnceBetweenRemovals(s: State, ops: seq<Op>, key: string)
    requires Removals(s, ops, key) == 0
    ensures Announced(s, ops, key) <= 1
    ensures Announced(s, ops, key) == 1 <==> key !in s.active && key in Run(s, ops).active
  {
    AnnouncedBalance(s, ops, key);
  }

  /** Nothing becomes active at or above a positive cap, so the largest cap bounds the active set. */
  lemma {:induction false} ActiveStaysBounded(maxHistory: nat, ops: seq<Op>, cap: int)
    requires cap >= 200
    requires forall i :: 0 <= i < |ops| && ops[i].SetMaxActive? ==> 0 < ops[i].n <= cap
    ensures var s := Run(Empty(maxHistory), ops); |s.active| <= cap && 0 < s.maxActive <= cap
  {
    if ops != [] {
      ActiveStaysBounded(maxHistory, Front(ops), cap);
      var s, op := Run(Empty(maxHistory), Front(ops)), Last(ops);
      StepSize(s, op);
    }
  }

  /** A raise adds its key to the active ones exactly when it is reported as new. */
  lemma RaiseKeys(s: State, a: Alert, now: int)
    ensures RaiseStep(s, a, now).active.Keys == s.active.Keys + (if Accepts(s, a, now) then {KeyOf(a)} else {})
    ensures Accepts(s, a, now) ==> KeyOf(a) !in s.active && !Full(s)
  {
    hide LastN, AlertKey, KeyOf, Stamp, Refreshed, Announce, Full;
    if !Muted(s, KeyOf(a), now) {
      AnnounceKeys(s.(snoozed := s.snoozed - {KeyOf(a)}), a, now);
      SameCap(s, s.snoozed - {KeyOf(a)});
    }
  }

  lemma SameCap(s: State, snoozed: map<string, int>)
    ensures Full(s.(snoozed := snoozed)) <==> Full(s)
  {
  }

  lemma AnnounceKeys(s: State, a: Alert, now: int)
    ensures Announce(s, a, now).active.Keys
         == s.active.Keys + (if KeyOf(a) !in s.active && !Full(s) then {KeyOf(a)} else {})
  {
    hide LastN, KeyOf, Stamp, Refreshed;
  }

  lemma ClearingKeys(s: State, op: Op)
    requires !op.Raise?
    ensures Step(s, op).active.Keys <= s.active.Keys
  {
    hide LastN, AlertKey;
  }

  lemma StepSize(s: State, op: Op)
    ensures |Step(s, op).active| <= |s.active| || (op.Raise? && !Full(s) && |Step(s, op).active| == |s.active| + 1)
  {
    var s' := Step(s, op);
    if op.Raise? {
      RaiseKeys(s, op.alert, op.now);
    } else {
      ClearingKeys(s, op);
      SubsetSize(s'.active.Keys, s.active.Keys);
    }
    hide Step, RaiseStep, Accepts, KeyOf, Full;
    assert |s'.active| == |s'.active.Keys| && |s.active| == |s.active.Keys|;
  }

  // ---- a raise, field by field ----

  /**
    A raise that is not muted leaves its key active as raised: an alert that was active keeps its identity and
    first detection and takes over description, severity and details; a new one is stamped. Other keys stay.
  */
  lemma RaiseOnFields(s: State, a: Alert, now: int)
    requires KeyOf(a) in s.snoozed ==> now >= s.snoozed[KeyOf(a)]
    ensures var key, s' := KeyOf(a), RaiseStep(s, a, now);
            && (key in s.active ==>
                  && key in s'.active
                  && s'.active[key].severity == a.severity && s'.active[key].description == a.description
                  && s'.active[key].details == a.details
                  && s'.active[key].id == s.active[key].id && s'.active[key].detected == s.active[key].detected
                  && s'.active[key].title == s.active[key].title && s'.active[key].action == s.active[key].action
                  && s'.active[key].pid == s.active[key].pid && s'.active[key].typeName == s.active[key].typeName
                  && s'.active[key].processName == s.active[key].processName
                  && s'.history == s.history && s'.nextID == s.nextID)
            && (key !in s.active ==>
                  && s'.nextID == s.nextID + 1
                  && (s.maxHistory > 0 ==> s'.history != [] && Last(s'.history) == a.(id := key, detected := now))
                  && (key in s'.active <==> s.maxActive <= 0 || |s.active| < s.maxActive)
                  && (key in s'.active ==> s'.active[key] == a.(id := key, detected := now)))
            && (forall k :: k != key ==> (k in s'.active <==> k in s.active))
            && (forall k :: k != key && k in s.active ==> s'.active[k] == s.active[k])
            && key !in s'.snoozed
  {
    hide AlertKey;
  }

  // ---- snoozing over whole runs ----

  /** Until when the key was snoozed last, by whatever Snooze came last. */
  function LastSnooze(ops: seq<Op>, key: string): Option<int> {
    if ops == [] then None
    else if Last(ops).Snooze? && Last(ops).key == key then Some(Last(ops).until)
    else LastSnooze(Front(ops), key)
  }

  ghost predicate RaisedBy(ops: seq<Op>, now: int) {
    forall i :: 0 <= i < |ops| && ops[i].Raise? ==> ops[i].now <= now
  }

  /**
    In every reachable state a key is muted exactly until its last snooze runs out: the deadlines the store
    forgets on the way are over, and nothing else lifts or sets one.
  */
  lemma {:induction false} MutedIff(maxHistory: nat, ops: seq<Op>, key: string, now: int)
    requires RaisedBy(ops, now)
    ensures Muted(Run(Empty(maxHistory), ops), key, now)
            <==> LastSnooze(ops, key).Some? && now < LastSnooze(ops, key).value
  {
    SnoozeMemory(maxHistory, ops, key, now);
    hide Run, LastSnooze;
  }

  lemma {:induction false} SnoozeMemory(maxHistory: nat, ops: seq<Op>, key: string, now: int)
    requires RaisedBy(ops, now)
    ensures Remembered(Run(Empty(maxHistory), ops).snoozed, LastSnooze(ops, key), key, now)
  {
    if ops != [] {
      assert forall i :: 0 <= i < |ops| - 1 ==> Front(ops)[i] == ops[i];
      SnoozeMemory(maxHistory, Front(ops), key, now);
      assert Last(ops).Raise? ==> Last(ops).now <= now;
      SnoozedAfter(Run(Empty(maxHistory), Front(ops)), Last(ops));
      hide Step, RaisedBy, KeyOf;
    }
  }

  /** The store knows the deadline of the last snooze, or that deadline is over. */
  predicate Remembered(snoozed: map<string, int>, last: Option<int>, key: string, now: int) {
    if key in snoozed then last == Some(snoozed[key]) else last.Some? ==> last.value <= now
  }

  lemma SnoozedAfter(s: State, op: Op)
    ensures Step(s, op).snoozed ==
            match op
            case Snooze(key, until) => s.snoozed[key := until]
            case Raise(a, now) => if Muted(s, KeyOf(a), now) then s.snoozed else s.snoozed - {KeyOf(a)}
            case _ => s.snoozed
  {
    hide LastN, AlertKey, KeyOf, Stamp, Refreshed, Full;
  }

  /**
    When raises come in order of time, none under a snoozed key is announced or logged before the snooze
    runs out, unless the key is snoozed anew.
  */
  lemma {:induction false} SnoozeSilences(maxHistory: nat, ops: seq<Op>, i: nat, a: Alert, now: int)
    requires RaisedBy(ops, now) && i < |ops| && ops[i].Snooze? && ops[i].key == KeyOf(a) && now < ops[i].until
    requires forall j :: i < j < |ops| && ops[j].Snooze? ==> ops[j].key != KeyOf(a)
    ensures var s := Run(Empty(maxHistory), ops);
            !Accepts(s, a, now) && LoggedBy(s, a, now) == [] && RaiseStep(s, a, now) == s
  {
    MutedIff(maxHistory, ops, KeyOf(a), now);
    LastSnoozeIs(ops, i, KeyOf(a));
    hide Run, LastSnooze, KeyOf;
  }

  lemma {:induction false} LastSnoozeIs(ops: seq<Op>, i: nat, key: string)
    requires i < |ops| && ops[i].Snooze? && ops[i].key == key
    requires forall j :: i < j < |ops| && ops[j].Snooze? ==> ops[j].key != key
    ensures LastSnooze(ops, key) == Some(ops[i].until)
  {
    if i < |ops| - 1 {
      LastSnoozeIs(Front(ops), i, key);
    }
  }
}
