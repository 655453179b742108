/** Telegram confirmation codes: a queued action runs only when its own chat confirms it in time. */
module Confirmations {
  import opened Seqs
  import OneShot

  const DEFAULT_TTL: int := 90_000_000_000

  /** Which action was queued, and for which chat. */
  datatype Queued = Queued(chat: int, action: nat)

  predicate SameChat(q: Queued, chat: int) {
    q.chat == chat
  }

  datatype Pending = Pending(chat: int, action: nat, expiresAt: int)

  datatype Reply = CodeRequired | NotFound | OtherChat | Run(action: nat) | Cancelled(action: nat)

  type Tokens = OneShot.Tokens<Queued>

  function TokensOf(pending: map<string, Pending>): Tokens {
    map k | k in pending :: OneShot.Item(Queued(pending[k].chat, pending[k].action), pending[k].expiresAt)
  }

  function Granted(s: Tokens, now: int, code: string, chat: int): Option<Queued> {
    OneShot.Granted(s, SameChat, now, code, chat)
  }

  /** What the commands do, in lock order. A stored action has no code when none could be generated. */
  datatype Op =
    | Store(chat: int, ttl: int, action: nat, issued: Option<string>, asked: int, now: int)
    | Confirm(code: string, chat: int, now: int)
    | Cancel(code: string, chat: int, now: int)
    | Cleanup(now: int)

  function Lifetime(ttl: int): int {
    if ttl <= 0 then DEFAULT_TTL else ttl
  }

  /** An operation as events on the codes. */
  function EventsOf(op: Op): seq<OneShot.Event<Queued, int>> {
    match op
    case Store(chat, ttl, action, issued, asked, now) =>
      if issued.None? then []
      else [OneShot.Prune(now), OneShot.Put(issued.value, Queued(chat, action), asked + Lifetime(ttl))]
    case Confirm(code, chat, now) => if code == "" then [] else [OneShot.Take(now, code, chat)]
    case Cancel(code, chat, now) => if code == "" then [] else [OneShot.Take(now, code, chat)]
    case Cleanup(now) => [OneShot.Prune(now)]
  }

  function After(s: Tokens, op: Op): Tokens {
    match op
    case Store(chat, ttl, action, issued, asked, now) =>
      if issued.None? then s
      else OneShot.Unexpired(s, now)[issued.value := OneShot.Item(Queued(chat, action), asked + Lifetime(ttl))]
    case Confirm(code, chat, now) => Redeemed(s, code, chat, now)
    case Cancel(code, chat, now) => Redeemed(s, code, chat, now)
    case Cleanup(now) => OneShot.Unexpired(s, now)
  }

  function Redeemed(s: Tokens, code: string, chat: int, now: int): Tokens {
    if code == "" then s else OneShot.Step(s, SameChat, OneShot.Take(now, code, chat))
  }

  function Answer(s: Tokens, code: string, chat: int, now: int, cancel: bool): Reply {
    if code == "" then CodeRequired
    else
      match Granted(s, now, code, chat)
      case Some(q) => if cancel then Cancelled(q.action) else Run(q.action)
      case None => if code in OneShot.Unexpired(s, now) then OtherChat else NotFound
  }

  function ReplyTo(s: Tokens, op: Op): Option<Reply> {
    match op
    case Confirm(code, chat, now) => Some(Answer(s, code, chat, now, false))
    case Cancel(code, chat, now) => Some(Answer(s, code, chat, now, true))
    case _ => None
  }

  class Bot {
    var pending: map<string, Pending>
    const normalize: string -> string

    ghost function View(): Tokens reads this {
      TokensOf(pending)
    }

    constructor (normalize: string -> string)
      ensures pending == map[] && this.normalize == normalize
    {
      pending := map[];
      this.normalize := normalize;
    }

    function Code(args: seq<string>): string {
      if |args| < 1 then "" else normalize(args[0])
    }

    method CleanupPending(now: int)
      modifies this
      ensures pending == map k | k in old(pending) && old(pending)[k].expiresAt > now :: old(pending)[k]
      ensures View() == After(old(View()), Cleanup(now))
    {
      var todo := pending.Keys;
      while todo != {}
        invariant todo <= pending.Keys <= old(pending).Keys
        invariant forall k :: k in pending ==> pending[k] == old(pending)[k]
        invariant forall k :: k in old(pending) ==> (k in pending <==> k in todo || old(pending)[k].expiresAt > now)
      {
        var code :| code in todo;
        if !(pending[code].expiresAt > now) {
          pending := pending - {code};
        }
        todo := todo - {code};
      }
    }

    /** `asked` is read before the lock, `now` under it. `code` is absent when no code could be generated. */
    method StorePendingAction(chat: int, ttl: int, action: nat, code: Option<string>, asked: int, now: int)
        returns (ok: bool)
      modifies this
      ensures ok <==> code.Some?
      ensures View() == After(old(View()), Store(chat, ttl, action, code, asked, now))
    {
      var life := ttl;
      if life <= 0 {
        life := DEFAULT_TTL;
      }
      if code.None? {
        return false;
      }
      CleanupPending(now);
      pending := pending[code.value := Pending(chat, action, asked + life)];
      ok := true;
    }

    /** A reply of Run hands the action to the caller, who runs it after the lock is released. */
    method ConfirmAction(args: seq<string>, chat: int, now: int) returns (reply: Reply)
      modifies this
      ensures View() == After(old(View()), Confirm(Code(args), chat, now))
      ensures Some(reply) == ReplyTo(old(View()), Confirm(Code(args), chat, now))
    {
      reply := Redeem(args, chat, now);
    }

    method CancelAction(args: seq<string>, chat: int, now: int) returns (reply: Reply)
      modifies this
      ensures View() == After(old(View()), Cancel(Code(args), chat, now))
      ensures Some(reply) == ReplyTo(old(View()), Cancel(Code(args), chat, now))
    {
      reply := Redeem(args, chat, now);
      if reply.Run? {
        reply := Cancelled(reply.action);
      }
    }

    /** The part the two commands share. */
    method Redeem(args: seq<string>, chat: int, now: int) returns (reply: Reply)
      modifies this
      ensures View() == Redeemed(old(View()), Code(args), chat, now)
      ensures reply == Answer(old(View()), Code(args), chat, now, false)
    {
      var code := Code(args);
      if code == "" {
        return CodeRequired;
      }
      CleanupPending(now);
      if code !in pending {
        return NotFound;
      }
      var action := pending[code];
      if action.chat != chat {
        return OtherChat;
      }
      pending := pending - {code};
      reply := Run(action.action);
    }
  }

  // ---- whole runs ----

  function Queue(ops: seq<Op>): Tokens {
    if ops == [] then map[] else After(Queue(Front(ops)), Last(ops))
  }

  function AllEvents(ops: seq<Op>): seq<OneShot.Event<Queued, int>> {
    if ops == [] then [] else AllEvents(Front(ops)) + EventsOf(Last(ops))
  }

  /** The queue is a set of one-shot tokens, so who is granted what is `OneShot.GrantedIff`. */
  lemma {:induction false} QueueIsOneShot(ops: seq<Op>)
    ensures Queue(ops) == OneShot.Run(SameChat, AllEvents(ops))
  {
    if ops != [] {
      QueueIsOneShot(Front(ops));
      AfterIsSteps(Queue(Front(ops)), Last(ops));
      hide After, EventsOf;
      OneShot.RunAppend(SameChat, AllEvents(Front(ops)), EventsOf(Last(ops)));
    }
  }

  lemma AfterIsSteps(s: Tokens, op: Op)
    ensures After(s, op) == OneShot.StepAll(s, SameChat, EventsOf(op))
  {
    hide OneShot.Unexpired, OneShot.Granted;
    var es := EventsOf(op);
    if |es| == 1 {
      assert Front(es) == [];
    } else if |es| == 2 {
      assert Front(es) == [es[0]] && Front([es[0]]) == [];
      assert OneShot.StepAll(s, SameChat, [es[0]]) == OneShot.Step(s, SameChat, es[0]);
    }
  }

  /** Every call that stores an action stores one of its own. */
  ghost predicate OwnActions(ops: seq<Op>) {
    forall i, j :: 0 <= i < j < |ops| && ops[i].Store? && ops[j].Store? ==> ops[i].action != ops[j].action
  }

  /** What operation j answers. */
  function ReplyAt(ops: seq<Op>, j: nat): Option<Reply>
    requires j < |ops|
  {
    ReplyTo(Queue(ops[..j]), ops[j])
  }

  /** Operation j took the action out of the queue, to run it or to drop it. */
  predicate Takes(ops: seq<Op>, j: nat, action: nat) {
    j < |ops| && (ReplyAt(ops, j) == Some(Run(action)) || ReplyAt(ops, j) == Some(Cancelled(action)))
  }

  /** Operation i queued what stands under the code. */
  ghost predicate QueuedBy(ops: seq<Op>, i: nat, code: string, item: OneShot.Item<Queued>) {
    && i < |ops| && ops[i].Store? && ops[i].issued == Some(code)
    && item == OneShot.Item(Queued(ops[i].chat, ops[i].action), ops[i].asked + Lifetime(ops[i].ttl))
  }

  /** What is in the queue was stored there under its code, and nobody has taken it. */
  lemma {:induction false} QueueIsUntaken(ops: seq<Op>, code: string) returns (i: nat)
    requires OwnActions(ops) && code in Queue(ops)
    ensures QueuedBy(ops, i, code, Queue(ops)[code])
    ensures forall k: nat :: !Takes(ops, k, Queue(ops)[code].value.action)
    decreases |ops|, 0
  {
    hide Answer;
    var pre, op, n := Front(ops), Last(ops), |ops| - 1;
    var a := Queue(ops)[code].value.action;
    assert forall k :: 0 <= k < n ==> pre[k] == ops[k] && pre[..k] == ops[..k];
    assert OwnActions(pre);
    if op.Store? && op.issued == Some(code) {
      i := n;
      forall k: nat | k < n ensures !Takes(ops, k, a) {
        if Takes(pre, k, a) {
          var s := TakenWasStored(pre, k, a);
        }
      }
    } else {
      i := QueueIsUntaken(pre, code);
      assert ops[..n] == pre;
      if Takes(ops, n, a) {
        TakesGranted(ops, n, a);
        var other := QueueIsUntaken(pre, op.code);
      }
    }
    assert forall k: nat | k < n :: Takes(ops, k, a) <==> Takes(pre, k, a);
  }

  /** To take an action is to be granted it under the code it stands under; the code is then free. */
  lemma TakesGranted(ops: seq<Op>, j: nat, action: nat)
    requires Takes(ops, j, action)
    ensures var s, op := Queue(ops[..j]), ops[j];
            && (op.Confirm? || op.Cancel?)
            && op.code in s && s[op.code].value == Queued(op.chat, action) && op.now < s[op.code].expiresAt
            && op.code !in After(s, op)
  {
  }

  lemma {:induction false} TakenWasStored(ops: seq<Op>, j: nat, action: nat) returns (i: nat)
    requires OwnActions(ops) && Takes(ops, j, action)
    ensures (ops[j].Confirm? || ops[j].Cancel?) && i < j
    ensures ops[i].Store? && ops[i].action == action && ops[i].chat == ops[j].chat
    ensures ops[i].issued == Some(ops[j].code) && ops[j].now < ops[i].asked + Lifetime(ops[i].ttl)
    ensures forall k: nat | k < j :: !Takes(ops, k, action)
    decreases j, 1
  {
    var pre := ops[..j];
    TakesGranted(ops, j, action);
    i := QueueIsUntaken(pre, ops[j].code);
    assert forall k :: 0 <= k < j ==> pre[..k] == ops[..k];
    assert forall k: nat | k < j :: Takes(ops, k, action) <==> Takes(pre, k, action);
  }

  /**
    Over any interleaving of storing, confirming, cancelling and cleanup: an action that is run or cancelled
    was stored earlier for that very chat under that very code and has not expired. It is run at most once,
    and never before or after it was cancelled.
  */
  lemma {:induction false} ActionTakenOnce(ops: seq<Op>, j: nat, action: nat)
    requires OwnActions(ops) && Takes(ops, j, action)
    ensures exists i: nat :: i < j && ops[i].Store? && ops[i].action == action
                          && ops[i].chat == ops[j].chat && ops[i].issued == Some(ops[j].code)
                          && ops[j].now < ops[i].asked + Lifetime(ops[i].ttl)
    ensures forall k: nat :: k < |ops| && k != j ==>
              ReplyAt(ops, k) != Some(Run(action)) && ReplyAt(ops, k) != Some(Cancelled(action))
  {
    var i := TakenWasStored(ops, j, action);
    hide ReplyAt;
    forall k: nat | k < |ops| && k != j
      ensures ReplyAt(ops, k) != Some(Run(action)) && ReplyAt(ops, k) != Some(Cancelled(action))
    {
      if Takes(ops, k, action) {
        var i' := TakenWasStored(ops, k, action);
      }
    }
  }

  // ---- which command runs the action ----

  /** The operation leaves an action of this chat, stored under the code until `expiresAt`, in the queue. */
  predicate LeavesStanding(op: Op, code: string, chat: int, expiresAt: int) {
    match op
    case Store(_, _, _, issued, _, now) => issued.None? || (issued.value != code && now < expiresAt)
    case Confirm(c, ch, now) => c == "" || (now < expiresAt && !(c == code && ch == chat))
    case Cancel(c, ch, now) => c == "" || (now < expiresAt && !(c == code && ch == chat))
    case Cleanup(now) => now < expiresAt
  }

  /** When what the operation stores expires; without a lifetime that is a minute and a half after it was asked for. */
  function Deadline(op: Op): int
    requires op.Store?
  {
    op.asked + if op.ttl <= 0 then 90_000_000_000 else op.ttl
  }

  /**
    Operation i stored an action under the code, and no later one stored another there, cleaned up after its
    deadline, or came from its chat with its code.
  */
  ghost predicate Stands(ops: seq<Op>, i: nat, code: string) {
    && i < |ops| && ops[i].Store? && ops[i].issued == Some(code)
    && forall m :: i < m < |ops| ==> LeavesStanding(ops[m], code, ops[i].chat, Deadline(ops[i]))
  }

  lemma StandsStep(pre: seq<Op>, op: Op, i: nat, code: string)
    ensures i < |pre| ==> (Stands(pre + [op], i, code) <==>
              Stands(pre, i, code) && LeavesStanding(op, code, pre[i].chat, Deadline(pre[i])))
    ensures i == |pre| ==> (Stands(pre + [op], i, code) <==> op.Store? && op.issued == Some(code))
  {
    var all := pre + [op];
    assert all[|pre|] == op && forall m :: 0 <= m < |pre| ==> all[m] == pre[m];
    if i < |pre| && Stands(all, i, code) {
      assert forall m :: i < m < |pre| ==> LeavesStanding(all[m], code, all[i].chat, Deadline(all[i]));
    }
    hide LeavesStanding;
  }

  /** What one operation does to what stands under a code. */
  lemma AfterAt(s: Tokens, op: Op, code: string)
    ensures op.Store? && op.issued == Some(code) ==>
              code in After(s, op)
              && After(s, op)[code] == OneShot.Item(Queued(op.chat, op.action), Deadline(op))
    ensures !(op.Store? && op.issued == Some(code)) ==>
              && (code in After(s, op) <==>
                    code in s && LeavesStanding(op, code, s[code].value.chat, s[code].expiresAt))
              && (code in After(s, op) ==> After(s, op)[code] == s[code])
  {
  }

  /** The queue holds under each code exactly the action that stands there. */
  lemma {:induction false} QueueIsStanding(ops: seq<Op>, code: string)
    ensures code in Queue(ops) <==> exists i: nat :: Stands(ops, i, code)
    ensures forall i: nat :: Stands(ops, i, code) ==>
              code in Queue(ops)
              && Queue(ops)[code] == OneShot.Item(Queued(ops[i].chat, ops[i].action), Deadline(ops[i]))
  {
    if ops != [] {
      var pre, op := Front(ops), Last(ops);
      assert ops == pre + [op];
      QueueIsStanding(pre, code);
      AfterAt(Queue(pre), op, code);
      forall i: nat
        ensures i < |pre| ==> (Stands(ops, i, code) <==>
                  Stands(pre, i, code) && LeavesStanding(op, code, pre[i].chat, Deadline(pre[i])))
        ensures i == |pre| ==> (Stands(ops, i, code) <==> op.Store? && op.issued == Some(code))
      {
        StandsStep(pre, op, i, code);
      }
      assert forall i: nat | Stands(ops, i, code) :: i <= |pre|;
      assert forall i: nat | Stands(pre, i, code) :: i < |pre|;
      hide After, LeavesStanding, Deadline, Stands;
      if op.Store? && op.issued == Some(code) {
        assert Stands(ops, |pre|, code);
      } else if code in Queue(pre) {
        var i: nat :| Stands(pre, i, code);
        assert Stands(ops, i, code) <==> code in Queue(ops);
      }
    }
  }

  /** Operation j comes from the chat and with the code of action a, which still stands and has not expired. */
  ghost predicate Redeems(ops: seq<Op>, j: nat, i: nat, action: nat, code: string, chat: int, now: int) {
    && i < j <= |ops| && code != "" && Stands(ops[..j], i, code)
    && ops[i].chat == chat && ops[i].action == action && now < Deadline(ops[i])
  }

  /**
    An action is run by exactly the confirmations that come from its chat with its code while it stands,
    before its deadline.
  */
  lemma RunIff(ops: seq<Op>, j: nat, action: nat)
    requires j < |ops|
    ensures ReplyAt(ops, j) == Some(Run(action)) <==>
              ops[j].Confirm? && exists i: nat :: Redeems(ops, j, i, action, ops[j].code, ops[j].chat, ops[j].now)
  {
    if ops[j].Confirm? {
      GrantedStands(ops, j, action, ops[j].code, ops[j].chat, ops[j].now);
    }
    hide Queue, Redeems, Granted;
  }

  /** It is cancelled, and not run, by exactly the cancellations of that kind. */
  lemma CancelledIff(ops: seq<Op>, j: nat, action: nat)
    requires j < |ops|
    ensures ReplyAt(ops, j) == Some(Cancelled(action)) <==>
              ops[j].Cancel? && exists i: nat :: Redeems(ops, j, i, action, ops[j].code, ops[j].chat, ops[j].now)
  {
    if ops[j].Cancel? {
      GrantedStands(ops, j, action, ops[j].code, ops[j].chat, ops[j].now);
    }
    hide Queue, Redeems, Granted;
  }

  /** Something stands under the code that has not expired. */
  ghost predicate Pends(ops: seq<Op>, j: nat, i: nat, code: string, now: int) {
    i < j <= |ops| && Stands(ops[..j], i, code) && now < Deadline(ops[i])
  }

  /** Why a command is refused: no code, another chat's code, or nothing that stands under it. */
  lemma RefusedIff(ops: seq<Op>, j: nat)
    requires j < |ops| && (ops[j].Confirm? || ops[j].Cancel?)
    ensures var code, chat, now := ops[j].code, ops[j].chat, ops[j].now;
            && (ReplyAt(ops, j) == Some(CodeRequired) <==> code == "")
            && (ReplyAt(ops, j) == Some(OtherChat) <==>
                  code != "" && exists i: nat :: Pends(ops, j, i, code, now) && ops[i].chat != chat)
            && (ReplyAt(ops, j) == Some(NotFound) <==> code != "" && !exists i: nat :: Pends(ops, j, i, code, now))
  {
    var pre, code := ops[..j], ops[j].code;
    QueueIsStanding(pre, code);
    assert forall i: nat | Stands(pre, i, code) :: i < j && pre[i] == ops[i];
    hide Queue, Stands, Deadline;
    if code in Queue(pre) {
      var i: nat :| Stands(pre, i, code);
      assert Pends(ops, j, i, code, ops[j].now) <==> ops[j].now < Deadline(ops[i]);
    }
  }

  lemma GrantedStands(ops: seq<Op>, j: nat, action: nat, code: string, chat: int, now: int)
    requires j <= |ops|
    ensures code != "" && Granted(Queue(ops[..j]), now, code, chat) == Some(Queued(chat, action))
            <==> exists i: nat :: Redeems(ops, j, i, action, code, chat, now)
    ensures Granted(Queue(ops[..j]), now, code, chat).Some? ==>
              Granted(Queue(ops[..j]), now, code, chat).value.chat == chat
  {
    var pre := ops[..j];
    QueueIsStanding(pre, code);
    assert forall i: nat | Stands(pre, i, code) :: i < j && pre[i] == ops[i];
    hide Queue, Stands, Deadline;
    if code != "" && Granted(Queue(pre), now, code, chat) == Some(Queued(chat, action)) {
      var i: nat :| Stands(pre, i, code);
      assert Redeems(ops, j, i, action, code, chat, now);
    }
  }
}
