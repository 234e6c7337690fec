/** The handler and the queue together: what any number of client retries can cause. */
module SendOnce {
  import opened Prelude
  import opened Outbound
  import SendReply

  datatype System = System(reply: SendReply.State, mail: Outbound.State)

  /** Calls of `send_reply` on one side, the queue and its workers on the other; a row the handler
      queues becomes an entry. */
  datatype Action = Client(call: SendReply.Step) | Mail(step: Step)

  const Start := System(SendReply.Init, Outbound.Init)

  ghost predicate Allowed(s: System, m: Action) {
    match m
    case Client(a) => SendReply.Enabled(s.reply, a)
    case Mail(a) => Enabled(s.mail, a) && !a.Enqueue?
  }

  /** The row the handler hands to the queue in this step. */
  function HandedOver(s: SendReply.State, a: SendReply.Step): Option<nat>
    requires SendReply.Enabled(s, a)
  {
    if a.Enqueue? && !a.answer.Lost? then Some(s.calls[a.call].stage.row) else None
  }

  ghost predicate Coupled(s: System) {
    && SendReply.Sound(s.reply) && Partitioned(s.mail) && ReceivesBounded(s.mail) && CallsCounted(s.mail)
    && s.mail.entries == s.reply.enqueued
    && forall m :: m in s.mail.messages ==> m in s.mail.entries
  }

  /** The queue with the row in it, if it can take one it has not had. */
  function Handed(s: Outbound.State, row: nat): Outbound.State {
    if Enabled(s, Enqueue(row)) then Next(s, Enqueue(row)) else s
  }

  ghost predicate Follows(s: System, m: Action, t: System)
    requires Allowed(s, m)
  {
    match m
    case Client(a) =>
      && t.reply == SendReply.Next(s.reply, a)
      && (match HandedOver(s.reply, a)
          case None => t.mail == s.mail
          case Some(row) => t.mail == Handed(s.mail, row))
    case Mail(a) => t.reply == s.reply && t.mail == Next(s.mail, a)
  }

  /** The queue can always take the row: it has never had it. */
  lemma HandoverIsFresh(s: System, a: SendReply.Step)
    requires Coupled(s) && SendReply.Enabled(s.reply, a) && HandedOver(s.reply, a).Some?
    ensures Enabled(s.mail, Enqueue(HandedOver(s.reply, a).value))
  {
    assert SendReply.CallSound(s.reply, a.call);
  }

  lemma MessagesOfEntries(s: State, a: Step)
    requires Partitioned(s) && Enabled(s, a) && forall m :: m in s.messages ==> m in s.entries
    ensures forall m :: m in Next(s, a).messages ==> m in Next(s, a).entries
  {
    var t := Next(s, a);
    forall m | m in t.messages ensures m in t.entries {
      if a.Enqueue? { assert t.entries[|s.entries|] == a.message; }
      if m in s.messages {
        var i :| 0 <= i < |s.entries| && s.entries[i] == m;
        assert t.entries[i] == m;
      }
    }
  }

  lemma MailKeeps(s: State, a: Step)
    requires Partitioned(s) && ReceivesBounded(s) && CallsCounted(s) && Enabled(s, a)
    ensures Partitioned(Next(s, a)) && ReceivesBounded(Next(s, a)) && CallsCounted(Next(s, a))
  {
    StepKeepsPartition(s, a);
    StepKeepsBound(s, a);
    StepKeepsCalls(s, a);
  }

  lemma MoveKeepsCoupled(s: System, m: Action, t: System)
    requires Coupled(s) && Allowed(s, m) && Follows(s, m, t)
    ensures Coupled(t)
  {
    match m {
      case Client(a) =>
        SendReply.StepKeepsSound(s.reply, a);
        if HandedOver(s.reply, a).Some? {
          HandoverIsFresh(s, a);
          MailKeeps(s.mail, Enqueue(HandedOver(s.reply, a).value));
          MessagesOfEntries(s.mail, Enqueue(HandedOver(s.reply, a).value));
        }
      case Mail(a) =>
        MailKeeps(s.mail, a);
        MessagesOfEntries(s.mail, a);
    }
  }

  ghost predicate IsSystemRun(states: seq<System>, moves: seq<Action>) {
    && |states| == |moves| + 1
    && forall i :: 0 <= i < |moves| ==> Allowed(states[i], moves[i]) && Follows(states[i], moves[i], states[i + 1])
  }

  lemma {:induction false} EveryReachableCoupled(states: seq<System>, moves: seq<Action>, i: nat)
    requires IsSystemRun(states, moves) && states[0] == Start && i < |states|
    ensures Coupled(states[i])
  {
    if i > 0 {
      EveryReachableCoupled(states, moves, i - 1);
      MoveKeepsCoupled(states[i - 1], moves[i - 1], states[i]);
    }
  }

  /** The message a provider call was for. */
  ghost predicate IsFor(s: System, c: Call, slot: SendReply.Slot) {
    && c.entry < |s.mail.entries| && s.mail.entries[c.entry] < |s.reply.rows|
    && s.reply.rows[s.mail.entries[c.entry]].slot == slot
  }

  ghost function CallsForSlot(s: System, slot: SendReply.Slot, n: nat): nat
    requires n <= |s.mail.calls|
  {
    if n == 0 then 0 else CallsForSlot(s, slot, n - 1) + (if IsFor(s, s.mail.calls[n - 1], slot) then 1 else 0)
  }

  lemma {:induction false} SlotHasOneEntry(s: System, slot: SendReply.Slot, n: nat, e: nat)
    requires n <= |s.mail.calls|
    requires forall i :: 0 <= i < n ==> (IsFor(s, s.mail.calls[i], slot) ==> s.mail.calls[i].entry == e)
    ensures CallsForSlot(s, slot, n) <= CallsFor(s.mail.calls[..n], e)
  {
    if n > 0 {
      SlotHasOneEntry(s, slot, n - 1, e);
      assert s.mail.calls[..n][..n - 1] == s.mail.calls[..n - 1];
    }
  }

  lemma {:induction false} NoCallNoCount(s: System, slot: SendReply.Slot, n: nat)
    requires n <= |s.mail.calls| && forall i :: 0 <= i < n ==> !IsFor(s, s.mail.calls[i], slot)
    ensures CallsForSlot(s, slot, n) == 0
  {
    if n > 0 { NoCallNoCount(s, slot, n - 1); }
  }

  /** However many times a client sends with one key, and whatever fails on the way, the provider
      is called at most five times for it. */
  lemma FiveCallsPerKey(states: seq<System>, moves: seq<Action>, i: nat, slot: SendReply.Slot)
    requires IsSystemRun(states, moves) && states[0] == Start && i < |states| && slot.key.Some?
    ensures CallsForSlot(states[i], slot, |states[i].mail.calls|) <= 5
  {
    EveryReachableCoupled(states, moves, i);
    var s := states[i];
    var calls := s.mail.calls;
    if k :| 0 <= k < |calls| && IsFor(s, calls[k], slot) {
      var e := calls[k].entry;
      forall j | 0 <= j < |calls| && IsFor(s, calls[j], slot) ensures calls[j].entry == e {
        SendReply.OneQueueEntryPerKey(s.reply, calls[j].entry, e);
      }
      SlotHasOneEntry(s, slot, |calls|, e);
      assert calls[..|calls|] == calls;
      CallsBounded(s.mail, e);
    } else {
      NoCallNoCount(s, slot, |calls|);
    }
  }
}
