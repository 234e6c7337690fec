/** What the dead-letter queue says about a message: when its status is `failed`, and when the
    provider never had it. Every condition is about one entry; the others may do as they like. */
module DeadLetters {
  import opened Prelude
  import opened Outbound
  import DeliveryStatus

  /** Delivery `d` is at work on entry `e`. */
  ghost predicate Works(s: State, d: nat, e: nat) { d in s.deliveries && s.deliveries[d].entry == e }

  ghost predicate Idle(s: State, e: nat) { forall d :: !Works(s, d, e) }

  /** The entry comes back only once its worker is done with it: the visibility timeout is long enough. */
  ghost predicate Timely(s: State, a: Step, e: nat) { a == Timeout(e) ==> Idle(s, e) }

  /** At most one worker at a time, holding the newest receive of a hidden entry. */
  ghost predicate Attended(s: State, e: nat) {
    && (forall d :: Works(s, d, e) ==>
        e in s.queued && e in s.hidden && e < |s.receives| && s.deliveries[d].count == s.receives[e])
    && (forall d, b :: Works(s, d, e) && Works(s, b, e) ==> d == b)
  }

  ghost predicate MessagesDistinct(s: State) {
    forall e, k :: 0 <= e < k < |s.entries| ==> s.entries[e] != s.entries[k]
  }

  lemma StepKeepsDistinct(s: State, a: Step)
    requires Partitioned(s) && MessagesDistinct(s) && Enabled(s, a)
    ensures MessagesDistinct(Next(s, a))
  {}

  /** The step that ends a delivery: a crash, a refused send recorded, or a delete. */
  ghost predicate Ends(s: State, a: Step, d: nat)
    requires Enabled(s, a)
  {
    a == Crash(d) || a == Delete(d) || (a == Record(d) && s.deliveries[d].stage.Refused?)
  }

  lemma WorksAfter(s: State, a: Step, d: nat, e: nat)
    requires Enabled(s, a)
    ensures Works(Next(s, a), d, e) <==> (Works(s, d, e) && !Ends(s, a, d)) || a == Receive(d, e)
    ensures Works(Next(s, a), d, e) && Works(s, d, e) ==> Next(s, a).deliveries[d].count == s.deliveries[d].count
  {}

  lemma StepKeepsAttended(s: State, a: Step, e: nat)
    requires Partitioned(s) && Attended(s, e) && Enabled(s, a) && Timely(s, a, e)
    ensures Attended(Next(s, a), e)
  {
    forall d
      ensures Works(Next(s, a), d, e) <==> (Works(s, d, e) && !Ends(s, a, d)) || a == Receive(d, e)
      ensures Works(Next(s, a), d, e) && Works(s, d, e) ==> Next(s, a).deliveries[d].count == s.deliveries[d].count
    {
      WorksAfter(s, a, d, e);
    }
    if a.Delete? && Works(s, a.delivery, e) { assert forall d :: Works(s, d, e) ==> d == a.delivery; }
  }

  // ===== when a dead letter's message is marked failed =====

  /** Past its last receive with nobody at work on it. */
  ghost predicate Over(s: State, e: nat) {
    e in s.dead || (e in s.queued && Idle(s, e) && e < |s.receives| && s.receives[e] >= MAX_RECEIVES)
  }

  ghost predicate Failed(s: State, e: nat)
    requires Partitioned(s) && e < |s.entries|
  {
    s.messages[s.entries[e]].status == "failed"
  }

  /** A worker dies holding the last receive of the entry. */
  ghost predicate LastCut(s: State, a: Step, e: nat) {
    a.Crash? && Works(s, a.delivery, e) && s.deliveries[a.delivery].count >= MAX_RECEIVES
  }

  /** A provider status comes in for the entry's message. */
  ghost predicate Touches(s: State, a: Step, e: nat) { a.Webhook? && e < |s.entries| && a.message == s.entries[e] }

  /** The status once the last receive is over, and before. */
  ghost predicate Marked(s: State, e: nat, cut: bool)
    requires Partitioned(s) && e < |s.entries|
  {
    && (Over(s, e) ==> (Failed(s, e) <==> !cut))
    && (e in s.queued && !Over(s, e) ==> !cut && !Failed(s, e))
  }

  lemma RecordMarks(s: State, d: nat, e: nat, cut: bool)
    requires Partitioned(s) && MessagesDistinct(s) && Attended(s, e) && e < |s.entries|
    requires Enabled(s, Record(d)) && Marked(s, e, cut)
    ensures Partitioned(Next(s, Record(d))) && Marked(Next(s, Record(d)), e, cut)
  {
    var t := Next(s, Record(d));
    StepKeepsPartition(s, Record(d));
    forall b ensures Works(t, b, e) <==> Works(s, b, e) && !Ends(s, Record(d), b) { WorksAfter(s, Record(d), b, e); }
    var worked := s.deliveries[d].entry;
    if worked == e {
      assert Works(s, d, e);
      if s.deliveries[d].stage.Accepted? { assert Works(t, d, e); }
    } else {
      assert s.entries[worked] != s.entries[e];
      assert Idle(t, e) <==> Idle(s, e);
    }
  }

  lemma StepMarks(s: State, a: Step, e: nat, cut: bool)
    requires Partitioned(s) && MessagesDistinct(s) && Attended(s, e) && e < |s.entries|
    requires Enabled(s, a) && Timely(s, a, e) && !Touches(s, a, e) && Marked(s, e, cut)
    ensures Partitioned(Next(s, a)) && Marked(Next(s, a), e, cut || LastCut(s, a, e))
  {
    var t := Next(s, a);
    StepKeepsPartition(s, a);
    if a.Record? {
      RecordMarks(s, a.delivery, e, cut);
    } else {
      forall d ensures Works(t, d, e) <==> (Works(s, d, e) && !Ends(s, a, d)) || a == Receive(d, e) {
        WorksAfter(s, a, d, e);
      }
      if a.Crash? && Works(s, a.delivery, e) {
        assert !Idle(s, e);
      } else if a.Delete? && Works(s, a.delivery, e) {
        assert e in s.queued;
      } else if a.Receive? && a.entry == e {
        assert Works(t, a.delivery, e);
      } else {
        assert Idle(t, e) <==> Idle(s, e);
      }
    }
  }

  /** Some step of the run so far was such a crash. */
  ghost predicate CutBefore(states: seq<State>, steps: seq<Step>, i: nat, e: nat)
    requires IsRun(states, steps) && i < |states|
  {
    exists k :: 0 <= k < i && LastCut(states[k], steps[k], e)
  }

  lemma CutSnoc(states: seq<State>, steps: seq<Step>, i: nat, e: nat)
    requires IsRun(states, steps) && 0 < i < |states|
    ensures CutBefore(states, steps, i, e) <==>
        CutBefore(states, steps, i - 1, e) || LastCut(states[i - 1], steps[i - 1], e)
  {}

  lemma {:induction false} EveryReachableAttended(states: seq<State>, steps: seq<Step>, i: nat, e: nat)
    requires IsRun(states, steps) && states[0] == Init && i < |states|
    requires forall k :: 0 <= k < i ==> Timely(states[k], steps[k], e)
    ensures Partitioned(states[i]) && MessagesDistinct(states[i]) && Attended(states[i], e)
  {
    if i > 0 {
      EveryReachableAttended(states, steps, i - 1, e);
      StepKeepsPartition(states[i - 1], steps[i - 1]);
      StepKeepsDistinct(states[i - 1], steps[i - 1]);
      StepKeepsAttended(states[i - 1], steps[i - 1], e);
    }
  }

  /** Nobody works on an entry that is not there yet. */
  lemma NewEntryMarked(s: State, m: nat)
    requires Partitioned(s) && Enabled(s, Enqueue(m))
    ensures Partitioned(Next(s, Enqueue(m))) && Marked(Next(s, Enqueue(m)), |s.entries|, false)
  {
    StepKeepsPartition(s, Enqueue(m));
    assert Next(s, Enqueue(m)).receives[|s.entries|] == 0;
  }

  lemma {:induction false} NoCutBeforeEntry(states: seq<State>, steps: seq<Step>, i: nat, e: nat)
    requires IsRun(states, steps) && states[0] == Init && i < |states| && e >= |states[i].entries|
    requires forall k :: 0 <= k < i ==> Timely(states[k], steps[k], e)
    ensures !CutBefore(states, steps, i, e)
  {
    if i > 0 {
      assert |states[i].entries| >= |states[i - 1].entries|;
      NoCutBeforeEntry(states, steps, i - 1, e);
      EveryReachableAttended(states, steps, i - 1, e);
    }
  }

  /** The entry appears in this step, so nobody has worked on it. */
  lemma MarkedFirst(states: seq<State>, steps: seq<Step>, i: nat, e: nat)
    requires IsRun(states, steps) && states[0] == Init && 0 < i < |states|
    requires |states[i - 1].entries| <= e < |states[i].entries|
    requires forall k :: 0 <= k < i ==> Timely(states[k], steps[k], e)
    ensures Partitioned(states[i]) && Marked(states[i], e, false) && !CutBefore(states, steps, i - 1, e)
    ensures !LastCut(states[i - 1], steps[i - 1], e)
  {
    EveryReachableAttended(states, steps, i - 1, e);
    NoCutBeforeEntry(states, steps, i - 1, e);
    NewEntryMarked(states[i - 1], steps[i - 1].message);
  }

  lemma {:induction false} MarkedThroughout(states: seq<State>, steps: seq<Step>, i: nat, e: nat)
    requires IsRun(states, steps) && states[0] == Init && i < |states| && e < |states[i].entries|
    requires forall k :: 0 <= k < i ==> Timely(states[k], steps[k], e) && !Touches(states[k], steps[k], e)
    ensures Partitioned(states[i]) && Marked(states[i], e, CutBefore(states, steps, i, e))
  {
    if i > 0 {
      CutSnoc(states, steps, i, e);
      if e < |states[i - 1].entries| {
        EveryReachableAttended(states, steps, i - 1, e);
        MarkedThroughout(states, steps, i - 1, e);
        StepMarks(states[i - 1], steps[i - 1], e, CutBefore(states, steps, i - 1, e));
      } else {
        MarkedFirst(states, steps, i, e);
      }
    }
  }

  /** If the entry never comes back under its worker, a dead letter's message is marked failed
      exactly when no worker died holding its last receive; whatever crashed before that, and
      whatever happened to other entries, makes no difference. */
  lemma DeadFailedIff(states: seq<State>, steps: seq<Step>, i: nat, e: nat)
    requires IsRun(states, steps) && states[0] == Init && i < |states| && e in states[i].dead
    requires forall k :: 0 <= k < i ==> Timely(states[k], steps[k], e) && !Touches(states[k], steps[k], e)
    ensures Partitioned(states[i]) && e < |states[i].entries|
    ensures Failed(states[i], e) <==> !CutBefore(states, steps, i, e)
  {
    EveryReachableAttended(states, steps, i, e);
    MarkedThroughout(states, steps, i, e);
  }

  // ===== when the provider never had it =====

  /** A worker dies after the provider took the entry and before deleting it. */
  ghost predicate Spills(s: State, a: Step, e: nat) {
    && a.Crash? && Works(s, a.delivery, e) && e in s.accepted
    && (s.deliveries[a.delivery].stage.Accepted? || s.deliveries[a.delivery].stage.Resolved?)
  }

  /** Deleted, or with a worker that will delete it. */
  ghost predicate Settled(s: State, e: nat) {
    e in s.deleted || exists d :: Works(s, d, e) && (s.deliveries[d].stage.Accepted? || s.deliveries[d].stage.Resolved?)
  }

  /** Without a spill the provider has the entry at most once, and then it is settled. */
  ghost predicate TakenOnce(s: State, e: nat, spilled: bool) {
    if spilled then e in s.accepted else s.accepted[e] <= 1 && (e in s.accepted ==> Settled(s, e))
  }

  lemma SendTakes(s: State, d: nat, answer: Option<string>, e: nat, spilled: bool)
    requires Partitioned(s) && Attended(s, e) && Enabled(s, Send(d, answer)) && TakenOnce(s, e, spilled)
    ensures TakenOnce(Next(s, Send(d, answer)), e, spilled)
  {
    var t := Next(s, Send(d, answer));
    if Works(s, d, e) {
      assert Works(t, d, e);
      assert !Settled(s, e) by {
        assert forall b :: Works(s, b, e) ==> b == d;
      }
    } else if Settled(s, e) && e !in s.deleted {
      var b :| Works(s, b, e) && (s.deliveries[b].stage.Accepted? || s.deliveries[b].stage.Resolved?);
      assert Works(t, b, e);
    }
  }

  lemma StepTakes(s: State, a: Step, e: nat, spilled: bool)
    requires Partitioned(s) && Attended(s, e) && Enabled(s, a) && TakenOnce(s, e, spilled)
    ensures TakenOnce(Next(s, a), e, spilled || Spills(s, a, e))
  {
    var t := Next(s, a);
    if a.Send? {
      SendTakes(s, a.delivery, a.externalId, e, spilled);
    } else if !spilled && !Spills(s, a, e) && e in s.accepted && e !in s.deleted {
      var d :| Works(s, d, e) && (s.deliveries[d].stage.Accepted? || s.deliveries[d].stage.Resolved?);
      WorksAfter(s, a, d, e);
      assert a != Delete(d) ==> Works(t, d, e);
    }
  }

  ghost predicate SpiltBefore(states: seq<State>, steps: seq<Step>, i: nat, e: nat)
    requires IsRun(states, steps) && i < |states|
  {
    exists k :: 0 <= k < i && Spills(states[k], steps[k], e)
  }

  lemma SpiltSnoc(states: seq<State>, steps: seq<Step>, i: nat, e: nat)
    requires IsRun(states, steps) && 0 < i < |states|
    ensures SpiltBefore(states, steps, i, e) <==>
        SpiltBefore(states, steps, i - 1, e) || Spills(states[i - 1], steps[i - 1], e)
  {}

  lemma {:induction false} TakenThroughout(states: seq<State>, steps: seq<Step>, i: nat, e: nat)
    requires IsRun(states, steps) && states[0] == Init && i < |states|
    requires forall k :: 0 <= k < i ==> Timely(states[k], steps[k], e)
    ensures TakenOnce(states[i], e, SpiltBefore(states, steps, i, e))
  {
    if i > 0 {
      TakenThroughout(states, steps, i - 1, e);
      EveryReachableAttended(states, steps, i - 1, e);
      SpiltSnoc(states, steps, i, e);
      StepTakes(states[i - 1], steps[i - 1], e, SpiltBefore(states, steps, i - 1, e));
    }
  }

  /** The provider takes an entry at most once as long as no worker dies between its acceptance
      and the delete. */
  lemma AcceptedOnce(states: seq<State>, steps: seq<Step>, i: nat, e: nat)
    requires IsRun(states, steps) && states[0] == Init && i < |states|
    requires forall k :: 0 <= k < i ==> Timely(states[k], steps[k], e) && !Spills(states[k], steps[k], e)
    ensures states[i].accepted[e] <= 1
  {
    TakenThroughout(states, steps, i, e);
  }

  /** A dead letter was never accepted exactly when no worker died so. */
  lemma NeverAcceptedIff(states: seq<State>, steps: seq<Step>, i: nat, e: nat)
    requires IsRun(states, steps) && states[0] == Init && i < |states| && e in states[i].dead
    requires forall k :: 0 <= k < i ==> Timely(states[k], steps[k], e)
    ensures e !in states[i].accepted <==> !SpiltBefore(states, steps, i, e)
  {
    TakenThroughout(states, steps, i, e);
    EveryReachableAttended(states, steps, i, e);
  }

  // ===== both, where the worker dies only before the provider answers =====

  lemma {:induction false} IdStays(states: seq<State>, steps: seq<Step>, k: nat, i: nat, m: nat)
    requires IsRun(states, steps) && k <= i < |states|
    requires m in states[k].messages && states[k].messages[m].externalId.Some?
    ensures m in states[i].messages && states[i].messages[m].externalId.Some?
  {
    if k < i { IdStays(states, steps, k, i - 1, m); }
  }

  lemma {:induction false} EntriesStay(states: seq<State>, steps: seq<Step>, k: nat, i: nat, e: nat)
    requires IsRun(states, steps) && k <= i < |states| && e < |states[k].entries|
    ensures e < |states[i].entries| && states[i].entries[e] == states[k].entries[e]
  {
    if k < i { EntriesStay(states, steps, k, i - 1, e); }
  }

  /** A provider status comes in only for a message the provider took. */
  lemma TouchedWasAccepted(states: seq<State>, steps: seq<Step>, i: nat, e: nat, k: nat)
    requires IsRun(states, steps) && states[0] == Init && k < i < |states| && Touches(states[k], steps[k], e)
    ensures e in states[i].accepted
  {
    var m := states[k].entries[e];
    IdStays(states, steps, k, i, m);
    EntriesStay(states, steps, k, i, e);
    NothingDropped(states, steps, i, e);
    EveryReachableDistinct(states, steps, i);
    assert Taken(states[i], m);
  }

  lemma {:induction false} EveryReachableDistinct(states: seq<State>, steps: seq<Step>, i: nat)
    requires IsRun(states, steps) && states[0] == Init && i < |states|
    ensures Partitioned(states[i]) && MessagesDistinct(states[i])
  {
    if i > 0 {
      EveryReachableDistinct(states, steps, i - 1);
      StepKeepsPartition(states[i - 1], steps[i - 1]);
      StepKeepsDistinct(states[i - 1], steps[i - 1]);
    }
  }

  /** With provider statuses coming in freely: as long as workers die only before the provider
      accepts, a dead letter is marked failed exactly when none died on the last receive. */
  lemma DeadFailedUnaccepted(states: seq<State>, steps: seq<Step>, i: nat, e: nat)
    requires IsRun(states, steps) && states[0] == Init && i < |states| && e in states[i].dead
    requires forall k :: 0 <= k < i ==> Timely(states[k], steps[k], e) && !Spills(states[k], steps[k], e)
    ensures Partitioned(states[i]) && e < |states[i].entries| && e !in states[i].accepted
    ensures Failed(states[i], e) <==> !CutBefore(states, steps, i, e)
  {
    NeverAcceptedIff(states, steps, i, e);
    forall k | 0 <= k < i ensures !Touches(states[k], steps[k], e) {
      if Touches(states[k], steps[k], e) { TouchedWasAccepted(states, steps, i, e, k); }
    }
    DeadFailedIff(states, steps, i, e);
  }

  /** When the only failures are the adapter's errors, whatever is in the dead-letter queue has
      its message marked failed: the worker's threshold and the queue's agree. */
  lemma DeadMeansFailed(states: seq<State>, steps: seq<Step>, i: nat, e: nat)
    requires IsRun(states, steps) && states[0] == Init && i < |states| && e in states[i].dead
    requires forall k :: 0 <= k < i ==>
      Timely(states[k], steps[k], e) && !(steps[k].Crash? && Works(states[k], steps[k].delivery, e))
    ensures Partitioned(states[i]) && e < |states[i].entries| && Failed(states[i], e) && e !in states[i].accepted
  {
    DeadFailedUnaccepted(states, steps, i, e);
  }

  // ===== a send recorded on a message the provider already had =====

  /** Once a message has its provider id and nothing spilled, its entry is deleted or about to be. */
  ghost predicate IdSettled(s: State, e: nat) {
    && e < |s.entries| && s.entries[e] in s.messages && s.messages[s.entries[e]].externalId.Some? ==>
       e in s.deleted || exists d :: Works(s, d, e) && s.deliveries[d].stage.Resolved?
  }

  lemma IdOnlyByRecord(s: State, a: Step, e: nat)
    requires Partitioned(s) && MessagesDistinct(s) && Enabled(s, a) && e < |Next(s, a).entries|
    requires Next(s, a).entries[e] in Next(s, a).messages && Next(s, a).messages[Next(s, a).entries[e]].externalId.Some?
    ensures e < |s.entries| && s.entries[e] in s.messages
    ensures s.messages[s.entries[e]].externalId.None? ==>
        a.Record? && Works(s, a.delivery, e) && s.deliveries[a.delivery].stage.Accepted?
  {
    if a.Record? && !Works(s, a.delivery, e) && e < |s.entries| {
      assert s.entries[s.deliveries[a.delivery].entry] != s.entries[e];
    }
  }

  lemma StepSettlesId(s: State, a: Step, e: nat)
    requires Partitioned(s) && MessagesDistinct(s) && Attended(s, e) && DeletedForCause(s) && Enabled(s, a)
    requires IdSettled(s, e) && !Spills(s, a, e)
    ensures IdSettled(Next(s, a), e)
  {
    var t := Next(s, a);
    if e < |t.entries| && t.entries[e] in t.messages && t.messages[t.entries[e]].externalId.Some? {
      IdOnlyByRecord(s, a, e);
      if s.messages[s.entries[e]].externalId.None? {
        assert Works(t, a.delivery, e);
      } else if e !in s.deleted {
        var d :| Works(s, d, e) && s.deliveries[d].stage.Resolved?;
        assert Taken(s, s.entries[e]);
        WorksAfter(s, a, d, e);
        assert a != Delete(d) ==> Works(t, d, e);
      }
    }
  }

  lemma {:induction false} IdSettledThroughout(states: seq<State>, steps: seq<Step>, i: nat, e: nat)
    requires IsRun(states, steps) && states[0] == Init && i < |states|
    requires forall k :: 0 <= k < i ==> Timely(states[k], steps[k], e) && !Spills(states[k], steps[k], e)
    ensures IdSettled(states[i], e)
  {
    if i > 0 {
      IdSettledThroughout(states, steps, i - 1, e);
      EveryReachableAttended(states, steps, i - 1, e);
      NothingDropped(states, steps, i - 1, e);
      StepSettlesId(states[i - 1], steps[i - 1], e);
    }
  }

  /** A rank above "sent" only ever comes from the provider, so the message has its id. */
  ghost predicate RankedHaveIds(s: State) {
    forall m :: m in s.messages && DeliveryStatus.Rank(s.messages[m].status) > DeliveryStatus.Rank("sent") ==>
      s.messages[m].externalId.Some?
  }

  lemma StepKeepsRanked(s: State, a: Step, m: nat)
    requires RankedHaveIds(s) && Enabled(s, a) && m in Next(s, a).messages
    ensures DeliveryStatus.Rank(Next(s, a).messages[m].status) > DeliveryStatus.Rank("sent") ==>
      Next(s, a).messages[m].externalId.Some?
  {
    if a.Enqueue? && a.message == m { assert Next(s, a).messages[m].status == "queued"; }
  }

  lemma {:induction false} EveryReachableRanked(states: seq<State>, steps: seq<Step>, i: nat)
    requires IsRun(states, steps) && states[0] == Init && i < |states|
    ensures RankedHaveIds(states[i])
  {
    if i > 0 {
      EveryReachableRanked(states, steps, i - 1);
      var t := states[i];
      forall m | m in t.messages && DeliveryStatus.Rank(t.messages[m].status) > DeliveryStatus.Rank("sent")
        ensures t.messages[m].externalId.Some?
      {
        StepKeepsRanked(states[i - 1], steps[i - 1], m);
      }
    }
  }

  /** So a re-send takes a message from delivered or read back to sent only after a spill: a worker
      that died between the provider's acceptance and the delete. */
  lemma ResendFallsAfterSpill(states: seq<State>, steps: seq<Step>, i: nat, e: nat)
    requires IsRun(states, steps) && states[0] == Init && i < |steps|
    requires forall k :: 0 <= k < i ==> Timely(states[k], steps[k], e)
    requires e < |states[i].entries| && states[i].entries[e] in states[i].messages
    requires Records(states[i], steps[i], states[i].entries[e], true)
    requires DeliveryStatus.Rank(states[i].messages[states[i].entries[e]].status) > DeliveryStatus.Rank("sent")
    ensures SpiltBefore(states, steps, i, e)
  {
    var s, d := states[i], steps[i].delivery;
    EveryReachableAttended(states, steps, i, e);
    EveryReachableRanked(states, steps, i);
    RecordedEntry(s, d, e);
    NotYetSettled(s, d, e);
    if !SpiltBefore(states, steps, i, e) { IdSettledThroughout(states, steps, i, e); }
  }

  lemma NotYetSettled(s: State, d: nat, e: nat)
    requires Partitioned(s) && Attended(s, e) && Works(s, d, e) && s.deliveries[d].stage.Accepted?
    ensures e !in s.deleted && forall b :: Works(s, b, e) ==> !s.deliveries[b].stage.Resolved?
  {
    forall b | Works(s, b, e) ensures b == d {}
  }

  lemma RecordedEntry(s: State, d: nat, e: nat)
    requires Partitioned(s) && MessagesDistinct(s) && Enabled(s, Record(d)) && e < |s.entries|
    requires s.entries[s.deliveries[d].entry] == s.entries[e]
    ensures Works(s, d, e)
  {}

  // ===== what each condition is for =====

  /** A state with one entry, about message 0. */
  datatype View = View(receives: nat, hidden: bool, dead: bool, deliveries: map<nat, Delivery>, message: Message,
      taken: nat)

  ghost predicate Shows(s: State, v: View) {
    && s.entries == [0] && s.receives == [v.receives] && s.messages == map[0 := v.message]
    && s.deliveries == v.deliveries
    && s.queued == (if v.dead then {} else {0}) && s.dead == (if v.dead then {0} else {})
    && s.hidden == (if v.hidden then {0} else {}) && s.deleted == {}
    && s.accepted[0] == v.taken && (forall d :: d in v.deliveries ==> v.deliveries[d].entry == 0)
  }

  function Ended(v: View, d: nat): View { v.(deliveries := v.deliveries - {d}) }

  function Staged(v: View, d: nat, stage: Stage): View
    requires d in v.deliveries
  {
    v.(deliveries := v.deliveries[d := v.deliveries[d].(stage := stage)])
  }

  function ViewNext(v: View, a: Step): Option<View> {
    match a
    case Receive(d, e) =>
      if e != 0 || d in v.deliveries || v.hidden || v.dead || v.receives >= MAX_RECEIVES then None
      else
        var held := v.deliveries[d := Delivery(0, v.receives + 1, Held)];
        Some(v.(receives := v.receives + 1, hidden := true, deliveries := held))
    case Send(d, answer) =>
      if d !in v.deliveries || !v.deliveries[d].stage.Held? then None
      else if answer.None? then Some(Staged(v, d, Refused))
      else Some(Staged(v, d, Accepted(answer.value)).(taken := v.taken + 1))
    case Record(d) =>
      if d !in v.deliveries then None
      else
        var kept := v.(message := Recorded(v.message, v.deliveries[d].count, v.deliveries[d].stage));
        if v.deliveries[d].stage.Refused? then Some(Ended(kept, d))
        else if v.deliveries[d].stage.Accepted? then Some(Staged(kept, d, Resolved))
        else None
    case Crash(d) => if d in v.deliveries then Some(Ended(v, d)) else None
    case Timeout(e) => if e == 0 && v.hidden then Some(v.(hidden := false)) else None
    case Redrive(e) =>
      if e == 0 && !v.hidden && !v.dead && v.receives >= MAX_RECEIVES then Some(v.(dead := true)) else None
    case _ => None
  }

  lemma ViewFollows(s: State, v: View, a: Step)
    requires Shows(s, v) && ViewNext(v, a).Some?
    ensures Enabled(s, a) && Shows(Next(s, a), ViewNext(v, a).value)
  {
    match a {
      case Receive(_, _) => ViewFollowsReceive(s, v, a);
      case Timeout(_) => ViewFollowsQueue(s, v, a);
      case Redrive(_) => ViewFollowsQueue(s, v, a);
      case Record(_) => ViewFollowsRecord(s, v, a);
      case _ => ViewFollowsWorker(s, v, a);
    }
  }

  lemma ViewFollowsReceive(s: State, v: View, a: Step)
    requires a.Receive? && Shows(s, v) && ViewNext(v, a).Some?
    ensures Enabled(s, a) && Shows(Next(s, a), ViewNext(v, a).value)
  {}

  lemma ViewFollowsQueue(s: State, v: View, a: Step)
    requires (a.Timeout? || a.Redrive?) && Shows(s, v) && ViewNext(v, a).Some?
    ensures Enabled(s, a) && Shows(Next(s, a), ViewNext(v, a).value)
  {}

  lemma ViewFollowsWorker(s: State, v: View, a: Step)
    requires (a.Send? || a.Crash?) && Shows(s, v) && ViewNext(v, a).Some?
    ensures Enabled(s, a) && Shows(Next(s, a), ViewNext(v, a).value)
  {}

  lemma ViewFollowsRecord(s: State, v: View, a: Step)
    requires a.Record? && Shows(s, v) && ViewNext(v, a).Some?
    ensures Enabled(s, a) && Shows(Next(s, a), ViewNext(v, a).value)
  {}

  function Fresh(n: nat): View { View(n, false, false, map[], Message("queued", None), 0) }

  /** The views of a run that begins by queueing message 0. */
  function Play(steps: seq<Step>): Option<View> {
    if steps == [] then Some(Fresh(0))
    else
      var before := Play(steps[..|steps| - 1]);
      if before.None? then None else ViewNext(before.value, steps[|steps| - 1])
  }

  lemma Then(steps: seq<Step>, v: View, a: Step) returns (more: seq<Step>, w: View)
    requires Play(steps) == Some(v) && ViewNext(v, a).Some?
    ensures more == steps + [a] && Some(w) == ViewNext(v, a) && Play(more) == Some(w)
  {
    more, w := steps + [a], ViewNext(v, a).value;
    assert more[..|steps|] == steps;
  }

  /** The run itself. */
  lemma {:induction false} RunOf(steps: seq<Step>, v: View) returns (states: seq<State>)
    requires Play(steps) == Some(v)
    ensures IsRun(states, [Enqueue(0)] + steps) && states[0] == Init && Shows(states[|steps| + 1], v)
  {
    if steps == [] {
      states := [Init, Next(Init, Enqueue(0))];
    } else {
      var front, a := steps[..|steps| - 1], steps[|steps| - 1];
      states := RunOf(front, Play(front).value);
      var s := states[|states| - 1];
      ViewFollows(s, Play(front).value, a);
      RunOn(states, [Enqueue(0)] + front, a);
      assert [Enqueue(0)] + steps == [Enqueue(0)] + front + [a];
      states := states + [Next(s, a)];
    }
  }

  lemma RunOn(states: seq<State>, steps: seq<Step>, a: Step)
    requires IsRun(states, steps) && Enabled(states[|steps|], a)
    ensures IsRun(states + [Next(states[|steps|], a)], steps + [a])
  {}

  ghost predicate Crashless(steps: seq<Step>) { forall k :: 0 <= k < |steps| ==> !steps[k].Crash? }

  /** A receive that the adapter refuses. */
  lemma RefusedReceive(steps: seq<Step>, v: View, d: nat) returns (more: seq<Step>, w: View)
    requires Play(steps) == Some(v) && !v.hidden && !v.dead && d !in v.deliveries && v.receives < MAX_RECEIVES
    ensures Play(more) == Some(w) && more == steps + [Receive(d, 0)] + [Send(d, None)] + [Record(d)]
    ensures w == v.(receives := v.receives + 1, hidden := true, message := Recorded(v.message, v.receives + 1, Refused))
  {
    var held, refused;
    more, held := Then(steps, v, Receive(d, 0));
    more, refused := Then(more, held, Send(d, None));
    more, w := Then(more, refused, Record(d));
    assert w.deliveries == v.deliveries;
  }

  /** `n` receives, each refused and each timing out in its turn. */
  lemma {:induction false} Refusals(n: nat) returns (steps: seq<Step>)
    requires n < MAX_RECEIVES
    ensures Play(steps) == Some(Fresh(n)) && Crashless(steps)
  {
    if n == 0 {
      steps := [];
    } else {
      var v := Fresh(n - 1);
      steps := Refusals(n - 1);
      steps, v := RefusedReceive(steps, v, 7);
      steps, v := Then(steps, v, Timeout(0));
    }
  }

  /** The last receive refused, and the entry buried. */
  lemma Burial(steps: seq<Step>, v: View) returns (more: seq<Step>, w: View)
    requires Play(steps) == Some(v)
    requires v.receives == MAX_RECEIVES - 1 && !v.hidden && !v.dead && 9 !in v.deliveries
    ensures Play(more) == Some(w) && (Crashless(steps) ==> Crashless(more))
    ensures w == v.(receives := MAX_RECEIVES, dead := true, message := v.message.(status := "failed"))
  {
    more, w := RefusedReceive(steps, v, 9);
    more, w := Then(more, w, Timeout(0));
    more, w := Then(more, w, Redrive(0));
  }

  /** A worker that dies on the last receive: a dead letter whose message is still queued. */
  lemma CutOnLastReceive() returns (states: seq<State>, steps: seq<Step>)
    ensures IsRun(states, steps) && states[0] == Init
    ensures states[|steps|].dead == {0} && states[|steps|].messages == map[0 := Message("queued", None)]
  {
    steps := Refusals(MAX_RECEIVES - 1);
    var v := Fresh(MAX_RECEIVES - 1);
    steps, v := Then(steps, v, Receive(9, 0));
    steps, v := Then(steps, v, Crash(9));
    steps, v := Then(steps, v, Timeout(0));
    steps, v := Then(steps, v, Redrive(0));
    states := RunOf(steps, v);
    steps := [Enqueue(0)] + steps;
  }

  /** An entry that comes back under a worker still sending: the last receive is refused and the
      entry buried as failed, then the slow worker's send is accepted. No worker crashed. */
  lemma EarlyTimeout() returns (states: seq<State>, steps: seq<Step>)
    ensures IsRun(states, steps) && states[0] == Init && Crashless(steps)
    ensures states[|steps|].dead == {0} && states[|steps|].messages == map[0 := Message("sent", Some("id"))]
  {
    steps := Refusals(MAX_RECEIVES - 2);
    var v := Fresh(MAX_RECEIVES - 2);
    steps, v := Then(steps, v, Receive(8, 0));
    steps, v := Then(steps, v, Timeout(0));
    steps, v := Burial(steps, v);
    steps, v := Then(steps, v, Send(8, Some("id")));
    steps, v := Then(steps, v, Record(8));
    states := RunOf(steps, v);
    steps := [Enqueue(0)] + steps;
  }

  /** A worker that dies after the provider accepted: the message is delivered, and in the end
      buried as failed. */
  lemma FailedButDelivered() returns (states: seq<State>, steps: seq<Step>)
    ensures IsRun(states, steps) && states[0] == Init
    ensures states[|steps|].dead == {0} && states[|steps|].messages == map[0 := Message("failed", None)]
    ensures 0 in states[|steps|].accepted
  {
    steps := Refusals(MAX_RECEIVES - 2);
    var v := Fresh(MAX_RECEIVES - 2);
    steps, v := Then(steps, v, Receive(8, 0));
    steps, v := Then(steps, v, Send(8, Some("id")));
    steps, v := Then(steps, v, Crash(8));
    steps, v := Then(steps, v, Timeout(0));
    steps, v := Burial(steps, v);
    states := RunOf(steps, v);
    steps := [Enqueue(0)] + steps;
  }
}
