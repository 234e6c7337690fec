/** The outbound queue and the workers that call the provider: at-least-once delivery with a
    bounded number of receives and a dead-letter queue behind it. */
module Outbound {
  import opened Prelude
  import DeliveryStatus

  const MAX_RECEIVES: nat := 5

  /** A message row, as far as sending it goes. The provider's id is unknown until it accepts. */
  datatype Message = Message(status: string, externalId: Option<string>)

  /** How far a worker has come with one received copy. */
  datatype Stage = Held | Accepted(externalId: string) | Refused | Resolved

  datatype Delivery = Delivery(entry: nat, count: nat, stage: Stage)

  /** One call to the provider: for which entry, at which of its receives. */
  datatype Call = Call(entry: nat, count: nat)

  datatype State = State(
    entries: seq<nat>,               // the message each entry is about
    receives: seq<nat>,
    queued: set<nat>,
    deleted: set<nat>,
    dead: set<nat>,
    hidden: set<nat>,                // queued, but within a visibility timeout
    deliveries: map<nat, Delivery>,
    messages: map<nat, Message>,
    calls: seq<Call>,
    accepted: multiset<nat>,         // entries the provider has taken, once a time it did
    excused: set<nat>)               // entries found to have no message or context left

  const Init := State([], [], {}, {}, {}, {}, map[], map[], [], multiset{}, {})

  datatype Step =
    | Enqueue(message: nat)
    | Receive(delivery: nat, entry: nat)
    | NoContext(delivery: nat)                                // no message, conversation, identity or connection
    | Send(delivery: nat, externalId: Option<string>)         // None: the adapter's error
    | Record(delivery: nat)
    | Delete(delivery: nat)
    | Crash(delivery: nat)
    | Timeout(entry: nat)
    | Redrive(entry: nat)
    | Webhook(message: nat, status: string)

  predicate At(s: State, d: nat, stage: Stage) { d in s.deliveries && s.deliveries[d].stage == stage }

  predicate Known(s: State, d: nat) { d in s.deliveries && s.deliveries[d].entry < |s.entries| }

  predicate Enabled(s: State, a: Step) {
    match a
    case Enqueue(m) => m !in s.messages
    case Receive(d, e) => d !in s.deliveries && e in s.queued && e !in s.hidden && e < |s.receives| &&
        s.receives[e] < MAX_RECEIVES
    case NoContext(d) => At(s, d, Held)
    case Send(d, _) => At(s, d, Held)
    case Record(d) => Known(s, d) && s.entries[s.deliveries[d].entry] in s.messages &&
        (s.deliveries[d].stage.Accepted? || s.deliveries[d].stage.Refused?)
    case Delete(d) => At(s, d, Resolved)
    case Crash(d) => d in s.deliveries
    case Timeout(e) => e in s.hidden
    case Redrive(e) => e in s.queued && e !in s.hidden && e < |s.receives| && s.receives[e] >= MAX_RECEIVES
    case Webhook(m, _) => m in s.messages && s.messages[m].externalId.Some?
  }

  function Move(s: State, d: nat, stage: Stage): State
    requires d in s.deliveries
  {
    s.(deliveries := s.deliveries[d := s.deliveries[d].(stage := stage)])
  }

  /** What the outcome of a send leaves in the row. */
  function Recorded(m: Message, count: nat, stage: Stage): Message {
    match stage
    case Accepted(id) => Message("sent", Some(id))
    case Refused => if count >= MAX_RECEIVES then m.(status := "failed") else m
    case _ => m
  }

  function Next(s: State, a: Step): State
    requires Enabled(s, a)
  {
    match a
    case Enqueue(m) =>
      s.(entries := s.entries + [m], receives := s.receives + [0], queued := s.queued + {|s.entries|},
         messages := s.messages[m := Message("queued", None)])
    case Receive(d, e) =>
      s.(receives := s.receives[e := s.receives[e] + 1], hidden := s.hidden + {e},
         deliveries := s.deliveries[d := Delivery(e, s.receives[e] + 1, Held)])
    case NoContext(d) => Move(s.(excused := s.excused + {s.deliveries[d].entry}), d, Resolved)
    case Send(d, answer) =>
      var e := s.deliveries[d].entry;
      var called := s.(calls := s.calls + [Call(e, s.deliveries[d].count)],
                       accepted := if answer.Some? then s.accepted + multiset{e} else s.accepted);
      Move(called, d, if answer.Some? then Accepted(answer.value) else Refused)
    case Record(d) =>
      var v := s.deliveries[d];
      var m := s.entries[v.entry];
      var kept := s.(messages := s.messages[m := Recorded(s.messages[m], v.count, v.stage)]);
      if v.stage.Accepted? then Move(kept, d, Resolved) else kept.(deliveries := kept.deliveries - {d})
    case Delete(d) =>
      var e := s.deliveries[d].entry;
      s.(queued := s.queued - {e}, hidden := s.hidden - {e},
         deleted := if e in s.queued then s.deleted + {e} else s.deleted,
         deliveries := s.deliveries - {d})
    case Crash(d) => s.(deliveries := s.deliveries - {d})
    case Timeout(e) => s.(hidden := s.hidden - {e})
    case Redrive(e) => s.(queued := s.queued - {e}, dead := s.dead + {e})
    case Webhook(m, status) =>
      s.(messages := s.messages[m := s.messages[m].(status := DeliveryStatus.Advance(s.messages[m].status, status))])
  }

  ghost predicate IsRun(states: seq<State>, steps: seq<Step>) {
    && |states| == |steps| + 1
    && forall i :: 0 <= i < |steps| ==> Enabled(states[i], steps[i]) && states[i + 1] == Next(states[i], steps[i])
  }

  // ===== where an entry can be =====

  /** Every entry is in exactly one of the queue, the deleted and the dead letters. */
  ghost predicate Partitioned(s: State) {
    && |s.receives| == |s.entries|
    && (forall e: nat :: e < |s.entries| <==> e in s.queued || e in s.deleted || e in s.dead)
    && s.queued !! s.deleted && s.queued !! s.dead && s.deleted !! s.dead
    && s.hidden <= s.queued
    && (forall d :: d in s.deliveries ==> s.deliveries[d].entry < |s.entries|)
    && (forall e :: 0 <= e < |s.entries| ==> s.entries[e] in s.messages)
  }

  lemma StepKeepsPartition(s: State, a: Step)
    requires Partitioned(s) && Enabled(s, a)
    ensures Partitioned(Next(s, a))
  {}

  // ===== provider calls =====

  /** Delivery `d` is receive number `k` of entry `e`. */
  ghost predicate Is(s: State, d: nat, e: nat, k: nat) {
    d in s.deliveries && s.deliveries[d].entry == e && s.deliveries[d].count == k
  }

  ghost predicate ReceivesBounded(s: State) {
    forall e :: 0 <= e < |s.receives| ==> s.receives[e] <= MAX_RECEIVES
  }

  /** A receive is one delivery's, and a delivery calls the provider at most once. */
  ghost predicate CallsCounted(s: State) {
    && (forall d, e: nat, k: nat :: Is(s, d, e, k) ==> e < |s.receives| && 1 <= k <= s.receives[e])
    && (forall d, b, e: nat, k: nat :: Is(s, d, e, k) && Is(s, b, e, k) ==> d == b)
    && (forall d, e: nat, k: nat :: Is(s, d, e, k) && s.deliveries[d].stage.Held? ==> Call(e, k) !in s.calls)
    && (forall e: nat, k: nat :: Call(e, k) in s.calls ==> e < |s.receives| && 1 <= k <= s.receives[e])
    && (forall i, j :: 0 <= i < j < |s.calls| ==> s.calls[i] != s.calls[j])
  }

  lemma StepKeepsBound(s: State, a: Step)
    requires ReceivesBounded(s) && Enabled(s, a)
    ensures ReceivesBounded(Next(s, a))
  {}

  /** Where a delivery of the next state comes from. */
  lemma DeliveryFrom(s: State, a: Step, d: nat, e: nat, k: nat)
    requires Partitioned(s) && Enabled(s, a) && Is(Next(s, a), d, e, k)
    ensures (a.Receive? && a.delivery == d && a.entry == e && k == s.receives[e] + 1) ||
        (Is(s, d, e, k) && (a.Receive? ==> a.delivery != d))
  {}

  lemma StepKeepsCalls(s: State, a: Step)
    requires Partitioned(s) && CallsCounted(s) && Enabled(s, a)
    ensures CallsCounted(Next(s, a))
  {
    var t := Next(s, a);
    forall d, e: nat, k: nat | Is(t, d, e, k)
      ensures (a.Receive? && a.delivery == d && a.entry == e && k == s.receives[e] + 1) ||
          (Is(s, d, e, k) && (a.Receive? ==> a.delivery != d))
    {
      DeliveryFrom(s, a, d, e, k);
    }
    if a.Send? { assert Is(s, a.delivery, s.deliveries[a.delivery].entry, s.deliveries[a.delivery].count); }
  }

  function CallsFor(calls: seq<Call>, e: nat): nat {
    if calls == [] then 0
    else CallsFor(calls[..|calls| - 1], e) + (if calls[|calls| - 1].entry == e then 1 else 0)
  }

  ghost function CountsOf(calls: seq<Call>, e: nat): set<nat> { set c | c in calls && c.entry == e :: c.count }

  lemma {:induction false} CallsAreCounts(calls: seq<Call>, e: nat)
    requires forall i, j :: 0 <= i < j < |calls| ==> calls[i] != calls[j]
    ensures CallsFor(calls, e) == |CountsOf(calls, e)|
  {
    if calls == [] {
      assert CountsOf(calls, e) == {};
    } else {
      var front, last := calls[..|calls| - 1], calls[|calls| - 1];
      CallsAreCounts(front, e);
      assert forall c :: c in calls <==> c in front || c == last;
      if last.entry == e {
        assert CountsOf(calls, e) == CountsOf(front, e) + {last.count};
        assert last.count !in CountsOf(front, e) by {
          assert forall c :: c in front && c.entry == e && c.count == last.count ==> c == last;
        }
      } else {
        assert CountsOf(calls, e) == CountsOf(front, e);
      }
    }
  }

  lemma {:induction false} AtMost(s: set<nat>, n: nat)
    requires forall k :: k in s ==> 1 <= k <= n
    ensures |s| <= n
  {
    if n == 0 {
      assert s == {};
    } else {
      AtMost(s - {n}, n - 1);
      assert s <= (s - {n}) + {n};
    }
  }

  /** The provider is called for an entry at most once a receive, and at most five times. */
  lemma CallsBounded(s: State, e: nat)
    requires CallsCounted(s) && ReceivesBounded(s) && e < |s.receives|
    ensures CallsFor(s.calls, e) <= s.receives[e] <= MAX_RECEIVES
  {
    CallsAreCounts(s.calls, e);
    forall k | k in CountsOf(s.calls, e) ensures 1 <= k <= s.receives[e] { assert Call(e, k) in s.calls; }
    AtMost(CountsOf(s.calls, e), s.receives[e]);
  }

  // ===== the queue drains =====

  /** Receives an entry has left, and one for leaving the queue. */
  function Fuel(queued: set<nat>, receives: seq<nat>): nat
    requires forall e :: 0 <= e < |receives| ==> receives[e] <= MAX_RECEIVES
  {
    if receives == [] then 0
    else
      var last := |receives| - 1;
      Fuel(queued, receives[..last]) + (if last in queued then MAX_RECEIVES + 1 - receives[last] else 0)
  }

  lemma {:induction false} FuelLocal(queued: set<nat>, receives: seq<nat>, after: set<nat>, later: seq<nat>, e: nat)
    requires |receives| == |later| && e < |receives|
    requires forall k :: 0 <= k < |receives| ==> receives[k] <= MAX_RECEIVES && later[k] <= MAX_RECEIVES
    requires forall k: nat :: k < |receives| && k != e ==> receives[k] == later[k] && (k in queued <==> k in after)
    ensures Fuel(after, later) + (if e in queued then MAX_RECEIVES + 1 - receives[e] else 0)
         == Fuel(queued, receives) + (if e in after then MAX_RECEIVES + 1 - later[e] else 0)
  {
    var n := |receives| - 1;
    if e == n {
      FuelSame(queued, receives[..n], after, later[..n]);
    } else {
      FuelLocal(queued, receives[..n], after, later[..n], e);
    }
  }

  lemma {:induction false} FuelSame(queued: set<nat>, receives: seq<nat>, after: set<nat>, later: seq<nat>)
    requires receives == later && forall k :: 0 <= k < |receives| ==> receives[k] <= MAX_RECEIVES
    requires forall k: nat :: k < |receives| ==> (k in queued <==> k in after)
    ensures Fuel(after, later) == Fuel(queued, receives)
  {
    if receives != [] { FuelSame(queued, receives[..|receives| - 1], after, later[..|receives| - 1]); }
  }

  /** A step that uses the queue: a receive, a delete of an entry still there, a redrive. */
  predicate Uses(s: State, a: Step)
    requires Enabled(s, a)
  {
    a.Receive? || a.Redrive? || (a.Delete? && s.deliveries[a.delivery].entry in s.queued)
  }

  lemma FuelSpent(s: State, a: Step)
    requires Partitioned(s) && ReceivesBounded(s) && Enabled(s, a)
    ensures ReceivesBounded(Next(s, a))
    ensures var t := Next(s, a);
      && (Uses(s, a) ==> Fuel(t.queued, t.receives) < Fuel(s.queued, s.receives))
      && (a.Enqueue? ==> Fuel(t.queued, t.receives) == Fuel(s.queued, s.receives) + MAX_RECEIVES + 1)
      && (!Uses(s, a) && !a.Enqueue? ==> Fuel(t.queued, t.receives) == Fuel(s.queued, s.receives))
  {
    var t := Next(s, a);
    StepKeepsBound(s, a);
    match a {
      case Enqueue(_) =>
        assert t.receives[..|s.receives|] == s.receives;
        FuelSame(s.queued, s.receives, t.queued, s.receives);
      case Receive(_, e) => FuelLocal(s.queued, s.receives, t.queued, t.receives, e);
      case Delete(d) => FuelLocal(s.queued, s.receives, t.queued, t.receives, s.deliveries[d].entry);
      case Redrive(e) => FuelLocal(s.queued, s.receives, t.queued, t.receives, e);
      case _ =>
    }
  }

  /** Steps of a run that use the queue, and those that fill it. */
  function UsesIn(states: seq<State>, steps: seq<Step>): nat
    requires |states| == |steps| + 1 && forall i :: 0 <= i < |steps| ==> Enabled(states[i], steps[i])
  {
    if steps == [] then 0
    else (if Uses(states[0], steps[0]) then 1 else 0) + UsesIn(states[1..], steps[1..])
  }

  function Enqueues(steps: seq<Step>): nat {
    if steps == [] then 0 else (if steps[0].Enqueue? then 1 else 0) + Enqueues(steps[1..])
  }

  lemma {:induction false} FuelOverRun(states: seq<State>, steps: seq<Step>)
    requires IsRun(states, steps) && Partitioned(states[0]) && ReceivesBounded(states[0])
    ensures UsesIn(states, steps) <= Fuel(states[0].queued, states[0].receives) + (MAX_RECEIVES + 1) * Enqueues(steps)
    decreases steps
  {
    if steps != [] {
      FuelSpent(states[0], steps[0]);
      StepKeepsPartition(states[0], steps[0]);
      FuelOverRun(states[1..], steps[1..]);
    }
  }

  lemma {:induction false} EveryReachablePartitioned(states: seq<State>, steps: seq<Step>, i: nat)
    requires IsRun(states, steps) && states[0] == Init && i < |states|
    ensures Partitioned(states[i]) && ReceivesBounded(states[i]) && CallsCounted(states[i])
  {
    if i > 0 {
      EveryReachablePartitioned(states, steps, i - 1);
      StepKeepsPartition(states[i - 1], steps[i - 1]);
      StepKeepsBound(states[i - 1], steps[i - 1]);
      StepKeepsCalls(states[i - 1], steps[i - 1]);
    }
  }

  /** The queue drains: over any run, receives, deletes and redrives together number at most six
      an entry, whatever fails, crashes or times out. */
  lemma QueueDrains(states: seq<State>, steps: seq<Step>)
    requires IsRun(states, steps) && states[0] == Init
    ensures UsesIn(states, steps) <= 6 * Enqueues(steps)
  {
    EveryReachablePartitioned(states, steps, 0);
    FuelOverRun(states, steps);
  }

  /** And it never jams: an entry still queued can always time out, be redriven or be received. */
  lemma QueueMoves(s: State, e: nat, d: nat)
    requires Partitioned(s) && e in s.queued && d !in s.deliveries
    ensures Enabled(s, Timeout(e)) || Enabled(s, Redrive(e)) || Enabled(s, Receive(d, e))
  {}

  /** A dead letter was received five times, no fewer. */
  lemma {:induction false} BuriedAfterFive(states: seq<State>, steps: seq<Step>, i: nat, e: nat)
    requires IsRun(states, steps) && states[0] == Init && i < |states|
    ensures e in states[i].dead ==> e < |states[i].receives| && states[i].receives[e] == 5
  {
    if i > 0 {
      BuriedAfterFive(states, steps, i - 1, e);
      EveryReachablePartitioned(states, steps, i - 1);
      StepBuries(states[i - 1], steps[i - 1], e);
    }
  }

  lemma StepBuries(s: State, a: Step, e: nat)
    requires Partitioned(s) && ReceivesBounded(s) && Enabled(s, a)
    requires e in s.dead ==> e < |s.receives| && s.receives[e] == 5
    ensures e in Next(s, a).dead ==> e < |Next(s, a).receives| && Next(s, a).receives[e] == 5
  {}

  /** In every reachable state of every run: each entry in one place, at most five calls for it, and
      a dead letter received exactly five times. */
  lemma EntriesAccounted(states: seq<State>, steps: seq<Step>, i: nat, e: nat)
    requires IsRun(states, steps) && states[0] == Init && i < |states| && e < |states[i].entries|
    ensures var s := states[i];
      && (e in s.queued || e in s.deleted || e in s.dead)
      && !(e in s.queued && e in s.deleted) && !(e in s.queued && e in s.dead) && !(e in s.deleted && e in s.dead)
      && |s.receives| == |s.entries| && CallsFor(s.calls, e) <= s.receives[e] <= 5
      && (e in s.dead ==> s.receives[e] == 5)
  {
    EveryReachablePartitioned(states, steps, i);
    CallsBounded(states[i], e);
    BuriedAfterFive(states, steps, i, e);
  }

  // ===== nothing is dropped =====

  /** An entry is deleted, and its message has a provider id, only after the provider took it. */
  ghost predicate DeletedForCause(s: State) {
    && (forall d :: d in s.deliveries && s.deliveries[d].stage.Accepted? ==> s.deliveries[d].entry in s.accepted)
    && (forall d :: d in s.deliveries && s.deliveries[d].stage.Resolved? ==>
        s.deliveries[d].entry in s.accepted || s.deliveries[d].entry in s.excused)
    && (forall e :: e in s.deleted ==> e in s.accepted || e in s.excused)
    && (forall m :: m in s.messages && s.messages[m].externalId.Some? ==> Taken(s, m))
  }

  /** The provider took some entry about the message. */
  ghost predicate Taken(s: State, m: nat) { exists e :: e in s.accepted && e < |s.entries| && s.entries[e] == m }

  lemma StaysTaken(s: State, a: Step, m: nat)
    requires Enabled(s, a) && Taken(s, m)
    ensures Taken(Next(s, a), m)
  {
    var e :| e in s.accepted && e < |s.entries| && s.entries[e] == m;
    assert Next(s, a).entries[e] == m && e in Next(s, a).accepted;
  }

  lemma StepKeepsCause(s: State, a: Step)
    requires Partitioned(s) && DeletedForCause(s) && Enabled(s, a)
    ensures DeletedForCause(Next(s, a))
  {
    var t := Next(s, a);
    forall m | m in t.messages && t.messages[m].externalId.Some? ensures Taken(t, m) {
      if m in s.messages && s.messages[m].externalId.Some? {
        StaysTaken(s, a, m);
      } else {
        assert t.entries[s.deliveries[a.delivery].entry] == m;
      }
    }
  }

  /** Whatever fails, times out or is delivered twice, an entry leaves the queue for good only if
      the provider took it, there is nothing left to send, or it is among the dead letters. */
  lemma {:induction false} NothingDropped(states: seq<State>, steps: seq<Step>, i: nat, e: nat)
    requires IsRun(states, steps) && states[0] == Init && i < |states|
    ensures Partitioned(states[i]) && DeletedForCause(states[i])
    ensures e < |states[i].entries| ==>
      e in states[i].queued || e in states[i].dead || e in states[i].accepted || e in states[i].excused
  {
    if i > 0 {
      NothingDropped(states, steps, i - 1, e);
      StepKeepsPartition(states[i - 1], steps[i - 1]);
      StepKeepsCause(states[i - 1], steps[i - 1]);
    }
  }

  /** The provider's answer to this step's call for message `m` was `id`. */
  ghost predicate Answers(s: State, a: Step, m: nat, id: string) {
    && a.Send? && a.externalId == Some(id) && Known(s, a.delivery) && s.entries[s.deliveries[a.delivery].entry] == m
  }

  ghost predicate AnsweredBy(states: seq<State>, steps: seq<Step>, i: nat, m: nat, id: string) {
    exists j: nat :: j < i && j < |steps| && j < |states| && Answers(states[j], steps[j], m, id)
  }

  ghost predicate HasIds(s: State) {
    && (forall d :: d in s.deliveries && s.deliveries[d].stage.Resolved? ==> Bears(s, s.deliveries[d].entry))
    && (forall e :: e in s.deleted ==> Bears(s, e))
  }

  /** There was nothing to send for the entry, or its message bears a provider id. */
  ghost predicate Bears(s: State, e: nat) {
    e in s.excused ||
    (e < |s.entries| && s.entries[e] in s.messages && s.messages[s.entries[e]].externalId.Some?)
  }

  lemma StaysBorne(s: State, a: Step, e: nat)
    requires Partitioned(s) && Enabled(s, a) && Bears(s, e)
    ensures Bears(Next(s, a), e)
  {}

  lemma StepKeepsIds(s: State, a: Step)
    requires Partitioned(s) && HasIds(s) && Enabled(s, a)
    ensures HasIds(Next(s, a))
  {
    forall e | Bears(s, e) ensures Bears(Next(s, a), e) { StaysBorne(s, a, e); }
  }

  /** Over any run: an entry is deleted only when its message bears a provider id or there was
      nothing to send, and the id a message bears is the one the provider gave for it. */
  lemma {:induction false} IdsAreProviders(states: seq<State>, steps: seq<Step>, i: nat)
    requires IsRun(states, steps) && states[0] == Init && i < |states|
    ensures Partitioned(states[i]) && HasIds(states[i])
    ensures forall d, id :: d in states[i].deliveries && states[i].deliveries[d].stage == Accepted(id) ==>
              AnsweredBy(states, steps, i, states[i].entries[states[i].deliveries[d].entry], id)
    ensures forall m, id :: m in states[i].messages && states[i].messages[m].externalId == Some(id) ==>
              AnsweredBy(states, steps, i, m, id)
  {
    if i > 0 {
      IdsAreProviders(states, steps, i - 1);
      StepKeepsPartition(states[i - 1], steps[i - 1]);
      StepKeepsIds(states[i - 1], steps[i - 1]);
      forall m, id | AnsweredBy(states, steps, i - 1, m, id) || Answers(states[i - 1], steps[i - 1], m, id)
        ensures AnsweredBy(states, steps, i, m, id) {}
      IdsFromStep(states[i - 1], steps[i - 1]);
    }
  }

  /** Where the ids of the next state come from. */
  lemma IdsFromStep(s: State, a: Step)
    requires Partitioned(s) && Enabled(s, a)
    ensures var t := Next(s, a);
      forall d, id :: d in t.deliveries && t.deliveries[d].stage == Accepted(id) ==>
        || (d in s.deliveries && s.deliveries[d] == t.deliveries[d]
            && t.entries[t.deliveries[d].entry] == s.entries[s.deliveries[d].entry])
        || Answers(s, a, t.entries[t.deliveries[d].entry], id)
    ensures var t := Next(s, a);
      forall m, id :: m in t.messages && t.messages[m].externalId == Some(id) ==>
        || (m in s.messages && s.messages[m].externalId == Some(id))
        || (exists d :: d in s.deliveries && s.deliveries[d].stage == Accepted(id)
                        && s.entries[s.deliveries[d].entry] == m)
  {}

  // ===== the ladder under sends =====

  /** The step records a send of message `m` with this outcome. */
  ghost predicate Records(s: State, a: Step, m: nat, accepted: bool) {
    && a.Record? && Enabled(s, a) && s.entries[s.deliveries[a.delivery].entry] == m
    && s.deliveries[a.delivery].stage.Accepted? == accepted
  }

  /** A status falls on the ladder exactly in three ways: an accepted send recorded on a message
      already delivered or read, a refused last send recorded on a ranked one, and a `failed`
      from the provider on a ranked one. Every other step leaves it or moves it up. */
  lemma StatusFallsIff(s: State, a: Step, m: nat)
    requires Enabled(s, a) && m in s.messages
    ensures m in Next(s, a).messages
    ensures DeliveryStatus.Rank(Next(s, a).messages[m].status) < DeliveryStatus.Rank(s.messages[m].status) <==>
      || (Records(s, a, m, true) && DeliveryStatus.Rank(s.messages[m].status) > DeliveryStatus.Rank("sent"))
      || (Records(s, a, m, false) && s.deliveries[a.delivery].count >= MAX_RECEIVES
          && DeliveryStatus.Rank(s.messages[m].status) >= 0)
      || (a == Webhook(m, DeliveryStatus.FAILED) && DeliveryStatus.Rank(s.messages[m].status) >= 0)
  {}

  // ===== the worker =====

  /** What a received copy meets: its row or context gone, the credentials unreadable, or the
      adapter's answer. */
  datatype Outcome = ContextGone | Raises | Sent(externalId: string) | AdapterError

  datatype Received = Received(message: nat, count: nat, receipt: nat, outcome: Outcome)

  datatype Verdict = Resolve | Leave | Abort

  function VerdictOn(messages: map<nat, Message>, r: Received): Verdict {
    if r.message !in messages || r.outcome.ContextGone? then Resolve
    else match r.outcome
      case Raises => Abort
      case Sent(_) => Resolve
      case _ => Leave
  }

  function RowsAfter(messages: map<nat, Message>, r: Received): map<nat, Message> {
    if r.message !in messages then messages
    else match r.outcome
      case Sent(id) => messages[r.message := Recorded(messages[r.message], r.count, Accepted(id))]
      case AdapterError => messages[r.message := Recorded(messages[r.message], r.count, Refused)]
      case _ => messages
  }

  /** Rows, receipts deleted, and whether the batch was cut short, after its first `n` messages. */
  datatype Batch = Batch(messages: map<nat, Message>, removed: seq<nat>, aborted: bool)

  function RunBatch(b: Batch, batch: seq<Received>, n: nat): Batch
    requires n <= |batch|
  {
    if n == 0 then b
    else
      var p := RunBatch(b, batch, n - 1);
      var r := batch[n - 1];
      if p.aborted then p
      else match VerdictOn(p.messages, r)
        case Abort => p.(aborted := true)
        case Leave => p.(messages := RowsAfter(p.messages, r))
        case Resolve => p.(messages := RowsAfter(p.messages, r), removed := p.removed + [r.receipt])
  }

  /** There is nothing left to do about the message: its row or context is gone, or the provider
      accepted it. */
  predicate Finished(messages: map<nat, Message>, r: Received) {
    r.message !in messages || r.outcome.ContextGone? || r.outcome.Sent?
  }

  /** An exception that is not the adapter's own. */
  predicate Stops(messages: map<nat, Message>, r: Received) { r.message in messages && r.outcome.Raises? }

  class Worker {
    var messages: map<nat, Message>
    var removed: seq<nat>

    /** None: an exception that is not the adapter's own. */
    method ProcessOutboundMessage(r: Received) returns (resolved: Option<bool>)
      modifies this`messages
      ensures messages == RowsAfter(old(messages), r)
      ensures match VerdictOn(old(messages), r)
        case Resolve => resolved == Some(true)
        case Leave => resolved == Some(false)
        case Abort => resolved == None
      ensures resolved == None <==> Stops(old(messages), r)
      ensures resolved == Some(true) <==> Finished(old(messages), r)
      ensures messages.Keys == old(messages).Keys
      ensures forall m :: m in messages && (m != r.message || r.outcome.ContextGone? || r.outcome.Raises?) ==>
                messages[m] == old(messages)[m]
      ensures r.message in messages && r.outcome.Sent? ==>
                messages[r.message] == Message("sent", Some(r.outcome.externalId))
      ensures r.message in messages && r.outcome.AdapterError? ==>
                messages[r.message] == Message(if r.count >= 5 then "failed" else old(messages)[r.message].status,
                                               old(messages)[r.message].externalId)
    {
      if r.message !in messages { return Some(true); }
      var message := messages[r.message];
      match r.outcome {
        case ContextGone => return Some(true);
        case Raises => return None;
        case AdapterError =>
          if r.count >= MAX_RECEIVES {
            message := message.(status := "failed");
            messages := messages[r.message := message];
          }
          assert messages == RowsAfter(old(messages), r);
          return Some(false);
        case Sent(id) =>
          message := message.(externalId := Some(id));
          message := message.(status := "sent");
          messages := messages[r.message := message];
          return Some(true);
      }
    }

    /** The count of messages deleted, or None if one of them raised and cut the batch short. */
    method ProcessOutboundBatch(batch: seq<Received>) returns (processed: Option<nat>)
      modifies this
      ensures var after := RunBatch(Batch(old(messages), old(removed), false), batch, |batch|);
        && messages == after.messages && removed == after.removed && (processed.None? <==> after.aborted)
      ensures processed.None? <==> exists i :: 0 <= i < |batch| && Stops(old(messages), batch[i])
      ensures processed.Some? ==> processed.value == |Cleared(old(messages), batch, |batch|)|
      ensures forall x :: x in removed <==>
                x in old(removed) || exists k :: k in Cleared(old(messages), batch, |batch|) && batch[k].receipt == x
    {
      ghost var start := Batch(messages, removed, false);
      BatchOutcome(start, batch);
      var count := 0;
      for i := 0 to |batch|
        invariant Batch(messages, removed, false) == RunBatch(start, batch, i)
        invariant |removed| == |old(removed)| + count
      {
        var resolved := ProcessOutboundMessage(batch[i]);
        if resolved.None? {
          AbortedStays(start, batch, i + 1, |batch|);
          return None;
        }
        if resolved.value {
          removed := removed + [batch[i].receipt];
          count := count + 1;
        }
      }
      return Some(count);
    }
  }

  lemma {:induction false} AbortedStays(b: Batch, batch: seq<Received>, i: nat, n: nat)
    requires i <= n <= |batch| && RunBatch(b, batch, i).aborted
    ensures RunBatch(b, batch, n) == RunBatch(b, batch, i)
  {
    if i < n { AbortedStays(b, batch, i, n - 1); }
  }

  /** The batch gets to its message number `i`: none before it raised. */
  ghost predicate Reached(messages: map<nat, Message>, batch: seq<Received>, i: nat) {
    i < |batch| && forall j :: 0 <= j < i ==> !Stops(messages, batch[j])
  }

  /** The batch is cut short exactly when one of its messages raises; rows are neither made nor lost. */
  lemma {:induction false} AbortedIff(b: Batch, batch: seq<Received>, n: nat)
    requires n <= |batch| && !b.aborted
    ensures RunBatch(b, batch, n).messages.Keys == b.messages.Keys
    ensures RunBatch(b, batch, n).aborted <==> exists i :: 0 <= i < n && Stops(b.messages, batch[i])
  {
    if n > 0 { AbortedIff(b, batch, n - 1); }
  }

  /** The batch reaches the message and is finished with it. */
  ghost predicate Clears(messages: map<nat, Message>, batch: seq<Received>, k: nat) {
    Reached(messages, batch, k) && Finished(messages, batch[k])
  }

  lemma BatchOutcome(b: Batch, batch: seq<Received>)
    requires !b.aborted
    ensures var t := RunBatch(b, batch, |batch|);
      && (t.aborted <==> exists i :: 0 <= i < |batch| && Stops(b.messages, batch[i]))
      && |t.removed| == |b.removed| + |Cleared(b.messages, batch, |batch|)|
      && (forall x :: x in t.removed <==>
            x in b.removed || exists k :: k in Cleared(b.messages, batch, |batch|) && batch[k].receipt == x)
  {
    AbortedIff(b, batch, |batch|);
    BatchCount(b, batch, |batch|);
    forall x ensures x in RunBatch(b, batch, |batch|).removed <==>
                     x in b.removed || exists k :: k in Cleared(b.messages, batch, |batch|) && batch[k].receipt == x
    {
      BatchMeaning(b, batch, |batch|, x);
    }
  }

  lemma BatchStep(b: Batch, batch: seq<Received>, n: nat)
    requires n < |batch| && !b.aborted
    ensures RunBatch(b, batch, n + 1).removed
         == RunBatch(b, batch, n).removed + (if Clears(b.messages, batch, n) then [batch[n].receipt] else [])
  {
    AbortedIff(b, batch, n);
  }

  /** Which messages those are. */
  ghost function Cleared(messages: map<nat, Message>, batch: seq<Received>, n: nat): set<nat> {
    set k: nat | k < n && Clears(messages, batch, k)
  }

  lemma ClearedStep(messages: map<nat, Message>, batch: seq<Received>, n: nat)
    ensures Cleared(messages, batch, n + 1)
         == Cleared(messages, batch, n) + (if Clears(messages, batch, n) then {n} else {})
    ensures n !in Cleared(messages, batch, n)
  {}

  /** A batch deletes the receipts of exactly the messages it reaches that are gone or that the
      provider accepted. */
  lemma {:induction false} BatchMeaning(b: Batch, batch: seq<Received>, n: nat, receipt: nat)
    requires n <= |batch| && !b.aborted
    ensures receipt in RunBatch(b, batch, n).removed <==>
      receipt in b.removed || exists k :: k in Cleared(b.messages, batch, n) && batch[k].receipt == receipt
  {
    if n > 0 {
      BatchMeaning(b, batch, n - 1, receipt);
      BatchStep(b, batch, n - 1);
      ClearedStep(b.messages, batch, n - 1);
    }
  }

  /** One deletion for each. */
  lemma {:induction false} BatchCount(b: Batch, batch: seq<Received>, n: nat)
    requires n <= |batch| && !b.aborted
    ensures |RunBatch(b, batch, n).removed| == |b.removed| + |Cleared(b.messages, batch, n)|
  {
    if n == 0 {
      assert Cleared(b.messages, batch, 0) == {};
    } else {
      BatchCount(b, batch, n - 1);
      BatchStep(b, batch, n - 1);
      ClearedStep(b.messages, batch, n - 1);
    }
  }

  /** The last send of a message in the batch decides its row: the provider's id and `sent`. */
  lemma {:induction false} SentRow(b: Batch, batch: seq<Received>, i: nat, n: nat)
    requires i < n <= |batch| && !b.aborted && Reached(b.messages, batch, i)
    requires batch[i].message in b.messages && batch[i].outcome.Sent?
    requires forall j :: i < j < n && batch[j].message == batch[i].message ==>
               !batch[j].outcome.Sent? && !batch[j].outcome.AdapterError?
    ensures batch[i].message in RunBatch(b, batch, n).messages
    ensures RunBatch(b, batch, n).messages[batch[i].message] == Message("sent", Some(batch[i].outcome.externalId))
  {
    AbortedIff(b, batch, n - 1);
    if i < n - 1 { SentRow(b, batch, i, n - 1); }
  }

  /** A failed send is never deleted by the worker: it is left for the queue to retry or bury. */
  lemma {:induction false} FailedSendsStay(b: Batch, batch: seq<Received>, n: nat, receipt: nat)
    requires n <= |batch| && receipt !in b.removed
    requires forall i :: 0 <= i < n && batch[i].receipt == receipt ==>
      batch[i].outcome.AdapterError? && batch[i].message in b.messages
    ensures receipt !in RunBatch(b, batch, n).removed
    ensures forall m :: m in b.messages ==> m in RunBatch(b, batch, n).messages
  {
    if n > 0 { FailedSendsStay(b, batch, n - 1, receipt); }
  }

  // ===== the worker is the machine =====

  /** The steps of the machine one received copy goes through. */
  function Handling(d: nat, outcome: Outcome): seq<Step> {
    match outcome
    case ContextGone => [NoContext(d), Delete(d)]
    case Raises => [Crash(d)]
    case Sent(id) => [Send(d, Some(id)), Record(d), Delete(d)]
    case AdapterError => [Send(d, None), Record(d)]
  }

  /** The machine's delivery `d` is the worker's copy `r`, just received. */
  ghost predicate Carries(s: State, d: nat, r: Received) {
    && At(s, d, Held) && Known(s, d) && s.entries[s.deliveries[d].entry] == r.message && r.message in s.messages
    && s.deliveries[d].count == r.count
  }

  /** Handling one copy is a run of the machine: the rows end as the worker leaves them, and its
      entry leaves the queue exactly when the worker deletes the receipt. */
  lemma CopyIsARun(s: State, d: nat, r: Received) returns (states: seq<State>)
    requires Carries(s, d, r)
    ensures IsRun(states, Handling(d, r.outcome)) && states[0] == s
    ensures var t, e := states[|states| - 1], s.deliveries[d].entry;
      && t.messages == RowsAfter(s.messages, r) && t.entries == s.entries && t.deliveries == s.deliveries - {d}
      && (VerdictOn(s.messages, r).Resolve? <==> Finished(s.messages, r))
      && t.queued == (if Finished(s.messages, r) then s.queued - {e} else s.queued)
      && t.deleted == (if Finished(s.messages, r) && e in s.queued then s.deleted + {e} else s.deleted)
      && t.dead == s.dead
  {
    match r.outcome {
      case ContextGone =>
        var first := Next(s, NoContext(d));
        states := [s, first, Next(first, Delete(d))];
      case Raises => states := [s, Next(s, Crash(d))];
      case Sent(id) =>
        var first := Next(s, Send(d, Some(id)));
        var second := Next(first, Record(d));
        states := [s, first, second, Next(second, Delete(d))];
      case AdapterError =>
        var first := Next(s, Send(d, None));
        states := [s, first, Next(first, Record(d))];
    }
  }

  lemma JoinRuns(states: seq<State>, steps: seq<Step>, more: seq<State>, further: seq<Step>)
    requires IsRun(states, steps) && IsRun(more, further) && more[0] == states[|states| - 1]
    ensures IsRun(states + more[1..], steps + further)
  {
    var all, taken := states + more[1..], steps + further;
    forall i | 0 <= i < |taken| ensures Enabled(all[i], taken[i]) && all[i + 1] == Next(all[i], taken[i]) {
      if i >= |steps| { assert all[i] == more[i - |steps|] && taken[i] == further[i - |steps|]; }
    }
  }

  ghost predicate CarriesAll(s: State, ds: seq<nat>, batch: seq<Received>) {
    && |ds| == |batch| && (forall i, j :: 0 <= i < j < |ds| ==> ds[i] != ds[j])
    && (forall i :: 0 <= i < |ds| ==> Carries(s, ds[i], batch[i]))
  }

  /** What the first `n` copies of the batch made of the state: the worker's rows, and out of the
      queue exactly the entries whose receipts it deleted. */
  ghost predicate Handled(s: State, ds: seq<nat>, batch: seq<Received>, n: nat, t: State)
    requires CarriesAll(s, ds, batch) && n <= |batch|
  {
    && t.messages == RunBatch(Batch(s.messages, [], false), batch, n).messages && t.entries == s.entries
    && t.dead == s.dead
    && (forall e :: e in t.queued <==> e in s.queued && !Left(s, ds, batch, n, e))
    && (forall e :: e in t.deleted <==> e in s.deleted || (e in s.queued && Left(s, ds, batch, n, e)))
    && (forall i :: n <= i < |ds| ==> ds[i] in t.deliveries && t.deliveries[ds[i]] == s.deliveries[ds[i]])
  }

  /** Some copy of entry `e` was reached and finished with. */
  ghost predicate Left(s: State, ds: seq<nat>, batch: seq<Received>, n: nat, e: nat)
    requires CarriesAll(s, ds, batch) && n <= |batch|
  {
    exists i: nat :: i < n && s.deliveries[ds[i]].entry == e && Clears(s.messages, batch, i)
  }

  /** A worker's batch is a run of the machine: each copy it reaches goes through send, record and
      delete as the machine has them, whatever the provider answers. */
  lemma {:induction false} BatchIsARun(s: State, ds: seq<nat>, batch: seq<Received>, n: nat)
    returns (states: seq<State>, steps: seq<Step>)
    requires CarriesAll(s, ds, batch) && n <= |batch|
    ensures IsRun(states, steps) && states[0] == s && Handled(s, ds, batch, n, states[|states| - 1])
  {
    if n == 0 {
      states, steps := [s], [];
    } else {
      states, steps := BatchIsARun(s, ds, batch, n - 1);
      var t, d, r := states[|states| - 1], ds[n - 1], batch[n - 1];
      AbortedIff(Batch(s.messages, [], false), batch, n - 1);
      if !Reached(s.messages, batch, n - 1) {
        SameLeft(s, ds, batch, n);
      } else {
        assert Carries(s, d, r);
        var more := CopyIsARun(t, d, r);
        JoinRuns(states, steps, more, Handling(d, r.outcome));
        states, steps := states + more[1..], steps + Handling(d, r.outcome);
        CopyHandled(s, ds, batch, n, t, states[|states| - 1]);
      }
    }
  }

  lemma SameLeft(s: State, ds: seq<nat>, batch: seq<Received>, n: nat)
    requires CarriesAll(s, ds, batch) && 0 < n <= |batch|
    requires !Reached(s.messages, batch, n - 1) || !Finished(s.messages, batch[n - 1])
    ensures forall e :: Left(s, ds, batch, n, e) <==> Left(s, ds, batch, n - 1, e)
  {}

  lemma CopyHandled(s: State, ds: seq<nat>, batch: seq<Received>, n: nat, t: State, u: State)
    requires CarriesAll(s, ds, batch) && 0 < n <= |batch| && Handled(s, ds, batch, n - 1, t)
    requires Reached(s.messages, batch, n - 1)
    requires var r, e := batch[n - 1], s.deliveries[ds[n - 1]].entry;
      && u.messages == RowsAfter(t.messages, r) && u.entries == t.entries && u.deliveries == t.deliveries - {ds[n - 1]}
      && u.queued == (if Finished(s.messages, r) then t.queued - {e} else t.queued)
      && u.deleted == (if Finished(s.messages, r) && e in t.queued then t.deleted + {e} else t.deleted)
      && u.dead == t.dead
    ensures Handled(s, ds, batch, n, u)
  {
    var e := s.deliveries[ds[n - 1]].entry;
    AbortedIff(Batch(s.messages, [], false), batch, n - 1);
    if Finished(s.messages, batch[n - 1]) {
      forall x ensures Left(s, ds, batch, n, x) <==> Left(s, ds, batch, n - 1, x) || x == e {
        if x == e { assert s.deliveries[ds[n - 1]].entry == x; }
      }
    } else {
      SameLeft(s, ds, batch, n);
    }
  }
}
