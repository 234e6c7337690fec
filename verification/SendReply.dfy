/** Concurrent `send_reply` calls, interleaved at every await, over one messages table whose
    partial unique index is what settles a race. */
module SendReply {
  import opened Prelude

  /** What the client-side idempotency index covers. Rows without a key are outside it. */
  datatype Slot = Slot(orgId: string, conversationId: string, key: Option<string>)

  /** An outbound row and the call that inserted it. Rows are numbered and never removed. */
  datatype Row = Row(slot: Slot, creator: nat)

  /** How far a call has come. */
  datatype Stage =
    | Started
    | Unclaimed                          // the first lookup found nothing
    | Admitted                           // past the rate limit
    | Committed(row: nat)                // its insert won
    | Collided                           // its insert broke the index and was rolled back
    | Returned(row: nat, created: bool)
    | Raised

  datatype Call = Call(slot: Slot, stage: Stage)

  datatype State = State(rows: seq<Row>, calls: map<nat, Call>, enqueued: seq<nat>)

  const Init := State([], map[], [])

  /** The queue may answer, refuse, or accept and then fail to answer. */
  datatype Answer = Accepted | Lost | AcceptedSilently

  datatype Step =
    | Begin(call: nat, slot: Slot)
    | Lookup(call: nat)
    | Admit(call: nat)
    | Limit(call: nat)
    | Commit(call: nat)
    | Relookup(call: nat)
    | Enqueue(call: nat, answer: Answer)
    | Crash(call: nat)

  /** `_find_by_dedup_key`: the row of a slot with a key. */
  function Find(rows: seq<Row>, slot: Slot): Option<nat> {
    if rows == [] then None
    else if rows[|rows| - 1].slot == slot then Some(|rows| - 1)
    else Find(rows[..|rows| - 1], slot)
  }

  predicate At(s: State, call: nat, stage: Stage) { call in s.calls && s.calls[call].stage == stage }

  predicate Enabled(s: State, a: Step) {
    match a
    case Begin(c, _) => c !in s.calls
    case Lookup(c) => At(s, c, Started)
    case Admit(c) => At(s, c, Unclaimed)
    case Limit(c) => At(s, c, Unclaimed)
    case Commit(c) => At(s, c, Admitted)
    case Relookup(c) => At(s, c, Collided)
    case Enqueue(c, _) => c in s.calls && s.calls[c].stage.Committed?
    case Crash(c) => c in s.calls && !s.calls[c].stage.Returned? && !s.calls[c].stage.Raised?
  }

  function Move(s: State, c: nat, stage: Stage): State
    requires c in s.calls
  {
    s.(calls := s.calls[c := Call(s.calls[c].slot, stage)])
  }

  function Next(s: State, a: Step): State
    requires Enabled(s, a)
  {
    match a
    case Begin(c, slot) => s.(calls := s.calls[c := Call(slot, Started)])
    case Lookup(c) =>
      var found := if s.calls[c].slot.key.Some? then Find(s.rows, s.calls[c].slot) else None;
      Move(s, c, if found.Some? then Returned(found.value, false) else Unclaimed)
    case Admit(c) => Move(s, c, Admitted)
    case Limit(c) => Move(s, c, Raised)
    case Commit(c) =>
      var slot := s.calls[c].slot;
      if slot.key.Some? && Find(s.rows, slot).Some? then Move(s, c, Collided)
      else Move(s.(rows := s.rows + [Row(slot, c)]), c, Committed(|s.rows|))
    case Relookup(c) =>
      var found := Find(s.rows, s.calls[c].slot);
      Move(s, c, if found.Some? then Returned(found.value, false) else Raised)
    case Enqueue(c, answer) =>
      var row := s.calls[c].stage.row;
      var sent := if answer.Lost? then s else s.(enqueued := s.enqueued + [row]);
      Move(sent, c, if answer.Accepted? then Returned(row, true) else Raised)
    case Crash(c) => Move(s, c, Raised)
  }

  ghost predicate IsRun(states: seq<State>, steps: seq<Step>) {
    && |states| == |steps| + 1
    && forall i :: 0 <= i < |steps| ==> Enabled(states[i], steps[i]) && states[i + 1] == Next(states[i], steps[i])
  }

  lemma {:induction false} FindMeaning(rows: seq<Row>, slot: Slot)
    ensures Find(rows, slot).Some? ==> Find(rows, slot).value < |rows| && rows[Find(rows, slot).value].slot == slot
    ensures Find(rows, slot).None? ==> forall i :: 0 <= i < |rows| ==> rows[i].slot != slot
  {
    if rows != [] { FindMeaning(rows[..|rows| - 1], slot); }
  }

  // ===== the invariant =====

  ghost predicate KeysUnique(rows: seq<Row>) {
    forall i, j :: 0 <= i < j < |rows| && rows[i].slot.key.Some? ==> rows[i].slot != rows[j].slot
  }

  /** The row a call holds or returned is one of its own slot; it says it created the row exactly
      when it did, and then the queue has it. */
  ghost predicate CallSound(s: State, c: nat)
    requires c in s.calls
  {
    match s.calls[c].stage
    case Committed(r) => r < |s.rows| && s.rows[r] == Row(s.calls[c].slot, c) && r !in s.enqueued
    case Returned(r, created) => r < |s.rows| && s.rows[r].slot == s.calls[c].slot &&
        (created <==> s.rows[r].creator == c) && (created ==> r in s.enqueued)
    case Collided => s.calls[c].slot.key.Some? && Find(s.rows, s.calls[c].slot).Some?
    case _ => true
  }

  ghost predicate CallsSound(s: State) { forall c :: c in s.calls ==> CallSound(s, c) }

  /** Each call inserts at most one row, and a row it inserted left it past the commit. */
  ghost predicate CreatorsSound(s: State) {
    && (forall i :: 0 <= i < |s.rows| ==>
          s.rows[i].creator in s.calls && s.rows[i].slot == s.calls[s.rows[i].creator].slot
          && var stage := s.calls[s.rows[i].creator].stage; stage.Committed? || stage.Returned? || stage.Raised?)
    && (forall i, j :: 0 <= i < j < |s.rows| ==> s.rows[i].creator != s.rows[j].creator)
  }

  ghost predicate QueuedOnce(s: State) {
    && (forall i :: 0 <= i < |s.enqueued| ==> s.enqueued[i] < |s.rows|)
    && (forall i, j :: 0 <= i < j < |s.enqueued| ==> s.enqueued[i] != s.enqueued[j])
  }

  ghost predicate Sound(s: State) { KeysUnique(s.rows) && CallsSound(s) && CreatorsSound(s) && QueuedOnce(s) }

  lemma FindGrows(rows: seq<Row>, r: Row, slot: Slot)
    ensures Find(rows, slot).Some? ==> Find(rows + [r], slot).Some?
  {
    assert (rows + [r])[..|rows|] == rows;
  }

  lemma InsertKeepsKeys(rows: seq<Row>, r: Row)
    requires KeysUnique(rows) && (r.slot.key.Some? ==> Find(rows, r.slot).None?)
    ensures KeysUnique(rows + [r])
  {
    FindMeaning(rows, r.slot);
  }

  lemma CommitKeepsCalls(s: State, c: nat)
    requires CallsSound(s) && Enabled(s, Commit(c)) && QueuedOnce(s)
    ensures CallsSound(Next(s, Commit(c)))
  {
    var slot := s.calls[c].slot;
    var t := Next(s, Commit(c));
    forall b | b in t.calls ensures CallSound(t, b) {
      assert CallSound(s, b);
      FindGrows(s.rows, Row(slot, c), s.calls[b].slot);
    }
  }

  lemma CommitKeepsCreators(s: State, c: nat)
    requires CreatorsSound(s) && Enabled(s, Commit(c))
    ensures CreatorsSound(Next(s, Commit(c)))
  {}

  lemma CommitKeepsSound(s: State, c: nat)
    requires Sound(s) && Enabled(s, Commit(c))
    ensures Sound(Next(s, Commit(c)))
  {
    if At(Next(s, Commit(c)), c, Committed(|s.rows|)) { InsertKeepsKeys(s.rows, Row(s.calls[c].slot, c)); }
    CommitKeepsCalls(s, c);
    CommitKeepsCreators(s, c);
  }

  lemma LookupKeepsCalls(s: State, a: Step)
    requires CallsSound(s) && CreatorsSound(s) && Enabled(s, a) && !a.Commit? && !a.Enqueue?
    ensures CallsSound(Next(s, a))
  {
    var t := Next(s, a);
    forall b | b in t.calls ensures CallSound(t, b) {
      if b in s.calls {
        assert CallSound(s, b);
        FindMeaning(s.rows, s.calls[b].slot);
      }
    }
  }

  lemma EnqueueKeepsCalls(s: State, c: nat, answer: Answer)
    requires CallsSound(s) && CreatorsSound(s) && Enabled(s, Enqueue(c, answer))
    ensures CallsSound(Next(s, Enqueue(c, answer)))
  {
    var t := Next(s, Enqueue(c, answer));
    assert CallSound(s, c);
    forall b | b in t.calls ensures CallSound(t, b) { assert CallSound(s, b); }
  }

  lemma MoveKeepsCreators(s: State, a: Step)
    requires CreatorsSound(s) && Enabled(s, a) && !a.Commit?
    ensures CreatorsSound(Next(s, a))
  {}

  lemma EnqueueKeepsOnce(s: State, c: nat, answer: Answer)
    requires CallsSound(s) && QueuedOnce(s) && Enabled(s, Enqueue(c, answer))
    ensures QueuedOnce(Next(s, Enqueue(c, answer)))
  {
    assert CallSound(s, c);
  }

  lemma StepKeepsSound(s: State, a: Step)
    requires Sound(s) && Enabled(s, a)
    ensures Sound(Next(s, a))
  {
    match a {
      case Commit(c) => CommitKeepsSound(s, c);
      case Enqueue(c, answer) =>
        EnqueueKeepsCalls(s, c, answer);
        EnqueueKeepsOnce(s, c, answer);
        MoveKeepsCreators(s, a);
      case _ =>
        LookupKeepsCalls(s, a);
        MoveKeepsCreators(s, a);
    }
  }

  lemma {:induction false} EveryReachableSound(states: seq<State>, steps: seq<Step>, i: nat)
    requires IsRun(states, steps) && states[0] == Init && i < |states|
    ensures Sound(states[i])
  {
    if i > 0 {
      EveryReachableSound(states, steps, i - 1);
      StepKeepsSound(states[i - 1], steps[i - 1]);
    }
  }

  // ===== what the callers see =====

  ghost predicate Answered(s: State, c: nat, slot: Slot) {
    c in s.calls && s.calls[c].slot == slot && s.calls[c].stage.Returned?
  }

  /** However many calls carry one key: one row at most, queued once at most, and every call that
      returns gives that row; at most one says it created it. */
  lemma OneMessagePerKey(s: State, slot: Slot, b: nat, c: nat)
    requires Sound(s) && slot.key.Some? && Answered(s, b, slot) && Answered(s, c, slot)
    ensures s.calls[b].stage.row == s.calls[c].stage.row
    ensures s.calls[b].stage.created && s.calls[c].stage.created ==> b == c
    ensures s.calls[b].stage.created ==> s.calls[b].stage.row in s.enqueued
  {
    assert CallSound(s, b) && CallSound(s, c);
    var i, j := s.calls[b].stage.row, s.calls[c].stage.row;
    assert s.rows[i].slot == s.rows[j].slot;
  }

  lemma OneQueueEntryPerKey(s: State, i: nat, j: nat)
    requires Sound(s) && i < |s.enqueued| && j < |s.enqueued|
    requires s.rows[s.enqueued[i]].slot == s.rows[s.enqueued[j]].slot && s.rows[s.enqueued[i]].slot.key.Some?
    ensures i == j
  {}

  /** The lookup after a lost race always finds the winner's row. */
  lemma RelookupFinds(s: State, c: nat)
    requires Sound(s) && Enabled(s, Relookup(c))
    ensures Next(s, Relookup(c)).calls[c].stage.Returned?
    ensures var r := Next(s, Relookup(c)).calls[c].stage.row;
      r < |s.rows| && s.rows[r].slot == s.calls[c].slot && s.rows[r].creator != c
  {
    assert CallSound(s, c);
    FindMeaning(s.rows, s.calls[c].slot);
  }

  // ===== a row the queue never heard of =====

  /** Inserted, not queued, and its call gone. */
  ghost predicate Stranded(s: State, r: nat) {
    r < |s.rows| && r !in s.enqueued && s.rows[r].creator in s.calls && s.calls[s.rows[r].creator].stage.Raised?
  }

  lemma StepKeepsStranded(s: State, a: Step, r: nat)
    requires Sound(s) && Enabled(s, a) && Stranded(s, r)
    ensures Stranded(Next(s, a), r)
  {
    if a.Enqueue? { assert CallSound(s, a.call); }
  }

  /** If the queue is lost or the call dies after the commit, no retry repairs it: the row stays
      unqueued in every later state, and every retry that returns hands it back as already sent. */
  lemma {:induction false} RetriesCannotQueue(states: seq<State>, steps: seq<Step>, i: nat, r: nat, c: nat)
    requires IsRun(states, steps) && Sound(states[0]) && Stranded(states[0], r) && i < |states|
    requires states[0].rows[r].slot.key.Some?
    ensures Sound(states[i]) && Stranded(states[i], r) && states[i].rows[r] == states[0].rows[r]
    ensures Answered(states[i], c, states[0].rows[r].slot) ==> states[i].calls[c].stage == Returned(r, false)
  {
    if i > 0 {
      RetriesCannotQueue(states, steps, i - 1, r, c);
      StepKeepsSound(states[i - 1], steps[i - 1]);
      StepKeepsStranded(states[i - 1], steps[i - 1], r);
    }
    if Answered(states[i], c, states[0].rows[r].slot) { assert CallSound(states[i], c); }
  }

  /** One client, one failed enqueue, one retry: the states of call 0 and then call 1. */
  ghost function Retried(slot: Slot): seq<State> {
    [Init,
     State([], map[0 := Call(slot, Started)], []),
     State([], map[0 := Call(slot, Unclaimed)], []),
     State([], map[0 := Call(slot, Admitted)], []),
     State([Row(slot, 0)], map[0 := Call(slot, Committed(0))], []),
     State([Row(slot, 0)], map[0 := Call(slot, Raised)], []),
     State([Row(slot, 0)], map[0 := Call(slot, Raised), 1 := Call(slot, Started)], []),
     State([Row(slot, 0)], map[0 := Call(slot, Raised), 1 := Call(slot, Returned(0, false))], [])]
  }

  ghost function RetrySteps(slot: Slot): seq<Step> {
    [Begin(0, slot), Lookup(0), Admit(0), Commit(0), Enqueue(0, Lost), Begin(1, slot), Lookup(1)]
  }

  ghost predicate Leads(s: State, a: Step, t: State) { Enabled(s, a) && t == Next(s, a) }

  lemma FirstCallFails(slot: Slot)
    requires slot.key.Some?
    ensures var s, a := Retried(slot), RetrySteps(slot);
      Leads(s[0], a[0], s[1]) && Leads(s[1], a[1], s[2]) && Leads(s[2], a[2], s[3]) && Leads(s[3], a[3], s[4])
  {}

  lemma SecondCallReturns(slot: Slot)
    requires slot.key.Some?
    ensures var s, a := Retried(slot), RetrySteps(slot);
      Leads(s[4], a[4], s[5]) && Leads(s[5], a[5], s[6]) && Leads(s[6], a[6], s[7])
  {}

  /** The retry is told the message exists, and no queue has it. */
  lemma LostEnqueue(slot: Slot)
    requires slot.key.Some?
    ensures IsRun(Retried(slot), RetrySteps(slot)) && Retried(slot)[0] == Init
    ensures var s := Retried(slot)[7]; s.enqueued == [] && At(s, 1, Returned(0, false)) && Stranded(s, 0)
  {
    FirstCallFails(slot);
    SecondCallReturns(slot);
    forall i | 0 <= i < 7 ensures Leads(Retried(slot)[i], RetrySteps(slot)[i], Retried(slot)[i + 1]) {}
  }

  /** A call is stranded exactly by failing after its commit without the queue having the row. */
  lemma StrandedWhen(s: State, a: Step, r: nat)
    requires Sound(s) && Enabled(s, a) && r < |s.rows| && !Stranded(s, r)
    ensures Stranded(Next(s, a), r) <==>
      && a.call in s.calls && s.calls[a.call].stage == Committed(r)
      && (a.Crash? || (a.Enqueue? && a.answer.Lost?))
  {
    var c := s.rows[r].creator;
    if a.call in s.calls { assert CallSound(s, a.call); }
    if c in s.calls { assert CallSound(s, c); }
  }

  // ===== one call, with whatever the others commit while it waits =====

  datatype Error = RateLimited | QueueFailed

  datatype Outcome = Outcome(rows: seq<Row>, enqueued: seq<nat>, result: Result<(nat, bool), Error>)

  /** The machine driven through one call's stages, `others` being the rows committed by other
      calls between its lookup and its insert. */
  function Drive(s: State, c: nat, admitted: bool, others: seq<Row>, answer: Answer): State
    requires At(s, c, Started)
  {
    var looked := Next(s, Lookup(c));
    if looked.calls[c].stage.Returned? then looked
    else if !admitted then Next(looked, Limit(c))
    else
      var waited := Next(looked, Admit(c));
      var inserted := Next(waited.(rows := waited.rows + others), Commit(c));
      if inserted.calls[c].stage.Collided? then Next(inserted, Relookup(c)) else Next(inserted, Enqueue(c, answer))
  }

  /** The same in one piece. */
  function Reply(rows: seq<Row>, enqueued: seq<nat>, call: nat, slot: Slot, admitted: bool, others: seq<Row>,
      answer: Answer): Outcome
  {
    var existing := if slot.key.Some? then Find(rows, slot) else None;
    var winner := if slot.key.Some? then Find(rows + others, slot) else None;
    if existing.Some? then Outcome(rows, enqueued, Ok((existing.value, false)))
    else if !admitted then Outcome(rows, enqueued, Err(RateLimited))
    else if winner.Some? then Outcome(rows + others, enqueued, Ok((winner.value, false)))
    else
      var r := |rows + others|;
      Outcome(rows + others + [Row(slot, call)],
              if answer.Lost? then enqueued else enqueued + [r],
              if answer.Accepted? then Ok((r, true)) else Err(QueueFailed))
  }

  /** A call's result is the stage the machine leaves it in, on the same tables. */
  lemma ReplyIsTheMachine(s: State, c: nat, admitted: bool, others: seq<Row>, answer: Answer)
    requires At(s, c, Started)
    ensures var r := Reply(s.rows, s.enqueued, c, s.calls[c].slot, admitted, others, answer);
      var t := Drive(s, c, admitted, others, answer);
      && t.rows == r.rows && t.enqueued == r.enqueued && c in t.calls
      && t.calls[c].stage == if r.result.Ok? then Returned(r.result.value.0, r.result.value.1) else Raised
  {
    var slot := s.calls[c].slot;
    FindMeaning(s.rows, slot);
    FindMeaning(s.rows + others, slot);
  }

  /** The slot has a key and a message. */
  ghost predicate Has(rows: seq<Row>, slot: Slot) {
    slot.key.Some? && exists i :: 0 <= i < |rows| && rows[i].slot == slot
  }

  /** The slot's message, which this call did not create. */
  ghost predicate IsOthers(rows: seq<Row>, answer: (nat, bool), slot: Slot) {
    answer.0 < |rows| && rows[answer.0].slot == slot && !answer.1
  }

  class Handler {
    var rows: seq<Row>
    var enqueued: seq<nat>

    method SendReply(call: nat, slot: Slot, admitted: bool, others: seq<Row>, answer: Answer)
        returns (r: Result<(nat, bool), Error>)
      modifies this
      ensures Outcome(rows, enqueued, r) == Reply(old(rows), old(enqueued), call, slot, admitted, others, answer)
      ensures Has(old(rows), slot) ==>
        rows == old(rows) && enqueued == old(enqueued) && r.Ok? && IsOthers(rows, r.value, slot)
      ensures !Has(old(rows), slot) && !admitted ==>
        rows == old(rows) && enqueued == old(enqueued) && r == Err(RateLimited)
      ensures !Has(old(rows), slot) && admitted && Has(old(rows) + others, slot) ==>
        rows == old(rows) + others && enqueued == old(enqueued) && r.Ok? && IsOthers(rows, r.value, slot)
      ensures admitted && !Has(old(rows) + others, slot) ==>
        && rows == old(rows) + others + [Row(slot, call)]
        && enqueued == old(enqueued) + (if answer == Lost then [] else [|rows| - 1])
        && r == (if answer == Accepted then Ok((|rows| - 1, true)) else Err(QueueFailed))
    {
      FindMeaning(rows, slot);
      FindMeaning(rows + others, slot);
      if slot.key.Some? {
        var existing := Find(rows, slot);
        if existing.Some? {
          assert (rows + others)[existing.value] == rows[existing.value];
          return Ok((existing.value, false));
        }
      }
      if !admitted { return Err(RateLimited); }
      rows := rows + others;
      if slot.key.Some? {
        var winner := Find(rows, slot);
        if winner.Some? { return Ok((winner.value, false)); }
      }
      rows := rows + [Row(slot, call)];
      if answer.Lost? { return Err(QueueFailed); }
      enqueued := enqueued + [|rows| - 1];
      if answer.AcceptedSilently? { return Err(QueueFailed); }
      return Ok((|rows| - 1, true));
    }
  }
}
