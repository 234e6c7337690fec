/** What the inbox shows of a conversation (its unread count, preview and time) against the
    messages it stands for, when a session writes columns from a copy that may be out of date. */
module Summaries {
  import opened Prelude
  import opened IsoTime
  import opened InboundWorker
  import Keyset
  import Walk

  /** The newest row of a conversation. */
  function Newest(rows: seq<Row>, c: Contact): Option<Row> {
    if rows == [] then None
    else if rows[|rows| - 1].contact == c then Some(rows[|rows| - 1])
    else Newest(rows[..|rows| - 1], c)
  }

  lemma NewestSnoc(rows: seq<Row>, r: Row, c: Contact)
    ensures Newest(rows + [r], c) == if r.contact == c then Some(r) else Newest(rows, c)
  {
    assert (rows + [r])[..|rows|] == rows;
  }

  // ===== the step that stores a message =====

  function ItemAt(s: State, a: Step): Item
    requires a.Commit? && Enabled(s, a)
  {
    EntryAt(s, a.delivery).items[s.flights[a.delivery].next]
  }

  /** The step stores a message of `c`. */
  ghost predicate StoresFor(s: State, a: Step, c: Contact) {
    && a.Commit? && Enabled(s, a)
    && c == ContactOf(EntryAt(s, a.delivery), ItemAt(s, a)) && HandledAt(s, a.delivery, a.now).row.Some?
  }

  /** It does so on a session that still holds a copy of `c`. */
  ghost predicate OnCopy(s: State, a: Step, c: Contact) {
    && StoresFor(s, a, c) && c in s.db.conversations
    && s.flights[a.delivery].held.Some? && s.flights[a.delivery].held.value.contact == c
  }

  function CopyAt(s: State, a: Step): Conversation
    requires a.Commit? && a.delivery in s.flights && s.flights[a.delivery].held.Some?
  {
    s.flights[a.delivery].held.value.copy
  }

  // ===== unread counts =====

  function CountFor(rows: seq<Row>, c: Contact): nat {
    if rows == [] then 0 else CountFor(rows[..|rows| - 1], c) + (if rows[|rows| - 1].contact == c then 1 else 0)
  }

  lemma CountForSnoc(rows: seq<Row>, r: Row, c: Contact)
    ensures CountFor(rows + [r], c) == CountFor(rows, c) + (if r.contact == c then 1 else 0)
  {
    assert (rows + [r])[..|rows|] == rows;
  }

  function ReadFrom(s: State, c: Contact): nat { if c in s.readFrom then s.readFrom[c] else 0 }

  ghost predicate MarksKnown(s: State) {
    forall c :: c in s.readFrom ==> c in s.db.conversations && s.readFrom[c] <= |s.db.rows|
  }

  /** The counter says how many rows came in since the conversation was last marked read. */
  ghost predicate UnreadExact(s: State, c: Contact)
    requires MarksKnown(s)
  {
    c in s.db.conversations ==> s.db.conversations[c].unread == CountFor(s.db.rows[ReadFrom(s, c)..], c)
  }

  /** The step counts on from an out-of-date copy. */
  ghost predicate WritesStale(s: State, a: Step, c: Contact) {
    OnCopy(s, a, c) && CopyAt(s, a).unread != s.db.conversations[c].unread
  }

  lemma InsertCounts(rows: seq<Row>, r: Row, from: nat, c: Contact)
    requires from <= |rows|
    ensures CountFor((rows + [r])[from..], c) == CountFor(rows[from..], c) + (if r.contact == c then 1 else 0)
  {
    assert (rows + [r])[from..] == rows[from..] + [r];
    CountForSnoc(rows[from..], r, c);
  }

  lemma {:induction false} NoRowsNoCount(rows: seq<Row>, c: Contact)
    requires !HasRow(rows, c)
    ensures CountFor(rows, c) == 0
  {
    if rows != [] {
      assert rows[|rows| - 1].contact != c;
      assert forall i :: 0 <= i < |rows| - 1 ==> rows[..|rows| - 1][i] == rows[i];
      NoRowsNoCount(rows[..|rows| - 1], c);
    }
  }

  lemma StepKeepsMarks(s: State, a: Step)
    requires MarksKnown(s) && HeldKnown(s) && Enabled(s, a)
    ensures MarksKnown(Next(s, a)) && HeldKnown(Next(s, a))
  {}

  /** The same on the tables: a stored row counts one more for its own conversation only. */
  lemma InsertExactIff(db: Tables, held: Option<Held>, b: Contact, item: Item, now: Instant, from: nat, c: Contact)
    requires from <= |db.rows| && (c in db.conversations <==> HasRow(db.rows, c))
    requires if c in db.conversations then db.conversations[c].unread == CountFor(db.rows[from..], c) else from == 0
    ensures var after := Insert(db, held, b, item, now);
      c in after.conversations ==>
        (after.conversations[c].unread == CountFor(after.rows[from..], c) <==>
         b != c || Copy(db, held, c).unread == RowOf(db, c).unread)
  {
    InsertCounts(db.rows, Row(b, item.externalMessageId, item.body, now), from, c);
    if c !in db.conversations {
      NoRowsNoCount(db.rows, c);
      assert db.rows[0..] == db.rows;
    }
  }

  lemma CommitCounts(s: State, d: nat, now: Instant, c: Contact)
    requires MarksKnown(s) && HeldKnown(s) && NoEmptyThreads(s.db) && Enabled(s, Commit(d, now)) && UnreadExact(s, c)
    ensures MarksKnown(Next(s, Commit(d, now)))
    ensures UnreadExact(Next(s, Commit(d, now)), c) <==> !WritesStale(s, Commit(d, now), c)
  {
    StepKeepsMarks(s, Commit(d, now));
    var item := EntryAt(s, d).items[s.flights[d].next];
    InsertExactIff(s.db, s.flights[d].held, ContactOf(EntryAt(s, d), item), item, now, ReadFrom(s, c), c);
  }

  lemma MarkReadExact(s: State, b: Contact, c: Contact)
    requires MarksKnown(s) && b in s.db.conversations && UnreadExact(s, c)
    ensures MarksKnown(Next(s, MarkRead(b))) && UnreadExact(Next(s, MarkRead(b)), c)
  {
    assert s.db.rows[|s.db.rows|..] == [];
  }

  /** A step leaves a right counter right unless it stores on an out-of-date copy, and then it
      leaves it wrong. */
  lemma UnreadStaysExactIff(s: State, a: Step, c: Contact)
    requires MarksKnown(s) && HeldKnown(s) && NoEmptyThreads(s.db) && Enabled(s, a) && UnreadExact(s, c)
    ensures MarksKnown(Next(s, a))
    ensures UnreadExact(Next(s, a), c) <==> !WritesStale(s, a, c)
  {
    StepKeepsMarks(s, a);
    match a {
      case Commit(d, now) => CommitCounts(s, d, now, c);
      case MarkRead(b) => MarkReadExact(s, b, c);
      case _ =>
    }
  }

  lemma {:induction false} EveryReachableMarked(states: seq<State>, steps: seq<Step>, i: nat)
    requires IsRun(states, steps) && states[0] == Init && i < |states|
    ensures Stored(states[i]) && MarksKnown(states[i])
  {
    EveryReachableStored(states, steps, i);
    if i > 0 {
      EveryReachableMarked(states, steps, i - 1);
      StepKeepsMarks(states[i - 1], steps[i - 1]);
    }
  }

  lemma {:induction false} UnreadExactWithoutStale(states: seq<State>, steps: seq<Step>, i: nat, c: Contact)
    requires IsRun(states, steps) && states[0] == Init && i < |states|
    requires forall k :: 0 <= k < i ==> !WritesStale(states[k], steps[k], c)
    ensures MarksKnown(states[i]) && UnreadExact(states[i], c)
  {
    EveryReachableMarked(states, steps, i);
    if i > 0 {
      UnreadExactWithoutStale(states, steps, i - 1, c);
      EveryReachableMarked(states, steps, i - 1);
      UnreadStaysExactIff(states[i - 1], steps[i - 1], c);
    }
  }

  /** So over a whole run: the counter is right in every state so far exactly when no step so far
      counted on from such a copy. */
  lemma UnreadExactThroughoutIff(states: seq<State>, steps: seq<Step>, i: nat, c: Contact)
    requires IsRun(states, steps) && states[0] == Init && i < |states|
    ensures (forall k :: 0 <= k <= i ==> MarksKnown(states[k]) && UnreadExact(states[k], c)) <==>
            (forall k :: 0 <= k < i ==> !WritesStale(states[k], steps[k], c))
  {
    if forall k :: 0 <= k < i ==> !WritesStale(states[k], steps[k], c) {
      forall k | 0 <= k <= i ensures MarksKnown(states[k]) && UnreadExact(states[k], c) {
        UnreadExactWithoutStale(states, steps, k, c);
      }
    }
    if forall k :: 0 <= k <= i ==> MarksKnown(states[k]) && UnreadExact(states[k], c) {
      forall k | 0 <= k < i ensures !WritesStale(states[k], steps[k], c) {
        EveryReachableMarked(states, steps, k);
        UnreadStaysExactIff(states[k], steps[k], c);
        assert UnreadExact(states[k + 1], c);
      }
    }
  }

  // ===== previews =====

  /** The preview is the first 200 characters of the newest message. */
  ghost predicate Shows(preview: string, body: Option<string>) {
    var text := if body.Some? then body.value else "";
    preview <= text && |preview| == if |text| < 200 then |text| else 200
  }

  lemma ShowsIsPreview(preview: string, body: Option<string>)
    ensures Shows(preview, body) <==> preview == Preview(body)
  {}

  ghost predicate PreviewRight(s: State, c: Contact) {
    c in s.db.conversations ==>
        Newest(s.db.rows, c).Some? && Shows(s.db.conversations[c].preview, Newest(s.db.rows, c).value.body)
  }

  /** The message's preview is the one the copy already has, and the row has another: the column is
      left out of the update. */
  ghost predicate KeepsOldPreview(s: State, a: Step, c: Contact) {
    OnCopy(s, a, c) && CopyAt(s, a).preview == Preview(ItemAt(s, a).body) != s.db.conversations[c].preview
  }

  /** A step leaves a right preview right unless it leaves out the column, and then it is wrong. */
  lemma PreviewStaysRightIff(s: State, a: Step, c: Contact)
    requires HeldKnown(s) && Enabled(s, a) && PreviewRight(s, c)
    ensures PreviewRight(Next(s, a), c) <==> !KeepsOldPreview(s, a, c)
  {
    if a.Commit? {
      var item := ItemAt(s, a);
      var b := ContactOf(EntryAt(s, a.delivery), item);
      NewestSnoc(s.db.rows, Row(b, item.externalMessageId, item.body, a.now), c);
      if b == c && c in Next(s, a).db.conversations {
        ShowsIsPreview(Next(s, a).db.conversations[c].preview, item.body);
      }
    }
  }

  /** The preview is right in every state so far exactly when no step so far left it out so. */
  lemma PreviewRightThroughoutIff(states: seq<State>, steps: seq<Step>, i: nat, c: Contact)
    requires IsRun(states, steps) && states[0] == Init && i < |states|
    ensures (forall k :: 0 <= k <= i ==> PreviewRight(states[k], c)) <==>
            (forall k :: 0 <= k < i ==> !KeepsOldPreview(states[k], steps[k], c))
  {
    if forall k :: 0 <= k < i ==> !KeepsOldPreview(states[k], steps[k], c) {
      forall k | 0 <= k <= i ensures PreviewRight(states[k], c) { PreviewRightWithout(states, steps, k, c); }
    }
    if forall k :: 0 <= k <= i ==> PreviewRight(states[k], c) {
      forall k | 0 <= k < i ensures !KeepsOldPreview(states[k], steps[k], c) {
        EveryReachableStored(states, steps, k);
        PreviewStaysRightIff(states[k], steps[k], c);
        assert PreviewRight(states[k + 1], c);
      }
    }
  }

  lemma {:induction false} PreviewRightWithout(states: seq<State>, steps: seq<Step>, i: nat, c: Contact)
    requires IsRun(states, steps) && states[0] == Init && i < |states|
    requires forall k :: 0 <= k < i ==> !KeepsOldPreview(states[k], steps[k], c)
    ensures PreviewRight(states[i], c)
  {
    if i > 0 {
      PreviewRightWithout(states, steps, i - 1, c);
      EveryReachableStored(states, steps, i - 1);
      PreviewStaysRightIff(states[i - 1], steps[i - 1], c);
    }
  }

  // ===== timestamps =====

  ghost predicate TimeRight(s: State, c: Contact) {
    c in s.db.conversations ==>
      Newest(s.db.rows, c).Some? && s.db.conversations[c].lastMessageAt == Some(Newest(s.db.rows, c).value.at)
  }

  ghost predicate KeepsOldTime(s: State, a: Step, c: Contact) {
    OnCopy(s, a, c) && CopyAt(s, a).lastMessageAt == Some(a.now) != s.db.conversations[c].lastMessageAt
  }

  lemma TimeStaysRightIff(s: State, a: Step, c: Contact)
    requires HeldKnown(s) && Enabled(s, a) && TimeRight(s, c)
    ensures TimeRight(Next(s, a), c) <==> !KeepsOldTime(s, a, c)
  {
    if a.Commit? {
      var item := ItemAt(s, a);
      NewestSnoc(s.db.rows, Row(ContactOf(EntryAt(s, a.delivery), item), item.externalMessageId, item.body, a.now), c);
    }
  }

  /** The timestamp is right in every state so far exactly when no step so far left it out. */
  lemma TimeRightThroughoutIff(states: seq<State>, steps: seq<Step>, i: nat, c: Contact)
    requires IsRun(states, steps) && states[0] == Init && i < |states|
    ensures (forall k :: 0 <= k <= i ==> TimeRight(states[k], c)) <==>
            (forall k :: 0 <= k < i ==> !KeepsOldTime(states[k], steps[k], c))
  {
    if forall k :: 0 <= k < i ==> !KeepsOldTime(states[k], steps[k], c) {
      forall k | 0 <= k <= i ensures TimeRight(states[k], c) { TimeRightWithout(states, steps, k, c); }
    }
    if forall k :: 0 <= k <= i ==> TimeRight(states[k], c) {
      forall k | 0 <= k < i ensures !KeepsOldTime(states[k], steps[k], c) {
        EveryReachableStored(states, steps, k);
        TimeStaysRightIff(states[k], steps[k], c);
        assert TimeRight(states[k + 1], c);
      }
    }
  }

  lemma {:induction false} TimeRightWithout(states: seq<State>, steps: seq<Step>, i: nat, c: Contact)
    requires IsRun(states, steps) && states[0] == Init && i < |states|
    requires forall k :: 0 <= k < i ==> !KeepsOldTime(states[k], steps[k], c)
    ensures TimeRight(states[i], c)
  {
    if i > 0 {
      TimeRightWithout(states, steps, i - 1, c);
      EveryReachableStored(states, steps, i - 1);
      TimeStaysRightIff(states[i - 1], steps[i - 1], c);
    }
  }

  /** Somebody else writes a conversation while a session holds a copy of it. */
  ghost predicate Interferes(s: State, a: Step) {
    && Enabled(s, a)
    && exists d :: d in s.flights && s.flights[d].held.Some? && Writes(s, a, d, s.flights[d].held.value.contact)
  }

  /** The step writes the row of `c` from outside delivery `d`. */
  ghost predicate Writes(s: State, a: Step, d: nat, c: Contact)
    requires Enabled(s, a)
  {
    match a
    case MarkRead(b) => b == c
    case Commit(b, now) => b != d && HandledAt(s, b, now).row.Some? &&
        ContactOf(EntryAt(s, b), EntryAt(s, b).items[s.flights[b].next]) == c
    case _ => false
  }

  ghost predicate CopiesCurrent(s: State) {
    forall d :: d in s.flights && s.flights[d].held.Some? ==>
      var h := s.flights[d].held.value; h.contact in s.db.conversations && s.db.conversations[h.contact] == h.copy
  }

  lemma QuietKeepsCopies(s: State, a: Step)
    requires CopiesCurrent(s) && Enabled(s, a) && !Interferes(s, a)
    ensures CopiesCurrent(Next(s, a))
  {
    var t := Next(s, a);
    forall d | d in t.flights && t.flights[d].held.Some?
      ensures var h := t.flights[d].held.value;
        h.contact in t.db.conversations && t.db.conversations[h.contact] == h.copy
    {
      if d in s.flights && s.flights[d].held.Some? { assert !Writes(s, a, d, s.flights[d].held.value.contact); }
    }
  }

  /** All three columns are right in every state of a run in which nobody marks a conversation
      read, and no second worker stores to it, while a session is between two of its messages. */
  lemma {:induction false} RightWhenQuiet(states: seq<State>, steps: seq<Step>, i: nat, c: Contact)
    requires IsRun(states, steps) && states[0] == Init && i < |states|
    requires forall k :: 0 <= k < i ==> !Interferes(states[k], steps[k])
    ensures CopiesCurrent(states[i])
    ensures MarksKnown(states[i]) && UnreadExact(states[i], c) && PreviewRight(states[i], c) && TimeRight(states[i], c)
  {
    EveryReachableMarked(states, steps, i);
    if i > 0 {
      RightWhenQuiet(states, steps, i - 1, c);
      EveryReachableMarked(states, steps, i - 1);
      QuietKeepsCopies(states[i - 1], steps[i - 1]);
      UnreadStaysExactIff(states[i - 1], steps[i - 1], c);
      PreviewStaysRightIff(states[i - 1], steps[i - 1], c);
      TimeStaysRightIff(states[i - 1], steps[i - 1], c);
    }
  }

  lemma TwoMessageEnd(e: Entry, t: Instant)
    requires TwoMessages(e)
    ensures var c, s := ContactOf(e, e.items[0]), TwoMessageRun(e, t).0[6];
      && s.db.rows == [RowFor(e, 0, t), RowFor(e, 1, t)]
      && s.readFrom == map[c := 1] && c in s.db.conversations && s.db.conversations[c].unread == 2
  {}

  lemma TwoMessageIsRun(e: Entry, t: Instant)
    requires TwoMessages(e)
    ensures IsRun(TwoMessageRun(e, t).0, TwoMessageRun(e, t).1)
  {}

  lemma CountOfTwo(a: Row, b: Row)
    requires a.contact == b.contact
    ensures CountFor([a, b][1..], b.contact) == 1
  {
    assert [a, b][1..] == [] + [b];
    CountForSnoc([], b, b.contact);
  }

  /** One worker and one reader are enough to break it: a payload with two messages from one
      sender, marked read between them, ends with the first message unread again. */
  lemma MarkReadIsUndone(e: Entry, t: Instant)
    requires TwoMessages(e)
    ensures var c := ContactOf(e, e.items[0]);
      var states, steps := TwoMessageRun(e, t).0, TwoMessageRun(e, t).1;
      && IsRun(states, steps) && states[0] == Init
      && MarksKnown(states[6]) && c in states[6].db.conversations
      && states[6].db.conversations[c].unread == 2
      && CountFor(states[6].db.rows[ReadFrom(states[6], c)..], c) == 1
  {
    TwoMessageIsRun(e, t);
    TwoMessageEnd(e, t);
    CountOfTwo(RowFor(e, 0, t), RowFor(e, 1, t));
  }

  ghost predicate TwoMessages(e: Entry) {
    && |e.items| == 2 && e.items[0].sender == e.items[1].sender
    && e.items[0].externalMessageId != e.items[1].externalMessageId
  }

  ghost function TwoMessageRun(e: Entry, t: Instant): (r: (seq<State>, seq<Step>))
    requires TwoMessages(e)
    ensures |r.0| == 7
  {
    var c := ContactOf(e, e.items[0]);
    var s1 := Next(Init, Enqueue(e));
    var s2 := Next(s1, Receive(0, 0));
    var s3 := Next(s2, Commit(0, t));
    var s4 := Next(s3, Publish(0));
    var s5 := Next(s4, MarkRead(c));
    var s6 := Next(s5, Commit(0, t));
    ([Init, s1, s2, s3, s4, s5, s6], [Enqueue(e), Receive(0, 0), Commit(0, t), Publish(0), MarkRead(c), Commit(0, t)])
  }

  // ===== the inbox order: timestamps move forward =====

  /** The clock has not run behind any stamp already stored. */
  ghost predicate ClockAhead(s: State, a: Step) {
    a.Commit? ==> forall c :: c in s.db.conversations ==> Walk.Forward(s.db.conversations[c].lastMessageAt, Some(a.now))
  }

  /** With a clock that does not run back, the worker moves every conversation's timestamp as the
      newest-first walk needs it moved. */
  lemma {:induction false} WorkerMovesForward(states: seq<State>, steps: seq<Step>, i: nat, j: nat, c: Contact)
    requires IsRun(states, steps) && i <= j < |states| && c in states[i].db.conversations
    requires forall k :: i <= k < j ==> ClockAhead(states[k], steps[k])
    ensures c in states[j].db.conversations
    ensures Walk.Forward(states[i].db.conversations[c].lastMessageAt, states[j].db.conversations[c].lastMessageAt)
  {
    if i < j {
      WorkerMovesForward(states, steps, i, j - 1, c);
      StepMovesForward(states[j - 1], steps[j - 1], c);
    }
  }

  lemma StepMovesForward(s: State, a: Step, c: Contact)
    requires Enabled(s, a) && ClockAhead(s, a) && c in s.db.conversations
    ensures c in Next(s, a).db.conversations
    ensures Walk.Forward(s.db.conversations[c].lastMessageAt, Next(s, a).db.conversations[c].lastMessageAt)
  {}

  /** What a session holds is no newer than the row. */
  ghost predicate CopiesBehind(s: State) {
    forall d :: d in s.flights && s.flights[d].held.Some? ==>
      var h := s.flights[d].held.value;
      h.contact in s.db.conversations && Walk.Forward(h.copy.lastMessageAt, s.db.conversations[h.contact].lastMessageAt)
  }

  lemma StepKeepsBehind(s: State, a: Step)
    requires CopiesBehind(s) && AllDated(s.db) && HeldKnown(s) && Enabled(s, a) && ClockAhead(s, a)
    ensures CopiesBehind(Next(s, a))
  {
    var t := Next(s, a);
    forall d | d in t.flights && t.flights[d].held.Some?
      ensures var h := t.flights[d].held.value;
        h.contact in t.db.conversations &&
            Walk.Forward(h.copy.lastMessageAt, t.db.conversations[h.contact].lastMessageAt)
    {
      var h := t.flights[d].held.value;
      if h.contact in s.db.conversations { StepMovesForward(s, a, h.contact); }
    }
  }

  lemma ClockWritesTime(s: State, a: Step, c: Contact)
    requires CopiesBehind(s) && Enabled(s, a) && ClockAhead(s, a)
    ensures !KeepsOldTime(s, a, c)
  {}

  /** With such a clock the timestamp is the newest message's in every state, whatever the
      sessions hold. */
  lemma {:induction false} TimeRightWithClock(states: seq<State>, steps: seq<Step>, i: nat, c: Contact)
    requires IsRun(states, steps) && states[0] == Init && i < |states|
    requires forall k :: 0 <= k < i ==> ClockAhead(states[k], steps[k])
    ensures CopiesBehind(states[i]) && TimeRight(states[i], c)
  {
    if i > 0 {
      TimeRightWithClock(states, steps, i - 1, c);
      EveryReachableStored(states, steps, i - 1);
      StepKeepsBehind(states[i - 1], steps[i - 1]);
      ClockWritesTime(states[i - 1], steps[i - 1], c);
      TimeStaysRightIff(states[i - 1], steps[i - 1], c);
    }
  }

  // ===== the inbox order: no conversation without a timestamp =====

  /** A listing of conversations as a committed state has them. */
  ghost predicate Lists(snap: Keyset.Snapshot<Contact>, db: Tables) {
    forall r :: r in snap.rows ==> r.data in db.conversations && r.key.ts == db.conversations[r.data].lastMessageAt
  }

  /** The worker commits no conversation without a timestamp, so over any table it alone has
      written, a finished oldest-first walk shows everything that matches, whatever the page sizes. */
  lemma OldestFirstComplete(states: seq<State>, steps: seq<Step>, i: nat, snap: Keyset.Snapshot<Contact>,
                            limits: seq<int>, pages: seq<Keyset.Page<Contact>>)
    requires IsRun(states, steps) && states[0] == Init && i < |states| && Lists(snap, states[i].db)
    requires Walk.IsWalk(false, Walk.Still(snap, |pages|), limits, pages) && pages[|pages| - 1].next.None?
    ensures forall r :: r in snap.rows ==> r.key.ts.Some?
    ensures Walk.Concat(pages) == Keyset.Sort(false, Walk.Matching(snap))
  {
    EveryReachableStored(states, steps, i);
    forall r | r in snap.rows ensures r.key.ts.Some? {
      assert r.data in states[i].db.conversations;
    }
    Walk.OldestFirstResult(snap, limits, pages);
  }

  // ===== a preview that stays behind =====

  /** Two payloads of one sender: one with two messages of one preview, one with another. */
  ghost predicate Crossed(a: Entry, b: Entry) {
    && |a.items| == 2 && |b.items| == 1 && a.orgId == b.orgId && a.channelType == b.channelType
    && a.items[0].sender == a.items[1].sender == b.items[0].sender
    && a.items[0].externalMessageId != a.items[1].externalMessageId
    && b.items[0].externalMessageId != a.items[0].externalMessageId
    && b.items[0].externalMessageId != a.items[1].externalMessageId
    && Preview(a.items[0].body) == Preview(a.items[1].body) != Preview(b.items[0].body)
  }

  function RowFor(e: Entry, k: nat, t: Instant): Row
    requires k < |e.items|
  {
    Row(ContactOf(e, e.items[k]), e.items[k].externalMessageId, e.items[k].body, t)
  }

  /** The tables after one, two and three of the messages, in the order a, b, a. */
  function TablesAfter(a: Entry, b: Entry, t: Instant, u: Instant, v: Instant, n: nat): Tables
    requires |a.items| == 2 && |b.items| == 1
  {
    var c := ContactOf(a, a.items[0]);
    if n == 1 then Tables({c}, map[c := Conversation(Some(t), Preview(a.items[0].body), 1)], [RowFor(a, 0, t)])
    else if n == 2 then
      Tables({c}, map[c := Conversation(Some(u), Preview(b.items[0].body), 2)], [RowFor(a, 0, t), RowFor(b, 0, u)])
    else
      Tables({c}, map[c := Conversation(Some(v), Preview(b.items[0].body), 2)],
             [RowFor(a, 0, t), RowFor(b, 0, u), RowFor(a, 1, v)])
  }

  /** Both payloads queued, the first message of `a` stored and announced, `a` still being worked on. */
  ghost function Midway(a: Entry, b: Entry, t: Instant): State
    requires Crossed(a, b)
  {
    var held := Held(ContactOf(a, a.items[0]), Conversation(Some(t), Preview(a.items[0].body), 1));
    State(TablesAfter(a, b, t, t, t, 1), [a, b], {}, {}, map[0 := Flight(0, 1, None, Some(held))], [0], map[])
  }

  lemma FirstStored(a: Entry, b: Entry, t: Instant) returns (states: seq<State>)
    requires Crossed(a, b)
    ensures IsRun(states, [Enqueue(a), Enqueue(b), Receive(0, 0), Commit(0, t), Publish(0)])
    ensures states[0] == Init && states[5] == Midway(a, b, t)
  {
    var s1 := Next(Init, Enqueue(a));
    var s2 := Next(s1, Enqueue(b));
    var s3 := Next(s2, Receive(0, 0));
    assert !Taken(s3.db.rows, a.channelType, a.items[0].externalMessageId);
    var s4 := Next(s3, Commit(0, t));
    assert s4.db == TablesAfter(a, b, t, t, t, 1);
    var s5 := Next(s4, Publish(0));
    states := [Init, s1, s2, s3, s4, s5];
  }

  lemma OthersStored(a: Entry, b: Entry, t: Instant, u: Instant, v: Instant) returns (states: seq<State>)
    requires Crossed(a, b) && t < u < v
    ensures IsRun(states, [Receive(1, 1), Commit(1, u), Commit(0, v)])
    ensures states[0] == Midway(a, b, t) && states[3].db == TablesAfter(a, b, t, u, v, 3)
  {
    var s0 := Midway(a, b, t);
    var s1 := Next(s0, Receive(1, 1));
    assert !Taken(s1.db.rows, b.channelType, b.items[0].externalMessageId);
    var s2 := Next(s1, Commit(1, u));
    assert s2.db == TablesAfter(a, b, t, u, u, 2);
    assert !Taken(s2.db.rows, a.channelType, a.items[1].externalMessageId);
    var s3 := Next(s2, Commit(0, v));
    assert s3.db == TablesAfter(a, b, t, u, v, 3);
    states := [s0, s1, s2, s3];
  }

  /** "hi", "hi" from one payload with "yo" from another between them, no transactions overlapping:
      the newest message is "hi" and the inbox goes on showing "yo". */
  lemma PreviewStaysBehind(a: Entry, b: Entry, t: Instant, u: Instant, v: Instant)
      returns (states: seq<State>, steps: seq<Step>)
    requires Crossed(a, b) && t < u < v
    ensures IsRun(states, steps) && states[0] == Init
    ensures var c, s := ContactOf(a, a.items[0]), states[|steps|];
      && c in s.db.conversations && s.db.conversations[c].preview == Preview(b.items[0].body)
      && Newest(s.db.rows, c) == Some(RowFor(a, 1, v)) && !PreviewRight(s, c)
  {
    var first := FirstStored(a, b, t);
    var others := OthersStored(a, b, t, u, v);
    var start, end := [Enqueue(a), Enqueue(b), Receive(0, 0), Commit(0, t), Publish(0)],
        [Receive(1, 1), Commit(1, u), Commit(0, v)];
    JoinRuns(first, start, others, end);
    states, steps := first + others[1..], start + end;
    assert states[8] == others[3];
    ShowsIsPreview(Preview(b.items[0].body), a.items[1].body);
  }
}
