/** The inbound worker: webhook payloads delivered at least once, in any order, to workers
    that may stop anywhere, against tables whose uniqueness constraint is the only guard. */
module InboundWorker {
  import opened Prelude
  import opened IsoTime

  /** One normalized customer message. */
  datatype Item = Item(sender: string, externalMessageId: string, body: Option<string>)

  /** One queued webhook call. */
  datatype Entry = Entry(orgId: string, channelType: string, items: seq<Item>)

  /** What a channel identity, and its one conversation, is looked up by. */
  datatype Contact = Contact(orgId: string, channelType: string, externalId: string)

  datatype Conversation = Conversation(lastMessageAt: Option<Instant>, preview: string, unread: int)

  /** One inbound message row. */
  datatype Row = Row(contact: Contact, externalMessageId: string, body: Option<string>, at: Instant)

  datatype Tables = Tables(identities: set<Contact>, conversations: map<Contact, Conversation>, rows: seq<Row>)

  /** The conversation object a session still references after its commit. Objects do not expire
      on commit, so the next item of the same payload works on this copy, not on the row. */
  datatype Held = Held(contact: Contact, copy: Conversation)

  function Preview(body: Option<string>): string {
    var text := if body.Some? then body.value else "";
    if |text| <= 200 then text else text[..200]
  }

  /** The column shows the body's first 200 characters, and nothing where there is no body. */
  lemma PreviewMeaning(body: Option<string>)
    ensures body.None? ==> Preview(body) == ""
    ensures body.Some? ==>
        Preview(body) <= body.value && |Preview(body)| == (if |body.value| < 200 then |body.value| else 200)
  {}

  predicate SameKey(a: Row, channelType: string, id: string) {
    a.contact.channelType == channelType && a.externalMessageId == id
  }

  /** The uniqueness constraint: the pair is taken, by any organisation. */
  predicate Taken(rows: seq<Row>, channelType: string, id: string) {
    exists i :: 0 <= i < |rows| && SameKey(rows[i], channelType, id)
  }

  // ===== one item: the specification =====

  function ContactOf(entry: Entry, item: Item): Contact { Contact(entry.orgId, entry.channelType, item.sender) }

  const NEW_CONVERSATION := Conversation(None, "", 0)

  function RowOf(db: Tables, c: Contact): Conversation {
    if c in db.conversations then db.conversations[c] else NEW_CONVERSATION
  }

  /** The conversation as the session sees it: its own copy if it still holds one. */
  function Copy(db: Tables, held: Option<Held>, c: Contact): Conversation {
    if held.Some? && held.value.contact == c then held.value.copy else RowOf(db, c)
  }

  /** The attributes the item's message leaves on the object. */
  function Assigned(copy: Conversation, item: Item, now: Instant): Conversation {
    Conversation(Some(now), Preview(item.body), copy.unread + 1)
  }

  /** A column is written only if its attribute changed on the object. */
  function Written<T(==)>(copy: T, row: T, value: T): T { if value == copy then row else value }

  function Flushed(copy: Conversation, row: Conversation, value: Conversation): Conversation {
    Conversation(Written(copy.lastMessageAt, row.lastMessageAt, value.lastMessageAt),
                 Written(copy.preview, row.preview, value.preview),
                 Written(copy.unread, row.unread, value.unread))
  }

  function Insert(db: Tables, held: Option<Held>, c: Contact, item: Item, now: Instant): Tables {
    var copy := Copy(db, held, c);
    Tables(db.identities + {c},
           db.conversations[c := Flushed(copy, RowOf(db, c), Assigned(copy, item, now))],
           db.rows + [Row(c, item.externalMessageId, item.body, now)])
  }

  /** Where one item leaves the tables, the session and, if it was new, the number of its row. */
  datatype Handled = Handled(db: Tables, held: Option<Held>, row: Option<nat>)

  function Handle(db: Tables, held: Option<Held>, entry: Entry, item: Item, now: Instant): Handled {
    var c := ContactOf(entry, item);
    if Taken(db.rows, entry.channelType, item.externalMessageId) then Handled(db, None, None)
    else
      Handled(Insert(db, held, c, item, now), Some(Held(c, Assigned(Copy(db, held, c), item, now))), Some(|db.rows|))
  }

  // ===== the worker =====

  /** The first `n` items of an entry, each committed and announced. */
  datatype Progress = Progress(db: Tables, held: Option<Held>, published: seq<nat>)

  function HandleAll(p: Progress, entry: Entry, n: nat, clock: seq<Instant>): Progress
    requires n <= |entry.items| && n <= |clock|
  {
    if n == 0 then p
    else
      var before := HandleAll(p, entry, n - 1, clock);
      var h := Handle(before.db, before.held, entry, entry.items[n - 1], clock[n - 1]);
      Progress(h.db, h.held, if h.row.Some? then before.published + [h.row.value] else before.published)
  }

  lemma HandleOneMore(p: Progress, entry: Entry, i: nat, clock: seq<Instant>)
    requires i < |entry.items| && i < |clock|
    ensures var before := HandleAll(p, entry, i, clock);
      var h := Handle(before.db, before.held, entry, entry.items[i], clock[i]);
      HandleAll(p, entry, i + 1, clock)
        == Progress(h.db, h.held, if h.row.Some? then before.published + [h.row.value] else before.published)
  {}

  /** Where processing stops, if anything fails: at an item, before or after its commit. */
  datatype Stop = Never | Before(item: nat) | After(item: nat)

  /** The UPDATE of one object: the columns whose attributes changed since it was loaded. */
  method Flush(loaded: Conversation, row: Conversation, changed: Conversation) returns (after: Conversation)
    ensures after == Flushed(loaded, row, changed)
  {
    after := row;
    if changed.lastMessageAt != loaded.lastMessageAt { after := after.(lastMessageAt := changed.lastMessageAt); }
    if changed.preview != loaded.preview { after := after.(preview := changed.preview); }
    if changed.unread != loaded.unread { after := after.(unread := changed.unread); }
  }

  class Session {
    var committed: Tables      // what every other transaction sees
    var working: Tables        // the open transaction's own view
    var held: Option<Held>
    var published: seq<nat>    // rows announced with `message.received`

    ghost predicate Idle() reads this { working == committed }

    constructor (db: Tables, announced: seq<nat>)
      ensures Idle() && committed == db && held == None && published == announced
    {
      committed, working, held, published := db, db, None, announced;
    }

    /** Drops the open transaction and expires every object the session holds. */
    method Rollback()
      modifies this`working, this`held
      ensures working == committed && held.None?
    {
      working, held := committed, None;
    }

    /** The identity and its conversation, inserted if they are not there; and the object to work on. */
    method FindOrCreate(c: Contact) returns (conversation: Conversation)
      modifies this`working
      ensures working == old(working).(identities := old(working).identities + {c},
                                       conversations := old(working).conversations[c := RowOf(old(working), c)])
      ensures conversation == Copy(old(working), held, c)
    {
      if c !in working.identities {
        working := working.(identities := working.identities + {c});
      }
      if c !in working.conversations {
        working := working.(conversations := working.conversations[c := NEW_CONVERSATION]);
      }
      conversation := if held.Some? && held.value.contact == c then held.value.copy else working.conversations[c];
    }

    /** Either commits the identity, the conversation and the row together or, when the
        uniqueness constraint is broken, loses all three. */
    method ProcessItem(entry: Entry, item: Item, now: Instant) returns (number: Option<nat>)
      requires Idle()
      modifies this`committed, this`working, this`held
      ensures Idle()
      ensures Handled(committed, held, number) == Handle(old(committed), old(held), entry, item, now)
      ensures number.None? <==> Taken(old(committed).rows, entry.channelType, item.externalMessageId)
      ensures number.None? ==> committed == old(committed) && held == None
      ensures number.Some? ==>
        var c := Contact(entry.orgId, entry.channelType, item.sender);
        && number.value == |old(committed).rows| && held.Some? && held.value.contact == c
        && committed.rows == old(committed).rows + [Row(c, item.externalMessageId, item.body, now)]
        && committed.identities == old(committed).identities + {c}
        && committed.conversations.Keys == old(committed).conversations.Keys + {c}
        && (forall k :: k in old(committed).conversations && k != c ==>
              committed.conversations[k] == old(committed).conversations[k])
      ensures number.Some? && (old(held).None? || old(held).value.contact != held.value.contact) ==>
        var c := held.value.contact;
        var unread := if c in old(committed).conversations then old(committed).conversations[c].unread else 0;
        committed.conversations[c] == Conversation(Some(now), Preview(item.body), unread + 1)
    {
      var c := Contact(entry.orgId, entry.channelType, item.sender);
      var conversation := FindOrCreate(c);
      if Taken(working.rows, entry.channelType, item.externalMessageId) {
        Rollback();
        return None;
      }
      number := Some(|working.rows|);
      working := working.(rows := working.rows + [Row(c, item.externalMessageId, item.body, now)]);
      var loaded := conversation;
      conversation := conversation.(lastMessageAt := Some(now));
      conversation := conversation.(preview := Preview(item.body));
      conversation := conversation.(unread := conversation.unread + 1);
      var row := Flush(loaded, working.conversations[c], conversation);
      working := working.(conversations := working.conversations[c := row]);
      held := Some(Held(c, conversation));
      committed := working;
    }

    /** One payload, item by item, up to the end or the point of failure. */
    method ProcessInboundMessage(entry: Entry, clock: seq<Instant>, stop: Stop) returns (done: bool)
      requires Idle() && held.None? && |clock| == |entry.items|
      modifies this
      ensures Idle()
      ensures done <==> stop.Never? || stop.item >= |entry.items|
      ensures var start := Progress(old(committed), None, old(published));
        if done then Progress(committed, held, published) == HandleAll(start, entry, |entry.items|, clock)
        else
          var reached := HandleAll(start, entry, stop.item, clock);
          && published == reached.published
          && committed == if stop.Before? then reached.db
                          else Handle(reached.db, reached.held, entry, entry.items[stop.item], clock[stop.item]).db
    {
      ghost var start := Progress(committed, None, published);
      for i := 0 to |entry.items|
        invariant Idle()
        invariant Progress(committed, held, published) == HandleAll(start, entry, i, clock)
        invariant stop.Never? || i <= stop.item
      {
        if stop == Before(i) { return false; }
        HandleOneMore(start, entry, i, clock);
        var row := ProcessItem(entry, entry.items[i], clock[i]);
        if stop == After(i) { return false; }
        if row.Some? {
          published := published + [row.value];
        }
      }
      return true;
    }
  }

  // ===== the system: queue, workers and readers, one step at a time =====

  /** One delivery being worked on: the item it is at, the row it has yet to announce, what
      its session holds. */
  datatype Flight = Flight(entry: nat, next: nat, unannounced: Option<nat>, held: Option<Held>)

  datatype State = State(
    db: Tables,
    entries: seq<Entry>,            // everything ever queued
    deleted: set<nat>,
    dead: set<nat>,                 // moved to the dead-letter queue
    flights: map<nat, Flight>,      // by delivery
    published: seq<nat>,
    readFrom: map<Contact, nat>)    // rows committed before the last mark_read

  const Init := State(Tables({}, map[], []), [], {}, {}, map[], [], map[])

  datatype Step =
    | Enqueue(entry: Entry)
    | Receive(delivery: nat, id: nat)
    | Commit(delivery: nat, now: Instant)
    | Publish(delivery: nat)
    | Crash(delivery: nat)
    | Delete(delivery: nat)
    | Redrive(id: nat)
    | MarkRead(contact: Contact)

  predicate Working(s: State, d: nat) {
    d in s.flights && s.flights[d].entry < |s.entries| && s.flights[d].unannounced.None?
  }

  predicate Enabled(s: State, a: Step) {
    match a
    case Enqueue(_) => true
    case Receive(d, id) => d !in s.flights && id < |s.entries| && id !in s.deleted && id !in s.dead
    case Commit(d, _) => Working(s, d) && s.flights[d].next < |s.entries[s.flights[d].entry].items|
    case Publish(d) => d in s.flights && s.flights[d].unannounced.Some?
    case Crash(d) => d in s.flights
    case Delete(d) => Working(s, d) && s.flights[d].next == |s.entries[s.flights[d].entry].items|
    case Redrive(id) => id < |s.entries| && id !in s.deleted
    case MarkRead(c) => c in s.db.conversations
  }

  /** The entry and the item a `Commit` works on, and what becomes of it. */
  function EntryAt(s: State, d: nat): Entry
    requires Working(s, d)
  {
    s.entries[s.flights[d].entry]
  }

  function HandledAt(s: State, d: nat, now: Instant): Handled
    requires Enabled(s, Commit(d, now))
  {
    var f := s.flights[d];
    Handle(s.db, f.held, EntryAt(s, d), EntryAt(s, d).items[f.next], now)
  }

  function Next(s: State, a: Step): State
    requires Enabled(s, a)
  {
    match a
    case Enqueue(e) => s.(entries := s.entries + [e])
    case Receive(d, id) => s.(flights := s.flights[d := Flight(id, 0, None, None)])
    case Commit(d, now) =>
      var h := HandledAt(s, d, now);
      var f := s.flights[d];
      s.(db := h.db, flights := s.flights[d := Flight(f.entry, f.next + 1, h.row, h.held)])
    case Publish(d) =>
      s.(published := s.published + [s.flights[d].unannounced.value],
         flights := s.flights[d := s.flights[d].(unannounced := None)])
    case Crash(d) => s.(flights := s.flights - {d})
    case Delete(d) => s.(deleted := s.deleted + {s.flights[d].entry}, flights := s.flights - {d})
    case Redrive(id) => s.(dead := s.dead + {id})
    case MarkRead(c) =>
      s.(db := s.db.(conversations := s.db.conversations[c := s.db.conversations[c].(unread := 0)]),
         readFrom := s.readFrom[c := |s.db.rows|])
  }

  /** A run: the states passed through, each by an enabled step. */
  ghost predicate IsRun(states: seq<State>, steps: seq<Step>) {
    && |states| == |steps| + 1
    && forall i :: 0 <= i < |steps| ==> Enabled(states[i], steps[i]) && states[i + 1] == Next(states[i], steps[i])
  }

  // ===== storage: each item once, and not lost =====

  ghost predicate RowsUnique(rows: seq<Row>) {
    forall i, j :: 0 <= i < j < |rows| ==> !SameKey(rows[j], rows[i].contact.channelType, rows[i].externalMessageId)
  }

  /** The first `n` items of an entry have their rows. */
  ghost predicate Saved(rows: seq<Row>, e: Entry, n: nat)
    requires n <= |e.items|
  {
    forall k :: 0 <= k < n ==> Taken(rows, e.channelType, e.items[k].externalMessageId)
  }

  ghost predicate Carries(e: Entry, r: Row) {
    && e.orgId == r.contact.orgId && e.channelType == r.contact.channelType
    && exists k :: 0 <= k < |e.items| && e.items[k].sender == r.contact.externalId
                   && e.items[k].externalMessageId == r.externalMessageId && e.items[k].body == r.body
  }

  ghost predicate Queued(entries: seq<Entry>, r: Row) { exists e :: 0 <= e < |entries| && Carries(entries[e], r) }

  ghost predicate FromPayloads(rows: seq<Row>, entries: seq<Entry>) {
    forall i :: 0 <= i < |rows| ==> Queued(entries, rows[i])
  }

  ghost predicate HasRow(rows: seq<Row>, c: Contact) { exists i :: 0 <= i < |rows| && rows[i].contact == c }

  /** A conversation and an identity for every row, a row for every conversation and identity. */
  ghost predicate NoEmptyThreads(db: Tables) {
    && (forall c :: c in db.identities <==> c in db.conversations)
    && (forall c :: c in db.conversations <==> HasRow(db.rows, c))
  }

  ghost predicate FlightsSaved(s: State) {
    forall d :: d in s.flights ==>
      && s.flights[d].entry < |s.entries| && s.flights[d].next <= |s.entries[s.flights[d].entry].items|
      && Saved(s.db.rows, s.entries[s.flights[d].entry], s.flights[d].next)
  }

  ghost predicate DeletedSaved(s: State) {
    forall id :: id in s.deleted ==> id < |s.entries| && Saved(s.db.rows, s.entries[id], |s.entries[id].items|)
  }

  ghost predicate HeldKnown(s: State) {
    forall d :: d in s.flights && s.flights[d].held.Some? ==> s.flights[d].held.value.contact in s.db.conversations
  }

  /** No conversation is without a timestamp. */
  ghost predicate AllDated(db: Tables) { forall c :: c in db.conversations ==> db.conversations[c].lastMessageAt.Some? }

  ghost predicate Stored(s: State) {
    && RowsUnique(s.db.rows) && FromPayloads(s.db.rows, s.entries) && NoEmptyThreads(s.db) && AllDated(s.db)
    && FlightsSaved(s) && DeletedSaved(s) && HeldKnown(s)
  }

  lemma TakenGrows(rows: seq<Row>, r: Row, channelType: string, id: string)
    ensures Taken(rows + [r], channelType, id) <==> Taken(rows, channelType, id) || SameKey(r, channelType, id)
  {
    if Taken(rows, channelType, id) {
      var i :| 0 <= i < |rows| && SameKey(rows[i], channelType, id);
      assert SameKey((rows + [r])[i], channelType, id);
    }
    if SameKey(r, channelType, id) { assert SameKey((rows + [r])[|rows|], channelType, id); }
  }

  lemma SavedGrows(rows: seq<Row>, r: Row, e: Entry, n: nat)
    requires n <= |e.items| && Saved(rows, e, n)
    ensures Saved(rows + [r], e, n)
  {
    forall k | 0 <= k < n ensures Taken(rows + [r], e.channelType, e.items[k].externalMessageId) {
      TakenGrows(rows, r, e.channelType, e.items[k].externalMessageId);
    }
  }

  lemma HandleKeepsSaved(db: Tables, held: Option<Held>, entry: Entry, item: Item, now: Instant, e: Entry, n: nat)
    requires n <= |e.items| && Saved(db.rows, e, n)
    ensures Saved(Handle(db, held, entry, item, now).db.rows, e, n)
  {
    SavedGrows(db.rows, Row(ContactOf(entry, item), item.externalMessageId, item.body, now), e, n);
  }

  lemma HandleTakes(db: Tables, held: Option<Held>, entry: Entry, item: Item, now: Instant)
    ensures Taken(Handle(db, held, entry, item, now).db.rows, entry.channelType, item.externalMessageId)
  {
    TakenGrows(db.rows, Row(ContactOf(entry, item), item.externalMessageId, item.body, now), entry.channelType,
        item.externalMessageId);
  }

  lemma HandleKeepsUnique(db: Tables, held: Option<Held>, entry: Entry, item: Item, now: Instant)
    requires RowsUnique(db.rows)
    ensures RowsUnique(Handle(db, held, entry, item, now).db.rows)
  {}

  lemma HasRowGrows(rows: seq<Row>, r: Row, c: Contact)
    ensures HasRow(rows + [r], c) <==> HasRow(rows, c) || r.contact == c
  {
    if HasRow(rows, c) {
      var i :| 0 <= i < |rows| && rows[i].contact == c;
      assert (rows + [r])[i].contact == c;
    }
    assert (rows + [r])[|rows|] == r;
  }

  /** A duplicate takes the identity and conversation made for it back with it. */
  lemma HandleKeepsThreads(db: Tables, held: Option<Held>, entry: Entry, item: Item, now: Instant)
    requires NoEmptyThreads(db)
    ensures NoEmptyThreads(Handle(db, held, entry, item, now).db)
  {
    var after := Handle(db, held, entry, item, now).db;
    var r := Row(ContactOf(entry, item), item.externalMessageId, item.body, now);
    forall c ensures HasRow(db.rows + [r], c) <==> HasRow(db.rows, c) || r.contact == c {
      HasRowGrows(db.rows, r, c);
    }
  }

  lemma HandleKeepsDated(db: Tables, held: Option<Held>, entry: Entry, item: Item, now: Instant)
    requires AllDated(db) && (held.Some? ==> held.value.contact in db.conversations)
    ensures AllDated(Handle(db, held, entry, item, now).db)
  {}

  lemma HandleKeepsSource(db: Tables, held: Option<Held>, entries: seq<Entry>, e: nat, k: nat, now: Instant)
    requires e < |entries| && k < |entries[e].items| && FromPayloads(db.rows, entries)
    ensures FromPayloads(Handle(db, held, entries[e], entries[e].items[k], now).db.rows, entries)
  {
    var rows := Handle(db, held, entries[e], entries[e].items[k], now).db.rows;
    forall i | 0 <= i < |rows| ensures Queued(entries, rows[i]) {
      if i < |db.rows| {
        assert rows[i] == db.rows[i];
      } else {
        assert Carries(entries[e], rows[i]);
      }
    }
  }

  lemma HandleSavesOne(db: Tables, held: Option<Held>, entry: Entry, k: nat, now: Instant)
    requires k < |entry.items| && Saved(db.rows, entry, k)
    ensures Saved(Handle(db, held, entry, entry.items[k], now).db.rows, entry, k + 1)
  {
    HandleKeepsSaved(db, held, entry, entry.items[k], now, entry, k);
    HandleTakes(db, held, entry, entry.items[k], now);
  }

  lemma {:induction false} HandleAllSaves(p: Progress, entry: Entry, n: nat, clock: seq<Instant>)
    requires n <= |entry.items| && n <= |clock|
    ensures Saved(HandleAll(p, entry, n, clock).db.rows, entry, n)
  {
    if n > 0 {
      var before := HandleAll(p, entry, n - 1, clock);
      HandleAllSaves(p, entry, n - 1, clock);
      HandleSavesOne(before.db, before.held, entry, n - 1, clock[n - 1]);
      HandleOneMore(p, entry, n - 1, clock);
    }
  }

  lemma {:induction false} SavedIsSkipped(p: Progress, entry: Entry, n: nat, clock: seq<Instant>)
    requires n <= |entry.items| && n <= |clock| && Saved(p.db.rows, entry, n)
    ensures HandleAll(p, entry, n, clock).db == p.db && HandleAll(p, entry, n, clock).published == p.published
  {
    if n > 0 { SavedIsSkipped(p, entry, n - 1, clock); }
  }

  /** Delivering a payload again, whenever and to whatever session, changes and announces nothing. */
  lemma RedeliveryIsNoOp(p: Progress, entry: Entry, clock: seq<Instant>, again: seq<Instant>)
    requires |clock| == |entry.items| == |again|
    ensures var done := HandleAll(p, entry, |entry.items|, clock);
      var twice := HandleAll(done.(held := None), entry, |entry.items|, again);
      twice.db == done.db && twice.published == done.published
  {
    HandleAllSaves(p, entry, |entry.items|, clock);
    SavedIsSkipped(HandleAll(p, entry, |entry.items|, clock).(held := None), entry, |entry.items|, again);
  }

  // ----- the worker is the machine -----

  /** The machine with delivery `d` past the first `n` items of its entry. */
  ghost function Past(s: State, d: nat, id: nat, n: nat, p: Progress): State {
    s.(db := p.db, published := p.published, flights := s.flights[d := Flight(id, n, None, p.held)])
  }

  ghost function OneMore(p: Progress, entry: Entry, n: nat, now: Instant): Progress
    requires n < |entry.items|
  {
    var h := Handle(p.db, p.held, entry, entry.items[n], now);
    Progress(h.db, h.held, if h.row.Some? then p.published + [h.row.value] else p.published)
  }

  lemma HandleAllOnce(p: Progress, entry: Entry, n: nat, clock: seq<Instant>)
    requires n < |entry.items| && n < |clock|
    ensures HandleAll(p, entry, n + 1, clock) == OneMore(HandleAll(p, entry, n, clock), entry, n, clock[n])
  {
    HandleOneMore(p, entry, n, clock);
  }

  /** Some run of the machine leads from `s` to `t`. */
  ghost predicate Reaches(s: State, t: State) {
    exists states, steps :: IsRun(states, steps) && states[0] == s && states[|steps|] == t
  }

  lemma ReachesNext(s: State, a: Step)
    requires Enabled(s, a)
    ensures Reaches(s, Next(s, a))
  {
    var states, steps := [s, Next(s, a)], [a];
    assert IsRun(states, steps) && states[0] == s && states[|steps|] == Next(s, a);
  }

  lemma ReachesThrough(s: State, t: State, u: State)
    requires Reaches(s, t) && Reaches(t, u)
    ensures Reaches(s, u)
  {
    var states, steps :| IsRun(states, steps) && states[0] == s && states[|steps|] == t;
    var later, more :| IsRun(later, more) && later[0] == t && later[|more|] == u;
    JoinRuns(states, steps, later, more);
    var all, acts := states + later[1..], steps + more;
    assert IsRun(all, acts) && all[0] == s && all[|acts|] == u;
  }

  /** The machine just after an item's commit, its row not announced yet. */
  ghost function Committed(s: State, d: nat, id: nat, n: nat, h: Handled, published: seq<nat>): State {
    s.(db := h.db, published := published, flights := s.flights[d := Flight(id, n + 1, h.row, h.held)])
  }

  lemma NextCommit(s: State, d: nat, id: nat, n: nat, now: Instant, p: Progress, h: Handled)
    requires id < |s.entries| && n < |s.entries[id].items|
    requires h == Handle(p.db, p.held, s.entries[id], s.entries[id].items[n], now)
    ensures Enabled(Past(s, d, id, n, p), Commit(d, now))
    ensures Next(Past(s, d, id, n, p), Commit(d, now)) == Committed(s, d, id, n, h, p.published)
  {
    var t := Next(Past(s, d, id, n, p), Commit(d, now));
    assert t.flights == s.flights[d := Flight(id, n + 1, h.row, h.held)];
  }

  lemma NextPublish(s: State, d: nat, id: nat, n: nat, p: Progress, h: Handled)
    requires h.row.Some?
    ensures Enabled(Committed(s, d, id, n, h, p.published), Publish(d))
    ensures Next(Committed(s, d, id, n, h, p.published), Publish(d))
         == Past(s, d, id, n + 1, Progress(h.db, h.held, p.published + [h.row.value]))
  {
    var t := Next(Committed(s, d, id, n, h, p.published), Publish(d));
    assert t.flights == s.flights[d := Flight(id, n + 1, None, h.held)];
  }

  lemma ReachesCommit(s: State, d: nat, id: nat, n: nat, now: Instant, p: Progress)
    requires id < |s.entries| && n < |s.entries[id].items|
    ensures Reaches(Past(s, d, id, n, p), Past(s, d, id, n + 1, OneMore(p, s.entries[id], n, now)))
  {
    var h := Handle(p.db, p.held, s.entries[id], s.entries[id].items[n], now);
    NextCommit(s, d, id, n, now, p, h);
    ReachesNext(Past(s, d, id, n, p), Commit(d, now));
    var t := Committed(s, d, id, n, h, p.published);
    if h.row.Some? {
      NextPublish(s, d, id, n, p, h);
      ReachesNext(t, Publish(d));
      ReachesThrough(Past(s, d, id, n, p), t, Past(s, d, id, n + 1, OneMore(p, s.entries[id], n, now)));
    }
  }

  /** `ps[i]` is where a session stands after `i` items of the entry. */
  ghost predicate Follows(ps: seq<Progress>, entry: Entry, clock: seq<Instant>, i: nat)
    requires i < |entry.items| && i < |clock| && i + 1 < |ps|
  {
    ps[i + 1] == OneMore(ps[i], entry, i, clock[i])
  }

  lemma Progresses(p: Progress, entry: Entry, clock: seq<Instant>) returns (ps: seq<Progress>)
    requires |clock| == |entry.items|
    ensures |ps| == |clock| + 1 && ps[0] == p && ps[|clock|] == HandleAll(p, entry, |clock|, clock)
    ensures forall i :: 0 <= i < |clock| ==> Follows(ps, entry, clock, i)
  {
    ps := [p];
    for n := 0 to |clock|
      invariant |ps| == n + 1 && ps[0] == p && ps[n] == HandleAll(p, entry, n, clock)
      invariant forall i :: 0 <= i < n ==> Follows(ps, entry, clock, i)
    {
      HandleAllOnce(p, entry, n, clock);
      var was := ps;
      ps := ps + [OneMore(ps[n], entry, n, clock[n])];
      forall i | 0 <= i <= n ensures Follows(ps, entry, clock, i) { if i < n { assert Follows(was, entry, clock, i); } }
    }
  }

  lemma ReachesFollowing(s: State, d: nat, id: nat, clock: seq<Instant>, ps: seq<Progress>, i: nat)
    requires id < |s.entries| && i < |s.entries[id].items| == |clock| && |ps| == |clock| + 1
    requires Follows(ps, s.entries[id], clock, i)
    ensures Reaches(Past(s, d, id, i, ps[i]), Past(s, d, id, i + 1, ps[i + 1]))
  {
    ReachesCommit(s, d, id, i, clock[i], ps[i]);
  }

  lemma {:induction false} ReachesAlong(at: seq<State>, n: nat)
    requires n < |at| && forall i :: 0 <= i < n ==> Reaches(at[i], at[i + 1])
    requires Reaches(at[0], at[0])
    ensures Reaches(at[0], at[n])
  {
    if n > 0 {
      ReachesAlong(at, n - 1);
      ReachesThrough(at[0], at[n - 1], at[n]);
    }
  }

  lemma ReachesItself(s: State)
    ensures Reaches(s, s)
  {
    assert IsRun([s], []) && [s][0] == s;
  }

  lemma ReachesAll(s: State, d: nat, id: nat, clock: seq<Instant>, ps: seq<Progress>)
    requires id < |s.entries| && |s.entries[id].items| == |clock| && |ps| == |clock| + 1
    requires forall i :: 0 <= i < |clock| ==> Follows(ps, s.entries[id], clock, i)
    ensures Reaches(Past(s, d, id, 0, ps[0]), Past(s, d, id, |clock|, ps[|clock|]))
  {
    var at := seq(|ps|, i requires 0 <= i < |ps| => Past(s, d, id, i, ps[i]));
    forall i | 0 <= i < |clock| ensures Reaches(at[i], at[i + 1]) { ReachesFollowing(s, d, id, clock, ps, i); }
    ReachesItself(at[0]);
    ReachesAlong(at, |clock|);
  }

  /** A session that works a payload to its end is a run of the machine: received, each item
      committed and announced, deleted; the tables and announcements end as the session leaves
      them. */
  lemma PayloadIsARun(s: State, d: nat, id: nat, clock: seq<Instant>)
    requires Enabled(s, Receive(d, id)) && |clock| == |s.entries[id].items|
    ensures var p := HandleAll(Progress(s.db, None, s.published), s.entries[id], |clock|, clock);
      Reaches(s, s.(db := p.db, published := p.published, deleted := s.deleted + {id}))
  {
    var ps := Progresses(Progress(s.db, None, s.published), s.entries[id], clock);
    var t := Past(s, d, id, |clock|, ps[|clock|]);
    ReachesEnds(s, d, id, |clock|, t, ps[|clock|]);
    ReachesAll(s, d, id, clock, ps);
    ReachesThrough(s, Past(s, d, id, 0, ps[0]), t);
    ReachesThrough(s, t, Next(t, Delete(d)));
  }

  lemma ReachesEnds(s: State, d: nat, id: nat, n: nat, t: State, p: Progress)
    requires Enabled(s, Receive(d, id)) && n == |s.entries[id].items| && t == Past(s, d, id, n, p)
    ensures Reaches(s, Past(s, d, id, 0, Progress(s.db, None, s.published)))
    ensures Enabled(t, Delete(d)) && Reaches(t, Next(t, Delete(d)))
    ensures Next(t, Delete(d)) == s.(db := p.db, published := p.published, deleted := s.deleted + {id})
  {
    ReachesNext(s, Receive(d, id));
    ReachesNext(t, Delete(d));
    assert Next(t, Delete(d)).flights == s.flights;
  }

  function RowFor(entry: Entry, k: nat, now: Instant): Row
    requires k < |entry.items|
  {
    var item := entry.items[k];
    Row(Contact(entry.orgId, entry.channelType, item.sender), item.externalMessageId, item.body, now)
  }

  ghost predicate IsItem(r: Row, entry: Entry, clock: seq<Instant>)
    requires |clock| == |entry.items|
  {
    exists k :: 0 <= k < |clock| && r == RowFor(entry, k, clock[k])
  }

  lemma OneMoreAdds(p: Progress, entry: Entry, n: nat, now: Instant)
    requires n < |entry.items|
    ensures var t := OneMore(p, entry, n, now);
      if t.db.rows == p.db.rows then t.published == p.published
      else t.db.rows == p.db.rows + [RowFor(entry, n, now)] && t.published == p.published + [|p.db.rows|]
  {}

  /** A payload's new rows are its items as they came; each is announced once, in order, and nothing
      else is. */
  lemma NewRowsAnnounced(p: Progress, entry: Entry, clock: seq<Instant>)
    requires |clock| == |entry.items|
    ensures var t := HandleAll(p, entry, |clock|, clock);
      && p.db.rows <= t.db.rows && p.published <= t.published
      && |t.published| - |p.published| == |t.db.rows| - |p.db.rows|
      && (forall i :: |p.published| <= i < |t.published| ==> t.published[i] == |p.db.rows| + i - |p.published|)
      && (forall i :: |p.db.rows| <= i < |t.db.rows| ==> IsItem(t.db.rows[i], entry, clock))
  {
    var ps := Progresses(p, entry, clock);
    NewRowsSoFar(ps, entry, clock, |clock|);
  }

  lemma {:induction false} NewRowsSoFar(ps: seq<Progress>, entry: Entry, clock: seq<Instant>, n: nat)
    requires |clock| == |entry.items| && n <= |clock| && |ps| == |clock| + 1
    requires forall i :: 0 <= i < |clock| ==> Follows(ps, entry, clock, i)
    ensures ps[0].db.rows <= ps[n].db.rows && ps[0].published <= ps[n].published
    ensures |ps[n].published| - |ps[0].published| == |ps[n].db.rows| - |ps[0].db.rows|
    ensures forall i :: |ps[0].published| <= i < |ps[n].published| ==>
              ps[n].published[i] == |ps[0].db.rows| + i - |ps[0].published|
    ensures forall i :: |ps[0].db.rows| <= i < |ps[n].db.rows| ==> IsItem(ps[n].db.rows[i], entry, clock)
  {
    if n > 0 {
      NewRowsSoFar(ps, entry, clock, n - 1);
      assert Follows(ps, entry, clock, n - 1);
      OneMoreAdds(ps[n - 1], entry, n - 1, clock[n - 1]);
      assert IsItem(RowFor(entry, n - 1, clock[n - 1]), entry, clock);
    }
  }

  lemma CommitKeepsFlights(s: State, d: nat, now: Instant)
    requires FlightsSaved(s) && Enabled(s, Commit(d, now))
    ensures FlightsSaved(Next(s, Commit(d, now)))
  {
    var t := Next(s, Commit(d, now));
    var f, entry := s.flights[d], EntryAt(s, d);
    forall b | b in t.flights
      ensures t.flights[b].entry < |t.entries| && t.flights[b].next <= |t.entries[t.flights[b].entry].items|
      ensures Saved(t.db.rows, t.entries[t.flights[b].entry], t.flights[b].next)
    {
      var g := s.flights[b];
      HandleKeepsSaved(s.db, f.held, entry, entry.items[f.next], now, s.entries[g.entry], g.next);
      HandleTakes(s.db, f.held, entry, entry.items[f.next], now);
    }
  }

  lemma CommitKeepsDeleted(s: State, d: nat, now: Instant)
    requires DeletedSaved(s) && Enabled(s, Commit(d, now))
    ensures DeletedSaved(Next(s, Commit(d, now)))
  {
    var f, entry := s.flights[d], EntryAt(s, d);
    forall id | id in s.deleted
      ensures Saved(Next(s, Commit(d, now)).db.rows, s.entries[id], |s.entries[id].items|)
    {
      HandleKeepsSaved(s.db, f.held, entry, entry.items[f.next], now, s.entries[id], |s.entries[id].items|);
    }
  }

  lemma EnqueueKeepsSource(rows: seq<Row>, entries: seq<Entry>, e: Entry)
    requires FromPayloads(rows, entries)
    ensures FromPayloads(rows, entries + [e])
  {
    forall i | 0 <= i < |rows| ensures Queued(entries + [e], rows[i]) {
      assert Queued(entries, rows[i]);
      var k :| 0 <= k < |entries| && Carries(entries[k], rows[i]);
      assert (entries + [e])[k] == entries[k];
    }
  }

  lemma StepKeepsHeld(s: State, a: Step)
    requires HeldKnown(s) && Enabled(s, a)
    ensures HeldKnown(Next(s, a))
  {}

  lemma CommitKeepsStored(s: State, d: nat, now: Instant)
    requires Stored(s) && Enabled(s, Commit(d, now))
    ensures Stored(Next(s, Commit(d, now)))
  {
    var f, entry := s.flights[d], EntryAt(s, d);
    CommitKeepsFlights(s, d, now);
    CommitKeepsDeleted(s, d, now);
    HandleKeepsUnique(s.db, f.held, entry, entry.items[f.next], now);
    HandleKeepsThreads(s.db, f.held, entry, entry.items[f.next], now);
    HandleKeepsDated(s.db, f.held, entry, entry.items[f.next], now);
    StepKeepsHeld(s, Commit(d, now));
    HandleKeepsSource(s.db, f.held, s.entries, f.entry, f.next, now);
  }

  lemma OtherStepsKeepDeliveries(s: State, a: Step)
    requires FlightsSaved(s) && DeletedSaved(s) && Enabled(s, a) && !a.Commit?
    ensures FlightsSaved(Next(s, a)) && DeletedSaved(Next(s, a))
  {}

  lemma MarkReadKeepsTables(db: Tables, c: Contact)
    requires NoEmptyThreads(db) && AllDated(db) && c in db.conversations
    ensures var after := db.(conversations := db.conversations[c := db.conversations[c].(unread := 0)]);
      NoEmptyThreads(after) && AllDated(after)
  {}

  lemma OtherStepsKeepStored(s: State, a: Step)
    requires Stored(s) && Enabled(s, a) && !a.Commit?
    ensures Stored(Next(s, a))
  {
    OtherStepsKeepDeliveries(s, a);
    StepKeepsHeld(s, a);
    if a.Enqueue? { EnqueueKeepsSource(s.db.rows, s.entries, a.entry); }
    if a.MarkRead? { MarkReadKeepsTables(s.db, a.contact); }
  }

  lemma StepKeepsStored(s: State, a: Step)
    requires Stored(s) && Enabled(s, a)
    ensures Stored(Next(s, a))
  {
    if a.Commit? { CommitKeepsStored(s, a.delivery, a.now); } else { OtherStepsKeepStored(s, a); }
  }

  /** Whatever is repeated, reordered, dropped midway or delivered to two workers at once: one
      row per provider message, none invented, a row for every item of a deleted entry, no
      conversation or identity without a message, and none without a timestamp. */
  lemma {:induction false} EveryReachableStored(states: seq<State>, steps: seq<Step>, i: nat)
    requires IsRun(states, steps) && states[0] == Init && i < |states|
    ensures Stored(states[i])
  {
    if i > 0 {
      EveryReachableStored(states, steps, i - 1);
      StepKeepsStored(states[i - 1], steps[i - 1]);
    } else {
      assert forall c :: !HasRow([], c);
    }
  }

  ghost predicate HasItem(e: Entry, channelType: string, id: string) {
    e.channelType == channelType && exists k :: 0 <= k < |e.items| && e.items[k].externalMessageId == id
  }

  ghost predicate Offered(entries: seq<Entry>, channelType: string, id: string) {
    exists e :: 0 <= e < |entries| && HasItem(entries[e], channelType, id)
  }

  ghost predicate AllDeleted(s: State) { forall id :: 0 <= id < |s.entries| ==> id in s.deleted }

  /** Once the queue has drained, the messages stored are exactly the messages offered. */
  lemma DrainedMeansStored(s: State, channelType: string, id: string)
    requires Stored(s) && AllDeleted(s)
    ensures Taken(s.db.rows, channelType, id) <==> Offered(s.entries, channelType, id)
  {
    if Taken(s.db.rows, channelType, id) {
      var i :| 0 <= i < |s.db.rows| && SameKey(s.db.rows[i], channelType, id);
      assert Queued(s.entries, s.db.rows[i]);
      var e :| 0 <= e < |s.entries| && Carries(s.entries[e], s.db.rows[i]);
      assert HasItem(s.entries[e], channelType, id);
    }
    if Offered(s.entries, channelType, id) {
      var e :| 0 <= e < |s.entries| && HasItem(s.entries[e], channelType, id);
      assert e in s.deleted;
    }
  }

  // ----- the constraint does not mention the organisation -----

  /** The row for an item in its own organisation. */
  ghost predicate TakenIn(rows: seq<Row>, orgId: string, channelType: string, id: string) {
    exists i :: 0 <= i < |rows| && SameKey(rows[i], channelType, id) && rows[i].contact.orgId == orgId
  }

  ghost predicate OwnRows(s: State) {
    forall e, k :: 0 <= e < |s.entries| && 0 <= k < |s.entries[e].items| ==>
      TakenIn(s.db.rows, s.entries[e].orgId, s.entries[e].channelType, s.entries[e].items[k].externalMessageId)
  }

  /** No two organisations are sent the same message id on one channel. */
  ghost predicate IdsStayInOrg(entries: seq<Entry>) {
    forall d, e, k | 0 <= d < |entries| && 0 <= e < |entries| && 0 <= k < |entries[e].items|
      :: HasItem(entries[d], entries[e].channelType, entries[e].items[k].externalMessageId) ==>
         entries[d].orgId == entries[e].orgId
  }

  lemma UniqueRow(rows: seq<Row>, i: nat, j: nat, channelType: string, id: string)
    requires RowsUnique(rows) && i < |rows| && j < |rows|
    requires SameKey(rows[i], channelType, id) && SameKey(rows[j], channelType, id)
    ensures i == j
  {}

  lemma RowInOrg(s: State, e: nat, k: nat)
    requires Stored(s) && AllDeleted(s) && IdsStayInOrg(s.entries) && e < |s.entries| && k < |s.entries[e].items|
    ensures TakenIn(s.db.rows, s.entries[e].orgId, s.entries[e].channelType, s.entries[e].items[k].externalMessageId)
  {
    var channelType, id := s.entries[e].channelType, s.entries[e].items[k].externalMessageId;
    assert e in s.deleted;
    assert Taken(s.db.rows, channelType, id);
    var i :| 0 <= i < |s.db.rows| && SameKey(s.db.rows[i], channelType, id);
    assert Queued(s.entries, s.db.rows[i]);
    var d :| 0 <= d < |s.entries| && Carries(s.entries[d], s.db.rows[i]);
    assert HasItem(s.entries[d], channelType, id);
  }

  lemma SharedIdSwallowed(s: State, d: nat, e: nat, k: nat)
    requires Stored(s) && OwnRows(s) && d < |s.entries| && e < |s.entries| && k < |s.entries[e].items|
    requires HasItem(s.entries[d], s.entries[e].channelType, s.entries[e].items[k].externalMessageId)
    ensures s.entries[d].orgId == s.entries[e].orgId
  {
    var channelType, id := s.entries[e].channelType, s.entries[e].items[k].externalMessageId;
    assert TakenIn(s.db.rows, s.entries[e].orgId, channelType, id);
    var i :| 0 <= i < |s.db.rows| && SameKey(s.db.rows[i], channelType, id) &&
        s.db.rows[i].contact.orgId == s.entries[e].orgId;
    var l :| 0 <= l < |s.entries[d].items| && s.entries[d].items[l].externalMessageId == id;
    assert TakenIn(s.db.rows, s.entries[d].orgId, s.entries[d].channelType, s.entries[d].items[l].externalMessageId);
    var j :| 0 <= j < |s.db.rows| && SameKey(s.db.rows[j], channelType, id) &&
        s.db.rows[j].contact.orgId == s.entries[d].orgId;
    UniqueRow(s.db.rows, i, j, channelType, id);
  }

  /** After the queue drains every organisation has its own messages exactly when no message id
      was offered to two of them; otherwise the later one's is dropped as a duplicate. */
  lemma OwnRowsIff(s: State)
    requires Stored(s) && AllDeleted(s)
    ensures OwnRows(s) <==> IdsStayInOrg(s.entries)
  {
    if IdsStayInOrg(s.entries) {
      forall e, k | 0 <= e < |s.entries| && 0 <= k < |s.entries[e].items|
        ensures TakenIn(s.db.rows, s.entries[e].orgId, s.entries[e].channelType,
            s.entries[e].items[k].externalMessageId)
      {
        RowInOrg(s, e, k);
      }
    }
    if OwnRows(s) {
      forall d, e, k | 0 <= d < |s.entries| && 0 <= e < |s.entries| && 0 <= k < |s.entries[e].items|
          && HasItem(s.entries[d], s.entries[e].channelType, s.entries[e].items[k].externalMessageId)
        ensures s.entries[d].orgId == s.entries[e].orgId
      {
        SharedIdSwallowed(s, d, e, k);
      }
    }
  }

  // ----- one message id, two organisations -----

  ghost predicate SharedId(a: Entry, b: Entry) {
    && |a.items| == 1 == |b.items| && a.orgId != b.orgId && a.channelType == b.channelType
    && a.items[0].externalMessageId == b.items[0].externalMessageId
  }

  /** The first organisation's entry handled and deleted, the second's still queued. */
  ghost function AfterFirst(a: Entry, b: Entry, t: Instant): State
    requires SharedId(a, b)
  {
    var c := ContactOf(a, a.items[0]);
    State(Insert(Init.db, None, c, a.items[0], t), [a, b], {0}, {}, map[], [0], map[])
  }

  lemma FirstEntryRun(a: Entry, b: Entry, t: Instant) returns (states: seq<State>)
    requires SharedId(a, b)
    ensures IsRun(states, [Enqueue(a), Enqueue(b), Receive(0, 0), Commit(0, t), Publish(0), Delete(0)])
    ensures states[0] == Init && states[6] == AfterFirst(a, b, t)
  {
    var s1 := Next(Init, Enqueue(a));
    var s2 := Next(s1, Enqueue(b));
    var s3 := Next(s2, Receive(0, 0));
    assert !Taken(s3.db.rows, a.channelType, a.items[0].externalMessageId);
    var s4 := Next(s3, Commit(0, t));
    var s5 := Next(s4, Publish(0));
    var s6 := Next(s5, Delete(0));
    assert s6.flights == map[];
    states := [Init, s1, s2, s3, s4, s5, s6];
  }

  lemma SecondEntryRun(a: Entry, b: Entry, t: Instant) returns (states: seq<State>)
    requires SharedId(a, b)
    ensures IsRun(states, [Receive(1, 1), Commit(1, t), Delete(1)])
    ensures states[0] == AfterFirst(a, b, t) && states[3] == AfterFirst(a, b, t).(deleted := {0, 1})
  {
    var s0 := AfterFirst(a, b, t);
    var s1 := Next(s0, Receive(1, 1));
    assert SameKey(s1.db.rows[0], b.channelType, b.items[0].externalMessageId);
    var s2 := Next(s1, Commit(1, t));
    var s3 := Next(s2, Delete(1));
    assert s3.flights == map[];
    states := [s0, s1, s2, s3];
  }

  lemma JoinRuns(states: seq<State>, steps: seq<Step>, later: seq<State>, more: seq<Step>)
    requires IsRun(states, steps) && IsRun(later, more) && later[0] == states[|steps|]
    ensures IsRun(states + later[1..], steps + more)
  {
    var all, acts := states + later[1..], steps + more;
    forall k | 0 <= k < |acts| ensures Enabled(all[k], acts[k]) && all[k + 1] == Next(all[k], acts[k]) {
      if k < |steps| {
        assert all[k] == states[k] && all[k + 1] == states[k + 1] && acts[k] == steps[k];
      } else {
        var j := k - |steps|;
        assert all[k] == later[j] && all[k + 1] == later[j + 1] && acts[k] == more[j];
      }
    }
  }

  /** Two organisations are sent one message id on one channel; the queue drains; the second
      has no such message. */
  lemma SecondOrgLosesIt(a: Entry, b: Entry, t: Instant) returns (states: seq<State>, steps: seq<Step>)
    requires SharedId(a, b)
    ensures IsRun(states, steps) && states[0] == Init
    ensures var s := states[|steps|];
      AllDeleted(s) && s.entries == [a, b] && !TakenIn(s.db.rows, b.orgId, b.channelType, b.items[0].externalMessageId)
  {
    var first := FirstEntryRun(a, b, t);
    var second := SecondEntryRun(a, b, t);
    var start := [Enqueue(a), Enqueue(b), Receive(0, 0), Commit(0, t), Publish(0), Delete(0)];
    var end := [Receive(1, 1), Commit(1, t), Delete(1)];
    JoinRuns(first, start, second, end);
    states, steps := first + second[1..], start + end;
    assert states[9] == second[3];
  }

  // ===== announcements: at most one a row =====

  ghost predicate Pending(s: State, d: nat, row: nat) { d in s.flights && s.flights[d].unannounced == Some(row) }

  ghost predicate AnnouncedOnce(s: State) {
    && (forall i, j :: 0 <= i < j < |s.published| ==> s.published[i] != s.published[j])
    && (forall i :: 0 <= i < |s.published| ==> s.published[i] < |s.db.rows|)
    && (forall d, row: nat :: Pending(s, d, row) ==> row < |s.db.rows| && row !in s.published)
    && (forall d, b, row: nat :: Pending(s, d, row) && Pending(s, b, row) ==> d == b)
  }

  lemma StepAnnouncesOnce(s: State, a: Step)
    requires AnnouncedOnce(s) && Enabled(s, a)
    ensures AnnouncedOnce(Next(s, a))
  {
    var t := Next(s, a);
    forall d, row: nat | Pending(t, d, row)
      ensures Pending(s, d, row) ||
          (a.Commit? && a.delivery == d && row == |s.db.rows| && |t.db.rows| == |s.db.rows| + 1)
    {}
    if a.Publish? { assert Pending(s, a.delivery, s.flights[a.delivery].unannounced.value); }
  }

  /** `message.received` goes out at most once for a row, over any run. */
  lemma {:induction false} EachRowAnnouncedOnce(states: seq<State>, steps: seq<Step>, i: nat)
    requires IsRun(states, steps) && states[0] == Init && i < |states|
    ensures AnnouncedOnce(states[i])
  {
    if i > 0 {
      EachRowAnnouncedOnce(states, steps, i - 1);
      StepAnnouncesOnce(states[i - 1], steps[i - 1]);
    }
  }

  /** Committed, never announced, and no worker left to do it. */
  ghost predicate Silent(s: State, row: nat) {
    row < |s.db.rows| && row !in s.published && forall d :: !Pending(s, d, row)
  }

  lemma StepKeepsSilent(s: State, a: Step, row: nat)
    requires Silent(s, row) && Enabled(s, a)
    ensures Silent(Next(s, a), row)
  {
    var t := Next(s, a);
    forall d ensures !Pending(t, d, row) { assert !Pending(s, d, row); }
    if a.Publish? { assert !Pending(s, a.delivery, row); }
  }

  /** A worker that stops between the commit and the announcement silences the row for good: the
      redelivered item is a duplicate and announces nothing. */
  lemma {:induction false} CrashSilences(states: seq<State>, steps: seq<Step>, d: nat, row: nat, i: nat)
    requires IsRun(states, steps) && 0 < i < |states| && AnnouncedOnce(states[0])
    requires Pending(states[0], d, row) && steps[0] == Crash(d)
    ensures row !in states[i].published && Silent(states[i], row)
  {
    if i > 1 {
      CrashSilences(states, steps, d, row, i - 1);
      StepKeepsSilent(states[i - 1], steps[i - 1], row);
    } else {
      forall b ensures !Pending(states[1], b, row) {
        assert Pending(states[1], b, row) ==> b != d && Pending(states[0], b, row);
      }
    }
  }

  /** A row falls silent exactly when the worker that was to announce it dies first. */
  lemma SilencedWhen(s: State, a: Step, row: nat)
    requires AnnouncedOnce(s) && Enabled(s, a) && row < |s.db.rows| && !Silent(s, row)
    ensures Silent(Next(s, a), row) <==> a.Crash? && Pending(s, a.delivery, row)
  {
    var t := Next(s, a);
    if d :| Pending(s, d, row) {
      assert a != Crash(d) && a != Publish(d) ==> Pending(t, d, row);
      if a == Crash(d) {
        forall b ensures !Pending(t, b, row) { assert Pending(t, b, row) ==> b != d && Pending(s, b, row); }
      }
    } else {
      assert row in s.published;
    }
  }

  /** Some step of the run so far was such a death. */
  ghost predicate SilencedBefore(states: seq<State>, steps: seq<Step>, i: nat, row: nat)
    requires IsRun(states, steps) && i < |states|
  {
    exists k :: 0 <= k < i && Silences(states[k], steps[k], row)
  }

  ghost predicate Silences(s: State, a: Step, row: nat) { a.Crash? && Pending(s, a.delivery, row) }

  lemma SilencedSnoc(states: seq<State>, steps: seq<Step>, i: nat, row: nat)
    requires IsRun(states, steps) && 0 < i < |states|
    ensures SilencedBefore(states, steps, i, row) <==>
      SilencedBefore(states, steps, i - 1, row) || Silences(states[i - 1], steps[i - 1], row)
  {}

  lemma {:induction false} NotYetSilenced(states: seq<State>, steps: seq<Step>, i: nat, row: nat)
    requires IsRun(states, steps) && states[0] == Init && i < |states| && row >= |states[i].db.rows|
    ensures !SilencedBefore(states, steps, i, row)
  {
    if i > 0 {
      assert |states[i].db.rows| >= |states[i - 1].db.rows|;
      NotYetSilenced(states, steps, i - 1, row);
      EachRowAnnouncedOnce(states, steps, i - 1);
      SilencedSnoc(states, steps, i, row);
    }
  }

  /** The row appears in this step, with a worker about to announce it. */
  lemma NewRowPending(s: State, a: Step, row: nat)
    requires Enabled(s, a) && |s.db.rows| <= row < |Next(s, a).db.rows|
    ensures a.Commit? && !Silent(Next(s, a), row)
  {
    assert Pending(Next(s, a), a.delivery, row);
  }

  /** In every state of every run, a stored row is silent exactly when such a step silenced it. */
  lemma {:induction false} SilentIff(states: seq<State>, steps: seq<Step>, i: nat, row: nat)
    requires IsRun(states, steps) && states[0] == Init && i < |states| && row < |states[i].db.rows|
    ensures Silent(states[i], row) <==> SilencedBefore(states, steps, i, row)
  {
    if i > 0 {
      EachRowAnnouncedOnce(states, steps, i - 1);
      SilencedSnoc(states, steps, i, row);
      if row >= |states[i - 1].db.rows| {
        NewRowPending(states[i - 1], steps[i - 1], row);
        NotYetSilenced(states, steps, i - 1, row);
      } else {
        SilentIff(states, steps, i - 1, row);
        if Silent(states[i - 1], row) {
          StepKeepsSilent(states[i - 1], steps[i - 1], row);
        } else {
          SilencedWhen(states[i - 1], steps[i - 1], row);
        }
      }
    }
  }

  /** Once no worker is busy, a row has been announced exactly when no worker died about to. */
  lemma AnnouncedIff(states: seq<State>, steps: seq<Step>, i: nat, row: nat)
    requires IsRun(states, steps) && states[0] == Init && i < |states| && row < |states[i].db.rows|
    requires states[i].flights == map[]
    ensures row in states[i].published <==> !SilencedBefore(states, steps, i, row)
  {
    SilentIff(states, steps, i, row);
  }

  /** And every row has been exactly when no worker ever died with one to announce. */
  lemma AllAnnouncedIff(states: seq<State>, steps: seq<Step>, i: nat)
    requires IsRun(states, steps) && states[0] == Init && i < |states| && states[i].flights == map[]
    ensures (forall row: nat :: row < |states[i].db.rows| ==> row in states[i].published) <==>
            (forall row: nat :: !SilencedBefore(states, steps, i, row))
  {
    forall row: nat ensures row < |states[i].db.rows| ==>
        (row in states[i].published <==> !SilencedBefore(states, steps, i, row)) {
      if row < |states[i].db.rows| { AnnouncedIff(states, steps, i, row); }
    }
    forall row: nat ensures row >= |states[i].db.rows| ==> !SilencedBefore(states, steps, i, row) {
      if row >= |states[i].db.rows| { NotYetSilenced(states, steps, i, row); }
    }
  }
}
