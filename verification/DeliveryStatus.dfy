/** Delivery-status updates: the ladder a message climbs while providers repeat,
    reorder and batch their webhooks as they please. */
module DeliveryStatus {
  import opened Prelude

  const FAILED := "failed"

  function Rank(status: string): int {
    if status == "queued" then 0
    else if status == "sent" then 1
    else if status == "delivered" then 2
    else if status == "read" then 3
    else -1
  }

  /** The rank is the place on the ladder, and no other status has one. */
  lemma RankMeaning(status: string)
    ensures if status in ["queued", "sent", "delivered", "read"]
      then 0 <= Rank(status) < 4 && ["queued", "sent", "delivered", "read"][Rank(status)] == status
      else Rank(status) < 0
  {}

  /** One update against one stored status. */
  function Advance(current: string, update: string): string {
    if update != FAILED && Rank(update) <= Rank(current) then current else update
  }

  function Fold(current: string, updates: seq<string>): string
    decreases updates
  {
    if updates == [] then current else Fold(Advance(current, updates[0]), updates[1..])
  }

  lemma {:induction false} FoldAppend(current: string, a: seq<string>, b: seq<string>)
    ensures Fold(current, a + b) == Fold(Fold(current, a), b)
    decreases a
  {
    if a == [] {
      assert a + b == b;
    } else {
      assert (a + b)[1..] == a[1..] + b;
      FoldAppend(Advance(current, a[0]), a[1..], b);
    }
  }

  ghost function Elements(s: seq<string>): set<string> { set u | u in s }

  /** The highest of the starting status and the updates, the start winning a tie. */
  ghost predicate IsHighest(start: string, updates: set<string>, top: string) {
    && (top == start || (top in updates && Rank(top) > Rank(start)))
    && forall u :: u in updates ==> Rank(u) <= Rank(top)
  }

  lemma HighestUnique(start: string, updates: set<string>, a: string, b: string)
    requires IsHighest(start, updates, a) && IsHighest(start, updates, b)
    ensures a == b
  {}

  /** Without `failed`, the final status is the highest one seen, however the updates came. */
  lemma {:induction false} LadderKeepsHighest(start: string, updates: seq<string>)
    requires FAILED !in updates
    ensures IsHighest(start, Elements(updates), Fold(start, updates))
    decreases updates
  {
    if updates != [] {
      var next := Advance(start, updates[0]);
      LadderKeepsHighest(next, updates[1..]);
      var top := Fold(next, updates[1..]);
      forall u | u in updates ensures Rank(u) <= Rank(top) {
        assert u == updates[0] || u in updates[1..];
      }
      assert top in updates[1..] ==> top in updates;
    }
  }

  /** Reordering, repeating or re-batching updates changes nothing as long as none is `failed`. */
  lemma OrderIrrelevant(start: string, a: seq<string>, b: seq<string>)
    requires FAILED !in a && forall u :: u in a <==> u in b
    ensures Fold(start, a) == Fold(start, b)
  {
    LadderKeepsHighest(start, a);
    LadderKeepsHighest(start, b);
    assert Elements(a) == Elements(b);
    HighestUnique(start, Elements(a), Fold(start, a), Fold(start, b));
  }

  /** Only what follows the last `failed` matters, climbed from below the ladder. */
  lemma FailedRestarts(start: string, before: seq<string>, after: seq<string>)
    requires FAILED !in after
    ensures Fold(start, before + [FAILED] + after) == Fold(FAILED, after)
    ensures IsHighest(FAILED, Elements(after), Fold(FAILED, after))
  {
    FoldAppend(start, before + [FAILED], after);
    FoldAppend(start, before, [FAILED]);
    assert Fold(start, before + [FAILED]) == FAILED by {
      assert [FAILED][1..] == [];
    }
    LadderKeepsHighest(FAILED, after);
  }

  /** `failed` is final exactly when no known status follows it. */
  lemma FailedStaysIff(start: string, before: seq<string>, after: seq<string>)
    requires FAILED !in after
    ensures Fold(start, before + [FAILED] + after) == FAILED <==> forall u :: u in after ==> Rank(u) < 0
  {
    FailedRestarts(start, before, after);
    var top := Fold(FAILED, after);
    if top != FAILED { assert top in Elements(after); }
    forall u | u in after ensures Rank(u) <= Rank(top) { assert u in Elements(after); }
  }

  /** A late `sent` revives a failed message. */
  lemma FailedIsNotTerminal()
    ensures Fold("queued", [FAILED, "sent"]) == "sent"
  {
    FailedRestarts("queued", [], ["sent"]);
    assert ["sent"][1..] == [];
    assert [] + [FAILED] + ["sent"] == [FAILED, "sent"];
    assert Fold(FAILED, ["sent"]) == Fold("sent", []);
  }

  // ===== the table =====

  /** What the lookup is keyed on. */
  datatype MessageKey = MessageKey(orgId: string, channelType: string, externalId: string)

  datatype Update = Update(externalId: string, status: string)

  /** The statuses one message receives from a batch. */
  function UpdatesFor(key: MessageKey, orgId: string, channelType: string, updates: seq<Update>): seq<string> {
    if updates == [] then []
    else (if key == MessageKey(orgId, channelType, updates[0].externalId) then [updates[0].status] else [])
         + UpdatesFor(key, orgId, channelType, updates[1..])
  }

  lemma {:induction false} UpdatesForAppend(key: MessageKey, orgId: string, channelType: string,
                                            a: seq<Update>, u: Update)
    ensures UpdatesFor(key, orgId, channelType, a + [u])
         == UpdatesFor(key, orgId, channelType, a)
            + (if key == MessageKey(orgId, channelType, u.externalId) then [u.status] else [])
  {
    if a == [] {
      assert [u][1..] == [] && a + [u] == [u];
    } else {
      assert (a + [u])[1..] == a[1..] + [u];
      UpdatesForAppend(key, orgId, channelType, a[1..], u);
    }
  }

  /** A batch for one organisation and channel holds nothing for the messages of another, and for
      one of its own exactly the statuses sent under its id. */
  lemma {:induction false} UpdatesAreOwn(key: MessageKey, orgId: string, channelType: string, updates: seq<Update>)
    ensures key.orgId != orgId || key.channelType != channelType ==> UpdatesFor(key, orgId, channelType, updates) == []
    ensures key.orgId == orgId && key.channelType == channelType ==>
      forall status :: status in UpdatesFor(key, orgId, channelType, updates) <==>
        Update(key.externalId, status) in updates
    ensures (forall u :: u in updates ==> u.externalId != key.externalId) ==>
      UpdatesFor(key, orgId, channelType, updates) == []
  {
    if updates != [] {
      UpdatesAreOwn(key, orgId, channelType, updates[1..]);
      assert forall u :: u in updates <==> u == updates[0] || u in updates[1..];
    }
  }

  /** So an update leaves the statuses of every other organisation and channel alone. */
  lemma OthersUntouched(start: map<MessageKey, string>, now: map<MessageKey, string>, orgId: string,
                        channelType: string, updates: seq<Update>, key: MessageKey)
    requires Folded(start, now, orgId, channelType, updates) && key in start
    requires key.orgId != orgId || key.channelType != channelType ||
      forall u :: u in updates ==> u.externalId != key.externalId
    ensures key in now && now[key] == start[key]
  {
    UpdatesAreOwn(key, orgId, channelType, updates);
  }

  lemma FoldOneMore(key: MessageKey, orgId: string, channelType: string, a: seq<Update>, u: Update, start: string)
    ensures var sofar := Fold(start, UpdatesFor(key, orgId, channelType, a));
      Fold(start, UpdatesFor(key, orgId, channelType, a + [u]))
        == if key == MessageKey(orgId, channelType, u.externalId) then Advance(sofar, u.status) else sofar
  {
    var sofar := UpdatesFor(key, orgId, channelType, a);
    UpdatesForAppend(key, orgId, channelType, a, u);
    FoldAppend(start, sofar, [u.status]);
    assert [u.status][1..] == [];
    assert sofar + [] == sofar;
  }

  /** Whether an update moves a stored status. */
  predicate Applies(current: string, update: string) { update == FAILED || Rank(update) > Rank(current) }

  /** The realtime updates a batch causes, in order: one for each update that moves its message. */
  function Announced(statuses: map<MessageKey, string>, orgId: string, channelType: string, updates: seq<Update>):
    seq<(MessageKey, string)>
  {
    if updates == [] then []
    else
      var front, u := updates[..|updates| - 1], updates[|updates| - 1];
      var key := MessageKey(orgId, channelType, u.externalId);
      Announced(statuses, orgId, channelType, front)
      + (if key in statuses && Applies(Fold(statuses[key], UpdatesFor(key, orgId, channelType, front)), u.status)
         then [(key, u.status)] else [])
  }

  /** What was last announced for a message. */
  function LastTold(told: seq<(MessageKey, string)>, key: MessageKey): Option<string> {
    if told == [] then None
    else if told[|told| - 1].0 == key then Some(told[|told| - 1].1)
    else LastTold(told[..|told| - 1], key)
  }

  lemma LastToldAppend(told: seq<(MessageKey, string)>, more: seq<(MessageKey, string)>, key: MessageKey)
    requires |more| <= 1
    ensures LastTold(told + more, key) == if more != [] && more[0].0 == key then Some(more[0].1)
        else LastTold(told, key)
  {
    if more == [] { assert told + more == told; } else { assert (told + more)[..|told|] == told; }
  }

  /** What clients were last told of a message in a batch is its stored status; if they were told
      nothing, the status is what it was. */
  lemma {:induction false} LastToldIsStored(statuses: map<MessageKey, string>, orgId: string, channelType: string,
                                            updates: seq<Update>, key: MessageKey)
    requires key in statuses
    ensures Fold(statuses[key], UpdatesFor(key, orgId, channelType, updates))
         == match LastTold(Announced(statuses, orgId, channelType, updates), key)
            case None => statuses[key]
            case Some(status) => status
  {
    if updates != [] {
      var front, u := updates[..|updates| - 1], updates[|updates| - 1];
      LastToldIsStored(statuses, orgId, channelType, front, key);
      assert front + [u] == updates;
      FoldOneMore(key, orgId, channelType, front, u, statuses[key]);
      var about := MessageKey(orgId, channelType, u.externalId);
      var sofar := UpdatesFor(about, orgId, channelType, front);
      var more := if about in statuses && Applies(Fold(statuses[about], sofar), u.status)
                  then [(about, u.status)] else [];
      assert Announced(statuses, orgId, channelType, updates) == Announced(statuses, orgId, channelType, front) + more;
      LastToldAppend(Announced(statuses, orgId, channelType, front), more, key);
    }
  }

  /** One update on the whole table: a miss changes nothing. */
  function Moved(statuses: map<MessageKey, string>, key: MessageKey, status: string): map<MessageKey, string> {
    if key in statuses then statuses[key := Advance(statuses[key], status)] else statuses
  }

  function News(statuses: map<MessageKey, string>, key: MessageKey, status: string): seq<(MessageKey, string)> {
    if key in statuses && Applies(statuses[key], status) then [(key, status)] else []
  }

  /** Every row of `start` after the updates. */
  ghost predicate Folded(start: map<MessageKey, string>, now: map<MessageKey, string>, orgId: string,
      channelType: string,
                         updates: seq<Update>) {
    && now.Keys == start.Keys
    && forall key :: key in now ==> now[key] == Fold(start[key], UpdatesFor(key, orgId, channelType, updates))
  }

  lemma FoldedOneMore(start: map<MessageKey, string>, was: map<MessageKey, string>, orgId: string, channelType: string,
                      a: seq<Update>, u: Update)
    requires Folded(start, was, orgId, channelType, a)
    ensures Folded(start, Moved(was, MessageKey(orgId, channelType, u.externalId), u.status), orgId, channelType,
        a + [u])
  {
    forall key | key in was
      ensures var sofar := Fold(start[key], UpdatesFor(key, orgId, channelType, a));
        Fold(start[key], UpdatesFor(key, orgId, channelType, a + [u]))
          == if key == MessageKey(orgId, channelType, u.externalId) then Advance(sofar, u.status) else sofar
    {
      FoldOneMore(key, orgId, channelType, a, u, start[key]);
    }
  }

  lemma AnnouncedOneMore(start: map<MessageKey, string>, was: map<MessageKey, string>, orgId: string,
      channelType: string,
                         a: seq<Update>, u: Update)
    requires Folded(start, was, orgId, channelType, a)
    ensures Announced(start, orgId, channelType, a + [u])
         == Announced(start, orgId, channelType, a) + News(was, MessageKey(orgId, channelType, u.externalId), u.status)
  {
    assert (a + [u])[..|a|] == a;
  }

  class MessageTable {
    var statuses: map<MessageKey, string>
    /** Realtime `message.status` updates, oldest first. */
    var published: seq<(MessageKey, string)>

    constructor (statuses: map<MessageKey, string>)
      ensures this.statuses == statuses && published == []
    {
      this.statuses := statuses;
      published := [];
    }

    /** A miss changes nothing; a change is committed and then published. */
    method ApplyDeliveryStatus(orgId: string, channelType: string, update: Update)
      modifies this
      ensures var key := MessageKey(orgId, channelType, update.externalId);
        && statuses == Moved(old(statuses), key, update.status)
        && published == old(published) + News(old(statuses), key, update.status)
      ensures var key := MessageKey(orgId, channelType, update.externalId);
        if key in old(statuses) && (update.status == "failed" || Rank(update.status) > Rank(old(statuses)[key]))
        then statuses == old(statuses)[key := update.status] && published == old(published) + [(key, update.status)]
        else statuses == old(statuses) && published == old(published)
    {
      var key := MessageKey(orgId, channelType, update.externalId);
      if key !in statuses { return; }
      if update.status != FAILED {
        if Rank(update.status) <= Rank(statuses[key]) {
          assert statuses == statuses[key := statuses[key]];
          return;
        }
      }
      statuses := statuses[key := update.status];
      published := published + [(key, update.status)];
    }

    /** The updates of one payload: each message folds its own, no row appears or goes, and each
        update that moves its message is announced, in order. */
    method ApplyDeliveryUpdates(orgId: string, channelType: string, updates: seq<Update>)
      modifies this
      ensures Folded(old(statuses), statuses, orgId, channelType, updates)
      ensures published == old(published) + Announced(old(statuses), orgId, channelType, updates)
    {
      ghost var start, told := statuses, published;
      for n := 0 to |updates|
        invariant Folded(start, statuses, orgId, channelType, updates[..n])
        invariant published == told + Announced(start, orgId, channelType, updates[..n])
      {
        FoldedOneMore(start, statuses, orgId, channelType, updates[..n], updates[n]);
        AnnouncedOneMore(start, statuses, orgId, channelType, updates[..n], updates[n]);
        ApplyDeliveryStatus(orgId, channelType, updates[n]);
        assert updates[..n + 1] == updates[..n] + [updates[n]];
      }
      assert updates[..|updates|] == updates;
    }
  }
}
