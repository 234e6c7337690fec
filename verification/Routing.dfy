/** Claims, reassignments and auto-assignment, and the append-only history that replays them.
    Transactions are serial here. */
module Routing {
  import opened Prelude

  datatype Role = Owner | Admin | Member | Guest

  datatype Error = NotAMember | Forbidden | NoConversation | AlreadyAssigned

  datatype Reason = ByClaim | ByReassign | BySingleAssignee

  datatype Assignment = Assignment(conversationId: string, userId: string, actor: string, reason: Reason)

  datatype Conversation = Conversation(orgId: string, assignee: Option<string>)

  /** `designated` is an organisation's single assignee, where that strategy is configured. */
  datatype Db = Db(
    conversations: map<string, Conversation>,
    history: seq<Assignment>,
    roles: map<(string, string), Role>,
    designated: map<string, string>)

  datatype Command =
    | Open(orgId: string, id: string)                                 // the inbound worker starts a conversation
    | Claim(orgId: string, id: string, user: string)
    | Reassign(orgId: string, id: string, actor: string, assignee: string)
    | AutoAssign(id: string)
    | Configure(roles: map<(string, string), Role>, designated: map<string, string>)

  predicate NonViewer(r: Role) { r != Guest }
  predicate IsAdmin(r: Role) { r in {Owner, Admin} }

  function Record(db: Db, id: string, user: string, actor: string, reason: Reason): Db
    requires id in db.conversations
  {
    db.(conversations := db.conversations[id := db.conversations[id].(assignee := Some(user))],
        history := db.history + [Assignment(id, user, actor, reason)])
  }

  predicate InOrg(db: Db, orgId: string, id: string) { id in db.conversations && db.conversations[id].orgId == orgId }

  function Apply(db: Db, c: Command): (Db, Option<Error>) {
    match c
    case Open(orgId, id) =>
      if id in db.conversations then (db, None)
      else (db.(conversations := db.conversations[id := Conversation(orgId, None)]), None)
    case Configure(roles, designated) => (db.(roles := roles, designated := designated), None)
    case Claim(orgId, id, user) =>
      if (orgId, user) !in db.roles then (db, Some(NotAMember))
      else if !NonViewer(db.roles[(orgId, user)]) then (db, Some(Forbidden))
      else if !InOrg(db, orgId, id) then (db, Some(NoConversation))
      else if db.conversations[id].assignee == Some(user) then (db, None)
      else if db.conversations[id].assignee.Some? then (db, Some(AlreadyAssigned))
      else (Record(db, id, user, user, ByClaim), None)
    case Reassign(orgId, id, actor, assignee) =>
      if (orgId, actor) !in db.roles then (db, Some(NotAMember))
      else if !IsAdmin(db.roles[(orgId, actor)]) then (db, Some(Forbidden))
      else if (orgId, assignee) !in db.roles then (db, Some(NotAMember))
      else if !InOrg(db, orgId, id) then (db, Some(NoConversation))
      else (Record(db, id, assignee, actor, ByReassign), None)
    case AutoAssign(id) =>
      if id !in db.conversations then (db, Some(NoConversation))
      else
        var orgId := db.conversations[id].orgId;
        // an empty user id counts as not configured
        if orgId !in db.designated || db.designated[orgId] == "" then (db, None)
        else (Record(db, id, db.designated[orgId], "routing:single_assignee", BySingleAssignee), None)
  }

  // ===== what the calls are for =====

  ghost predicate Holds(db: Db, orgId: string, user: string, roles: set<Role>) {
    (orgId, user) in db.roles && db.roles[(orgId, user)] in roles
  }

  /** The conversation is the user's, one history row says so, and nothing else changed. */
  ghost predicate Assigned(before: Db, id: string, user: string, actor: string, reason: Reason, after: Db) {
    && id in before.conversations && after.roles == before.roles && after.designated == before.designated
    && after.conversations == before.conversations[id := Conversation(before.conversations[id].orgId, Some(user))]
    && after.history == before.history + [Assignment(id, user, actor, reason)]
  }

  // ===== the service =====

  class Desk {
    var db: Db

    constructor (start: Db)
      ensures db == start
    {
      db := start;
    }

    method RecordAssignment(id: string, user: string, actor: string, reason: Reason)
      requires id in db.conversations
      modifies this
      ensures db == Record(old(db), id, user, actor, reason)
      ensures Assigned(old(db), id, user, actor, reason, db)
    {
      var conversation := db.conversations[id].(assignee := Some(user));
      db := db.(conversations := db.conversations[id := conversation]);
      db := db.(history := db.history + [Assignment(id, user, actor, reason)]);
    }

    method ClaimConversation(orgId: string, id: string, user: string) returns (error: Option<Error>)
      modifies this
      ensures (db, error) == Apply(old(db), Claim(orgId, id, user))
      ensures error == Some(NotAMember) <==> (orgId, user) !in db.roles
      ensures error == Some(Forbidden) <==> Holds(db, orgId, user, {Guest})
      ensures error.None? <==>
        && Holds(db, orgId, user, {Owner, Admin, Member})
        && id in db.conversations && db.conversations[id].orgId == orgId
        && (old(db).conversations[id].assignee == None || old(db).conversations[id].assignee == Some(user))
      ensures error == Some(AlreadyAssigned) ==> id in db.conversations && db.conversations[id].orgId == orgId
      ensures error == Some(NoConversation) ==> !(id in db.conversations && db.conversations[id].orgId == orgId)
      ensures if error.None? && old(db).conversations[id].assignee.None?
        then Assigned(old(db), id, user, user, ByClaim, db)
        else db == old(db)
    {
      if (orgId, user) !in db.roles { return Some(NotAMember); }
      if !NonViewer(db.roles[(orgId, user)]) { return Some(Forbidden); }
      if !InOrg(db, orgId, id) { return Some(NoConversation); }
      var conversation := db.conversations[id];
      if conversation.assignee == Some(user) { return None; }
      if conversation.assignee.Some? { return Some(AlreadyAssigned); }
      RecordAssignment(id, user, user, ByClaim);
      return None;
    }

    method ReassignConversation(orgId: string, id: string, actor: string, assignee: string)
        returns (error: Option<Error>)
      modifies this
      ensures (db, error) == Apply(old(db), Reassign(orgId, id, actor, assignee))
      ensures error.None? <==>
        && Holds(db, orgId, actor, {Owner, Admin}) && (orgId, assignee) in db.roles
        && id in db.conversations && db.conversations[id].orgId == orgId
      ensures error == Some(Forbidden) <==> (orgId, actor) in db.roles && !Holds(db, orgId, actor, {Owner, Admin})
      ensures error == Some(NotAMember) <==>
        (orgId, actor) !in db.roles || (Holds(db, orgId, actor, {Owner, Admin}) && (orgId, assignee) !in db.roles)
      ensures error != Some(AlreadyAssigned)
      ensures if error.None? then Assigned(old(db), id, assignee, actor, ByReassign, db) else db == old(db)
    {
      if (orgId, actor) !in db.roles { return Some(NotAMember); }
      if !IsAdmin(db.roles[(orgId, actor)]) { return Some(Forbidden); }
      if (orgId, assignee) !in db.roles { return Some(NotAMember); }
      if !InOrg(db, orgId, id) { return Some(NoConversation); }
      RecordAssignment(id, assignee, actor, ByReassign);
      return None;
    }

    method ApplySingleAssigneeIfConfigured(id: string) returns (error: Option<Error>)
      modifies this
      ensures (db, error) == Apply(old(db), AutoAssign(id))
      ensures error == (if id in db.conversations then None else Some(NoConversation))
      ensures if id in db.conversations && db.conversations[id].orgId in db.designated
          && db.designated[db.conversations[id].orgId] != ""
        then Assigned(old(db), id, old(db).designated[old(db).conversations[id].orgId], "routing:single_assignee",
                      BySingleAssignee, db)
        else db == old(db)
    {
      if id !in db.conversations { return Some(NoConversation); }
      var orgId := db.conversations[id].orgId;
      if orgId !in db.designated { return None; }
      var user := db.designated[orgId];
      if user == "" { return None; }
      RecordAssignment(id, user, "routing:single_assignee", BySingleAssignee);
      return None;
    }
  }

  // ===== replaying the history =====

  /** Who the history says a conversation belongs to. */
  function Replay(history: seq<Assignment>, id: string): Option<string> {
    if history == [] then None
    else if history[|history| - 1].conversationId == id then Some(history[|history| - 1].userId)
    else Replay(history[..|history| - 1], id)
  }

  ghost predicate Mentions(history: seq<Assignment>, id: string) {
    exists i :: 0 <= i < |history| && history[i].conversationId == id
  }

  /** Every claim is the first its conversation ever saw, and is by the claimant. */
  ghost predicate ClaimsFirst(history: seq<Assignment>) {
    forall i, j | 0 <= i <= j < |history| && history[i].conversationId == history[j].conversationId ::
      history[j].reason.ByClaim? ==>
      i == j && history[j].actor == history[j].userId
  }

  ghost predicate Replayable(db: Db) {
    && ClaimsFirst(db.history)
    && (forall id :: id in db.conversations ==> db.conversations[id].assignee == Replay(db.history, id))
    && (forall i :: 0 <= i < |db.history| ==> db.history[i].conversationId in db.conversations)
  }

  lemma {:induction false} ReplayNone(history: seq<Assignment>, id: string)
    ensures Replay(history, id).None? <==> !Mentions(history, id)
  {
    if history != [] {
      var front, last := history[..|history| - 1], history[|history| - 1];
      ReplayNone(front, id);
      if Mentions(front, id) {
        var i :| 0 <= i < |front| && front[i].conversationId == id;
        assert history[i].conversationId == id;
      }
      if Mentions(history, id) && last.conversationId != id {
        var i :| 0 <= i < |history| && history[i].conversationId == id;
        assert front[i].conversationId == id;
      }
    }
  }

  lemma ReplaySnoc(history: seq<Assignment>, a: Assignment, id: string)
    ensures Replay(history + [a], id) == if a.conversationId == id then Some(a.userId) else Replay(history, id)
  {
    assert (history + [a])[..|history|] == history;
  }

  lemma ClaimKeepsFirst(history: seq<Assignment>, a: Assignment)
    requires ClaimsFirst(history)
    requires a.reason.ByClaim? ==> Replay(history, a.conversationId).None? && a.actor == a.userId
    ensures ClaimsFirst(history + [a])
  {
    ReplayNone(history, a.conversationId);
  }

  lemma RecordKeeps(db: Db, id: string, user: string, actor: string, reason: Reason)
    requires Replayable(db) && id in db.conversations
    requires reason.ByClaim? ==> db.conversations[id].assignee.None? && actor == user
    ensures Replayable(Record(db, id, user, actor, reason))
  {
    var a := Assignment(id, user, actor, reason);
    ClaimKeepsFirst(db.history, a);
    forall k | k in db.conversations
        ensures Record(db, id, user, actor, reason).conversations[k].assignee == Replay(db.history + [a], k) {
      ReplaySnoc(db.history, a, k);
    }
  }

  lemma OpenKeeps(db: Db, orgId: string, id: string)
    requires Replayable(db)
    ensures Replayable(Apply(db, Open(orgId, id)).0)
  {
    ReplayNone(db.history, id);
  }

  lemma CommandKeepsReplayable(db: Db, c: Command)
    requires Replayable(db)
    ensures Replayable(Apply(db, c).0) && db.history <= Apply(db, c).0.history
    ensures forall id :: id in db.conversations ==> id in Apply(db, c).0.conversations
  {
    var after := Apply(db, c).0;
    match c {
      case Open(orgId, id) => OpenKeeps(db, orgId, id);
      case Claim(_, id, user) => if after != db { RecordKeeps(db, id, user, user, ByClaim); }
      case Reassign(_, id, actor, assignee) => if after != db { RecordKeeps(db, id, assignee, actor, ByReassign); }
      case AutoAssign(id) =>
        if after != db {
          var designee := db.designated[db.conversations[id].orgId];
          RecordKeeps(db, id, designee, "routing:single_assignee", BySingleAssignee);
        }
      case Configure(_, _) =>
    }
  }

  function Run(db: Db, cs: seq<Command>): Db {
    if cs == [] then db else Apply(Run(db, cs[..|cs| - 1]), cs[|cs| - 1]).0
  }

  lemma {:induction false} RunKeepsReplayable(db: Db, cs: seq<Command>)
    requires Replayable(db)
    ensures Replayable(Run(db, cs)) && db.history <= Run(db, cs).history
    ensures forall id :: id in db.conversations ==> id in Run(db, cs).conversations
  {
    if cs != [] {
      RunKeepsReplayable(db, cs[..|cs| - 1]);
      CommandKeepsReplayable(Run(db, cs[..|cs| - 1]), cs[|cs| - 1]);
    }
  }

  lemma {:induction false} RunSplit(db: Db, a: seq<Command>, b: seq<Command>)
    ensures Run(db, a + b) == Run(Run(db, a), b)
  {
    if b == [] {
      assert a + b == a;
    } else {
      assert (a + b)[..|a + b| - 1] == a + b[..|b| - 1];
      RunSplit(db, a, b[..|b| - 1]);
    }
  }

  const Empty := Db(map[], [], map[], map[])

  /** After any run the assignee is the newest history row's, and nobody exactly when there is
      no row. */
  lemma AssigneeIsNewest(cs: seq<Command>, id: string)
    requires id in Run(Empty, cs).conversations
    ensures Run(Empty, cs).conversations[id].assignee == Replay(Run(Empty, cs).history, id)
    ensures Run(Empty, cs).conversations[id].assignee.None? <==> !Mentions(Run(Empty, cs).history, id)
    ensures ClaimsFirst(Run(Empty, cs).history)
  {
    RunKeepsReplayable(Empty, cs);
    ReplayNone(Run(Empty, cs).history, id);
  }

  /** The final history replays the past: cut where it stood at any earlier moment, it gives the
      assignee of that moment. */
  lemma HistoryReplaysThePast(past: seq<Command>, future: seq<Command>, id: string)
    requires id in Run(Empty, past).conversations
    ensures var was, now := Run(Empty, past), Run(Empty, past + future);
      && |was.history| <= |now.history|
      && was.conversations[id].assignee == Replay(now.history[..|was.history|], id)
  {
    RunKeepsReplayable(Empty, past);
    RunSplit(Empty, past, future);
    RunKeepsReplayable(Run(Empty, past), future);
    var was, now := Run(Empty, past), Run(Empty, past + future);
    assert now.history[..|was.history|] == was.history;
  }

  /** In this state this command has every right to write this history row. */
  ghost predicate Earned(db: Db, c: Command, a: Assignment) {
    && a.conversationId in db.conversations
    && var orgId := db.conversations[a.conversationId].orgId;
      match a.reason
      case ByClaim =>
        && c == Claim(orgId, a.conversationId, a.userId) && a.actor == a.userId
        && Holds(db, orgId, a.userId, {Owner, Admin, Member}) && db.conversations[a.conversationId].assignee == None
      case ByReassign =>
        && c == Reassign(orgId, a.conversationId, a.actor, a.userId)
        && Holds(db, orgId, a.actor, {Owner, Admin}) && (orgId, a.userId) in db.roles
      case BySingleAssignee =>
        && c == AutoAssign(a.conversationId) && a.actor == "routing:single_assignee"
        && a.userId != "" && orgId in db.designated && db.designated[orgId] == a.userId
  }

  lemma RowIsEarned(db: Db, c: Command)
    ensures Apply(db, c).0.history == db.history
         || exists a :: Apply(db, c).0.history == db.history + [a] && Earned(db, c, a)
  {
    var history := Apply(db, c).0.history;
    if history != db.history {
      var a := history[|db.history|];
      assert history == db.history + [a] && Earned(db, c, a);
    }
  }

  /** Every history row of every run was written by a command entitled to it at that moment: a
      claim by one of the organisation's agents of a conversation nobody had, a reassignment by an
      owner or admin to a member, or the designee the organisation had configured. */
  lemma {:induction false} HistoryIsEarned(cs: seq<Command>, i: nat) returns (j: nat)
    requires i < |Run(Empty, cs).history|
    ensures j < |cs| && Earned(Run(Empty, cs[..j]), cs[j], Run(Empty, cs).history[i])
  {
    var n := |cs| - 1;
    var front := cs[..n];
    RowIsEarned(Run(Empty, front), cs[n]);
    if i < |Run(Empty, front).history| {
      j := HistoryIsEarned(front, i);
      assert front[..j] == cs[..j];
    } else {
      j := n;
    }
  }

  /** Claiming is idempotent: once it succeeds, repeating it succeeds and adds no row. */
  lemma ClaimTwice(db: Db, orgId: string, id: string, user: string)
    requires Apply(db, Claim(orgId, id, user)).1.None?
    ensures var once := Apply(db, Claim(orgId, id, user)).0;
      && Apply(once, Claim(orgId, id, user)) == (once, None)
      && once.conversations[id].assignee == Some(user)
      && |once.history| <= |db.history| + 1
  {}

  /** Of two agents claiming one conversation in either order, exactly the first gets it. */
  lemma SecondClaimLoses(db: Db, orgId: string, id: string, first: string, second: string)
    requires first != second && Apply(db, Claim(orgId, id, first)).1.None?
    ensures var once := Apply(db, Claim(orgId, id, first)).0;
      Apply(once, Claim(orgId, id, second)).0 == once && Apply(once, Claim(orgId, id, second)).1.Some?
  {}

  /** Auto-assignment does not look at the current assignee: a claim made between the worker's
      commit and this call is overridden exactly when the organisation designates somebody else. */
  lemma AutoAssignOverridesIff(db: Db, id: string, holder: string)
    requires id in db.conversations && db.conversations[id].assignee == Some(holder)
    ensures var orgId := db.conversations[id].orgId;
      Apply(db, AutoAssign(id)).0.conversations[id].assignee != Some(holder) <==>
        orgId in db.designated && db.designated[orgId] != "" && db.designated[orgId] != holder
  {}

  /** Such a run: opened by the worker, claimed by an agent, then auto-assigned. */
  lemma ClaimOverridden(orgId: string, id: string, agent: string, designee: string)
    requires agent != designee && designee != ""
    ensures var cs := [Configure(map[(orgId, agent) := Member], map[orgId := designee]), Open(orgId, id),
        Claim(orgId, id, agent)];
      var claimed := Run(Empty, cs);
      && id in claimed.conversations && claimed.conversations[id].assignee == Some(agent)
      && Apply(claimed, AutoAssign(id)).0.conversations[id].assignee == Some(designee)
  {
    var configure, open, claim := Configure(map[(orgId, agent) := Member], map[orgId := designee]), Open(orgId, id),
        Claim(orgId, id, agent);
    RunSnoc(Empty, [], configure);
    RunSnoc(Empty, [configure], open);
    RunSnoc(Empty, [configure, open], claim);
    assert [] + [configure] == [configure] && [configure] + [open] == [configure, open];
    assert [configure, open] + [claim] == [configure, open, claim];
  }

  lemma RunSnoc(db: Db, cs: seq<Command>, c: Command)
    ensures Run(db, cs + [c]) == Apply(Run(db, cs), c).0
  {
    assert (cs + [c])[..|cs|] == cs;
  }
}
