/** The inbox reads: the conversation list and the message thread. */
module Inbox {
  import opened Prelude
  import opened Cursor
  import opened Keyset
  import opened Walk
  import Storage

  /** `hasIdentity`: the customer identity it refers to exists. */
  datatype Conversation = Conversation(orgId: string, status: string, assignedUserId: Option<string>, hasIdentity: bool)

  datatype Message = Message(orgId: string, conversationId: string)

  datatype InboxError = NotAMember | NoConversation | OtherOrgsFile | UnsupportedSort | BadCursor | ComparedWithNull

  /** `matchesText(q, row)` stands for the full-text and display-name search. */
  datatype Request = Request(
    orgId: string,
    status: Option<string>,
    assignedUserId: Option<string>,
    q: Option<string>,
    matchesText: (string, Row<Conversation>) -> bool,
    sort: string,
    limit: int,
    cursor: Option<string>)

  predicate Wanted(req: Request, r: Row<Conversation>) {
    && r.data.orgId == req.orgId && r.data.hasIdentity
    && (req.status.Some? ==> r.data.status == req.status.value)
    && (req.assignedUserId.Some? ==> r.data.assignedUserId == req.assignedUserId)
    && (req.q.Some? && req.q.value != "" ==> req.matchesText(req.q.value, r))
  }

  ghost function SnapshotFor(table: seq<Row<Conversation>>, req: Request): Snapshot<Conversation> {
    Snapshot(table, (r: Row<Conversation>) => Wanted(req, r))
  }

  /** No more rows than asked for, and a token only on a full page. */
  ghost predicate IsSized<T>(p: Page<T>, limit: int) {
    && (limit <= 0 ==> |p.items| <= 50 && (p.next.Some? ==> |p.items| == 50))
    && (1 <= limit <= 100 ==> |p.items| <= limit && (p.next.Some? ==> |p.items| == limit))
    && (limit > 100 ==> |p.items| <= 100 && (p.next.Some? ==> |p.items| == 100))
  }

  /** One of the conversations the request asks for. */
  ghost predicate Asked(table: seq<Row<Conversation>>, req: Request, c: Row<Conversation>) {
    && c in table && c.data.orgId == req.orgId && c.data.hasIdentity
    && (req.status == None || req.status == Some(c.data.status))
    && (req.assignedUserId == None || req.assignedUserId == c.data.assignedUserId)
    && (req.q == None || req.q == Some("") || req.matchesText(req.q.value, c))
  }

  /** What the caller gets: only conversations asked for and beyond the cursor, in order, of the
      size asked for; and all of those, unless a token that means the last one promises the rest. */
  ghost predicate IsListing(table: seq<Row<Conversation>>, req: Request, desc: bool, cur: Option<Key>,
      p: Page<Conversation>)
  {
    && IsSized(p, req.limit) && Sorted(desc, p.items)
    && (forall c :: c in p.items ==> Asked(table, req, c) && (cur.Some? ==> After(desc, cur.value, c.key)))
    && (p.next.Some? ==> p.items != [] && Decode(p.next.value) == Ok(Last(p)))
    && (forall c :: Asked(table, req, c) && (cur.Some? ==> After(desc, cur.value, c.key)) ==>
          c in p.items || (p.next.Some? && Before(desc, Last(p), c.key)))
  }

  lemma PageIsListing(table: seq<Row<Conversation>>, req: Request, desc: bool, cur: Option<Key>)
    requires DistinctIds(table)
    ensures IsListing(table, req, desc, cur,
        PageAt(SnapshotFor(table, req), desc, Clamp(req.limit, DEFAULT_LIMIT), cur))
  {
    var snap, size := SnapshotFor(table, req), Clamp(req.limit, DEFAULT_LIMIT);
    PageMeaning(snap, desc, size, cur);
    forall c ensures Asked(table, req, c) && (cur.Some? ==> After(desc, cur.value, c.key)) <==>
        Hit(snap, desc, cur, c)
    {
      AskedIff(table, req, c);
    }
  }

  lemma AskedIff(table: seq<Row<Conversation>>, req: Request, c: Row<Conversation>)
    ensures Asked(table, req, c) <==> c in table && SnapshotFor(table, req).matches(c)
  {}

  /** The statement is narrowed clause by clause, ordered, and cut at one row more than
      the page; the answer is the page the keyset specification names. */
  method ListConversations(table: seq<Row<Conversation>>, member: bool, req: Request)
    returns (r: Result<Page<Conversation>, InboxError>)
    requires DistinctIds(table)
    ensures !member ==> r == Err(NotAMember)
    ensures member && req.sort !in {"-last_message_at", "last_message_at"} ==> r == Err(UnsupportedSort)
    ensures member && req.sort in {"-last_message_at", "last_message_at"} ==>
              var desc, size := req.sort == "-last_message_at", Clamp(req.limit, DEFAULT_LIMIT);
              match List(SnapshotFor(table, req), desc, size, req.cursor)
              case Err(_) => r == Err(BadCursor)
              case Ok(page) => r == Ok(page)
    ensures member && req.sort in {"-last_message_at", "last_message_at"} ==>
              if req.cursor.Some? && Decode(req.cursor.value).Err? then r == Err(BadCursor) else r.Ok?
    ensures r.Ok? && req.cursor.None? ==> IsListing(table, req, req.sort == "-last_message_at", None, r.value)
    ensures r.Ok? && req.cursor.Some? ==>
              && Decode(req.cursor.value).Ok?
              && IsListing(table, req, req.sort == "-last_message_at", Some(Decode(req.cursor.value).value), r.value)
  {
    if !member { return Err(NotAMember); }
    if req.sort !in {"-last_message_at", "last_message_at"} { return Err(UnsupportedSort); }
    var desc := req.sort == "-last_message_at";

    var cur: Option<Key> := None;
    if req.cursor.Some? {
      var decoded := Decode(req.cursor.value);
      if decoded.Err? { return Err(BadCursor); }
      cur := Some(decoded.value);
    }
    var stmt := Statement(table, req, desc, cur);
    SameFilter(table, stmt, Where(SnapshotFor(table, req), desc, cur));
    var page := Fetch(Sort(desc, Filter(table, stmt)), Clamp(req.limit, DEFAULT_LIMIT), Encode);
    PageIsListing(table, req, desc, cur);
    return Ok(page);
  }

  /** The WHERE clause, one condition after the other, only for the filters present. */
  method Statement(ghost table: seq<Row<Conversation>>, req: Request, desc: bool, cur: Option<Key>)
    returns (stmt: Row<Conversation> -> bool)
    ensures forall c :: stmt(c) <==> Where(SnapshotFor(table, req), desc, cur)(c)
  {
    stmt := (c: Row<Conversation>) => c.data.hasIdentity && c.data.orgId == req.orgId;
    if req.status.Some? {
      var sofar := stmt;
      stmt := (c: Row<Conversation>) => sofar(c) && c.data.status == req.status.value;
    }
    if req.assignedUserId.Some? {
      var sofar := stmt;
      stmt := (c: Row<Conversation>) => sofar(c) && c.data.assignedUserId == req.assignedUserId;
    }
    if req.q.Some? && req.q.value != "" {
      var sofar := stmt;
      stmt := (c: Row<Conversation>) => sofar(c) && req.matchesText(req.q.value, c);
    }
    if cur.Some? {
      var sofar := stmt;
      stmt := (c: Row<Conversation>) => sofar(c) && After(desc, cur.value, c.key);
    }
  }

  /** Reads one row more than the page to learn whether there is a next one. */
  method Fetch<T>(sorted: seq<Row<T>>, pageSize: nat, encode: Key -> string) returns (page: Page<T>)
    ensures page == Cut(sorted, pageSize, encode)
  {
    var fetched := if |sorted| > pageSize + 1 then sorted[..pageSize + 1] else sorted;
    var hasMore := |fetched| > pageSize;
    var rows := fetched;
    if hasMore { rows := fetched[..pageSize]; }
    var next := None;
    if hasMore && rows != [] { next := Some(encode(rows[|rows| - 1].key)); }
    return Page(rows, next);
  }

  // ===== attachments =====

  datatype Attachment = Attachment(id: string, orgId: string, messageId: string, s3Key: string)

  datatype AttachmentView = AttachmentView(id: string, filename: string, s3Key: string)

  /** What the IN query selects. */
  predicate Selected(orgId: string, messageIds: seq<string>, a: Attachment) {
    a.orgId == orgId && a.messageId in messageIds
  }

  /** One message's attachments, in the order they were read. */
  function ViewsOf(rows: seq<Attachment>, orgId: string, messageIds: seq<string>,
      messageId: string): seq<AttachmentView> {
    if rows == [] then []
    else
      var a := rows[|rows| - 1];
      ViewsOf(rows[..|rows| - 1], orgId, messageIds, messageId)
      + (if Selected(orgId, messageIds, a) && a.messageId == messageId
         then [AttachmentView(a.id, Storage.FilenameFromKey(a.s3Key), a.s3Key)] else [])
  }

  lemma ViewsSnoc(rows: seq<Attachment>, a: Attachment, orgId: string, messageIds: seq<string>, messageId: string)
    ensures ViewsOf(rows + [a], orgId, messageIds, messageId)
         == ViewsOf(rows, orgId, messageIds, messageId)
            + (if Selected(orgId, messageIds, a) && a.messageId == messageId
               then [AttachmentView(a.id, Storage.FilenameFromKey(a.s3Key), a.s3Key)] else [])
  {
    assert (rows + [a])[..|rows|] == rows;
  }

  predicate IsOn(a: Attachment, orgId: string, messageId: string) { a.orgId == orgId && a.messageId == messageId }

  /** Where a message's attachments are among those read. */
  ghost function Places(rows: seq<Attachment>, orgId: string, messageId: string): (at: seq<nat>)
    ensures forall i, j :: 0 <= i < j < |at| ==> at[i] < at[j]
    ensures forall i :: 0 <= i < |at| ==> at[i] < |rows| && IsOn(rows[at[i]], orgId, messageId)
    ensures forall k: nat :: k < |rows| && IsOn(rows[k], orgId, messageId) ==> k in at
  {
    if rows == [] then []
    else
      var n := |rows| - 1;
      Places(rows[..n], orgId, messageId) + (if IsOn(rows[n], orgId, messageId) then [n] else [])
  }

  /** The entry is the attachment's, with the name its key carries. */
  predicate Shows(view: AttachmentView, a: Attachment) {
    view.id == a.id && view.s3Key == a.s3Key && view.filename == Storage.FilenameFromKey(a.s3Key)
  }

  /** A message's entries are exactly its attachments, each once and in the order they were read. */
  lemma {:induction false} ViewsMeaning(rows: seq<Attachment>, orgId: string, messageIds: seq<string>,
      messageId: string)
    requires messageId in messageIds
    ensures var views, at := ViewsOf(rows, orgId, messageIds, messageId), Places(rows, orgId, messageId);
      && |views| == |at|
      && forall i :: 0 <= i < |at| ==> Shows(views[i], rows[at[i]])
  {
    if rows != [] {
      var n := |rows| - 1;
      ViewsMeaning(rows[..n], orgId, messageIds, messageId);
      var was, at := Places(rows[..n], orgId, messageId), Places(rows, orgId, messageId);
      forall i | 0 <= i < |at| ensures Shows(ViewsOf(rows, orgId, messageIds, messageId)[i], rows[at[i]]) {
        if i < |was| { assert at[i] == was[i] && rows[..n][was[i]] == rows[was[i]]; }
      }
    }
  }

  /** Grouped in one pass: each message has its own attachments, all of them, in order; a message
      without any is absent. A file outside the organisation's prefix refuses the whole read. */
  method AttachmentsFor(rows: seq<Attachment>, orgId: string, messageIds: seq<string>)
    returns (r: Result<map<string, seq<AttachmentView>>, InboxError>)
    ensures r.Err? ==> r == Err(OtherOrgsFile)
    ensures r.Err? <==> exists a :: a in rows && Selected(orgId, messageIds, a) && !Storage.InScope(orgId, a.s3Key)
    ensures r.Ok? ==> forall m :: m in r.value <==> ViewsOf(rows, orgId, messageIds, m) != []
    ensures r.Ok? ==> forall m :: m in r.value ==> r.value[m] == ViewsOf(rows, orgId, messageIds, m)
  {
    var grouped: map<string, seq<AttachmentView>> := map[];
    for i := 0 to |rows|
      invariant forall a :: a in rows[..i] && Selected(orgId, messageIds, a) ==> Storage.InScope(orgId, a.s3Key)
      invariant forall m :: m in grouped <==> ViewsOf(rows[..i], orgId, messageIds, m) != []
      invariant forall m :: m in grouped ==> grouped[m] == ViewsOf(rows[..i], orgId, messageIds, m)
    {
      var a := rows[i];
      assert rows[..i + 1] == rows[..i] + [a];
      forall m ensures ViewsOf(rows[..i + 1], orgId, messageIds, m)
                    == ViewsOf(rows[..i], orgId, messageIds, m)
                       + (if Selected(orgId, messageIds, a) && a.messageId == m
                          then [AttachmentView(a.id, Storage.FilenameFromKey(a.s3Key), a.s3Key)] else [])
      {
        ViewsSnoc(rows[..i], a, orgId, messageIds, m);
      }
      if a.orgId == orgId && a.messageId in messageIds {
        if !Storage.InScope(orgId, a.s3Key) { return Err(OtherOrgsFile); }
        var sofar := if a.messageId in grouped then grouped[a.messageId] else [];
        grouped := grouped[a.messageId := sofar + [AttachmentView(a.id, Storage.FilenameFromKey(a.s3Key), a.s3Key)]];
      }
    }
    assert rows[..|rows|] == rows;
    return Ok(grouped);
  }

  // ===== the thread =====

  function Reverse<T>(s: seq<T>): (r: seq<T>)
    ensures |r| == |s| && forall i :: 0 <= i < |s| ==> r[i] == s[|s| - 1 - i]
  {
    if s == [] then [] else Reverse(s[1..]) + [s[0]]
  }

  /** `created_at < ts OR (created_at = ts AND id < cursor id)`. */
  predicate Older(ts: Option<int>, cur: Key, k: Key) {
    ts.Some? && k.ts.Some? && (k.ts.value < ts.value || (k.ts.value == ts.value && Less(k.id, cur.id)))
  }

  ghost function ThreadOf(table: seq<Row<Message>>, orgId: string, conversationId: string): Snapshot<Message> {
    Snapshot(table, (r: Row<Message>) => r.data.orgId == orgId && r.data.conversationId == conversationId)
  }

  /** Where in the thread to read: from the newest message, or from a token with a timestamp. */
  function Position(before: Option<string>): Result<Option<Key>, InboxError> {
    if before.None? then Ok(None)
    else match Decode(before.value)
      case Err(_) => Err(BadCursor)
      case Ok(key) => if key.ts.None? then Err(ComparedWithNull) else Ok(Some(key))
  }

  /** Another organisation's conversation is no conversation. */
  predicate Readable(conversations: map<string, Conversation>, orgId: string, id: string) {
    id in conversations && conversations[id].orgId == orgId && conversations[id].hasIdentity
  }

  function Ids<T>(rows: seq<Row<T>>): (ids: seq<string>)
    ensures |ids| == |rows| && forall i :: 0 <= i < |rows| ==> ids[i] == rows[i].key.id
  {
    seq(|rows|, i requires 0 <= i < |rows| => rows[i].key.id)
  }

  datatype Thread = Thread(page: Page<Message>, attachments: map<string, seq<AttachmentView>>)

  /** A file among the messages' attachments that is not under the organisation's prefix. */
  ghost predicate ForeignFile(files: seq<Attachment>, orgId: string, ids: seq<string>) {
    exists a :: a in files && Selected(orgId, ids, a) && !Storage.InScope(orgId, a.s3Key)
  }

  /** The page of the thread the specification names, in reading order. */
  ghost function ThreadPage(table: seq<Row<Message>>, orgId: string, conversationId: string, limit: int,
                            cur: Option<Key>): Page<Message>
  {
    var page := PageAt(ThreadOf(table, orgId, conversationId), true, Clamp(limit, DEFAULT_LIMIT), cur);
    Page(Reverse(page.items), page.next)
  }

  /** What a reader gets: messages of the conversation older than the position, in reading order, of
      the size asked for; every other such message lies before the first one shown, and the token
      means that one. */
  ghost predicate IsThreadPage(table: seq<Row<Message>>, orgId: string, conversationId: string, limit: int,
                               cur: Option<Key>, p: Page<Message>)
  {
    && IsSized(p, limit) && Sorted(false, p.items)
    && (forall m :: m in p.items ==> OfThread(table, orgId, conversationId, cur, m))
    && TokenMeansFirst(p)
    && (forall m :: OfThread(table, orgId, conversationId, cur, m) ==>
          m in p.items || (p.next.Some? && Before(false, m.key, p.items[0].key)))
  }

  predicate TokenMeansFirst(p: Page<Message>) {
    p.next.Some? ==> p.items != [] && Decode(p.next.value) == Ok(p.items[0].key)
  }

  ghost predicate OfThread(table: seq<Row<Message>>, orgId: string, conversationId: string, cur: Option<Key>,
      m: Row<Message>)
  {
    && m in table && m.data.orgId == orgId && m.data.conversationId == conversationId
    && (cur.Some? ==> Before(false, m.key, cur.value))
  }

  /** With timestamps everywhere, what comes later newest first is what comes before in reading order. */
  lemma OlderIsBefore(a: Key, b: Key)
    requires a.ts.Some? && b.ts.Some?
    ensures Before(true, a, b) <==> Before(false, b, a)
  {}

  lemma ThreadPageMeaning(table: seq<Row<Message>>, orgId: string, conversationId: string, limit: int, cur: Option<Key>)
    requires DistinctIds(table) && (forall m :: m in table ==> m.key.ts.Some?) && (cur.Some? ==> cur.value.ts.Some?)
    ensures IsThreadPage(table, orgId, conversationId, limit, cur, ThreadPage(table, orgId, conversationId, limit, cur))
  {
    var snap, size := ThreadOf(table, orgId, conversationId), Clamp(limit, DEFAULT_LIMIT);
    var down, up := PageAt(snap, true, size, cur), ThreadPage(table, orgId, conversationId, limit, cur);
    PageMeaning(snap, true, size, cur);
    forall m ensures OfThread(table, orgId, conversationId, cur, m) <==> Hit(snap, true, cur, m) {
      if cur.Some? {
        CursorPredicateMeaning(true, cur.value, m.key);
        if m in table { OlderIsBefore(cur.value, m.key); }
      }
    }
    ReversedPage(down, up);
    forall m | OfThread(table, orgId, conversationId, cur, m)
      ensures m in up.items || (up.next.Some? && Before(false, m.key, up.items[0].key))
    {
      ReverseMember(down.items, m);
      if m !in down.items { OlderIsBefore(Last(down), m.key); }
    }
    forall m | m in up.items ensures OfThread(table, orgId, conversationId, cur, m) { ReverseMember(down.items, m); }
  }

  lemma ReversedPage(down: Page<Message>, up: Page<Message>)
    requires Sorted(true, down.items) && forall m :: m in down.items ==> m.key.ts.Some?
    requires |up.items| == |down.items|
    requires forall i :: 0 <= i < |up.items| ==> up.items[i] == down.items[|down.items| - 1 - i]
    ensures Sorted(false, up.items) && (down.items != [] ==> up.items[0].key == Last(down))
  {
    forall i | 0 <= i < |down.items| ensures down.items[i].key.ts.Some? { assert down.items[i] in down.items; }
    ReverseSorted(down.items, up.items);
  }

  /** The answer for a page: its messages with their attachments, or the refusal of a foreign file. */
  ghost predicate IsThread(files: seq<Attachment>, orgId: string, page: Page<Message>, r: Result<Thread, InboxError>) {
    var ids := Ids(page.items);
    if ForeignFile(files, orgId, ids) then r == Err(OtherOrgsFile)
    else
      && r.Ok? && r.value.page == page
      && (forall m :: m in r.value.attachments <==> ViewsOf(files, orgId, ids, m) != [])
      && (forall m :: m in r.value.attachments ==> r.value.attachments[m] == ViewsOf(files, orgId, ids, m))
  }

  /** The newest page of a thread, or the one before a token, turned into reading order, each message
      with its attachments. `created_at` is never null, and comparing it with a null cursor is an
      error; one file of another organisation refuses the whole read. */
  method GetConversation(conversations: map<string, Conversation>, table: seq<Row<Message>>, files: seq<Attachment>,
                         member: bool, orgId: string, conversationId: string, limit: int, before: Option<string>)
    returns (r: Result<Thread, InboxError>)
    requires DistinctIds(table) && forall m :: m in table ==> m.key.ts.Some?
    ensures member && Readable(conversations, orgId, conversationId) && Position(before).Ok? ==>
      IsThread(files, orgId, ThreadPage(table, orgId, conversationId, limit, Position(before).value), r)
    ensures r == Err(NotAMember) <==> !member
    ensures r == Err(NoConversation) <==>
      member && !(conversationId in conversations && conversations[conversationId].orgId == orgId
                  && conversations[conversationId].hasIdentity)
    ensures r == Err(BadCursor) <==>
      member && r != Err(NoConversation) && before.Some? && Decode(before.value).Err?
    ensures r == Err(ComparedWithNull) <==>
      && member && r != Err(NoConversation) && before.Some?
      && Decode(before.value).Ok? && Decode(before.value).value.ts.None?
    ensures r == Err(OtherOrgsFile) ==> exists a :: a in files && a.orgId == orgId && !(orgId + "/" <= a.s3Key)
    ensures r != Err(UnsupportedSort)
    ensures r.Ok? && before.None? ==> IsThreadPage(table, orgId, conversationId, limit, None, r.value.page)
    ensures r.Ok? && before.Some? ==>
      && Decode(before.value).Ok?
      && IsThreadPage(table, orgId, conversationId, limit, Some(Decode(before.value).value), r.value.page)
    ensures r.Ok? ==> forall a :: a in files && a.orgId == orgId && a.messageId in Ids(r.value.page.items) ==>
        orgId + "/" <= a.s3Key
  {
    if !member { return Err(NotAMember); }
    if conversationId !in conversations || conversations[conversationId].orgId != orgId { return Err(NoConversation); }
    if !conversations[conversationId].hasIdentity { return Err(NoConversation); }
    var cur: Option<Key> := None;
    if before.Some? {
      var decoded := Decode(before.value);
      if decoded.Err? { return Err(BadCursor); }
      if decoded.value.ts.None? { return Err(ComparedWithNull); }
      cur := Some(decoded.value);
    }
    var page := ReadThread(table, orgId, conversationId, limit, cur);
    var attachments := AttachmentsFor(files, orgId, Ids(page.items));
    if attachments.Err? { return Err(attachments.error); }
    ThreadPageMeaning(table, orgId, conversationId, limit, cur);
    return Ok(Thread(page, attachments.value));
  }

  /** The statement and its rows. */
  method ReadThread(table: seq<Row<Message>>, orgId: string, conversationId: string, limit: int, cur: Option<Key>)
    returns (page: Page<Message>)
    requires DistinctIds(table) && (forall m :: m in table ==> m.key.ts.Some?) && (cur.Some? ==> cur.value.ts.Some?)
    ensures page == ThreadPage(table, orgId, conversationId, limit, cur)
  {
    var stmt: Row<Message> -> bool :=
      (m: Row<Message>) => m.data.orgId == orgId && m.data.conversationId == conversationId;
    if cur.Some? {
      var sofar := stmt;
      stmt := (m: Row<Message>) => sofar(m) && Older(Some(cur.value.ts.value), cur.value, m.key);
    }
    SameFilter(table, stmt, Where(ThreadOf(table, orgId, conversationId), true, cur));
    var newestFirst := Fetch(Sort(true, Filter(table, stmt)), Clamp(limit, DEFAULT_LIMIT), Encode);
    return Page(Reverse(newestFirst.items), newestFirst.next);
  }

  // ===== scrolling back =====

  /** What a reader holds: every page as it was returned, put before the ones already there. */
  function Prepended(shown: seq<Page<Message>>): seq<Row<Message>> {
    if shown == [] then [] else shown[|shown| - 1].items + Prepended(shown[..|shown| - 1])
  }

  /** Pages as returned one after the other over a thread that stays put, each with the token of the
      page before. */
  ghost predicate IsScrollback(table: seq<Row<Message>>, orgId: string, conversationId: string, limits: seq<int>,
                               shown: seq<Page<Message>>)
  {
    && |limits| == |shown| >= 1
    && IsThreadPage(table, orgId, conversationId, limits[0], None, shown[0])
    && forall i :: 0 < i < |shown| ==> Continues(table, orgId, conversationId, limits, shown, i)
  }

  /** Page `i` was read with the token of the page before. */
  ghost predicate Continues(table: seq<Row<Message>>, orgId: string, conversationId: string, limits: seq<int>,
                            shown: seq<Page<Message>>, i: nat)
    requires 0 < i < |shown| == |limits|
  {
    && shown[i - 1].next.Some? && Decode(shown[i - 1].next.value).Ok?
    && IsThreadPage(table, orgId, conversationId, limits[i], Some(Decode(shown[i - 1].next.value).value), shown[i])
  }

  lemma SortedAppend(a: seq<Row<Message>>, b: seq<Row<Message>>)
    requires Sorted(false, a) && Sorted(false, b)
    requires b != [] && forall m :: m in a ==> Before(false, m.key, b[0].key)
    ensures Sorted(false, a + b)
  {
    forall i, j | 0 <= i < j < |a + b| ensures Before(false, (a + b)[i].key, (a + b)[j].key) {
      if i < |a| <= j {
        assert a[i] in a;
        if j > |a| { BeforeTransitive(false, a[i].key, b[0].key, b[j - |a|].key); }
      }
    }
  }

  /** So far: in order, only messages of the thread, and every message not yet there lies before
      the first of the newest page. */
  ghost predicate ScrolledTo(table: seq<Row<Message>>, orgId: string, conversationId: string, p: Page<Message>,
                             held: seq<Row<Message>>)
  {
    && Sorted(false, held)
    && (p.items != [] ==> held != [] && held[0] == p.items[0])
    && TokenMeansFirst(p)
    && (forall m :: m in held ==> OfThread(table, orgId, conversationId, None, m))
    && (forall m :: OfThread(table, orgId, conversationId, None, m) ==>
          m in held || (p.next.Some? && Before(false, m.key, p.items[0].key)))
  }

  lemma ScrollOneMore(table: seq<Row<Message>>, orgId: string, conversationId: string, limit: int, p: Page<Message>,
                      held: seq<Row<Message>>, next: Page<Message>)
    requires ScrolledTo(table, orgId, conversationId, p, held) && p.next.Some?
    requires IsThreadPage(table, orgId, conversationId, limit, Some(p.items[0].key), next)
    ensures ScrolledTo(table, orgId, conversationId, next, next.items + held)
  {
    SortedAppend(next.items, held);
    forall m | OfThread(table, orgId, conversationId, None, m)
      ensures m in next.items + held || (next.next.Some? && Before(false, m.key, next.items[0].key))
    {
      assert m !in held ==> OfThread(table, orgId, conversationId, Some(p.items[0].key), m);
    }
  }

  lemma NextPage(table: seq<Row<Message>>, orgId: string, conversationId: string, limits: seq<int>,
                 shown: seq<Page<Message>>, n: nat)
    requires 0 < n < |shown| == |limits| && Continues(table, orgId, conversationId, limits, shown, n)
    requires TokenMeansFirst(shown[n - 1])
    ensures shown[n - 1].next.Some? && shown[n - 1].items != []
    ensures IsThreadPage(table, orgId, conversationId, limits[n], Some(shown[n - 1].items[0].key), shown[n])
  {}

  lemma {:induction false} ScrollbackSoFar(table: seq<Row<Message>>, orgId: string, conversationId: string,
                                           limits: seq<int>, shown: seq<Page<Message>>, n: nat)
    requires IsScrollback(table, orgId, conversationId, limits, shown) && n < |shown|
    ensures ScrolledTo(table, orgId, conversationId, shown[n], Prepended(shown[..n + 1]))
  {
    assert shown[..n + 1][..n] == shown[..n];
    if n == 0 {
      assert Prepended(shown[..1]) == shown[0].items + [];
    } else {
      ScrollbackSoFar(table, orgId, conversationId, limits, shown, n - 1);
      NextPage(table, orgId, conversationId, limits, shown, n);
      ScrollOneMore(table, orgId, conversationId, limits[n], shown[n - 1], Prepended(shown[..n]), shown[n]);
    }
  }

  /** Scrolling back to the start of a thread rebuilds it in reading order, nothing missing and
      nothing twice. */
  lemma ThreadRebuilt(table: seq<Row<Message>>, orgId: string, conversationId: string, limits: seq<int>,
                      shown: seq<Page<Message>>)
    requires IsScrollback(table, orgId, conversationId, limits, shown) && shown[|shown| - 1].next.None?
    ensures Sorted(false, Prepended(shown))
    ensures forall m :: m in Prepended(shown) <==>
              m in table && m.data.orgId == orgId && m.data.conversationId == conversationId
  {
    ScrollbackSoFar(table, orgId, conversationId, limits, shown, |shown| - 1);
    assert shown[..|shown|] == shown;
    forall m ensures OfThread(table, orgId, conversationId, None, m) <==>
      m in table && m.data.orgId == orgId && m.data.conversationId == conversationId {}
  }

  lemma ReverseSorted<T>(down: seq<Row<T>>, up: seq<Row<T>>)
    requires Sorted(true, down) && forall i :: 0 <= i < |down| ==> down[i].key.ts.Some?
    requires |up| == |down| && forall i :: 0 <= i < |up| ==> up[i] == down[|down| - 1 - i]
    ensures Sorted(false, up)
  {
    forall i, j | 0 <= i < j < |up| ensures Before(false, up[i].key, up[j].key) {
      assert Before(true, down[|down| - 1 - j].key, down[|down| - 1 - i].key);
    }
  }

  lemma ReverseMember<T>(s: seq<T>, x: T)
    ensures x in Reverse(s) <==> x in s
  {
    if x in s {
      var i :| 0 <= i < |s| && s[i] == x;
      assert Reverse(s)[|s| - 1 - i] == x;
    }
  }
}
