/** Walks: pages fetched one after the other, each with the token of the page before,
    while other transactions change the table in between. */
module Walk {
  import opened Prelude
  import opened Cursor
  import opened IsoTime
  import opened Keyset

  const MAX_LIMIT := 100

  function Clamp(limit: int, default: int): int {
    if limit <= 0 then default else if limit <= MAX_LIMIT then limit else MAX_LIMIT
  }

  const DEFAULT_LIMIT := 50

  /** A page has the size asked for, up to 100; 50 if none or a senseless one was asked for. */
  lemma ClampMeaning(limit: int)
    ensures limit <= 0 ==> Clamp(limit, DEFAULT_LIMIT) == 50
    ensures 1 <= limit <= 100 ==> Clamp(limit, DEFAULT_LIMIT) == limit
    ensures limit > 100 ==> Clamp(limit, DEFAULT_LIMIT) == 100
  {}

  /** `limits[i]` is the page size asked for, `snaps[i]` the committed state page i reads. */
  ghost predicate IsWalk<T(!new)>(desc: bool, snaps: seq<Snapshot<T>>, limits: seq<int>, pages: seq<Page<T>>) {
    && |snaps| == |limits| == |pages| >= 1
    && forall i :: 0 <= i < |pages| ==> IsStep(desc, snaps, limits, pages, i)
  }

  ghost predicate IsStep<T(!new)>(desc: bool, snaps: seq<Snapshot<T>>, limits: seq<int>, pages: seq<Page<T>>, i: nat)
    requires |snaps| == |limits| == |pages| && i < |pages|
  {
    && DistinctIds(snaps[i].rows)
    && (i > 0 ==> pages[i - 1].next.Some?)
    && Ok(pages[i]) == List(snaps[i], desc, Clamp(limits[i], DEFAULT_LIMIT), if i == 0 then None else pages[i - 1].next)
  }

  ghost function CursorOf<T>(pages: seq<Page<T>>, i: nat): Option<Key>
    requires i < |pages|
  {
    if i == 0 || pages[i - 1].items == [] then None else Some(Last(pages[i - 1]))
  }

  lemma ListResumes<T(!new)>(snap: Snapshot<T>, desc: bool, size: nat, p: Page<T>)
    requires Resumes(p) && p.next.Some?
    ensures p.items != [] && List(snap, desc, size, p.next) == Ok(PageAt(snap, desc, size, Some(Last(p))))
  {}

  lemma StepPage<T(!new)>(desc: bool, snaps: seq<Snapshot<T>>, limits: seq<int>, pages: seq<Page<T>>, i: nat)
    requires IsWalk(desc, snaps, limits, pages) && i < |pages|
    requires i > 0 ==> Resumes(pages[i - 1])
    ensures i > 0 ==> pages[i - 1].items != []
    ensures pages[i] == PageAt(snaps[i], desc, Clamp(limits[i], DEFAULT_LIMIT), CursorOf(pages, i))
    ensures Resumes(pages[i])
  {
    assert IsStep(desc, snaps, limits, pages, i);
    if i > 0 { ListResumes(snaps[i], desc, Clamp(limits[i], DEFAULT_LIMIT), pages[i - 1]); }
    TokenResumes(snaps[i], desc, Clamp(limits[i], DEFAULT_LIMIT), CursorOf(pages, i));
  }

  lemma {:induction false} TokensResume<T(!new)>(desc: bool, snaps: seq<Snapshot<T>>, limits: seq<int>,
                                                 pages: seq<Page<T>>, i: nat)
    requires IsWalk(desc, snaps, limits, pages) && i < |pages|
    ensures pages[i] == PageAt(snaps[i], desc, Clamp(limits[i], DEFAULT_LIMIT), CursorOf(pages, i))
    ensures Resumes(pages[i])
    ensures i > 0 ==> pages[i - 1].items != []
    decreases i
  {
    if i > 0 { TokensResume(desc, snaps, limits, pages, i - 1); }
    StepPage(desc, snaps, limits, pages, i);
  }

  /** Each page is the page after the last row of the page before, and that row exists. */
  lemma WalkPage<T(!new)>(desc: bool, snaps: seq<Snapshot<T>>, limits: seq<int>, pages: seq<Page<T>>, i: nat)
    requires IsWalk(desc, snaps, limits, pages) && i < |pages|
    ensures i > 0 ==> pages[i - 1].next.Some? && pages[i - 1].items != []
    ensures DistinctIds(snaps[i].rows)
    ensures IsPage(snaps[i], desc, Clamp(limits[i], DEFAULT_LIMIT), CursorOf(pages, i), pages[i])
  {
    assert IsStep(desc, snaps, limits, pages, i);
    TokensResume(desc, snaps, limits, pages, i);
    PageMeaning(snaps[i], desc, Clamp(limits[i], DEFAULT_LIMIT), CursorOf(pages, i));
  }

  /** A later page starts after every row of an earlier one, whatever happened between. */
  lemma {:induction false} LaterPagesFollow<T(!new)>(desc: bool, snaps: seq<Snapshot<T>>, limits: seq<int>,
                                                     pages: seq<Page<T>>, i: nat, j: nat, c: Row<T>, d: Row<T>)
    requires IsWalk(desc, snaps, limits, pages) && i < j < |pages|
    requires c in pages[i].items && d in pages[j].items
    ensures Before(desc, c.key, d.key)
    decreases j
  {
    WalkPage(desc, snaps, limits, pages, i);
    WalkPage(desc, snaps, limits, pages, j);
    WalkPage(desc, snaps, limits, pages, j - 1);
    var prev := pages[j - 1].items;
    CursorPredicateMeaning(desc, Last(pages[j - 1]), d.key);
    if i < j - 1 {
      assert prev[|prev| - 1] in prev;
      LaterPagesFollow(desc, snaps, limits, pages, i, j - 1, c, prev[|prev| - 1]);
      BeforeTransitive(desc, c.key, Last(pages[j - 1]), d.key);
    } else if c != prev[|prev| - 1] {
      BeforeTransitive(desc, c.key, Last(pages[j - 1]), d.key);
    }
  }

  /** `last_message_at` only ever moves forward: from nothing to a time, or later. */
  ghost predicate Forward(before: Option<Instant>, after: Option<Instant>) {
    before.Some? ==> after.Some? && before.value <= after.value
  }

  /** Forward for one conversation over the whole walk, in every state it appears in. */
  ghost predicate MovesForward<T(!new)>(snaps: seq<Snapshot<T>>, id: string) {
    forall i, j, c, d | 0 <= i <= j < |snaps| && c in snaps[i].rows && d in snaps[j].rows
      :: c.key.id == id && d.key.id == id ==> Forward(c.key.ts, d.key.ts)
  }

  lemma OneRowPerId<T>(rows: seq<Row<T>>, c: Row<T>, d: Row<T>)
    requires DistinctIds(rows) && c in rows && d in rows && c.key.id == d.key.id
    ensures c == d
  {}

  lemma SortedPositions<T>(desc: bool, s: seq<Row<T>>, a: nat, b: nat)
    requires Sorted(desc, s) && a < |s| && b < |s| && s[a] == s[b]
    ensures a == b
  {
    BeforeTotal(desc, s[a].key, s[a].key);
  }

  /** Newest first, with any transactions between the pages, a conversation whose
      timestamp only moves forward is shown at most once. */
  lemma NeverTwice<T(!new)>(snaps: seq<Snapshot<T>>, limits: seq<int>, pages: seq<Page<T>>, id: string,
                            i: nat, a: nat, j: nat, b: nat)
    requires IsWalk(true, snaps, limits, pages) && MovesForward(snaps, id)
    requires i < |pages| && a < |pages[i].items| && pages[i].items[a].key.id == id
    requires j < |pages| && b < |pages[j].items| && pages[j].items[b].key.id == id
    ensures i == j && a == b
  {
    WalkPage(true, snaps, limits, pages, i);
    WalkPage(true, snaps, limits, pages, j);
    var c, d := pages[i].items[a], pages[j].items[b];
    assert c in pages[i].items && d in pages[j].items;
    if i < j {
      LaterPagesFollow(true, snaps, limits, pages, i, j, c, d);
      LessTotal(id, id);
    } else if j < i {
      LaterPagesFollow(true, snaps, limits, pages, j, i, d, c);
      LessTotal(id, id);
    } else {
      OneRowPerId(snaps[i].rows, c, d);
      SortedPositions(true, pages[i].items, a, b);
    }
  }

  /** The cursor predicate never hides this row from the page that should reach it. */
  ghost predicate NeverHidden<T>(desc: bool, pages: seq<Page<T>>, r: Row<T>) {
    forall i | 0 <= i < |pages| && pages[i].next.Some? && pages[i].items != []
      :: Before(desc, Last(pages[i]), r.key) ==> After(desc, Last(pages[i]), r.key)
  }

  /** Up to page k the row has been shown or is still ahead of the cursor. */
  lemma {:induction false} ShownOrAhead<T(!new)>(desc: bool, snaps: seq<Snapshot<T>>, limits: seq<int>,
                                                 pages: seq<Page<T>>, r: Row<T>, k: nat) returns (i: nat)
    requires IsWalk(desc, snaps, limits, pages) && k < |pages| && NeverHidden(desc, pages, r)
    requires forall m :: 0 <= m < |snaps| ==> r in snaps[m].rows && snaps[m].matches(r)
    ensures i <= k
    ensures r in pages[i].items || (pages[k].next.Some? && pages[k].items != [] && Before(desc, Last(pages[k]), r.key))
  {
    WalkPage(desc, snaps, limits, pages, k);
    if k > 0 {
      i := ShownOrAhead(desc, snaps, limits, pages, r, k - 1);
      if r in pages[i].items { return; }
    }
    i := k;
    assert Hit(snaps[k], desc, CursorOf(pages, k), r);
  }

  /** A conversation that matches and is left alone is shown exactly once by a
      newest-first walk that reaches its end. */
  lemma UntouchedExactlyOnce<T(!new)>(snaps: seq<Snapshot<T>>, limits: seq<int>, pages: seq<Page<T>>, r: Row<T>)
    returns (i: nat, a: nat)
    requires IsWalk(true, snaps, limits, pages) && pages[|pages| - 1].next.None?
    requires forall m :: 0 <= m < |snaps| ==> r in snaps[m].rows && snaps[m].matches(r)
    ensures i < |pages| && a < |pages[i].items| && pages[i].items[a] == r
    ensures forall j, b :: 0 <= j < |pages| && 0 <= b < |pages[j].items| && pages[j].items[b].key.id == r.key.id ==>
              j == i && b == a
  {
    i := ShownOrAhead(true, snaps, limits, pages, r, |pages| - 1);
    a :| 0 <= a < |pages[i].items| && pages[i].items[a] == r;
    forall m, n, c, d | 0 <= m <= n < |snaps| && c in snaps[m].rows && d in snaps[n].rows &&
      c.key.id == r.key.id && d.key.id == r.key.id ensures Forward(c.key.ts, d.key.ts)
    {
      assert IsStep(true, snaps, limits, pages, m) && IsStep(true, snaps, limits, pages, n);
      OneRowPerId(snaps[m].rows, c, r);
      OneRowPerId(snaps[n].rows, d, r);
    }
    forall j, b | 0 <= j < |pages| && 0 <= b < |pages[j].items| && pages[j].items[b].key.id == r.key.id
      ensures j == i && b == a
    {
      NeverTwice(snaps, limits, pages, r.key.id, i, a, j, b);
    }
  }


  // ===== a table that does not change =====

  /** The same committed state read `n` times. */
  ghost function Still<T>(snap: Snapshot<T>, n: nat): (s: seq<Snapshot<T>>)
    ensures |s| == n && forall i :: 0 <= i < n ==> s[i] == snap
  {
    seq(n, _ => snap)
  }

  /** The pages one after the other. */
  function Concat<T>(pages: seq<Page<T>>): seq<Row<T>> {
    if pages == [] then [] else Concat(pages[..|pages| - 1]) + pages[|pages| - 1].items
  }

  lemma {:induction false} ConcatMember<T>(pages: seq<Page<T>>, r: Row<T>)
    ensures r in Concat(pages) <==> exists i :: 0 <= i < |pages| && r in pages[i].items
  {
    if pages != [] {
      var n := |pages| - 1;
      ConcatMember(pages[..n], r);
      assert forall i :: 0 <= i < n ==> pages[..n][i] == pages[i];
    }
  }

  lemma {:induction false} ConcatSorted<T(!new)>(desc: bool, snaps: seq<Snapshot<T>>, limits: seq<int>,
                                                 pages: seq<Page<T>>, k: nat)
    requires IsWalk(desc, snaps, limits, pages) && k <= |pages|
    ensures Sorted(desc, Concat(pages[..k]))
  {
    if k > 0 {
      var front, last := Concat(pages[..k - 1]), pages[k - 1].items;
      assert pages[..k][..k - 1] == pages[..k - 1];
      ConcatSorted(desc, snaps, limits, pages, k - 1);
      WalkPage(desc, snaps, limits, pages, k - 1);
      forall a, b | 0 <= a < |front| && 0 <= b < |last| ensures Before(desc, front[a].key, last[b].key) {
        assert front[a] in front;
        ConcatMember(pages[..k - 1], front[a]);
        var i :| 0 <= i < k - 1 && front[a] in pages[..k - 1][i].items;
        LaterPagesFollow(desc, snaps, limits, pages, i, k - 1, front[a], last[b]);
      }
      assert Concat(pages[..k]) == front + last;
    }
  }

  ghost function Reached<T>(snap: Snapshot<T>, reach: Row<T> -> bool): Row<T> -> bool {
    (r: Row<T>) => snap.matches(r) && reach(r)
  }

  /** A finished walk over a table that stays put lists exactly the matching rows it could
      ever reach, once each and in order. */
  lemma WalkLists<T(!new)>(desc: bool, snap: Snapshot<T>, limits: seq<int>, pages: seq<Page<T>>, reach: Row<T> -> bool)
    requires var snaps := Still(snap, |pages|);
      IsWalk(desc, snaps, limits, pages) && pages[|pages| - 1].next.None?
    requires forall r | r in snap.rows && snap.matches(r) && reach(r) :: NeverHidden(desc, pages, r)
    requires forall i, r | 0 <= i < |pages| && r in pages[i].items :: reach(r)
    ensures Concat(pages) == Sort(desc, Filter(snap.rows, Reached(snap, reach)))
  {
    var snaps := Still(snap, |pages|);
    var wanted := Filter(snap.rows, Reached(snap, reach));
    assert IsStep(desc, snaps, limits, pages, 0);
    FilterDistinct(snap.rows, Reached(snap, reach));
    SortSorts(desc, wanted);
    ConcatSorted(desc, snaps, limits, pages, |pages|);
    assert pages[..|pages|] == pages;
    forall r ensures r in Concat(pages) <==> r in Sort(desc, wanted) {
      SortMember(desc, wanted, r);
      WalkShows(desc, snap, limits, pages, reach, r);
    }
    SortedUnique(desc, Concat(pages), Sort(desc, wanted));
  }

  lemma WalkShows<T(!new)>(desc: bool, snap: Snapshot<T>, limits: seq<int>, pages: seq<Page<T>>,
                           reach: Row<T> -> bool, r: Row<T>)
    requires IsWalk(desc, Still(snap, |pages|), limits, pages) && pages[|pages| - 1].next.None?
    requires r in snap.rows && snap.matches(r) && reach(r) ==> NeverHidden(desc, pages, r)
    requires forall i, x | 0 <= i < |pages| && x in pages[i].items :: reach(x)
    ensures r in Concat(pages) <==> r in snap.rows && snap.matches(r) && reach(r)
  {
    ConcatMember(pages, r);
    if r in snap.rows && snap.matches(r) && reach(r) {
      var i := ShownOrAhead(desc, Still(snap, |pages|), limits, pages, r, |pages| - 1);
      assert r in pages[i].items;
    }
    if i :| 0 <= i < |pages| && r in pages[i].items {
      ShownMatches(desc, Still(snap, |pages|), limits, pages, i, r);
    }
  }

  lemma ShownMatches<T(!new)>(desc: bool, snaps: seq<Snapshot<T>>, limits: seq<int>, pages: seq<Page<T>>,
                              i: nat, r: Row<T>)
    requires IsWalk(desc, snaps, limits, pages) && i < |pages| && r in pages[i].items
    ensures r in snaps[i].rows && snaps[i].matches(r)
  {
    WalkPage(desc, snaps, limits, pages, i);
    assert Hit(snaps[i], desc, CursorOf(pages, i), r);
  }

  ghost function Matching<T(!new)>(snap: Snapshot<T>): seq<Row<T>> { Filter(snap.rows, snap.matches) }

  /** Newest first, the pages of a finished walk are the filtered, sorted table. */
  lemma NewestFirstComplete<T(!new)>(snap: Snapshot<T>, limits: seq<int>, pages: seq<Page<T>>)
    requires IsWalk(true, Still(snap, |pages|), limits, pages) && pages[|pages| - 1].next.None?
    ensures Concat(pages) == Sort(true, Matching(snap))
  {
    forall r: Row<T> ensures NeverHidden(true, pages, r) { NewestNeverHides(pages, r); }
    var reach := (r: Row<T>) => true;
    WalkLists(true, snap, limits, pages, reach);
    SameFilter(snap.rows, Reached(snap, reach), snap.matches);
  }

  lemma NewestNeverHides<T>(pages: seq<Page<T>>, r: Row<T>)
    ensures NeverHidden(true, pages, r)
  {
    forall i | 0 <= i < |pages| && pages[i].next.Some? && pages[i].items != []
      ensures Before(true, Last(pages[i]), r.key) ==> After(true, Last(pages[i]), r.key)
    {
      CursorPredicateMeaning(true, Last(pages[i]), r.key);
    }
  }

  lemma {:induction false} SameFilter<T(!new)>(s: seq<Row<T>>, p: Row<T> -> bool, q: Row<T> -> bool)
    requires forall r :: r in s ==> (p(r) <==> q(r))
    ensures Filter(s, p) == Filter(s, q)
  {
    if s != [] { SameFilter(s[1..], p, q); }
  }

  ghost function Dated<T(!new)>(snap: Snapshot<T>): seq<Row<T>> {
    Filter(snap.rows, (r: Row<T>) => snap.matches(r) && r.key.ts.Some?)
  }

  /** Every matching row has a timestamp, or the first page is longer than the rows that do. */
  ghost predicate ReachesNulls<T(!new)>(snap: Snapshot<T>, limit: int) {
    || (forall r :: r in snap.rows && snap.matches(r) ==> r.key.ts.Some?)
    || |Dated(snap)| < Clamp(limit, DEFAULT_LIMIT)
  }

  /** A list without repeated ids is no longer than a list that contains it, and shorter
      when that list has something more. */
  lemma {:induction false} ContainedLength<T>(s: seq<Row<T>>, t: seq<Row<T>>)
    requires DistinctIds(s) && forall r :: r in s ==> r in t
    ensures |s| <= |t|
    ensures (exists r :: r in t && r !in s) ==> |s| < |t|
  {
    if s != [] {
      assert s[0] in s;
      var k :| 0 <= k < |t| && t[k] == s[0];
      var rest := t[..k] + t[k + 1..];
      forall r | r in s[1..] ensures r in rest {
        var i :| 0 < i < |s| && s[i] == r;
        assert s[i] in s;
        var j :| 0 <= j < |t| && t[j] == r;
        assert j != k;
        assert rest[if j < k then j else j - 1] == r;
      }
      ContainedLength(s[1..], rest);
      if r :| r in t && r !in s {
        assert r !in s[1..];
        var j :| 0 <= j < |t| && t[j] == r;
        assert rest[if j < k then j else j - 1] == r;
      }
    }
  }

  lemma {:induction false} SortedDistinct<T>(desc: bool, s: seq<Row<T>>, rows: seq<Row<T>>)
    requires Sorted(desc, s) && DistinctIds(rows) && forall r :: r in s ==> r in rows
    ensures DistinctIds(s)
  {
    forall i, j | 0 <= i < j < |s| ensures s[i].key.id != s[j].key.id {
      assert s[i] in s && s[j] in s;
      BeforeTotal(desc, s[i].key, s[i].key);
    }
  }

  /** Whether the first page, oldest first, ends inside the null rows. */
  lemma FirstPageNulls<T(!new)>(snap: Snapshot<T>, size: nat, p: Page<T>)
    requires IsPage(snap, false, size, None, p) && DistinctIds(snap.rows)
    ensures |Dated(snap)| >= size ==> forall r :: r in p.items ==> r.key.ts.Some?
    ensures |Dated(snap)| < size && p.next.Some? ==> p.items != [] && Last(p).ts.None?
  {
    var dated := Dated(snap);
    SortedDistinct(false, p.items, snap.rows);
    FilterDistinct(snap.rows, (r: Row<T>) => snap.matches(r) && r.key.ts.Some?);
    if i :| 0 <= i < |p.items| && p.items[i].key.ts.None? {
      var last := p.items[|p.items| - 1];
      assert last in p.items && last.key.ts.None?;
      forall r | r in dated ensures r in p.items { assert Hit(snap, false, None, r); }
      assert p.items[i] in p.items && p.items[i] !in dated;
      ContainedLength(dated, p.items);
    } else {
      forall r | r in p.items ensures r in dated {
        var i :| 0 <= i < |p.items| && p.items[i] == r;
        assert Hit(snap, false, None, r);
      }
      ContainedLength(p.items, dated);
    }
  }

  /** Oldest first, the last row of the first page decides what every later page can hold. */
  lemma {:induction false} NullsOrNot<T(!new)>(snap: Snapshot<T>, limits: seq<int>, pages: seq<Page<T>>, k: nat)
    requires IsWalk(false, Still(snap, |pages|), limits, pages) && k < |pages|
    ensures |Dated(snap)| >= Clamp(limits[0], DEFAULT_LIMIT) ==> forall r :: r in pages[k].items ==> r.key.ts.Some?
    ensures |Dated(snap)| < Clamp(limits[0], DEFAULT_LIMIT) && pages[k].next.Some? ==>
              pages[k].items != [] && Last(pages[k]).ts.None?
    decreases k
  {
    var snaps := Still(snap, |pages|);
    WalkPage(false, snaps, limits, pages, k);
    if k == 0 {
      FirstPageNulls(snap, Clamp(limits[0], DEFAULT_LIMIT), pages[0]);
    } else {
      NullsOrNot(snap, limits, pages, k - 1);
      var prev := pages[k - 1].items;
      assert prev[|prev| - 1] in prev;
      if pages[k].next.Some? { assert pages[k].items[|pages[k].items| - 1] in pages[k].items; }
    }
  }

  /** Oldest first, the cursor hides no dated row, and no null row either if the first page
      reaches them. */
  lemma OldestNeverHides<T(!new)>(snap: Snapshot<T>, limits: seq<int>, pages: seq<Page<T>>, r: Row<T>)
    requires IsWalk(false, Still(snap, |pages|), limits, pages) && pages[|pages| - 1].next.None?
    requires r in snap.rows && snap.matches(r) && (ReachesNulls(snap, limits[0]) || r.key.ts.Some?)
    ensures NeverHidden(false, pages, r)
  {
    forall k | 0 <= k < |pages| && pages[k].next.Some? && pages[k].items != []
      ensures Before(false, Last(pages[k]), r.key) ==> After(false, Last(pages[k]), r.key)
    {
      NullsOrNot(snap, limits, pages, k);
      CursorPredicateMeaning(false, Last(pages[k]), r.key);
    }
  }

  lemma OldestShowsReached<T(!new)>(snap: Snapshot<T>, limits: seq<int>, pages: seq<Page<T>>, k: nat, r: Row<T>)
    requires IsWalk(false, Still(snap, |pages|), limits, pages) && k < |pages| && r in pages[k].items
    ensures ReachesNulls(snap, limits[0]) || r.key.ts.Some?
  {
    NullsOrNot(snap, limits, pages, k);
  }

  /** Listing the dated rows alone is not listing the table once a null row matches. */
  lemma DatedIsLess<T(!new)>(snap: Snapshot<T>, lost: Row<T>)
    requires lost in snap.rows && snap.matches(lost) && lost.key.ts.None?
    ensures Sort(false, Dated(snap)) != Sort(false, Matching(snap))
  {
    SortMember(false, Matching(snap), lost);
    SortMember(false, Dated(snap), lost);
  }

  lemma OldestLists<T(!new)>(snap: Snapshot<T>, limits: seq<int>, pages: seq<Page<T>>, reach: Row<T> -> bool)
    requires IsWalk(false, Still(snap, |pages|), limits, pages) && pages[|pages| - 1].next.None?
    requires forall r :: reach(r) <==> ReachesNulls(snap, limits[0]) || r.key.ts.Some?
    ensures Concat(pages) == Sort(false, Filter(snap.rows, Reached(snap, reach)))
  {
    forall r | r in snap.rows && snap.matches(r) && reach(r) ensures NeverHidden(false, pages, r) {
      OldestNeverHides(snap, limits, pages, r);
    }
    forall k, r | 0 <= k < |pages| && r in pages[k].items ensures reach(r) {
      OldestShowsReached(snap, limits, pages, k, r);
    }
    WalkLists(false, snap, limits, pages, reach);
  }

  /** Oldest first, the pages are the whole filtered, sorted table exactly when the first
      page reaches past the dated rows or there are no others; else they are the dated rows. */
  lemma OldestFirstResult<T(!new)>(snap: Snapshot<T>, limits: seq<int>, pages: seq<Page<T>>)
    requires IsWalk(false, Still(snap, |pages|), limits, pages) && pages[|pages| - 1].next.None?
    ensures ReachesNulls(snap, limits[0]) <==> Concat(pages) == Sort(false, Matching(snap))
    ensures !ReachesNulls(snap, limits[0]) ==> Concat(pages) == Sort(false, Dated(snap))
  {
    var all := ReachesNulls(snap, limits[0]);
    var reach := (r: Row<T>) => all || r.key.ts.Some?;
    OldestLists(snap, limits, pages, reach);
    if all {
      SameFilter(snap.rows, Reached(snap, reach), snap.matches);
    } else {
      SameFilter(snap.rows, Reached(snap, reach), (r: Row<T>) => snap.matches(r) && r.key.ts.Some?);
      var lost :| lost in snap.rows && snap.matches(lost) && lost.key.ts.None?;
      DatedIsLess(snap, lost);
    }
  }

  /** A walk over a table that stays put ends: every page but the last brings a new row. */
  lemma WalkEnds<T(!new)>(desc: bool, snap: Snapshot<T>, limits: seq<int>, pages: seq<Page<T>>)
    requires IsWalk(desc, Still(snap, |pages|), limits, pages)
    ensures |pages| <= |Matching(snap)| + 1
  {
    var snaps := Still(snap, |pages|);
    var n := |pages| - 1;
    var shown := Concat(pages[..n]);
    assert IsStep(desc, snaps, limits, pages, 0);
    ConcatSorted(desc, snaps, limits, pages, n);
    EveryPageAdds(desc, snaps, limits, pages, n);
    forall r | r in shown ensures r in Matching(snap) {
      ConcatMember(pages[..n], r);
      var i :| 0 <= i < n && r in pages[..n][i].items;
      WalkPage(desc, snaps, limits, pages, i);
    }
    SortedDistinct(desc, shown, snap.rows);
    ContainedLength(shown, Matching(snap));
  }

  lemma {:induction false} EveryPageAdds<T(!new)>(desc: bool, snaps: seq<Snapshot<T>>, limits: seq<int>,
                                                  pages: seq<Page<T>>, k: nat)
    requires IsWalk(desc, snaps, limits, pages) && k < |pages|
    ensures |Concat(pages[..k])| >= k
  {
    if k > 0 {
      assert pages[..k][..k - 1] == pages[..k - 1];
      EveryPageAdds(desc, snaps, limits, pages, k - 1);
      WalkPage(desc, snaps, limits, pages, k);
    }
  }

}
