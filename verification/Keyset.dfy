/** Keyset pagination over (timestamp NULLS LAST, id): the ORDER BY, the cursor
    predicate and one page, for any kind of row. */
module Keyset {
  import opened Prelude
  import opened Cursor

  datatype Row<T> = Row(key: Key, data: T)

  /** One committed state of the table together with the WHERE clause evaluated on it. */
  datatype Snapshot<!T> = Snapshot(rows: seq<Row<T>>, matches: Row<T> -> bool)

  datatype Page<T> = Page(items: seq<Row<T>>, next: Option<string>)

  // ===== the order =====

  predicate Less(a: string, b: string) {
    b != "" && (a == "" || a[0] < b[0] || (a[0] == b[0] && Less(a[1..], b[1..])))
  }

  predicate IdBefore(desc: bool, a: string, b: string) { if desc then Less(b, a) else Less(a, b) }

  /** `ORDER BY ts [DESC] NULLS LAST, id [DESC]`. */
  predicate Before(desc: bool, a: Key, b: Key) {
    match (a.ts, b.ts)
    case (Some(s), Some(t)) => if s == t then IdBefore(desc, a.id, b.id) else (if desc then t < s else s < t)
    case (Some(_), None) => true
    case (None, Some(_)) => false
    case (None, None) => IdBefore(desc, a.id, b.id)
  }

  /** `_cursor_predicate`: a comparison with a NULL timestamp is not true, so each
      `col < ts` and `col == ts` also requires a timestamp. */
  predicate After(desc: bool, cur: Key, k: Key) {
    if desc then
      match cur.ts
      case Some(ts) =>
        || (k.ts.Some? && k.ts.value < ts)
        || (k.ts.Some? && k.ts.value == ts && Less(k.id, cur.id))
        || k.ts.None?
      case None => k.ts.None? && Less(k.id, cur.id)
    else
      match cur.ts
      case Some(ts) =>
        || (k.ts.Some? && k.ts.value > ts)
        || (k.ts.Some? && k.ts.value == ts && Less(cur.id, k.id))
      case None => k.ts.None? && Less(cur.id, k.id)
  }

  lemma {:induction false} LessTransitive(a: string, b: string, c: string)
    requires Less(a, b) && Less(b, c)
    ensures Less(a, c)
  {
    if a != "" && a[0] == b[0] == c[0] { LessTransitive(a[1..], b[1..], c[1..]); }
  }

  lemma {:induction false} LessTotal(a: string, b: string)
    ensures Less(a, b) || Less(b, a) || a == b
    ensures !(Less(a, b) && Less(b, a)) && !Less(a, a)
  {
    if a != "" && b != "" && a[0] == b[0] {
      LessTotal(a[1..], b[1..]);
      assert a == [a[0]] + a[1..] && b == [b[0]] + b[1..];
    }
    if a != "" { LessTotal(a[1..], a[1..]); }
  }

  lemma BeforeTransitive(desc: bool, a: Key, b: Key, c: Key)
    requires Before(desc, a, b) && Before(desc, b, c)
    ensures Before(desc, a, c)
  {
    if Less(a.id, b.id) && Less(b.id, c.id) { LessTransitive(a.id, b.id, c.id); }
    if Less(c.id, b.id) && Less(b.id, a.id) { LessTransitive(c.id, b.id, a.id); }
  }

  lemma BeforeTotal(desc: bool, a: Key, b: Key)
    ensures Before(desc, a, b) || Before(desc, b, a) || a == b
    ensures !(Before(desc, a, b) && Before(desc, b, a)) && !Before(desc, a, a)
  {
    LessTotal(a.id, b.id);
    LessTotal(a.id, a.id);
  }

  /** Later timestamps come first newest first and last oldest first; a row without one comes last
      both ways; equal timestamps go by id. */
  lemma OrderMeaning(desc: bool, a: Key, b: Key)
    ensures a.ts.Some? && b.ts.None? ==> Before(desc, a, b) && !Before(desc, b, a)
    ensures a.ts.Some? && b.ts.Some? && a.ts.value > b.ts.value ==> (Before(desc, a, b) <==> desc)
    ensures a.ts == b.ts ==> (Before(desc, a, b) <==> if desc then Less(b.id, a.id) else Less(a.id, b.id))
  {}

  /** Ids are compared at the first character where they differ; a proper prefix is less. */
  lemma {:induction false} LessMeaning(a: string, b: string)
    ensures Less(a, b) <==> exists k :: 0 <= k <= |a| && FirstDifference(a, b, k)
  {
    if a == "" || b == "" {
      if b != "" { assert FirstDifference(a, b, 0); }
    } else if a[0] == b[0] {
      LessMeaning(a[1..], b[1..]);
      if Less(a[1..], b[1..]) {
        var k :| 0 <= k <= |a[1..]| && FirstDifference(a[1..], b[1..], k);
        assert a[..k + 1] == [a[0]] + a[1..][..k] && b[..k + 1] == [b[0]] + b[1..][..k];
        assert FirstDifference(a, b, k + 1);
      }
      if k :| 0 <= k <= |a| && FirstDifference(a, b, k) {
        assert k > 0;
        assert a[1..][..k - 1] == a[..k][1..] && b[1..][..k - 1] == b[..k][1..];
        assert FirstDifference(a[1..], b[1..], k - 1);
      }
    } else {
      assert a[0] < b[0] ==> FirstDifference(a, b, 0);
      forall k | 0 < k <= |a| ensures !FirstDifference(a, b, k) {
        assert k <= |b| ==> a[..k][0] == a[0] && b[..k][0] == b[0];
      }
    }
  }

  ghost predicate FirstDifference(a: string, b: string, k: nat)
    requires k <= |a|
  {
    k < |b| && a[..k] == b[..k] && (k == |a| || a[k] < b[k])
  }

  /** Newest first, the cursor predicate is exactly "later in the order"; oldest first
      it also loses every null row once the cursor has a timestamp. */
  lemma CursorPredicateMeaning(desc: bool, cur: Key, k: Key)
    ensures After(desc, cur, k) <==> Before(desc, cur, k) && (desc || cur.ts.None? || k.ts.Some?)
  {}

  // ===== one query =====

  ghost predicate Sorted<T>(desc: bool, s: seq<Row<T>>) {
    forall i, j :: 0 <= i < j < |s| ==> Before(desc, s[i].key, s[j].key)
  }

  ghost predicate DistinctIds<T>(s: seq<Row<T>>) {
    forall i, j :: 0 <= i < j < |s| ==> s[i].key.id != s[j].key.id
  }

  function Filter<T(!new)>(s: seq<Row<T>>, p: Row<T> -> bool): (r: seq<Row<T>>)
    ensures forall x :: x in r <==> x in s && p(x)
    ensures |r| <= |s|
  {
    if s == [] then []
    else (if p(s[0]) then [s[0]] else []) + Filter(s[1..], p)
  }

  function Insert<T>(desc: bool, r: Row<T>, s: seq<Row<T>>): seq<Row<T>> {
    if s == [] || Before(desc, r.key, s[0].key) then [r] + s else [s[0]] + Insert(desc, r, s[1..])
  }

  function Sort<T>(desc: bool, s: seq<Row<T>>): seq<Row<T>> {
    if s == [] then [] else Insert(desc, s[0], Sort(desc, s[1..]))
  }

  lemma {:induction false} InsertPermutes<T>(desc: bool, r: Row<T>, s: seq<Row<T>>)
    ensures multiset(Insert(desc, r, s)) == multiset(s) + multiset{r}
  {
    if s != [] && !Before(desc, r.key, s[0].key) {
      InsertPermutes(desc, r, s[1..]);
      assert s == [s[0]] + s[1..];
    }
  }

  lemma {:induction false} InsertSorts<T>(desc: bool, r: Row<T>, s: seq<Row<T>>)
    requires Sorted(desc, s) && forall i :: 0 <= i < |s| ==> s[i].key.id != r.key.id
    ensures Sorted(desc, Insert(desc, r, s))
  {
    if s == [] {
    } else if Before(desc, r.key, s[0].key) {
      forall j | 0 < j < |s| ensures Before(desc, r.key, s[j].key) {
        BeforeTransitive(desc, r.key, s[0].key, s[j].key);
      }
    } else {
      BeforeTotal(desc, r.key, s[0].key);
      var t := Insert(desc, r, s[1..]);
      InsertSorts(desc, r, s[1..]);
      InsertPermutes(desc, r, s[1..]);
      forall j | 0 <= j < |t| ensures Before(desc, s[0].key, t[j].key) {
        assert t[j] in multiset(t);
        assert t[j] == r || t[j] in s[1..];
      }
    }
  }

  lemma {:induction false} SortPermutes<T>(desc: bool, s: seq<Row<T>>)
    ensures multiset(Sort(desc, s)) == multiset(s)
  {
    if s != [] {
      SortPermutes(desc, s[1..]);
      InsertPermutes(desc, s[0], Sort(desc, s[1..]));
      assert s == [s[0]] + s[1..];
    }
  }

  lemma SortMember<T>(desc: bool, s: seq<Row<T>>, x: Row<T>)
    ensures x in Sort(desc, s) <==> x in s
  {
    SortPermutes(desc, s);
    assert x in Sort(desc, s) <==> x in multiset(Sort(desc, s));
  }

  lemma {:induction false} SortSorts<T>(desc: bool, s: seq<Row<T>>)
    requires DistinctIds(s)
    ensures Sorted(desc, Sort(desc, s)) && |Sort(desc, s)| == |s|
  {
    SortPermutes(desc, s);
    assert |Sort(desc, s)| == |multiset(Sort(desc, s))|;
    if s != [] {
      var t := Sort(desc, s[1..]);
      SortSorts(desc, s[1..]);
      forall i | 0 <= i < |t| ensures t[i].key.id != s[0].key.id {
        SortMember(desc, s[1..], t[i]);
        var j :| 0 < j < |s| && s[j] == t[i];
      }
      InsertSorts(desc, s[0], t);
    }
  }

  /** An order and a set of rows leave one listing. */
  lemma {:induction false} SortedUnique<T>(desc: bool, a: seq<Row<T>>, b: seq<Row<T>>)
    requires Sorted(desc, a) && Sorted(desc, b)
    requires forall x :: x in a <==> x in b
    ensures a == b
  {
    if a == [] {
      HasFirst(b);
    } else {
      assert a[0] in b;
      FirstIsFirst(desc, a, b);
      forall x ensures x in a[1..] <==> x in b[1..] {
        BeforeTotal(desc, a[0].key, a[0].key);
        assert x in a[1..] ==> x in a && x != a[0];
        assert x in b[1..] ==> x in b && x != b[0];
      }
      SortedUnique(desc, a[1..], b[1..]);
    }
  }

  lemma HasFirst<T>(s: seq<Row<T>>)
    ensures s != [] ==> s[0] in s
  {}

  lemma FirstIsFirst<T>(desc: bool, a: seq<Row<T>>, b: seq<Row<T>>)
    requires Sorted(desc, a) && Sorted(desc, b) && a != [] && a[0] in b && b[0] in a
    ensures a[0] == b[0]
  {
    var i :| 0 <= i < |b| && b[i] == a[0];
    var j :| 0 <= j < |a| && a[j] == b[0];
    if i > 0 && j > 0 {
      BeforeTotal(desc, a[0].key, b[0].key);
    }
  }

  lemma {:induction false} FilterDistinct<T(!new)>(s: seq<Row<T>>, p: Row<T> -> bool)
    requires DistinctIds(s)
    ensures DistinctIds(Filter(s, p))
  {
    if s != [] {
      FilterDistinct(s[1..], p);
      var t := Filter(s[1..], p);
      forall j | 0 <= j < |t| ensures t[j].key.id != s[0].key.id {
        assert t[j] in s[1..];
      }
    }
  }

  /** `WHERE matches AND cursor predicate`. */
  function Where<T(!new)>(snap: Snapshot<T>, desc: bool, cur: Option<Key>): Row<T> -> bool {
    (r: Row<T>) => snap.matches(r) && (cur.Some? ==> After(desc, cur.value, r.key))
  }

  function Hits<T(!new)>(snap: Snapshot<T>, desc: bool, cur: Option<Key>): seq<Row<T>> {
    Filter(snap.rows, Where(snap, desc, cur))
  }

  /** `LIMIT size + 1`, the overflow row dropped, and the token of the last row kept
      when there was one. */
  function Cut<T>(sorted: seq<Row<T>>, size: nat, encode: Key -> string): Page<T> {
    if |sorted| > size && size > 0 then Page(sorted[..size], Some(encode(sorted[size - 1].key)))
    else if |sorted| > size then Page([], None)
    else Page(sorted, None)
  }

  function PageAt<T(!new)>(snap: Snapshot<T>, desc: bool, size: nat, cur: Option<Key>): Page<T> {
    Cut(Sort(desc, Hits(snap, desc, cur)), size, Encode)
  }

  function Last<T>(p: Page<T>): Key
    requires p.items != []
  {
    p.items[|p.items| - 1].key
  }

  /** A row the query selects. */
  ghost predicate Hit<T>(snap: Snapshot<T>, desc: bool, cur: Option<Key>, r: Row<T>) {
    r in snap.rows && snap.matches(r) && (cur.Some? ==> After(desc, cur.value, r.key))
  }

  /** What a page promises, in terms of the table. */
  ghost predicate IsPage<T(!new)>(snap: Snapshot<T>, desc: bool, size: nat, cur: Option<Key>, p: Page<T>) {
    && |p.items| <= size
    && Sorted(desc, p.items)
    && (forall r :: r in p.items ==> Hit(snap, desc, cur, r))
    && (p.next.Some? ==> |p.items| == size > 0)
    && (forall r :: Hit(snap, desc, cur, r) ==> r in p.items || (p.next.Some? && Before(desc, Last(p), r.key)))
  }

  /** The token of a page means the key of its last row. */
  ghost predicate Resumes<T>(p: Page<T>) {
    p.next.Some? ==> p.items != [] && Decode(p.next.value) == Ok(Last(p))
  }

  lemma PageMeaning<T(!new)>(snap: Snapshot<T>, desc: bool, size: nat, cur: Option<Key>)
    requires size >= 1 && DistinctIds(snap.rows)
    ensures IsPage(snap, desc, size, cur, PageAt(snap, desc, size, cur))
    ensures Resumes(PageAt(snap, desc, size, cur))
  {
    SortedHits(snap, desc, cur);
    PageItems(snap, desc, size, cur);
    TokenResumes(snap, desc, size, cur);
    PageOfSorted(snap, desc, size, cur, Sort(desc, Hits(snap, desc, cur)), PageAt(snap, desc, size, cur));
  }

  lemma SortedHits<T(!new)>(snap: Snapshot<T>, desc: bool, cur: Option<Key>)
    requires DistinctIds(snap.rows)
    ensures var sorted := Sort(desc, Hits(snap, desc, cur));
      Sorted(desc, sorted) && forall r :: r in sorted <==> Hit(snap, desc, cur, r)
  {
    var hits := Hits(snap, desc, cur);
    FilterDistinct(snap.rows, Where(snap, desc, cur));
    SortSorts(desc, hits);
    forall r ensures r in Sort(desc, hits) <==> Hit(snap, desc, cur, r) {
      SortMember(desc, hits, r);
    }
  }

  lemma PageOfSorted<T(!new)>(snap: Snapshot<T>, desc: bool, size: nat, cur: Option<Key>,
                              sorted: seq<Row<T>>, p: Page<T>)
    requires size >= 1 && Sorted(desc, sorted)
    requires forall r :: r in sorted <==> Hit(snap, desc, cur, r)
    requires p.items == if |sorted| > size then sorted[..size] else sorted
    requires p.next.Some? <==> |sorted| > size
    ensures IsPage(snap, desc, size, cur, p)
  {
    TakePage(desc, sorted, size);
  }

  lemma PageItems<T(!new)>(snap: Snapshot<T>, desc: bool, size: nat, cur: Option<Key>)
    requires size >= 1
    ensures var sorted, p := Sort(desc, Hits(snap, desc, cur)), PageAt(snap, desc, size, cur);
      && p.items == (if |sorted| > size then sorted[..size] else sorted)
      && (p.next.Some? <==> |sorted| > size)
  {
    var sorted := Sort(desc, Hits(snap, desc, cur));
    if |sorted| > size + 1 { assert sorted[..size + 1][..size] == sorted[..size]; }
  }

  lemma TokenResumes<T(!new)>(snap: Snapshot<T>, desc: bool, size: nat, cur: Option<Key>)
    ensures Resumes(PageAt(snap, desc, size, cur))
  {
    forall k ensures Decode(Encode(k)) == Ok(k) { DecodeEncode(k); }
    CutResumes(Sort(desc, Hits(snap, desc, cur)), size, Encode, Decode);
  }

  /** With any encoding that its decoding inverts, the token means the last row kept. */
  lemma CutResumes<T>(sorted: seq<Row<T>>, size: nat, encode: Key -> string, decode: string -> Result<Key, CursorError>)
    requires forall k :: decode(encode(k)) == Ok(k)
    ensures var p := Cut(sorted, size, encode);
      p.next.Some? ==> p.items != [] && decode(p.next.value) == Ok(Last(p))
  {}

  lemma TakePage<T(!new)>(desc: bool, sorted: seq<Row<T>>, size: nat)
    requires Sorted(desc, sorted) && size >= 1
    ensures var items := if |sorted| > size then sorted[..size] else sorted;
      && Sorted(desc, items)
      && (forall r :: r in items ==> r in sorted)
      && (forall r :: r in sorted ==> r in items || (|sorted| > size && Before(desc, items[size - 1].key, r.key)))
  {
    var items := if |sorted| > size then sorted[..size] else sorted;
    forall r | r in sorted
      ensures r in items || (|sorted| > size && Before(desc, items[size - 1].key, r.key))
    {
      var i :| 0 <= i < |sorted| && sorted[i] == r;
      if i < |items| { assert items[i] == r; }
    }
  }

  /** A request: decode the token, or refuse it. */
  function List<T(!new)>(snap: Snapshot<T>, desc: bool, size: nat, token: Option<string>):
      Result<Page<T>, CursorError> {
    match token
    case None => Ok(PageAt(snap, desc, size, None))
    case Some(text) =>
      match Decode(text)
      case Err(e) => Err(e)
      case Ok(k) => Ok(PageAt(snap, desc, size, Some(k)))
  }

}
