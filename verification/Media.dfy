/** Signed attachment URLs, cached for less time than they are valid. */
module Media {
  import opened Prelude
  import Cache
  import Storage

  const SIGN_EXPIRY := 7200.0
  const CACHE_TTL := 3600.0

  datatype Url = Url(key: string, signedAt: real) {
    function ExpiresAt(): real { signedAt + SIGN_EXPIRY }
  }

  datatype MediaError = OtherOrg

  function CacheKey(s3Key: string): string { "mediaurl:" + s3Key }

  lemma CacheKeysDiffer(s3Key: string)
    ensures forall k :: CacheKey(k) == CacheKey(s3Key) ==> k == s3Key
  {
    forall k | CacheKey(k) == CacheKey(s3Key) ensures k == s3Key {
      assert CacheKey(k)[9..] == k && CacheKey(s3Key)[9..] == s3Key;
    }
  }

  // Looked up at `now`; on a miss signed at `signed` and cached at `cached`.
  datatype Request = Request(orgId: string, s3Key: string, now: real, signed: real, cached: real)

  function Serve(store: Cache.Store<Url>, q: Request): (Cache.Store<Url>, Result<Url, MediaError>) {
    if !Storage.InScope(q.orgId, q.s3Key) then (store, Err(OtherOrg))
    else
      var (left, hit) := Cache.Get(store, CacheKey(q.s3Key), q.now);
      if hit.Some? then (left, Ok(hit.value))
      else (Cache.Set(left, CacheKey(q.s3Key), Url(q.s3Key, q.signed), CACHE_TTL, q.cached), Ok(Url(q.s3Key, q.signed)))
  }

  class MediaUrls {
    var store: Cache.Store<Url>

    constructor ()
      ensures store == map[]
    {
      store := map[];
    }

    method SignedUrlForAttachment(q: Request) returns (r: Result<Url, MediaError>)
      modifies this
      ensures (store, r) == Serve(old(store), q)
      ensures r.Ok? <==> q.orgId + "/" <= q.s3Key
      ensures r.Err? ==> r == Err(OtherOrg) && store == old(store)
    {
      if !Storage.InScope(q.orgId, q.s3Key) { return Err(OtherOrg); }
      var (left, cached) := Cache.Get(store, CacheKey(q.s3Key), q.now);
      store := left;
      if cached.Some? { return Ok(cached.value); }
      var url := Url(q.s3Key, q.signed);
      store := Cache.Set(store, CacheKey(q.s3Key), url, CACHE_TTL, q.cached);
      return Ok(url);
    }
  }

  function From(store: Cache.Store<Url>, qs: seq<Request>): Cache.Store<Url> {
    if qs == [] then store else Serve(From(store, qs[..|qs| - 1]), qs[|qs| - 1]).0
  }

  ghost predicate Timely(q: Request, slack: real) { q.now <= q.signed <= q.cached <= q.signed + slack }

  /** An entry holds a URL for its own key. */
  lemma {:induction false} EntriesAreOwn(qs: seq<Request>, k: string)
    ensures CacheKey(k) in From(map[], qs) ==> From(map[], qs)[CacheKey(k)].value.key == k
  {
    if qs != [] {
      EntriesAreOwn(qs[..|qs| - 1], k);
      CacheKeysDiffer(k);
    }
  }

  lemma {:induction false} StoreIsSound(qs: seq<Request>, slack: real, k: string)
    requires forall i :: 0 <= i < |qs| ==> Timely(qs[i], slack)
    ensures CacheKey(k) in From(map[], qs) ==>
              var entry := From(map[], qs)[CacheKey(k)]; entry.expiresAt <= entry.value.signedAt + slack + CACHE_TTL
  {
    if qs != [] {
      StoreIsSound(qs[..|qs| - 1], slack, k);
      CacheKeysDiffer(k);
    }
  }

  /** Over any run of requests, whatever is in the cache by then: an organisation asking for
      another's file is refused and leaves the cache alone; one asking for its own gets a URL for
      the key it asked for. */
  lemma OwnFilesOnly(before: seq<Request>, q: Request, owner: string)
    requires Storage.Free(q.orgId, '/') && Storage.Free(owner, '/') && owner + "/" <= q.s3Key
    ensures q.orgId != owner ==> Serve(From(map[], before), q) == (From(map[], before), Err(OtherOrg))
    ensures q.orgId == owner ==> var r := Serve(From(map[], before), q).1; r.Ok? && r.value.key == q.s3Key
  {
    if Storage.InScope(q.orgId, q.s3Key) { Storage.OneOrgPerKey(q.orgId, owner, q.s3Key); }
    EntriesAreOwn(before, q.s3Key);
  }

  /** Over any run of requests, in any order, the answer to each stays valid at least an hour (less
      the signing delay) after it is served. */
  lemma ServedUrlsLast(before: seq<Request>, q: Request, slack: real)
    requires slack >= 0.0 && Timely(q, slack) && forall i :: 0 <= i < |before| ==> Timely(before[i], slack)
    requires q.orgId + "/" <= q.s3Key
    ensures var url := Serve(From(map[], before), q).1;
      url.Ok? && url.value.key == q.s3Key && url.value.signedAt + 7200.0 - q.now >= 3600.0 - slack
  {
    StoreIsSound(before, slack, q.s3Key);
    EntriesAreOwn(before, q.s3Key);
  }

  /** The key is not cached, or no longer. */
  predicate Missed(store: Cache.Store<Url>, q: Request) {
    CacheKey(q.s3Key) !in store || store[CacheKey(q.s3Key)].expiresAt <= q.now
  }

  lemma {:induction false} EntryStays(store: Cache.Store<Url>, q: Request, between: seq<Request>)
    requires q.orgId + "/" <= q.s3Key && Missed(store, q)
    requires forall i :: 0 <= i < |between| && between[i].s3Key == q.s3Key ==> between[i].now < q.cached + 3600.0
    ensures var left := From(Serve(store, q).0, between);
      CacheKey(q.s3Key) in left && left[CacheKey(q.s3Key)] == Cache.Entry(q.cached + 3600.0, Url(q.s3Key, q.signed))
  {
    if between != [] {
      EntryStays(store, q, between[..|between| - 1]);
      CacheKeysDiffer(q.s3Key);
    }
  }

  /** Once a URL is signed and cached, every request for that file in the next hour gets the same
      URL, whoever asks and whatever else was asked for in between; the first one later gets a new
      one. */
  lemma SameUrlWithinTheHour(store: Cache.Store<Url>, q: Request, between: seq<Request>, again: Request)
    requires q.orgId + "/" <= q.s3Key && Missed(store, q)
    requires again.s3Key == q.s3Key && again.orgId + "/" <= q.s3Key
    requires forall i :: 0 <= i < |between| && between[i].s3Key == q.s3Key ==> between[i].now < q.cached + 3600.0
    ensures Serve(store, q).1 == Ok(Url(q.s3Key, q.signed))
    ensures Serve(From(Serve(store, q).0, between), again).1
         == Ok(Url(q.s3Key, if again.now < q.cached + 3600.0 then q.signed else again.signed))
  {
    EntryStays(store, q, between);
  }
}
