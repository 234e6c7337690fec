/** Reading and writing one secret through the cache, every read and write split where
    it waits for the store. Versions number the values the store has held. */
module Secrets {
  import opened Prelude
  import Cache

  const TTL := 300.0

  /** A value on its way from the store: which one, when the fetch began, when the store
      answered, and when the answer reached the cache. */
  datatype Fetched = Fetched(version: nat, began: real, readAt: real, cachedAt: real)

  datatype Flight = Waiting(began: real) | Answered(began: real, version: nat, readAt: real)

  /** One return of `get_secret`; calls are numbered in the order they start. */
  datatype Return = Return(call: nat, value: Fetched, at: real)

  datatype State = State(
    now: real,
    written: seq<real>,           // written[v] is when version v reached the store
    cache: Cache.Store<Fetched>,
    started: nat,                 // get_secret calls so far
    flights: map<nat, Flight>,    // those waiting on the store
    puts: map<nat, nat>,          // put_secret calls between the store write and the invalidation
    answers: seq<Return>)

  datatype Step =
    | Tick(seconds: real)
    | GetStart
    | StoreReads(call: nat)
    | GetEnd(call: nat)
    | GetFails(call: nat)
    | StoreWrites(put: nat)
    | PutEnd(put: nat)
    | PutFails(put: nat)

  const KEY := "secret"

  const Init := State(0.0, [], map[], 0, map[], map[], [])

  predicate Enabled(s: State, step: Step) {
    match step
    case Tick(d) => d >= 0.0
    case GetStart => true
    case StoreReads(c) => c in s.flights && s.flights[c].Waiting? && s.written != []
    case GetEnd(c) => c in s.flights && s.flights[c].Answered?
    case GetFails(c) => c in s.flights
    case StoreWrites(p) => p !in s.puts
    case PutEnd(p) => p in s.puts
    case PutFails(p) => p in s.puts
  }

  function Apply(s: State, step: Step): State
    requires Enabled(s, step)
  {
    match step
    case Tick(d) => s.(now := s.now + d)
    case GetStart =>
      var (cache, hit) := Cache.Get(s.cache, KEY, s.now);
      if hit.Some?
      then s.(cache := cache, started := s.started + 1, answers := s.answers + [Return(s.started, hit.value, s.now)])
      else s.(cache := cache, started := s.started + 1, flights := s.flights[s.started := Waiting(s.now)])
    case StoreReads(c) =>
      s.(flights := s.flights[c := Answered(s.flights[c].began, |s.written| - 1, s.now)])
    case GetEnd(c) =>
      var value := Fetched(s.flights[c].version, s.flights[c].began, s.flights[c].readAt, s.now);
      s.(cache := Cache.Set(s.cache, KEY, value, TTL, s.now),
         flights := s.flights - {c},
         answers := s.answers + [Return(c, value, s.now)])
    case GetFails(c) => s.(flights := s.flights - {c})
    case StoreWrites(p) => s.(written := s.written + [s.now], puts := s.puts[p := |s.written|])
    case PutEnd(p) => s.(cache := s.cache - {KEY}, puts := s.puts - {p})
    case PutFails(p) => s.(puts := s.puts - {p})
  }

  /** The states a run passes through, or none if some step was not enabled. */
  function Run(s: State, steps: seq<Step>): Option<State>
    decreases |steps|
  {
    if steps == [] then Some(s)
    else if Enabled(s, steps[0]) then Run(Apply(s, steps[0]), steps[1..])
    else None
  }

  // ===== how stale an answer can be =====

  /** Version v was what the store held at time t. */
  ghost predicate StoredAt(s: State, v: nat, t: real) {
    v < |s.written| && s.written[v] <= t && (v + 1 < |s.written| ==> t <= s.written[v + 1])
  }

  ghost predicate Honest(s: State, f: Fetched) {
    f.began <= f.readAt <= f.cachedAt <= s.now && StoredAt(s, f.version, f.readAt)
  }

  ghost predicate WritesOrdered(s: State) {
    && (forall i, j :: 0 <= i < j < |s.written| ==> s.written[i] <= s.written[j])
    && (forall i :: 0 <= i < |s.written| ==> s.written[i] <= s.now)
    && (forall p :: p in s.puts ==> s.puts[p] < |s.written|)
  }

  ghost predicate FlightsHonest(s: State) {
    forall c :: c in s.flights ==>
      && c < s.started && s.flights[c].began <= s.now
      && (s.flights[c].Answered? ==>
            s.flights[c].began <= s.flights[c].readAt <= s.now &&
                StoredAt(s, s.flights[c].version, s.flights[c].readAt))
  }

  ghost predicate CacheHonest(s: State) {
    KEY in s.cache ==>
      Honest(s, s.cache[KEY].value) && s.cache[KEY].expiresAt == s.cache[KEY].value.cachedAt + 300.0
  }

  ghost predicate AnswersHonest(s: State) {
    forall i :: 0 <= i < |s.answers| ==>
      && s.answers[i].call < s.started
      && Honest(s, s.answers[i].value)
      && s.answers[i].value.cachedAt <= s.answers[i].at < s.answers[i].value.cachedAt + 300.0
  }

  ghost predicate Invariant(s: State) {
    WritesOrdered(s) && FlightsHonest(s) && CacheHonest(s) && AnswersHonest(s)
  }

  /** What was once true of the store's past stays true. */
  lemma PastIsFixed(s: State, step: Step, v: nat, t: real)
    requires WritesOrdered(s) && Enabled(s, step) && t <= s.now && StoredAt(s, v, t)
    ensures StoredAt(Apply(s, step), v, t) && s.now <= Apply(s, step).now
  {}

  lemma StepKeepsWritesOrdered(s: State, step: Step)
    requires WritesOrdered(s) && Enabled(s, step)
    ensures WritesOrdered(Apply(s, step))
  {}

  lemma StepKeepsFlights(s: State, step: Step)
    requires WritesOrdered(s) && FlightsHonest(s) && Enabled(s, step)
    ensures FlightsHonest(Apply(s, step))
  {
    var t := Apply(s, step);
    forall c | c in t.flights && c in s.flights && t.flights[c] == s.flights[c] && s.flights[c].Answered?
      ensures StoredAt(t, t.flights[c].version, t.flights[c].readAt)
    {
      PastIsFixed(s, step, s.flights[c].version, s.flights[c].readAt);
    }
  }

  lemma StepKeepsCache(s: State, step: Step)
    requires WritesOrdered(s) && FlightsHonest(s) && CacheHonest(s) && Enabled(s, step)
    ensures CacheHonest(Apply(s, step))
  {
    if KEY in s.cache { PastIsFixed(s, step, s.cache[KEY].value.version, s.cache[KEY].value.readAt); }
  }

  lemma StepKeepsAnswers(s: State, step: Step)
    requires Invariant(s) && Enabled(s, step)
    ensures AnswersHonest(Apply(s, step))
  {
    forall i | 0 <= i < |s.answers| ensures Honest(Apply(s, step), s.answers[i].value) {
      PastIsFixed(s, step, s.answers[i].value.version, s.answers[i].value.readAt);
    }
  }

  lemma StepKeepsInvariant(s: State, step: Step)
    requires Invariant(s) && Enabled(s, step)
    ensures Invariant(Apply(s, step))
  {
    StepKeepsWritesOrdered(s, step);
    StepKeepsFlights(s, step);
    StepKeepsCache(s, step);
    StepKeepsAnswers(s, step);
  }

  lemma {:induction false} RunKeepsInvariant(s: State, steps: seq<Step>)
    requires Invariant(s) && Run(s, steps).Some?
    ensures Invariant(Run(s, steps).value)
    decreases |steps|
  {
    if steps != [] {
      StepKeepsInvariant(s, steps[0]);
      RunKeepsInvariant(Apply(s, steps[0]), steps[1..]);
    }
  }

  /** Over any interleaving, every secret returned was the stored value at a moment less
      than 300 seconds plus its own fetch's time in flight before the return. */
  lemma StalenessBound(steps: seq<Step>, i: nat)
    requires Run(Init, steps).Some? && i < |Run(Init, steps).value.answers|
    ensures var s := Run(Init, steps).value;
      var r := s.answers[i];
      var inFlight := r.value.cachedAt - r.value.began;
      StoredAt(s, r.value.version, r.value.readAt) && 0.0 <= r.at - r.value.readAt < 300.0 + inFlight
  {
    RunKeepsInvariant(Init, steps);
  }

  // ===== what the cache spares =====

  /** No fetch ends and no write invalidates. */
  ghost predicate LeavesCache(steps: seq<Step>) {
    forall i :: 0 <= i < |steps| ==> !steps[i].GetEnd? && !steps[i].PutEnd?
  }

  lemma {:induction false} EntryStays(s: State, entry: Cache.Entry<Fetched>, steps: seq<Step>)
    requires LeavesCache(steps) && Run(s, steps).Some?
    requires KEY in s.cache ==> s.cache[KEY] == entry
    requires s.now < entry.expiresAt ==> KEY in s.cache
    ensures var t := Run(s, steps).value;
      && s.now <= t.now && (KEY in t.cache ==> t.cache[KEY] == entry) && (t.now < entry.expiresAt ==> KEY in t.cache)
    decreases |steps|
  {
    if steps != [] { EntryStays(Apply(s, steps[0]), entry, steps[1..]); }
  }

  /** A fetched secret is handed out again without asking the store for exactly 300 seconds, unless
      a write or another fetch comes in between. */
  lemma CachedIsServed(s: State, c: nat, between: seq<Step>)
    requires Enabled(s, GetEnd(c)) && LeavesCache(between) && Run(Apply(s, GetEnd(c)), between).Some?
    ensures var t := Run(Apply(s, GetEnd(c)), between).value;
      var u, f := Apply(t, GetStart), s.flights[c];
      if t.now < s.now + 300.0
      then u.flights == t.flights
           && u.answers == t.answers + [Return(t.started, Fetched(f.version, f.began, f.readAt, s.now), t.now)]
      else u.answers == t.answers && u.flights == t.flights[t.started := Waiting(t.now)]
  {
    var value := Fetched(s.flights[c].version, s.flights[c].began, s.flights[c].readAt, s.now);
    EntryStays(Apply(s, GetEnd(c)), Cache.Entry(s.now + 300.0, value), between);
  }

  // ===== reading after a write =====

  /** Nothing older than version w can still reach the cache or a caller. */
  ghost predicate OnlyFrom(s: State, w: nat) {
    && w < |s.written|
    && (KEY in s.cache ==> s.cache[KEY].value.version >= w)
    && (forall c :: c in s.flights && s.flights[c].Answered? ==> s.flights[c].version >= w)
  }

  /** Every read numbered `first` or later returned version w or newer. */
  ghost predicate LaterReadsFrom(s: State, first: nat, w: nat) {
    forall i :: 0 <= i < |s.answers| && s.answers[i].call >= first ==> s.answers[i].value.version >= w
  }

  lemma {:induction false} FreshForever(s: State, steps: seq<Step>, first: nat, w: nat)
    requires OnlyFrom(s, w) && LaterReadsFrom(s, first, w) && Run(s, steps).Some?
    ensures LaterReadsFrom(Run(s, steps).value, first, w)
    decreases |steps|
  {
    if steps != [] {
      FreshForever(Apply(s, steps[0]), steps[1..], first, w);
    }
  }

  /** A fetch that the store answered before the write, still on its way back. */
  ghost predicate OldAnswerInFlight(s: State, w: nat) {
    exists c :: c in s.flights && s.flights[c].Answered? && s.flights[c].version < w
  }

  /** The put of version w is about to invalidate. From then on no read that starts later,
      in any interleaving, returns an older value exactly when no older answer is in flight
      at that moment. */
  lemma ReadAfterPut(s: State, put: nat)
    requires Invariant(s) && put in s.puts
    ensures var w, t := s.puts[put], Apply(s, PutEnd(put));
      !OldAnswerInFlight(s, w) <==>
        forall steps: seq<Step> {:trigger Run(t, steps)} ::
          Run(t, steps).Some? ==> LaterReadsFrom(Run(t, steps).value, t.started, w)
  {
    var w, t := s.puts[put], Apply(s, PutEnd(put));
    if !OldAnswerInFlight(s, w) {
      forall steps: seq<Step> | Run(t, steps).Some?
        ensures LaterReadsFrom(Run(t, steps).value, t.started, w)
      {
        FreshForever(t, steps, t.started, w);
      }
    } else {
      var c :| c in s.flights && s.flights[c].Answered? && s.flights[c].version < w;
      var steps := StaleRead(t, c);
      assert Run(t, steps).Some?;
    }
  }

  /** The witness: the late answer is cached after the invalidation, and a read that starts
      only then is served the old value. */
  lemma StaleRead(t: State, c: nat) returns (steps: seq<Step>)
    requires c in t.flights && t.flights[c].Answered?
    ensures Run(t, steps).Some?
    ensures var end := Run(t, steps).value;
      exists i :: 0 <= i < |end.answers| && end.answers[i].call == t.started
               && end.answers[i].value.version == t.flights[c].version
  {
    steps := [GetEnd(c), GetStart];
    var mid := Apply(t, GetEnd(c));
    assert steps[1..] == [GetStart];
    assert Cache.Get(mid.cache, KEY, mid.now).1.Some?;
    var end := Apply(mid, GetStart);
    assert Run(end, []) == Some(end);
    assert Run(mid, [GetStart]) == Some(end) by { assert [GetStart][1..] == []; }
    assert Run(t, steps) == Run(mid, steps[1..]);
    assert end.answers[|t.answers| + 1].call == t.started;
  }

  // ===== the code between the awaits =====

  /** The process: its cache, the calls it has waiting on the store, and what it has answered.
      Each method is a stretch of `get_secret` or `put_secret` that runs without an await. */
  class Process {
    var cache: Cache.Store<Fetched>
    var started: nat
    var flights: map<nat, Flight>
    var puts: map<nat, nat>
    var answers: seq<Return>

    /** Together with the clock and the store's own history, a state of the machine. */
    ghost function View(now: real, written: seq<real>): State
      reads this
    {
      State(now, written, cache, started, flights, puts, answers)
    }

    constructor ()
      ensures View(0.0, []) == Init
    {
      cache, started, flights, puts, answers := map[], 0, map[], map[], [];
    }

    /** Up to the store call, or to the return on a hit. */
    method StartGet(now: real, ghost written: seq<real>) returns (hit: Option<Fetched>)
      modifies this
      ensures View(now, written) == Apply(old(View(now, written)), GetStart)
      ensures hit.Some? ==> answers == old(answers) + [Return(old(started), hit.value, now)]
      ensures hit.None? ==> answers == old(answers)
    {
      var call := started;
      started := started + 1;
      if KEY in cache {
        var entry := cache[KEY];
        if now < entry.expiresAt {
          answers := answers + [Return(call, entry.value, now)];
          return Some(entry.value);
        }
        cache := cache - {KEY};
      }
      flights := flights[call := Waiting(now)];
      return None;
    }

    /** From the store's answer to the return: the cache is filled whatever happened meanwhile. */
    method FinishGet(call: nat, now: real, ghost written: seq<real>) returns (value: Fetched)
      requires call in flights && flights[call].Answered?
      modifies this
      ensures View(now, written) == Apply(old(View(now, written)), GetEnd(call))
      ensures answers == old(answers) + [Return(call, value, now)]
    {
      value := Fetched(flights[call].version, flights[call].began, flights[call].readAt, now);
      flights := flights - {call};
      cache := cache[KEY := Cache.Entry(now + TTL, value)];
      answers := answers + [Return(call, value, now)];
    }

    /** After the store took the write: invalidate. */
    method FinishPut(put: nat, now: real, ghost written: seq<real>)
      requires put in puts
      modifies this
      ensures View(now, written) == Apply(old(View(now, written)), PutEnd(put))
    {
      cache := cache - {KEY};
      puts := puts - {put};
    }
  }
}
