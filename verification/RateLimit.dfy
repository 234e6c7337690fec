/** The in-process sliding-window limiter, and the log that never forgets which it
    must agree with. Times are seconds on a monotonic clock. */
module RateLimit {

  datatype Verdict = Accepted | Limited(retryAfter: int) | EmptyDequeIndexed

  function Ceil(x: real): int { -((-x).Floor) }

  function Max(a: int, b: int): int { if a < b then b else a }

  /** What is left once everything at or before `start` is popped off the left. */
  function Evict(dq: seq<real>, start: real): seq<real> {
    if dq != [] && dq[0] <= start then Evict(dq[1..], start) else dq
  }

  /** One call against one deque. A limit of zero on an empty deque indexes nothing. */
  function Check(dq: seq<real>, now: real, limit: int, window: int): (seq<real>, Verdict) {
    var kept := Evict(dq, now - window as real);
    if |kept| < limit then (kept + [now], Accepted)
    else if kept == [] then (kept, EmptyDequeIndexed)
    else (kept, Limited(Max(1, Ceil(kept[0] + window as real - now))))
  }

  datatype Key = Key(orgId: string, action: string)

  function Of(windows: map<Key, seq<real>>, key: Key): seq<real> {
    if key in windows then windows[key] else []
  }

  class Limiter {
    var windows: map<Key, seq<real>>

    constructor ()
      ensures windows == map[]
    {
      windows := map[];
    }

    method CheckAndIncrement(orgId: string, action: string, limit: int, window: int, now: real) returns (v: Verdict)
      modifies this
      ensures var key := Key(orgId, action);
        var checked := Check(Of(old(windows), key), now, limit, window);
        v == checked.1 && windows == old(windows)[key := checked.0]
    {
      var start := now - window as real;
      var key := Key(orgId, action);
      if key !in windows { windows := windows[key := []]; }
      while windows[key] != [] && windows[key][0] <= start
        invariant key in windows && windows == old(windows)[key := windows[key]]
        invariant Evict(windows[key], start) == Evict(Of(old(windows), key), start)
        decreases |windows[key]|
      {
        windows := windows[key := windows[key][1..]];
      }
      if |windows[key]| >= limit {
        if windows[key] == [] { return EmptyDequeIndexed; }
        return Limited(Max(1, Ceil(windows[key][0] + window as real - now)));
      }
      windows := windows[key := windows[key] + [now]];
      return Accepted;
    }
  }

  // ===== one key over time =====

  ghost predicate Sorted(s: seq<real>) { forall i, j :: 0 <= i < j < |s| ==> s[i] <= s[j] }

  /** The deque after calls at these times. */
  function DequeAfter(times: seq<real>, limit: int, window: int): seq<real> {
    if times == [] then []
    else Check(DequeAfter(times[..|times| - 1], limit, window), times[|times| - 1], limit, window).0
  }

  /** How many entries are later than `start`. */
  function Recent(log: seq<real>, start: real): nat {
    if log == [] then 0
    else (if log[|log| - 1] > start then 1 else 0) + Recent(log[..|log| - 1], start)
  }

  /** The entries later than `start`, by their place in the log. */
  ghost function After(log: seq<real>, start: real): set<nat> { set i: nat | i < |log| && log[i] > start }

  lemma {:induction false} RecentMeaning(log: seq<real>, start: real)
    ensures Recent(log, start) == |After(log, start)|
  {
    if log == [] {
      assert After(log, start) == {};
    } else {
      var n := |log| - 1;
      RecentMeaning(log[..n], start);
      assert After(log, start) == After(log[..n], start) + (if log[n] > start then {n} else {});
    }
  }

  /** The reference: never evicts, accepts when fewer than `limit` accepted calls lie
      within the window. */
  function LogAfter(times: seq<real>, limit: int, window: int): seq<real> {
    if times == [] then []
    else LogOne(LogAfter(times[..|times| - 1], limit, window), times[|times| - 1], limit, window)
  }

  function LogOne(log: seq<real>, now: real, limit: int, window: int): seq<real> {
    if Recent(log, now - window as real) < limit then log + [now] else log
  }

  lemma {:induction false} RecentSplit(a: seq<real>, b: seq<real>, start: real)
    ensures Recent(a + b, start) == Recent(a, start) + Recent(b, start)
  {
    if b == [] {
      assert a + b == a;
    } else {
      assert (a + b)[..|a + b| - 1] == a + b[..|b| - 1];
      RecentSplit(a, b[..|b| - 1], start);
    }
  }

  lemma {:induction false} RecentNone(a: seq<real>, start: real)
    requires forall i :: 0 <= i < |a| ==> a[i] <= start
    ensures Recent(a, start) == 0
  {
    if a != [] { RecentNone(a[..|a| - 1], start); }
  }

  lemma {:induction false} RecentLength(a: seq<real>, start: real)
    ensures Recent(a, start) <= |a|
    ensures (forall i :: 0 <= i < |a| ==> a[i] > start) ==> Recent(a, start) == |a|
  {
    if a != [] { RecentLength(a[..|a| - 1], start); }
  }

  /** `log` is entries no later than `start`, then the deque. */
  ghost predicate Holds(log: seq<real>, dq: seq<real>, start: real) {
    && |dq| <= |log| && log[|log| - |dq|..] == dq
    && forall i :: 0 <= i < |log| - |dq| ==> log[i] <= start
  }

  ghost predicate AllAfter(dq: seq<real>, start: real) { forall i :: 0 <= i < |dq| ==> dq[i] > start }

  lemma {:induction false} EvictHolds(log: seq<real>, dq: seq<real>, start: real)
    requires Holds(log, dq, start) && Sorted(dq)
    ensures Holds(log, Evict(dq, start), start) && AllAfter(Evict(dq, start), start)
    ensures |Evict(dq, start)| <= |dq|
  {
    if dq != [] && dq[0] <= start { EvictHolds(log, dq[1..], start); }
  }

  lemma RecentIsKept(log: seq<real>, kept: seq<real>, start: real)
    requires Holds(log, kept, start)
    ensures Recent(log, start) <= |kept|
    ensures AllAfter(kept, start) ==> Recent(log, start) == |kept|
  {
    var n := |log| - |kept|;
    assert log == log[..n] + kept;
    RecentSplit(log[..n], kept, start);
    RecentNone(log[..n], start);
    RecentLength(kept, start);
  }

  ghost predicate Bounded(s: seq<real>, last: real) { forall i :: 0 <= i < |s| ==> s[i] <= last }

  /** The log is ordered and no later than the last call, and the deque is the log without
      a prefix already too old to count. */
  ghost predicate Tracks(log: seq<real>, dq: seq<real>, last: real, limit: int, window: int) {
    Sorted(log) && Bounded(log, last) && Holds(log, dq, last - window as real) && |dq| <= limit
  }

  lemma OneCall(log: seq<real>, dq: seq<real>, last: real, now: real, limit: int, window: int)
    requires Tracks(log, dq, last, limit, window) && last <= now && window >= 1
    ensures var start := now - window as real;
      var kept := Evict(dq, start);
      && Holds(log, kept, start) && AllAfter(kept, start) && |kept| <= limit && Recent(log, start) == |kept|
  {
    var start := now - window as real;
    assert Holds(log, dq, start);
    EvictHolds(log, dq, start);
    RecentIsKept(log, Evict(dq, start), start);
  }

  lemma OneCallTracks(log: seq<real>, dq: seq<real>, now: real, limit: int, window: int)
    requires Tracks(log, dq, now, limit, window) && window >= 1
    ensures Tracks(LogOne(log, now, limit, window), Check(dq, now, limit, window).0, now, limit, window)
  {
    var start := now - window as real;
    OneCall(log, dq, now, now, limit, window);
    KeptTracks(log, dq, Evict(dq, start), now, limit, window);
  }

  lemma KeptTracks(log: seq<real>, dq: seq<real>, kept: seq<real>, now: real, limit: int, window: int)
    requires Sorted(log) && Bounded(log, now) && kept == Evict(dq, now - window as real)
    requires Holds(log, kept, now - window as real) && |kept| <= limit && Recent(log, now - window as real) == |kept|
    ensures Tracks(LogOne(log, now, limit, window), Check(dq, now, limit, window).0, now, limit, window)
  {
    if |kept| < limit { Accepting(log, kept, now - window as real, now); }
  }

  lemma Accepting(log: seq<real>, kept: seq<real>, start: real, now: real)
    requires Sorted(log) && Bounded(log, now) && Holds(log, kept, start)
    ensures Sorted(log + [now]) && Bounded(log + [now], now) && Holds(log + [now], kept + [now], start)
  {}

  lemma {:induction false} DequeTracksLog(times: seq<real>, last: real, limit: int, window: int)
    requires Sorted(times) && limit >= 1 && window >= 1
    requires times != [] ==> times[|times| - 1] <= last
    ensures Tracks(LogAfter(times, limit, window), DequeAfter(times, limit, window), last, limit, window)
  {
    if times != [] {
      var n := |times| - 1;
      DequeTracksLog(times[..n], times[n], limit, window);
      OneCallTracks(LogAfter(times[..n], limit, window), DequeAfter(times[..n], limit, window),
                    times[n], limit, window);
      Later(LogAfter(times, limit, window), DequeAfter(times, limit, window), times[n], last, limit, window);
    }
  }

  lemma Later(log: seq<real>, dq: seq<real>, last: real, later: real, limit: int, window: int)
    requires Tracks(log, dq, last, limit, window) && last <= later
    ensures Tracks(log, dq, later, limit, window)
  {}

  lemma VerdictByCount(log: seq<real>, dq: seq<real>, now: real, limit: int, window: int)
    requires Tracks(log, dq, now, limit, window) && limit >= 1 && window >= 1
    ensures var verdict := Check(dq, now, limit, window).1;
      !verdict.EmptyDequeIndexed? && (verdict.Accepted? <==> |After(log, now - window as real)| < limit)
  {
    OneCall(log, dq, now, now, limit, window);
    RecentMeaning(log, now - window as real);
  }

  /** A call is accepted exactly when fewer than `limit` accepted calls lie within the window before
      it, as the log that never forgets has them. */
  lemma AcceptsLikeTheLog(times: seq<real>, now: real, limit: int, window: int)
    requires Sorted(times + [now]) && limit >= 1 && window >= 1
    ensures var verdict := Check(DequeAfter(times, limit, window), now, limit, window).1;
      && !verdict.EmptyDequeIndexed?
      && (verdict.Accepted? <==> |After(LogAfter(times, limit, window), now - window as real)| < limit)
  {
    TracksAt(times, now, limit, window);
    VerdictByCount(LogAfter(times, limit, window), DequeAfter(times, limit, window), now, limit, window);
  }

  /** With a limit of zero or less no call is accepted: every one of them indexes an empty deque. */
  lemma {:induction false} NothingUnderZero(times: seq<real>, now: real, limit: int, window: int)
    requires limit <= 0
    ensures DequeAfter(times, limit, window) == []
    ensures Check(DequeAfter(times, limit, window), now, limit, window).1 == EmptyDequeIndexed
  {
    if times != [] { NothingUnderZero(times[..|times| - 1], times[|times| - 1], limit, window); }
  }

  lemma TracksAt(times: seq<real>, now: real, limit: int, window: int)
    requires Sorted(times + [now]) && limit >= 1 && window >= 1
    ensures Tracks(LogAfter(times, limit, window), DequeAfter(times, limit, window), now, limit, window)
  {
    var all := times + [now];
    forall i, j | 0 <= i < j < |times| ensures times[i] <= times[j] { assert all[i] <= all[j]; }
    if times != [] { assert all[|times| - 1] <= all[|times|]; }
    DequeTracksLog(times, now, limit, window);
  }

  /** Entry i + limit is at least a window after entry i. */
  ghost predicate Spread(log: seq<real>, limit: int, window: int) {
    forall i, j :: 0 <= i < j < |log| && j == i + limit ==> log[i] + window as real <= log[j]
  }

  /** Any accepted call is at least a window after the one `limit` places before it. */
  lemma {:induction false} AcceptedAreSpread(times: seq<real>, limit: int, window: int)
    requires Sorted(times) && limit >= 1 && window >= 1
    ensures Spread(LogAfter(times, limit, window), limit, window)
  {
    if times != [] {
      var n := |times| - 1;
      AcceptedAreSpread(times[..n], limit, window);
      DequeTracksLog(times[..n], times[n], limit, window);
      SpreadStep(LogAfter(times[..n], limit, window), times[n], limit, window);
    }
  }

  lemma SpreadStep(log: seq<real>, now: real, limit: int, window: int)
    requires Spread(log, limit, window) && Sorted(log) && limit >= 1
    ensures Spread(LogOne(log, now, limit, window), limit, window)
  {
    if Recent(log, now - window as real) < limit {
      if limit <= |log| { OldEnough(log, limit, now - window as real); }
      SpreadMore(log, now, limit, window);
    }
  }

  lemma SpreadMore(log: seq<real>, now: real, limit: int, window: int)
    requires Spread(log, limit, window) && limit >= 1
    requires limit <= |log| ==> log[|log| - limit] <= now - window as real
    ensures Spread(log + [now], limit, window)
  {}

  lemma OldEnough(log: seq<real>, limit: int, start: real)
    requires Sorted(log) && 1 <= limit <= |log| && Recent(log, start) < limit
    ensures log[|log| - limit] <= start
  {
    var i := |log| - limit;
    if log[i] > start { TailCounts(log, i, start); }
  }

  lemma TailCounts(log: seq<real>, i: nat, start: real)
    requires Sorted(log) && i < |log| && log[i] > start
    ensures Recent(log, start) >= |log| - i
  {
    var front, tail := log[..i], log[i..];
    assert log == front + tail;
    RecentSplit(front, tail, start);
    forall k | 0 <= k < |tail| ensures tail[k] > start { assert log[i] <= log[i + k]; }
    RecentLength(tail, start);
  }

  /** Accepted calls in the half-open window that ends at any moment. */
  function InWindow(log: seq<real>, end: real, window: int): nat {
    if log == [] then 0
    else (if end - window as real < log[|log| - 1] <= end then 1 else 0) + InWindow(log[..|log| - 1], end, window)
  }

  /** The same, by their place in the log. */
  ghost function Within(log: seq<real>, end: real, window: int): set<nat> {
    set i: nat | i < |log| && end - window as real < log[i] <= end
  }

  lemma {:induction false} InWindowMeaning(log: seq<real>, end: real, window: int)
    ensures InWindow(log, end, window) == |Within(log, end, window)|
  {
    if log == [] {
      assert Within(log, end, window) == {};
    } else {
      var n := |log| - 1;
      InWindowMeaning(log[..n], end, window);
      assert Within(log, end, window)
          == Within(log[..n], end, window) + (if end - window as real < log[n] <= end then {n} else {});
    }
  }

  /** No window of the given length, wherever it is placed, holds more than `limit` accepted calls. */
  lemma WindowNeverOverfull(times: seq<real>, limit: int, window: int, end: real)
    requires Sorted(times) && limit >= 1 && window >= 1
    ensures |Within(LogAfter(times, limit, window), end, window)| <= limit
  {
    InWindowMeaning(LogAfter(times, limit, window), end, window);
    AcceptedAreSpread(times, limit, window);
    DequeTracksLog(times, if times == [] then 0.0 else times[|times| - 1], limit, window);
    SpreadBound(LogAfter(times, limit, window), limit, window, end);
  }

  lemma {:induction false} SpreadBound(log: seq<real>, limit: int, window: int, end: real)
    requires Sorted(log) && limit >= 1 && window >= 1 && Spread(log, limit, window)
    ensures InWindow(log, end, window) <= limit
    ensures InWindow(log, end, window) <= |log|
  {
    if log != [] {
      var n := |log| - 1;
      SpreadBound(log[..n], limit, window, end);
      if end - window as real < log[n] <= end && n >= limit {
        assert log[n - limit] + window as real <= log[n];
        InWindowTail(log[..n], n - limit, end, window);
      }
    }
  }

  /** Entries up to `k` that are too old add nothing. */
  lemma {:induction false} InWindowTail(log: seq<real>, k: int, end: real, window: int)
    requires Sorted(log) && 0 <= k < |log| && log[k] <= end - window as real
    ensures InWindow(log, end, window) <= |log| - 1 - k
  {
    var n := |log| - 1;
    if n > k { InWindowTail(log[..n], k, end, window); }
    else { InWindowOld(log, end, window); }
  }

  lemma {:induction false} InWindowOld(log: seq<real>, end: real, window: int)
    requires Sorted(log) && (log != [] ==> log[|log| - 1] <= end - window as real)
    ensures InWindow(log, end, window) == 0
  {
    if log != [] { InWindowOld(log[..|log| - 1], end, window); }
  }

  /** Whether the never-evicting log would accept a call `seconds` later, nothing else
      being accepted in between. */
  ghost predicate WouldPass(log: seq<real>, start: real, seconds: int, limit: int) {
    |After(log, start + seconds as real)| < limit
  }

  /** A refused call learns the least whole number of seconds after which it would pass. */
  lemma RetryAfterIsExact(times: seq<real>, now: real, limit: int, window: int)
    requires Sorted(times + [now]) && limit >= 1 && window >= 1
    requires Check(DequeAfter(times, limit, window), now, limit, window).1.Limited?
    ensures var log, start := LogAfter(times, limit, window), now - window as real;
      var wait := Check(DequeAfter(times, limit, window), now, limit, window).1.retryAfter;
      && 1 <= wait <= window
      && WouldPass(log, start, wait, limit)
      && forall d :: 0 <= d < wait ==> !WouldPass(log, start, d, limit)
  {
    TracksAt(times, now, limit, window);
    RetryAfterOf(LogAfter(times, limit, window), DequeAfter(times, limit, window), now, limit, window);
  }

  lemma RetryAfterOf(log: seq<real>, dq: seq<real>, now: real, limit: int, window: int)
    requires Tracks(log, dq, now, limit, window) && limit >= 1 && window >= 1
    requires Check(dq, now, limit, window).1.Limited?
    ensures var start, wait := now - window as real, Check(dq, now, limit, window).1.retryAfter;
      && 1 <= wait <= window
      && WouldPass(log, start, wait, limit)
      && forall d :: 0 <= d < wait ==> !WouldPass(log, start, d, limit)
  {
    var start := now - window as real;
    var kept := Evict(dq, start);
    OneCall(log, dq, now, now, limit, window);
    assert kept[0] == log[|log| - |kept|] <= now;
    assert kept[0] + window as real - now == kept[0] - start;
    WaitIsLeast(log, kept, start, limit, window);
  }

  lemma WaitIsLeast(log: seq<real>, kept: seq<real>, start: real, limit: int, window: int)
    requires Sorted(log) && Holds(log, kept, start) && AllAfter(kept, start)
    requires |kept| == limit >= 1 && window >= 1 && kept[0] <= start + window as real
    ensures var wait := Max(1, Ceil(kept[0] - start));
      && 1 <= wait <= window
      && WouldPass(log, start, wait, limit)
      && forall d :: 0 <= d < wait ==> !WouldPass(log, start, d, limit)
  {
    var x := kept[0] - start;
    var wait := Max(1, Ceil(x));
    FirstOut(log, kept, start, wait, limit);
    RecentMeaning(log, start + wait as real);
    forall d | 0 <= d < wait ensures !WouldPass(log, start, d, limit) {
      assert d as real < x;
      StillFull(log, kept, start, d);
      RecentMeaning(log, start + d as real);
    }
  }

  lemma FirstOut(log: seq<real>, kept: seq<real>, start: real, wait: int, limit: int)
    requires Holds(log, kept, start) && kept != [] && wait >= 0 && kept[0] - start <= wait as real && |kept| <= limit
    ensures Recent(log, start + wait as real) < limit
  {
    assert Holds(log, kept[1..], start + wait as real);
    RecentIsKept(log, kept[1..], start + wait as real);
  }

  lemma StillFull(log: seq<real>, kept: seq<real>, start: real, d: int)
    requires Holds(log, kept, start) && kept != [] && Sorted(kept) && d >= 0 && d as real < kept[0] - start
    ensures Recent(log, start + d as real) == |kept|
  {
    assert AllAfter(kept, start + d as real);
    RecentIsKept(log, kept, start + d as real);
  }

  lemma LogSnoc(times: seq<real>, t: real, limit: int, window: int)
    ensures LogAfter(times + [t], limit, window) == LogOne(LogAfter(times, limit, window), t, limit, window)
  {
    assert (times + [t])[..|times|] == times;
  }

  lemma LastApart(a: seq<real>, b: seq<real>)
    requires b != []
    ensures a + b == a + b[..|b| - 1] + [b[|b| - 1]]
  {}

  lemma RefusedNow(log: seq<real>, now: real, limit: int, window: int)
    requires Recent(log, now - window as real) >= limit
    ensures LogOne(log, now, limit, window) == log
  {}

  /** A refused call costs nothing: without it every later call fares the same. */
  lemma {:induction false} RefusedIsFree(before: seq<real>, now: real, after: seq<real>, limit: int, window: int)
    requires Recent(LogAfter(before, limit, window), now - window as real) >= limit
    ensures LogAfter(before + [now] + after, limit, window) == LogAfter(before + after, limit, window)
  {
    if after == [] {
      LogSnoc(before, now, limit, window);
      RefusedNow(LogAfter(before, limit, window), now, limit, window);
      assert before + [now] + after == before + [now] && before + after == before;
    } else {
      var n := |after| - 1;
      RefusedIsFree(before, now, after[..n], limit, window);
      LastApart(before + [now], after);
      LastApart(before, after);
      LogSnoc(before + [now] + after[..n], after[n], limit, window);
      LogSnoc(before + after[..n], after[n], limit, window);
    }
  }

  /** The deque after eviction is decided by the log alone. */
  lemma KeptFromLog(log: seq<real>, a: seq<real>, b: seq<real>, start: real)
    requires Holds(log, a, start) && AllAfter(a, start) && Holds(log, b, start) && AllAfter(b, start)
    ensures a == b
  {
    RecentIsKept(log, a, start);
    RecentIsKept(log, b, start);
  }

  lemma SameVerdict(log: seq<real>, a: seq<real>, b: seq<real>, now: real, limit: int, window: int)
    requires Tracks(log, a, now, limit, window) && Tracks(log, b, now, limit, window) && window >= 1
    ensures Check(a, now, limit, window) == Check(b, now, limit, window)
  {
    var start := now - window as real;
    OneCall(log, a, now, now, limit, window);
    OneCall(log, b, now, now, limit, window);
    KeptFromLog(log, Evict(a, start), Evict(b, start), start);
  }

  /** The same on the deque: a call the limiter refused changes no later verdict and no later
      `retry_after`. */
  lemma RefusedChangesNothing(before: seq<real>, now: real, after: seq<real>, later: real, limit: int, window: int)
    requires Sorted(before + [now] + after + [later]) && limit >= 1 && window >= 1
    requires Check(DequeAfter(before, limit, window), now, limit, window).1.Limited?
    ensures Check(DequeAfter(before + [now] + after, limit, window), later, limit, window)
         == Check(DequeAfter(before + after, limit, window), later, limit, window)
  {
    SortedParts(before, now, after, later);
    AcceptsLikeTheLog(before, now, limit, window);
    RecentMeaning(LogAfter(before, limit, window), now - window as real);
    RefusedIsFree(before, now, after, limit, window);
    TracksAt(before + [now] + after, later, limit, window);
    TracksAt(before + after, later, limit, window);
    SameVerdict(LogAfter(before + after, limit, window), DequeAfter(before + [now] + after, limit, window),
                DequeAfter(before + after, limit, window), later, limit, window);
  }

  lemma SortedParts(before: seq<real>, now: real, after: seq<real>, later: real)
    requires Sorted(before + [now] + after + [later])
    ensures Sorted(before + [now]) && Sorted(before + after + [later])
  {
    var rest := after + [later];
    assert before + [now] + after + [later] == before + [now] + rest;
    SortedPart(before + [now] + rest, before + [now], rest);
    SortedWithout(before, now, rest);
    assert before + after + [later] == before + rest;
  }

  lemma SortedPart(all: seq<real>, a: seq<real>, b: seq<real>)
    requires Sorted(all) && all == a + b
    ensures Sorted(a)
  {
    assert a == all[..|a|];
  }

  lemma SortedWithout(a: seq<real>, x: real, b: seq<real>)
    requires Sorted(a + [x] + b)
    ensures Sorted(a + b)
  {
    var all := a + [x] + b;
    forall i, j | 0 <= i < j < |a + b| ensures (a + b)[i] <= (a + b)[j] {
      var k, l := if i < |a| then i else i + 1, if j < |a| then j else j + 1;
      assert all[k] == (a + b)[i] && all[l] == (a + b)[j];
    }
  }

  // ===== many keys =====

  datatype Call = Call(key: Key, now: real)

  function TimesOf(calls: seq<Call>, key: Key): seq<real> {
    if calls == [] then []
    else TimesOf(calls[..|calls| - 1], key) +
         (if calls[|calls| - 1].key == key then [calls[|calls| - 1].now] else [])
  }

  /** All deques after a run; `limits` gives each action its fixed (limit, window). */
  function WindowsAfter(calls: seq<Call>, limits: string -> (int, int)): map<Key, seq<real>> {
    if calls == [] then map[]
    else
      var w, c := WindowsAfter(calls[..|calls| - 1], limits), calls[|calls| - 1];
      w[c.key := Check(Of(w, c.key), c.now, limits(c.key.action).0, limits(c.key.action).1).0]
  }

  /** Keys do not touch each other: a key's deque depends on its own calls alone. */
  lemma {:induction false} KeysAreIndependent(calls: seq<Call>, limits: string -> (int, int), key: Key)
    ensures Of(WindowsAfter(calls, limits), key)
         == DequeAfter(TimesOf(calls, key), limits(key.action).0, limits(key.action).1)
  {
    if calls != [] {
      var n := |calls| - 1;
      KeysAreIndependent(calls[..n], limits, key);
      var times := TimesOf(calls[..n], key);
      if calls[n].key == key {
        assert (times + [calls[n].now])[..|times|] == times;
      } else {
        assert times + [] == times;
      }
    }
  }

}
