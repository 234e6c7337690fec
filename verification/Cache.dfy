/** The in-process cache with an expiry time per entry. */
module Cache {
  import opened Prelude

  datatype Entry<V> = Entry(expiresAt: real, value: V)

  type Store<V> = map<string, Entry<V>>

  /** A hit strictly before the expiry; an expired entry is dropped on sight. */
  function Get<V>(store: Store<V>, key: string, now: real): (Store<V>, Option<V>) {
    if key !in store then (store, None)
    else if now >= store[key].expiresAt then (store - {key}, None)
    else (store, Some(store[key].value))
  }

  function Set<V>(store: Store<V>, key: string, value: V, ttl: real, now: real): Store<V> {
    store[key := Entry(now + ttl, value)]
  }

  class TTLCache {
    var store: Store<string>

    constructor ()
      ensures store == map[]
    {
      store := map[];
    }

    method Lookup(key: string, now: real) returns (r: Option<string>)
      modifies this
      ensures (store, r) == Get(old(store), key, now)
    {
      if key !in store { return None; }
      var entry := store[key];
      if now >= entry.expiresAt {
        store := store - {key};
        return None;
      }
      return Some(entry.value);
    }

    method Put(key: string, value: string, ttl: real, now: real)
      modifies this
      ensures store == Set(old(store), key, value, ttl, now)
    {
      store := store[key := Entry(now + ttl, value)];
    }

    /** Positive exactly when a lookup at the same moment would hit. */
    method Ttl(key: string, now: real) returns (r: Option<real>)
      ensures r.Some? <==> Get(store, key, now).1.Some?
      ensures r.Some? ==> r.value > 0.0 && r.value == store[key].expiresAt - now
    {
      if key !in store { return None; }
      var remaining := store[key].expiresAt - now;
      if remaining <= 0.0 { return None; }
      return Some(remaining);
    }

    method Delete(key: string)
      modifies this
      ensures store == old(store) - {key}
    {
      store := store - {key};
    }
  }

  // ===== what a cache should be: the last write, while it is fresh =====

  datatype Op<V> =
    | DoGet(key: string, at: real)
    | DoSet(key: string, value: V, ttl: real, at: real)
    | DoDelete(key: string, at: real)
    | DoClear(at: real)

  function Step<V>(store: Store<V>, op: Op<V>): Store<V> {
    match op
    case DoGet(key, at) => Get(store, key, at).0
    case DoSet(key, value, ttl, at) => Set(store, key, value, ttl, at)
    case DoDelete(key, _) => store - {key}
    case DoClear(_) => map[]
  }

  function After<V>(ops: seq<Op<V>>): Store<V> {
    if ops == [] then map[] else Step(After(ops[..|ops| - 1]), ops[|ops| - 1])
  }

  /** The last operation that writes or removes `key` decides. */
  function Reference<V>(ops: seq<Op<V>>, key: string, now: real): Option<V> {
    if ops == [] then None
    else
      var op := ops[|ops| - 1];
      if op.DoSet? && op.key == key then (if now < op.at + op.ttl then Some(op.value) else None)
      else if op.DoClear? || (op.DoDelete? && op.key == key) then None
      else Reference(ops[..|ops| - 1], key, now)
  }

  ghost predicate InTimeOrder<V>(ops: seq<Op<V>>) { forall i, j :: 0 <= i < j < |ops| ==> ops[i].at <= ops[j].at }

  /** On a clock that never goes back, dropping expired entries is invisible. */
  lemma {:induction false} LookupIsReference<V>(ops: seq<Op<V>>, key: string, now: real)
    requires InTimeOrder(ops) && (ops != [] ==> ops[|ops| - 1].at <= now)
    ensures Get(After(ops), key, now).1 == Reference(ops, key, now)
  {
    if ops != [] {
      var n := |ops| - 1;
      LookupIsReference(ops[..n], key, now);
      StepIsInvisible(After(ops[..n]), ops[n], key, now);
    }
  }

  lemma StepIsInvisible<V>(store: Store<V>, op: Op<V>, key: string, now: real)
    requires op.at <= now
    ensures op.DoGet? ==> Get(Step(store, op), key, now).1 == Get(store, key, now).1
    ensures (op.DoSet? || op.DoDelete?) && op.key != key ==> Get(Step(store, op), key, now).1 == Get(store, key, now).1
  {}
}
