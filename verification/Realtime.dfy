/** The in-process publish/subscribe broker with bounded, lossy subscriber queues. */
module Realtime {
  import opened Prelude

  const QUEUE_MAXSIZE := 100

  /** Enqueue, discarding the oldest entry of a full queue. */
  function Put(items: seq<string>, message: string): seq<string> {
    if |items| < QUEUE_MAXSIZE then items + [message] else items[1..] + [message]
  }

  function ChannelKey(channel: string): string { "rt:" + channel }

  function Keys(channels: seq<string>): seq<string> {
    seq(|channels|, i requires 0 <= i < |channels| => ChannelKey(channels[i]))
  }

  // ===== who listens to what =====

  function Joined<Q>(subs: map<string, set<Q>>, keys: seq<string>, q: Q): map<string, set<Q>> {
    map k | k in subs.Keys + (set i | 0 <= i < |keys| :: keys[i]) ::
      if k in keys then (if k in subs then subs[k] else {}) + {q} else subs[k]
  }

  /** Membership ends on every key, and a key nobody is left on is dropped. */
  function Parted<Q>(subs: map<string, set<Q>>, keys: seq<string>, q: Q): map<string, set<Q>> {
    map k | k in subs && !(k in keys && subs[k] <= {q}) :: if k in keys then subs[k] - {q} else subs[k]
  }

  ghost predicate NoEmptyChannel<Q>(subs: map<string, set<Q>>) { forall k :: k in subs ==> subs[k] != {} }

  lemma JoinAndPartKeepChannels<Q>(subs: map<string, set<Q>>, keys: seq<string>, q: Q)
    requires NoEmptyChannel(subs)
    ensures NoEmptyChannel(Joined(subs, keys, q)) && NoEmptyChannel(Parted(subs, keys, q))
  {
    var after := Joined(subs, keys, q);
    forall k | k in after ensures after[k] != {} {
      if k in keys { assert q in after[k]; }
    }
  }

  /** Leaving undoes joining, however often a channel was named. */
  lemma PartUndoesJoin<Q>(subs: map<string, set<Q>>, keys: seq<string>, q: Q)
    requires NoEmptyChannel(subs) && forall k :: k in subs ==> q !in subs[k]
    ensures Parted(Joined(subs, keys, q), keys, q) == subs
  {
    var joined := Joined(subs, keys, q);
    var back := Parted(joined, keys, q);
    forall k | k in subs ensures k in back && back[k] == subs[k] {
      var x :| x in subs[k];
      assert x in joined[k] && x != q;
    }
    forall k | k in joined && k !in subs ensures k !in back { assert joined[k] == {q}; }
  }

  /** Joining adds one member and nobody else. */
  lemma JoinedMembers<Q>(subs: map<string, set<Q>>, keys: seq<string>, q: Q, k: string, m: Q)
    requires k in Joined(subs, keys, q) && m in Joined(subs, keys, q)[k]
    ensures m == q || (k in subs && m in subs[k])
  {}

  lemma JoinOne<Q>(subs: map<string, set<Q>>, keys: seq<string>, key: string, q: Q)
    ensures Joined(subs, [], q) == subs
    ensures var so := Joined(subs, keys, q);
      Joined(subs, keys + [key], q) == so[key := (if key in so then so[key] else {}) + {q}]
  {
    var so, more := Joined(subs, keys, q), Joined(subs, keys + [key], q);
    forall k ensures k in more <==> k in so || k == key {
      if k in keys + [key] { assert k in keys || k == key; }
      if k in keys { var i :| 0 <= i < |keys| && keys[i] == k; assert (keys + [key])[i] == k; }
      assert (keys + [key])[|keys|] == key;
    }
  }

  lemma PartOne<Q>(subs: map<string, set<Q>>, keys: seq<string>, key: string, q: Q)
    requires NoEmptyChannel(subs)
    ensures Parted(subs, [], q) == subs
    ensures var so := Parted(subs, keys, q);
      Parted(subs, keys + [key], q)
        == if key !in so then so else if so[key] <= {q} then so - {key} else so[key := so[key] - {q}]
  {
    var so, more := Parted(subs, keys, q), Parted(subs, keys + [key], q);
    forall k ensures k in keys + [key] <==> k in keys || k == key {}
    JoinAndPartKeepChannels(subs, keys, q);
    if key in so {
      assert so[key] - {q} == subs[key] - {q};
      if so[key] <= {q} {
        assert so[key] == {q} == subs[key] by { var x :| x in so[key]; }
        assert more == so - {key};
      } else {
        assert more.Keys == so.Keys;
        assert more == so[key := so[key] - {q}];
      }
    } else {
      assert more == so;
    }
  }

  class Queue {
    var items: seq<string>

    constructor ()
      ensures items == []
    {
      items := [];
    }

    method PutDroppingOldest(message: string)
      requires |items| <= QUEUE_MAXSIZE
      modifies this
      ensures items == Put(old(items), message)
    {
      if |items| == QUEUE_MAXSIZE { items := items[1..]; }
      items := items + [message];
    }

    /** The next message, or nothing when the wait times out on an empty queue. */
    method Get() returns (r: Option<string>)
      modifies this
      ensures old(items) == [] ==> r == None && items == []
      ensures old(items) != [] ==> r == Some(old(items)[0]) && items == old(items)[1..]
    {
      if items == [] { return None; }
      r := Some(items[0]);
      items := items[1..];
    }
  }

  class Broker {
    var subscribers: map<string, set<Queue>>

    ghost function Listeners(channel: string): set<Queue>
      reads this
    {
      if ChannelKey(channel) in subscribers then subscribers[ChannelKey(channel)] else {}
    }

    ghost predicate Valid()
      reads this, set k, q | k in subscribers && q in subscribers[k] :: q
    {
      && NoEmptyChannel(subscribers)
      && forall k, q | k in subscribers && q in subscribers[k] :: |q.items| <= QUEUE_MAXSIZE
    }

    constructor ()
      ensures subscribers == map[] && Valid()
    {
      subscribers := map[];
    }

    /** Every listener of the channel gets the message once; nobody else gets anything. */
    method PublishUpdate(channel: string, message: string)
      requires Valid()
      modifies Listeners(channel)
      ensures Valid()
      ensures forall q :: q in Listeners(channel) ==> q.items == Put(old(q.items), message)
    {
      var key := ChannelKey(channel);
      var todo := if key in subscribers then subscribers[key] else {};
      while todo != {}
        invariant todo <= Listeners(channel)
        invariant forall q :: q in Listeners(channel) ==>
                    q.items == if q in todo then old(q.items) else Put(old(q.items), message)
        invariant forall k, q | k in subscribers && q in subscribers[k] :: |q.items| <= QUEUE_MAXSIZE
        decreases todo
      {
        var queue :| queue in todo;
        queue.PutDroppingOldest(message);
        todo := todo - {queue};
      }
    }

    method Subscribe(channels: seq<string>) returns (queue: Queue)
      modifies this
      ensures fresh(queue) && queue.items == []
      ensures subscribers == Joined(old(subscribers), Keys(channels), queue)
      ensures old(Valid()) ==> Valid()
    {
      queue := new Queue();
      Register(Keys(channels), queue);
      if old(Valid()) { StillValid(old(subscribers), Keys(channels), queue); }
    }

    method Register(keys: seq<string>, queue: Queue)
      modifies this
      ensures subscribers == Joined(old(subscribers), keys, queue)
    {
      JoinOne(subscribers, [], "", queue);
      for n := 0 to |keys|
        invariant subscribers == Joined(old(subscribers), keys[..n], queue)
      {
        JoinOne(old(subscribers), keys[..n], keys[n], queue);
        var members := if keys[n] in subscribers then subscribers[keys[n]] else {};
        subscribers := subscribers[keys[n] := members + {queue}];
        assert keys[..n + 1] == keys[..n] + [keys[n]];
      }
      assert keys[..|keys|] == keys;
    }

    /** The listeners of the registry before, with one new empty queue, are all within bounds. */
    lemma StillValid(was: map<string, set<Queue>>, keys: seq<string>, queue: Queue)
      requires NoEmptyChannel(was) && subscribers == Joined(was, keys, queue) && queue.items == []
      requires forall k, q | k in was && q in was[k] :: |q.items| <= QUEUE_MAXSIZE
      ensures Valid()
    {
      JoinAndPartKeepChannels(was, keys, queue);
      forall k, q | k in subscribers && q in subscribers[k] ensures |q.items| <= QUEUE_MAXSIZE {
        JoinedMembers(was, keys, queue, k, q);
      }
    }


    method Unsubscribe(channels: seq<string>, queue: Queue)
      requires NoEmptyChannel(subscribers)
      modifies this
      ensures subscribers == Parted(old(subscribers), Keys(channels), queue)
      ensures old(Valid()) ==> Valid()
    {
      var keys := Keys(channels);
      PartOne(subscribers, [], "", queue);
      for n := 0 to |keys|
        invariant subscribers == Parted(old(subscribers), keys[..n], queue)
      {
        assert keys[..n + 1] == keys[..n] + [keys[n]];
        PartOne(old(subscribers), keys[..n], keys[n], queue);
        if keys[n] in subscribers {
          subscribers := subscribers[keys[n] := subscribers[keys[n]] - {queue}];
          if subscribers[keys[n]] == {} { subscribers := subscribers - {keys[n]}; }
        }
      }
      assert keys[..|keys|] == keys;
    }
  }

  // ===== one subscriber's stream =====

  datatype Event = Publish(message: string) | Take

  /** What has been published to the subscriber, what waits in its queue, and the positions
      in `published` of the messages it has read, in reading order. */
  datatype Feed = Feed(published: seq<string>, items: seq<string>, taken: seq<nat>)

  function Advance(f: Feed, e: Event): Feed {
    match e
    case Publish(m) => Feed(f.published + [m], Put(f.items, m), f.taken)
    case Take =>
      if f.items == [] then f
      else if |f.items| <= |f.published| then Feed(f.published, f.items[1..], f.taken + [|f.published| - |f.items|])
      else f
  }

  function FeedAfter(events: seq<Event>): Feed {
    if events == [] then Feed([], [], []) else Advance(FeedAfter(events[..|events| - 1]), events[|events| - 1])
  }

  /** The queue is the last messages published, at most 100; reads are in publishing order
      and all before the queue. */
  ghost predicate InOrder(f: Feed) {
    && |f.items| <= 100 && |f.items| <= |f.published|
    && f.items == f.published[|f.published| - |f.items|..]
    && (forall i, j :: 0 <= i < j < |f.taken| ==> f.taken[i] < f.taken[j])
    && (forall i :: 0 <= i < |f.taken| ==> f.taken[i] < |f.published| - |f.items|)
  }

  lemma PublishKeepsOrder(f: Feed, m: string)
    requires InOrder(f)
    ensures InOrder(Advance(f, Publish(m)))
  {
    var g := Advance(f, Publish(m));
    var dropped := |f.published| - |f.items|;
    if |f.items| < QUEUE_MAXSIZE {
      assert g.published[dropped..] == f.published[dropped..] + [m];
    } else {
      assert g.published[dropped + 1..] == f.published[dropped..][1..] + [m];
    }
  }

  lemma TakeKeepsOrder(f: Feed)
    requires InOrder(f)
    ensures InOrder(Advance(f, Take))
  {}

  lemma {:induction false} QueueIsSuffix(events: seq<Event>)
    ensures InOrder(FeedAfter(events))
  {
    if events != [] {
      var n := |events| - 1;
      QueueIsSuffix(events[..n]);
      match events[n] {
        case Publish(m) => PublishKeepsOrder(FeedAfter(events[..n]), m);
        case Take => TakeKeepsOrder(FeedAfter(events[..n]));
      }
    }
  }

  /** What a read returns is the message at the position it records. */
  lemma ReadReturnsPosition(events: seq<Event>)
    ensures var f, g := FeedAfter(events), FeedAfter(events + [Take]);
      InOrder(f) && (f.items != [] ==>
        && f.items[0] == f.published[|f.published| - |f.items|]
        && g == Feed(f.published, f.items[1..], f.taken + [|f.published| - |f.items|]))
  {
    QueueIsSuffix(events);
    assert (events + [Take])[..|events|] == events;
  }

  ghost predicate Gone(f: Feed, p: nat) { p < |f.published| - |f.items| && p !in f.taken }

  /** A message is lost only at a moment when 100 newer ones had been published and it had
      still not been read. */
  lemma {:induction false} LostOnlyBehindAHundred(events: seq<Event>, p: nat) returns (k: nat)
    requires Gone(FeedAfter(events), p)
    ensures k <= |events|
    ensures var f := FeedAfter(events[..k]); p + 100 < |f.published| && p !in f.taken
  {
    var n := |events| - 1;
    var before := FeedAfter(events[..n]);
    QueueIsSuffix(events[..n]);
    if events[n].Take? && before.items != [] {
      var taken := FeedAfter(events).taken;
      assert taken[|before.taken|] == |before.published| - |before.items|;
      assert taken[|before.taken|] in taken;
      assert forall x :: x in before.taken ==> x in taken;
    }
    if Gone(before, p) {
      k := LostOnlyBehindAHundred(events[..n], p);
      assert events[..n][..k] == events[..k];
    } else {
      k := |events|;
      assert events[..k] == events;
    }
  }

  ghost predicate LagWithin(events: seq<Event>) {
    forall k :: 0 <= k <= |events| ==>
      |FeedAfter(events[..k]).published| <= |FeedAfter(events[..k]).taken| + 100
  }

  /** A subscriber never more than 100 messages behind has read exactly everything before
      its queue. */
  lemma {:induction false} NothingLost(events: seq<Event>)
    requires LagWithin(events)
    ensures var f := FeedAfter(events);
      |f.taken| == |f.published| - |f.items| && forall i :: 0 <= i < |f.taken| ==> f.taken[i] == i
  {
    if events != [] {
      var n := |events| - 1;
      forall k | 0 <= k <= n ensures events[..n][..k] == events[..k] {}
      NothingLost(events[..n]);
      QueueIsSuffix(events[..n]);
      assert events[..n + 1] == events;
    }
  }


  // ===== every subscriber over a whole run =====

  datatype BrokerEvent =
    | Join(q: nat, channels: seq<string>)
    | Leave(q: nat)
    | Pub(channel: string, message: string)
    | Read(q: nat)

  datatype BrokerState = BrokerState(
    subs: map<string, set<nat>>,
    items: map<nat, seq<string>>,
    channels: map<nat, seq<string>>)

  predicate Enabled(s: BrokerState, e: BrokerEvent) {
    match e
    case Join(q, _) => q !in s.items
    case Leave(q) => q in s.channels
    case Pub(_, _) => true
    case Read(q) => q in s.items
  }

  function Apply(s: BrokerState, e: BrokerEvent): BrokerState
    requires Enabled(s, e)
  {
    match e
    case Join(q, channels) =>
      BrokerState(Joined(s.subs, Keys(channels), q), s.items[q := []], s.channels[q := channels])
    case Leave(q) => s.(subs := Parted(s.subs, Keys(s.channels[q]), q), channels := s.channels - {q})
    case Pub(channel, m) =>
      s.(items := map q | q in s.items :: if Listens(s.subs, channel, q) then Put(s.items[q], m) else s.items[q])
    case Read(q) => if s.items[q] == [] then s else s.(items := s.items[q := s.items[q][1..]])
  }

  predicate Listens<Q(==)>(subs: map<string, set<Q>>, channel: string, q: Q) {
    ChannelKey(channel) in subs && q in subs[ChannelKey(channel)]
  }

  function Run(events: seq<BrokerEvent>): Option<BrokerState> {
    if events == [] then Some(BrokerState(map[], map[], map[]))
    else
      var s :- Run(events[..|events| - 1]);
      if Enabled(s, events[|events| - 1]) then Some(Apply(s, events[|events| - 1])) else None
  }

  /** The channels a subscriber is inside the block for, read off the history alone. */
  function ListensTo(events: seq<BrokerEvent>, q: nat): set<string> {
    if events == [] then {}
    else match events[|events| - 1]
      case Join(p, channels) => if p == q then set c | c in channels else ListensTo(events[..|events| - 1], q)
      case Leave(p) => if p == q then {} else ListensTo(events[..|events| - 1], q)
      case _ => ListensTo(events[..|events| - 1], q)
  }

  /** What the history means for one subscriber's queue. */
  function EventsFor(events: seq<BrokerEvent>, q: nat): seq<Event> {
    if events == [] then []
    else
      var front := events[..|events| - 1];
      EventsFor(front, q) +
        match events[|events| - 1]
        case Pub(c, m) => if c in ListensTo(front, q) then [Publish(m)] else []
        case Read(p) => if p == q then [Take] else []
        case _ => []
  }

  ghost predicate Agrees(s: BrokerState, events: seq<BrokerEvent>, q: nat) {
    && (q in s.items ==> s.items[q] == FeedAfter(EventsFor(events, q)).items)
    && (q !in s.items ==> EventsFor(events, q) == [])
    && (forall c :: Listens(s.subs, c, q) <==> c in ListensTo(events, q))
    && (q in s.channels ==> q in s.items && ListensTo(events, q) == set c | c in s.channels[q])
    && (q !in s.channels ==> ListensTo(events, q) == {})
  }

  lemma KeyInKeys(channels: seq<string>, c: string)
    ensures ChannelKey(c) in Keys(channels) <==> c in channels
  {
    forall d | ChannelKey(d) == ChannelKey(c) ensures d == c {
      assert ChannelKey(d)[3..] == d && ChannelKey(c)[3..] == c;
    }
    if c in channels {
      var i :| 0 <= i < |channels| && channels[i] == c;
      assert Keys(channels)[i] == ChannelKey(c);
    }
  }

  lemma {:induction false} ChannelsNeverEmpty(events: seq<BrokerEvent>)
    requires Run(events).Some?
    ensures NoEmptyChannel(Run(events).value.subs)
  {
    if events != [] {
      var front := events[..|events| - 1];
      ChannelsNeverEmpty(front);
      var s, e := Run(front).value, events[|events| - 1];
      match e {
        case Join(q, channels) => JoinAndPartKeepChannels(s.subs, Keys(channels), q);
        case Leave(q) => JoinAndPartKeepChannels(s.subs, Keys(s.channels[q]), q);
        case _ =>
      }
    }
  }

  /** Over any run of any number of subscribers, each queue is the feed of the messages
      published to its own channels while it listened, and the registry lists exactly the
      live ones: after a subscriber leaves, it is in no channel. */
  lemma {:induction false} BrokerDelivers(events: seq<BrokerEvent>, q: nat)
    requires Run(events).Some?
    ensures Agrees(Run(events).value, events, q)
  {
    if events != [] {
      var front := events[..|events| - 1];
      BrokerDelivers(front, q);
      ChannelsNeverEmpty(front);
      StepAgrees(Run(front).value, front, events[|events| - 1], q);
      assert events == front + [events[|events| - 1]];
    }
  }

  lemma FeedSnoc(events: seq<Event>, e: Event)
    ensures FeedAfter(events + [e]) == Advance(FeedAfter(events), e)
    ensures events + [] == events
  {
    assert (events + [e])[..|events|] == events;
  }

  lemma JoinedListens(subs: map<string, set<nat>>, channels: seq<string>, p: nat, c: string, q: nat)
    ensures Listens(Joined(subs, Keys(channels), p), c, q) <==> Listens(subs, c, q) || (p == q && c in channels)
  {
    KeyInKeys(channels, c);
  }

  lemma PartedListens(subs: map<string, set<nat>>, channels: seq<string>, p: nat, c: string, q: nat)
    ensures Listens(Parted(subs, Keys(channels), p), c, q) <==> Listens(subs, c, q) && !(p == q && c in channels)
  {
    KeyInKeys(channels, c);
  }

  lemma StepListens(s: BrokerState, events: seq<BrokerEvent>, e: BrokerEvent, q: nat, c: string)
    requires Enabled(s, e) && Agrees(s, events, q)
    ensures Listens(Apply(s, e).subs, c, q) <==> c in ListensTo(events + [e], q)
  {
    assert (events + [e])[..|events|] == events;
    match e {
      case Join(p, channels) => JoinedListens(s.subs, channels, p, c, q);
      case Leave(p) => PartedListens(s.subs, s.channels[p], p, c, q);
      case _ =>
    }
  }

  /** What one more event adds to a subscriber's stream. */
  lemma EventsSnoc(events: seq<BrokerEvent>, e: BrokerEvent, q: nat)
    ensures EventsFor(events + [e], q) == EventsFor(events, q) +
              match e
              case Pub(c, m) => if c in ListensTo(events, q) then [Publish(m)] else []
              case Read(p) => if p == q then [Take] else []
              case _ => []
  {
    assert (events + [e])[..|events|] == events;
  }

  lemma StepItems(s: BrokerState, events: seq<BrokerEvent>, e: BrokerEvent, q: nat)
    requires Enabled(s, e) && Agrees(s, events, q)
    ensures var t := Apply(s, e);
      && (q in t.items ==> t.items[q] == FeedAfter(EventsFor(events + [e], q)).items)
      && (q !in t.items ==> EventsFor(events + [e], q) == [])
  {
    EventsSnoc(events, e, q);
    match e {
      case Pub(c, m) => PubItems(s, EventsFor(events, q), c, m, q, c in ListensTo(events, q));
      case Read(p) => ReadItems(s, EventsFor(events, q), p, q);
      case _ => FeedSnoc(EventsFor(events, q), Take);
    }
  }

  lemma PubItems(s: BrokerState, sofar: seq<Event>, c: string, m: string, q: nat, listening: bool)
    requires q in s.items ==> s.items[q] == FeedAfter(sofar).items
    requires q !in s.items ==> sofar == [] && !listening
    requires listening <==> Listens(s.subs, c, q)
    ensures var t, extended := Apply(s, Pub(c, m)), sofar + (if listening then [Publish(m)] else []);
      (q in t.items <==> q in s.items) && (q in t.items ==> t.items[q] == FeedAfter(extended).items) &&
      (q !in t.items ==> extended == [])
  {
    FeedSnoc(sofar, Publish(m));
  }

  lemma ReadItems(s: BrokerState, sofar: seq<Event>, p: nat, q: nat)
    requires p in s.items
    requires q in s.items ==> s.items[q] == FeedAfter(sofar).items
    requires q !in s.items ==> sofar == []
    ensures var t, extended := Apply(s, Read(p)), sofar + (if p == q then [Take] else []);
      (q in t.items <==> q in s.items) && (q in t.items ==> t.items[q] == FeedAfter(extended).items) &&
      (q !in t.items ==> extended == [])
  {
    FeedSnoc(sofar, Take);
    QueueIsSuffix(sofar);
  }

  lemma StepAgrees(s: BrokerState, events: seq<BrokerEvent>, e: BrokerEvent, q: nat)
    requires Enabled(s, e) && Agrees(s, events, q)
    ensures Agrees(Apply(s, e), events + [e], q)
  {
    assert (events + [e])[..|events|] == events;
    StepItems(s, events, e, q);
    forall c ensures Listens(Apply(s, e).subs, c, q) <==> c in ListensTo(events + [e], q) {
      StepListens(s, events, e, q, c);
    }
  }

}
