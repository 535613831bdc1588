// What a subscriber sees of one stream over every run of the proxy (src/proxy.cpp,
// src/qos.cpp): delivered <= queued <= cached, so its view never goes backwards.

module ProxyViews {
  import opened Wire
  import opened Messages
  import opened Requests
  import opened Streams
  import opened Queues
  import opened QueueRuns
  import opened QueueLaws
  import opened Proxies

  /** m is a state message of stream k, whatever its quality of service. */
  predicate OfStream(m: NativeMessage, k: nat) {
    StateType(m.header.typ) && StreamKey(m) == k
  }

  function Gen(m: NativeMessage): nat {
    Generation(m) as nat
  }

  /** Stream k can only be found in the queue's latest-wins map, under k. */
  ghost predicate Clean(q: Queue, k: nat) {
    && (forall i :: 0 <= i < |q.critical| ==> !OfStream(q.critical[i], k))
    && (forall i :: 0 <= i < |q.events| ==> !OfStream(q.events[i], k))
    && KeyedBy(q.state)
  }

  // ---- the queue's part ----

  lemma LatestIsState(m: NativeMessage, k: nat)
    requires OfStream(m, k) ==> m.header.qos == STATE_LATEST
    ensures OfStream(m, k) ==> IsState(m)
    ensures IsState(m) && StreamKey(m) == k ==> OfStream(m, k)
  {
  }

  lemma PushView(q: Queue, m: NativeMessage, now: nat, k: nat)
    requires Clean(q, k)
    requires OfStream(m, k) ==> m.header.qos == STATE_LATEST
    ensures Clean(Push(q, m, now).queue, k)
    ensures Queued(Push(q, m, now).queue, k) == Queued(q, k)
            || (OfStream(m, k) && Queued(Push(q, m, now).queue, k) == Some(m))
  {
    LatestIsState(m, k);
    hide OfStream, StreamKey, IsState, IsCritical, ExpiredAt, Clean, Queued, PushState, PushQueued, Tally;
    ViewIgnoresMetrics(q, Tally(q.metrics, Stale(m)), k);
    if IsState(m) {
      PushStateView(q, m, k);
    } else {
      PushQueuedView(q, m, k);
    }
  }

  lemma PushStateView(q: Queue, m: NativeMessage, k: nat)
    requires Clean(q, k) && IsState(m)
    ensures var q' := PushState(q, m, StreamKey(m)).queue;
            Clean(q', k) && Queued(q', k) == if StreamKey(m) == k && q' != q.(metrics := q'.metrics) then Some(m) else Queued(q, k)
  {
    hide OfStream, StreamKey, IsState, IsCritical, ExpiredAt, Size, Tally;
  }

  lemma PushQueuedView(q: Queue, m: NativeMessage, k: nat)
    requires Clean(q, k) && !OfStream(m, k)
    ensures var q' := PushQueued(q, m).queue;
            Clean(q', k) && Queued(q', k) == Queued(q, k)
  {
    hide OfStream, StreamKey, IsState, IsCritical, ExpiredAt, Size, Tally;
  }

  lemma DropFrontView(q: Queue, k: nat)
    requires Clean(q, k) && Size(q) > 0
    ensures Clean(DropFront(q), k)
    ensures OfStream(Front(q), k) ==> Queued(q, k) == Some(Front(q)) && Queued(DropFront(q), k) == None
    ensures Queued(DropFront(q), k) == Queued(q, k) || Queued(DropFront(q), k) == None
  {
    assert forall m :: OfStream(m, k) ==> StreamKey(m) == k;
    hide OfStream, StreamKey, Least;
  }

  lemma {:induction false} PopView(q: Queue, now: nat, k: nat)
    requires Clean(q, k)
    ensures var o := Pop(q, now);
            && Clean(o.queue, k)
            && (Queued(o.queue, k) == Queued(q, k) || Queued(o.queue, k) == None)
            && (o.message.Some? && OfStream(o.message.value, k) ==>
                  Queued(q, k) == o.message && Queued(o.queue, k) == None)
    decreases Size(q)
  {
    PopTurn(q, now);
    if Size(q) > 0 {
      DropFrontView(q, k);
      var c := q.metrics.(expired := q.metrics.expired + 1);
      var d := q.metrics.(delivered := q.metrics.delivered + 1);
      ViewIgnoresMetrics(DropFront(q), c, k);
      ViewIgnoresMetrics(DropFront(q), d, k);
      hide *;
      if ExpiredAt(Front(q), now) {
        PopView(DropFront(q).(metrics := c), now, k);
      }
    }
  }

  lemma ViewIgnoresMetrics(q: Queue, c: Metrics, k: nat)
    ensures Clean(q.(metrics := c), k) == Clean(q, k) && Queued(q.(metrics := c), k) == Queued(q, k)
  {
    hide OfStream, StreamKey;
  }

  lemma {:induction false} FeedView(q: Queue, cache: map<nat, NativeMessage>, order: seq<nat>, s: Subscription, k: nat)
    requires Clean(q, k) && KeyedBy(cache)
    requires k in cache ==> IsState(cache[k])
    ensures var fed := Feed(q, cache, order, s);
            && Clean(fed.queue, k)
            && (Queued(fed.queue, k) == Queued(q, k) || (k in cache && Queued(fed.queue, k) == Some(cache[k])))
    decreases |order|
  {
    if order != [] {
      var j := order[0];
      if j in cache && Matches(s, cache[j]) {
        assert OfStream(cache[j], k) ==> j == k && cache[j].header.qos == STATE_LATEST;
        hide Clean, OfStream, Queued, Push, Matches, Took, IsState, KeyedBy;
        PushView(q, cache[j], 0, k);
        FeedView(Push(q, cache[j], 0).queue, cache, order[1..], s, k);
      } else {
        FeedView(q, cache, order[1..], s, k);
      }
    }
  }

  // ---- the proxy's part ----

  function Cached(p: Proxy, k: nat): Option<NativeMessage> {
    if k in p.cache then Some(p.cache[k]) else None
  }

  function Waiting(p: Proxy, id: LinkId, k: nat): Option<NativeMessage> {
    if id in p.links then Queued(p.links[id].queue, k) else None
  }

  function GenOf(m: Option<NativeMessage>): nat {
    if m.Some? then Gen(m.value) else 0
  }

  /** Queued never exceeds cached. */
  ghost predicate View(p: Proxy, k: nat) {
    && KeyedBy(p.cache)
    && (k in p.cache ==> IsState(p.cache[k]))
    && (forall id :: id in p.links ==> Clean(p.links[id].queue, k))
    && (forall id :: Waiting(p, id, k).Some? ==> k in p.cache && GenOf(Waiting(p, id, k)) <= GenOf(Cached(p, k)))
  }

  /** Every message of stream k that the step brings in is latest-wins. */
  predicate LatestOnly(op: Proxies.Op, k: nat) {
    op.IngestOp? && OfStream(op.rec, k) ==> op.rec.header.qos == STATE_LATEST
  }

  /** How one step may change what is cached and queued for stream k. */
  ghost predicate Advances(p: Proxy, p': Proxy, k: nat) {
    && (k in p.cache ==> k in p'.cache && GenOf(Cached(p, k)) <= GenOf(Cached(p', k)))
    && (forall id :: Waiting(p', id, k).Some? ==>
          Waiting(p', id, k) == Waiting(p, id, k)
          || (k in p'.cache && GenOf(Waiting(p', id, k)) == GenOf(Cached(p', k))))
  }

  lemma AddressedView(m: NativeMessage, id: LinkId, k: nat)
    ensures OfStream(Addressed(m, id), k) == OfStream(m, k) && Gen(Addressed(m, id)) == Gen(m)
    ensures Addressed(m, id).header.qos == m.header.qos
  {
    DestinationIrrelevant(m, id.value);
    hide StreamKey, Generation;
  }

  lemma OfferView(id: LinkId, link: Link, ingress: LinkId, m: NativeMessage, now: nat, k: nat)
    requires Clean(link.queue, k)
    requires OfStream(m, k) ==> m.header.qos == STATE_LATEST
    ensures var q := Offer(id, link, ingress, m, now).queue;
            && Clean(q, k)
            && (Queued(q, k) == Queued(link.queue, k)
                || (OfStream(m, k) && Queued(q, k).Some? && GenOf(Queued(q, k)) == Gen(m)))
  {
    AddressedView(m, id, k);
    hide OfStream, Clean, Queued, Push, Receives, Gen;
    PushView(link.queue, Addressed(m, id), now, k);
  }

  lemma FanOutAt(p: Proxy, ingress: LinkId, m: NativeMessage, now: nat, k: nat, id: LinkId)
    requires View(p, k) && id in p.links
    requires OfStream(m, k) ==> m.header.qos == STATE_LATEST && k in p.cache && Gen(m) == Gen(p.cache[k])
    ensures var p' := FanOut(p, ingress, m, now);
            && id in p'.links && Clean(p'.links[id].queue, k)
            && (Waiting(p', id, k) == Waiting(p, id, k)
                || (k in p.cache && GenOf(Waiting(p', id, k)) == GenOf(Cached(p, k))))
  {
    hide OfStream, Clean, Queued, Offer, Gen, IsState, KeyedBy;
    OfferView(id, p.links[id], ingress, m, now, k);
  }

  /** A step that leaves the cache alone: it is enough to look at each link. */
  lemma SameCacheView(p: Proxy, p': Proxy, k: nat)
    requires View(p, k) && p'.cache == p.cache
    requires forall id :: id in p'.links ==> LinkAdvances(p, p', id, k)
    ensures View(p', k) && Advances(p, p', k)
  {
    hide Clean, Queued, GenOf, IsState, KeyedBy;
    assert Cached(p', k) == Cached(p, k);
    hide Cached;
    forall id | Waiting(p', id, k).Some?
      ensures id in p'.links
    {
    }
  }

  ghost predicate LinkAdvances(p: Proxy, p': Proxy, id: LinkId, k: nat)
    requires id in p'.links
  {
    && Clean(p'.links[id].queue, k)
    && (Waiting(p', id, k).Some? ==>
          Waiting(p', id, k) == Waiting(p, id, k)
          || (k in p.cache && GenOf(Waiting(p', id, k)) == GenOf(Cached(p, k))))
  }

  lemma FanOutView(p: Proxy, ingress: LinkId, m: NativeMessage, now: nat, k: nat)
    requires View(p, k)
    requires OfStream(m, k) ==> m.header.qos == STATE_LATEST && k in p.cache && Gen(m) == Gen(p.cache[k])
    ensures View(FanOut(p, ingress, m, now), k) && Advances(p, FanOut(p, ingress, m, now), k)
  {
    var p' := FanOut(p, ingress, m, now);
    assert p'.cache == p.cache && p'.links.Keys == p.links.Keys;
    hide OfStream, Clean, Waiting, Cached, Gen, View, Advances, FanOut;
    forall id | id in p'.links
      ensures LinkAdvances(p, p', id, k)
    {
      FanOutAt(p, ingress, m, now, k, id);
    }
    SameCacheView(p, p', k);
  }

  // ---- one step ----

  lemma JudgedNewer(p: Proxy, m: NativeMessage)
    requires Judge(p.cache, m) == Store
    ensures StateType(m.header.typ)
    ensures StreamKey(m) in p.cache ==>
              && Gen(m) > Gen(p.cache[StreamKey(m)])
              && MetaOf(m).Some? && MetaOf(p.cache[StreamKey(m)]).Some?
              && Follows(MetaOf(m).value, MetaOf(p.cache[StreamKey(m)]).value)
  {
    hide StreamKey, MetaOf, Follows;
  }

  lemma StoreCached(p: Proxy, m: NativeMessage, k: nat)
    requires KeyedBy(p.cache)
    ensures KeyedBy(StoreIn(p, m).cache)
    ensures Cached(StoreIn(p, m), k) == if StreamKey(m) == k then Some(m) else Cached(p, k)
    ensures forall id :: Waiting(StoreIn(p, m), id, k) == Waiting(p, id, k)
  {
    hide StreamKey, Queued;
  }

  lemma StoreView(p: Proxy, m: NativeMessage, k: nat)
    requires View(p, k) && Judge(p.cache, m) == Store
    requires OfStream(m, k) ==> m.header.qos == STATE_LATEST
    ensures View(StoreIn(p, m), k) && Advances(p, StoreIn(p, m), k)
    ensures OfStream(m, k) ==> k in StoreIn(p, m).cache && StoreIn(p, m).cache[k] == m
  {
    JudgedNewer(p, m);
    LatestIsState(m, k);
    StoreCached(p, m, k);
    var p' := StoreIn(p, m);
    assert p'.links == p.links && (StreamKey(m) == k <==> OfStream(m, k));
    hide Clean, Gen, IsState, Judge, Waiting, StreamKey, OfStream, KeyedBy, StoreIn, MetaOf, Follows, StateType;
    if StreamKey(m) == k {
      ReplacedView(p, p', m, k);
    } else {
      UntouchedView(p, p', k);
    }
  }

  lemma ReplacedView(p: Proxy, p': Proxy, m: NativeMessage, k: nat)
    requires View(p, k) && p'.links == p.links && KeyedBy(p'.cache)
    requires Cached(p', k) == Some(m) && IsState(m) && (k in p.cache ==> Gen(p.cache[k]) < Gen(m))
    requires forall id :: Waiting(p', id, k) == Waiting(p, id, k)
    ensures View(p', k) && Advances(p, p', k)
  {
    hide Clean, Gen, IsState, Waiting, KeyedBy;
  }

  lemma UntouchedView(p: Proxy, p': Proxy, k: nat)
    requires View(p, k) && p'.links == p.links && KeyedBy(p'.cache) && Cached(p', k) == Cached(p, k)
    requires forall id :: Waiting(p', id, k) == Waiting(p, id, k)
    ensures View(p', k) && Advances(p, p', k)
  {
    hide Clean, Gen, IsState, Waiting, KeyedBy;
  }

  lemma AdvancesTransitive(p: Proxy, q: Proxy, r: Proxy, k: nat)
    requires Advances(p, q, k) && Advances(q, r, k) && r.cache == q.cache
    ensures Advances(p, r, k)
  {
    assert Cached(r, k) == Cached(q, k);
    hide Waiting, GenOf, Cached;
  }

  lemma StoreAndFanOutView(p: Proxy, ingress: LinkId, m: NativeMessage, now: nat, k: nat)
    requires View(p, k) && Judge(p.cache, m) == Store
    requires OfStream(m, k) ==> m.header.qos == STATE_LATEST
    ensures var r := FanOut(StoreIn(p, m), ingress, m, now);
            View(r, k) && Advances(p, r, k)
  {
    var q := StoreIn(p, m);
    var r := FanOut(q, ingress, m, now);
    assert r.cache == q.cache;
    hide StoreIn, FanOut, OfStream, View, Advances, Judge, Gen;
    StoreView(p, m, k);
    FanOutView(q, ingress, m, now, k);
    AdvancesTransitive(p, q, r, k);
  }

  lemma IngestView(p: Proxy, ingress: LinkId, m: NativeMessage, now: nat, k: nat)
    requires View(p, k)
    requires OfStream(m, k) ==> m.header.qos == STATE_LATEST
    ensures View(Ingest(p, ingress, m, now).proxy, k) && Advances(p, Ingest(p, ingress, m, now).proxy, k)
  {
    RelayIsNoState(p, m, k);
    hide FanOut, StoreIn, OfStream, View, Advances, Judge, Admits, Gen;
    if Admits(p, ingress, m) && Judge(p.cache, m) == Store {
      StoreAndFanOutView(p, ingress, m, now, k);
    } else if Admits(p, ingress, m) && Judge(p.cache, m) == Relay {
      FanOutView(p, ingress, m, now, k);
    } else {
      SameView(p, Ingest(p, ingress, m, now).proxy, k);
    }
  }

  lemma RelayIsNoState(p: Proxy, m: NativeMessage, k: nat)
    ensures Judge(p.cache, m) == Relay ==> !OfStream(m, k)
  {
    hide StreamKey;
  }

  lemma SameView(p: Proxy, p': Proxy, k: nat)
    requires View(p, k) && p'.cache == p.cache && p'.links == p.links
    ensures View(p', k) && Advances(p, p', k)
  {
    SameCacheView(p, p', k) by {
      assert forall id :: id in p'.links ==> LinkAdvances(p, p', id, k);
    }
  }

  lemma OtherOpsView(p: Proxy, op: Proxies.Op, k: nat)
    requires View(p, k) && !op.IngestOp?
    ensures View(Step(p, op).proxy, k) && Advances(p, Step(p, op).proxy, k)
  {
    var p' := Step(p, op).proxy;
    forall id | id in p'.links
      ensures LinkAdvances(p, p', id, k)
    {
      OtherOpAt(p, op, k, id);
    }
    OtherOpsKeepCache(p, op);
    hide Step, View, Advances, LinkAdvances;
    SameCacheView(p, p', k);
  }

  lemma OtherOpsKeepCache(p: Proxy, op: Proxies.Op)
    requires !op.IngestOp?
    ensures Step(p, op).proxy.cache == p.cache
  {
    hide Feed, Pop, SubscriptionPairs, Subscribable;
  }

  lemma EmptyIsClean(capacity: nat, k: nat)
    ensures Clean(Empty(capacity), k) && Queued(Empty(capacity), k) == None
  {
  }

  lemma OtherOpAt(p: Proxy, op: Proxies.Op, k: nat, id: LinkId)
    requires View(p, k) && !op.IngestOp? && id in Step(p, op).proxy.links
    ensures LinkAdvances(p, Step(p, op).proxy, id, k)
  {
    hide Clean, Queued, Feed, Pop, SubscriptionPairs, Subscribable, Empty, GenOf, KeyedBy, IsState;
    match op {
      case AddLinkOp(_, _, _) =>
        EmptyIsClean(p.queueCapacity, k);
      case SubscribeOp(at, s, order) =>
        if at in p.links {
          FeedView(p.links[at].queue, p.cache, order, s, k);
        }
      case NextOp(at, now) =>
        if at in p.links {
          PopView(p.links[at].queue, now, k);
        }
      case _ =>
    }
  }

  lemma StepView(p: Proxy, op: Proxies.Op, k: nat)
    requires View(p, k) && LatestOnly(op, k)
    ensures View(Step(p, op).proxy, k) && Advances(p, Step(p, op).proxy, k)
  {
    hide View, Advances, OfStream, Ingest;
    match op {
      case IngestOp(id, rec, now) => IngestView(p, id, rec, now, k);
      case _ => OtherOpsView(p, op, k);
    }
  }

  // ---- whole runs ----

  /** A message handed to a link's owner. */
  datatype Seen = Seen(link: LinkId, message: NativeMessage)

  datatype ProxyRun = ProxyRun(proxy: Proxy, seen: seq<Seen>)

  function Observed(op: Proxies.Op, r: Result): seq<Seen> {
    if op.NextOp? && r.message.Some? then [Seen(op.id, r.message.value)] else []
  }

  function Advance(r: ProxyRun, op: Proxies.Op): ProxyRun {
    var s := Step(r.proxy, op);
    ProxyRun(s.proxy, r.seen + Observed(op, s))
  }

  function RunProxy(capacity: nat, ops: seq<Proxies.Op>): ProxyRun {
    if ops == [] then ProxyRun(NewProxy(capacity), [])
    else Advance(RunProxy(capacity, ops[..|ops| - 1]), ops[|ops| - 1])
  }

  ghost predicate AllLatest(ops: seq<Proxies.Op>, k: nat) {
    forall i :: 0 <= i < |ops| ==> LatestOnly(ops[i], k)
  }

  /** Delivered never exceeds queued, nor cached. */
  ghost predicate Bounded(p: Proxy, s: Seen, k: nat) {
    OfStream(s.message, k) ==>
      && k in p.cache && Gen(s.message) <= GenOf(Cached(p, k))
      && (Waiting(p, s.link, k).Some? ==> Gen(s.message) <= GenOf(Waiting(p, s.link, k)))
  }

  ghost predicate InOrder(a: Seen, b: Seen, k: nat) {
    a.link == b.link && OfStream(a.message, k) && OfStream(b.message, k) ==> Gen(a.message) <= Gen(b.message)
  }

  ghost predicate Ascending(seen: seq<Seen>, k: nat) {
    forall i, j :: 0 <= i < j < |seen| ==> InOrder(seen[i], seen[j], k)
  }

  lemma BoundedAdvances(p: Proxy, p': Proxy, s: Seen, k: nat)
    requires Bounded(p, s, k) && Advances(p, p', k)
    ensures Bounded(p', s, k)
  {
    hide OfStream, Gen, GenOf, Waiting, Cached;
  }

  lemma AllBoundedAdvance(p: Proxy, p': Proxy, seen: seq<Seen>, k: nat)
    requires Advances(p, p', k)
    requires forall i :: 0 <= i < |seen| ==> Bounded(p, seen[i], k)
    ensures forall i :: 0 <= i < |seen| ==> Bounded(p', seen[i], k)
  {
    hide Bounded, Advances;
    forall i | 0 <= i < |seen|
      ensures Bounded(p', seen[i], k)
    {
      BoundedAdvances(p, p', seen[i], k);
    }
  }

  lemma AscendingSnoc(seen: seq<Seen>, s: Seen, k: nat)
    requires Ascending(seen, k)
    requires forall i :: 0 <= i < |seen| ==> InOrder(seen[i], s, k)
    ensures Ascending(seen + [s], k)
  {
    hide InOrder;
  }

  lemma DeliveredWasWaiting(p: Proxy, op: Proxies.Op, k: nat)
    requires View(p, k) && op.NextOp? && Step(p, op).message.Some?
    requires OfStream(Step(p, op).message.value, k)
    ensures Waiting(p, op.id, k) == Step(p, op).message
    ensures Waiting(Step(p, op).proxy, op.id, k) == None
  {
    hide OfStream, Clean, Queued, Pop, KeyedBy, IsState, GenOf;
    PopView(p.links[op.id].queue, op.now, k);
  }

  lemma NewSeen(p: Proxy, op: Proxies.Op, k: nat, s: Seen, seen: seq<Seen>)
    requires View(p, k) && LatestOnly(op, k)
    requires Observed(op, Step(p, op)) == [s]
    requires forall i :: 0 <= i < |seen| ==> Bounded(p, seen[i], k)
    ensures Bounded(Step(p, op).proxy, s, k)
    ensures forall i :: 0 <= i < |seen| ==> InOrder(seen[i], s, k)
  {
    if OfStream(s.message, k) {
      DeliveredWasWaiting(p, op, k);
      StepView(p, op, k);
      assert GenOf(Some(s.message)) == Gen(s.message);
      hide OfStream, Gen, GenOf, Waiting, Cached, Step;
    }
  }

  lemma NewProxyView(capacity: nat, k: nat)
    ensures View(NewProxy(capacity), k)
  {
    hide OfStream, StreamKey;
  }

  /** What every run keeps for stream k. */
  ghost predicate Good(r: ProxyRun, k: nat) {
    && View(r.proxy, k)
    && (forall i :: 0 <= i < |r.seen| ==> Bounded(r.proxy, r.seen[i], k))
    && Ascending(r.seen, k)
  }

  lemma AdvanceIsGood(r: ProxyRun, op: Proxies.Op, k: nat)
    requires Good(r, k) && LatestOnly(op, k)
    ensures Good(Advance(r, op), k)
  {
    var p' := Step(r.proxy, op).proxy;
    var added := Observed(op, Step(r.proxy, op));
    assert added == [] || added == [added[0]];
    hide Step, Observed, View, Bounded, LatestOnly, Advances, Ascending, InOrder;
    StepView(r.proxy, op, k);
    AllBoundedAdvance(r.proxy, p', r.seen, k);
    if added == [] {
      assert r.seen + added == r.seen;
    } else {
      NewSeen(r.proxy, op, k, added[0], r.seen);
      AscendingSnoc(r.seen, added[0], k);
    }
  }

  lemma {:induction false} RunView(capacity: nat, ops: seq<Proxies.Op>, k: nat)
    requires AllLatest(ops, k)
    ensures Good(RunProxy(capacity, ops), k)
    decreases |ops|
  {
    if ops == [] {
      NewProxyView(capacity, k);
      hide View;
    } else {
      var n := |ops| - 1;
      assert LatestOnly(ops[n], k);
      RunView(capacity, ops[..n], k);
      hide Good, LatestOnly;
      AdvanceIsGood(RunProxy(capacity, ops[..n]), ops[n], k);
    }
  }

  /** A subscriber never sees a stream go backwards: over every run, including
      re-subscription and links removed and added again, the generations handed to one
      link for one stream never decrease, if the stream's messages are latest-wins. */
  lemma NeverBackwards(capacity: nat, ops: seq<Proxies.Op>, k: nat)
    requires AllLatest(ops, k)
    ensures var seen := RunProxy(capacity, ops).seen;
            forall i, j :: 0 <= i < j < |seen| && seen[i].link == seen[j].link
                           && OfStream(seen[i].message, k) && OfStream(seen[j].message, k) ==>
              Generation(seen[i].message) as nat <= Generation(seen[j].message) as nat
  {
    RunView(capacity, ops, k);
    hide RunProxy, View, Bounded, OfStream;
    var seen := RunProxy(capacity, ops).seen;
    forall i, j | 0 <= i < j < |seen| && seen[i].link == seen[j].link
                  && OfStream(seen[i].message, k) && OfStream(seen[j].message, k)
      ensures Generation(seen[i].message) as nat <= Generation(seen[j].message) as nat
    {
      assert InOrder(seen[i], seen[j], k);
    }
  }

  /** Why the condition is needed: a message of another quality of service, whatever its
      generation, overtakes a queued latest-wins message of the same stream. */
  lemma OtherQualityOvertakes(m: NativeMessage, n: NativeMessage, capacity: nat, now: nat)
    requires capacity >= 2 && IsState(m) && !IsState(n) && StreamKey(m) == StreamKey(n)
    requires |m.payload| <= MAX_PAYLOAD_BYTES && |n.payload| <= MAX_PAYLOAD_BYTES
    requires !ExpiredAt(m, now) && !ExpiredAt(n, now)
    ensures var q := Push(Push(Empty(capacity), m, now).queue, n, now).queue;
            Pop(q, now).message == Some(n) && Pop(Pop(q, now).queue, now).message == Some(m)
  {
    hide StreamKey, IsState, ExpiredAt, Tally;
    var k := StreamKey(m);
    var q1 := Push(Empty(capacity), m, now).queue;
    assert q1.state == map[k := m] && q1.critical == [] && q1.events == [] && Size(q1) == 1;
    var q2 := Push(q1, n, now).queue;
    assert q2.state == map[k := m] && (if IsCritical(n) then q2.critical == [n] && q2.events == [] else q2.critical == [] && q2.events == [n]);
    PopTurn(q2, now);
    var q3 := Pop(q2, now).queue;
    assert q3.state == map[k := m] && q3.critical == [] && q3.events == [];
    assert q3.state.Keys == {k};
    PopTurn(q3, now);
  }
}
