// What every state of a proxy run keeps of its queues and its cache (src/proxy.cpp), and
// with it the results about subscribe, stated over runs.

module ProxyRuns {
  import opened Wire
  import opened Requests
  import opened Streams
  import opened Queues
  import opened QueueRuns
  import opened Proxies
  import opened ProxyViews
  import opened ProxyCache
  import opened Qualities
  import Convergence

  ghost predicate QueuesOk(p: Proxy) {
    forall id :: id in p.links ==> Valid(p.links[id].queue)
  }

  /** Entries sit under their own stream's key and fit a record. */
  ghost predicate CacheFits(cache: map<nat, NativeMessage>) {
    KeyedBy(cache) && forall k :: k in cache ==> |cache[k].payload| <= MAX_PAYLOAD_BYTES
  }

  lemma {:induction false} FeedKeepsValid(q: Queue, cache: map<nat, NativeMessage>, order: seq<nat>, s: Subscription)
    requires Valid(q)
    ensures Valid(Feed(q, cache, order, s).queue)
    decreases |order|
  {
    hide Valid, Push, Took, Matches;
    if order != [] {
      if order[0] in cache && Matches(s, cache[order[0]]) {
        var m := cache[order[0]];
        PushKeepsValid(q, m, 0);
        FeedKeepsValid(Push(q, m, 0).queue, cache, order[1..], s);
      } else {
        FeedKeepsValid(q, cache, order[1..], s);
      }
    }
  }

  lemma OfferKeepsValid(id: LinkId, link: Link, ingress: LinkId, m: NativeMessage, now: nat)
    requires Valid(link.queue)
    ensures Valid(Offer(id, link, ingress, m, now).queue)
  {
    PushKeepsValid(link.queue, Addressed(m, id), now);
    hide Valid, Push, Receives;
  }

  lemma FanOutKeepsQueues(p: Proxy, ingress: LinkId, m: NativeMessage, now: nat)
    requires QueuesOk(p)
    ensures QueuesOk(FanOut(p, ingress, m, now))
  {
    hide Valid, Offer, Forwards;
    forall id | id in p.links
      ensures Valid(Offer(id, p.links[id], ingress, m, now).queue)
    {
      OfferKeepsValid(id, p.links[id], ingress, m, now);
    }
  }

  lemma SameLinks(p: Proxy, p': Proxy)
    requires QueuesOk(p) && p'.links == p.links
    ensures QueuesOk(p')
  {
    hide Valid;
  }

  lemma OneLink(p: Proxy, p': Proxy, id: LinkId, link: Link)
    requires QueuesOk(p) && Valid(link.queue) && p'.links == p.links[id := link]
    ensures QueuesOk(p')
  {
    hide Valid;
  }

  lemma IngestCases(p: Proxy, ingress: LinkId, m: NativeMessage, now: nat)
    ensures var p' := Ingest(p, ingress, m, now).proxy;
            p'.links == p.links || p' == FanOut(StoreIn(p, m), ingress, m, now) || p' == FanOut(p, ingress, m, now)
  {
    hide FanOut, Judge, Admits, StreamKey;
  }

  lemma IngestKeepsQueues(p: Proxy, ingress: LinkId, m: NativeMessage, now: nat)
    requires QueuesOk(p)
    ensures QueuesOk(Ingest(p, ingress, m, now).proxy)
  {
    var p' := Ingest(p, ingress, m, now).proxy;
    IngestCases(p, ingress, m, now);
    assert StoreIn(p, m).links == p.links;
    hide *;
    SameLinks(p, StoreIn(p, m));
    FanOutKeepsQueues(p, ingress, m, now);
    FanOutKeepsQueues(StoreIn(p, m), ingress, m, now);
    if p'.links == p.links {
      SameLinks(p, p');
    }
  }

  lemma EmptyIsValid(capacity: nat)
    ensures Valid(Empty(capacity))
  {
  }

  lemma LinkOpKeepsQueues(p: Proxy, op: Proxies.Op)
    requires QueuesOk(p) && (op.AddLinkOp? || op.RemoveLinkOp? || op.UnsubscribeOp?)
    ensures QueuesOk(Step(p, op).proxy)
  {
    EmptyIsValid(p.queueCapacity);
    hide Valid, Empty;
  }

  lemma SubscribeKeepsQueues(p: Proxy, id: LinkId, s: Subscription, order: seq<nat>)
    requires QueuesOk(p)
    ensures QueuesOk(Subscribe(p, id, s, order).proxy)
  {
    var p' := Subscribe(p, id, s, order).proxy;
    hide Valid, Feed, SubscriptionPairs, Subscribable;
    if CanSubscribe(p, id, s) {
      FeedKeepsValid(p.links[id].queue, p.cache, order, s);
      OneLink(p, p', id, p'.links[id]);
    }
  }

  lemma NextKeepsQueues(p: Proxy, id: LinkId, now: nat)
    requires QueuesOk(p)
    ensures QueuesOk(Next(p, id, now).proxy)
  {
    var p' := Next(p, id, now).proxy;
    hide Valid, Pop;
    if id in p.links {
      PopKeepsValid(p.links[id].queue, now);
      OneLink(p, p', id, p'.links[id]);
    }
  }

  lemma StepKeepsQueues(p: Proxy, op: Proxies.Op)
    requires QueuesOk(p)
    ensures QueuesOk(Step(p, op).proxy)
  {
    hide QueuesOk, Ingest, Subscribe, Next;
    match op {
      case SubscribeOp(id, s, order) => SubscribeKeepsQueues(p, id, s, order);
      case IngestOp(id, rec, now) => IngestKeepsQueues(p, id, rec, now);
      case NextOp(id, now) => NextKeepsQueues(p, id, now);
      case NextResyncOp => SameLinks(p, Step(p, op).proxy);
      case _ => LinkOpKeepsQueues(p, op);
    }
  }

  lemma StepKeepsCacheFits(p: Proxy, op: Proxies.Op)
    requires CacheFits(p.cache)
    ensures CacheFits(Step(p, op).proxy.cache)
  {
    Convergence.StepKeepsKeys(p, op);
    if op.IngestOp? {
      StoredFits(p, op.id, op.rec, op.now);
    } else {
      OtherOpsKeepCache(p, op);
    }
    hide KeyedBy, StreamKey, Ingest, AddLink, RemoveLink, Subscribe, Unsubscribe, Next, NextResync;
  }

  /** Only an admitted message is ever cached, and those fit a record. */
  lemma StoredFits(p: Proxy, ingress: LinkId, m: NativeMessage, now: nat)
    ensures var cache := Ingest(p, ingress, m, now).proxy.cache;
            cache == p.cache || (cache == p.cache[StreamKey(m) := m] && |m.payload| <= MAX_PAYLOAD_BYTES)
  {
    hide StreamKey, Judge, Offer, Forwards, KnownType;
  }

  lemma {:induction false} RunKeeps(capacity: nat, ops: seq<Proxies.Op>)
    ensures QueuesOk(RunProxy(capacity, ops).proxy) && CacheFits(RunProxy(capacity, ops).proxy.cache)
    decreases |ops|
  {
    if ops != [] {
      var n := |ops| - 1;
      var p := RunProxy(capacity, ops[..n]).proxy;
      RunKeeps(capacity, ops[..n]);
      assert RunProxy(capacity, ops).proxy == Step(p, ops[n]).proxy;
      hide QueuesOk, CacheFits, RunProxy, Step;
      StepKeepsQueues(p, ops[n]);
      StepKeepsCacheFits(p, ops[n]);
    }
  }

  /** Over every run: a successful subscribe leaves the link's queue agreeing with the
      cache on every latest-wins stream it asks for, whatever order the cache is walked
      in. */
  lemma RunSubscribeAgrees(capacity: nat, ops: seq<Proxies.Op>, id: LinkId, s: Subscription, order: seq<nat>, j: nat)
    requires Walks(order, RunProxy(capacity, ops).proxy.cache.Keys)
    ensures var p := RunProxy(capacity, ops).proxy;
            var r := Subscribe(p, id, s, order);
            r.ok ==>
              && id in p.links && id in r.proxy.links
              && Waiting(r.proxy, id, j) ==
                   (if j in p.cache && AskedFor(s, p.cache[j]) && Latest(p.cache[j]) then Some(p.cache[j])
                    else Waiting(p, id, j))
  {
    RunKeeps(capacity, ops);
    var p := RunProxy(capacity, ops).proxy;
    assert KeyedBy(p.cache);
    if j in p.cache {
      AskedForIs(s, p.cache[j]);
      Codes(p.cache[j], 0);
    }
    hide RunProxy, Walks, Subscribe, KeyedBy, Matches, IsState, Waiting, QueuesOk, AskedFor, Latest;
    if Subscribe(p, id, s, order).ok {
      SubscribeAgreesWithCache(p, id, s, order, j);
    }
  }

  /** Of the subscription's type and from its source. */
  predicate AskedFor(s: Subscription, m: NativeMessage) {
    m.header.typ == s.typ && m.header.source == s.source
  }

  lemma AskedForIs(s: Subscription, m: NativeMessage)
    ensures Matches(s, m) <==> AskedFor(s, m)
  {
  }

  /** What the subscription asks for is latest-wins. */
  ghost predicate AllLatestWins(cache: map<nat, NativeMessage>, s: Subscription) {
    forall j :: j in cache && Matches(s, cache[j]) ==> IsState(cache[j])
  }

  /** Over every run: an admissible subscribe for latest-wins streams succeeds exactly
      when reliable messages queued, streams queued and streams wanted fit the queue
      together. */
  lemma RunSubscribeSucceedsIff(capacity: nat, ops: seq<Proxies.Op>, id: LinkId, s: Subscription, order: seq<nat>)
    requires Walks(order, RunProxy(capacity, ops).proxy.cache.Keys)
    requires CanSubscribe(RunProxy(capacity, ops).proxy, id, s) && AllLatestWins(RunProxy(capacity, ops).proxy.cache, s)
    ensures var p := RunProxy(capacity, ops).proxy;
            && id in p.links
            && var q := p.links[id].queue;
            Subscribe(p, id, s, order).ok <==>
            |q.critical| + |q.state.Keys + Wanted(p.cache, s)| <= q.capacity
  {
    RunKeeps(capacity, ops);
    var p := RunProxy(capacity, ops).proxy;
    assert id in p.links && Valid(p.links[id].queue) && Replayable(p.cache, s) && KeyedBy(p.cache);
    hide *;
    SubscribeSucceedsIff(p, id, s, order);
  }

  // ---- why latest-wins ----

  /** With entries of another quality the outcome can depend on the order in which the
      cache happens to be walked: an event makes room for a state, a state does not make
      room for an event. */
  lemma OrderMatters(e: NativeMessage, m: NativeMessage, i: nat, j: nat, s: Subscription)
    requires i != j && Matches(s, e) && Matches(s, m)
    requires IsState(m) && StreamKey(m) == j && !IsState(e) && !IsCritical(e)
    requires |e.payload| <= MAX_PAYLOAD_BYTES && |m.payload| <= MAX_PAYLOAD_BYTES
    ensures var cache := map[i := e, j := m];
            Feed(Empty(1), cache, [i, j], s).ok && !Feed(Empty(1), cache, [j, i], s).ok
  {
    var cache := map[i := e, j := m];
    NeverExpiredAtZero(e);
    NeverExpiredAtZero(m);
    FeedTwo(Empty(1), cache, i, j, s);
    FeedTwo(Empty(1), cache, j, i, s);
    hide Feed, StreamKey, IsState, IsCritical, ExpiredAt, Matches, Tally;
    var q := Push(Empty(1), e, 0).queue;
    assert q.events == [e] && q.state == map[] && q.critical == [] && Size(q) == 1 && q.capacity == 1;
    assert Took(Push(Empty(1), e, 0)) && Took(Push(q, m, 0));
    var r := Push(Empty(1), m, 0).queue;
    assert r.events == [] && r.state == map[j := m] && r.critical == [] && Size(r) == 1 && r.capacity == 1;
    assert !Took(Push(r, e, 0));
  }

  lemma FeedTwo(q: Queue, cache: map<nat, NativeMessage>, i: nat, j: nat, s: Subscription)
    requires i in cache && j in cache && Matches(s, cache[i]) && Matches(s, cache[j])
    ensures var o := Push(q, cache[i], 0);
            Feed(q, cache, [i, j], s).ok <==> Took(o) && Took(Push(o.queue, cache[j], 0))
  {
    assert [i, j][1..] == [j] && [j][1..] == [];
    FeedTurn(q, cache, [i, j], s);
    FeedTurn(Push(q, cache[i], 0).queue, cache, [j], s);
    FeedTurn(Push(Push(q, cache[i], 0).queue, cache[j], 0).queue, cache, [], s);
    hide Feed, Push, Took, Matches;
  }
}
