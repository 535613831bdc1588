// NativeProxy (src/proxy.cpp) as an object whose methods update its maps, cache and
// counters in place.  Maps are walked in an arbitrary order, as unordered maps are.

module NativeProxies {
  import Numbers
  import opened Wire
  import opened Messages
  import opened Requests
  import opened Streams
  import opened Queues
  import opened Proxies

  // ---- walking the cache ----

  lemma {:induction false} FeedConcat(q: Queue, cache: map<nat, NativeMessage>, a: seq<nat>, b: seq<nat>, s: Subscription)
    ensures var f := Feed(q, cache, a, s);
            Feed(q, cache, a + b, s) == if f.ok then Feed(f.queue, cache, b, s) else f
    decreases |a|
  {
    if a == [] {
      assert a + b == b;
    } else {
      assert (a + b)[1..] == a[1..] + b;
      hide Push, Matches, Took;
      if a[0] in cache && Matches(s, cache[a[0]]) {
        FeedConcat(Push(q, cache[a[0]], 0).queue, cache, a[1..], b, s);
      } else {
        FeedConcat(q, cache, a[1..], b, s);
      }
    }
  }

  lemma FeedOne(q: Queue, cache: map<nat, NativeMessage>, k: nat, s: Subscription)
    ensures Feed(q, cache, [k], s) ==
            if k in cache && Matches(s, cache[k]) then
              Fed(Push(q, cache[k], 0).queue, Took(Push(q, cache[k], 0)))
            else Fed(q, true)
  {
    hide Push, Matches, Took;
    assert [k][1..] == [];
  }

  /** Some order in which to visit the keys that remain. */
  lemma {:induction false} FinishWalk(done: seq<nat>, rest: set<nat>, keys: set<nat>) returns (tail: seq<nat>)
    requires Visited(done, rest, keys)
    ensures Walks(done + tail, keys)
    ensures rest == {} ==> tail == []
    decreases |rest|
  {
    if rest == {} {
      tail := [];
      assert done + tail == done;
    } else {
      var k := Numbers.Pick(rest);
      VisitOne(done, rest, keys, k);
      var more := FinishWalk(done + [k], rest - {k}, keys);
      tail := [k] + more;
      assert done + [k] + more == done + tail;
    }
  }

  lemma SomeWalk(keys: set<nat>) returns (order: seq<nat>)
    ensures Walks(order, keys)
  {
    order := FinishWalk([], keys, keys);
    assert [] + order == order;
  }

  /** done lists, without repetition, exactly the keys outside rest. */
  ghost predicate Visited(done: seq<nat>, rest: set<nat>, keys: set<nat>) {
    && rest <= keys
    && (forall k :: k in done <==> k in keys && k !in rest)
    && (forall i, j :: 0 <= i < j < |done| ==> done[i] != done[j])
  }

  lemma WalkBegins(q: Queue, cache: map<nat, NativeMessage>, s: Subscription)
    ensures Visited([], cache.Keys, cache.Keys) && Feed(q, cache, [], s) == Fed(q, true)
  {
  }

  lemma VisitOne(done: seq<nat>, rest: set<nat>, keys: set<nat>, k: nat)
    requires Visited(done, rest, keys) && k in rest
    ensures Visited(done + [k], rest - {k}, keys)
  {
    assert k !in done;
  }

  // ---- counting subscriptions ----

  function PairsOf(links: map<LinkId, Link>, ids: set<LinkId>): set<(LinkId, TypeByte)> {
    set id, t | id in links && id in ids && t in links[id].subscriptions :: (id, t)
  }

  lemma PairsOfOne(links: map<LinkId, Link>, ids: set<LinkId>, id: LinkId)
    requires id in links && id !in ids
    ensures |PairsOf(links, ids + {id})| == |PairsOf(links, ids)| + |links[id].subscriptions|
  {
    var own := set t | t in links[id].subscriptions :: (id, t);
    assert PairsOf(links, ids + {id}) == PairsOf(links, ids) + own;
    assert PairsOf(links, ids) !! own;
    OwnPairs(id, links[id].subscriptions.Keys);
    assert own == set t | t in links[id].subscriptions.Keys :: (id, t);
  }

  lemma {:induction false} OwnPairs(id: LinkId, ts: set<TypeByte>)
    ensures |set t | t in ts :: (id, t)| == |ts|
    decreases |ts|
  {
    if ts == {} {
      assert (set t | t in ts :: (id, t)) == {};
    } else {
      var x := Numbers.Pick(ts);
      OwnPairs(id, ts - {x});
      assert (set t | t in ts :: (id, t)) == (set t | t in ts - {x} :: (id, t)) + {(id, x)};
    }
  }

  lemma PairsOfAll(links: map<LinkId, Link>)
    ensures PairsOf(links, links.Keys) == SubscriptionPairs(links)
    ensures PairsOf(links, {}) == {}
  {
  }

  // ---- fanning out ----

  function TakersOf(links: map<LinkId, Link>, ids: set<LinkId>, ingress: LinkId, m: NativeMessage, now: nat): set<LinkId> {
    set id | id in links && id in ids && Forwards(id, links[id], ingress, m, now)
  }

  lemma TakersOfOne(links: map<LinkId, Link>, ids: set<LinkId>, id: LinkId, ingress: LinkId, m: NativeMessage, now: nat)
    requires id in links && id !in ids
    ensures |TakersOf(links, ids + {id}, ingress, m, now)| ==
            |TakersOf(links, ids, ingress, m, now)| + (if Forwards(id, links[id], ingress, m, now) then 1 else 0)
  {
    hide Forwards;
    var before := TakersOf(links, ids, ingress, m, now);
    var after := TakersOf(links, ids + {id}, ingress, m, now);
    if Forwards(id, links[id], ingress, m, now) {
      assert after == before + {id};
    } else {
      assert after == before;
    }
  }

  /** Every link outside rest has been offered the message, and count of them took it. */
  ghost predicate Offered(all: map<LinkId, Link>, links: map<LinkId, Link>, rest: set<LinkId>,
                          ingress: LinkId, m: NativeMessage, now: nat, count: nat) {
    && rest <= all.Keys && links.Keys == all.Keys
    && (forall id :: id in all ==> links[id] == if id in rest then all[id] else Offer(id, all[id], ingress, m, now))
    && count == |TakersOf(all, all.Keys - rest, ingress, m, now)|
  }

  lemma OfferedNone(all: map<LinkId, Link>, ingress: LinkId, m: NativeMessage, now: nat)
    ensures Offered(all, all, all.Keys, ingress, m, now, 0)
  {
    hide Offer, Forwards;
    assert TakersOf(all, all.Keys - all.Keys, ingress, m, now) == {};
  }

  lemma OfferedOne(all: map<LinkId, Link>, links: map<LinkId, Link>, rest: set<LinkId>,
                   ingress: LinkId, m: NativeMessage, now: nat, count: nat, id: LinkId)
    requires Offered(all, links, rest, ingress, m, now, count) && id in rest
    ensures id in links
    ensures Offered(all, links[id := Offer(id, links[id], ingress, m, now)], rest - {id}, ingress, m, now,
                    count + if Forwards(id, links[id], ingress, m, now) then 1 else 0)
  {
    hide Offer, Forwards, TakersOf;
    TakersOfOne(all, all.Keys - rest, id, ingress, m, now);
    assert all.Keys - rest + {id} == all.Keys - (rest - {id});
  }

  lemma OfferedAll(p: Proxy, links: map<LinkId, Link>, ingress: LinkId, m: NativeMessage, now: nat, count: nat)
    requires Offered(p.links, links, {}, ingress, m, now, count)
    ensures FanOut(p, ingress, m, now) ==
            p.(links := links,
               metrics := p.metrics.(accepted := p.metrics.accepted + 1, forwarded := p.metrics.forwarded + count))
  {
    hide Offer, Forwards;
    var all := p.links;
    assert all.Keys - {} == all.Keys;
    assert TakersOf(all, all.Keys, ingress, m, now) == set id | id in all && Forwards(id, all[id], ingress, m, now);
    assert links == map id | id in all :: Offer(id, all[id], ingress, m, now);
  }

  class NativeProxy {
    const queueCapacity: nat
    var links: map<LinkId, Link>
    var cache: map<nat, NativeMessage>
    var resync: seq<ResyncRequest>
    var metrics: ProxyMetrics

    ghost function Model(): Proxy
      reads this
    {
      Proxy(queueCapacity, links, cache, resync, metrics)
    }

    constructor (queueCapacity: nat)
      ensures Model() == NewProxy(queueCapacity)
    {
      this.queueCapacity := queueCapacity;
      links, cache, resync, metrics := map[], map[], [], ProxyMetrics(0, 0, 0, 0, 0);
    }

    method AddLink(id: LinkId, peer: bv16, local: bv16) returns (ok: bool)
      modifies this
      ensures Model() == Proxies.AddLink(old(Model()), id, peer, local).proxy
      ensures ok == Proxies.AddLink(old(Model()), id, peer, local).ok
    {
      if id.value == 0 || id in links || |links| >= MAX_LINKS {
        return false;
      }
      links := links[id := Link(peer, local, Empty(queueCapacity), map[])];
      ok := true;
    }

    method RemoveLink(id: LinkId) returns (ok: bool)
      modifies this
      ensures Model() == Proxies.RemoveLink(old(Model()), id).proxy && ok == Proxies.RemoveLink(old(Model()), id).ok
    {
      ok := id in links;
      links := links - {id};
      if !ok {
        assert links == old(links);
      }
    }

    method CountSubscriptions() returns (count: nat)
      ensures count == |SubscriptionPairs(links)|
    {
      count := 0;
      var rest := links.Keys;
      PairsOfAll(links);
      while rest != {}
        invariant rest <= links.Keys
        invariant count == |PairsOf(links, links.Keys - rest)|
        decreases |rest|
      {
        var id :| id in rest;
        PairsOfOne(links, links.Keys - rest, id);
        assert links.Keys - rest + {id} == links.Keys - (rest - {id});
        count := count + |links[id].subscriptions|;
        rest := rest - {id};
      }
      assert links.Keys - rest == links.Keys;
    }

    /** The replay loop of subscribe, over the cache in whatever order it is walked. */
    method ReplayCache(start: Queue, s: Subscription) returns (ok: bool, queue: Queue, ghost order: seq<nat>)
      ensures Walks(order, cache.Keys)
      ensures Feed(start, cache, order, s) == Fed(queue, ok)
    {
      var rest := cache.Keys;
      ok, queue, order := true, start, [];
      WalkBegins(start, cache, s);
      hide *;
      while rest != {} && ok
        invariant rest <= cache.Keys
        invariant Visited(order, rest, cache.Keys)
        invariant Feed(start, cache, order, s) == Fed(queue, ok)
        decreases |rest|
      {
        var k :| k in rest;
        VisitOne(order, rest, cache.Keys, k);
        ReplayTurn(start, queue, order, k, s);
        order := order + [k];
        rest := rest - {k};
        if Matches(s, cache[k]) {
          var o := Push(queue, cache[k], 0);
          queue, ok := o.queue, Took(o);
        }
      }
      ghost var tail := FinishWalk(order, rest, cache.Keys);
      FeedConcat(start, cache, order, tail, s);
      assert ok ==> rest == {} && order + tail == order;
      order := order + tail;
    }

    lemma ReplayTurn(start: Queue, q: Queue, order: seq<nat>, k: nat, s: Subscription)
      requires Feed(start, cache, order, s) == Fed(q, true) && k in cache
      ensures Feed(start, cache, order + [k], s) ==
              if Matches(s, cache[k]) then Fed(Push(q, cache[k], 0).queue, Took(Push(q, cache[k], 0))) else Fed(q, true)
    {
      hide Feed, Push, Took, Matches;
      FeedConcat(start, cache, order, [k], s);
      FeedOne(q, cache, k, s);
    }

    method MaySubscribe(id: LinkId, s: Subscription) returns (ok: bool)
      ensures ok == CanSubscribe(Model(), id, s)
    {
      hide SubscriptionPairs, Subscribable;
      if id !in links || !Subscribable(s) {
        return false;
      }
      if TypeByte(s.typ) in links[id].subscriptions {
        return true;
      }
      var count := CountSubscriptions();
      ok := count < MAX_SUBSCRIPTIONS;
    }

    method Subscribe(id: LinkId, s: Subscription) returns (ok: bool, ghost order: seq<nat>)
      modifies this
      ensures Walks(order, cache.Keys)
      ensures Model() == Proxies.Subscribe(old(Model()), id, s, order).proxy
      ensures ok == Proxies.Subscribe(old(Model()), id, s, order).ok
    {
      hide Feed, Walks, SubscriptionPairs, Subscribable, Visited;
      ok := MaySubscribe(id, s);
      if !ok {
        order := SomeWalk(cache.Keys);
        return;
      }
      links := links[id := links[id].(subscriptions := links[id].subscriptions[TypeByte(s.typ) := s])];
      var queue;
      ok, queue, order := ReplayCache(links[id].queue, s);
      links := links[id := links[id].(queue := queue)];
      assert links == old(links)[id := links[id]];
    }

    method Unsubscribe(id: LinkId, typ: bv8) returns (ok: bool)
      modifies this
      ensures Model() == Proxies.Unsubscribe(old(Model()), id, typ).proxy
      ensures ok == Proxies.Unsubscribe(old(Model()), id, typ).ok
    {
      if id !in links {
        return false;
      }
      ok := TypeByte(typ) in links[id].subscriptions;
      if ok {
        links := links[id := links[id].(subscriptions := links[id].subscriptions - {TypeByte(typ)})];
      }
    }

    /** The body of ingest's forwarding loop, for one link. */
    method ForwardTo(id: LinkId, ingress: LinkId, m: NativeMessage, now: nat)
      requires id in links
      modifies this`links, this`metrics
      ensures links == old(links)[id := Offer(id, old(links)[id], ingress, m, now)]
      ensures metrics == old(metrics).(forwarded := old(metrics).forwarded
                           + if Forwards(id, old(links)[id], ingress, m, now) then 1 else 0)
    {
      hide Push, Took, Receives, Addressed;
      if id != ingress && Receives(links[id], m) {
        var o := Push(links[id].queue, Addressed(m, id), now);
        links := links[id := links[id].(queue := o.queue)];
        if Took(o) {
          metrics := metrics.(forwarded := metrics.forwarded + 1);
        }
      } else {
        assert links == links[id := links[id]];
      }
    }

    /** The forwarding loop of ingest. */
    method ForwardLoop(ingress: LinkId, m: NativeMessage, now: nat) returns (ghost count: nat)
      modifies this`links, this`metrics
      ensures Offered(old(links), links, {}, ingress, m, now, count)
      ensures metrics == old(metrics).(forwarded := old(metrics).forwarded + count)
    {
      var rest := links.Keys;
      count := 0;
      OfferedNone(links, ingress, m, now);
      hide *;
      while rest != {}
        invariant Offered(old(links), links, rest, ingress, m, now, count)
        invariant metrics == old(metrics).(forwarded := old(metrics).forwarded + count)
        decreases |rest|
      {
        var id :| id in rest;
        OfferedOne(old(links), links, rest, ingress, m, now, count, id);
        count := count + if Forwards(id, links[id], ingress, m, now) then 1 else 0;
        rest := rest - {id};
        ForwardTo(id, ingress, m, now);
      }
    }

    method Forward(ingress: LinkId, m: NativeMessage, now: nat)
      modifies this
      ensures Model() == FanOut(old(Model()), ingress, m, now)
    {
      ghost var p := Model();
      metrics := metrics.(accepted := metrics.accepted + 1);
      ghost var count := ForwardLoop(ingress, m, now);
      hide Offered, FanOut;
      OfferedAll(p, links, ingress, m, now, count);
    }

    method Ingest(ingress: LinkId, m: NativeMessage, now: nat) returns (ok: bool)
      modifies this
      ensures Model() == Proxies.Ingest(old(Model()), ingress, m, now).proxy
      ensures ok == Proxies.Ingest(old(Model()), ingress, m, now).ok
    {
      hide FanOut, MetaOf, DecodeState, StreamKey, Follows, Newer, KnownType, StateType;
      if ingress !in links || |m.payload| > MAX_PAYLOAD_BYTES || !KnownType(m.header.typ)
         || m.header.source != links[ingress].peer || m.header.destination != links[ingress].local {
        metrics := metrics.(rejected := metrics.rejected + 1);
        return false;
      }
      if m.header.typ == POSITION && DecodeState(PositionKind, m.payload).None? {
        metrics := metrics.(rejected := metrics.rejected + 1);
        return false;
      }
      if StateType(m.header.typ) {
        var verdict := CheckChain(m);
        match verdict {
          case Reject =>
            metrics := metrics.(rejected := metrics.rejected + 1);
            return false;
          case Gap(meta) =>
            if |resync| < queueCapacity {
              resync := resync + [ResyncRequest(m.header.typ, meta.source, meta.resource)];
              metrics := metrics.(resyncRequests := metrics.resyncRequests + 1);
            }
            return false;
          case Old =>
            return true;
          case Store =>
            cache := cache[StreamKey(m) := m];
            metrics := metrics.(cacheUpdates := metrics.cacheUpdates + 1);
        }
      }
      Forward(ingress, m, now);
      ok := true;
    }

    /** ingest's test of a state message against the cached one. */
    method CheckChain(m: NativeMessage) returns (verdict: Verdict)
      requires StateType(m.header.typ)
      requires !(m.header.typ == POSITION && DecodeState(PositionKind, m.payload).None?)
      ensures verdict == Judge(cache, m) && !verdict.Relay?
    {
      hide MetaOf, DecodeState, StreamKey, Follows, Newer, StateType;
      var key := StreamKey(m);
      if key !in cache {
        return Store;
      }
      var prev, meta := MetaOf(cache[key]), MetaOf(m);
      if prev.None? || meta.None? {
        return Reject;
      }
      if !Follows(meta.value, prev.value) {
        return Gap(meta.value);
      }
      if !Newer(meta.value, prev.value) {
        return Old;
      }
      return Store;
    }

    method Next(id: LinkId, now: nat) returns (message: Option<NativeMessage>)
      modifies this
      ensures Model() == Proxies.Next(old(Model()), id, now).proxy
      ensures message == Proxies.Next(old(Model()), id, now).message
    {
      hide Pop;
      if id !in links {
        return None;
      }
      var o := Pop(links[id].queue, now);
      links := links[id := links[id].(queue := o.queue)];
      message := o.message;
    }

    method NextResync() returns (request: Option<ResyncRequest>)
      modifies this
      ensures Model() == Proxies.NextResync(old(Model())).proxy
      ensures request == Proxies.NextResync(old(Model())).request
    {
      if resync == [] {
        return None;
      }
      request := Some(resync[0]);
      resync := resync[1..];
    }

    /** Any cached message of a type, if there is one. */
    method FindCached(typ: bv8) returns (message: Option<NativeMessage>)
      ensures message.Some? ==> exists k :: k in cache && cache[k] == message.value && message.value.header.typ == typ
      ensures message.None? ==> forall k :: k in cache ==> cache[k].header.typ != typ
    {
      var rest := cache.Keys;
      while rest != {}
        invariant rest <= cache.Keys
        invariant forall k :: k in cache && k !in rest ==> cache[k].header.typ != typ
        decreases |rest|
      {
        var k :| k in rest;
        if cache[k].header.typ == typ {
          return Some(cache[k]);
        }
        rest := rest - {k};
      }
      message := None;
    }
  }
}
