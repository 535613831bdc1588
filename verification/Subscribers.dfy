// Who is sent what (src/proxy.cpp): the effect of an ingested message on every link, and
// what a subscriber then takes out of the proxy.

module Subscribers {
  import opened Wire
  import opened Messages
  import opened Requests
  import opened Streams
  import opened Queues
  import opened QueueRuns
  import opened Proxies
  import opened ProxyViews
  import opened Qualities

  /** The link has a subscription for the message's type, to the message's source. */
  predicate Subscribed(link: Link, m: NativeMessage) {
    && TypeByte(m.header.typ) in link.subscriptions
    && link.subscriptions[TypeByte(m.header.typ)].source == m.header.source
  }

  /** The message with the link's own identifier as its destination. */
  function Readdressed(m: NativeMessage, id: LinkId): NativeMessage {
    NativeMessage(RecordHeader(m.header.version, m.header.flags, m.header.typ, m.header.qos, m.header.source, id.value,
                               m.header.sessionId, m.header.epoch, m.header.sequence, m.header.payloadLen,
                               m.header.deadline, m.header.crc), m.payload)
  }

  /** It comes in on a link whose session it names, is of a type in use and fits a record. */
  predicate Admissible(p: Proxy, ingress: LinkId, m: NativeMessage) {
    && ingress in p.links && |m.payload| <= 768
    && m.header.source == p.links[ingress].peer && m.header.destination == p.links[ingress].local
    && InUse(m.header.typ)
  }

  /** The message types of the wire contract. */
  predicate InUse(t: bv8) {
    || t == 1 || t == 2 || t == 3 || t == 4 || t == 5 || t == 6
    || t == 16 || t == 17 || t == 18 || t == 19 || t == 20 || t == 21 || t == 22 || t == 23 || t == 24
    || t == 48 || t == 49 || t == 50 || t == 64 || t == 65 || t == 66
  }

  lemma TypesInUse(t: bv8)
    ensures KnownType(t) <==> InUse(t)
  {
  }

  lemma AdmitsExactly(p: Proxy, ingress: LinkId, m: NativeMessage)
    ensures Admits(p, ingress, m) <==> Admissible(p, ingress, m)
  {
    TypesInUse(m.header.typ);
    hide KnownType, InUse;
  }

  lemma OfferExactly(id: LinkId, link: Link, ingress: LinkId, m: NativeMessage, now: nat)
    ensures Offer(id, link, ingress, m, now) ==
            if id != ingress && Subscribed(link, m) then link.(queue := Push(link.queue, Readdressed(m, id), now).queue)
            else link
  {
    hide Push;
  }

  lemma IngestLinks(p: Proxy, ingress: LinkId, m: NativeMessage, now: nat)
    ensures var p' := Ingest(p, ingress, m, now).proxy;
            if Admits(p, ingress, m) && (Judge(p.cache, m) == Store || Judge(p.cache, m) == Relay) then
              p'.links == map id | id in p.links :: Offer(id, p.links[id], ingress, m, now)
            else p'.links == p.links
  {
    hide Judge, Admits, Offer, Forwards, StreamKey;
  }

  /** Every link but the one it came from is sent a message that is stored or relayed,
      addressed to it, exactly if it subscribes to the message's type and source;
      nothing else changes on any link, and any other message changes no link. */
  lemma SentToSubscribers(p: Proxy, ingress: LinkId, m: NativeMessage, now: nat, id: LinkId)
    requires id in p.links
    ensures var link, p' := p.links[id], Ingest(p, ingress, m, now).proxy;
            && id in p'.links
            && p'.links[id] ==
                 if Admissible(p, ingress, m) && (Judge(p.cache, m) == Store || Judge(p.cache, m) == Relay)
                    && id != ingress && Subscribed(link, m)
                 then link.(queue := Push(link.queue, Readdressed(m, id), now).queue)
                 else link
  {
    AdmitsExactly(p, ingress, m);
    IngestLinks(p, ingress, m, now);
    OfferExactly(id, p.links[id], ingress, m, now);
    hide Admits, Admissible, Judge, Offer, Ingest, Push, Subscribed, Readdressed;
  }

  /** What an idle subscriber is sent it then takes out, if it is still live. */
  lemma SubscriberTakesIt(p: Proxy, ingress: LinkId, m: NativeMessage, now: nat, id: LinkId)
    requires id in p.links && id != ingress && Subscribed(p.links[id], m)
    requires Admissible(p, ingress, m) && (Judge(p.cache, m) == Store || Judge(p.cache, m) == Relay)
    requires p.links[id].queue.critical == [] && p.links[id].queue.events == [] && p.links[id].queue.state == map[]
    requires p.links[id].queue.capacity >= 1 && Live(m, now)
    ensures Next(Ingest(p, ingress, m, now).proxy, id, now).message == Some(Readdressed(m, id))
  {
    var q, r := p.links[id].queue, Readdressed(m, id);
    SentToSubscribers(p, ingress, m, now, id);
    assert Live(r, now) && |r.payload| <= 768;
    IdleTakes(q, r, now);
    hide Admissible, Judge, Ingest, Push, Pop, Subscribed, Readdressed, Live;
  }

  lemma IdleTakes(q: Queue, m: NativeMessage, now: nat)
    requires q.critical == [] && q.events == [] && q.state == map[] && q.capacity >= 1
    requires Live(m, now) && |m.payload| <= 768
    ensures Pop(Push(q, m, now).queue, now).message == Some(m)
  {
    Codes(m, now);
    RoomForIt(q, m, now);
    StateIsNotCritical(m);
    var r := Push(q, m, now).queue;
    assert [] + [m] == [m] && map[][StreamKey(m) := m] == map[StreamKey(m) := m];
    hide Push, Pop, ExpiredAt, Live, StreamKey;
    OnlyOne(r, m);
    PopRefinesFlatList(r, now);
    FirstLiveCons(m, [], now);
    assert [m] + [] == [m];
    hide Flat, FirstLive, Reliable, Latest;
  }

  // ---- who may subscribe, and how many ----

  /** Telemetry, events and manifests can be subscribed to; control and commands cannot. */
  predicate Telemetry(t: bv8) {
    || t == 16 || t == 17 || t == 18 || t == 19 || t == 20 || t == 21 || t == 22 || t == 23 || t == 24
    || t == 64 || t == 65 || t == 66
  }

  lemma SubscribableExactly(s: Subscription)
    ensures Subscribable(s) <==> s.source != 0 && Telemetry(s.typ) && s.qos <= 5
  {
  }

  /** Every (link, type) pair with a subscription. */
  ghost function Pairs(p: Proxy): set<(LinkId, TypeByte)> {
    set id, t | id in p.links && t in p.links[id].subscriptions :: (id, t)
  }

  lemma PairsAre(p: Proxy)
    ensures SubscriptionPairs(p.links) == Pairs(p)
  {
  }

  /** At most sixteen links and sixty-four subscriptions in all. */
  ghost predicate WithinLimits(p: Proxy) {
    |p.links| <= 16 && |Pairs(p)| <= 64
  }

  lemma FewerPairs(p: Proxy, p': Proxy)
    requires WithinLimits(p) && |p'.links| <= 16 && Pairs(p') <= Pairs(p)
    ensures WithinLimits(p')
  {
    hide Pairs;
    assert Pairs(p) == Pairs(p') + (Pairs(p) - Pairs(p'));
  }

  lemma AddedLink(p: Proxy, id: LinkId, peer: bv16, local: bv16)
    requires WithinLimits(p)
    ensures WithinLimits(AddLink(p, id, peer, local).proxy)
    ensures AddLink(p, id, peer, local).ok <==> id.value != 0 && id !in p.links && |p.links| < 16
  {
    if AddLink(p, id, peer, local).ok {
      NewLinkPairs(p, id, peer, local);
      hide Pairs, WithinLimits, AddLink;
      FewerPairs(p, AddLink(p, id, peer, local).proxy);
    }
  }

  lemma NewLinkPairs(p: Proxy, id: LinkId, peer: bv16, local: bv16)
    requires AddLink(p, id, peer, local).ok
    ensures var p' := AddLink(p, id, peer, local).proxy;
            |p'.links| == |p.links| + 1 <= 16 && Pairs(p') <= Pairs(p)
  {
    var p' := AddLink(p, id, peer, local).proxy;
    assert p'.links.Keys == p.links.Keys + {id};
    assert |p'.links.Keys| == |p.links.Keys| + 1;
  }

  lemma RemovedLink(p: Proxy, id: LinkId)
    requires WithinLimits(p)
    ensures WithinLimits(RemoveLink(p, id).proxy)
  {
    var p' := RemoveLink(p, id).proxy;
    if id in p.links {
      assert p'.links.Keys == p.links.Keys - {id};
      assert |p'.links.Keys| == |p.links.Keys| - 1;
      assert Pairs(p') <= Pairs(p);
      FewerPairs(p, p');
    }
  }

  lemma Unsubscribed(p: Proxy, id: LinkId, typ: bv8)
    requires WithinLimits(p)
    ensures WithinLimits(Unsubscribe(p, id, typ).proxy)
  {
    var p' := Unsubscribe(p, id, typ).proxy;
    if p' != p {
      assert p'.links.Keys == p.links.Keys + {id} == p.links.Keys;
      assert |p'.links.Keys| == |p.links.Keys|;
      assert Pairs(p') <= Pairs(p);
      FewerPairs(p, p');
    }
  }

  lemma SubscribedPairs(p: Proxy, id: LinkId, s: Subscription, order: seq<nat>)
    requires CanSubscribe(p, id, s)
    ensures Pairs(Subscribe(p, id, s, order).proxy) == Pairs(p) + {(id, TypeByte(s.typ))}
    ensures |Subscribe(p, id, s, order).proxy.links| == |p.links|
  {
    var p' := Subscribe(p, id, s, order).proxy;
    assert p'.links.Keys == p.links.Keys + {id} == p.links.Keys;
    assert |p'.links.Keys| == |p.links.Keys|;
    hide Feed, SubscriptionPairs, Subscribable;
  }

  lemma SubscribeBounded(p: Proxy, id: LinkId, s: Subscription, order: seq<nat>)
    requires WithinLimits(p)
    ensures WithinLimits(Subscribe(p, id, s, order).proxy)
  {
    if CanSubscribe(p, id, s) {
      PairsAre(p);
      SubscribedPairs(p, id, s, order);
      var pair := (id, TypeByte(s.typ));
      if TypeByte(s.typ) in p.links[id].subscriptions {
        assert pair in Pairs(p);
        assert Pairs(p) + {pair} == Pairs(p);
      }
      hide Pairs, Subscribe, Subscribable, SubscriptionPairs;
    }
  }

  lemma SameSubscriptions(p: Proxy, p': Proxy)
    requires WithinLimits(p) && p'.links.Keys == p.links.Keys
    requires forall id :: id in p.links ==> p'.links[id].subscriptions == p.links[id].subscriptions
    ensures WithinLimits(p')
  {
    assert |p'.links| == |p'.links.Keys| == |p.links.Keys| == |p.links|;
    assert Pairs(p') == Pairs(p);
  }

  lemma IngestBounded(p: Proxy, ingress: LinkId, m: NativeMessage, now: nat)
    requires WithinLimits(p)
    ensures WithinLimits(Ingest(p, ingress, m, now).proxy)
  {
    IngestLinks(p, ingress, m, now);
    hide WithinLimits, Ingest, Judge, Admits, Push, Receives;
    SameSubscriptions(p, Ingest(p, ingress, m, now).proxy);
  }

  lemma NextBounded(p: Proxy, id: LinkId, now: nat)
    requires WithinLimits(p)
    ensures WithinLimits(Next(p, id, now).proxy)
  {
    hide WithinLimits, Pop;
    var p' := Next(p, id, now).proxy;
    assert p'.links.Keys == p.links.Keys;
    SameSubscriptions(p, p');
  }

  lemma StepBounded(p: Proxy, op: Proxies.Op)
    requires WithinLimits(p)
    ensures WithinLimits(Step(p, op).proxy)
  {
    hide WithinLimits, Ingest, Subscribe, Next, AddLink, RemoveLink, Unsubscribe;
    match op {
      case AddLinkOp(id, peer, local) => AddedLink(p, id, peer, local);
      case RemoveLinkOp(id) => RemovedLink(p, id);
      case SubscribeOp(id, s, order) => SubscribeBounded(p, id, s, order);
      case UnsubscribeOp(id, typ) => Unsubscribed(p, id, typ);
      case IngestOp(id, rec, now) => IngestBounded(p, id, rec, now);
      case NextOp(id, now) => NextBounded(p, id, now);
      case NextResyncOp => SameSubscriptions(p, Step(p, op).proxy);
    }
  }

  /** Over every run the proxy has at most sixteen links and sixty-four subscriptions. */
  lemma {:induction false} RunBounded(capacity: nat, ops: seq<Proxies.Op>)
    ensures WithinLimits(RunProxy(capacity, ops).proxy)
    decreases |ops|
  {
    if ops == [] {
      assert Pairs(NewProxy(capacity)) == {};
    } else {
      var n := |ops| - 1;
      RunBounded(capacity, ops[..n]);
      assert RunProxy(capacity, ops).proxy == Step(RunProxy(capacity, ops[..n]).proxy, ops[n]).proxy;
      hide WithinLimits, RunProxy, Step;
      StepBounded(RunProxy(capacity, ops[..n]).proxy, ops[n]);
    }
  }

  /** Exactly when a subscription is taken on: an existing link, a nonzero source, a type
      that may be subscribed to, a defined quality, and room - unless it replaces one. */
  lemma SubscriptionTakenIff(p: Proxy, id: LinkId, s: Subscription)
    ensures CanSubscribe(p, id, s) <==>
            && id in p.links && s.source != 0 && Telemetry(s.typ) && s.qos <= 5
            && (TypeByte(s.typ) in p.links[id].subscriptions || |Pairs(p)| < 64)
  {
    SubscribableExactly(s);
    PairsAre(p);
    hide Subscribable, Telemetry, SubscriptionPairs, Pairs;
  }

  // ---- from an empty proxy to a delivered message ----

  /** Two links, a subscription on the second, a message on the first: the second takes it
      out, addressed to it. */
  lemma SubscribeThenReceive(capacity: nat, one: LinkId, two: LinkId, peer: bv16, local: bv16, peer2: bv16, local2: bv16,
                             s: Subscription, m: NativeMessage, now: nat)
    requires capacity >= 1 && one.value != 0 && two.value != 0 && one != two
    requires s.source != 0 && Telemetry(s.typ) && s.qos <= 5
    requires m.header.typ == s.typ && m.header.source == s.source == peer && m.header.destination == local
    requires |m.payload| <= 768 && Live(m, now)
    requires m.header.typ == 18 ==> DecodeState(PositionKind, m.payload).Some?
    ensures var p := AddLink(AddLink(NewProxy(capacity), one, peer, local).proxy, two, peer2, local2).proxy;
            var r := Subscribe(p, two, s, []);
            r.ok && Next(Ingest(r.proxy, one, m, now).proxy, two, now).message == Some(Readdressed(m, two))
  {
    var p1 := AddLink(NewProxy(capacity), one, peer, local).proxy;
    var p := AddLink(p1, two, peer2, local2).proxy;
    assert p.links == map[one := Link(peer, local, Empty(capacity), map[]), two := Link(peer2, local2, Empty(capacity), map[])];
    assert Pairs(p) == {} && p.cache == map[];
    SubscriptionTakenIff(p, two, s);
    hide Pairs, CanSubscribe, AddLink;
    var r := Subscribe(p, two, s, []).proxy;
    assert r.links[one] == p.links[one] && r.cache == map[];
    assert r.links[two] == Link(peer2, local2, Empty(capacity), map[TypeByte(s.typ) := s]);
    FreshVerdict(m);
    TelemetryInUse(m.header.typ);
    hide Subscribe, Judge, InUse, Telemetry, Live, DecodeState;
    SubscriberTakesIt(r, one, m, now, two);
  }

  lemma TelemetryInUse(t: bv8)
    requires Telemetry(t)
    ensures InUse(t)
  {
  }

  /** An empty cache refuses nothing but a position that does not decode. */
  lemma FreshVerdict(m: NativeMessage)
    requires m.header.typ == 18 ==> DecodeState(PositionKind, m.payload).Some?
    ensures Judge(map[], m) == Store || Judge(map[], m) == Relay
  {
    hide DecodeState, StateType, StreamKey;
  }

  // ---- what is refused, and what leaves ----

  /** A position that does not decode is rejected: cache, links and requests stay. */
  lemma MalformedPositionRefused(p: Proxy, ingress: LinkId, m: NativeMessage, now: nat)
    requires m.header.typ == 18 && DecodeState(PositionKind, m.payload).None?
    ensures var r := Ingest(p, ingress, m, now);
            !r.ok && r.proxy == p.(metrics := p.metrics.(rejected := p.metrics.rejected + 1))
  {
    hide DecodeState, Admits;
  }

  /** A stream whose entry, or whose new message, has no readable metadata is stuck: the
      message is rejected and the entry stays. */
  lemma UnreadableRefused(p: Proxy, ingress: LinkId, m: NativeMessage, now: nat)
    requires StateType(m.header.typ) && StreamKey(m) in p.cache
    requires MetaOf(m).None? || MetaOf(p.cache[StreamKey(m)]).None?
    ensures var r := Ingest(p, ingress, m, now);
            !r.ok && r.proxy == p.(metrics := p.metrics.(rejected := p.metrics.rejected + 1))
  {
    hide DecodeState, Admits, StreamKey, MetaOf, StateType;
  }

  /** Requests leave in the order they came. */
  lemma RequestsAreFifo(p: Proxy, r: ResyncRequest, rest: seq<ResyncRequest>)
    requires p.resync == [r] + rest
    ensures NextResync(p).request == Some(r) && NextResync(p).ok && NextResync(p).proxy == p.(resync := rest)
  {
  }

  /** After unsubscribing a link is not sent the type any more; its queue, its other
      subscriptions and the other links are untouched. */
  lemma UnsubscribedIsNotSent(p: Proxy, id: LinkId, typ: bv8, m: NativeMessage)
    requires id in p.links && m.header.typ == typ
    ensures var r := Unsubscribe(p, id, typ);
            && id in r.proxy.links && !Subscribed(r.proxy.links[id], m)
            && r.proxy.links[id].queue == p.links[id].queue
            && r.proxy.links[id].subscriptions == p.links[id].subscriptions - {TypeByte(typ)}
            && (r.ok <==> TypeByte(typ) in p.links[id].subscriptions)
            && (forall j :: j in p.links && j != id ==> j in r.proxy.links && r.proxy.links[j] == p.links[j])
  {
  }

  /** A removed link is gone and the others stay; only a present link can be removed. */
  lemma RemovedIsGone(p: Proxy, id: LinkId)
    ensures var r := RemoveLink(p, id);
            && id !in r.proxy.links && (r.ok <==> id in p.links) && r.proxy.cache == p.cache
            && (forall j :: j in p.links && j != id ==> j in r.proxy.links && r.proxy.links[j] == p.links[j])
  {
  }
}
