// The proxy as a value (src/proxy.cpp): links with subscriptions and queues, the
// per-stream cache, and pending resync requests.

module Proxies {
  import opened Wire
  import opened Messages
  import opened Requests
  import opened Streams
  import opened Queues

  const MAX_LINKS := 16
  const MAX_SUBSCRIPTIONS := 64

  datatype LinkId = LinkId(value: bv16)
  datatype TypeByte = TypeByte(value: bv8)

  /** A link's session contributes only its two identifiers, which a rekey keeps. */
  datatype Link = Link(peer: bv16, local: bv16, queue: Queue, subscriptions: map<TypeByte, Subscription>)

  datatype ProxyMetrics = ProxyMetrics(
    accepted: nat,
    rejected: nat,
    forwarded: nat,
    cacheUpdates: nat,
    resyncRequests: nat)

  datatype Proxy = Proxy(
    queueCapacity: nat,
    links: map<LinkId, Link>,
    cache: map<nat, NativeMessage>,
    resync: seq<ResyncRequest>,
    metrics: ProxyMetrics)

  datatype Result = Result(proxy: Proxy, ok: bool, message: Option<NativeMessage>, request: Option<ResyncRequest>)

  function Done(p: Proxy, ok: bool): Result {
    Result(p, ok, None, None)
  }

  function NewProxy(queueCapacity: nat): Proxy {
    Proxy(queueCapacity, map[], map[], [], ProxyMetrics(0, 0, 0, 0, 0))
  }

  // ---- links ----

  function AddLink(p: Proxy, id: LinkId, peer: bv16, local: bv16): Result {
    if id.value == 0 || id in p.links || |p.links| >= MAX_LINKS then Done(p, false)
    else Done(p.(links := p.links[id := Link(peer, local, Empty(p.queueCapacity), map[])]), true)
  }

  function RemoveLink(p: Proxy, id: LinkId): Result {
    if id in p.links then Done(p.(links := p.links - {id}), true) else Done(p, false)
  }

  // ---- subscriptions ----

  function SubscriptionPairs(links: map<LinkId, Link>): set<(LinkId, TypeByte)> {
    set id, t | id in links && t in links[id].subscriptions :: (id, t)
  }

  predicate Subscribable(s: Subscription) {
    s.source != 0 && KnownType(s.typ) && !ControlType(s.typ) && !CommandType(s.typ) && s.qos <= EXPLICIT
  }

  predicate Matches(s: Subscription, m: NativeMessage) {
    m.header.typ == s.typ && m.header.source == s.source
  }

  datatype Fed = Fed(queue: Queue, ok: bool)

  /** Replays matching cache entries into a queue, in the order the cache happens to
      be walked, stopping at the first refusal. */
  function Feed(q: Queue, cache: map<nat, NativeMessage>, order: seq<nat>, s: Subscription): Fed
    decreases |order|
  {
    if order == [] then Fed(q, true)
    else if order[0] in cache && Matches(s, cache[order[0]]) then
      var o := Push(q, cache[order[0]], 0);
      if Took(o) then Feed(o.queue, cache, order[1..], s) else Fed(o.queue, false)
    else Feed(q, cache, order[1..], s)
  }

  /** order lists every key of the cache once. */
  ghost predicate Walks(order: seq<nat>, keys: set<nat>) {
    && (forall k :: k in order <==> k in keys)
    && (forall i, j :: 0 <= i < j < |order| ==> order[i] != order[j])
  }

  predicate CanSubscribe(p: Proxy, id: LinkId, s: Subscription) {
    && id in p.links && Subscribable(s)
    && (TypeByte(s.typ) in p.links[id].subscriptions || |SubscriptionPairs(p.links)| < MAX_SUBSCRIPTIONS)
  }

  function Subscribe(p: Proxy, id: LinkId, s: Subscription, order: seq<nat>): Result {
    if !CanSubscribe(p, id, s) then Done(p, false)
    else
      var link := p.links[id];
      var fed := Feed(link.queue, p.cache, order, s);
      var link' := link.(subscriptions := link.subscriptions[TypeByte(s.typ) := s], queue := fed.queue);
      Done(p.(links := p.links[id := link']), fed.ok)
  }

  function Unsubscribe(p: Proxy, id: LinkId, typ: bv8): Result {
    if id in p.links && TypeByte(typ) in p.links[id].subscriptions then
      var link := p.links[id];
      Done(p.(links := p.links[id := link.(subscriptions := link.subscriptions - {TypeByte(typ)})]), true)
    else Done(p, false)
  }

  // ---- ingest ----

  /** What the cache makes of an admitted message. */
  datatype Verdict = Reject | Gap(meta: StateMeta) | Old | Store | Relay

  predicate Follows(meta: StateMeta, prev: StateMeta) {
    meta.snapshot != 0 || meta.base == prev.generation
  }

  predicate Newer(meta: StateMeta, prev: StateMeta) {
    Serial(meta) > Serial(prev)
  }

  function Judge(cache: map<nat, NativeMessage>, m: NativeMessage): Verdict {
    if m.header.typ == POSITION && DecodeState(PositionKind, m.payload).None? then Reject
    else if !StateType(m.header.typ) then Relay
    else if StreamKey(m) !in cache then Store
    else
      match (MetaOf(cache[StreamKey(m)]), MetaOf(m))
      case (Some(prev), Some(meta)) =>
        if !Follows(meta, prev) then Gap(meta) else if !Newer(meta, prev) then Old else Store
      case _ => Reject
  }

  predicate Admits(p: Proxy, id: LinkId, m: NativeMessage) {
    && id in p.links && |m.payload| <= MAX_PAYLOAD_BYTES && KnownType(m.header.typ)
    && m.header.source == p.links[id].peer && m.header.destination == p.links[id].local
  }

  function Addressed(m: NativeMessage, id: LinkId): NativeMessage {
    m.(header := m.header.(destination := id.value))
  }

  predicate Receives(link: Link, m: NativeMessage) {
    TypeByte(m.header.typ) in link.subscriptions
    && link.subscriptions[TypeByte(m.header.typ)].source == m.header.source
  }

  function Offer(id: LinkId, link: Link, ingress: LinkId, m: NativeMessage, now: nat): Link {
    if id != ingress && Receives(link, m) then link.(queue := Push(link.queue, Addressed(m, id), now).queue) else link
  }

  predicate Forwards(id: LinkId, link: Link, ingress: LinkId, m: NativeMessage, now: nat) {
    id != ingress && Receives(link, m) && Took(Push(link.queue, Addressed(m, id), now))
  }

  function FanOut(p: Proxy, ingress: LinkId, m: NativeMessage, now: nat): Proxy {
    var takers := set id | id in p.links && Forwards(id, p.links[id], ingress, m, now);
    p.(links := map id | id in p.links :: Offer(id, p.links[id], ingress, m, now),
       metrics := p.metrics.(accepted := p.metrics.accepted + 1, forwarded := p.metrics.forwarded + |takers|))
  }

  function StoreIn(p: Proxy, m: NativeMessage): Proxy {
    p.(cache := p.cache[StreamKey(m) := m], metrics := p.metrics.(cacheUpdates := p.metrics.cacheUpdates + 1))
  }

  function RejectIn(p: Proxy): Proxy {
    p.(metrics := p.metrics.(rejected := p.metrics.rejected + 1))
  }

  function RequestOf(m: NativeMessage, meta: StateMeta): ResyncRequest {
    ResyncRequest(m.header.typ, meta.source, meta.resource)
  }

  function GapIn(p: Proxy, r: ResyncRequest): Proxy {
    if |p.resync| < p.queueCapacity then
      p.(resync := p.resync + [r], metrics := p.metrics.(resyncRequests := p.metrics.resyncRequests + 1))
    else p
  }

  function Ingest(p: Proxy, ingress: LinkId, m: NativeMessage, now: nat): Result {
    if !Admits(p, ingress, m) then Done(RejectIn(p), false)
    else
      match Judge(p.cache, m)
      case Reject => Done(RejectIn(p), false)
      case Gap(meta) => Done(GapIn(p, RequestOf(m, meta)), false)
      case Old => Done(p, true)
      case Store => Done(FanOut(StoreIn(p, m), ingress, m, now), true)
      case Relay => Done(FanOut(p, ingress, m, now), true)
  }

  // ---- egress ----

  function Next(p: Proxy, id: LinkId, now: nat): Result {
    if id !in p.links then Done(p, false)
    else
      var o := Pop(p.links[id].queue, now);
      Result(p.(links := p.links[id := p.links[id].(queue := o.queue)]), o.message.Some?, o.message, None)
  }

  function NextResync(p: Proxy): Result {
    if p.resync == [] then Done(p, false)
    else Result(p.(resync := p.resync[1..]), true, None, Some(p.resync[0]))
  }

  // ---- runs ----

  datatype Op =
    | AddLinkOp(id: LinkId, peer: bv16, local: bv16)
    | RemoveLinkOp(id: LinkId)
    | SubscribeOp(id: LinkId, sub: Subscription, order: seq<nat>)
    | UnsubscribeOp(id: LinkId, typ: bv8)
    | IngestOp(id: LinkId, rec: NativeMessage, now: nat)
    | NextOp(id: LinkId, now: nat)
    | NextResyncOp

  function Step(p: Proxy, op: Op): Result {
    match op
    case AddLinkOp(id, peer, local) => AddLink(p, id, peer, local)
    case RemoveLinkOp(id) => RemoveLink(p, id)
    case SubscribeOp(id, s, order) => Subscribe(p, id, s, order)
    case UnsubscribeOp(id, typ) => Unsubscribe(p, id, typ)
    case IngestOp(id, rec, now) => Ingest(p, id, rec, now)
    case NextOp(id, now) => Next(p, id, now)
    case NextResyncOp => NextResync(p)
  }
}
