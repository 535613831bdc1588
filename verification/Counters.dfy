// What the statistics count (src/qos.cpp, src/proxy.cpp): each counter of a queue is the
// number of messages to which its event happened, and each counter of the proxy moves
// exactly with its outcome.

module Counters {
  import opened Wire
  import opened Streams
  import opened Queues
  import opened QueueRuns
  import opened QueueLaws
  import opened Proxies
  import opened Subscribers

  predicate Taken(e: Event) {
    e.Accepted?
  }

  predicate HandedOut(e: Event) {
    e.Delivered?
  }

  /** Replaced, evicted, or turned away for want of room. */
  predicate Dropped(e: Event) {
    e.Superseded? || e.Evicted? || e.Full?
  }

  predicate TurnedAway(e: Event) {
    e.CriticalFull?
  }

  /** Too late, at either end. */
  predicate Late(e: Event) {
    e.Stale? || e.Expired?
  }

  ghost predicate Counts(c: Metrics, log: seq<Event>) {
    && c.enqueued == Count(log, Taken) && c.delivered == Count(log, HandedOut) && c.droppedLatest == Count(log, Dropped)
    && c.rejectedCritical == Count(log, TurnedAway) && c.expired == Count(log, Late)
  }

  lemma CountLast(log: seq<Event>, p: Event -> bool)
    requires log != []
    ensures Count(log, p) == Count(log[..|log| - 1], p) + if p(log[|log| - 1]) then 1 else 0
  {
  }

  lemma {:induction false} LogCounts(capacity: nat, log: seq<Event>)
    ensures Counts(Replay(Empty(capacity), log).metrics, log)
    decreases |log|
  {
    if log != [] {
      var n := |log| - 1;
      LogCounts(capacity, log[..n]);
      CountLast(log, Taken);
      CountLast(log, HandedOut);
      CountLast(log, Dropped);
      CountLast(log, TurnedAway);
      CountLast(log, Late);
      MoveTallies(Replay(Empty(capacity), log[..n]), log[n]);
      hide Count, Relocate, Move, Taken, HandedOut, Dropped, TurnedAway, Late;
    }
  }

  lemma MoveTallies(q: Queue, e: Event)
    ensures var c, d := q.metrics, Move(q, e).metrics;
            && d.enqueued == c.enqueued + (if Taken(e) then 1 else 0)
            && d.delivered == c.delivered + (if HandedOut(e) then 1 else 0)
            && d.droppedLatest == c.droppedLatest + (if Dropped(e) then 1 else 0)
            && d.rejectedCritical == c.rejectedCritical + (if TurnedAway(e) then 1 else 0)
            && d.expired == c.expired + (if Late(e) then 1 else 0)
  {
    hide Relocate;
  }

  /** Over every run, each counter is the number of its own events. */
  lemma QueueCounts(capacity: nat, ops: seq<QueueRuns.Op>)
    ensures var r := Execute(capacity, ops);
            Counts(r.queue.metrics, r.log)
  {
    RunIsReplay(capacity, ops);
    LogCounts(capacity, Execute(capacity, ops).log);
    hide Execute, Replay, Legal, Counts, Valid;
  }

  // ---- the proxy ----

  /** The links that take a message. */
  ghost function Takers(p: Proxy, ingress: LinkId, m: NativeMessage, now: nat): set<LinkId> {
    set id | id in p.links && id != ingress && Subscribed(p.links[id], m)
             && Took(Push(p.links[id].queue, Readdressed(m, id), now))
  }

  lemma TakersAre(p: Proxy, ingress: LinkId, m: NativeMessage, now: nat)
    ensures (set id | id in p.links && Forwards(id, p.links[id], ingress, m, now)) == Takers(p, ingress, m, now)
  {
    hide Push, Took;
  }

  /** One ingested message moves exactly the counters of what became of it. */
  lemma IngestCounts(p: Proxy, ingress: LinkId, m: NativeMessage, now: nat)
    ensures var v, c, d := Judge(p.cache, m), p.metrics, Ingest(p, ingress, m, now).proxy.metrics;
            var passed := Admissible(p, ingress, m) && (v == Store || v == Relay);
            && d.rejected == c.rejected + (if !Admissible(p, ingress, m) || v == Reject then 1 else 0)
            && d.accepted == c.accepted + (if passed then 1 else 0)
            && d.forwarded == c.forwarded + (if passed then |Takers(p, ingress, m, now)| else 0)
            && d.cacheUpdates == c.cacheUpdates + (if passed && v == Store then 1 else 0)
            && d.resyncRequests == c.resyncRequests
                 + (if Admissible(p, ingress, m) && v.Gap? && |p.resync| < p.queueCapacity then 1 else 0)
  {
    AdmitsExactly(p, ingress, m);
    TakersAre(p, ingress, m, now);
    assert StoreIn(p, m).links == p.links;
    hide Admits, Admissible, Judge, Forwards, Offer, Takers, StreamKey;
  }
}
