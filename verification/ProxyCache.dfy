// The proxy's cache over every run (src/proxy.cpp): each replacement extends the
// delta chain, and a successful subscribe leaves the link holding the cache.

module ProxyCache {
  import opened Wire
  import opened Messages
  import opened Requests
  import opened Streams
  import opened Queues
  import opened QueueRuns
  import opened QueueLaws
  import opened Proxies
  import opened ProxyViews

  // ---- the delta chain ----

  /** b may replace a: strictly newer, and a snapshot or a delta on exactly a. */
  ghost predicate Extends(a: NativeMessage, b: NativeMessage) {
    && MetaOf(a).Some? && MetaOf(b).Some?
    && MetaOf(a).value.generation as nat < MetaOf(b).value.generation as nat
    && (MetaOf(b).value.snapshot != 0 || MetaOf(b).value.base == MetaOf(a).value.generation)
  }

  lemma JudgedExtends(cache: map<nat, NativeMessage>, m: NativeMessage)
    requires Judge(cache, m) == Store && StreamKey(m) in cache
    ensures Extends(cache[StreamKey(m)], m)
  {
    hide StreamKey, MetaOf;
  }

  lemma IngestCaches(p: Proxy, ingress: LinkId, m: NativeMessage, now: nat)
    ensures var p' := Proxies.Ingest(p, ingress, m, now).proxy;
            || p'.cache == p.cache
            || (Judge(p.cache, m) == Store && p'.cache == p.cache[StreamKey(m) := m])
  {
    hide StreamKey, Judge, Offer, Forwards, Admits;
  }

  /** What any step may do to one stream's cache entry. */
  lemma CacheStep(p: Proxy, op: Proxies.Op, k: nat)
    ensures var p' := Step(p, op).proxy;
            || Cached(p', k) == Cached(p, k)
            || (&& op.IngestOp? && StreamKey(op.rec) == k && Cached(p', k) == Some(op.rec)
                && (k in p.cache ==> Extends(p.cache[k], op.rec)))
  {
    if op.IngestOp? {
      IngestCaches(p, op.id, op.rec, op.now);
      if Judge(p.cache, op.rec) == Store && StreamKey(op.rec) in p.cache {
        JudgedExtends(p.cache, op.rec);
      }
      hide StreamKey, Judge, Extends, Proxies.Ingest;
    } else {
      OtherOpsKeepCache(p, op);
      hide Step;
    }
  }

  /** The successive messages cached for stream k during a run. */
  function Versions(capacity: nat, ops: seq<Proxies.Op>, k: nat): seq<NativeMessage> {
    if ops == [] then []
    else
      var earlier := Versions(capacity, ops[..|ops| - 1], k);
      var before := Cached(RunProxy(capacity, ops[..|ops| - 1]).proxy, k);
      var after := Cached(RunProxy(capacity, ops).proxy, k);
      if after.Some? && after != before then earlier + [after.value] else earlier
  }

  /** Gap-free chain: over every run, each message cached for a stream extends the one
      it replaced, the last of them is what is cached, and nothing is ever uncached. */
  lemma {:induction false} GapFreeChain(capacity: nat, ops: seq<Proxies.Op>, k: nat)
    ensures var v := Versions(capacity, ops, k);
            && Cached(RunProxy(capacity, ops).proxy, k) == (if v == [] then None else Some(v[|v| - 1]))
            && (forall i :: 0 < i < |v| ==> Extends(v[i - 1], v[i]))
    decreases |ops|
  {
    if ops != [] {
      var n := |ops| - 1;
      GapFreeChain(capacity, ops[..n], k);
      CacheStep(RunProxy(capacity, ops[..n]).proxy, ops[n], k);
      assert RunProxy(capacity, ops).proxy == Step(RunProxy(capacity, ops[..n]).proxy, ops[n]).proxy;
      hide Extends, Step, StreamKey, RunProxy, Cached;
    }
  }

  /** Over every run, any earlier version of a stream is strictly older than any later
      one. */
  lemma {:induction false} VersionsAscend(capacity: nat, ops: seq<Proxies.Op>, k: nat, i: nat, j: nat)
    requires i < j < |Versions(capacity, ops, k)|
    ensures var v := Versions(capacity, ops, k);
            && MetaOf(v[i]).Some? && MetaOf(v[j]).Some?
            && MetaOf(v[i]).value.generation as nat < MetaOf(v[j]).value.generation as nat
    decreases j
  {
    GapFreeChain(capacity, ops, k);
    var v := Versions(capacity, ops, k);
    assert Extends(v[j - 1], v[j]);
    if i < j - 1 {
      VersionsAscend(capacity, ops, k, i, j - 1);
    }
    hide MetaOf, Versions;
  }

  // ---- subscribing ----

  lemma PushOtherStream(q: Queue, m: NativeMessage, now: nat, j: nat)
    requires IsState(m) ==> StreamKey(m) != j
    ensures Queued(Push(q, m, now).queue, j) == Queued(q, j)
  {
    hide StreamKey, IsState, IsCritical, ExpiredAt, Size, Tally;
  }

  lemma PushOwnStream(q: Queue, m: NativeMessage, now: nat)
    requires IsState(m) && Took(Push(q, m, now))
    ensures Queued(Push(q, m, now).queue, StreamKey(m)) == Some(m)
  {
    hide StreamKey, IsState, IsCritical, ExpiredAt, Size, Tally;
  }

  /** The entry a walk over these keys delivers for stream j, if any. */
  ghost predicate Replays(cache: map<nat, NativeMessage>, order: seq<nat>, s: Subscription, j: nat) {
    j in order && j in cache && Matches(s, cache[j]) && IsState(cache[j])
  }

  lemma {:induction false} FeedAgrees(q: Queue, cache: map<nat, NativeMessage>, order: seq<nat>, s: Subscription, j: nat)
    requires KeyedBy(cache) && Feed(q, cache, order, s).ok
    ensures Queued(Feed(q, cache, order, s).queue, j) ==
            if Replays(cache, order, s, j) then Some(cache[j]) else Queued(q, j)
    decreases |order|
  {
    if order != [] {
      var i := order[0];
      assert order == [i] + order[1..];
      if i in cache && Matches(s, cache[i]) {
        var m := cache[i];
        assert StreamKey(m) == i;
        var q' := Push(q, m, 0).queue;
        hide Push, Queued, Matches, IsState, StreamKey, KeyedBy, Took;
        FeedAgrees(q', cache, order[1..], s, j);
        if IsState(m) && i == j {
          PushOwnStream(q, m, 0);
        } else {
          PushOtherStream(q, m, 0, j);
        }
      } else {
        FeedAgrees(q, cache, order[1..], s, j);
      }
    }
  }

  /** When subscribe succeeds, the link's queue holds, for every cached latest-wins
      stream of that type and header source, exactly the cached message, and every
      other stream's entry is untouched - whatever the cache's iteration order and
      whatever was evicted on the way. */
  lemma SubscribeAgreesWithCache(p: Proxy, id: LinkId, s: Subscription, order: seq<nat>, j: nat)
    requires KeyedBy(p.cache) && Walks(order, p.cache.Keys)
    requires Subscribe(p, id, s, order).ok
    ensures var p' := Subscribe(p, id, s, order).proxy;
            && id in p.links && id in p'.links
            && p'.links[id].subscriptions == p.links[id].subscriptions[TypeByte(s.typ) := s]
            && Waiting(p', id, j) ==
                 (if j in p.cache && Matches(s, p.cache[j]) && IsState(p.cache[j]) then Some(p.cache[j])
                  else Waiting(p, id, j))
  {
    hide Feed, Queued, Matches, IsState, KeyedBy, SubscriptionPairs, Subscribable;
    FeedAgrees(p.links[id].queue, p.cache, order, s, j);
  }

  ghost function MatchIn(cache: map<nat, NativeMessage>, order: seq<nat>, s: Subscription): set<nat> {
    set j | j in order && j in cache && Matches(s, cache[j])
  }

  /** The cached streams a subscription asks for. */
  ghost function Wanted(cache: map<nat, NativeMessage>, s: Subscription): set<nat> {
    set j | j in cache && Matches(s, cache[j])
  }

  /** The cached messages a subscription asks for are latest-wins and fit a record. */
  ghost predicate Replayable(cache: map<nat, NativeMessage>, s: Subscription) {
    forall j :: j in cache && Matches(s, cache[j]) ==> IsState(cache[j]) && |cache[j].payload| <= MAX_PAYLOAD_BYTES
  }

  lemma NeverExpiredAtZero(m: NativeMessage)
    ensures !ExpiredAt(m, 0)
  {
  }

  /** Pushing a state message succeeds unless reliable and state entries fill the queue. */
  lemma StatePushRoom(q: Queue, m: NativeMessage)
    requires Size(q) <= q.capacity && IsState(m) && |m.payload| <= MAX_PAYLOAD_BYTES
    ensures var o := Push(q, m, 0);
            && (Took(o) <==> StreamKey(m) in q.state || |q.critical| + |q.state| < q.capacity)
            && (Took(o) ==> o.queue.state.Keys == q.state.Keys + {StreamKey(m)})
            && o.queue.critical == q.critical && o.queue.capacity == q.capacity
  {
    NeverExpiredAtZero(m);
    hide StreamKey, IsState, IsCritical, ExpiredAt, Tally;
    if StreamKey(m) in q.state {
      assert |q.state.Keys| > 0;
    }
    if q.capacity > 0 {
      hide PushState;
      assert Push(q, m, 0) == PushState(q, m, StreamKey(m));
      PushStateRoom(q, m, StreamKey(m));
    }
  }

  lemma PushStateRoom(q: Queue, m: NativeMessage, k: nat)
    requires Size(q) <= q.capacity
    ensures var o := PushState(q, m, k);
            && (Took(o) <==> k in q.state || |q.critical| + |q.state| < q.capacity)
            && (Took(o) ==> o.queue.state.Keys == q.state.Keys + {k})
            && o.queue.critical == q.critical && o.queue.capacity == q.capacity
  {
    hide Tally;
  }

  lemma {:induction false} FeedRoom(q: Queue, cache: map<nat, NativeMessage>, order: seq<nat>, s: Subscription)
    requires Valid(q) && KeyedBy(cache) && Replayable(cache, s)
    ensures Feed(q, cache, order, s).ok <==> Fits(q, MatchIn(cache, order, s))
    decreases |order|
  {
    FeedTurn(q, cache, order, s);
    if order == [] {
      NothingMore(q, cache, s);
      hide Feed, MatchIn, Fits, Valid;
    } else {
      var i, rest := order[0], order[1..];
      assert order == [i] + rest;
      if i in cache && Matches(s, cache[i]) {
        assert StreamKey(cache[i]) == i && IsState(cache[i]) && |cache[i].payload| <= MAX_PAYLOAD_BYTES;
        hide *;
        PushKeepsValid(q, cache[i], 0);
        FeedOneRoom(q, cache[i], i, MatchIn(cache, rest, s));
        MatchCons(cache, i, rest, s);
        FeedRoom(Push(q, cache[i], 0).queue, cache, rest, s);
      } else {
        MatchSkip(cache, i, rest, s);
        hide *;
        FeedRoom(q, cache, rest, s);
      }
    }
  }

  lemma NothingMore(q: Queue, cache: map<nat, NativeMessage>, s: Subscription)
    requires Valid(q)
    ensures Fits(q, MatchIn(cache, [], s))
  {
    assert q.state.Keys + MatchIn(cache, [], s) == q.state.Keys;
    assert Size(q) <= q.capacity;
  }

  /** One turn of the replay loop. */
  lemma FeedTurn(q: Queue, cache: map<nat, NativeMessage>, order: seq<nat>, s: Subscription)
    ensures order == [] ==> Feed(q, cache, order, s).ok
    ensures order != [] && order[0] in cache && Matches(s, cache[order[0]]) ==>
              var o := Push(q, cache[order[0]], 0);
              Feed(q, cache, order, s).ok <==> Took(o) && Feed(o.queue, cache, order[1..], s).ok
    ensures order != [] && !(order[0] in cache && Matches(s, cache[order[0]])) ==>
              Feed(q, cache, order, s) == Feed(q, cache, order[1..], s)
  {
    hide Push, Took, Matches;
  }

  ghost predicate Fits(q: Queue, more: set<nat>) {
    |q.critical| + |q.state.Keys + more| <= q.capacity
  }

  lemma FeedOneRoom(q: Queue, m: NativeMessage, i: nat, more: set<nat>)
    requires Valid(q) && IsState(m) && StreamKey(m) == i && |m.payload| <= MAX_PAYLOAD_BYTES
    ensures var o := Push(q, m, 0);
            if Took(o) then Fits(o.queue, more) <==> Fits(q, more + {i}) else !Fits(q, more + {i})
  {
    var o := Push(q, m, 0);
    assert Size(q) <= q.capacity;
    hide Push, Took, IsState, StreamKey, Valid, Fits, Size;
    StatePushRoom(q, m);
    if Took(o) {
      FitsAfter(q, o.queue, i, more);
    } else {
      TooMany(q, i, more);
    }
  }

  lemma FitsAfter(q: Queue, q': Queue, i: nat, more: set<nat>)
    requires q'.state.Keys == q.state.Keys + {i} && q'.critical == q.critical && q'.capacity == q.capacity
    ensures Fits(q', more) <==> Fits(q, more + {i})
  {
    assert q'.state.Keys + more == q.state.Keys + (more + {i});
  }

  lemma TooMany(q: Queue, i: nat, more: set<nat>)
    requires i !in q.state && |q.critical| + |q.state| >= q.capacity
    ensures !Fits(q, more + {i})
  {
    MoreThan(q.state.Keys, i, q.state.Keys + (more + {i}));
  }

  lemma MatchSkip(cache: map<nat, NativeMessage>, i: nat, rest: seq<nat>, s: Subscription)
    requires !(i in cache && Matches(s, cache[i]))
    ensures MatchIn(cache, [i] + rest, s) == MatchIn(cache, rest, s)
  {
    hide Matches;
  }

  lemma MatchCons(cache: map<nat, NativeMessage>, i: nat, rest: seq<nat>, s: Subscription)
    requires i in cache && Matches(s, cache[i])
    ensures MatchIn(cache, [i] + rest, s) == MatchIn(cache, rest, s) + {i}
  {
    hide Matches;
  }

  lemma MoreThan(a: set<nat>, i: nat, b: set<nat>)
    requires i !in a && a <= b && i in b
    ensures |b| > |a|
  {
    assert a + {i} <= b;
    SubsetSize(a + {i}, b);
  }

  lemma SubsetSize(a: set<nat>, b: set<nat>)
    requires a <= b
    ensures |a| <= |b|
  {
    assert b == a + (b - a);
  }

  /** An admissible subscribe succeeds exactly when the reliable messages already
      queued, the streams already queued and the streams to replay fit the queue
      together: neither queued events nor the iteration order matter. */
  lemma SubscribeSucceedsIff(p: Proxy, id: LinkId, s: Subscription, order: seq<nat>)
    requires KeyedBy(p.cache) && Walks(order, p.cache.Keys)
    requires CanSubscribe(p, id, s) && Valid(p.links[id].queue) && Replayable(p.cache, s)
    ensures var q := p.links[id].queue;
            Subscribe(p, id, s, order).ok <==>
            |q.critical| + |q.state.Keys + Wanted(p.cache, s)| <= q.capacity
  {
    SubscribeOk(p, id, s, order);
    WalkMatches(p.cache, order, s);
    hide *;
    FeedRoom(p.links[id].queue, p.cache, order, s);
    FitsMeans(p.links[id].queue, MatchIn(p.cache, order, s));
  }

  lemma FitsMeans(q: Queue, more: set<nat>)
    ensures Fits(q, more) <==> |q.critical| + |q.state.Keys + more| <= q.capacity
  {
  }

  lemma SubscribeOk(p: Proxy, id: LinkId, s: Subscription, order: seq<nat>)
    requires CanSubscribe(p, id, s)
    ensures id in p.links && Subscribe(p, id, s, order).ok == Feed(p.links[id].queue, p.cache, order, s).ok
  {
    hide Feed, SubscriptionPairs, Subscribable;
  }

  lemma WalkMatches(cache: map<nat, NativeMessage>, order: seq<nat>, s: Subscription)
    requires Walks(order, cache.Keys)
    ensures MatchIn(cache, order, s) == Wanted(cache, s)
  {
    hide Matches;
  }
}
