// A link that loses nothing, seen from outside (src/proxy.cpp): for each stream the
// generation last taken, and nothing else.  It says which messages of a sequence the
// proxy refuses as breaks in the delta chain.

module Ledgers {
  import opened Wire
  import opened Messages
  import opened Requests
  import opened Streams

  /** What the chain test looks at in a message, and the request its refusal provokes. */
  datatype Tag = Tag(key: nat, request: ResyncRequest, serial: nat, base: nat, snapshot: bool)

  function TagOf(m: NativeMessage): Tag {
    match MetaOf(m)
    case None => Tag(StreamKey(m), ResyncRequest(m.header.typ, m.header.source, 0), 0, 0, true)
    case Some(meta) =>
      Tag(StreamKey(m), ResyncRequest(m.header.typ, meta.source, meta.resource),
          Serial(meta), meta.base as nat, meta.snapshot != 0)
  }

  /** Generations held per stream, and the messages refused so far, in order. */
  datatype Reckoning = Reckoning(held: map<nat, nat>, gaps: seq<Tag>)

  predicate Breaks(held: map<nat, nat>, t: Tag) {
    t.key in held && !t.snapshot && t.base != held[t.key]
  }

  function Take(r: Reckoning, t: Tag): Reckoning {
    if Breaks(r.held, t) then r.(gaps := r.gaps + [t])
    else if t.key in r.held && t.serial <= r.held[t.key] then r
    else r.(held := r.held[t.key := t.serial])
  }

  function Reckon(ts: seq<Tag>): Reckoning {
    if ts == [] then Reckoning(map[], []) else Take(Reckon(ts[..|ts| - 1]), ts[|ts| - 1])
  }

  function Tags(ms: seq<NativeMessage>): (ts: seq<Tag>)
    ensures |ts| == |ms|
  {
    seq(|ms|, i requires 0 <= i < |ms| => TagOf(ms[i]))
  }

  lemma ReckonNext(ms: seq<NativeMessage>, n: nat)
    requires n < |ms|
    ensures Reckon(Tags(ms[..n + 1])) == Take(Reckon(Tags(ms[..n])), TagOf(ms[n]))
  {
    hide TagOf, Take;
    var ts := Tags(ms[..n + 1]);
    assert ts[..n] == Tags(ms[..n]) && ts[n] == TagOf(ms[n]);
  }

  lemma ReckonAppend(ms: seq<NativeMessage>, m: NativeMessage)
    ensures Reckon(Tags(ms + [m])) == Take(Reckon(Tags(ms)), TagOf(m))
  {
    hide TagOf, Take;
    var ts := Tags(ms + [m]);
    assert ts[..|ms|] == Tags(ms) && ts[|ms|] == TagOf(m);
  }

  /** Refusals only accumulate. */
  lemma {:induction false} GapsGrow(ms: seq<NativeMessage>, n: nat)
    requires n <= |ms|
    ensures Reckon(Tags(ms[..n])).gaps <= Reckon(Tags(ms)).gaps
    decreases |ms| - n
  {
    if n == |ms| {
      assert ms[..n] == ms;
    } else {
      ReckonNext(ms, n);
      hide Tags, Reckon, TagOf;
      GapsGrow(ms, n + 1);
    }
  }
}
