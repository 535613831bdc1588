// One initiator and one responder with a shared key, and a network that may alter,
// replay, reorder and drop their messages but cannot make an authenticator
// (src/session.cpp, src/crypto.cpp).

module Agreement {
  import opened Crc16
  import opened Wire
  import opened Crypto
  import opened Handshakes

  /** An accept message the responder authenticated, with the hello it answers. */
  datatype Offer = Offer(hello: Hello, accept: Accept)

  /** The two parties; every input either has authenticated; the responder's offers in
      order; and the accept the initiator took. */
  datatype Pair = Pair(initiator: Initiator, responder: Responder, tagged: set<Bytes>, offers: seq<Offer>, taken: Option<Accept>)

  datatype Op =
    | StartOp(clientNonce: bv64)
    | HelloOp(hello: Hello, serverNonce: bv64)
    | AcceptOp(accept: Accept)
    | FinishOp(finish: Finish)

  function Offered(mac: Mac, r: Responder, h: Hello, serverNonce: bv64): seq<Offer> {
    if r.accepted || !Greets(r, h, serverNonce) then []
    else
      match mac(r.psk, Transcript(h, Proposal(r, h, serverNonce)))
      case None => []
      case Some(tag) => [Offer(h, Proposal(r, h, serverNonce).(authenticator := tag))]
  }

  function PairStep(mac: Mac, prf: Prf, p: Pair, op: Op): Pair {
    match op
    case StartOp(n) => p.(initiator := Start(p.initiator, n).initiator)
    case HelloOp(h, n) => HelloStep(mac, prf, p, h, n)
    case AcceptOp(a) => AcceptStep(mac, prf, p, a)
    case FinishOp(m) => p.(responder := TakeFinish(mac, p.responder, m).responder)
  }

  function HelloStep(mac: Mac, prf: Prf, p: Pair, h: Hello, n: bv64): Pair {
    var offers := Offered(mac, p.responder, h, n);
    p.(responder := TakeHello(mac, prf, p.responder, h, n).responder,
       offers := p.offers + offers,
       tagged := p.tagged + (if offers == [] then {} else {Transcript(offers[0].hello, offers[0].accept)}))
  }

  function AcceptStep(mac: Mac, prf: Prf, p: Pair, a: Accept): Pair {
    var r := TakeAccept(mac, prf, p.initiator, a);
    if r.finish.None? then p.(initiator := r.initiator)
    else
      var f := r.finish.value;
      p.(initiator := r.initiator, taken := Some(a),
         tagged := p.tagged + {FinishInput(f.initiator, f.responder, f.sessionId, f.epoch)})
  }

  /** No forgery: a tag that verifies is on something one of the two authenticated. */
  ghost predicate Unforged(mac: Mac, p: Pair, input: Bytes, tag: Bytes) {
    mac(p.initiator.psk, input) == Some(tag) ==> input in p.tagged
  }

  ghost predicate Allowed(mac: Mac, p: Pair, op: Op) {
    match op
    case AcceptOp(a) => Unforged(mac, p, Transcript(p.initiator.hello, a), a.authenticator)
    case FinishOp(m) => Unforged(mac, p, FinishInput(m.initiator, m.responder, m.sessionId, m.epoch), m.authenticator)
    case _ => true
  }

  function Begin(a: bv16, b: bv16, psk: Key): Pair {
    Pair(NewInitiator(a, b, psk), NewResponder(b, a, psk), {}, [], None)
  }

  function RunPair(mac: Mac, prf: Prf, p: Pair, ops: seq<Op>): Pair {
    if ops == [] then p else PairStep(mac, prf, RunPair(mac, prf, p, ops[..|ops| - 1]), ops[|ops| - 1])
  }

  ghost predicate AllowedRun(mac: Mac, prf: Prf, p: Pair, ops: seq<Op>) {
    ops == [] ||
    (AllowedRun(mac, prf, p, ops[..|ops| - 1]) && Allowed(mac, RunPair(mac, prf, p, ops[..|ops| - 1]), ops[|ops| - 1]))
  }

  // ---- what every step keeps ----

  ghost predicate Matched(p: Pair) {
    && p.initiator.local == p.responder.peer && p.initiator.peer == p.responder.local && p.initiator.psk == p.responder.psk
  }

  function Derived(prf: Prf, p: Pair, a: Accept): Option<KeyPair> {
    DeriveKeys(prf, p.responder.psk, SessionId(a.sessionId, a.epoch), p.responder.peer, p.responder.local)
  }

  /** An offer carries its own tag, and if keys can be derived for it the responder
      settled on it. */
  ghost predicate OfferOk(mac: Mac, prf: Prf, p: Pair, o: Offer) {
    && mac(p.responder.psk, Transcript(o.hello, o.accept)) == Some(o.accept.authenticator)
    && (Derived(prf, p, o.accept).Some? ==>
          && p.responder.accepted && p.responder.hello == o.hello && p.responder.accept == o.accept
          && p.responder.keys == Some(Derived(prf, p, o.accept).value.second))
  }

  /** Where an authenticated input came from: the two kinds differ in length. */
  ghost predicate TagOk(p: Pair, x: Bytes) {
    || (|x| == 52 && exists i :: 0 <= i < |p.offers| && x == Transcript(p.offers[i].hello, p.offers[i].accept))
    || (&& |x| == 20 && p.taken.Some?
        && x == FinishInput(p.initiator.local, p.initiator.peer, p.taken.value.sessionId, p.taken.value.epoch))
  }

  /** What an established initiator knows. */
  ghost predicate InitiatorOk(prf: Prf, p: Pair) {
    && (p.initiator.established <==> p.taken.Some?)
    && (p.taken.Some? ==>
          && p.initiator.started && p.responder.accepted && p.responder.hello == p.initiator.hello && p.responder.accept == p.taken.value
          && Derived(prf, p, p.taken.value).Some?
          && p.initiator.keys == Some(Derived(prf, p, p.taken.value).value.first)
          && p.responder.keys == Some(Derived(prf, p, p.taken.value).value.second))
  }

  ghost predicate ResponderOk(p: Pair) {
    p.responder.established ==> p.responder.accepted && p.initiator.established
  }

  ghost predicate PairOk(mac: Mac, prf: Prf, p: Pair) {
    && Matched(p)
    && (forall i :: 0 <= i < |p.offers| ==> OfferOk(mac, prf, p, p.offers[i]))
    && (forall x :: x in p.tagged ==> TagOk(p, x))
    && InitiatorOk(prf, p) && ResponderOk(p)
  }

  lemma StartOk(mac: Mac, prf: Prf, p: Pair, n: bv64)
    requires PairOk(mac, prf, p)
    ensures PairOk(mac, prf, PairStep(mac, prf, p, StartOp(n)))
  {
    var p' := PairStep(mac, prf, p, StartOp(n));
    hide Transcript, FinishInput, DeriveKeys;
    OffersKept(mac, prf, p, p');
    TagsKept(p, p');
  }

  /** Offers and tags do not look at the initiator's progress. */
  lemma OffersKept(mac: Mac, prf: Prf, p: Pair, p': Pair)
    requires forall i :: 0 <= i < |p.offers| ==> OfferOk(mac, prf, p, p.offers[i])
    requires p'.responder.(established := false) == p.responder.(established := false)
    ensures forall i :: 0 <= i < |p.offers| ==> OfferOk(mac, prf, p', p.offers[i])
  {
    hide Transcript, DeriveKeys;
  }

  lemma TagsKept(p: Pair, p': Pair)
    requires forall x :: x in p.tagged ==> TagOk(p, x)
    requires p.offers <= p'.offers && (p.taken.Some? ==> p'.taken == p.taken)
    requires p'.initiator.local == p.initiator.local && p'.initiator.peer == p.initiator.peer
    ensures forall x :: x in p.tagged ==> TagOk(p', x)
  {
    hide Transcript, FinishInput;
    forall x | x in p.tagged
      ensures TagOk(p', x)
    {
      assert TagOk(p, x);
      if |x| == 52 {
        var i :| 0 <= i < |p.offers| && x == Transcript(p.offers[i].hello, p.offers[i].accept);
        assert p'.offers[i] == p.offers[i];
      }
    }
  }

  // ---- a hello arrives ----

  /** What receive_hello does to the responder, by whether it made an offer. */
  lemma HelloFacts(mac: Mac, prf: Prf, r: Responder, h: Hello, n: bv64)
    ensures var r' := TakeHello(mac, prf, r, h, n).responder;
            var offers := Offered(mac, r, h, n);
            && r'.local == r.local && r'.peer == r.peer && r'.psk == r.psk && r'.established == r.established
            && (r.accepted ==> r' == r && offers == [])
            && (offers == [] || offers == [offers[0]])
            && (offers == [] ==> r'.accepted == r.accepted)
            && (offers != [] ==>
                  && mac(r.psk, Transcript(offers[0].hello, offers[0].accept)) == Some(offers[0].accept.authenticator)
                  && var keys := DeriveKeys(prf, r.psk, SessionId(offers[0].accept.sessionId, offers[0].accept.epoch), r.peer, r.local);
                  && r'.hello == offers[0].hello && r'.accept == offers[0].accept
                  && r'.accepted == keys.Some?
                  && (keys.Some? ==> r'.keys == Some(keys.value.second)))
  {
    if !r.accepted && Greets(r, h, n) {
      var p := Proposal(r, h, n);
      var t := mac(r.psk, Transcript(h, p));
      if t.Some? {
        TagIrrelevant(h, p, t.value);
      }
    }
    hide Transcript, DeriveKeys, Greets, Proposal;
  }

  lemma HelloOk(mac: Mac, prf: Prf, p: Pair, h: Hello, n: bv64)
    requires PairOk(mac, prf, p)
    ensures PairOk(mac, prf, HelloStep(mac, prf, p, h, n))
  {
    HelloFacts(mac, prf, p.responder, h, n);
    var p' := HelloStep(mac, prf, p, h, n);
    hide Transcript, FinishInput, DeriveKeys, TakeHello, Offered;
    TagsKept(p, p');
    if p.responder.accepted {
      OffersKept(mac, prf, p, p');
    } else {
      HelloOffers(mac, prf, p, p', Offered(mac, p.responder, h, n));
      HelloTags(p, p', Offered(mac, p.responder, h, n));
    }
  }

  /** Before the responder settles, no earlier offer can have had keys. */
  lemma HelloOffers(mac: Mac, prf: Prf, p: Pair, p': Pair, offers: seq<Offer>)
    requires !p.responder.accepted
    requires forall i :: 0 <= i < |p.offers| ==> OfferOk(mac, prf, p, p.offers[i])
    requires p'.responder.psk == p.responder.psk && p'.responder.peer == p.responder.peer
    requires p'.responder.local == p.responder.local && p'.offers == p.offers + offers
    requires offers == [] || (offers == [offers[0]] && OfferOk(mac, prf, p', offers[0]))
    ensures forall i :: 0 <= i < |p'.offers| ==> OfferOk(mac, prf, p', p'.offers[i])
  {
    hide Transcript, DeriveKeys;
    forall i | 0 <= i < |p.offers|
      ensures OfferOk(mac, prf, p', p.offers[i])
    {
      assert OfferOk(mac, prf, p, p.offers[i]);
    }
    hide OfferOk;
  }

  lemma HelloTags(p: Pair, p': Pair, offers: seq<Offer>)
    requires p'.offers == p.offers + offers && (offers == [] || offers == [offers[0]])
    ensures offers != [] ==> TagOk(p', Transcript(offers[0].hello, offers[0].accept))
  {
    if offers != [] {
      TranscriptLength(offers[0].hello, offers[0].accept);
      hide Transcript, FinishInput;
      assert p'.offers[|p.offers|] == offers[0];
    }
  }

  // ---- an accept arrives ----

  lemma AcceptFacts(mac: Mac, prf: Prf, i: Initiator, a: Accept)
    ensures var r := TakeAccept(mac, prf, i, a);
            && r.initiator.local == i.local && r.initiator.peer == i.peer && r.initiator.psk == i.psk
            && r.initiator.hello == i.hello && r.initiator.started == i.started
            && (i.established ==> r.initiator == i && r.finish.None?)
            && (r.finish.None? ==> r.initiator.established == i.established)
            && (r.finish.Some? ==>
                  && i.started && !i.established && r.initiator.established
                  && r.finish.value.initiator == i.local && r.finish.value.responder == i.peer
                  && r.finish.value.sessionId == a.sessionId && r.finish.value.epoch == a.epoch
                  && mac(i.psk, Transcript(i.hello, a)) == Some(a.authenticator)
                  && var keys := DeriveKeys(prf, i.psk, SessionId(a.sessionId, a.epoch), i.local, i.peer);
                  keys.Some? && r.initiator.keys == Some(keys.value.first))
  {
    hide Transcript, FinishInput, DeriveKeys, Names;
  }

  /** A tag on a transcript can only have come from an offer of exactly that. */
  lemma TranscriptWasOffered(mac: Mac, prf: Prf, p: Pair, a: Accept)
    requires PairOk(mac, prf, p) && Transcript(p.initiator.hello, a) in p.tagged
    requires mac(p.initiator.psk, Transcript(p.initiator.hello, a)) == Some(a.authenticator)
    requires Derived(prf, p, a).Some?
    ensures p.responder.accepted && p.responder.hello == p.initiator.hello && p.responder.accept == a
    ensures p.responder.keys == Some(Derived(prf, p, a).value.second)
  {
    var x := Transcript(p.initiator.hello, a);
    assert TagOk(p, x);
    TranscriptLength(p.initiator.hello, a);
    var i :| 0 <= i < |p.offers| && x == Transcript(p.offers[i].hello, p.offers[i].accept);
    assert OfferOk(mac, prf, p, p.offers[i]);
    TranscriptInjective(p.initiator.hello, a, p.offers[i].hello, p.offers[i].accept);
    hide Transcript, FinishInput, DeriveKeys;
  }

  lemma AcceptOk(mac: Mac, prf: Prf, p: Pair, a: Accept)
    requires PairOk(mac, prf, p) && Allowed(mac, p, AcceptOp(a))
    ensures PairOk(mac, prf, AcceptStep(mac, prf, p, a))
  {
    AcceptFacts(mac, prf, p.initiator, a);
    var p' := AcceptStep(mac, prf, p, a);
    hide Transcript, FinishInput, DeriveKeys, TakeAccept;
    TagsKept(p, p');
    OffersKept(mac, prf, p, p');
    hide OfferOk, TagOk;
    if TakeAccept(mac, prf, p.initiator, a).finish.Some? {
      TakenOk(mac, prf, p, a);
    }
  }

  /** An accept that verifies is the responder's own. */
  lemma TakenOk(mac: Mac, prf: Prf, p: Pair, a: Accept)
    requires PairOk(mac, prf, p) && Allowed(mac, p, AcceptOp(a))
    requires TakeAccept(mac, prf, p.initiator, a).finish.Some?
    ensures var p' := AcceptStep(mac, prf, p, a);
            InitiatorOk(prf, p') && TagOk(p', FinishInput(p.initiator.local, p.initiator.peer, a.sessionId, a.epoch))
  {
    AcceptFacts(mac, prf, p.initiator, a);
    assert Matched(p) && Derived(prf, p, a).Some?;
    TranscriptWasOffered(mac, prf, p, a);
    FinishLength(p.initiator.local, p.initiator.peer, a.sessionId, a.epoch);
    hide Transcript, FinishInput, DeriveKeys, TakeAccept, OfferOk, PairOk;
  }

  // ---- a finish arrives ----

  lemma FinishOk(mac: Mac, prf: Prf, p: Pair, m: Finish)
    requires PairOk(mac, prf, p) && Allowed(mac, p, FinishOp(m))
    ensures PairOk(mac, prf, PairStep(mac, prf, p, FinishOp(m)))
  {
    var p' := PairStep(mac, prf, p, FinishOp(m));
    var x := FinishInput(m.initiator, m.responder, m.sessionId, m.epoch);
    FinishLength(m.initiator, m.responder, m.sessionId, m.epoch);
    hide Transcript, FinishInput, DeriveKeys;
    if p'.responder.established && !p.responder.established {
      assert TagOk(p, x);
    }
    TagsKept(p, p');
    OffersKept(mac, prf, p, p');
    hide OfferOk;
  }

  // ---- every run ----

  lemma PairStepOk(mac: Mac, prf: Prf, p: Pair, op: Op)
    requires PairOk(mac, prf, p) && Allowed(mac, p, op)
    ensures PairOk(mac, prf, PairStep(mac, prf, p, op))
  {
    match op {
      case StartOp(n) => StartOk(mac, prf, p, n);
      case HelloOp(h, n) => HelloOk(mac, prf, p, h, n);
      case AcceptOp(a) => AcceptOk(mac, prf, p, a);
      case FinishOp(m) => FinishOk(mac, prf, p, m);
    }
    hide PairOk, HelloStep, AcceptStep;
  }

  lemma {:induction false} RunOk(mac: Mac, prf: Prf, a: bv16, b: bv16, psk: Key, ops: seq<Op>)
    requires AllowedRun(mac, prf, Begin(a, b, psk), ops)
    ensures PairOk(mac, prf, RunPair(mac, prf, Begin(a, b, psk), ops))
    decreases |ops|
  {
    if ops != [] {
      RunOk(mac, prf, a, b, psk, ops[..|ops| - 1]);
      hide PairOk, PairStep, Allowed, Begin;
      PairStepOk(mac, prf, RunPair(mac, prf, Begin(a, b, psk), ops[..|ops| - 1]), ops[|ops| - 1]);
    }
  }

  /** Agreement.  An established initiator answered a responder that received the very
      hello it sent and produced the very accept it took, with crossed keys.  An
      established responder faces an established initiator: the same session and epoch,
      identifiers swapped, keys crossed. */
  lemma HandshakeAgreement(mac: Mac, prf: Prf, a: bv16, b: bv16, psk: Key, ops: seq<Op>)
    requires AllowedRun(mac, prf, Begin(a, b, psk), ops)
    ensures var p := RunPair(mac, prf, Begin(a, b, psk), ops);
            && (p.initiator.established ==>
                  && p.responder.accepted && p.responder.hello == p.initiator.hello
                  && p.taken == Some(p.responder.accept)
                  && p.initiator.keys.Some? && p.responder.keys.Some?
                  && Crossed(p.initiator.keys.value, p.responder.keys.value)
                  && p.initiator.keys.value.session == SessionId(p.responder.accept.sessionId, p.responder.accept.epoch)
                  && p.initiator.keys.value.local == p.initiator.local && p.initiator.keys.value.peer == p.initiator.peer)
            && (p.responder.established ==> p.initiator.established)
  {
    RunOk(mac, prf, a, b, psk, ops);
    var p := RunPair(mac, prf, Begin(a, b, psk), ops);
    if p.taken.Some? {
      DerivedFacts(prf, p, p.taken.value);
    }
    hide RunPair, AllowedRun, Begin, DeriveKeys, OfferOk, TagOk, Crossed;
  }

  lemma DerivedFacts(prf: Prf, p: Pair, a: Accept)
    requires Derived(prf, p, a).Some?
    ensures var k := Derived(prf, p, a).value;
            && Crossed(k.first, k.second) && k.first.session == SessionId(a.sessionId, a.epoch)
            && k.first.local == p.responder.peer && k.first.peer == p.responder.local
  {
    hide DerivationInput;
  }

  // ---- an undisturbed run ----

  /** Each message reaches the other side as it was sent, and both ends settle. */
  predicate Completes(mac: Mac, prf: Prf, a: bv16, b: bv16, psk: Key, cn: bv64, sn: bv64) {
    var i := Start(NewInitiator(a, b, psk), cn);
    && i.hello.Some?
    && var r := TakeHello(mac, prf, NewResponder(b, a, psk), i.hello.value, sn);
    && r.response.Some?
    && var j := TakeAccept(mac, prf, i.initiator, r.response.value);
    && j.finish.Some?
    && TakeFinish(mac, r.responder, j.finish.value).responder.established
  }

  /** Without interference, and with primitives that deliver, the handshake completes
      exactly when the identifiers and nonces are usable and the two nonces differ (the
      session identifier is their exclusive or). */
  lemma HonestRunCompletes(mac: Mac, prf: Prf, a: bv16, b: bv16, psk: Key, cn: bv64, sn: bv64)
    requires forall x :: mac(psk, x).Some?
    requires forall x :: prf(psk, x).Some?
    ensures Completes(mac, prf, a, b, psk, cn, sn) <==>
            a != 0 && b != 0 && a != b && cn != 0 && sn != 0 && cn != sn
  {
    if ValidIds(a, b) && cn != 0 && sn != 0 {
      if cn == sn {
        EqualNoncesNeverSettle(mac, prf, NewResponder(b, a, psk), Hello(a, b, cn, 0));
      } else {
        DistinctNoncesComplete(mac, prf, a, b, psk, cn, sn);
      }
    }
    hide Transcript, FinishInput, DeriveKeys, Mix;
  }

  lemma DistinctNoncesComplete(mac: Mac, prf: Prf, a: bv16, b: bv16, psk: Key, cn: bv64, sn: bv64)
    requires ValidIds(a, b) && cn != 0 && sn != 0 && cn != sn
    requires forall x :: mac(psk, x).Some?
    requires forall x :: prf(psk, x).Some?
    ensures Completes(mac, prf, a, b, psk, cn, sn)
  {
    var h := Hello(a, b, cn, 0);
    var q := Proposal(NewResponder(b, a, psk), h, sn);
    DifferentMix(cn, sn);
    TagIrrelevant(h, q, mac(psk, Transcript(h, q)).value);
    var session := SessionId(Mix(cn, sn), 1);
    Derives(prf, psk, session, a, b);
    hide Transcript, FinishInput, DeriveKeys, Mix;
  }

  lemma DifferentMix(x: bv64, y: bv64)
    requires x != y
    ensures Mix(x, y) != 0
  {
    if x ^ y == 0 {
      assert x ^ (x ^ y) == y;
    }
  }

  lemma Derives(prf: Prf, psk: Key, session: SessionId, a: bv16, b: bv16)
    requires Derivable(session, a, b) && forall x :: prf(psk, x).Some?
    ensures DeriveKeys(prf, psk, session, a, b).Some?
  {
    hide DerivationInput, Derivable;
  }

  /** Equal nonces give session identifier 0: an accept message is produced but the
      responder never settles on it. */
  lemma EqualNoncesNeverSettle(mac: Mac, prf: Prf, r: Responder, h: Hello)
    requires !r.accepted
    ensures !TakeHello(mac, prf, r, h, h.clientNonce).responder.accepted
  {
    SelfMix(h.clientNonce);
    hide Transcript, DerivationInput, Mix;
  }

  lemma SelfMix(x: bv64)
    ensures Mix(x, x) == 0
  {
  }

  lemma RunAppend(mac: Mac, prf: Prf, p: Pair, ops: seq<Op>, op: Op)
    ensures RunPair(mac, prf, p, ops + [op]) == PairStep(mac, prf, RunPair(mac, prf, p, ops), op)
    ensures AllowedRun(mac, prf, p, ops + [op]) <==>
            AllowedRun(mac, prf, p, ops) && Allowed(mac, RunPair(mac, prf, p, ops), op)
  {
    assert (ops + [op])[..|ops|] == ops;
    hide PairStep, Allowed;
  }

  /** The undisturbed run is one the network model allows, and it establishes both ends:
      the agreement theorem is not about the empty set of runs. */
  lemma HonestRunIsAllowed(mac: Mac, prf: Prf, a: bv16, b: bv16, psk: Key, cn: bv64, sn: bv64) returns (ops: seq<Op>)
    requires Completes(mac, prf, a, b, psk, cn, sn)
    ensures AllowedRun(mac, prf, Begin(a, b, psk), ops)
    ensures var p := RunPair(mac, prf, Begin(a, b, psk), ops);
            p.initiator.established && p.responder.established
  {
    var p0 := Begin(a, b, psk);
    var i := Start(p0.initiator, cn);
    var r := TakeHello(mac, prf, p0.responder, i.hello.value, sn);
    var j := TakeAccept(mac, prf, i.initiator, r.response.value);
    ops := [StartOp(cn)];
    RunAppend(mac, prf, p0, [], ops[0]);
    assert RunPair(mac, prf, p0, []) == p0 && AllowedRun(mac, prf, p0, []) && [] + [ops[0]] == ops;
    var p1 := RunPair(mac, prf, p0, ops);
    assert p1 == p0.(initiator := i.initiator);
    RunAppend(mac, prf, p0, ops, HelloOp(i.hello.value, sn));
    ops := ops + [HelloOp(i.hello.value, sn)];
    RunAppend(mac, prf, p0, ops, AcceptOp(r.response.value));
    ops := ops + [AcceptOp(r.response.value)];
    RunAppend(mac, prf, p0, ops, FinishOp(j.finish.value));
    ops := ops + [FinishOp(j.finish.value)];
    HonestSteps(mac, prf, p1, i.hello.value, sn, r, j);
    hide RunPair, AllowedRun, Allowed, PairStep, Start, TakeHello, TakeAccept, TakeFinish;
  }

  /** The three deliveries after the start. */
  lemma HonestSteps(mac: Mac, prf: Prf, p: Pair, h: Hello, sn: bv64, r: Greeted, j: Answered)
    requires !p.responder.accepted && p.initiator.hello == h && !p.initiator.established
    requires p.initiator.psk == p.responder.psk
    requires r == TakeHello(mac, prf, p.responder, h, sn) && r.response.Some?
    requires j == TakeAccept(mac, prf, p.initiator, r.response.value) && j.finish.Some?
    requires TakeFinish(mac, r.responder, j.finish.value).responder.established
    ensures var p2 := PairStep(mac, prf, p, HelloOp(h, sn));
            var p3 := PairStep(mac, prf, p2, AcceptOp(r.response.value));
            var p4 := PairStep(mac, prf, p3, FinishOp(j.finish.value));
            && Allowed(mac, p2, AcceptOp(r.response.value)) && Allowed(mac, p3, FinishOp(j.finish.value))
            && p4.initiator.established && p4.responder.established
  {
    hide Transcript, FinishInput, DeriveKeys, Mix, Greets, Proposal;
  }

  // ---- refusals ----

  /** A second start is nonce reuse; a start without usable identifiers or nonce is invalid
      input; both change nothing.  Otherwise the hello names the two ends, the nonce and no
      capabilities. */
  lemma StartOutcomes(i: Initiator, cn: bv64)
    ensures var r := Start(i, cn);
            if i.started then r == Started(i, None, NonceReuse)
            else if i.local == 0 || i.peer == 0 || i.local == i.peer || cn == 0 then r == Started(i, None, InvalidInput)
            else
              && r.hello == Some(Hello(i.local, i.peer, cn, 0)) && r.error == NoError
              && r.initiator == i.(hello := Hello(i.local, i.peer, cn, 0), started := true)
  {
  }

  /** An accept out of turn, or one that does not name this exchange, changes nothing. */
  lemma AcceptRefused(mac: Mac, prf: Prf, i: Initiator, a: Accept)
    ensures !i.started || i.established ==> TakeAccept(mac, prf, i, a) == Answered(i, None, InvalidState)
    ensures i.started && !i.established
            && (a.initiator != i.local || a.responder != i.peer || a.clientNonce != i.hello.clientNonce) ==>
              TakeAccept(mac, prf, i, a) == Answered(i, None, InvalidTranscript)
  {
    hide Transcript, FinishInput, DeriveKeys;
  }

  /** A hello after one was accepted is nonce reuse; one not from the expected peer to this
      end, or without nonces, is invalid input; both change nothing. */
  lemma HelloRefused(mac: Mac, prf: Prf, r: Responder, h: Hello, sn: bv64)
    ensures r.accepted ==> TakeHello(mac, prf, r, h, sn) == Greeted(r, None, NonceReuse)
    ensures !r.accepted
            && (|| r.local == 0 || r.peer == 0 || r.local == r.peer || h.initiator != r.peer || h.responder != r.local
                || h.clientNonce == 0 || sn == 0) ==>
              TakeHello(mac, prf, r, h, sn) == Greeted(r, None, InvalidInput)
  {
    hide Transcript, DeriveKeys, Proposal;
  }

  /** A finish out of turn, or one for another exchange, changes nothing. */
  lemma FinishRefused(mac: Mac, r: Responder, m: Finish)
    requires || !r.accepted || r.established || m.initiator != r.peer || m.responder != r.local
             || m.sessionId != r.accept.sessionId || m.epoch != r.accept.epoch
    ensures TakeFinish(mac, r, m) == Concluded(r, InvalidState)
  {
    hide FinishInput;
  }

  /** The session a responder offers: the exclusive or of the nonces, in epoch 1. */
  lemma OfferedSession(mac: Mac, prf: Prf, r: Responder, h: Hello, sn: bv64)
    requires TakeHello(mac, prf, r, h, sn).response.Some?
    ensures var a := TakeHello(mac, prf, r, h, sn).response.value;
            && a.initiator == h.initiator && a.responder == h.responder
            && a.clientNonce == h.clientNonce && a.serverNonce == sn
            && a.sessionId == h.clientNonce ^ sn && a.epoch == 1
  {
    assert Mix(h.clientNonce, sn) == h.clientNonce ^ sn;
    hide Transcript, DeriveKeys, Mix;
  }
}
