// HELLO / ACCEPT / FINISH as values (src/session.cpp), over an abstract message
// authentication code and an abstract pseudo-random function.

module Handshakes {
  import opened Crc16
  import opened Wire
  import opened Layout
  import opened Crypto

  type Mac = (Key, Bytes) -> Option<Bytes>

  datatype SessionError = NoError | InvalidInput | InvalidState | AuthenticationFailed | NonceReuse | InvalidTranscript

  datatype Hello = Hello(initiator: bv16, responder: bv16, clientNonce: bv64, capabilities: bv32)

  datatype Accept = Accept(
    initiator: bv16,
    responder: bv16,
    clientNonce: bv64,
    serverNonce: bv64,
    sessionId: bv64,
    epoch: bv64,
    authenticator: Bytes)

  datatype Finish = Finish(initiator: bv16, responder: bv16, sessionId: bv64, epoch: bv64, authenticator: Bytes)

  const NO_HELLO := Hello(0, 0, 0, 0)
  const NO_TAG: Bytes := [0, 0, 0, 0, 0, 0, 0, 0, 0, 0, 0, 0, 0, 0, 0, 0]
  const NO_ACCEPT := Accept(0, 0, 0, 0, 0, 0, NO_TAG)

  predicate ValidIds(a: bv16, b: bv16) {
    a != 0 && b != 0 && a != b
  }

  // ---- what is authenticated ----

  const TRANSCRIPT_LAYOUT: seq<nat> := [2, 2, 8, 4, 2, 2, 8, 8, 8, 8]
  const FINISH_LAYOUT: seq<nat> := [2, 2, 8, 8]

  function TranscriptFields(h: Hello, a: Accept): (fs: seq<Field>)
    ensures Widths(fs) == TRANSCRIPT_LAYOUT
  {
    [F16(h.initiator), F16(h.responder), F64(h.clientNonce), F32(h.capabilities),
     F16(a.initiator), F16(a.responder), F64(a.clientNonce), F64(a.serverNonce), F64(a.sessionId), F64(a.epoch)]
  }

  /** Everything in both messages except the authenticator itself. */
  function Transcript(h: Hello, a: Accept): Bytes {
    Encode(TranscriptFields(h, a))
  }

  function FinishFields(initiator: bv16, responder: bv16, sessionId: bv64, epoch: bv64): (fs: seq<Field>)
    ensures Widths(fs) == FINISH_LAYOUT
  {
    [F16(initiator), F16(responder), F64(sessionId), F64(epoch)]
  }

  function FinishInput(initiator: bv16, responder: bv16, sessionId: bv64, epoch: bv64): Bytes {
    Encode(FinishFields(initiator, responder, sessionId, epoch))
  }

  lemma HandshakeTotals()
    ensures Total(TRANSCRIPT_LAYOUT) == 52 && Total(FINISH_LAYOUT) == 20
  {
    TotalIsSum(TRANSCRIPT_LAYOUT, 10);
    TotalIsSum(FINISH_LAYOUT, 4);
  }

  lemma TranscriptLength(h: Hello, a: Accept)
    ensures |Transcript(h, a)| == 52
  {
    hide Encode, TranscriptFields, Widths, Total;
    HandshakeTotals();
    EncodeLength(TranscriptFields(h, a));
  }

  lemma FinishLength(i: bv16, r: bv16, s: bv64, e: bv64)
    ensures |FinishInput(i, r, s, e)| == 20
  {
    hide Encode, FinishFields, Widths, Total;
    HandshakeTotals();
    EncodeLength(FinishFields(i, r, s, e));
  }

  lemma TranscriptInjective(h: Hello, a: Accept, g: Hello, b: Accept)
    requires Transcript(h, a) == Transcript(g, b)
    ensures h == g && a == b.(authenticator := a.authenticator)
  {
    EncodeInjective(TranscriptFields(h, a), TranscriptFields(g, b));
    hide Encode, Widths;
    var x, y := TranscriptFields(h, a), TranscriptFields(g, b);
    assert x[0] == y[0] && x[1] == y[1] && x[2] == y[2] && x[3] == y[3] && x[4] == y[4];
    assert x[5] == y[5] && x[6] == y[6] && x[7] == y[7] && x[8] == y[8] && x[9] == y[9];
  }

  lemma FinishInjective(i: bv16, r: bv16, s: bv64, e: bv64, j: bv16, q: bv16, t: bv64, f: bv64)
    requires FinishInput(i, r, s, e) == FinishInput(j, q, t, f)
    ensures i == j && r == q && s == t && e == f
  {
    EncodeInjective(FinishFields(i, r, s, e), FinishFields(j, q, t, f));
    hide Encode, Widths;
    var x, y := FinishFields(i, r, s, e), FinishFields(j, q, t, f);
    assert x[0] == y[0] && x[1] == y[1] && x[2] == y[2] && x[3] == y[3];
  }

  /** The authenticator is not part of what it authenticates. */
  lemma TagIrrelevant(h: Hello, a: Accept, tag: Bytes)
    ensures Transcript(h, a.(authenticator := tag)) == Transcript(h, a)
  {
    assert TranscriptFields(h, a.(authenticator := tag)) == TranscriptFields(h, a);
    hide TranscriptFields;
  }

  // ---- the initiator ----

  datatype Initiator = Initiator(
    local: bv16,
    peer: bv16,
    psk: Key,
    hello: Hello,
    keys: Option<DirectionalKeys>,
    started: bool,
    established: bool)

  function NewInitiator(local: bv16, peer: bv16, psk: Key): Initiator {
    Initiator(local, peer, psk, NO_HELLO, None, false, false)
  }

  datatype Started = Started(initiator: Initiator, hello: Option<Hello>, error: SessionError)

  function Start(i: Initiator, clientNonce: bv64): Started {
    if i.started then Started(i, None, NonceReuse)
    else if !ValidIds(i.local, i.peer) || clientNonce == 0 then Started(i, None, InvalidInput)
    else
      var h := Hello(i.local, i.peer, clientNonce, 0);
      Started(i.(hello := h, started := true), Some(h), NoError)
  }

  datatype Answered = Answered(initiator: Initiator, finish: Option<Finish>, error: SessionError)

  predicate Names(i: Initiator, a: Accept) {
    a.initiator == i.local && a.responder == i.peer && a.clientNonce == i.hello.clientNonce
  }

  function TakeAccept(mac: Mac, prf: Prf, i: Initiator, a: Accept): Answered {
    if !i.started || i.established then Answered(i, None, InvalidState)
    else if !Names(i, a) then Answered(i, None, InvalidTranscript)
    else if mac(i.psk, Transcript(i.hello, a)) != Some(a.authenticator) then Answered(i, None, AuthenticationFailed)
    else
      match DeriveKeys(prf, i.psk, SessionId(a.sessionId, a.epoch), i.local, i.peer)
      case None => Answered(i, None, InvalidInput)
      case Some(pair) =>
        var keyed := i.(keys := Some(pair.first));
        match mac(i.psk, FinishInput(i.local, i.peer, a.sessionId, a.epoch))
        case None => Answered(keyed, None, AuthenticationFailed)
        case Some(tag) =>
          Answered(keyed.(established := true), Some(Finish(i.local, i.peer, a.sessionId, a.epoch, tag)), NoError)
  }

  // ---- the responder ----

  datatype Responder = Responder(
    local: bv16,
    peer: bv16,
    psk: Key,
    hello: Hello,
    accept: Accept,
    keys: Option<DirectionalKeys>,
    accepted: bool,
    established: bool)

  function NewResponder(local: bv16, peer: bv16, psk: Key): Responder {
    Responder(local, peer, psk, NO_HELLO, NO_ACCEPT, None, false, false)
  }

  datatype Greeted = Greeted(responder: Responder, response: Option<Accept>, error: SessionError)

  predicate Greets(r: Responder, h: Hello, serverNonce: bv64) {
    && ValidIds(r.local, r.peer) && h.initiator == r.peer && h.responder == r.local
    && h.clientNonce != 0 && serverNonce != 0
  }

  /** The accept message before its authenticator is filled in. */
  function Proposal(r: Responder, h: Hello, serverNonce: bv64): Accept {
    Accept(r.peer, r.local, h.clientNonce, serverNonce, Mix(h.clientNonce, serverNonce), 1, NO_TAG)
  }

  /** receive_hello.  The response is filled in before the keys are derived, so it is
      reported even when derivation then fails. */
  function TakeHello(mac: Mac, prf: Prf, r: Responder, h: Hello, serverNonce: bv64): Greeted {
    if r.accepted then Greeted(r, None, NonceReuse)
    else if !Greets(r, h, serverNonce) then Greeted(r, None, InvalidInput)
    else
      var p := Proposal(r, h, serverNonce);
      match mac(r.psk, Transcript(h, p))
      case None => Greeted(r.(hello := h, accept := p), None, AuthenticationFailed)
      case Some(tag) =>
        var a := p.(authenticator := tag);
        var heard := r.(hello := h, accept := a);
        match DeriveKeys(prf, r.psk, SessionId(a.sessionId, a.epoch), r.peer, r.local)
        case None => Greeted(heard, Some(a), InvalidInput)
        case Some(pair) => Greeted(heard.(keys := Some(pair.second), accepted := true), Some(a), NoError)
  }

  datatype Concluded = Concluded(responder: Responder, error: SessionError)

  predicate Concludes(r: Responder, m: Finish) {
    && r.accepted && !r.established && m.initiator == r.peer && m.responder == r.local
    && m.sessionId == r.accept.sessionId && m.epoch == r.accept.epoch
  }

  function TakeFinish(mac: Mac, r: Responder, m: Finish): Concluded {
    if !Concludes(r, m) then Concluded(r, InvalidState)
    else if mac(r.psk, FinishInput(m.initiator, m.responder, m.sessionId, m.epoch)) != Some(m.authenticator) then
      Concluded(r, AuthenticationFailed)
    else Concluded(r.(established := true), NoError)
  }
}
