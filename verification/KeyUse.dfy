// Derived keys are usable (src/crypto.cpp, src/session.cpp, src/record.cpp): an honest
// handshake over a pseudo-random function that tells its inputs apart ends with keys that
// seal, and what they seal the other end opens.

module KeyUse {
  import opened Crc16
  import opened Wire
  import opened Layout
  import Headers
  import opened Crypto
  import opened Handshakes
  import opened Replay
  import opened Endpoints
  import opened Agreement
  import Subscribers

  // ---- derivation ----

  /** The labels are the ASCII letters NM-TX and NM-RX, padded with zeros. */
  lemma LabelsSpell()
    ensures |TX_LABEL| == |RX_LABEL| == 8
    ensures forall i :: 0 <= i < 5 ==> TX_LABEL[i] as int == "NM-TX"[i] as int && RX_LABEL[i] as int == "NM-RX"[i] as int
    ensures forall i :: 5 <= i < 8 ==> TX_LABEL[i] == 0 && RX_LABEL[i] == 0
  {
    forall i | 0 <= i < 5
      ensures TX_LABEL[i] as int == "NM-TX"[i] as int && RX_LABEL[i] as int == "NM-RX"[i] as int
    {
      assert i == 0 || i == 1 || i == 2 || i == 3 || i == 4;
    }
  }

  lemma InputStarts(tag: Bytes, session: SessionId, first: bv16, second: bv16)
    requires |tag| == 8
    ensures |DerivationInput(tag, session, first, second)| >= 8
    ensures DerivationInput(tag, session, first, second)[..8] == tag
  {
    hide Encode;
  }

  /** The two directions are derived from different inputs. */
  lemma InputsDiffer(session: SessionId, first: bv16, second: bv16)
    ensures DerivationInput(TX_LABEL, session, first, second) != DerivationInput(RX_LABEL, session, first, second)
  {
    var x, y := TX_LABEL, RX_LABEL;
    assert |x| == 8 && |y| == 8 && x[3] == 0x54 && y[3] == 0x52;
    InputStarts(x, session, first, second);
    InputStarts(y, session, first, second);
    assert x != y by { assert x[3] != y[3]; }
    hide *;
  }

  /** A function that answers every derivation with a nonzero key, and different inputs
      with different keys. */
  ghost predicate Separates(prf: Prf, psk: Key) {
    && (forall x :: prf(psk, x).Some? && AnyNonzero(prf(psk, x).value))
    && (forall session, first, second ::
          prf(psk, DerivationInput(TX_LABEL, session, first, second))
          != prf(psk, DerivationInput(RX_LABEL, session, first, second)))
  }

  /** Keys derived with such a function are valid at both ends. */
  lemma DerivedKeysValid(prf: Prf, psk: Key, session: SessionId, first: bv16, second: bv16)
    requires Separates(prf, psk)
    requires session.value != 0 && session.epoch != 0 && first != 0 && second != 0 && first != second
    ensures DeriveKeys(prf, psk, session, first, second).Some?
    ensures var k := DeriveKeys(prf, psk, session, first, second).value;
            && ValidKeys(k.first) && ValidKeys(k.second) && Crossed(k.first, k.second)
            && k.first.session == session && k.first.local == first && k.first.peer == second
  {
    var x, y := DerivationInput(TX_LABEL, session, first, second), DerivationInput(RX_LABEL, session, first, second);
    assert prf(psk, x) != prf(psk, y);
    assert AnyNonzero(prf(psk, x).value) && AnyNonzero(prf(psk, y).value);
    hide DerivationInput, AnyNonzero, Separates;
  }

  /** The first sixteen bytes of the input, with a one in front: such a function exists. */
  function SpellingPrf(): Prf {
    (k, x) => Some([1] + if |x| >= 15 then x[..15] else x)
  }

  lemma SpellingSeparates(psk: Key)
    ensures Separates(SpellingPrf(), psk)
  {
    var prf := SpellingPrf();
    forall x: Bytes
      ensures prf(psk, x).Some? && AnyNonzero(prf(psk, x).value)
    {
      assert prf(psk, x).value[0] == 1;
    }
    forall session: SessionId, first: bv16, second: bv16
      ensures prf(psk, DerivationInput(TX_LABEL, session, first, second))
              != prf(psk, DerivationInput(RX_LABEL, session, first, second))
    {
      SpelledApart(psk, session, first, second);
    }
    hide *;
  }

  lemma SpelledApart(psk: Key, session: SessionId, first: bv16, second: bv16)
    ensures SpellingPrf()(psk, DerivationInput(TX_LABEL, session, first, second))
            != SpellingPrf()(psk, DerivationInput(RX_LABEL, session, first, second))
  {
    var x, y := DerivationInput(TX_LABEL, session, first, second), DerivationInput(RX_LABEL, session, first, second);
    assert |TX_LABEL| == 8 && |RX_LABEL| == 8 && TX_LABEL[3] == 0x54 && RX_LABEL[3] == 0x52;
    InputStarts(TX_LABEL, session, first, second);
    InputStarts(RX_LABEL, session, first, second);
    assert x[..8][3] == x[3] && y[..8][3] == y[3];
    hide DerivationInput, Encode;
    var p, q := SpellingPrf()(psk, x).value, SpellingPrf()(psk, y).value;
    assert p[4] == x[3] && q[4] == y[3];
  }

  // ---- sealing ----

  /** A cipher that seals whatever it is given, sixteen bytes longer. */
  ghost predicate SealsAll(aead: Aead) {
    forall k, n, a, p :: aead.seal(k, n, a, p).Some? && |aead.seal(k, n, a, p).value| == |p| + 16
  }

  lemma PlainAeadSealsAll()
    ensures SealsAll(PlainAead())
  {
  }

  /** What a header must be for this end to seal under it. */
  predicate Sendable(e: Endpoint, h: RecordHeader, length: nat) {
    && Subscribers.InUse(h.typ) && h.flags <= 15 && h.qos <= 5
    && h.source == e.keys.local && h.destination == e.keys.peer
    && h.sessionId == e.keys.session.value && h.epoch == e.keys.session.epoch
    && length <= 768 && h.sequence != 0xFFFF_FFFF_FFFF_FFFF
    && (e.sendStarted ==> h.sequence as nat > e.sendHigh)
  }

  lemma SendableIs(e: Endpoint, h: RecordHeader, length: nat)
    ensures SealableHeader(e, h, length) <==> Sendable(e, h, length)
  {
    Subscribers.TypesInUse(h.typ);
    hide KnownType, Subscribers.InUse;
  }

  /** Exactly which headers and payloads are sealed, and what goes out: 40 bytes of
      header, then the payload's length and 16 bytes more. */
  lemma SealsExactly(e: Endpoint, aead: Aead, input: RecordHeader, plain: Bytes)
    requires SealsAll(aead)
    ensures Seal(e, aead, input, plain).Sealed? <==> ValidKeys(e.keys) && Sendable(e, input, |plain|)
    ensures Seal(e, aead, input, plain).Sealed? ==>
              && |Seal(e, aead, input, plain).record| == 40 + |plain| + 16
              && Seal(e, aead, input, plain).endpoint == e.(sendHigh := input.sequence as nat, sendStarted := true)
  {
    SendableIs(e, input, |plain|);
    var h := OutgoingHeader(input, |plain|);
    OutgoingFacts(input, |plain|);
    RecordSplits(h, []);
    assert aead.seal(e.keys.tx, NonceOf(e.keys.session, h.sequence), HeaderBytes(h), plain).Some?;
    hide ValidKeys, SealableHeader, Sendable, OutgoingHeader, Headers.HeaderBytes, NonceOf;
  }

  function HeaderBytes(h: RecordHeader): Bytes {
    Headers.HeaderBytes(h, true)
  }

  // ---- a session that carries something ----

  /** One record between fresh ends: sealed at one and, while it is live, opened at the
      other to the same payload and header fields. */
  ghost predicate ConveysOne(aead: Aead, a: DirectionalKeys, b: DirectionalKeys, input: RecordHeader, plain: Bytes, now: nat) {
    var s := Seal(NewEndpoint(a), aead, input, plain);
    && s.Sealed?
    && (input.deadline == 0 || now <= input.deadline as nat ==>
          Open(NewEndpoint(b), aead, s.record, now) == Opened(NativeMessage(OutgoingHeader(input, |plain|), plain)))
  }

  /** Every fitting header and payload is conveyed. */
  ghost predicate Conveys(aead: Aead, a: DirectionalKeys, b: DirectionalKeys) {
    forall input: RecordHeader, plain: Bytes, now: nat ::
      Sendable(NewEndpoint(a), input, |plain|) ==> ConveysOne(aead, a, b, input, plain, now)
  }

  lemma LiveIs(input: RecordHeader, now: nat)
    ensures PastDeadline(input, now) <==> !(input.deadline == 0 || now <= input.deadline as nat)
  {
  }

  lemma ValidKeysConvey(aead: Aead, a: DirectionalKeys, b: DirectionalKeys)
    requires OpensWhatItSeals(aead) && SealsAll(aead) && Crossed(a, b) && ValidKeys(a)
    ensures Conveys(aead, a, b)
  {
    forall input: RecordHeader, plain: Bytes, now: nat | Sendable(NewEndpoint(a), input, |plain|)
      ensures ConveysOne(aead, a, b, input, plain, now)
    {
      assert Fresh({}, input.sequence as nat);
      hide OpensWhatItSeals, SealsAll, Sendable, ValidKeys, Seal, Open, OutgoingHeader, PastDeadline, Fresh;
      SealsExactly(NewEndpoint(a), aead, input, plain);
      SealOpenRoundTrip(NewEndpoint(a), NewEndpoint(b), aead, input, plain, now);
      LiveIs(input, now);
    }
  }

  lemma CrossedBack(a: DirectionalKeys, b: DirectionalKeys)
    requires Crossed(a, b)
    ensures Crossed(b, a) && (ValidKeys(a) <==> ValidKeys(b))
  {
    hide AnyNonzero;
  }

  /** There is something to send: a one-byte heartbeat, for instance. */
  lemma SomethingIsSendable(k: DirectionalKeys)
    ensures var h := RecordHeader(0, 0, 16, 4, k.local, k.peer, k.session.value, k.session.epoch, 1, 0, 0, 0);
            Sendable(NewEndpoint(k), h, 1)
  {
  }

  // ---- from handshake to records ----

  /** An established pair holds exactly the keys derived for the accept they share. */
  lemma EstablishedKeys(mac: Mac, prf: Prf, a: bv16, b: bv16, psk: Key, ops: seq<Op>)
    requires AllowedRun(mac, prf, Begin(a, b, psk), ops)
    ensures var p := RunPair(mac, prf, Begin(a, b, psk), ops);
            p.initiator.established || p.responder.established ==>
              && p.taken.Some? && Derived(prf, p, p.taken.value).Some?
              && p.initiator.keys == Some(Derived(prf, p, p.taken.value).value.first)
              && p.responder.keys == Some(Derived(prf, p, p.taken.value).value.second)
  {
    RunOk(mac, prf, a, b, psk, ops);
    var p := RunPair(mac, prf, Begin(a, b, psk), ops);
    assert InitiatorOk(prf, p) && ResponderOk(p);
    hide RunPair, AllowedRun, Begin, PairOk, Derived;
  }

  lemma SecretKept(mac: Mac, prf: Prf, p: Pair, op: Op)
    ensures var q := PairStep(mac, prf, p, op).responder;
            q.psk == p.responder.psk && q.peer == p.responder.peer && q.local == p.responder.local
  {
    hide Transcript, FinishInput, DeriveKeys, Mix, Greets, Proposal, Start, TakeAccept;
  }

  lemma {:induction false} SecretStays(mac: Mac, prf: Prf, a: bv16, b: bv16, psk: Key, ops: seq<Op>)
    ensures var p := RunPair(mac, prf, Begin(a, b, psk), ops);
            p.responder.psk == psk && p.responder.peer == a && p.responder.local == b
    decreases |ops|
  {
    if ops != [] {
      SecretStays(mac, prf, a, b, psk, ops[..|ops| - 1]);
      hide PairStep, Begin;
      SecretKept(mac, prf, RunPair(mac, prf, Begin(a, b, psk), ops[..|ops| - 1]), ops[|ops| - 1]);
    }
  }

  /** Derived keys exist only for usable identifiers, and are then valid. */
  lemma DerivedAreValid(prf: Prf, psk: Key, session: SessionId, first: bv16, second: bv16)
    requires Separates(prf, psk) && DeriveKeys(prf, psk, session, first, second).Some?
    ensures var k := DeriveKeys(prf, psk, session, first, second).value;
            ValidKeys(k.first) && ValidKeys(k.second) && Crossed(k.first, k.second)
  {
    assert Derivable(session, first, second) by { hide DerivationInput, Separates; }
    hide DeriveKeys, Separates;
    DerivedKeysValid(prf, psk, session, first, second);
  }

  /** After any handshake run without forged tags, if the pseudo-random function tells its
      inputs apart and the cipher seals, an established pair conveys records both ways. */
  lemma EstablishedConveys(mac: Mac, prf: Prf, aead: Aead, a: bv16, b: bv16, psk: Key, ops: seq<Op>)
    requires AllowedRun(mac, prf, Begin(a, b, psk), ops)
    requires OpensWhatItSeals(aead) && SealsAll(aead) && Separates(prf, psk)
    ensures var p := RunPair(mac, prf, Begin(a, b, psk), ops);
            p.initiator.established || p.responder.established ==>
              && p.initiator.keys.Some? && p.responder.keys.Some?
              && Conveys(aead, p.initiator.keys.value, p.responder.keys.value)
              && Conveys(aead, p.responder.keys.value, p.initiator.keys.value)
  {
    EstablishedKeys(mac, prf, a, b, psk, ops);
    SecretStays(mac, prf, a, b, psk, ops);
    var p := RunPair(mac, prf, Begin(a, b, psk), ops);
    hide RunPair, AllowedRun, Begin, OpensWhatItSeals, SealsAll, Separates, Conveys, DeriveKeys, ValidKeys, Crossed;
    if p.initiator.established || p.responder.established {
      var x, y := p.initiator.keys.value, p.responder.keys.value;
      DerivedAreValid(prf, psk, SessionId(p.taken.value.sessionId, p.taken.value.epoch), a, b);
      CrossedBack(x, y);
      ValidKeysConvey(aead, x, y);
      ValidKeysConvey(aead, y, x);
    }
  }

  /** An undisturbed handshake, from two identifiers and two nonces, ends with a pair that
      conveys records both ways. */
  lemma HonestChannelConveys(mac: Mac, prf: Prf, aead: Aead, a: bv16, b: bv16, psk: Key, cn: bv64, sn: bv64)
    returns (ops: seq<Op>)
    requires a != 0 && b != 0 && a != b && cn != 0 && sn != 0 && cn != sn
    requires forall x :: mac(psk, x).Some?
    requires OpensWhatItSeals(aead) && SealsAll(aead) && Separates(prf, psk)
    ensures AllowedRun(mac, prf, Begin(a, b, psk), ops)
    ensures var p := RunPair(mac, prf, Begin(a, b, psk), ops);
            && p.initiator.established && p.responder.established && p.initiator.keys.Some? && p.responder.keys.Some?
            && Conveys(aead, p.initiator.keys.value, p.responder.keys.value)
            && Conveys(aead, p.responder.keys.value, p.initiator.keys.value)
  {
    assert forall x :: prf(psk, x).Some? by { hide DerivationInput; }
    HonestRunCompletes(mac, prf, a, b, psk, cn, sn);
    assert ValidIds(a, b);
    hide Completes, AllowedRun, RunPair, Begin, OpensWhatItSeals, SealsAll, Separates, Conveys;
    ops := HonestRunIsAllowed(mac, prf, a, b, psk, cn, sn);
    EstablishedConveys(mac, prf, aead, a, b, psk, ops);
  }

  // ---- keys that are refused ----

  /** All bytes zero. */
  predicate Blank(k: Key) {
    forall i :: 0 <= i < |k| ==> k[i] == 0
  }

  /** What makes a key set unusable. */
  predicate Unusable(k: DirectionalKeys) {
    || k.session.value == 0 || k.session.epoch == 0 || k.local == 0 || k.peer == 0 || k.local == k.peer
    || Blank(k.tx) || Blank(k.rx) || k.tx == k.rx
  }

  /** An unusable key set seals nothing, opens nothing and is never switched to. */
  lemma UnusableKeysRefused(e: Endpoint, aead: Aead, input: RecordHeader, plain: Bytes, record: Bytes, now: nat, next: DirectionalKeys)
    ensures Unusable(e.keys) ==>
              Seal(e, aead, input, plain) == NotSealed(InvalidKeys) && Open(e, aead, record, now) == NotOpened(InvalidKeys)
    ensures Unusable(next) ==> Rekey(e, next) == e
    ensures !Unusable(e.keys) ==> Open(e, aead, record, now) != NotOpened(InvalidKeys)
  {
    UsableIs(e.keys);
    UsableIs(next);
    hide ValidKeys, Unusable, SealableHeader, AcceptableHeader, Fresh, Headers.DecodeHeader, AeadOpen, NonceOf, PastDeadline;
  }

  lemma UsableIs(k: DirectionalKeys)
    ensures ValidKeys(k) <==> !Unusable(k)
  {
    BlankIs(k.tx);
    BlankIs(k.rx);
    hide Blank, AnyNonzero;
  }

  lemma BlankIs(k: Key)
    ensures AnyNonzero(k) <==> !Blank(k)
  {
  }

  // ---- rekeying ----

  /** Both ends move to crossed keys of a later epoch: whatever was sent before, every
      fitting record is conveyed again, low sequence numbers included. */
  lemma RekeyStartsOver(x: Endpoint, y: Endpoint, aead: Aead, a: DirectionalKeys, b: DirectionalKeys)
    requires OpensWhatItSeals(aead) && SealsAll(aead) && Crossed(a, b) && !Unusable(a)
    requires x.keys.local == y.keys.peer && x.keys.peer == y.keys.local && x.keys.session == y.keys.session
    requires a.local == x.keys.local && a.peer == x.keys.peer && a.session.value == x.keys.session.value
    requires a.session.epoch as nat > x.keys.session.epoch as nat
    ensures Rekey(x, a) == NewEndpoint(a) && Rekey(y, b) == NewEndpoint(b)
    ensures Conveys(aead, a, b) && Conveys(aead, b, a)
  {
    UsableIs(a);
    CrossedBack(a, b);
    assert CanRekey(x, a) && CanRekey(y, b) by { hide ValidKeys; }
    hide OpensWhatItSeals, SealsAll, ValidKeys, Crossed, CanRekey, Conveys, Unusable;
    ValidKeysConvey(aead, a, b);
    ValidKeysConvey(aead, b, a);
  }

  /** Keys of another session, of other ends, or of no later epoch are not switched to. */
  lemma RekeyRefused(e: Endpoint, next: DirectionalKeys)
    requires || next.local != e.keys.local || next.peer != e.keys.peer || next.session.value != e.keys.session.value
             || next.session.epoch as nat <= e.keys.session.epoch as nat
    ensures Rekey(e, next) == e
  {
    hide ValidKeys;
  }

  // ---- which error, and what an opened record is ----

  /** The first test that fails names the error: keys, then header, then the cipher. */
  lemma SealErrors(e: Endpoint, aead: Aead, input: RecordHeader, plain: Bytes)
    ensures var s := Seal(e, aead, input, plain);
            if Unusable(e.keys) then s == NotSealed(InvalidKeys)
            else if !Sendable(e, input, |plain|) then s == NotSealed(InvalidHeader)
            else s.Sealed? || s == NotSealed(RecordError.AuthenticationFailed)
  {
    UsableIs(e.keys);
    SendableIs(e, input, |plain|);
    hide ValidKeys, Unusable, SealableHeader, Sendable, OutgoingHeader, Headers.HeaderBytes, NonceOf, AeadSeal;
  }

  /** What every opened record is: from the peer, to this end, of this session and epoch,
      of a known type, live, never committed, and exactly as long as it says. */
  lemma OpenedMeans(e: Endpoint, aead: Aead, record: Bytes, now: nat)
    requires Open(e, aead, record, now).Opened?
    ensures var m := Open(e, aead, record, now).message;
            var h := m.header;
            && h.version == 1 && Subscribers.InUse(h.typ) && h.flags <= 15 && h.qos <= 5
            && h.source == e.keys.peer && h.destination == e.keys.local
            && h.sessionId == e.keys.session.value && h.epoch == e.keys.session.epoch
            && |m.payload| == h.payloadLen as nat <= 768 && |record| == 40 + |m.payload| + 16
            && (h.deadline == 0 || now <= h.deadline as nat) && h.sequence as nat !in e.committed
            && Headers.DecodeHeader(record[..40]) == Some(h)
  {
    var h := Open(e, aead, record, now).message.header;
    Subscribers.TypesInUse(h.typ);
    LiveIs(h, now);
    hide ValidKeys, Headers.DecodeHeader, NonceOf, KnownType, Subscribers.InUse, PastDeadline;
  }

  /** Length is tested before anything in the record, and only after the keys. */
  lemma OpenLengths(e: Endpoint, aead: Aead, record: Bytes, now: nat)
    requires !Unusable(e.keys)
    ensures Open(e, aead, record, now) == NotOpened(InvalidLength) <==> |record| < 56 || |record| > 824
  {
    UsableIs(e.keys);
    hide ValidKeys, Unusable, AcceptableHeader, Fresh, Headers.DecodeHeader, AeadOpen, NonceOf, PastDeadline;
  }
}
