// The handshake and the record layer together: whatever the network did to the three
// handshake messages, and whatever it then does to the records, an established pair has
// a channel in each direction that carries what is sealed and delivers it at most once.

module SecureChannel {
  import opened Crc16
  import opened Wire
  import Headers
  import opened Crypto
  import opened Handshakes
  import opened Replay
  import opened Endpoints
  import opened Agreement
  import opened AtMostOnce
  import opened KeyUse

  /** Records only, no change of keys. */
  predicate KeepsKeys(ops: seq<AtMostOnce.Op>) {
    forall i :: 0 <= i < |ops| ==> ops[i].SealOp? || ops[i].DeliverOp?
  }

  /** The next record sealed opens at the other end, to the same payload and header,
      unless it is too late or the window refuses its sequence number. */
  ghost predicate Carries(aead: Aead, c: Channel) {
    forall input: RecordHeader, plain: Bytes, now: nat ::
      Seal(c.sender, aead, input, plain).Sealed? ==>
        Open(c.receiver, aead, Seal(c.sender, aead, input, plain).record, now) ==
        if PastDeadline(input, now) then NotOpened(TooLate)
        else if !Fresh(c.receiver.committed, input.sequence as nat) then NotOpened(Replayed)
        else Opened(NativeMessage(OutgoingHeader(input, |plain|), plain))
  }

  /** Everything delivered was sealed by the other end, and nothing twice. */
  ghost predicate AtMostOnceSoFar(c: Channel) {
    && (forall i :: 0 <= i < |c.delivered| ==> Genuine(c, c.delivered[i]))
    && (forall i, j :: 0 <= i < j < |c.delivered| ==>
          (c.delivered[i].header.epoch, c.delivered[i].header.sequence)
          != (c.delivered[j].header.epoch, c.delivered[j].header.sequence))
  }

  /** Over every run of records from a's end to b's, rekeying included: nothing is
      delivered twice, and records are carried whenever the two ends hold crossed keys -
      which they do as long as neither rekeys. */
  ghost predicate Works(aead: Aead, a: DirectionalKeys, b: DirectionalKeys) {
    forall ops :: AtMostOnce.AllowedRun(aead, a, b, ops) ==>
      var c := RunChannel(aead, a, b, ops);
      && AtMostOnceSoFar(c)
      && (KeepsKeys(ops) || Crossed(c.sender.keys, c.receiver.keys) ==> Carries(aead, c))
  }

  lemma {:induction false} KeysStay(aead: Aead, a: DirectionalKeys, b: DirectionalKeys, ops: seq<AtMostOnce.Op>)
    requires KeepsKeys(ops)
    ensures RunChannel(aead, a, b, ops).sender.keys == a && RunChannel(aead, a, b, ops).receiver.keys == b
    decreases |ops|
  {
    if ops != [] {
      KeysStay(aead, a, b, ops[..|ops| - 1]);
      assert ops[|ops| - 1].SealOp? || ops[|ops| - 1].DeliverOp?;
      hide Open, OutgoingHeader, SealCall, ValidKeys, SealableHeader, Headers.HeaderBytes, AeadSeal, NonceOf, Fresh, KeepsKeys;
    }
  }

  lemma CrossedCarries(aead: Aead, c: Channel)
    requires OpensWhatItSeals(aead) && Crossed(c.sender.keys, c.receiver.keys)
    ensures Carries(aead, c)
  {
    hide Seal, Open, PastDeadline, OutgoingHeader, OpensWhatItSeals, Fresh;
    forall input: RecordHeader, plain: Bytes, now: nat
      | Seal(c.sender, aead, input, plain).Sealed?
      ensures Open(c.receiver, aead, Seal(c.sender, aead, input, plain).record, now) ==
              if PastDeadline(input, now) then NotOpened(TooLate)
              else if !Fresh(c.receiver.committed, input.sequence as nat) then NotOpened(Replayed)
              else Opened(NativeMessage(OutgoingHeader(input, |plain|), plain))
    {
      SealOpenRoundTrip(c.sender, c.receiver, aead, input, plain, now);
    }
  }

  lemma CrossedWorks(aead: Aead, a: DirectionalKeys, b: DirectionalKeys)
    requires OpensWhatItSeals(aead) && Crossed(a, b)
    ensures Works(aead, a, b)
  {
    hide Carries, OpensWhatItSeals, RunChannel, AtMostOnce.AllowedRun, Crossed, KeepsKeys, Genuine;
    forall ops | AtMostOnce.AllowedRun(aead, a, b, ops)
      ensures var c := RunChannel(aead, a, b, ops);
              AtMostOnceSoFar(c) && (KeepsKeys(ops) || Crossed(c.sender.keys, c.receiver.keys) ==> Carries(aead, c))
    {
      var c := RunChannel(aead, a, b, ops);
      DeliveredAtMostOnce(aead, a, b, ops);
      if KeepsKeys(ops) {
        KeysStay(aead, a, b, ops);
      }
      if Crossed(c.sender.keys, c.receiver.keys) {
        CrossedCarries(aead, c);
      }
    }
  }

  /** After any handshake run over a network that cannot forge tags, an established party
      shares a working channel with its peer in each direction; and if the pseudo-random
      function tells its inputs apart and the cipher seals, every fitting record really is
      sealed and opened. */
  lemma EstablishedChannel(mac: Mac, prf: Prf, aead: Aead, a: bv16, b: bv16, psk: Key, ops: seq<Agreement.Op>)
    requires OpensWhatItSeals(aead) && Agreement.AllowedRun(mac, prf, Begin(a, b, psk), ops)
    ensures var p := RunPair(mac, prf, Begin(a, b, psk), ops);
            p.initiator.established || p.responder.established ==>
              && p.initiator.keys.Some? && p.responder.keys.Some?
              && Works(aead, p.initiator.keys.value, p.responder.keys.value)
              && Works(aead, p.responder.keys.value, p.initiator.keys.value)
              && (SealsAll(aead) && Separates(prf, psk) ==>
                    && Conveys(aead, p.initiator.keys.value, p.responder.keys.value)
                    && Conveys(aead, p.responder.keys.value, p.initiator.keys.value))
  {
    HandshakeAgreement(mac, prf, a, b, psk, ops);
    if SealsAll(aead) && Separates(prf, psk) {
      EstablishedConveys(mac, prf, aead, a, b, psk, ops);
    }
    hide RunPair, Agreement.AllowedRun, Begin, Works, OpensWhatItSeals, SealsAll, Separates, Conveys, Crossed;
    var p := RunPair(mac, prf, Begin(a, b, psk), ops);
    if p.initiator.established {
      CrossedBack(p.initiator.keys.value, p.responder.keys.value);
      CrossedWorks(aead, p.initiator.keys.value, p.responder.keys.value);
      CrossedWorks(aead, p.responder.keys.value, p.initiator.keys.value);
    }
  }
}
