// Which values have an encoding (src/messages.cpp, src/session.cpp), said in numbers: the
// ranges and codes of the wire contract rather than the tests that enforce them.

module Validity {
  import opened Wire
  import opened Messages
  import opened Requests
  import opened Handshakes
  import opened HandshakeCodecs
  import Subscribers

  /** A 32-bit two's-complement pattern of absolute value at most n. */
  predicate WithinMagnitude(x: bv32, n: nat) {
    x as nat <= n || x as nat + n >= 0x1_0000_0000
  }

  lemma MagnitudeIs(x: bv32, n: nat)
    requires n < 0x8000_0000
    ensures WithinMagnitude(x, n) <==> 0 - n <= Signed(x) <= n
  {
  }

  /** A state message encodes exactly if its resource, generation and source are nonzero,
      its flag bytes are in order, and its quantities are in range: latitude within 90
      degrees and longitude within 180 (in units of 1e-7 degree), remaining charge at
      most 1000 permille and nothing reserved in use. */
  lemma StateEncodesIff(s: State)
    ensures EncodeState(s).Some? <==>
            && s.meta.resource != 0 && s.meta.generation != 0 && s.meta.source != 0
            && (s.meta.snapshot == 0 || s.meta.snapshot == 1) && s.meta.reserved == 0
            && InRange(s.reading)
  {
    FlagIs(s.meta.snapshot);
    InRangeIs(s.reading);
    hide StateBytes, ReadingValid, InRange;
  }

  predicate InRange(r: Reading) {
    match r
    case PositionReading(latitude, longitude, _) =>
      WithinMagnitude(latitude, 900_000_000) && WithinMagnitude(longitude, 1_800_000_000)
    case AttitudeReading(_, _, _) => true
    case BatteryReading(_, _, remaining, reserved) => remaining as nat <= 1000 && reserved == 0
  }

  lemma InRangeIs(r: Reading)
    ensures ReadingValid(r) <==> InRange(r)
  {
    hide Signed, WithinMagnitude;
    match r {
      case PositionReading(latitude, longitude, _) =>
        MagnitudeIs(latitude, 900_000_000);
        MagnitudeIs(longitude, 1_800_000_000);
      case BatteryReading(_, _, remaining, _) => PermilleIs(remaining);
      case _ =>
    }
  }

  lemma FlagIs(x: bv8)
    ensures x <= 1 <==> x == 0 || x == 1
  {
  }

  lemma PermilleIs(x: bv16)
    ensures x <= 1000 <==> x as nat <= 1000
  {
  }

  /** Neither infinite nor not-a-number: the exponent is not all ones. */
  predicate Ordinary(bits: bv32) {
    (bits >> 23) & 0xFF != 0xFF
  }

  lemma OrdinaryIs(bits: bv32)
    ensures Finite(bits) <==> Ordinary(bits)
  {
  }

  lemma CountIs(n: bv8)
    ensures n <= 7 <==> n as int <= 7
  {
  }

  /** A command encodes exactly if its identifiers and deadline are nonzero and it has at
      most seven arguments, all of them ordinary numbers. */
  lemma CommandEncodesIff(c: CommandRequest)
    requires |c.args| == 7
    ensures EncodeCommand(c).Some? <==>
            && c.requestId != 0 && c.commandId != 0 && c.deadline != 0 && c.argCount as int <= 7
            && forall i :: 0 <= i < c.argCount as int ==> Ordinary(c.args[i])
  {
    CountIs(c.argCount);
    forall i | 0 <= i < 7
      ensures Finite(c.args[i]) <==> Ordinary(c.args[i])
    {
      OrdinaryIs(c.args[i]);
    }
    hide CommandBytes, Finite, Ordinary;
  }

  /** Vehicle state, position, attitude, battery, link statistics, rate report. */
  predicate StateCode(t: bv8) {
    t == 17 || t == 18 || t == 19 || t == 20 || t == 21 || t == 65
  }

  /** The other requests. */
  lemma RequestEncodesIff(a: CommandAck, s: Subscription, r: ResyncRequest)
    ensures EncodeAck(a).Some? <==> a.requestId != 0
    ensures EncodeSubscription(s).Some? <==> Subscribers.InUse(s.typ) && s.source != 0
    ensures EncodeResync(r).Some? <==> StateCode(r.typ) && r.source != 0 && r.resource != 0
  {
    Subscribers.TypesInUse(s.typ);
    hide AckFields, SubscriptionFields, ResyncFields, KnownType, Subscribers.InUse;
  }

  /** The handshake messages. */
  lemma HandshakeEncodesIff(h: Hello, a: Accept, f: Finish)
    ensures ValidHello(h) <==> h.initiator != 0 && h.responder != 0 && h.initiator != h.responder && h.clientNonce != 0
    ensures EncodeAccept(a).Some? <==>
            && a.initiator != 0 && a.responder != 0 && a.initiator != a.responder
            && a.clientNonce != 0 && a.serverNonce != 0 && a.sessionId != 0 && a.epoch != 0
    ensures EncodeFinish(f).Some? <==>
            f.initiator != 0 && f.responder != 0 && f.initiator != f.responder && f.sessionId != 0 && f.epoch != 0
  {
    hide Framed, AcceptBody, FinishBody;
  }
}
