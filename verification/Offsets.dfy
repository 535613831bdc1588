// Where each field of each message sits (src/messages.cpp, src/record.cpp,
// src/session.cpp, src/crypto.cpp): the byte offsets that both ends must agree on, read
// off the encodings.

module Offsets {
  import opened Crc16
  import opened Wire
  import opened Layout
  import opened Messages
  import opened Requests
  import opened Crypto
  import opened Handshakes
  import opened HandshakeCodecs
  import Headers
  import Encoders

  /** The field's little-endian bytes stand at this offset. */
  ghost predicate Spells(b: Bytes, off: nat, f: Field) {
    off + Width(f) <= |b| && b[off..off + Width(f)] == Le(f)
  }

  lemma SpellsLater(b: Bytes, c: Bytes, off: nat, f: Field)
    requires Spells(b, off, f)
    ensures Spells(b + c, off, f) && Spells(c + b, |c| + off, f)
  {
    hide Le, Width;
    var w := Width(f);
    assert (b + c)[off..off + w] == b[off..off + w];
    assert (c + b)[|c| + off..|c| + off + w] == b[off..off + w];
  }

  lemma LastField(x: Bytes, f: Field)
    ensures Spells(x + Le(f), |x|, f)
  {
    hide Le;
  }

  lemma FrontWidths(fs: seq<Field>, i: nat)
    requires fs != [] && i <= |fs| - 1
    ensures |Widths(fs)| == |fs| && Widths(fs)[..i] == Widths(fs[..|fs| - 1])[..i]
  {
    hide Width;
  }

  lemma {:induction false} FieldAt(fs: seq<Field>, i: nat)
    requires i < |fs| == |Widths(fs)|
    ensures Spells(Encode(fs), Total(Widths(fs)[..i]), fs[i])
    decreases |fs|
  {
    hide *;
    var n := |fs| - 1;
    var front := fs[..n];
    EncodeUnfold(fs);
    FrontWidths(fs, i);
    if i < n {
      WidthsCount(front);
      FieldAt(front, i);
      SpellsLater(Encode(front), Le(fs[n]), Total(Widths(fs)[..i]), fs[i]);
    } else {
      EncodeLength(front);
      WidthsCount(front);
      assert Widths(front)[..i] == Widths(front);
      LastField(Encode(front), fs[n]);
    }
  }

  lemma WidthsCount(fs: seq<Field>)
    ensures |Widths(fs)| == |fs|
  {
  }

  /** The same with the offset summed up. */
  lemma At(fs: seq<Field>, ws: seq<nat>, i: nat, off: nat)
    requires Widths(fs) == ws && i < |fs| && i < |ws| && Sum(ws, i) == off
    ensures Spells(Encode(fs), off, fs[i])
  {
    WidthsCount(fs);
    FieldAt(fs, i);
    TotalIsSum(ws, i);
    hide Encode, Total, Widths, Spells;
  }

  // ---- state messages ----

  lemma MetaOffsets(m: StateMeta)
    ensures var b := Encode(MetaFields(m));
            && Spells(b, 0, F32(m.resource)) && Spells(b, 4, F32(m.generation)) && Spells(b, 8, F32(m.base))
            && Spells(b, 12, F16(m.source)) && Spells(b, 14, F8(m.snapshot)) && Spells(b, 15, F8(m.reserved))
  {
    var fs, ws := MetaFields(m), META_LAYOUT;
    assert Sum(ws, 0) == 0 && Sum(ws, 1) == 4 && Sum(ws, 2) == 8 && Sum(ws, 3) == 12 && Sum(ws, 4) == 14 && Sum(ws, 5) == 15;
    hide Encode, Spells, Sum, Widths;
    At(fs, ws, 0, 0);
    At(fs, ws, 1, 4);
    At(fs, ws, 2, 8);
    At(fs, ws, 3, 12);
    At(fs, ws, 4, 14);
    At(fs, ws, 5, 15);
  }

  lemma TripleOffsets(a: bv32, b: bv32, c: bv32)
    ensures var x := Encode([F32(a), F32(b), F32(c)]);
            Spells(x, 0, F32(a)) && Spells(x, 4, F32(b)) && Spells(x, 8, F32(c))
  {
    var fs, ws := [F32(a), F32(b), F32(c)], [4, 4, 4];
    assert Widths(fs) == ws && Sum(ws, 0) == 0 && Sum(ws, 1) == 4 && Sum(ws, 2) == 8;
    hide Encode, Spells, Sum, Widths;
    At(fs, ws, 0, 0);
    At(fs, ws, 1, 4);
    At(fs, ws, 2, 8);
  }

  lemma QuadOffsets(a: bv16, b: bv16, c: bv16, d: bv16)
    ensures var x := Encode([F16(a), F16(b), F16(c), F16(d)]);
            Spells(x, 0, F16(a)) && Spells(x, 2, F16(b)) && Spells(x, 4, F16(c)) && Spells(x, 6, F16(d))
  {
    var fs, ws := [F16(a), F16(b), F16(c), F16(d)], [2, 2, 2, 2];
    assert Widths(fs) == ws && Sum(ws, 0) == 0 && Sum(ws, 1) == 2 && Sum(ws, 2) == 4 && Sum(ws, 3) == 6;
    hide Encode, Spells, Sum, Widths;
    At(fs, ws, 0, 0);
    At(fs, ws, 1, 2);
    At(fs, ws, 2, 4);
    At(fs, ws, 3, 6);
  }

  /** Metadata in the first sixteen bytes, then the quantities in the order of the wire
      contract. */
  lemma StateOffsets(s: State)
    ensures var b, m := StateBytes(s), s.meta;
            && Spells(b, 0, F32(m.resource)) && Spells(b, 4, F32(m.generation)) && Spells(b, 8, F32(m.base))
            && Spells(b, 12, F16(m.source)) && Spells(b, 14, F8(m.snapshot)) && Spells(b, 15, F8(m.reserved))
            && (match s.reading
                case PositionReading(latitude, longitude, altitude) =>
                  |b| == 28 && Spells(b, 16, F32(latitude)) && Spells(b, 20, F32(longitude)) && Spells(b, 24, F32(altitude))
                case AttitudeReading(roll, pitch, yaw) =>
                  |b| == 28 && Spells(b, 16, F32(roll)) && Spells(b, 20, F32(pitch)) && Spells(b, 24, F32(yaw))
                case BatteryReading(voltage, current, remaining, reserved) =>
                  |b| == 24 && Spells(b, 16, F16(voltage)) && Spells(b, 18, F16(current)) && Spells(b, 20, F16(remaining))
                  && Spells(b, 22, F16(reserved)))
  {
    var x, y := Encode(MetaFields(s.meta)), Encode(ReadingFields(s.reading));
    StateLength(s);
    MetaFront(s.meta, y);
    ReadingBack(s.reading, x);
    hide Encode, Spells, MetaFields, ReadingFields;
  }

  lemma MetaFront(m: StateMeta, y: Bytes)
    ensures var b := Encode(MetaFields(m)) + y;
            && Spells(b, 0, F32(m.resource)) && Spells(b, 4, F32(m.generation)) && Spells(b, 8, F32(m.base))
            && Spells(b, 12, F16(m.source)) && Spells(b, 14, F8(m.snapshot)) && Spells(b, 15, F8(m.reserved))
  {
    MetaOffsets(m);
    var x := Encode(MetaFields(m));
    hide Encode, Spells, MetaFields;
    SpellsLater(x, y, 0, F32(m.resource));
    SpellsLater(x, y, 4, F32(m.generation));
    SpellsLater(x, y, 8, F32(m.base));
    SpellsLater(x, y, 12, F16(m.source));
    SpellsLater(x, y, 14, F8(m.snapshot));
    SpellsLater(x, y, 15, F8(m.reserved));
  }

  lemma ReadingBack(r: Reading, x: Bytes)
    requires |x| == 16
    ensures var b := x + Encode(ReadingFields(r));
            match r
            case PositionReading(latitude, longitude, altitude) =>
              Spells(b, 16, F32(latitude)) && Spells(b, 20, F32(longitude)) && Spells(b, 24, F32(altitude))
            case AttitudeReading(roll, pitch, yaw) =>
              Spells(b, 16, F32(roll)) && Spells(b, 20, F32(pitch)) && Spells(b, 24, F32(yaw))
            case BatteryReading(voltage, current, remaining, reserved) =>
              Spells(b, 16, F16(voltage)) && Spells(b, 18, F16(current)) && Spells(b, 20, F16(remaining)) && Spells(b, 22, F16(reserved))
  {
    match r {
      case PositionReading(latitude, longitude, altitude) => TripleBack(latitude, longitude, altitude, x);
      case AttitudeReading(roll, pitch, yaw) => TripleBack(roll, pitch, yaw, x);
      case BatteryReading(voltage, current, remaining, reserved) => QuadBack(voltage, current, remaining, reserved, x);
    }
    hide Encode, Spells;
  }

  lemma TripleBack(a: bv32, b: bv32, c: bv32, x: Bytes)
    requires |x| == 16
    ensures var y := x + Encode([F32(a), F32(b), F32(c)]);
            Spells(y, 16, F32(a)) && Spells(y, 20, F32(b)) && Spells(y, 24, F32(c))
  {
    TripleOffsets(a, b, c);
    var y := Encode([F32(a), F32(b), F32(c)]);
    hide Encode, Spells;
    SpellsLater(y, x, 0, F32(a));
    SpellsLater(y, x, 4, F32(b));
    SpellsLater(y, x, 8, F32(c));
  }

  lemma QuadBack(a: bv16, b: bv16, c: bv16, d: bv16, x: Bytes)
    requires |x| == 16
    ensures var y := x + Encode([F16(a), F16(b), F16(c), F16(d)]);
            Spells(y, 16, F16(a)) && Spells(y, 18, F16(b)) && Spells(y, 20, F16(c)) && Spells(y, 22, F16(d))
  {
    QuadOffsets(a, b, c, d);
    var y := Encode([F16(a), F16(b), F16(c), F16(d)]);
    hide Encode, Spells;
    SpellsLater(y, x, 0, F16(a));
    SpellsLater(y, x, 2, F16(b));
    SpellsLater(y, x, 4, F16(c));
    SpellsLater(y, x, 6, F16(d));
  }

  // ---- requests ----

  lemma CommandOffsets(c: CommandRequest)
    requires |c.args| == 7
    ensures var b := CommandBytes(c);
            && |b| == 44 && Spells(b, 0, F64(c.requestId)) && Spells(b, 8, F16(c.commandId)) && Spells(b, 10, F16(c.deadline))
            && Spells(b, 12, F8(c.argCount)) && (forall i :: 0 <= i < 7 ==> Spells(b, 16 + 4 * i, F32(c.args[i])))
  {
    var x, y := Encode(HeadFields(c)), Encode(ArgFields(c.args));
    Encoders.CommandLength(c);
    CommandTotal();
    EncodeLength(HeadFields(c));
    CommandHeadOffsets(c);
    assert |x| == 16 && CommandBytes(c) == x + y;
    hide Encode, Spells, HeadFields, ArgFields, CommandBytes, Total, Widths;
    SpellsLater(x, y, 0, F64(c.requestId));
    SpellsLater(x, y, 8, F16(c.commandId));
    SpellsLater(x, y, 10, F16(c.deadline));
    SpellsLater(x, y, 12, F8(c.argCount));
    forall i | 0 <= i < 7
      ensures Spells(x + y, 16 + 4 * i, F32(c.args[i]))
    {
      ArgumentOffset(c.args, i);
      SpellsLater(y, x, 4 * i, F32(c.args[i]));
    }
  }

  lemma CommandHeadOffsets(c: CommandRequest)
    ensures var x := Encode(HeadFields(c));
            && Spells(x, 0, F64(c.requestId)) && Spells(x, 8, F16(c.commandId)) && Spells(x, 10, F16(c.deadline))
            && Spells(x, 12, F8(c.argCount))
  {
    var fs, ws := HeadFields(c), COMMAND_HEAD;
    assert Sum(ws, 0) == 0 && Sum(ws, 1) == 8 && Sum(ws, 2) == 10 && Sum(ws, 3) == 12;
    hide Encode, Spells, Sum, Widths;
    At(fs, ws, 0, 0);
    At(fs, ws, 1, 8);
    At(fs, ws, 2, 10);
    At(fs, ws, 3, 12);
  }

  lemma ArgumentOffset(args: seq<bv32>, i: nat)
    requires |args| == 7 && i < 7
    ensures Spells(Encode(ArgFields(args)), 4 * i, F32(args[i]))
  {
    var fs, ws := ArgFields(args), COMMAND_ARGS;
    FoursSum(ws, i);
    assert fs[i] == F32(args[i]);
    hide Encode, Spells, Sum, Widths, ArgFields;
    At(fs, ws, i, 4 * i);
  }

  lemma {:induction false} FoursSum(ws: seq<nat>, i: nat)
    requires i <= |ws| && forall j :: 0 <= j < |ws| ==> ws[j] == 4
    ensures Sum(ws, i) == 4 * i
    decreases i
  {
    if i > 0 {
      FoursSum(ws, i - 1);
    }
  }

  lemma AckOffsets(a: CommandAck)
    ensures var b := Encode(AckFields(a));
            && Spells(b, 0, F64(a.requestId)) && Spells(b, 8, F8(a.status)) && Spells(b, 9, F8(a.detail))
            && Spells(b, 10, F16(a.reserved)) && Spells(b, 12, F32(a.resultCode))
  {
    var fs, ws := AckFields(a), ACK_LAYOUT;
    assert Sum(ws, 0) == 0 && Sum(ws, 1) == 8 && Sum(ws, 2) == 9 && Sum(ws, 3) == 10 && Sum(ws, 4) == 12;
    hide Encode, Spells, Sum, Widths;
    At(fs, ws, 0, 0);
    At(fs, ws, 1, 8);
    At(fs, ws, 2, 9);
    At(fs, ws, 3, 10);
    At(fs, ws, 4, 12);
  }

  lemma SubscriptionOffsets(s: Subscription)
    ensures var b := Encode(SubscriptionFields(s));
            && Spells(b, 0, F8(s.typ)) && Spells(b, 1, F8(s.qos)) && Spells(b, 2, F16(s.source))
            && Spells(b, 4, F16(s.interval)) && Spells(b, 6, F32(s.flags))
  {
    var fs, ws := SubscriptionFields(s), SUBSCRIBE_LAYOUT;
    assert Sum(ws, 0) == 0 && Sum(ws, 1) == 1 && Sum(ws, 2) == 2 && Sum(ws, 3) == 4 && Sum(ws, 4) == 6;
    hide Encode, Spells, Sum, Widths;
    At(fs, ws, 0, 0);
    At(fs, ws, 1, 1);
    At(fs, ws, 2, 2);
    At(fs, ws, 3, 4);
    At(fs, ws, 4, 6);
  }

  lemma ResyncOffsets(r: ResyncRequest)
    ensures var b := Encode(ResyncFields(r));
            Spells(b, 0, F8(r.typ)) && Spells(b, 1, F8(0)) && Spells(b, 2, F16(r.source)) && Spells(b, 4, F32(r.resource))
  {
    var fs, ws := ResyncFields(r), RESYNC_LAYOUT;
    assert Sum(ws, 0) == 0 && Sum(ws, 1) == 1 && Sum(ws, 2) == 2 && Sum(ws, 3) == 4;
    hide Encode, Spells, Sum, Widths;
    At(fs, ws, 0, 0);
    At(fs, ws, 1, 1);
    At(fs, ws, 2, 2);
    At(fs, ws, 3, 4);
  }

  // ---- the record header and the nonce ----

  lemma HeadOffsets(h: RecordHeader)
    ensures var b := Headers.HeadBytes(h);
            && |b| == 36 && Spells(b, 0, F8(h.version)) && Spells(b, 1, F8(h.flags)) && Spells(b, 2, F8(h.typ)) && Spells(b, 3, F8(h.qos))
            && Spells(b, 4, F16(h.source)) && Spells(b, 6, F16(h.destination)) && Spells(b, 8, F64(h.sessionId))
            && Spells(b, 16, F64(h.epoch)) && Spells(b, 24, F64(h.sequence))
            && Spells(b, 32, F16(h.payloadLen)) && Spells(b, 34, F16(h.deadline))
  {
    Headers.HeadLength(h);
    HeadIds(h);
    HeadRest(h);
    hide Encode, Spells, Headers.HeadFields;
  }

  lemma HeadIds(h: RecordHeader)
    ensures var b := Encode(Headers.HeadFields(h));
            && Spells(b, 0, F8(h.version)) && Spells(b, 1, F8(h.flags)) && Spells(b, 2, F8(h.typ)) && Spells(b, 3, F8(h.qos))
            && Spells(b, 4, F16(h.source)) && Spells(b, 6, F16(h.destination))
  {
    var fs, ws := Headers.HeadFields(h), Headers.HEAD_LAYOUT;
    assert Sum(ws, 0) == 0 && Sum(ws, 1) == 1 && Sum(ws, 2) == 2 && Sum(ws, 3) == 3 && Sum(ws, 4) == 4 && Sum(ws, 5) == 6;
    hide Encode, Spells, Sum, Widths;
    At(fs, ws, 0, 0);
    At(fs, ws, 1, 1);
    At(fs, ws, 2, 2);
    At(fs, ws, 3, 3);
    At(fs, ws, 4, 4);
    At(fs, ws, 5, 6);
  }

  lemma HeadRest(h: RecordHeader)
    ensures var b := Encode(Headers.HeadFields(h));
            && Spells(b, 8, F64(h.sessionId)) && Spells(b, 16, F64(h.epoch)) && Spells(b, 24, F64(h.sequence))
            && Spells(b, 32, F16(h.payloadLen)) && Spells(b, 34, F16(h.deadline))
  {
    var fs, ws := Headers.HeadFields(h), Headers.HEAD_LAYOUT;
    assert Sum(ws, 5) == 6 && Sum(ws, 6) == 8 && Sum(ws, 7) == 16 && Sum(ws, 8) == 24 && Sum(ws, 9) == 32 && Sum(ws, 10) == 34;
    hide Encode, Spells, Sum, Widths;
    At(fs, ws, 6, 8);
    At(fs, ws, 7, 16);
    At(fs, ws, 8, 24);
    At(fs, ws, 9, 32);
    At(fs, ws, 10, 34);
  }

  /** Session identifier, then epoch exclusive-or sequence number. */
  lemma NonceOffsets(session: SessionId, sequence: bv64)
    ensures var n := NonceOf(session, sequence);
            |n| == 16 && Spells(n, 0, F64(session.value)) && Spells(n, 8, F64(session.epoch ^ sequence))
  {
    Le64Length(session.value);
    Le64Length(session.epoch ^ sequence);
    assert Mix(session.epoch, sequence) == session.epoch ^ sequence;
    hide Le64, Mix;
  }

  lemma SessionOffsets(session: SessionId, first: bv16, second: bv16)
    ensures var y := Encode(Encoders.SessionFields(session, first, second));
            && |y| == 24 && Spells(y, 0, F64(session.value)) && Spells(y, 8, F64(session.epoch))
            && Spells(y, 16, F16(first)) && Spells(y, 18, F16(second)) && Spells(y, 20, F32(0))
  {
    var fs, ws := Encoders.SessionFields(session, first, second), [8, 8, 2, 2, 4];
    Encoders.DerivationLength(session, first, second);
    assert Sum(ws, 0) == 0 && Sum(ws, 1) == 8 && Sum(ws, 2) == 16 && Sum(ws, 3) == 18 && Sum(ws, 4) == 20;
    hide Encode, Spells, Sum, Widths;
    At(fs, ws, 0, 0);
    At(fs, ws, 1, 8);
    At(fs, ws, 2, 16);
    At(fs, ws, 3, 18);
    At(fs, ws, 4, 20);
  }

  /** Label, session, epoch, the two identifiers in the initiator's order, block number 0. */
  lemma DerivationOffsets(tag: Bytes, session: SessionId, first: bv16, second: bv16)
    requires |tag| == 8
    ensures var b := DerivationInput(tag, session, first, second);
            && |b| == 32 && b[..8] == tag && Spells(b, 8, F64(session.value)) && Spells(b, 16, F64(session.epoch))
            && Spells(b, 24, F16(first)) && Spells(b, 26, F16(second)) && Spells(b, 28, F32(0))
  {
    var y := Encode(Encoders.SessionFields(session, first, second));
    assert DerivationInput(tag, session, first, second) == tag + y;
    SessionOffsets(session, first, second);
    hide *;
    SpellsLater(y, tag, 0, F64(session.value));
    SpellsLater(y, tag, 8, F64(session.epoch));
    SpellsLater(y, tag, 16, F16(first));
    SpellsLater(y, tag, 18, F16(second));
    SpellsLater(y, tag, 20, F32(0));
  }

  // ---- the handshake ----

  lemma TranscriptOffsets(h: Hello, a: Accept)
    ensures var b := Transcript(h, a);
            && |b| == 52 && Spells(b, 0, F16(h.initiator)) && Spells(b, 2, F16(h.responder)) && Spells(b, 4, F64(h.clientNonce))
            && Spells(b, 12, F32(h.capabilities)) && Spells(b, 16, F16(a.initiator)) && Spells(b, 18, F16(a.responder))
            && Spells(b, 20, F64(a.clientNonce)) && Spells(b, 28, F64(a.serverNonce))
            && Spells(b, 36, F64(a.sessionId)) && Spells(b, 44, F64(a.epoch))
  {
    TranscriptLength(h, a);
    TranscriptFront(h, a);
    TranscriptBack(h, a);
    hide Encode, Spells, TranscriptFields;
  }

  lemma TranscriptFront(h: Hello, a: Accept)
    ensures var b := Encode(TranscriptFields(h, a));
            && Spells(b, 0, F16(h.initiator)) && Spells(b, 2, F16(h.responder)) && Spells(b, 4, F64(h.clientNonce))
            && Spells(b, 12, F32(h.capabilities)) && Spells(b, 16, F16(a.initiator))
  {
    var fs, ws := TranscriptFields(h, a), TRANSCRIPT_LAYOUT;
    assert Sum(ws, 0) == 0 && Sum(ws, 1) == 2 && Sum(ws, 2) == 4 && Sum(ws, 3) == 12 && Sum(ws, 4) == 16;
    hide Encode, Spells, Sum, Widths;
    At(fs, ws, 0, 0);
    At(fs, ws, 1, 2);
    At(fs, ws, 2, 4);
    At(fs, ws, 3, 12);
    At(fs, ws, 4, 16);
  }

  lemma TranscriptBack(h: Hello, a: Accept)
    ensures var b := Encode(TranscriptFields(h, a));
            && Spells(b, 18, F16(a.responder)) && Spells(b, 20, F64(a.clientNonce)) && Spells(b, 28, F64(a.serverNonce))
            && Spells(b, 36, F64(a.sessionId)) && Spells(b, 44, F64(a.epoch))
  {
    var fs, ws := TranscriptFields(h, a), TRANSCRIPT_LAYOUT;
    assert Sum(ws, 4) == 16 && Sum(ws, 5) == 18 && Sum(ws, 6) == 20 && Sum(ws, 7) == 28 && Sum(ws, 8) == 36 && Sum(ws, 9) == 44;
    hide Encode, Spells, Sum, Widths;
    At(fs, ws, 5, 18);
    At(fs, ws, 6, 20);
    At(fs, ws, 7, 28);
    At(fs, ws, 8, 36);
    At(fs, ws, 9, 44);
  }

  lemma FinishOffsets(i: bv16, r: bv16, s: bv64, e: bv64)
    ensures var b := FinishInput(i, r, s, e);
            |b| == 20 && Spells(b, 0, F16(i)) && Spells(b, 2, F16(r)) && Spells(b, 4, F64(s)) && Spells(b, 12, F64(e))
  {
    var fs, ws := FinishFields(i, r, s, e), FINISH_LAYOUT;
    FinishLength(i, r, s, e);
    assert Sum(ws, 0) == 0 && Sum(ws, 1) == 2 && Sum(ws, 2) == 4 && Sum(ws, 3) == 12;
    hide Encode, Spells, Sum, Widths;
    At(fs, ws, 0, 0);
    At(fs, ws, 1, 2);
    At(fs, ws, 2, 4);
    At(fs, ws, 3, 12);
  }

  lemma HelloOffsets(v: Hello)
    ensures var b := HelloBody(v);
            && |b| == 16 && Spells(b, 0, F16(v.initiator)) && Spells(b, 2, F16(v.responder))
            && Spells(b, 4, F64(v.clientNonce)) && Spells(b, 12, F32(v.capabilities))
  {
    var fs, ws := HelloFields(v), HELLO_LAYOUT;
    HelloBodyRoundTrip(v);
    assert Sum(ws, 0) == 0 && Sum(ws, 1) == 2 && Sum(ws, 2) == 4 && Sum(ws, 3) == 12;
    hide Encode, Spells, Sum, Widths;
    At(fs, ws, 0, 0);
    At(fs, ws, 1, 2);
    At(fs, ws, 2, 4);
    At(fs, ws, 3, 12);
  }

  lemma AcceptOffsets(v: Accept)
    ensures var b := Encode(AcceptFields(v));
            && Spells(b, 0, F16(v.initiator)) && Spells(b, 2, F16(v.responder)) && Spells(b, 4, F64(v.clientNonce))
            && Spells(b, 12, F64(v.serverNonce)) && Spells(b, 20, F64(v.sessionId)) && Spells(b, 28, F64(v.epoch))
  {
    var fs, ws := AcceptFields(v), ACCEPT_LAYOUT;
    assert Sum(ws, 0) == 0 && Sum(ws, 1) == 2 && Sum(ws, 2) == 4 && Sum(ws, 3) == 12 && Sum(ws, 4) == 20 && Sum(ws, 5) == 28;
    hide Encode, Spells, Sum, Widths;
    At(fs, ws, 0, 0);
    At(fs, ws, 1, 2);
    At(fs, ws, 2, 4);
    At(fs, ws, 3, 12);
    At(fs, ws, 4, 20);
    At(fs, ws, 5, 28);
  }
}
