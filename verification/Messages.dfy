// Typed payload codecs (src/messages.cpp).  Each is a field layout and a validity
// test; the round-trip results say exactly when decoding undoes encoding and that
// re-encoding an accepted byte string gives that byte string back.

module Messages {
  import opened Crc16
  import opened Wire
  import opened Layout

  // ---- state metadata ----

  datatype StateMeta = StateMeta(
    resource: bv32,
    generation: bv32,
    base: bv32,
    source: bv16,
    snapshot: bv8,
    reserved: bv8)

  /** A generation as a number. */
  function Serial(m: StateMeta): nat {
    m.generation as nat
  }

  const META_LAYOUT: seq<nat> := [4, 4, 4, 2, 1, 1]
  const META_BYTES := 16

  function MetaFields(m: StateMeta): (fs: seq<Field>)
    ensures Widths(fs) == META_LAYOUT
  {
    [F32(m.resource), F32(m.generation), F32(m.base), F16(m.source), F8(m.snapshot), F8(m.reserved)]
  }

  function MetaOfFields(fs: seq<Field>): (m: StateMeta)
    requires Widths(fs) == META_LAYOUT
    ensures MetaFields(m) == fs
  {
    assert |Widths(fs)| == 6;
    assert Widths(fs)[0] == 4 && Widths(fs)[1] == 4 && Widths(fs)[2] == 4;
    assert Widths(fs)[3] == 2 && Widths(fs)[4] == 1 && Widths(fs)[5] == 1;
    StateMeta(fs[0].v32, fs[1].v32, fs[2].v32, fs[3].v16, fs[4].v8, fs[5].v8)
  }

  predicate MetaNonzero(m: StateMeta) {
    m.resource != 0 && m.generation != 0 && m.source != 0
  }

  /** What the typed encoders and decode_state_meta demand beyond nonzero ids. */
  predicate MetaFlagsValid(m: StateMeta) {
    m.snapshot <= 1 && m.reserved == 0
  }

  function EncodeMeta(m: StateMeta): Option<Bytes> {
    if MetaNonzero(m) then Some(Encode(MetaFields(m))) else None
  }

  function DecodeMeta(b: Bytes): Option<StateMeta> {
    if |b| != META_BYTES then None
    else
      MetaTotal();
      var m := MetaOfFields(Decode(META_LAYOUT, b));
      if MetaNonzero(m) && MetaFlagsValid(m) then Some(m) else None
  }

  lemma MetaTotal()
    ensures Total(META_LAYOUT) == META_BYTES && AllWidths(META_LAYOUT)
  {
    TotalIsSum(META_LAYOUT, 6);
  }

  /** Decoding accepts exactly the encodings whose flags it would itself emit. */
  lemma MetaRoundTrip(m: StateMeta, b: Bytes)
    ensures DecodeMeta(b) == Some(m) <==> EncodeMeta(m) == Some(b) && MetaFlagsValid(m)
  {
    MetaTotal();
    DecodeOfEncode(MetaFields(m));
    if |b| == META_BYTES {
      EncodeOfDecode(META_LAYOUT, b);
    }
    hide Encode, Decode, Total;
  }

  // ---- position, attitude, battery ----

  datatype Kind = PositionKind | AttitudeKind | BatteryKind

  // Signed 32-bit quantities are held as their two's-complement patterns.
  datatype Reading =
    | PositionReading(latitude: bv32, longitude: bv32, altitude: bv32)
    | AttitudeReading(roll: bv32, pitch: bv32, yaw: bv32)
    | BatteryReading(voltage: bv16, current: bv16, remaining: bv16, batteryReserved: bv16)

  datatype State = State(meta: StateMeta, reading: Reading)

  function KindOf(r: Reading): Kind {
    match r
    case PositionReading(_, _, _) => PositionKind
    case AttitudeReading(_, _, _) => AttitudeKind
    case BatteryReading(_, _, _, _) => BatteryKind
  }

  function TypeOf(k: Kind): bv8 {
    match k
    case PositionKind => POSITION
    case AttitudeKind => ATTITUDE
    case BatteryKind => BATTERY
  }

  function Signed(x: bv32): int {
    if x as nat < 0x8000_0000 then x as int else x as int - 0x1_0000_0000
  }

  predicate ReadingValid(r: Reading) {
    match r
    case PositionReading(lat, lon, _) =>
      -900000000 <= Signed(lat) <= 900000000 && -1800000000 <= Signed(lon) <= 1800000000
    case AttitudeReading(_, _, _) => true
    case BatteryReading(_, _, remaining, reserved) => remaining <= 1000 && reserved == 0
  }

  function ReadingLayout(k: Kind): (ws: seq<nat>)
    ensures AllWidths(ws)
  {
    if k == BatteryKind then [2, 2, 2, 2] else [4, 4, 4]
  }

  function ReadingBytes(k: Kind): nat {
    if k == BatteryKind then 8 else 12
  }

  function ReadingFields(r: Reading): (fs: seq<Field>)
    ensures Widths(fs) == ReadingLayout(KindOf(r))
  {
    match r
    case PositionReading(a, b, c) => [F32(a), F32(b), F32(c)]
    case AttitudeReading(a, b, c) => [F32(a), F32(b), F32(c)]
    case BatteryReading(a, b, c, d) => [F16(a), F16(b), F16(c), F16(d)]
  }

  function ReadingOfFields(k: Kind, fs: seq<Field>): (r: Reading)
    requires Widths(fs) == ReadingLayout(k)
    ensures KindOf(r) == k && ReadingFields(r) == fs
  {
    assert |Widths(fs)| == |fs|;
    assert Widths(fs)[0] == Widths(fs)[1] == Widths(fs)[2] == (if k == BatteryKind then 2 else 4);
    assert k == BatteryKind ==> Widths(fs)[3] == 2;
    match k
    case PositionKind => PositionReading(fs[0].v32, fs[1].v32, fs[2].v32)
    case AttitudeKind => AttitudeReading(fs[0].v32, fs[1].v32, fs[2].v32)
    case BatteryKind => BatteryReading(fs[0].v16, fs[1].v16, fs[2].v16, fs[3].v16)
  }

  lemma ReadingTotal(k: Kind)
    ensures Total(ReadingLayout(k)) == ReadingBytes(k)
  {
    TotalIsSum([4, 4, 4], 3);
    TotalIsSum([2, 2, 2, 2], 4);
  }

  predicate Encodable(s: State) {
    MetaNonzero(s.meta) && MetaFlagsValid(s.meta) && ReadingValid(s.reading)
  }

  function StateBytes(s: State): Bytes {
    Encode(MetaFields(s.meta)) + Encode(ReadingFields(s.reading))
  }

  function EncodeState(s: State): Option<Bytes> {
    if Encodable(s) then Some(StateBytes(s)) else None
  }

  function DecodeState(k: Kind, b: Bytes): Option<State> {
    if |b| != META_BYTES + ReadingBytes(k) then None
    else
      ReadingTotal(k);
      var r := ReadingOfFields(k, Decode(ReadingLayout(k), b[META_BYTES..]));
      match DecodeMeta(b[..META_BYTES])
      case None => None
      case Some(m) => if ReadingValid(r) then Some(State(m, r)) else None
  }

  /** The reading half alone. */
  lemma ReadingRoundTrip(k: Kind, r: Reading, b: Bytes)
    requires |b| == ReadingBytes(k)
    ensures Total(ReadingLayout(k)) == |b|
    ensures KindOf(r) == k && Encode(ReadingFields(r)) == b <==> ReadingOfFields(k, Decode(ReadingLayout(k), b)) == r
  {
    ReadingTotal(k);
    DecodeOfEncode(ReadingFields(r));
    EncodeOfDecode(ReadingLayout(k), b);
    hide Encode, Decode, Total;
  }

  lemma StateLength(s: State)
    ensures |Encode(MetaFields(s.meta))| == META_BYTES
    ensures |Encode(ReadingFields(s.reading))| == ReadingBytes(KindOf(s.reading))
  {
    MetaTotal();
    ReadingTotal(KindOf(s.reading));
    EncodeLength(MetaFields(s.meta));
    EncodeLength(ReadingFields(s.reading));
  }

  /** Encoding and decoding are inverse on everything either accepts. */
  lemma StateRoundTrip(k: Kind, s: State, b: Bytes)
    ensures DecodeState(k, b) == Some(s) <==> EncodeState(s) == Some(b) && KindOf(s.reading) == k
  {
    StateLength(s);
    if |b| == META_BYTES + ReadingBytes(k) {
      var front, back := b[..META_BYTES], b[META_BYTES..];
      assert b == front + back;
      MetaRoundTrip(s.meta, front);
      ReadingRoundTrip(k, s.reading, back);
      SplitAt(b, META_BYTES, Encode(MetaFields(s.meta)), Encode(ReadingFields(s.reading)));
    }
    hide Encode, Decode, Total, DecodeMeta, MetaFields, ReadingFields, ReadingLayout;
  }

  /** The metadata a message carries, if its first sixteen bytes decode. */
  function MetaOf(m: NativeMessage): Option<StateMeta> {
    if |m.payload| >= META_BYTES then DecodeMeta(m.payload[..META_BYTES]) else None
  }

  lemma MetaOfState(m: NativeMessage, s: State)
    requires EncodeState(s) == Some(m.payload)
    ensures MetaOf(m) == Some(s.meta)
  {
    StateLength(s);
    var front := m.payload[..META_BYTES];
    assert front == Encode(MetaFields(s.meta));
    MetaRoundTrip(s.meta, front);
    hide Encode, Decode;
  }
}
