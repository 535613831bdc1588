// The remaining typed codecs of src/messages.cpp: command, acknowledgement,
// subscription and resync request.

module Requests {
  import opened Crc16
  import opened Wire
  import opened Layout

  // ---- command ----

  const MAX_ARGS := 7

  /** Arguments are the 32-bit patterns of IEEE single-precision numbers. */
  datatype CommandRequest = CommandRequest(
    requestId: bv64,
    commandId: bv16,
    deadline: bv16,
    argCount: bv8,
    args: seq<bv32>)

  predicate Finite(bits: bv32) {
    bits & 0x7F80_0000 != 0x7F80_0000
  }

  predicate ValidCommand(c: CommandRequest)
    requires |c.args| == MAX_ARGS
  {
    && c.requestId != 0 && c.commandId != 0 && c.deadline != 0
    && c.argCount <= 7
    && forall i :: 0 <= i < MAX_ARGS && i < c.argCount as int ==> Finite(c.args[i])
  }

  // Identifiers, deadline, argument count and three reserved bytes.
  const COMMAND_HEAD: seq<nat> := [8, 2, 2, 1, 1, 1, 1]
  const COMMAND_HEAD_BYTES := 16
  const COMMAND_ARGS: seq<nat> := [4, 4, 4, 4, 4, 4, 4]
  const COMMAND_BYTES := 44

  function HeadFields(c: CommandRequest): (fs: seq<Field>)
    ensures Widths(fs) == COMMAND_HEAD
  {
    [F64(c.requestId), F16(c.commandId), F16(c.deadline), F8(c.argCount), F8(0), F8(0), F8(0)]
  }

  function ArgFields(args: seq<bv32>): (fs: seq<Field>)
    requires |args| == MAX_ARGS
    ensures Widths(fs) == COMMAND_ARGS
  {
    seq(MAX_ARGS, i requires 0 <= i < MAX_ARGS => F32(args[i]))
  }

  function ArgsOfFields(fs: seq<Field>): (args: seq<bv32>)
    requires Widths(fs) == COMMAND_ARGS
    ensures |args| == MAX_ARGS && ArgFields(args) == fs
  {
    WidthsAt(fs, COMMAND_ARGS);
    seq(MAX_ARGS, i requires 0 <= i < MAX_ARGS => fs[i].v32)
  }

  lemma WidthsAt(fs: seq<Field>, ws: seq<nat>)
    requires Widths(fs) == ws
    ensures |fs| == |ws| && forall i :: 0 <= i < |ws| ==> Width(fs[i]) == ws[i]
  {
    assert |Widths(fs)| == |fs|;
    forall i | 0 <= i < |ws|
      ensures Width(fs[i]) == ws[i]
    {
      assert Widths(fs)[i] == Width(fs[i]);
    }
  }

  lemma CommandTotal()
    ensures Total(COMMAND_HEAD) == COMMAND_HEAD_BYTES && AllWidths(COMMAND_HEAD)
    ensures Total(COMMAND_ARGS) == COMMAND_BYTES - COMMAND_HEAD_BYTES && AllWidths(COMMAND_ARGS)
  {
    TotalIsSum(COMMAND_HEAD, 7);
    TotalIsSum(COMMAND_ARGS, 7);
  }

  function CommandBytes(c: CommandRequest): Bytes
    requires |c.args| == MAX_ARGS
  {
    Encode(HeadFields(c)) + Encode(ArgFields(c.args))
  }

  function EncodeCommand(c: CommandRequest): Option<Bytes>
    requires |c.args| == MAX_ARGS
  {
    if ValidCommand(c) then Some(CommandBytes(c)) else None
  }

  function DecodeCommand(b: Bytes): (r: Option<CommandRequest>)
    ensures r.Some? ==> |r.value.args| == MAX_ARGS
  {
    if |b| != COMMAND_BYTES then None
    else
      CommandTotal();
      var head := Decode(COMMAND_HEAD, b[..COMMAND_HEAD_BYTES]);
      var args := ArgsOfFields(Decode(COMMAND_ARGS, b[COMMAND_HEAD_BYTES..]));
      WidthsAt(head, COMMAND_HEAD);
      var c := CommandRequest(head[0].v64, head[1].v16, head[2].v16, head[3].v8, args);
      if head[4].v8 == 0 && head[5].v8 == 0 && head[6].v8 == 0 && ValidCommand(c) then Some(c) else None
  }

  lemma HeadRoundTrip(c: CommandRequest, b: Bytes)
    requires |b| == COMMAND_HEAD_BYTES
    ensures Total(COMMAND_HEAD) == |b| && |Encode(HeadFields(c))| == |b|
    ensures Encode(HeadFields(c)) == b <==> Decode(COMMAND_HEAD, b) == HeadFields(c)
  {
    CommandTotal();
    DecodeOfEncode(HeadFields(c));
    EncodeOfDecode(COMMAND_HEAD, b);
    hide Encode, Decode, Total;
  }

  lemma ArgsRoundTrip(args: seq<bv32>, b: Bytes)
    requires |args| == MAX_ARGS && |b| == COMMAND_BYTES - COMMAND_HEAD_BYTES
    ensures Total(COMMAND_ARGS) == |b| && |Encode(ArgFields(args))| == |b|
    ensures Encode(ArgFields(args)) == b <==> ArgsOfFields(Decode(COMMAND_ARGS, b)) == args
  {
    CommandTotal();
    var fs := ArgFields(args);
    DecodeOfEncode(fs);
    EncodeOfDecode(COMMAND_ARGS, b);
    hide Encode, Decode, Total;
    assert ArgsOfFields(fs) == args by {
      assert forall i :: 0 <= i < MAX_ARGS ==> ArgFields(ArgsOfFields(fs))[i] == fs[i];
      assert forall i :: 0 <= i < MAX_ARGS ==> ArgsOfFields(fs)[i] == args[i];
    }
  }

  /** Encoding and decoding a command are inverse on everything either accepts. */
  lemma CommandRoundTrip(c: CommandRequest, b: Bytes)
    requires |c.args| == MAX_ARGS
    ensures DecodeCommand(b) == Some(c) <==> EncodeCommand(c) == Some(b)
  {
    CommandTotal();
    EncodeLength(HeadFields(c));
    EncodeLength(ArgFields(c.args));
    if |b| == COMMAND_BYTES {
      var x, y := b[..COMMAND_HEAD_BYTES], b[COMMAND_HEAD_BYTES..];
      HeadRoundTrip(c, x);
      ArgsRoundTrip(c.args, y);
      SplitAt(b, COMMAND_HEAD_BYTES, Encode(HeadFields(c)), Encode(ArgFields(c.args)));
      HeadIsFields(Decode(COMMAND_HEAD, x), c);
    }
    hide Encode, Decode, Total, HeadFields, ArgFields, ArgsOfFields, ValidCommand, Widths, Width, AllWidths;
  }

  lemma HeadIsFields(fs: seq<Field>, c: CommandRequest)
    requires Widths(fs) == COMMAND_HEAD
    ensures |fs| == 7 && fs[0].F64? && fs[1].F16? && fs[2].F16? && fs[3].F8? && fs[4].F8? && fs[5].F8? && fs[6].F8?
    ensures fs == HeadFields(c) <==>
            && fs[0].v64 == c.requestId && fs[1].v16 == c.commandId && fs[2].v16 == c.deadline && fs[3].v8 == c.argCount
            && fs[4].v8 == 0 && fs[5].v8 == 0 && fs[6].v8 == 0
  {
    WidthsAt(fs, COMMAND_HEAD);
  }

  // ---- acknowledgement ----

  datatype CommandAck = CommandAck(requestId: bv64, status: bv8, detail: bv8, reserved: bv16, resultCode: bv32)

  const ACK_LAYOUT: seq<nat> := [8, 1, 1, 2, 4]
  const ACK_BYTES := 16

  function AckFields(a: CommandAck): (fs: seq<Field>)
    ensures Widths(fs) == ACK_LAYOUT
  {
    [F64(a.requestId), F8(a.status), F8(a.detail), F16(a.reserved), F32(a.resultCode)]
  }

  function AckOfFields(fs: seq<Field>): (a: CommandAck)
    requires Widths(fs) == ACK_LAYOUT
    ensures AckFields(a) == fs
  {
    WidthsAt(fs, ACK_LAYOUT);
    CommandAck(fs[0].v64, fs[1].v8, fs[2].v8, fs[3].v16, fs[4].v32)
  }

  lemma AckTotal()
    ensures Total(ACK_LAYOUT) == ACK_BYTES && AllWidths(ACK_LAYOUT)
  {
    TotalIsSum(ACK_LAYOUT, 5);
  }

  function EncodeAck(a: CommandAck): Option<Bytes> {
    if a.requestId != 0 then Some(Encode(AckFields(a))) else None
  }

  function DecodeAck(b: Bytes): Option<CommandAck> {
    if |b| != ACK_BYTES then None
    else
      AckTotal();
      var a := AckOfFields(Decode(ACK_LAYOUT, b));
      if a.requestId != 0 then Some(a) else None
  }

  lemma AckRoundTrip(a: CommandAck, b: Bytes)
    ensures DecodeAck(b) == Some(a) <==> EncodeAck(a) == Some(b)
  {
    AckTotal();
    DecodeOfEncode(AckFields(a));
    if |b| == ACK_BYTES {
      EncodeOfDecode(ACK_LAYOUT, b);
    }
    hide Encode, Decode, Total;
  }

  // ---- subscription ----

  datatype Subscription = Subscription(typ: bv8, qos: bv8, source: bv16, interval: bv16, flags: bv32)

  const SUBSCRIBE_LAYOUT: seq<nat> := [1, 1, 2, 2, 4]
  const SUBSCRIBE_BYTES := 10

  function SubscriptionFields(s: Subscription): (fs: seq<Field>)
    ensures Widths(fs) == SUBSCRIBE_LAYOUT
  {
    [F8(s.typ), F8(s.qos), F16(s.source), F16(s.interval), F32(s.flags)]
  }

  function SubscriptionOfFields(fs: seq<Field>): (s: Subscription)
    requires Widths(fs) == SUBSCRIBE_LAYOUT
    ensures SubscriptionFields(s) == fs
  {
    WidthsAt(fs, SUBSCRIBE_LAYOUT);
    Subscription(fs[0].v8, fs[1].v8, fs[2].v16, fs[3].v16, fs[4].v32)
  }

  lemma SubscribeTotal()
    ensures Total(SUBSCRIBE_LAYOUT) == SUBSCRIBE_BYTES && AllWidths(SUBSCRIBE_LAYOUT)
  {
    TotalIsSum(SUBSCRIBE_LAYOUT, 5);
  }

  function EncodeSubscription(s: Subscription): Option<Bytes> {
    if KnownType(s.typ) && s.source != 0 then Some(Encode(SubscriptionFields(s))) else None
  }

  function DecodeSubscription(b: Bytes): Option<Subscription> {
    if |b| != SUBSCRIBE_BYTES then None
    else
      SubscribeTotal();
      var s := SubscriptionOfFields(Decode(SUBSCRIBE_LAYOUT, b));
      if KnownType(s.typ) && s.qos <= EXPLICIT && s.source != 0 then Some(s) else None
  }

  /** The encoder does not test the quality of service and the decoder does, so the
      round trip holds exactly for the defined qualities. */
  lemma SubscriptionRoundTrip(s: Subscription, b: Bytes)
    ensures DecodeSubscription(b) == Some(s) <==> EncodeSubscription(s) == Some(b) && s.qos <= EXPLICIT
  {
    SubscribeTotal();
    DecodeOfEncode(SubscriptionFields(s));
    if |b| == SUBSCRIBE_BYTES {
      EncodeOfDecode(SUBSCRIBE_LAYOUT, b);
    }
    hide Encode, Decode, Total, KnownType;
  }

  /** An encodable subscription that its decoder refuses. */
  lemma SubscriptionRefused()
    ensures var b := EncodeSubscription(Subscription(POSITION, 6, 2, 0, 0));
            b.Some? && DecodeSubscription(b.value).None?
  {
    var s := Subscription(POSITION, 6, 2, 0, 0);
    var b := Encode(SubscriptionFields(s));
    SubscribeTotal();
    DecodeOfEncode(SubscriptionFields(s));
    hide Encode, Decode, Total;
    assert SubscriptionOfFields(SubscriptionFields(s)) == s by {
      assert SubscriptionFields(SubscriptionOfFields(SubscriptionFields(s))) == SubscriptionFields(s);
    }
  }

  // ---- resync request ----

  datatype ResyncRequest = ResyncRequest(typ: bv8, source: bv16, resource: bv32)

  const RESYNC_LAYOUT: seq<nat> := [1, 1, 2, 4]
  const RESYNC_BYTES := 8

  function ResyncFields(r: ResyncRequest): (fs: seq<Field>)
    ensures Widths(fs) == RESYNC_LAYOUT
  {
    [F8(r.typ), F8(0), F16(r.source), F32(r.resource)]
  }

  lemma ResyncTotal()
    ensures Total(RESYNC_LAYOUT) == RESYNC_BYTES && AllWidths(RESYNC_LAYOUT)
  {
    TotalIsSum(RESYNC_LAYOUT, 4);
  }

  predicate ValidResync(r: ResyncRequest) {
    StateType(r.typ) && r.source != 0 && r.resource != 0
  }

  function EncodeResync(r: ResyncRequest): Option<Bytes> {
    if ValidResync(r) then Some(Encode(ResyncFields(r))) else None
  }

  function DecodeResync(b: Bytes): Option<ResyncRequest> {
    if |b| != RESYNC_BYTES then None
    else
      ResyncTotal();
      var fs := Decode(RESYNC_LAYOUT, b);
      WidthsAt(fs, RESYNC_LAYOUT);
      var r := ResyncRequest(fs[0].v8, fs[2].v16, fs[3].v32);
      if fs[1].v8 == 0 && ValidResync(r) then Some(r) else None
  }

  lemma ResyncRoundTrip(r: ResyncRequest, b: Bytes)
    ensures DecodeResync(b) == Some(r) <==> EncodeResync(r) == Some(b)
  {
    ResyncTotal();
    DecodeOfEncode(ResyncFields(r));
    if |b| == RESYNC_BYTES {
      EncodeOfDecode(RESYNC_LAYOUT, b);
      ResyncIsFields(Decode(RESYNC_LAYOUT, b), r);
    }
    hide Encode, Decode, Total, ValidResync, ResyncFields, Widths, Width, AllWidths;
  }

  lemma ResyncIsFields(fs: seq<Field>, r: ResyncRequest)
    requires Widths(fs) == RESYNC_LAYOUT
    ensures |fs| == 4 && fs[0].F8? && fs[1].F8? && fs[2].F16? && fs[3].F32?
    ensures fs == ResyncFields(r) <==>
            fs[0].v8 == r.typ && fs[1].v8 == 0 && fs[2].v16 == r.source && fs[3].v32 == r.resource
  {
    WidthsAt(fs, RESYNC_LAYOUT);
  }
}
