// The handshake as the source runs it (src/session.cpp): messages framed into fixed
// buffers, transcripts assembled in scratch buffers, and the two roles as objects whose
// fields are updated in place.  Every method is proved against the value model.

module HandshakeSessions {
  import opened Crc16
  import opened Wire
  import opened Layout
  import opened Buffers
  import Encoders
  import opened Crypto
  import opened Handshakes
  import opened HandshakeCodecs

  // ---- framing ----

  method Clear(out: array<bv8>)
    modifies out
    ensures out[..] == Zeros(out.Length)
  {
    for i := 0 to out.Length
      invariant forall j :: 0 <= j < i ==> out[j] == 0
    {
      out[i] := 0;
    }
  }

  method PutBody(fs: seq<Field>, tag: Bytes, out: array<bv8>)
    requires |Encode(fs)| + |tag| <= out.Length
    modifies out
    ensures var m := |Encode(fs)| + |tag|;
            out[..m] == Encode(fs) + tag && out[m..] == old(out[m..])
  {
    var n := |Encode(fs)|;
    hide Encode;
    PutAll(out, fs);
    LaterSuffix(out[..], old(out[..]), n, n + |tag|);
    assert out[n + |tag|..] == old(out[n + |tag|..]);
    Copy(out, n, tag);
    assert out[..n + |tag|] == out[..n] + out[n..n + |tag|];
  }

  /** Fields, authenticator, check value over both, zero padding. */
  method Frame(fs: seq<Field>, tag: Bytes, pad: nat, out: array<bv8>)
    requires out.Length == |Encode(fs)| + |tag| + 2 + pad
    requires out[..] == Zeros(out.Length)
    modifies out
    ensures out[..] == Framed(Encode(fs) + tag, pad)
  {
    var m := |Encode(fs)| + |tag|;
    ZeroSuffix(m + 2, pad);
    FramedIs(Encode(fs) + tag, pad);
    hide *;
    PutBody(fs, tag, out);
    LaterSuffix(out[..], old(out[..]), m, m + 2);
    assert out[m + 2..] == Zeros(pad);
    var crc := Compute(out[..m]);
    PutWord(out, m, crc);
    ThreeParts(out[..], m);
  }

  method PutWord(out: array<bv8>, off: nat, v: bv16)
    requires off + 2 <= out.Length
    modifies out
    ensures out[..off] == old(out[..off]) && out[off..off + 2] == Le16(v) && out[off + 2..] == old(out[off + 2..])
  {
    hide Le16;
    Put(out, off, F16(v));
  }

  lemma ZeroSuffix(n: nat, pad: nat)
    ensures Zeros(n + pad)[n..] == Zeros(pad)
  {
  }

  lemma FramedIs(body: Bytes, pad: nat)
    ensures Framed(body, pad) == body + (Le16(Crc(body)) + Zeros(pad))
  {
    hide Le16, Crc, Zeros;
  }

  lemma ThreeParts(s: Bytes, m: nat)
    requires m + 2 <= |s|
    ensures s == s[..m] + (s[m..m + 2] + s[m + 2..])
  {
  }

  method EncodeHelloInto(v: Hello, out: array<bv8>) returns (ok: bool)
    requires out.Length == HELLO_BYTES
    modifies out
    ensures Encoded(ok, out[..]) == EncodeHello(v)
  {
    HelloBodyRoundTrip(v);
    Clear(out);
    if !ValidHello(v) {
      return false;
    }
    assert out[16..] == Zeros(HELLO_BYTES)[16..] == Zeros(8);
    assert HelloBody(v) == Encode(HelloFields(v));
    hide Encode, HelloFields, HelloBody, Crc, Zeros, ValidHello;
    PutAll(out, HelloFields(v));
    assert out[..] == out[..16] + out[16..];
    var crc := Compute(out[..16]);
    ok := crc != 0;
  }

  method EncodeAcceptInto(v: Accept, out: array<bv8>) returns (ok: bool)
    requires out.Length == ACCEPT_BYTES && |v.authenticator| == 16
    modifies out
    ensures ok <==> EncodeAccept(v).Some?
    ensures out[..] == if ok then EncodeAccept(v).value else Zeros(ACCEPT_BYTES)
  {
    Clear(out);
    ok := ValidAccept(v);
    if ok {
      AcceptBodyRoundTrip(v, Zeros(52));
      hide Encode, AcceptFields, Framed, Zeros, ValidAccept;
      Frame(AcceptFields(v), v.authenticator, 10, out);
    }
  }

  method EncodeFinishInto(v: Finish, out: array<bv8>) returns (ok: bool)
    requires out.Length == FINISH_BYTES && |v.authenticator| == 16
    modifies out
    ensures ok <==> EncodeFinish(v).Some?
    ensures out[..] == if ok then EncodeFinish(v).value else Zeros(FINISH_BYTES)
  {
    Clear(out);
    ok := ValidFinish(v);
    if ok {
      FinishBodyRoundTrip(v, Zeros(36));
      hide Encode, FinishFields, Framed, Zeros, ValidFinish;
      Frame(FinishFields(v.initiator, v.responder, v.sessionId, v.epoch), v.authenticator, 10, out);
    }
  }

  // ---- what is authenticated ----

  method MakeTranscript(h: Hello, a: Accept) returns (out: array<bv8>)
    ensures fresh(out) && out[..] == Transcript(h, a)
  {
    TranscriptLength(h, a);
    out := new bv8[52];
    hide Encode, TranscriptFields;
    PutAll(out, TranscriptFields(h, a));
    assert out[..] == out[..52];
  }

  method MakeFinishInput(initiator: bv16, responder: bv16, sessionId: bv64, epoch: bv64) returns (out: array<bv8>)
    ensures fresh(out) && out[..] == FinishInput(initiator, responder, sessionId, epoch)
  {
    FinishLength(initiator, responder, sessionId, epoch);
    out := new bv8[20];
    hide Encode, FinishFields;
    PutAll(out, FinishFields(initiator, responder, sessionId, epoch));
    assert out[..] == out[..20];
  }

  // ---- the initiator ----

  class InitiatorSession {
    const local: bv16
    const peer: bv16
    const psk: Key
    var hello: Hello
    var keys: Option<DirectionalKeys>
    var started: bool
    var established: bool

    ghost function Model(): Initiator
      reads this
    {
      Initiator(local, peer, psk, hello, keys, started, established)
    }

    constructor (local: bv16, peer: bv16, psk: Key)
      ensures Model() == NewInitiator(local, peer, psk)
    {
      this.local, this.peer, this.psk := local, peer, psk;
      hello, keys, started, established := NO_HELLO, None, false, false;
    }

    method Begin(clientNonce: bv64) returns (message: Option<Hello>, error: SessionError)
      modifies this
      ensures Started(Model(), message, error) == Start(old(Model()), clientNonce)
    {
      if started || !ValidIds(local, peer) || clientNonce == 0 {
        return None, if started then NonceReuse else InvalidInput;
      }
      hello := Hello(local, peer, clientNonce, 0);
      started := true;
      return Some(hello), NoError;
    }

    method ReceiveAccept(mac: Mac, prf: Prf, received: Accept) returns (message: Option<Finish>, error: SessionError)
      modifies this
      ensures Answered(Model(), message, error) == TakeAccept(mac, prf, old(Model()), received)
    {
      hide DeriveKeys, Transcript, FinishInput;
      if !started || established {
        return None, InvalidState;
      }
      if received.initiator != local || received.responder != peer || received.clientNonce != hello.clientNonce {
        return None, InvalidTranscript;
      }
      TagIrrelevant(hello, received, NO_TAG);
      var transcript := MakeTranscript(hello, received.(authenticator := NO_TAG));
      if mac(psk, transcript[..]) != Some(received.authenticator) {
        return None, AuthenticationFailed;
      }
      var pair := Encoders.DeriveDirectionalKeys(prf, psk, SessionId(received.sessionId, received.epoch), local, peer);
      if pair.None? {
        return None, InvalidInput;
      }
      keys := Some(pair.value.first);
      var input := MakeFinishInput(local, peer, received.sessionId, received.epoch);
      var tag := mac(psk, input[..]);
      if tag.None? {
        return None, AuthenticationFailed;
      }
      established := true;
      return Some(Finish(local, peer, received.sessionId, received.epoch, tag.value)), NoError;
    }
  }

  // ---- the responder ----

  class ResponderSession {
    const local: bv16
    const peer: bv16
    const psk: Key
    var hello: Hello
    var accept: Accept
    var keys: Option<DirectionalKeys>
    var accepted: bool
    var established: bool

    ghost function Model(): Responder
      reads this
    {
      Responder(local, peer, psk, hello, accept, keys, accepted, established)
    }

    constructor (local: bv16, peer: bv16, psk: Key)
      ensures Model() == NewResponder(local, peer, psk)
    {
      this.local, this.peer, this.psk := local, peer, psk;
      hello, accept, keys, accepted, established := NO_HELLO, NO_ACCEPT, None, false, false;
    }

    method ReceiveHello(mac: Mac, prf: Prf, h: Hello, serverNonce: bv64) returns (response: Option<Accept>, error: SessionError)
      modifies this
      ensures Greeted(Model(), response, error) == TakeHello(mac, prf, old(Model()), h, serverNonce)
    {
      hide DeriveKeys, Transcript, Mix;
      if accepted || !Greets(Responder(local, peer, psk, hello, accept, keys, accepted, established), h, serverNonce) {
        return None, if accepted then NonceReuse else InvalidInput;
      }
      hello := h;
      accept := Accept(peer, local, h.clientNonce, serverNonce, Mix(h.clientNonce, serverNonce), 1, NO_TAG);
      var transcript := MakeTranscript(hello, accept);
      var tag := mac(psk, transcript[..]);
      if tag.None? {
        return None, AuthenticationFailed;
      }
      accept := accept.(authenticator := tag.value);
      response := Some(accept);
      var pair := Encoders.DeriveDirectionalKeys(prf, psk, SessionId(accept.sessionId, accept.epoch), peer, local);
      if pair.None? {
        return response, InvalidInput;
      }
      keys := Some(pair.value.second);
      accepted := true;
      error := NoError;
    }

    method ReceiveFinish(mac: Mac, m: Finish) returns (error: SessionError)
      modifies this
      ensures Concluded(Model(), error) == TakeFinish(mac, old(Model()), m)
    {
      hide FinishInput;
      if !Concludes(Responder(local, peer, psk, hello, accept, keys, accepted, established), m) {
        return InvalidState;
      }
      var input := MakeFinishInput(m.initiator, m.responder, m.sessionId, m.epoch);
      if mac(psk, input[..]) != Some(m.authenticator) {
        return AuthenticationFailed;
      }
      established := true;
      error := NoError;
    }
  }
}
