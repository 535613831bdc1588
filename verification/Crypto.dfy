// Nonces and directional keys (src/crypto.cpp) over an abstract authenticated cipher
// and an abstract pseudo-random function.

module Crypto {
  import opened Crc16
  import opened Wire
  import opened Layout

  type Key = Bytes

  datatype SessionId = SessionId(value: bv64, epoch: bv64)

  datatype DirectionalKeys = DirectionalKeys(session: SessionId, local: bv16, peer: bv16, tx: Key, rx: Key)

  /** The foreign primitives.  Each may fail; each is a function of its arguments. */
  datatype Aead = Aead(
    seal: (Key, Bytes, Bytes, Bytes) -> Option<Bytes>,
    open: (Key, Bytes, Bytes, Bytes) -> Option<Bytes>)

  type Prf = (Key, Bytes) -> Option<Key>

  /** The one thing assumed of the cipher: it opens what it sealed. */
  ghost predicate OpensWhatItSeals(aead: Aead) {
    forall k, n, a, p ::
      aead.seal(k, n, a, p).Some? ==> aead.open(k, n, a, aead.seal(k, n, a, p).value) == Some(p)
  }

  /** aead_seal: bounds on the plaintext and on what the cipher returns. */
  function AeadSeal(aead: Aead, key: Key, nonce: Bytes, aad: Bytes, plain: Bytes): Option<Bytes> {
    if |plain| > MAX_PAYLOAD_BYTES then None
    else
      var c := aead.seal(key, nonce, aad, plain);
      if c.Some? && |c.value| == |plain| + TAG_BYTES then c else None
  }

  /** aead_open, likewise. */
  function AeadOpen(aead: Aead, key: Key, nonce: Bytes, aad: Bytes, cipher: Bytes): Option<Bytes> {
    if |cipher| < TAG_BYTES || |cipher| > MAX_PAYLOAD_BYTES + TAG_BYTES then None
    else
      var p := aead.open(key, nonce, aad, cipher);
      if p.Some? && |p.value| == |cipher| - TAG_BYTES then p else None
  }

  lemma OpenAfterSeal(aead: Aead, key: Key, nonce: Bytes, aad: Bytes, plain: Bytes)
    requires OpensWhatItSeals(aead) && AeadSeal(aead, key, nonce, aad, plain).Some?
    ensures AeadOpen(aead, key, nonce, aad, AeadSeal(aead, key, nonce, aad, plain).value) == Some(plain)
  {
    assert aead.seal(key, nonce, aad, plain).Some?;
  }

  /** A cipher that only appends a tag: the assumption can be met. */
  function PlainAead(): Aead {
    var tag := seq(TAG_BYTES, (i: int) => 0 as bv8);
    Aead((k, n, a, p) => Some(p + tag),
         (k, n, a, c) => if |c| >= TAG_BYTES && c[|c| - TAG_BYTES..] == tag then Some(c[..|c| - TAG_BYTES]) else None)
  }

  lemma PlainAeadOpens()
    ensures OpensWhatItSeals(PlainAead())
  {
    var tag: Bytes := seq(TAG_BYTES, (i: int) => 0 as bv8);
    forall k: Key, n: Bytes, a: Bytes, p: Bytes
      ensures PlainAead().open(k, n, a, PlainAead().seal(k, n, a, p).value) == Some(p)
    {
      var c := p + tag;
      assert c[|c| - TAG_BYTES..] == tag && c[..|c| - TAG_BYTES] == p;
    }
  }

  // ---- nonces ----

  function Mix(epoch: bv64, sequence: bv64): bv64 {
    epoch ^ sequence
  }

  function NonceOf(session: SessionId, sequence: bv64): Bytes {
    Le64(session.value) + Le64(Mix(session.epoch, sequence))
  }

  lemma MixInjective(e: bv64, a: bv64, b: bv64)
    requires Mix(e, a) == Mix(e, b)
    ensures a == b
  {
    assert e ^ (e ^ a) == a && e ^ (e ^ b) == b;
  }

  lemma Le64Length(v: bv64)
    ensures |Le64(v)| == 8
  {
  }

  lemma Le64Injective(x: bv64, y: bv64)
    requires Le64(x) == Le64(y)
    ensures x == y
  {
    Get64OfLe64(x);
    Get64OfLe64(y);
    hide Le64, Get64;
  }

  /** Within one epoch, different sequence numbers give different nonces. */
  lemma NonceInjective(session: SessionId, a: bv64, b: bv64)
    requires NonceOf(session, a) == NonceOf(session, b)
    ensures a == b
  {
    var x, y := Mix(session.epoch, a), Mix(session.epoch, b);
    Le64Length(session.value);
    hide Le64, Get64, Mix;
    assert NonceOf(session, a)[8..] == Le64(x) && NonceOf(session, b)[8..] == Le64(y);
    Le64Injective(x, y);
    MixInjective(session.epoch, a, b);
  }

  // ---- directional keys ----

  // "NM-TX" and "NM-RX", padded to eight bytes.
  const TX_LABEL: Bytes := [0x4E, 0x4D, 0x2D, 0x54, 0x58, 0, 0, 0]
  const RX_LABEL: Bytes := [0x4E, 0x4D, 0x2D, 0x52, 0x58, 0, 0, 0]

  /** The derivation input: label, session, epoch, both identifiers, block counter 0. */
  function DerivationInput(tag: Bytes, session: SessionId, first: bv16, second: bv16): Bytes {
    tag + Encode([F64(session.value), F64(session.epoch), F16(first), F16(second), F32(0)])
  }

  function DeriveOne(prf: Prf, psk: Key, tag: Bytes, session: SessionId, first: bv16, second: bv16): Option<Key> {
    prf(psk, DerivationInput(tag, session, first, second))
  }

  datatype KeyPair = KeyPair(first: DirectionalKeys, second: DirectionalKeys)

  predicate Derivable(session: SessionId, first: bv16, second: bv16) {
    session.value != 0 && session.epoch != 0 && first != 0 && second != 0 && first != second
  }

  function DeriveKeys(prf: Prf, psk: Key, session: SessionId, first: bv16, second: bv16): Option<KeyPair> {
    if !Derivable(session, first, second) then None
    else
      match (DeriveOne(prf, psk, TX_LABEL, session, first, second), DeriveOne(prf, psk, RX_LABEL, session, first, second))
      case (Some(tx), Some(rx)) =>
        Some(KeyPair(DirectionalKeys(session, first, second, tx, rx), DirectionalKeys(session, second, first, rx, tx)))
      case _ => None
  }

  /** The two ends of one session: same session and epoch, identifiers swapped, each
      sending with the key the other receives with. */
  predicate Crossed(a: DirectionalKeys, b: DirectionalKeys) {
    a.session == b.session && a.local == b.peer && a.peer == b.local && a.tx == b.rx && a.rx == b.tx
  }

  lemma DerivedKeysCross(prf: Prf, psk: Key, session: SessionId, first: bv16, second: bv16)
    requires DeriveKeys(prf, psk, session, first, second).Some?
    ensures var p := DeriveKeys(prf, psk, session, first, second).value;
            Crossed(p.first, p.second) && Crossed(p.second, p.first)
  {
    hide DerivationInput;
  }
}
