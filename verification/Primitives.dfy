/** Byte strings, X25519 keys and the symbolic key terms the protocol computes with.

Library cryptography is symbolic: HMAC and HKDF are free constructors, Diffie-Hellman is
a commutative constructor on key pairs, and an AEAD box opens under exactly the key and
associated data that sealed it. */
module Primitives {
  type Byte = b: int | 0 <= b < 256
  type Bytes = seq<Byte>

  const U32_LIMIT: int := 0x1_0000_0000
  type U32 = n: int | 0 <= n < 0x1_0000_0000

  /** Addition of two uint32 values, which wraps. */
  function Add32(a: U32, b: U32): U32 {
    if a + b < U32_LIMIT then a + b else a + b - U32_LIMIT
  }

  lemma Add32Wraps(a: U32, b: U32)
    ensures Add32(a, b) == (a + b) % 0x1_0000_0000
  {
  }

  datatype Option<+T> = None | Some(value: T)

  datatype Result<+T, +E> = Ok(value: T) | Err(error: E)

  /** A Go byte slice: nil is distinguishable from an empty slice. */
  datatype Slice = NilSlice | Slice(bytes: Bytes) {
    function Contents(): Bytes {
      if NilSlice? then [] else bytes
    }
  }

  // ---- X25519 ----

  /** A private key is named by the public key it generates. */
  datatype PrivateKey = PrivateKey(pub: Bytes)

  /** The shared secret of two key pairs does not depend on which side computes it. */
  datatype DhOutput = DhOutput(ends: set<Bytes>)

  function LittleEndian(b: Bytes): nat {
    if b == [] then 0 else b[0] + 256 * LittleEndian(b[1..])
  }

  const FIELD_PRIME: int := 0x8000000000000000000000000000000000000000000000000000000000000000 - 19

  /** The points of order 1, 2, 4 and 8, on which X25519 reports an error. */
  predicate LowOrder(b: Bytes) {
    Coordinate(b) in {0, 1, FIELD_PRIME - 1, ORDER_EIGHT, OTHER_ORDER_EIGHT}
  }

  const ORDER_EIGHT: int := 325606250916557431795983626356110631294008115727848805560023387167927233504
  const OTHER_ORDER_EIGHT: int := 39382357235489614581723060781553021112529911719440698176882885853963445705823

  /** On the curve v^2 = u^3 + 486662 u^2 + u, doubling maps u to w. */
  predicate DoublesTo(u: int, w: int) {
    ((u * u - 1) * (u * u - 1) - w * (4 * u * (u * u + 486662 * u + 1))) % FIELD_PRIME == 0
  }

  /** The u-coordinate that X25519 reads from 32 bytes. */
  function Coordinate(b: Bytes): int {
    LittleEndian(b) % 0x8000000000000000000000000000000000000000000000000000000000000000 % FIELD_PRIME
  }

  /** Every low-order point is 0, or doubles to 0, or doubles to 1. */
  lemma LowOrderDoubles(b: Bytes)
    requires LowOrder(b)
    ensures Coordinate(b) == 0 || DoublesTo(Coordinate(b), 0) || DoublesTo(Coordinate(b), 1)
    ensures FIELD_PRIME == 57896044618658097711785492504343953926634992332820282019728792003956564819949
  {
    hide LittleEndian;
    OrderFour();
    OrderEight();
  }

  lemma OrderFour()
    ensures DoublesTo(1, 0) && DoublesTo(FIELD_PRIME - 1, 0)
  {
  }

  lemma OrderEight()
    ensures DoublesTo(ORDER_EIGHT, 1) && DoublesTo(OTHER_ORDER_EIGHT, 1) && ORDER_EIGHT != OTHER_ORDER_EIGHT
  {
  }

  /** `NewPublicKey` checks the length only. */
  predicate IsPublicKey(b: Bytes) {
    |b| == 32
  }

  predicate ValidPoint(b: Bytes) {
    IsPublicKey(b) && !LowOrder(b)
  }

  function Ecdh(priv: PrivateKey, remote: Bytes): Option<DhOutput> {
    if ValidPoint(remote) then Some(DhOutput({priv.pub, remote})) else None
  }

  // ---- Key derivation ----

  /** A 32-byte secret, as the term that computes it. `NoKey` is the nil slice. */
  datatype Term =
    | NoKey
    | X3dhSecret(parts: seq<DhOutput>)
    | RootKey(parent: Term, dh: DhOutput)
    | ChainKey(parent: Term, dh: DhOutput)
    | NextChainKey(parent: Term)
    | MessageKey(parent: Term)

  // ---- AEAD under a message key ----

  datatype AesKey = AesKey(mk: Term)
  datatype GcmNonce = GcmNonce(mk: Term)

  datatype Ciphertext =
    | Sealed(key: AesKey, nonce: GcmNonce, ad: Bytes, plaintext: Bytes)
    | Junk(raw: Bytes)

  function AeadSeal(mk: Term, plaintext: Bytes, ad: Bytes): Ciphertext {
    Sealed(AesKey(mk), GcmNonce(mk), ad, plaintext)
  }

  function AeadOpen(mk: Term, ct: Ciphertext, ad: Bytes): Option<Bytes> {
    if ct.Sealed? && ct.key == AesKey(mk) && ct.nonce == GcmNonce(mk) && ct.ad == ad
    then Some(ct.plaintext)
    else None
  }
}
