/** HKDF over an HMAC, against sections 2.2 and 2.3 of RFC 5869. */
module Hkdf {
  import opened Primitives

  const HASH_LEN := 32

  /** HMAC-SHA256 as a parameter: (key, data) to a 32-byte tag. */
  type Hmac = f: (Bytes, Bytes) -> Bytes | forall k, d :: |f(k, d)| == HASH_LEN witness (k, d) => Zeros(HASH_LEN)

  function Zeros(n: nat): (b: Bytes)
    ensures |b| == n && forall i :: 0 <= i < n ==> b[i] == 0
  {
    seq(n, i => 0)
  }

  // ---- RFC 5869 ----

  /** Section 2.2: an absent salt is a string of zeros of the hash length. */
  function Extract(hmac: Hmac, salt: Bytes, ikm: Bytes): Bytes {
    hmac(if salt == [] then Zeros(HASH_LEN) else salt, ikm)
  }

  /** A missing salt is 32 zero octets. */
  lemma ExtractExactly(hmac: Hmac, salt: Bytes, ikm: Bytes)
    ensures Extract(hmac, salt, ikm) == if salt == [] then hmac(seq(32, i => 0), ikm) else hmac(salt, ikm)
  {
    assert Zeros(32) == seq(32, i => 0);
  }

  /** Section 2.3: T(0) is empty and T(i) = HMAC(PRK, T(i-1) | info | i), with i one byte. */
  function T(hmac: Hmac, prk: Bytes, info: Bytes, i: nat): Bytes
    requires i <= 255
  {
    if i == 0 then [] else hmac(prk, T(hmac, prk, info, i - 1) + info + [i])
  }

  /** T(1) | ... | T(n) */
  function Blocks(hmac: Hmac, prk: Bytes, info: Bytes, n: nat): Bytes
    requires n <= 255
  {
    if n == 0 then [] else Blocks(hmac, prk, info, n - 1) + T(hmac, prk, info, n)
  }

  lemma {:induction false} BlocksLength(hmac: Hmac, prk: Bytes, info: Bytes, n: nat)
    requires n <= 255
    ensures |Blocks(hmac, prk, info, n)| == HASH_LEN * n
  {
    if n > 0 {
      BlocksLength(hmac, prk, info, n - 1);
    }
  }

  /** The first `length` bytes of T(1) | ... | T(N), N being the ceiling of length over the hash length. */
  function Okm(hmac: Hmac, salt: Bytes, ikm: Bytes, info: Bytes, length: nat): (okm: Bytes)
    requires length <= 255 * HASH_LEN
    ensures |okm| == length
  {
    var prk := Extract(hmac, salt, ikm);
    var n := (length + HASH_LEN - 1) / HASH_LEN;
    BlocksLength(hmac, prk, info, n);
    Blocks(hmac, prk, info, n)[..length]
  }

  // ---- The implementation ----

  /** `hkdf` with its byte counter, which wraps past 255. */
  method Hkdf(hmac: Hmac, salt: Bytes, ikm: Bytes, info: Bytes, length: nat) returns (okm: Bytes)
    ensures |okm| == length
    ensures length <= 255 * 32 ==> okm == Okm(hmac, salt, ikm, info, length)
  {
    var key := if |salt| == 0 then Zeros(HASH_LEN) else salt;
    var prk := hmac(key, ikm);
    assert prk == Extract(hmac, salt, ikm);
    var out, t: Bytes := [], [];
    var counter: Byte := 1;
    ghost var n := 0;
    while |out| < length
      invariant |out| == HASH_LEN * n && counter == (n + 1) % 256
      invariant n > 0 ==> HASH_LEN * (n - 1) < length
      invariant n <= 255 ==> t == T(hmac, prk, info, n) && out == Blocks(hmac, prk, info, n)
      decreases length - |out|
    {
      t := hmac(prk, t + info + [counter]);
      out := out + t;
      n := n + 1;
      counter := (counter as int + 1) % 256;
    }
    if length <= 255 * HASH_LEN {
      assert n == (length + HASH_LEN - 1) / HASH_LEN;
    }
    okm := out[..length];
  }

  /** ASCII text as bytes. */
  function Ascii(s: string): (b: Bytes)
    ensures |b| == |s|
  {
    seq(|s|, i requires 0 <= i < |s| => if s[i] < 128 as char then s[i] as int else 63)
  }

  /** `deriveX3DH`: 32 octets of 0xFF, written in place before the DH outputs, under a zero salt. */
  method DeriveX3dh(hmac: Hmac, concat: Bytes) returns (sk: Bytes)
    ensures |sk| == 32
    ensures sk == hmac(hmac(seq(32, i => 0), seq(32, i => 0xFF) + concat), Ascii("stunner-x3dh") + [1])
  {
    var info := Ascii("stunner-x3dh");
    var ikm := new Byte[32 + |concat|](i requires 0 <= i < 32 + |concat| => (Zeros(32) + concat)[i]);
    assert forall k :: 32 <= k < ikm.Length ==> ikm[k] == (Zeros(32) + concat)[k];
    for i := 0 to 32
      invariant forall k :: 0 <= k < i ==> ikm[k] == 0xFF
      invariant forall k :: 32 <= k < ikm.Length ==> ikm[k] == concat[k - 32]
    {
      ikm[i] := 0xFF;
    }
    assert ikm[..] == seq(32, i => 0xFF) + concat;
    sk := Hkdf(hmac, Zeros(32), ikm[..], info, 32);
    assert Zeros(32) == seq(32, i => 0);
    var prk := Extract(hmac, Zeros(32), ikm[..]);
    RootSplit(hmac, Zeros(32), ikm[..], info);
    OkmPrefix(hmac, Zeros(32), ikm[..], info, 32, 64);
    FirstTwo(hmac, prk, info);
  }

  /** `kdfRoot`: the new root key and a chain key. */
  method KdfRoot(hmac: Hmac, rk: Bytes, dhOut: Bytes) returns (root: Bytes, chain: Bytes)
    ensures var prk := hmac(if rk == [] then seq(32, i => 0) else rk, dhOut);
      var info := Ascii("stunner-root");
      root == hmac(prk, info + [1]) && chain == hmac(prk, hmac(prk, info + [1]) + info + [2])
  {
    var out := Hkdf(hmac, rk, dhOut, Ascii("stunner-root"), 64);
    RootSplit(hmac, rk, dhOut, Ascii("stunner-root"));
    ExtractExactly(hmac, rk, dhOut);
    FirstTwo(hmac, Extract(hmac, rk, dhOut), Ascii("stunner-root"));
    root, chain := out[..32], out[32..];
  }

  /** `chainStep`: the message key, and the chain key that replaces the one given. */
  method ChainStep(hmac: Hmac, ck: Bytes) returns (mk: Bytes, next: Bytes)
    ensures mk == hmac(ck, [0x01]) && next == hmac(ck, [0x02])
  {
    mk := hmac(ck, [0x01]);
    next := hmac(ck, [0x02]);
  }

  /** `messageKeys`: the AES key and the nonce. */
  method MessageKeys(hmac: Hmac, mk: Bytes) returns (encKey: Bytes, nonce: Bytes)
    ensures var prk, info := hmac(seq(32, i => 0), mk), Ascii("stunner-msg");
      encKey == hmac(prk, info + [1]) && nonce == hmac(prk, hmac(prk, info + [1]) + info + [2])[..12]
    ensures |encKey| == 32 && |nonce| == 12
  {
    var out := Hkdf(hmac, [], mk, Ascii("stunner-msg"), 44);
    MessageKeysSplit(hmac, mk, Ascii("stunner-msg"));
    FirstTwo(hmac, hmac(seq(32, i => 0), mk), Ascii("stunner-msg"));
    encKey, nonce := out[..32], out[32..];
  }

  // ---- Consequences ----

  lemma {:induction false} BlocksPrefix(hmac: Hmac, prk: Bytes, info: Bytes, m: nat, n: nat)
    requires m <= n <= 255
    ensures Blocks(hmac, prk, info, m) <= Blocks(hmac, prk, info, n)
  {
    if m < n {
      BlocksPrefix(hmac, prk, info, m, n - 1);
    }
  }

  /** Shorter outputs are prefixes of longer ones. */
  lemma OkmPrefix(hmac: Hmac, salt: Bytes, ikm: Bytes, info: Bytes, a: nat, b: nat)
    requires a <= b <= 255 * HASH_LEN
    ensures Okm(hmac, salt, ikm, info, a) == Okm(hmac, salt, ikm, info, b)[..a]
  {
    var prk := Extract(hmac, salt, ikm);
    var m, n := (a + HASH_LEN - 1) / HASH_LEN, (b + HASH_LEN - 1) / HASH_LEN;
    BlocksPrefix(hmac, prk, info, m, n);
    BlocksLength(hmac, prk, info, m);
    BlocksLength(hmac, prk, info, n);
  }

  /** T(1) and T(2) written out. */
  lemma FirstTwo(hmac: Hmac, prk: Bytes, info: Bytes)
    ensures T(hmac, prk, info, 1) == hmac(prk, info + [1])
    ensures T(hmac, prk, info, 2) == hmac(prk, hmac(prk, info + [1]) + info + [2])
  {
    assert T(hmac, prk, info, 0) + info + [1] == info + [1];
  }

  /** `kdfRoot` takes 64 bytes: the root key is T(1) and the chain key T(2). */
  lemma RootSplit(hmac: Hmac, rk: Bytes, dhOut: Bytes, info: Bytes)
    ensures var out := Okm(hmac, rk, dhOut, info, 64);
      var prk := Extract(hmac, rk, dhOut);
      |out| == 64 && out[..32] == T(hmac, prk, info, 1) && out[32..] == T(hmac, prk, info, 2)
  {
    var prk := Extract(hmac, rk, dhOut);
    BlocksLength(hmac, prk, info, 2);
    assert Blocks(hmac, prk, info, 1) == Blocks(hmac, prk, info, 0) + T(hmac, prk, info, 1);
    assert Blocks(hmac, prk, info, 2) == T(hmac, prk, info, 1) + T(hmac, prk, info, 2);
  }

  /** `messageKeys` takes 44 bytes: the AES key is T(1) and the nonce the first 12 bytes of T(2). */
  lemma MessageKeysSplit(hmac: Hmac, mk: Bytes, info: Bytes)
    ensures var out := Okm(hmac, [], mk, info, 44);
      var prk := hmac(seq(32, i => 0), mk);
      |out| == 44 && out[..32] == T(hmac, prk, info, 1) && out[32..] == T(hmac, prk, info, 2)[..12]
  {
    RootSplit(hmac, [], mk, info);
    ExtractExactly(hmac, [], mk);
    OkmPrefix(hmac, [], mk, info, 44, 64);
    var out := Okm(hmac, [], mk, info, 64);
    assert out[..44][..32] == out[..32];
    assert out[..44][32..] == out[32..][..12];
  }
}
