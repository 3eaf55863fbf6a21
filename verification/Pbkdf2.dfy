/** PBKDF2 with its in-place buffers, against section 5.2 of RFC 8018. */
module Pbkdf2 {
  type Octets = seq<bv8>

  /** HMAC over some hash, as a parameter with its output size. */
  datatype Prf = Prf(size: nat, mac: (Octets, Octets) -> Octets) {
    ghost predicate Valid() {
      size > 0 && forall k, d :: |mac(k, d)| == size
    }
  }

  /** INT(i): the block index as four octets, most significant first. */
  function Int32(i: nat): Octets {
    var n := i % 0x1_0000_0000;
    [(n / 0x100_0000) as bv8, (n / 0x1_0000 % 256) as bv8, (n / 256 % 256) as bv8, (n % 256) as bv8]
  }

  lemma Digits(n: int, b0: int, b1: int, b2: int, b3: int)
    requires 0 <= b0 < 256 && 0 <= b1 < 256 && 0 <= b2 < 256 && 0 <= b3 < 256
    requires n == b0 * 16777216 + b1 * 65536 + b2 * 256 + b3
    ensures n / 0x100_0000 == b0 && n / 0x1_0000 % 256 == b1 && n / 256 % 256 == b2 && n % 256 == b3
  {
    assert n / 0x1_0000 == b0 * 256 + b1;
    assert n / 256 == (b0 * 256 + b1) * 256 + b2;
  }

  /** The octets denote the index modulo 2^32, the most significant first: they are the four digits of it
      to the base 256. */
  lemma Int32Denotes(i: nat, b0: int, b1: int, b2: int, b3: int)
    requires 0 <= b0 < 256 && 0 <= b1 < 256 && 0 <= b2 < 256 && 0 <= b3 < 256
    requires b0 * 16777216 + b1 * 65536 + b2 * 256 + b3 == i % 4294967296
    ensures Int32(i) == [b0 as bv8, b1 as bv8, b2 as bv8, b3 as bv8]
  {
    Digits(i % 0x1_0000_0000, b0, b1, b2, b3);
  }

  function Xor(a: Octets, b: Octets): (r: Octets)
    requires |a| == |b|
    ensures |r| == |a| && forall i :: 0 <= i < |a| ==> r[i] == a[i] ^ b[i]
  {
    seq(|a|, i requires 0 <= i < |a| => a[i] ^ b[i])
  }

  // ---- RFC 8018 ----

  /** U_1 = PRF(P, S | INT(i)), U_c = PRF(P, U_{c-1}) */
  function U(prf: Prf, p: Octets, s: Octets, i: nat, c: nat): Octets
    requires c >= 1
  {
    if c == 1 then prf.mac(p, s + Int32(i)) else prf.mac(p, U(prf, p, s, i, c - 1))
  }

  lemma ULength(prf: Prf, p: Octets, s: Octets, i: nat, c: nat)
    requires prf.Valid() && c >= 1
    ensures |U(prf, p, s, i, c)| == prf.size
  {
  }

  /** F(P, S, c, i) = U_1 xor U_2 xor ... xor U_c */
  ghost function F(prf: Prf, p: Octets, s: Octets, c: nat, i: nat): (r: Octets)
    requires prf.Valid() && c >= 1
    ensures |r| == prf.size
  {
    ULength(prf, p, s, i, c);
    if c == 1 then U(prf, p, s, i, 1) else Xor(F(prf, p, s, c - 1, i), U(prf, p, s, i, c))
  }

  /** T_1 | ... | T_n */
  ghost function Blocks(prf: Prf, p: Octets, s: Octets, c: nat, n: nat): (r: Octets)
    requires prf.Valid() && c >= 1
    ensures |r| == n * prf.size
  {
    if n == 0 then [] else Blocks(prf, p, s, c, n - 1) + F(prf, p, s, c, n)
  }

  lemma CeilCovers(k: nat, h: nat)
    requires h > 0
    ensures (k + h - 1) / h * h >= k
  {
    var q, r := (k + h - 1) / h, (k + h - 1) % h;
    assert k + h - 1 == q * h + r;
  }

  /** The first dkLen octets of T_1 | ... | T_l, l being the ceiling of dkLen over the hash length. */
  ghost function Derived(prf: Prf, p: Octets, s: Octets, c: nat, dkLen: nat): Octets
    requires prf.Valid() && c >= 1
  {
    CeilCovers(dkLen, prf.size);
    Blocks(prf, p, s, c, (dkLen + prf.size - 1) / prf.size)[..dkLen]
  }

  // ---- The implementation ----

  /** t[i] ^= u[i] for every i. */
  method XorInto(t: array<bv8>, u: array<bv8>)
    requires t != u && t.Length == u.Length
    modifies t
    ensures forall i :: 0 <= i < t.Length ==> t[i] == old(t[i]) ^ u[i]
    ensures t[..] == Xor(old(t[..]), u[..])
  {
    for i := 0 to t.Length
      invariant forall k :: 0 <= k < i ==> t[k] == old(t[k]) ^ u[k]
      invariant forall k :: i <= k < t.Length ==> t[k] == old(t[k])
    {
      t[i] := t[i] ^ u[i];
    }
  }

  /** Overwrites a buffer in place. */
  method CopyInto(u: array<bv8>, s: Octets)
    requires u.Length == |s|
    modifies u
    ensures u[..] == s
  {
    for i := 0 to u.Length
      invariant u[..i] == s[..i]
    {
      u[i] := s[i];
    }
  }

  /** One block: `t` accumulates in place while `u` is overwritten by each iterate. */
  method Block(prf: Prf, p: Octets, s: Octets, iter: int, i: nat, u: array<bv8>) returns (t: array<bv8>)
    requires prf.Valid() && u.Length == prf.size
    modifies u
    ensures fresh(t)
    ensures t[..] == F(prf, p, s, if iter < 1 then 1 else iter, i)
  {
    var first := prf.mac(p, s + Int32(i));
    t := new bv8[prf.size];
    CopyInto(t, first);
    CopyInto(u, first);
    var n := 2;
    while n <= iter
      invariant 2 <= n && (n <= iter + 1 || n == 2)
      invariant t != u && t.Length == u.Length == prf.size
      invariant u[..] == U(prf, p, s, i, n - 1)
      invariant t[..] == F(prf, p, s, n - 1, i)
    {
      var next := prf.mac(p, u[..]);
      CopyInto(u, next);
      XorInto(t, u);
      n := n + 1;
    }
  }

  /** `pbkdf2` refines RFC 8018 for every iteration count of at least 1; smaller counts behave as 1. */
  method Pbkdf2(prf: Prf, p: Octets, s: Octets, iter: int, keyLen: nat) returns (dk: Octets)
    requires prf.Valid()
    ensures |dk| == keyLen
    ensures dk == Derived(prf, p, s, if iter < 1 then 1 else iter, keyLen)
  {
    var numBlocks := (keyLen + prf.size - 1) / prf.size;
    ghost var c := if iter < 1 then 1 else iter;
    CeilCovers(keyLen, prf.size);
    var out: Octets := [];
    var u := new bv8[prf.size];
    for i := 0 to numBlocks
      invariant u.Length == prf.size
      invariant out == Blocks(prf, p, s, c, i)
    {
      var t := Block(prf, p, s, iter, i + 1, u);
      out := out + t[..];
    }
    dk := out[..keyLen];
  }

  // ---- Consequences ----

  lemma FirstBlock(prf: Prf, p: Octets, s: Octets, c: nat, keyLen: nat)
    requires prf.Valid() && 0 < keyLen <= prf.size && c >= 1
    ensures Derived(prf, p, s, c, keyLen) == F(prf, p, s, c, 1)[..keyLen]
  {
    hide F, U;
    Ceiling(keyLen, prf.size);
    assert Blocks(prf, p, s, c, 0) == [];
    assert Blocks(prf, p, s, c, 1) == F(prf, p, s, c, 1);
  }

  lemma FirstIndex()
    ensures Int32(1) == [0, 0, 0, 1]
  {
    Int32Denotes(1, 0, 0, 0, 1);
  }

  /** A key of at most one block from one iteration. */
  lemma OneIteration(prf: Prf, p: Octets, s: Octets, keyLen: nat)
    requires prf.Valid() && 0 < keyLen <= prf.size
    ensures Derived(prf, p, s, 1, keyLen) == prf.mac(p, s + [0, 0, 0, 1])[..keyLen]
  {
    hide Int32, Derived;
    FirstBlock(prf, p, s, 1, keyLen);
    FirstIndex();
  }

  /** The same from two iterations. */
  lemma TwoIterations(prf: Prf, p: Octets, s: Octets, keyLen: nat)
    requires prf.Valid() && 0 < keyLen <= prf.size
    ensures var u := prf.mac(p, s + [0, 0, 0, 1]);
      var v := prf.mac(p, u);
      var dk := Derived(prf, p, s, 2, keyLen);
      |dk| == keyLen && forall i :: 0 <= i < keyLen ==> dk[i] == u[i] ^ v[i]
  {
    hide Int32, Derived;
    FirstBlock(prf, p, s, 2, keyLen);
    FirstIndex();
    assert U(prf, p, s, 1, 1) == prf.mac(p, s + [0, 0, 0, 1]);
    assert U(prf, p, s, 1, 2) == prf.mac(p, U(prf, p, s, 1, 1));
    assert F(prf, p, s, 2, 1) == Xor(F(prf, p, s, 1, 1), U(prf, p, s, 1, 2));
  }

  lemma Ceiling(k: nat, h: nat)
    requires 0 < k <= h
    ensures (k + h - 1) / h == 1
  {
    var q, r := (k + h - 1) / h, (k + h - 1) % h;
    assert k + h - 1 == q * h + r;
    assert (q - 2) * h == q * h - 2 * h;
    assert q >= 2 ==> (q - 2) * h >= 0;
    assert q <= 0 ==> q * h <= 0;
  }
}
