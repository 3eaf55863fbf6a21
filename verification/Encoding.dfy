/** Byte encodings: decimal and hexadecimal text, big-endian integers, the ratchet header
and the associated data, with the injectivity the protocol relies on. */
module Encoding {
  import opened Primitives

  // ---- itoa ----

  function DigitChar(d: int): char
    requires 0 <= d < 10
  {
    '0' + d as char
  }

  /** Decimal text without leading zeros. */
  function Decimal(n: nat): string {
    if n < 10 then [DigitChar(n)] else Decimal(n / 10) + [DigitChar(n % 10)]
  }

  predicate IsDigit(c: char) {
    '0' <= c <= '9'
  }

  function PowerOfTen(k: nat): nat {
    if k == 0 then 1 else 10 * PowerOfTen(k - 1)
  }

  /** `itoa`: fills a 10-byte buffer from the right; ten digits are enough for a uint32. */
  method Itoa(n: U32) returns (s: string)
    ensures s == Decimal(n) && Denoted(s) == n
    ensures 1 <= |s| <= 10 && (n > 0 ==> s[0] != '0')
  {
    hide Denoted;
    DecimalDenotes(n);
    if n == 0 {
      assert DigitChar(0) == '0';
      return "0";
    }
    var buf := new char[10];
    var i, rest := 10, n as nat;
    assert PowerOfTen(10) == 10_000_000_000 by {
      assert PowerOfTen(4) == 10_000;
      assert PowerOfTen(8) == 100_000_000;
    }
    while rest > 0
      invariant 0 <= i <= 10
      invariant 0 <= rest < PowerOfTen(i)
      invariant rest > 0 ==> Decimal(n) == Decimal(rest) + buf[i..]
      invariant rest == 0 ==> i < 10 && Decimal(n) == buf[i..]
    {
      ghost var tail := buf[i..];
      i := i - 1;
      buf[i] := DigitChar(rest % 10);
      assert buf[i + 1..] == tail;
      assert buf[i..] == [DigitChar(rest % 10)] + tail;
      if rest >= 10 {
        assert Decimal(rest) + tail == Decimal(rest / 10) + buf[i..];
      }
      rest := rest / 10;
    }
    s := buf[i..];
  }

  lemma {:induction false} DecimalIsDigits(n: nat)
    ensures |Decimal(n)| >= 1
    ensures forall i :: 0 <= i < |Decimal(n)| ==> IsDigit(Decimal(n)[i])
  {
    if n >= 10 {
      DecimalIsDigits(n / 10);
    }
  }

  /** The number that a text of ASCII digits denotes. */
  function Denoted(s: string): int {
    if s == "" then 0 else 10 * Denoted(s[..|s| - 1]) + (s[|s| - 1] as int - 48)
  }

  /** The text is the usual one: it denotes the number and has no leading zero. */
  lemma {:induction false} DecimalDenotes(n: nat)
    ensures Denoted(Decimal(n)) == n
    ensures n > 0 ==> Decimal(n)[0] != '0'
  {
    DecimalIsDigits(n);
    if n >= 10 {
      DecimalDenotes(n / 10);
      DecimalIsDigits(n / 10);
      var s := Decimal(n);
      assert s[..|s| - 1] == Decimal(n / 10);
    } else {
      assert Decimal(n)[..0] == "";
    }
  }

  lemma {:induction false} DecimalInjective(m: nat, n: nat)
    requires Decimal(m) == Decimal(n)
    ensures m == n
  {
    DecimalIsDigits(m / 10);
    DecimalIsDigits(n / 10);
    var s := Decimal(m);
    assert s[|s| - 1] == DigitChar(m % 10) == DigitChar(n % 10);
    if m >= 10 && n >= 10 {
      assert Decimal(m / 10) == s[..|s| - 1] == Decimal(n / 10);
      DecimalInjective(m / 10, n / 10);
    }
  }

  // ---- hex ----

  function HexChar(d: int): char
    requires 0 <= d < 16
  {
    if d < 10 then '0' + d as char else 'a' + (d - 10) as char
  }

  function Hex(b: Bytes): string {
    if b == [] then "" else [HexChar(b[0] / 16), HexChar(b[0] % 16)] + Hex(b[1..])
  }

  lemma {:induction false} HexShape(b: Bytes)
    ensures |Hex(b)| == 2 * |b|
    ensures forall i :: 0 <= i < |Hex(b)| ==> Hex(b)[i] != ':'
  {
    if b != [] {
      HexShape(b[1..]);
    }
  }

  /** Two lower-case digits a byte, the high one first. */
  lemma {:induction false} HexDigits(b: Bytes, i: nat)
    requires i < |b|
    ensures |Hex(b)| == 2 * |b|
    ensures Hex(b)[2 * i] == "0123456789abcdef"[b[i] / 16] && Hex(b)[2 * i + 1] == "0123456789abcdef"[b[i] % 16]
  {
    HexShape(b);
    if i > 0 {
      HexDigits(b[1..], i - 1);
    }
  }

  lemma {:induction false} HexInjective(a: Bytes, b: Bytes)
    requires Hex(a) == Hex(b)
    ensures a == b
  {
    HexShape(a);
    HexShape(b);
    if a != [] {
      var s := Hex(a);
      assert s[0] == HexChar(a[0] / 16) == HexChar(b[0] / 16);
      assert s[1] == HexChar(a[0] % 16) == HexChar(b[0] % 16);
      assert Hex(a[1..]) == s[2..] == Hex(b[1..]);
      HexInjective(a[1..], b[1..]);
    }
  }

  // ---- the name of a skipped message key ----

  /** The position a skipped key was derived for. */
  datatype SkipId = SkipId(dh: Bytes, n: U32)

  function SkipName(id: SkipId): string {
    Hex(id.dh) + ":" + Decimal(id.n)
  }

  /** Distinct positions have distinct names in the string-keyed store. */
  lemma SkipNameInjective(x: SkipId, y: SkipId)
    requires SkipName(x) == SkipName(y)
    ensures x == y
  {
    HexShape(x.dh);
    HexShape(y.dh);
    var s := SkipName(x);
    assert s[2 * |x.dh|] == ':' && s[2 * |y.dh|] == ':';
    assert |x.dh| == |y.dh|;
    assert Hex(x.dh) == s[..2 * |x.dh|] == Hex(y.dh);
    HexInjective(x.dh, y.dh);
    assert Decimal(x.n) == s[2 * |x.dh| + 1..] == Decimal(y.n);
    DecimalInjective(x.n, y.n);
  }

  // ---- headers and associated data ----

  function BigEndian32(n: U32): (b: Bytes)
    ensures |b| == 4
  {
    [n / 0x100_0000, n / 0x1_0000 % 256, n / 256 % 256, n % 256]
  }

  function FromBigEndian32(b: Bytes): int
    requires |b| == 4
  {
    b[0] as int * 0x100_0000 + b[1] as int * 0x1_0000 + b[2] as int * 256 + b[3] as int
  }

  lemma BigEndian32RoundTrip(n: U32)
    ensures FromBigEndian32(BigEndian32(n)) == n
  {
    var hi, lo := n / 0x1_0000, n % 0x1_0000;
    assert n / 0x100_0000 == hi / 256;
    assert n / 256 % 256 == lo / 256;
  }

  datatype Header = Header(dh: Slice, pn: U32, n: U32) {
    /** `ratchetHeader.bytes` */
    function Encode(): Bytes {
      dh.Contents() + BigEndian32(pn) + BigEndian32(n)
    }

    function Position(): SkipId {
      SkipId(dh.Contents(), n)
    }
  }

  /** The number that four octets denote, the most significant first. */
  function Octets(b: Bytes): int
    requires |b| == 4
  {
    b[0] as int * 16777216 + b[1] as int * 65536 + b[2] as int * 256 + b[3] as int
  }

  lemma BigEndian32Denotes(n: U32)
    ensures Octets(BigEndian32(n)) == n
  {
    BigEndian32RoundTrip(n);
  }

  /** The layout of the header: the DH key, four octets of PN, four octets of N. */
  lemma HeaderLayout(h: Header)
    ensures var b, k := h.Encode(), |h.dh.Contents()|;
      && |b| == k + 8 && b[..k] == h.dh.Contents()
      && b[k] as int * 16777216 + b[k + 1] as int * 65536 + b[k + 2] as int * 256 + b[k + 3] as int == h.pn
      && b[k + 4] as int * 16777216 + b[k + 5] as int * 65536 + b[k + 6] as int * 256 + b[k + 7] as int == h.n
  {
    BigEndian32Denotes(h.pn);
    BigEndian32Denotes(h.n);
  }

  /** The header encoding determines every field, whatever the length of the DH key. */
  lemma HeaderBytesInjective(g: Header, h: Header)
    requires g.Encode() == h.Encode()
    ensures g.dh.Contents() == h.dh.Contents() && g.pn == h.pn && g.n == h.n
  {
    var b := g.Encode();
    var k := |b| - 8;
    assert g.dh.Contents() == b[..k] == h.dh.Contents();
    assert BigEndian32(g.pn) == b[k..k + 4] == BigEndian32(h.pn);
    assert BigEndian32(g.n) == b[k + 4..] == BigEndian32(h.n);
    BigEndian32RoundTrip(g.pn);
    BigEndian32RoundTrip(h.pn);
    BigEndian32RoundTrip(g.n);
    BigEndian32RoundTrip(h.n);
  }

  /** `bytes.Compare(a, b) <= 0` */
  predicate LexLeq(a: Bytes, b: Bytes) {
    a == [] || (b != [] && (a[0] < b[0] || (a[0] == b[0] && LexLeq(a[1..], b[1..]))))
  }

  lemma {:induction false} LexLeqTotal(a: Bytes, b: Bytes)
    ensures LexLeq(a, b) || LexLeq(b, a)
  {
    if a != [] && b != [] && a[0] == b[0] {
      LexLeqTotal(a[1..], b[1..]);
    }
  }

  lemma {:induction false} LexLeqAntisymmetric(a: Bytes, b: Bytes)
    requires LexLeq(a, b) && LexLeq(b, a)
    ensures a == b
  {
    if a != [] && b != [] {
      LexLeqAntisymmetric(a[1..], b[1..]);
      assert a == [a[0]] + a[1..];
      assert b == [b[0]] + b[1..];
    }
  }

  function AssociatedData(a: Bytes, b: Bytes): Bytes {
    if LexLeq(a, b) then a + b else b + a
  }

  /** The smaller key comes first: the one whose octet is smaller where they first differ. */
  lemma {:induction false} SmallerFirst(a: Bytes, b: Bytes, i: nat)
    requires i < |a| && i < |b| && a[..i] == b[..i] && a[i] < b[i]
    ensures LexLeq(a, b) && !LexLeq(b, a)
    ensures AssociatedData(a, b) == a + b && AssociatedData(b, a) == a + b
  {
    if i > 0 {
      assert a[0] == a[..i][0] == b[..i][0] == b[0];
      assert a[1..][..i - 1] == a[..i][1..] && b[1..][..i - 1] == b[..i][1..];
      SmallerFirst(a[1..], b[1..], i - 1);
    }
  }

  /** Both sides of a conversation bind the same bytes. */
  lemma AssociatedDataSymmetric(a: Bytes, b: Bytes)
    ensures AssociatedData(a, b) == AssociatedData(b, a)
  {
    LexLeqTotal(a, b);
    if LexLeq(a, b) && LexLeq(b, a) {
      LexLeqAntisymmetric(a, b);
    }
  }

  /** The bytes an AEAD authenticates determine the unordered identity pair and the header. */
  lemma AuthenticatedBytesInjective(a: Bytes, b: Bytes, g: Header, c: Bytes, d: Bytes, h: Header)
    requires |a| == |b| == |c| == |d| == 32
    requires AssociatedData(a, b) + g.Encode() == AssociatedData(c, d) + h.Encode()
    ensures {a, b} == {c, d}
    ensures g.dh.Contents() == h.dh.Contents() && g.pn == h.pn && g.n == h.n
  {
    var s := AssociatedData(a, b) + g.Encode();
    var ad := AssociatedData(a, b);
    assert ad == s[..64] == AssociatedData(c, d);
    assert g.Encode() == s[64..] == h.Encode();
    HeaderBytesInjective(g, h);
    assert (ad[..32] == a && ad[32..] == b) || (ad[..32] == b && ad[32..] == a);
    assert (ad[..32] == c && ad[32..] == d) || (ad[..32] == d && ad[32..] == c);
  }
}
