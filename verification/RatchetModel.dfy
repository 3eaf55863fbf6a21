/** The Double Ratchet of one endpoint as functions on its state. */
module RatchetModel {
  import opened Primitives
  import opened Encoding

  const MAX_SKIP: int := 1000

  datatype Error = Malformed | TooManySkipped | BadPublicKey | NoRandomness | OpenFailed

  /** Skipped keys are held by position; the object in module RatchetObject holds them by name. */
  datatype State = State(
    dhs: PrivateKey,
    dhr: Slice,
    rk: Term,
    cks: Term,
    ckr: Term,
    ns: U32,
    nr: U32,
    pn: U32,
    skipped: map<SkipId, Term>,
    ad: Bytes)

  /** What `decodeMessage` yields: a header and a ciphertext, or a decoding error. */
  datatype Wire = Undecodable | Wire(header: Header, ct: Ciphertext)

  type Opened = Result<Bytes, Error>

  /** The chain key `k` steps further on. */
  function Advance(ck: Term, k: nat): Term {
    if k == 0 then ck else NextChainKey(Advance(ck, k - 1))
  }

  lemma {:induction false} AdvanceAdds(ck: Term, j: nat, k: nat)
    ensures Advance(Advance(ck, j), k) == Advance(ck, j + k)
  {
    if k > 0 {
      AdvanceAdds(ck, j, k - 1);
    }
  }

  function Initiator(sk: Term, remotePub: Slice, ad: Bytes, dhs: PrivateKey): Result<State, Error> {
    match Ecdh(dhs, remotePub.Contents())
    case None => Err(BadPublicKey)
    case Some(d) =>
      Ok(State(dhs, remotePub, RootKey(sk, d), ChainKey(sk, d), NoKey, 0, 0, 0, map[], ad))
  }

  function Responder(sk: Term, signedPre: PrivateKey, ad: Bytes): State {
    State(signedPre, NilSlice, sk, NoKey, NoKey, 0, 0, 0, map[], ad)
  }

  function Encrypt(s: State, plaintext: Bytes): (State, Wire) {
    var h := Header(Slice(s.dhs.pub), s.pn, s.ns);
    (s.(cks := NextChainKey(s.cks), ns := Add32(s.ns, 1)),
     Wire(h, AeadSeal(MessageKey(s.cks), plaintext, s.ad + h.Encode())))
  }

  /** `m` with the keys of positions `first` up to `end` of the chain whose key at `first` is `ck`. */
  function WithKeys(m: map<SkipId, Term>, dh: Bytes, ck: Term, first: U32, end: U32): map<SkipId, Term>
    requires first <= end
    decreases end
  {
    if first == end then m
    else WithKeys(m, dh, ck, first, end - 1)[SkipId(dh, end - 1) := MessageKey(Advance(ck, end - 1 - first))]
  }

  lemma {:induction false} WithKeysDomain(m: map<SkipId, Term>, dh: Bytes, ck: Term, first: U32, end: U32)
    requires first <= end
    ensures forall id :: id in WithKeys(m, dh, ck, first, end) <==> id in m || (id.dh == dh && first <= id.n < end)
    decreases end
  {
    if first < end {
      WithKeysDomain(m, dh, ck, first, end - 1);
    }
  }

  lemma {:induction false} WithKeysRest(m: map<SkipId, Term>, dh: Bytes, ck: Term, first: U32, end: U32, id: SkipId)
    requires first <= end && id in m && (id.dh != dh || !(first <= id.n < end))
    ensures id in WithKeys(m, dh, ck, first, end) && WithKeys(m, dh, ck, first, end)[id] == m[id]
    decreases end
  {
    if first < end {
      WithKeysRest(m, dh, ck, first, end - 1, id);
    }
  }

  lemma {:induction false} WithKeysSize(m: map<SkipId, Term>, dh: Bytes, ck: Term, first: U32, end: U32)
    requires first <= end
    ensures |WithKeys(m, dh, ck, first, end)| <= |m| + end - first
    decreases end
  {
    if first < end {
      WithKeysSize(m, dh, ck, first, end - 1);
    }
  }

  lemma {:induction false} WithKeysAt(m: map<SkipId, Term>, dh: Bytes, ck: Term, first: U32, end: U32, n: U32)
    requires first <= n < end
    ensures SkipId(dh, n) in WithKeys(m, dh, ck, first, end)
    ensures WithKeys(m, dh, ck, first, end)[SkipId(dh, n)] == MessageKey(Advance(ck, n - first))
    decreases end
  {
    if n < end - 1 {
      WithKeysAt(m, dh, ck, first, end - 1, n);
    }
  }

  function SkipTo(s: State, until: U32): State {
    if until <= s.nr then s
    else s.(ckr := Advance(s.ckr, until - s.nr),
            nr := until,
            skipped := WithKeys(s.skipped, s.dhr.Contents(), s.ckr, s.nr, until))
  }

  /** One turn of the loop in `skip`. */
  function StoreNext(s: State): State
    requires s.nr < U32_LIMIT - 1
  {
    s.(ckr := NextChainKey(s.ckr),
       nr := s.nr + 1,
       skipped := s.skipped[SkipId(s.dhr.Contents(), s.nr) := MessageKey(s.ckr)])
  }

  lemma SkipToStep(s: State, until: U32)
    requires until > s.nr
    ensures SkipTo(s, until - 1).nr == until - 1
    ensures SkipTo(s, until) == StoreNext(SkipTo(s, until - 1))
  {
    var t := SkipTo(s, until - 1);
    assert t.ckr == Advance(s.ckr, until - 1 - s.nr);
    assert t.skipped == WithKeys(s.skipped, s.dhr.Contents(), s.ckr, s.nr, until - 1);
  }

  /** The bound is computed in uint32 arithmetic and may wrap. */
  predicate SkipRefused(s: State, until: U32) {
    s.ckr != NoKey && until > Add32(s.nr, MAX_SKIP)
  }

  function Skip(s: State, until: U32): State {
    if s.ckr == NoKey || SkipRefused(s, until) then s else SkipTo(s, until)
  }

  function DhRatchet(s: State, remote: Slice, generated: Option<PrivateKey>): (State, Option<Error>) {
    var s1 := s.(pn := s.ns, ns := 0, nr := 0, dhr := remote);
    match Ecdh(s.dhs, remote.Contents())
    case None => (s1, Some(BadPublicKey))
    case Some(d1) =>
      var s2 := s1.(rk := RootKey(s.rk, d1), ckr := ChainKey(s.rk, d1));
      match generated
      case None => (s2, Some(NoRandomness))
      case Some(k) =>
        var s3 := s2.(dhs := k);
        match Ecdh(k, remote.Contents())
        case None => (s3, Some(BadPublicKey))
        case Some(d2) => (s3.(rk := RootKey(s2.rk, d2), cks := ChainKey(s2.rk, d2)), None)
  }

  /** The part of `decrypt` after any DH ratchet step: skip to the message and open it. */
  function OpenInChain(s: State, h: Header, ct: Ciphertext): (State, Opened) {
    if SkipRefused(s, h.n) then (s, Err(TooManySkipped))
    else
      var s1 := Skip(s, h.n);
      (s1.(ckr := NextChainKey(s1.ckr), nr := Add32(s1.nr, 1)),
       match AeadOpen(MessageKey(s1.ckr), ct, s1.ad + h.Encode())
       case None => Err(OpenFailed)
       case Some(pt) => Ok(pt))
  }

  /** A message sealed under the key of its position opens, when the position is in reach. */
  lemma OpenInChainAt(s: State, h: Header, pt: Bytes)
    requires s.ckr != NoKey || h.n == s.nr
    requires s.nr <= h.n <= s.nr + 1000 < U32_LIMIT && h.n + 1 < U32_LIMIT
    ensures var t := SkipTo(s, h.n);
      OpenInChain(s, h, AeadSeal(MessageKey(Advance(s.ckr, h.n - s.nr)), pt, s.ad + h.Encode()))
      == (t.(ckr := NextChainKey(t.ckr), nr := h.n + 1), Ok(pt))
  {
    var t := SkipTo(s, h.n);
    assert t.ckr == Advance(s.ckr, h.n - s.nr) && t.ad == s.ad;
  }

  predicate InCurrentChain(s: State, h: Header) {
    s.dhr != NilSlice && h.dh.Contents() == s.dhr.Contents()
  }

  function OpenUnskipped(s: State, h: Header, ct: Ciphertext, generated: Option<PrivateKey>): (State, Opened) {
    if InCurrentChain(s, h) then OpenInChain(s, h, ct)
    else if SkipRefused(s, h.pn) then (s, Err(TooManySkipped))
    else
      var (s1, err) := DhRatchet(Skip(s, h.pn), h.dh, generated);
      if err.Some? then (s1, Err(err.value)) else OpenInChain(s1, h, ct)
  }

  function Decrypt(s: State, w: Wire, generated: Option<PrivateKey>): (State, Opened) {
    if w.Undecodable? then (s, Err(Malformed))
    else
      var h, ct := w.header, w.ct;
      if h.Position() in s.skipped then
        match AeadOpen(s.skipped[h.Position()], ct, s.ad + h.Encode())
        case None => (s, Err(OpenFailed))
        case Some(pt) => (s.(skipped := s.skipped - {h.Position()}), Ok(pt))
      else OpenUnskipped(s, h, ct, generated)
  }

  /** Which error a message meets: each test comes before the next. */
  lemma ErrorsExactly(s: State, w: Wire, g: Option<PrivateKey>)
    ensures var (t, r) := Decrypt(s, w, g);
      if w == Undecodable then r == Err(Malformed) && t == s
      else if w.header.Position() in s.skipped then
        if r.Err? then r == Err(OpenFailed) && t == s
        else t == s.(skipped := t.skipped) && t.skipped == s.skipped - {w.header.Position()}
      else if InCurrentChain(s, w.header) then
        r == Err(TooManySkipped) || r == Err(OpenFailed) || r.Ok?
      else if SkipRefused(s, w.header.pn) then r == Err(TooManySkipped) && t == s
      else if !ValidPoint(w.header.dh.Contents()) then r == Err(BadPublicKey) && t.rk == s.rk && t.dhs == s.dhs
      else if g == None then r == Err(NoRandomness) && t.dhs == s.dhs
      else t.dhs == g.value && r != Err(BadPublicKey) && r != Err(NoRandomness) && r != Err(Malformed)
    ensures Decrypt(s, w, g).0.ad == s.ad
  {
    hide ValidPoint, Advance, WithKeys;
  }

  // ---- The skip limit is a real bound ----

  /** `skip` refuses exactly positions more than 1000 ahead, in arithmetic modulo 2^32. */
  lemma SkipRefusedExactly(s: State, until: U32)
    ensures SkipRefused(s, until) <==> s.ckr != NoKey && until > (s.nr + 1000) % 0x1_0000_0000
  {
    Add32Wraps(s.nr, MAX_SKIP);
  }

  /** One `skip` stores at most 1000 keys, even when the uint32 bound wraps. */
  lemma SkipBound(s: State, until: U32)
    ensures |Skip(s, until).skipped| <= |s.skipped| + 1000
    ensures s.skipped.Keys <= Skip(s, until).skipped.Keys
  {
    if s.ckr != NoKey && !SkipRefused(s, until) && until > s.nr {
      WithKeysDomain(s.skipped, s.dhr.Contents(), s.ckr, s.nr, until);
      WithKeysSize(s.skipped, s.dhr.Contents(), s.ckr, s.nr, until);
    }
  }

  /** Unless there is no receive chain or the limit refuses, `skip` adds exactly the keys of the
      positions it passes over; every other stored key stays. */
  lemma SkipStoresExactly(s: State, until: U32, id: SkipId)
    ensures var t := Skip(s, until);
      var passed := s.ckr != NoKey && !SkipRefused(s, until) && id.dh == s.dhr.Contents() && s.nr <= id.n < until;
      && (id in t.skipped <==> passed || id in s.skipped)
      && (passed ==> t.skipped[id] == MessageKey(Advance(s.ckr, id.n - s.nr)))
      && (!passed && id in s.skipped ==> t.skipped[id] == s.skipped[id])
  {
    if s.ckr != NoKey && !SkipRefused(s, until) && s.nr <= until {
      var dh := s.dhr.Contents();
      WithKeysDomain(s.skipped, dh, s.ckr, s.nr, until);
      if id.dh == dh && s.nr <= id.n < until {
        WithKeysAt(s.skipped, dh, s.ckr, s.nr, until, id.n);
      } else if id in s.skipped {
        WithKeysRest(s.skipped, dh, s.ckr, s.nr, until, id);
      }
    }
  }

  /** One `decrypt` stores at most 2000 keys, whatever the message. */
  lemma DecryptBound(s: State, w: Wire, generated: Option<PrivateKey>)
    ensures |Decrypt(s, w, generated).0.skipped| <= |s.skipped| + 2000
  {
    if w.Wire? {
      var h := w.header;
      if h.Position() in s.skipped {
        assert |s.skipped - {h.Position()}| <= |s.skipped| by {
          assert (s.skipped - {h.Position()}).Keys == s.skipped.Keys - {h.Position()};
        }
      } else if InCurrentChain(s, h) {
        SkipBound(s, h.n);
      } else {
        var s1 := Skip(s, h.pn);
        SkipBound(s, h.pn);
        var s2 := DhRatchet(s1, h.dh, generated).0;
        assert s2.skipped == s1.skipped;
        SkipBound(s2, h.n);
      }
    }
  }
}
