/** The mutable ratchet, whose skipped keys live in a string-keyed map. */
module RatchetObject {
  import opened Primitives
  import opened Encoding
  import opened RatchetModel

  ghost predicate IsSkipName(name: string) {
    exists id :: SkipName(id) == name
  }

  /** The string-keyed store holds exactly the position-keyed one. */
  ghost predicate SameStore(byName: map<string, Term>, byId: map<SkipId, Term>) {
    && (forall name :: name in byName ==> IsSkipName(name))
    && (forall id :: id in byId <==> SkipName(id) in byName)
    && (forall id :: id in byId ==> byName[SkipName(id)] == byId[id])
  }

  lemma SameStoreInsert(byName: map<string, Term>, byId: map<SkipId, Term>, id: SkipId, mk: Term)
    requires SameStore(byName, byId)
    ensures SameStore(byName[SkipName(id) := mk], byId[id := mk])
  {
    forall i | SkipName(i) == SkipName(id) ensures i == id {
      SkipNameInjective(i, id);
    }
  }

  lemma SameStoreRemove(byName: map<string, Term>, byId: map<SkipId, Term>, id: SkipId)
    requires SameStore(byName, byId)
    ensures SameStore(byName - {SkipName(id)}, byId - {id})
  {
    forall i | SkipName(i) == SkipName(id) ensures i == id {
      SkipNameInjective(i, id);
    }
  }

  class Ratchet {
    var dhs: PrivateKey
    var dhr: Slice
    var rk: Term
    var cks: Term
    var ckr: Term
    var ns: U32
    var nr: U32
    var pn: U32
    var skipped: map<string, Term>
    var ad: Bytes
    ghost var byId: map<SkipId, Term>

    ghost predicate Valid()
      reads this
    {
      SameStore(skipped, byId)
    }

    ghost function View(): State
      reads this
    {
      State(dhs, dhr, rk, cks, ckr, ns, nr, pn, byId, ad)
    }

    /** A ratchet without a receive chain, counters at zero and nothing skipped. */
    constructor (dhs: PrivateKey, dhr: Slice, rk: Term, cks: Term, ad: Bytes)
      ensures Valid() && View() == State(dhs, dhr, rk, cks, NoKey, 0, 0, 0, map[], ad)
    {
      this.dhs, this.dhr, this.rk, this.cks, this.ckr := dhs, dhr, rk, cks, NoKey;
      ns, nr, pn := 0, 0, 0;
      skipped, byId, this.ad := map[], map[], ad;
    }

    method Encrypt(plaintext: Bytes) returns (w: Wire)
      requires Valid()
      modifies `cks, `ns
      ensures Valid()
      ensures (View(), w) == RatchetModel.Encrypt(old(View()), plaintext)
    {
      var mk := MessageKey(cks);
      cks := NextChainKey(cks);
      var h := Header(Slice(dhs.pub), pn, ns);
      ns := Add32(ns, 1);
      w := Wire(h, AeadSeal(mk, plaintext, ad + h.Encode()));
    }

    method Decrypt(w: Wire, generated: Option<PrivateKey>) returns (r: Opened)
      requires Valid()
      modifies this
      ensures Valid()
      ensures (View(), r) == RatchetModel.Decrypt(old(View()), w, generated)
    {
      hide SameStore;
      if w.Undecodable? {
        return Err(Malformed);
      }
      var h, ct := w.header, w.ct;
      var hit, found := TrySkipped(h, ct);
      if hit {
        return found;
      }
      if dhr == NilSlice || h.dh.Contents() != dhr.Contents() {
        var ok := Skip(h.pn);
        if !ok {
          return Err(TooManySkipped);
        }
        var err := DhRatchet(h.dh, generated);
        if err.Some? {
          return Err(err.value);
        }
      }
      var ok := Skip(h.n);
      if !ok {
        return Err(TooManySkipped);
      }
      var mk := MessageKey(ckr);
      ckr := NextChainKey(ckr);
      nr := Add32(nr, 1);
      var box := AeadOpen(mk, ct, ad + h.Encode());
      r := if box.None? then Err(OpenFailed) else Ok(box.value);
    }

    /** `hit` reports that the stored key decided the outcome, an error included. */
    method TrySkipped(h: Header, ct: Ciphertext) returns (hit: bool, r: Opened)
      requires Valid()
      modifies `skipped, `byId
      ensures Valid()
      ensures hit == (h.Position() in old(byId))
      ensures hit ==> forall g :: (View(), r) == RatchetModel.Decrypt(old(View()), Wire(h, ct), g)
      ensures !hit ==> View() == old(View())
    {
      var digits := Itoa(h.n);
      var name := Hex(h.dh.Contents()) + ":" + digits;
      assert name == SkipName(h.Position());
      if name !in skipped {
        return false, Err(OpenFailed);
      }
      var box := AeadOpen(skipped[name], ct, ad + h.Encode());
      if box.None? {
        return true, Err(OpenFailed);
      }
      SameStoreRemove(skipped, byId, h.Position());
      skipped := skipped - {name};
      byId := byId - {h.Position()};
      return true, Ok(box.value);
    }

    method Skip(until: U32) returns (ok: bool)
      requires Valid()
      modifies `ckr, `nr, `skipped, `byId
      ensures Valid()
      ensures ok == (old(ckr) == NoKey || until <= (old(nr) + 1000) % 0x1_0000_0000)
      ensures ok == !SkipRefused(old(View()), until)
      ensures View() == RatchetModel.Skip(old(View()), until)
    {
      hide SameStore;
      SkipRefusedExactly(View(), until);
      if ckr == NoKey {
        return true;
      }
      if until > Add32(nr, MAX_SKIP) {
        return false;
      }
      DeriveUntil(until);
      return true;
    }

    /** The loop of `skip`. */
    method DeriveUntil(until: U32)
      requires Valid()
      modifies `ckr, `nr, `skipped, `byId
      ensures Valid()
      ensures View() == SkipTo(old(View()), until)
    {
      hide SameStore;
      ghost var m0, dh, ck, first := byId, dhr.Contents(), ckr, nr;
      while nr < until
        invariant Valid()
        invariant first <= nr && (nr <= until || nr == first)
        invariant ckr == Advance(ck, nr - first)
        invariant byId == WithKeys(m0, dh, ck, first, nr)
      {
        ghost var n, m := nr, byId;
        assert WithKeys(m0, dh, ck, first, n + 1) == m[SkipId(dh, n) := MessageKey(ckr)];
        StoreNext();
      }
    }

    /** One turn of the loop in `skip`. */
    method StoreNext()
      requires Valid() && nr < U32_LIMIT - 1
      modifies `ckr, `nr, `skipped, `byId
      ensures Valid()
      ensures nr == old(nr) + 1 && ckr == NextChainKey(old(ckr))
      ensures byId == old(byId)[SkipId(dhr.Contents(), old(nr)) := MessageKey(old(ckr))]
    {
      var mk := MessageKey(ckr);
      ckr := NextChainKey(ckr);
      var digits := Itoa(nr);
      var name := Hex(dhr.Contents()) + ":" + digits;
      ghost var id := SkipId(dhr.Contents(), nr);
      assert name == SkipName(id);
      SameStoreInsert(skipped, byId, id, mk);
      skipped, byId := skipped[name := mk], byId[id := mk];
      nr := nr + 1;
    }

    method DhRatchet(remote: Slice, generated: Option<PrivateKey>) returns (err: Option<Error>)
      requires Valid()
      modifies `pn, `ns, `nr, `dhr, `rk, `ckr, `dhs, `cks
      ensures Valid()
      ensures (View(), err) == RatchetModel.DhRatchet(old(View()), remote, generated)
    {
      hide SameStore;
      pn := ns;
      ns, nr := 0, 0;
      dhr := remote;
      var out := Ecdh(dhs, remote.Contents());
      if out.None? {
        return Some(BadPublicKey);
      }
      rk, ckr := RootKey(rk, out.value), ChainKey(rk, out.value);
      if generated.None? {
        return Some(NoRandomness);
      }
      dhs := generated.value;
      out := Ecdh(dhs, remote.Contents());
      if out.None? {
        return Some(BadPublicKey);
      }
      rk, cks := RootKey(rk, out.value), ChainKey(rk, out.value);
      return None;
    }
  }

  /** `newRatchetInitiator`, with the key it generates. */
  method NewInitiator(sk: Term, remotePub: Slice, ad: Bytes, dhs: PrivateKey) returns (r: Result<Ratchet, Error>)
    ensures r.Ok? ==> fresh(r.value) && r.value.Valid() && RatchetModel.Initiator(sk, remotePub, ad, dhs) == Ok(r.value.View())
    ensures r.Err? ==> RatchetModel.Initiator(sk, remotePub, ad, dhs) == Err(r.error)
  {
    var out := Ecdh(dhs, remotePub.Contents());
    if out.None? {
      return Err(BadPublicKey);
    }
    var ratchet := new Ratchet(dhs, remotePub, RootKey(sk, out.value), ChainKey(sk, out.value), ad);
    r := Ok(ratchet);
  }

  /** `newRatchetResponder` */
  method NewResponder(sk: Term, signedPre: PrivateKey, ad: Bytes) returns (r: Ratchet)
    ensures fresh(r) && r.Valid() && r.View() == RatchetModel.Responder(sk, signedPre, ad)
  {
    r := new Ratchet(signedPre, NilSlice, sk, NoKey, ad);
  }
}
