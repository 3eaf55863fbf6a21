/** Where accepted messages come from, whatever the network makes up.

The network may seal under any key that does not come from the X3DH secret of the session, reuse any
ciphertext it has seen under any header, and deliver in any order as often as it likes. */
module Authenticity {
  import opened Primitives
  import opened Encoding
  import opened RatchetModel
  import opened Epochs
  import Replay
  import Agreement

  // ---- Where a key comes from ----

  predicate FromSecret(t: Term, secret: Term) {
    match t
    case NoKey => false
    case X3dhSecret(_) => t == secret
    case RootKey(p, _) => FromSecret(p, secret)
    case ChainKey(p, _) => FromSecret(p, secret)
    case NextChainKey(p) => FromSecret(p, secret)
    case MessageKey(p) => FromSecret(p, secret)
  }

  /** Derived from the nil key by chain steps. */
  predicate FromNil(t: Term) {
    match t
    case NoKey => true
    case NextChainKey(p) => FromNil(p)
    case MessageKey(p) => FromNil(p)
    case _ => false
  }

  /** Generation 0 is the chain of the nil key; all later ones come from the secret. */
  predicate GoodChain(t: Term, secret: Term) {
    if Replay.Generation(t) == 0 then FromNil(t) else FromSecret(t, secret)
  }

  lemma {:induction false} OneOrigin(t: Term, a: Term, b: Term)
    requires FromSecret(t, a)
    ensures !FromNil(t) && (FromSecret(t, b) ==> a == b)
  {
    match t
    case X3dhSecret(_) =>
    case RootKey(p, _) => OneOrigin(p, a, b);
    case ChainKey(p, _) => OneOrigin(p, a, b);
    case NextChainKey(p) => OneOrigin(p, a, b);
    case MessageKey(p) => OneOrigin(p, a, b);
  }

  lemma {:induction false} NilHasNoSecret(t: Term, secret: Term)
    requires FromNil(t)
    ensures !FromSecret(t, secret)
  {
    match t
    case NoKey =>
    case NextChainKey(p) => NilHasNoSecret(p, secret);
    case MessageKey(p) => NilHasNoSecret(p, secret);
  }

  // ---- What one endpoint keeps, over arbitrary inputs ----

  /** A key to receive with: of a generation that the endpoint never seals in, unless from the nil key. */
  ghost predicate ReceiveKey(t: Term, depth: nat, secret: Term, sealing: set<nat>) {
    && GoodChain(t, secret) && Replay.Generation(t) <= depth
    && (Replay.Generation(t) > 0 ==> Replay.Generation(t) !in sealing)
  }

  /** `sealing` lists the generations of the chains the endpoint has had for sending. */
  ghost predicate Sound(s: State, secret: Term, sealing: set<nat>) {
    && FromSecret(s.rk, secret)
    && GoodChain(s.cks, secret) && Replay.Generation(s.cks) in sealing
    && (forall n :: n in sealing ==> n <= Replay.RootDepth(s.rk))
    && ReceiveKey(s.ckr, Replay.RootDepth(s.rk), secret, sealing)
    && (forall id :: id in s.skipped ==> s.skipped[id].MessageKey? && ReceiveKey(s.skipped[id].parent, Replay.RootDepth(s.rk), secret, sealing))
  }

  function Sealing(sealing: set<nat>, s: State): set<nat> {
    sealing + {Replay.Generation(s.cks)}
  }

  lemma StoreNextSound(s: State, secret: Term, sealing: set<nat>)
    requires Sound(s, secret, sealing) && s.nr < U32_LIMIT - 1
    ensures Sound(StoreNext(s), secret, sealing)
  {
  }

  lemma {:induction false} SkipToSound(s: State, secret: Term, sealing: set<nat>, until: U32)
    requires Sound(s, secret, sealing) && until >= s.nr
    ensures Sound(SkipTo(s, until), secret, sealing)
    decreases until
  {
    if until > s.nr {
      SkipToSound(s, secret, sealing, until - 1);
      SkipToStep(s, until);
      StoreNextSound(SkipTo(s, until - 1), secret, sealing);
    }
  }

  lemma SkipSound(s: State, secret: Term, sealing: set<nat>, until: U32)
    requires Sound(s, secret, sealing)
    ensures Sound(Skip(s, until), secret, sealing)
    ensures Replay.Generation(Skip(s, until).ckr) == Replay.Generation(s.ckr) && Skip(s, until).cks == s.cks
  {
    if s.ckr != NoKey && !SkipRefused(s, until) && until > s.nr {
      SkipToSound(s, secret, sealing, until);
      Replay.AdvanceAge(s.ckr, until - s.nr);
    }
  }

  /** The key a message in the current chain is tried with. */
  lemma OpenInChainSound(s: State, h: Header, ct: Ciphertext, secret: Term, sealing: set<nat>)
    requires Sound(s, secret, sealing)
    ensures var (t, r) := OpenInChain(s, h, ct);
      && Sound(t, secret, sealing) && t.cks == s.cks
      && (r.Ok? ==>
            && ct.Sealed? && ct.ad == s.ad + h.Encode() && r.value == ct.plaintext && ct.key.mk.MessageKey?
            && ReceiveKey(ct.key.mk.parent, Replay.RootDepth(s.rk), secret, sealing)
            && Replay.Generation(ct.key.mk.parent) == Replay.Generation(s.ckr))
  {
    SkipSound(s, secret, sealing, h.n);
  }

  lemma ReceiveHalf(s: State, t: State, d: DhOutput, secret: Term, sealing: set<nat>)
    requires Sound(s, secret, sealing) && t.rk == RootKey(s.rk, d) && t.ckr == ChainKey(s.rk, d)
    requires t.cks == s.cks && t.skipped == s.skipped
    ensures Sound(t, secret, sealing) && Replay.Generation(t.ckr) > 0
  {
  }

  lemma SendHalf(s: State, t: State, d: DhOutput, secret: Term, sealing: set<nat>)
    requires Sound(s, secret, sealing) && t.rk == RootKey(s.rk, d) && t.cks == ChainKey(s.rk, d)
    requires t.ckr == s.ckr && t.skipped == s.skipped
    ensures Sound(t, secret, Sealing(sealing, t))
  {
  }

  lemma SameKeysSound(s: State, t: State, secret: Term, sealing: set<nat>)
    requires Sound(s, secret, sealing) && t.rk == s.rk && t.cks == s.cks && t.ckr == s.ckr && t.skipped == s.skipped
    ensures Sound(t, secret, sealing) && Sealing(sealing, t) == sealing
  {
  }

  lemma RatchetSound(s: State, remote: Slice, g: Option<PrivateKey>, secret: Term, sealing: set<nat>)
    requires Sound(s, secret, sealing)
    ensures var (t, err) := DhRatchet(s, remote, g);
      && Sound(t, secret, Sealing(sealing, t)) && t.ad == s.ad
      && (err.None? ==> Replay.Generation(t.ckr) > 0)
  {
    hide Sound, Sealing, ValidPoint;
    var s1 := s.(pn := s.ns, ns := 0, nr := 0, dhr := remote);
    SameKeysSound(s, s1, secret, sealing);
    var d1 := Ecdh(s.dhs, remote.Contents());
    if d1.Some? {
      var s2 := s1.(rk := RootKey(s.rk, d1.value), ckr := ChainKey(s.rk, d1.value));
      ReceiveHalf(s1, s2, d1.value, secret, sealing);
      SameKeysSound(s2, s2, secret, sealing);
      if g.Some? {
        var s3 := s2.(dhs := g.value);
        SameKeysSound(s2, s3, secret, sealing);
        var d2 := Ecdh(g.value, remote.Contents());
        if d2.Some? {
          SendHalf(s3, s3.(rk := RootKey(s2.rk, d2.value), cks := ChainKey(s2.rk, d2.value)), d2.value, secret, sealing);
        }
      }
    }
  }

  /** Some message with this header can be accepted that comes from nobody's secret: a test on the
      receiver's state and the header. */
  predicate Unprotected(s: State, h: Header) {
    if h.Position() in s.skipped then FromNil(s.skipped[h.Position()])
    else InCurrentChain(s, h) && FromNil(s.ckr) && !SkipRefused(s, h.n)
  }

  /** What accepting a ciphertext under a header shows about its key. */
  ghost predicate AcceptedAs(s: State, t: State, h: Header, ct: Ciphertext, pt: Bytes, secret: Term, sealing: set<nat>) {
    && ct.Sealed? && ct.ad == s.ad + h.Encode() && pt == ct.plaintext
    && ct.key.mk.MessageKey? && ReceiveKey(ct.key.mk.parent, Replay.RootDepth(t.rk), secret, sealing)
  }

  lemma ChainOrigin(t: Term, secret: Term)
    requires GoodChain(t, secret)
    ensures FromNil(t) <==> Replay.Generation(t) == 0
  {
    if Replay.Generation(t) > 0 {
      OneOrigin(t, secret, secret);
    }
  }

  lemma StoredSound(s: State, h: Header, ct: Ciphertext, g: Option<PrivateKey>, secret: Term, sealing: set<nat>)
    requires Sound(s, secret, sealing) && h.Position() in s.skipped
    ensures var (t, r) := Decrypt(s, Wire(h, ct), g);
      && Sound(t, secret, Sealing(sealing, t)) && t.ad == s.ad
      && (r.Ok? ==> AcceptedAs(s, t, h, ct, r.value, secret, Sealing(sealing, t)) && (FromNil(ct.key.mk) <==> Unprotected(s, h)))
  {
    var t := Decrypt(s, Wire(h, ct), g).0;
    assert Sealing(sealing, t) == sealing;
  }

  lemma CurrentSound(s: State, h: Header, ct: Ciphertext, secret: Term, sealing: set<nat>)
    requires Sound(s, secret, sealing)
    ensures var (t, r) := OpenInChain(s, h, ct);
      && Sound(t, secret, Sealing(sealing, t)) && t.ad == s.ad && Sealing(sealing, t) == sealing
      && (r.Ok? ==> AcceptedAs(s, t, h, ct, r.value, secret, sealing) && !SkipRefused(s, h.n)
                    && (FromNil(ct.key.mk) <==> FromNil(s.ckr)))
  {
    var (t, r) := OpenInChain(s, h, ct);
    OpenInChainSound(s, h, ct, secret, sealing);
    assert Sealing(sealing, t) == sealing;
    assert t.rk == s.rk;
    ChainOrigin(s.ckr, secret);
    if r.Ok? {
      ChainOrigin(ct.key.mk.parent, secret);
    }
  }

  /** Every decrypt keeps the endpoint sound; what it accepts is under a key to receive with, which comes
      from the nil key if and only if the header is unprotected. */
  lemma DecryptSound(s: State, w: Wire, g: Option<PrivateKey>, secret: Term, sealing: set<nat>)
    requires Sound(s, secret, sealing)
    ensures var (t, r) := Decrypt(s, w, g);
      && Sound(t, secret, Sealing(sealing, t)) && t.ad == s.ad
      && (r.Ok? ==> w.Wire? && AcceptedAs(s, t, w.header, w.ct, r.value, secret, Sealing(sealing, t))
                    && (FromNil(w.ct.key.mk) <==> Unprotected(s, w.header)))
  {
    hide Sound, Sealing, OpenInChain, DhRatchet, AcceptedAs, FromNil, SkipRefused;
    SameKeysSound(s, s, secret, sealing);
    if w.Wire? {
      var h := w.header;
      if h.Position() in s.skipped {
        StoredSound(s, h, w.ct, g, secret, sealing);
      } else if InCurrentChain(s, h) {
        CurrentSound(s, h, w.ct, secret, sealing);
      } else if !SkipRefused(s, h.pn) {
        NewChainSound(s, h, w.ct, g, secret, sealing);
      }
    }
  }

  lemma NewChainSound(s: State, h: Header, ct: Ciphertext, g: Option<PrivateKey>, secret: Term, sealing: set<nat>)
    requires Sound(s, secret, sealing) && !InCurrentChain(s, h) && !SkipRefused(s, h.pn)
    ensures var (t, r) := OpenUnskipped(s, h, ct, g);
      && Sound(t, secret, Sealing(sealing, t)) && t.ad == s.ad
      && (r.Ok? ==> AcceptedAs(s, t, h, ct, r.value, secret, Sealing(sealing, t)) && !FromNil(ct.key.mk))
  {
    hide Sound, OpenInChain, DhRatchet;
    var s1 := Skip(s, h.pn);
    SkipSound(s, secret, sealing, h.pn);
    var (s2, err) := DhRatchet(s1, h.dh, g);
    RatchetSound(s1, h.dh, g, secret, sealing);
    if err.None? {
      var sealing' := Sealing(sealing, s2);
      CurrentSound(s2, h, ct, secret, sealing');
      OpenInChainSound(s2, h, ct, secret, sealing');
      NewChainOrigin(s2, secret, sealing');
      assert OpenUnskipped(s, h, ct, g) == OpenInChain(s2, h, ct);
      assert Sealing(sealing, OpenInChain(s2, h, ct).0) == sealing';
    }
  }

  lemma NewChainOrigin(s: State, secret: Term, sealing: set<nat>)
    requires Sound(s, secret, sealing) && Replay.Generation(s.ckr) > 0
    ensures !FromNil(s.ckr)
  {
    ChainOrigin(s.ckr, secret);
  }

  // ---- Two endpoints and an active network ----

  /** One side: its state, the generations it has sealed in, and what it has sent. */
  datatype Side = Side(s: State, sealing: set<nat>, sent: set<Wire>)

  datatype World = World(alice: Side, bob: Side) {
    function Of(p: Party): Side {
      if p == Alice then alice else bob
    }

    function With(p: Party, side: Side): World {
      if p == Alice then this.(alice := side) else this.(bob := side)
    }
  }

  datatype Action =
    | Send(who: Party, plaintext: Bytes)
    | Arrive(at: Party, wire: Wire, generated: Option<PrivateKey>)

  /** What the network can deliver. */
  ghost predicate Makeable(z: World, secret: Term, w: Wire) {
    w.Wire? && w.ct.Sealed? && FromSecret(w.ct.key.mk, secret) ==>
      exists v :: v in z.alice.sent + z.bob.sent && v.Wire? && v.ct == w.ct
  }

  ghost predicate Enabled(z: World, secret: Term, a: Action) {
    a.Arrive? ==> Makeable(z, secret, a.wire)
  }

  function Step(z: World, a: Action): World {
    match a
    case Send(p, pt) =>
      var side := z.Of(p);
      var (t, w) := Encrypt(side.s, pt);
      z.With(p, Side(t, Sealing(side.sealing, t), side.sent + {w}))
    case Arrive(p, w, g) =>
      var side := z.Of(p);
      var t := Decrypt(side.s, w, g).0;
      z.With(p, Side(t, Sealing(side.sealing, t), side.sent))
  }

  /** What was sent is sealed for its own header, in a generation of the sender's sealing chains. */
  ghost predicate SentOk(side: Side, secret: Term, ad: Bytes, v: Wire) {
    && v.Wire? && v.ct.Sealed? && v.ct.ad == ad + v.header.Encode()
    && v.ct.key.mk.MessageKey? && GoodChain(v.ct.key.mk.parent, secret)
    && Replay.Generation(v.ct.key.mk.parent) in side.sealing
  }

  ghost predicate SideOk(side: Side, secret: Term, ad: Bytes) {
    && Sound(side.s, secret, side.sealing) && side.s.ad == ad
    && forall v :: v in side.sent ==> SentOk(side, secret, ad, v)
  }

  ghost predicate Safe(z: World, secret: Term, ad: Bytes) {
    SideOk(z.alice, secret, ad) && SideOk(z.bob, secret, ad)
  }

  lemma SendSafe(side: Side, secret: Term, ad: Bytes, pt: Bytes)
    requires SideOk(side, secret, ad)
    ensures var (t, w) := Encrypt(side.s, pt);
      SideOk(Side(t, Sealing(side.sealing, t), side.sent + {w}), secret, ad)
  {
    var (t, w) := Encrypt(side.s, pt);
    assert Sealing(side.sealing, t) == side.sealing;
    assert forall v :: v in side.sent ==> SentOk(side, secret, ad, v);
  }

  lemma ArriveSafe(side: Side, secret: Term, ad: Bytes, w: Wire, g: Option<PrivateKey>)
    requires SideOk(side, secret, ad)
    ensures var t := Decrypt(side.s, w, g).0;
      SideOk(Side(t, Sealing(side.sealing, t), side.sent), secret, ad)
  {
    hide Sound, Decrypt;
    DecryptSound(side.s, w, g, secret, side.sealing);
    assert forall v :: v in side.sent ==> SentOk(side, secret, ad, v);
  }

  ghost predicate CanRun(z: World, secret: Term, acts: seq<Action>)
    decreases |acts|
  {
    acts == [] || (Enabled(z, secret, acts[0]) && CanRun(Step(z, acts[0]), secret, acts[1..]))
  }

  function Run(z: World, acts: seq<Action>): World
    decreases |acts|
  {
    if acts == [] then z else Run(Step(z, acts[0]), acts[1..])
  }

  lemma {:induction false} RunSafe(z: World, secret: Term, ad: Bytes, acts: seq<Action>)
    requires Safe(z, secret, ad)
    ensures Safe(Run(z, acts), secret, ad)
    decreases |acts|
  {
    hide SideOk, Encrypt, Decrypt;
    if acts != [] {
      match acts[0] {
        case Send(p, pt) => SendSafe(z.Of(p), secret, ad, pt);
        case Arrive(p, w, g) => ArriveSafe(z.Of(p), secret, ad, w, g);
      }
      RunSafe(Step(z, acts[0]), secret, ad, acts[1..]);
    }
  }

  /** An established pair, with nothing sent. */
  function Opening(y: Agreement.System): World {
    World(Side(y.alice, {1}, {}), Side(y.bob, {0}, {}))
  }

  lemma OpeningSafe(y: Agreement.System)
    requires Agreement.Established(y) && y.h.secret.X3dhSecret?
    ensures Safe(Opening(y), y.h.secret, y.h.ad)
  {
  }

  // ---- Theorems ----

  /** `w` carries a message of the peer of `p`, under the peer's header, and `pt` is what it sealed. */
  ghost predicate FromPeer(z: World, p: Party, w: Wire, pt: Bytes) {
    exists v :: v in z.Of(Peer(p)).sent && v.Wire? && w.Wire? && v.ct == w.ct && v.ct.Sealed? && v.ct.plaintext == pt
      && v.header.dh.Contents() == w.header.dh.Contents() && v.header.pn == w.header.pn && v.header.n == w.header.n
  }

  /** A ciphertext under the secret is not one of the receiver's own. */
  lemma NotOwn(side: Side, secret: Term, ad: Bytes, t: State, sealing: set<nat>, h: Header, ct: Ciphertext, pt: Bytes, v: Wire)
    requires SideOk(side, secret, ad) && v in side.sent && v.Wire? && v.ct == ct
    requires side.sealing <= sealing && AcceptedAs(side.s, t, h, ct, pt, secret, sealing)
    ensures FromNil(ct.key.mk)
  {
    assert SentOk(side, secret, ad, v);
  }

  lemma AcceptedFromPeer(z: World, secret: Term, ad: Bytes, p: Party, w: Wire, g: Option<PrivateKey>)
    requires Safe(z, secret, ad) && Makeable(z, secret, w)
    requires Decrypt(z.Of(p).s, w, g).1.Ok? && w.Wire? && !Unprotected(z.Of(p).s, w.header)
    ensures FromPeer(z, p, w, Decrypt(z.Of(p).s, w, g).1.value)
  {
    hide Decrypt, Sound, Unprotected;
    var side := z.Of(p);
    assert SideOk(side, secret, ad) && SideOk(z.Of(Peer(p)), secret, ad);
    var (t, r) := Decrypt(side.s, w, g);
    DecryptSound(side.s, w, g, secret, side.sealing);
    AcceptedOrigin(side.s, t, w.header, w.ct, r.value, secret, Sealing(side.sealing, t));
    var v :| v in z.alice.sent + z.bob.sent && v.Wire? && v.ct == w.ct;
    if v in side.sent {
      NotOwn(side, secret, ad, t, Sealing(side.sealing, t), w.header, w.ct, r.value, v);
      assert false;
    }
    SameHeader(z.Of(Peer(p)), secret, ad, v, w);
    assert v in z.Of(Peer(p)).sent;
  }

  lemma AcceptedOrigin(s: State, t: State, h: Header, ct: Ciphertext, pt: Bytes, secret: Term, sealing: set<nat>)
    requires AcceptedAs(s, t, h, ct, pt, secret, sealing) && !FromNil(ct.key.mk)
    ensures FromSecret(ct.key.mk, secret)
  {
  }

  lemma SameHeader(side: Side, secret: Term, ad: Bytes, v: Wire, w: Wire)
    requires SideOk(side, secret, ad) && v in side.sent && w.Wire? && v.Wire? && v.ct == w.ct
    requires w.ct.Sealed? && w.ct.ad == ad + w.header.Encode()
    ensures v.header.dh.Contents() == w.header.dh.Contents() && v.header.pn == w.header.pn && v.header.n == w.header.n
  {
    assert SentOk(side, secret, ad, v);
    assert v.header.Encode() == w.ct.ad[|ad|..] == w.header.Encode();
    HeaderBytesInjective(v.header, w.header);
  }

  /** Authenticity, over all runs against an active network: what an endpoint accepts under a protected
      header was sealed by its peer, for that header, with that plaintext. */
  lemma AcceptedIsAuthentic(y: Agreement.System, acts: seq<Action>, p: Party, w: Wire, g: Option<PrivateKey>)
    requires Agreement.Established(y) && y.h.secret.X3dhSecret? && CanRun(Opening(y), y.h.secret, acts)
    requires Makeable(Run(Opening(y), acts), y.h.secret, w)
    requires var s := Run(Opening(y), acts).Of(p).s;
      Decrypt(s, w, g).1.Ok? && w.Wire? && !Unprotected(s, w.header)
    ensures var z := Run(Opening(y), acts);
      FromPeer(z, p, w, Decrypt(z.Of(p).s, w, g).1.value)
  {
    hide Safe, Decrypt, Unprotected, FromPeer, Makeable, CanRun, Run, Agreement.Established;
    OpeningSafe(y);
    RunSafe(Opening(y), y.h.secret, y.h.ad, acts);
    AcceptedFromPeer(Run(Opening(y), acts), y.h.secret, y.h.ad, p, w, g);
  }

  /** The key tried on a message whose header is unprotected. */
  function NilKey(s: State, h: Header): Term {
    if h.Position() in s.skipped then s.skipped[h.Position()] else MessageKey(Skip(s, h.n).ckr)
  }

  lemma {:induction false} AdvanceFromNil(ck: Term, k: nat)
    ensures FromNil(Advance(ck, k)) <==> FromNil(ck)
  {
    if k > 0 {
      AdvanceFromNil(ck, k - 1);
    }
  }

  /** Under an unprotected header, and under no other, a ciphertext made from the nil key alone is
      accepted, and then with any plaintext. */
  lemma UnprotectedExactly(s: State, secret: Term, sealing: set<nat>, h: Header, g: Option<PrivateKey>)
    requires Sound(s, secret, sealing)
    ensures Unprotected(s, h) <==>
      exists ct: Ciphertext :: ct.Sealed? && FromNil(ct.key.mk) && Decrypt(s, Wire(h, ct), g).1.Ok?
    ensures Unprotected(s, h) ==> forall pt ::
      FromNil(NilKey(s, h)) && Decrypt(s, Wire(h, AeadSeal(NilKey(s, h), pt, s.ad + h.Encode())), g).1 == Ok(pt)
  {
    if Unprotected(s, h) {
      forall pt ensures FromNil(NilKey(s, h)) && Decrypt(s, Wire(h, AeadSeal(NilKey(s, h), pt, s.ad + h.Encode())), g).1 == Ok(pt) {
        NilKeyOpens(s, h, pt, g);
      }
      var ct := AeadSeal(NilKey(s, h), [], s.ad + h.Encode());
      assert ct.Sealed? && FromNil(ct.key.mk) && Decrypt(s, Wire(h, ct), g).1.Ok?;
    }
    hide Sound, Unprotected, Decrypt;
    forall ct: Ciphertext | ct.Sealed? && FromNil(ct.key.mk) && Decrypt(s, Wire(h, ct), g).1.Ok? ensures Unprotected(s, h) {
      DecryptSound(s, Wire(h, ct), g, secret, sealing);
    }
  }

  lemma NilKeyOpens(s: State, h: Header, pt: Bytes, g: Option<PrivateKey>)
    requires Unprotected(s, h)
    ensures FromNil(NilKey(s, h)) && Decrypt(s, Wire(h, AeadSeal(NilKey(s, h), pt, s.ad + h.Encode())), g).1 == Ok(pt)
  {
    if h.Position() !in s.skipped && s.ckr != NoKey && h.n > s.nr {
      AdvanceFromNil(s.ckr, h.n - s.nr);
    }
  }

  lemma NewPlaintext(sent: set<Wire>) returns (pt: Bytes)
    ensures forall v :: v in sent && v.Wire? && v.ct.Sealed? ==> |v.ct.plaintext| < |pt|
    decreases sent
  {
    if sent == {} {
      pt := [];
    } else {
      var v :| v in sent;
      var rest := NewPlaintext(sent - {v});
      pt := rest + (if v.Wire? && v.ct.Sealed? then v.ct.plaintext else []) + [0];
      forall u | u in sent && u.Wire? && u.ct.Sealed? ensures |u.ct.plaintext| < |pt| {
        assert u == v || u in sent - {v};
      }
    }
  }

  /** Authenticity is exact: in every reachable state, all that the network can get accepted under a
      header is from the peer if and only if the header is protected. */
  lemma AuthenticExactly(y: Agreement.System, acts: seq<Action>, p: Party, h: Header, g: Option<PrivateKey>)
    requires Agreement.Established(y) && y.h.secret.X3dhSecret? && CanRun(Opening(y), y.h.secret, acts)
    ensures var z := Run(Opening(y), acts);
      var s := z.Of(p).s;
      !Unprotected(s, h) <==>
      forall ct :: Makeable(z, y.h.secret, Wire(h, ct)) && Decrypt(s, Wire(h, ct), g).1.Ok?
        ==> FromPeer(z, p, Wire(h, ct), Decrypt(s, Wire(h, ct), g).1.value)
  {
    hide Safe, Decrypt, Unprotected, FromPeer, Makeable, CanRun, Run, Agreement.Established, NilKey, FromNil;
    var z := Run(Opening(y), acts);
    var s := z.Of(p).s;
    if Unprotected(s, h) {
      var pt := NewPlaintext(z.Of(Peer(p)).sent);
      NilKeyOpens(s, h, pt, g);
      ForgedNotFromPeer(z, y.h.secret, p, h, NilKey(s, h), pt, s.ad + h.Encode());
    } else {
      forall ct | Makeable(z, y.h.secret, Wire(h, ct)) && Decrypt(s, Wire(h, ct), g).1.Ok?
        ensures FromPeer(z, p, Wire(h, ct), Decrypt(s, Wire(h, ct), g).1.value)
      {
        AcceptedIsAuthentic(y, acts, p, Wire(h, ct), g);
      }
    }
  }

  lemma ForgedNotFromPeer(z: World, secret: Term, p: Party, h: Header, key: Term, pt: Bytes, ad: Bytes)
    requires FromNil(key)
    requires forall v :: v in z.Of(Peer(p)).sent && v.Wire? && v.ct.Sealed? ==> |v.ct.plaintext| < |pt|
    ensures Makeable(z, secret, Wire(h, AeadSeal(key, pt, ad)))
    ensures !FromPeer(z, p, Wire(h, AeadSeal(key, pt, ad)), pt)
  {
    NilHasNoSecret(key, secret);
  }

  // ---- In the runs of module Agreement ----

  lemma {:induction false} RootOrigin(h: History, i: nat)
    requires i < |h.keys| && h.secret.X3dhSecret?
    ensures FromSecret(Root(h, i), h.secret)
  {
    if i > 0 {
      RootOrigin(h, i - 1);
    }
  }

  lemma {:induction false} AdvanceFromSecret(ck: Term, k: nat, secret: Term)
    ensures FromSecret(Advance(ck, k), secret) <==> FromSecret(ck, secret)
  {
    if k > 0 {
      AdvanceFromSecret(ck, k - 1, secret);
    }
  }

  /** The chain of epoch 0 comes from the nil key and every other one from the secret. */
  lemma ChainOf(h: History, c: nat, n: nat)
    requires c < |h.keys| && h.secret.X3dhSecret?
    ensures var t := Advance(Chain(h, c), n);
      (FromNil(t) <==> c == 0) && (FromSecret(t, h.secret) <==> c > 0)
  {
    AdvanceFromNil(Chain(h, c), n);
    AdvanceFromSecret(Chain(h, c), n, h.secret);
    if c > 0 {
      RootOrigin(h, c - 1);
      OneOrigin(Root(h, c - 1), h.secret, h.secret);
    }
  }

  lemma StoredUnprotected(h: History, acc: set<Slot>, s: State, e: nat, id: SkipId)
    requires Good(h) && h.secret.X3dhSecret? && e < |h.keys| && Endpoint(h, acc, s, e) && id in s.skipped
    ensures FromNil(s.skipped[id]) <==> id.dh == h.keys[0]
    ensures FromNil(s.skipped[id]) ==> Owner(e) == Alice
  {
    hide Root, Core, AllValid, Passed;
    var q := Passed(h, e, s.nr) - acc;
    var x :| x in q && Ids(h)(x) == id;
    assert s.skipped[id] == Keys(h)(x) == KeyAt(h, x);
    assert id == IdAt(h, x) && InConversation(h, x);
    ChainOf(h, x.epoch, x.n);
    PassedMembers(h, e, s.nr, x);
  }

  lemma CurrentUnprotected(h: History, s: State, e: nat, hd: Header)
    requires Good(h) && h.secret.X3dhSecret? && e < |h.keys| && Core(h, s, e)
    ensures InCurrentChain(s, hd) && FromNil(s.ckr) <==> e == 1 && hd.dh.Contents() == h.keys[0]
  {
    hide Root, AllValid;
    if e >= 1 {
      ChainOf(h, e - 1, s.nr);
    }
  }

  /** What an unprotected header looks like in the runs of the agreement theorem: it names the
      responder's signed prekey, and the receiver is the initiator, still in epoch 0 of its peer or
      holding the key of that position. */
  lemma UnprotectedInRuns(y: Agreement.System, acts: seq<Agreement.Action>, p: Party, hd: Header)
    requires Agreement.Established(y) && y.h.secret.X3dhSecret? && Agreement.CanRun(y, acts)
    ensures Agreement.Inv(Agreement.Run(y, acts)) && |Agreement.Run(y, acts).h.keys| >= 2
    ensures var z := Agreement.Run(y, acts);
      Unprotected(z.Of(p), hd) <==>
      && p == Alice && hd.dh.Contents() == z.h.keys[0]
      && (hd.Position() in z.alice.skipped
          || (Agreement.EpochOf(z.h, Alice) == 1 && !SkipRefused(z.alice, hd.n)))
  {
    hide Agreement.Inv, Agreement.Established, Agreement.CanRun, Agreement.Run, Unprotected;
    Agreement.EstablishedInv(y);
    Agreement.RunKeeps(y, acts);
    SecretKept(y, acts);
    UnprotectedIn(Agreement.Run(y, acts), p, hd);
  }

  lemma {:induction false} SecretKept(y: Agreement.System, acts: seq<Agreement.Action>)
    requires Agreement.CanRun(y, acts)
    ensures Agreement.Run(y, acts).h.secret == y.h.secret
    decreases |acts|
  {
    if acts != [] {
      SecretKept(Agreement.Apply(y, acts[0]), acts[1..]);
    }
  }

  lemma UnprotectedIn(z: Agreement.System, p: Party, hd: Header)
    requires Agreement.Inv(z) && z.h.secret.X3dhSecret?
    ensures |z.h.keys| >= 2
    ensures Unprotected(z.Of(p), hd) <==>
      && p == Alice && hd.dh.Contents() == z.h.keys[0]
      && (hd.Position() in z.alice.skipped
          || (Agreement.EpochOf(z.h, Alice) == 1 && !SkipRefused(z.alice, hd.n)))
  {
    Agreement.InvShape(z);
    Agreement.EpochOwner(z.h, p);
    assert Agreement.SideOk(z, p);
    hide Endpoint, FromNil, SkipRefused, InCurrentChain;
    var s, e := z.Of(p), Agreement.EpochOf(z.h, p);
    CoreOf(z.h, z.AcceptedBy(p), s, e);
    CurrentUnprotected(z.h, s, e, hd);
    if hd.Position() in s.skipped {
      StoredUnprotected(z.h, z.AcceptedBy(p), s, e, hd.Position());
    }
  }

  lemma CoreOf(h: History, acc: set<Slot>, s: State, e: nat)
    requires Good(h) && e < |h.keys| && Endpoint(h, acc, s, e)
    ensures Core(h, s, e)
  {
  }

  // ---- Across sessions ----

  /** Two sessions with different secrets share a sealing key if and only if both messages are of epoch 0
      and have the same number. */
  lemma KeysAcrossSessions(h1: History, x: Slot, h2: History, w: Slot)
    requires h1.secret.X3dhSecret? && h2.secret.X3dhSecret? && h1.secret != h2.secret
    requires InConversation(h1, x) && InConversation(h2, w)
    ensures KeyAt(h1, x) == KeyAt(h2, w) <==> x.epoch == 0 && w.epoch == 0 && x.n == w.n
  {
    hide Root;
    ChainOf(h1, x.epoch, x.n);
    ChainOf(h2, w.epoch, w.n);
    Replay.AdvanceAge(NoKey, x.n);
    Replay.AdvanceAge(NoKey, w.n);
    if x.epoch > 0 && KeyAt(h1, x) == KeyAt(h2, w) {
      OneOrigin(Advance(Chain(h1, x.epoch), x.n), h1.secret, h2.secret);
    }
  }

  lemma {:induction false} AfterSound(s: State, inputs: seq<Replay.Input>, secret: Term, sealing: set<nat>) returns (later: set<nat>)
    requires Sound(s, secret, sealing)
    ensures Sound(Replay.After(s, inputs), secret, later)
    decreases inputs
  {
    hide Sound, Decrypt, Encrypt;
    later := sealing;
    if inputs != [] {
      var t := Replay.Step(s, inputs[0]);
      match inputs[0] {
        case Send(pt) => EncryptSound(s, pt, secret, sealing);
        case Receive(w, g) =>
          DecryptSound(s, w, g, secret, sealing);
          later := Sealing(sealing, t);
      }
      later := AfterSound(t, inputs[1..], secret, later);
    }
  }

  lemma EncryptSound(s: State, pt: Bytes, secret: Term, sealing: set<nat>)
    requires Sound(s, secret, sealing)
    ensures Sound(Encrypt(s, pt).0, secret, sealing)
  {
  }

  /** A ratchet as X3DH starts it from this secret. */
  ghost predicate StartsFrom(s: State, secret: Term) {
    || (exists remote, ad, dhs :: RatchetModel.Initiator(secret, remote, ad, dhs) == Ok(s))
    || (exists pre, ad :: s == RatchetModel.Responder(secret, pre, ad))
  }

  lemma StartSound(s: State, secret: Term) returns (sealing: set<nat>)
    requires StartsFrom(s, secret) && secret.X3dhSecret?
    ensures Sound(s, secret, sealing)
  {
    sealing := {Replay.Generation(s.cks)};
    assert s.ckr == NoKey && s.skipped == map[];
    assert s.cks == NoKey ==> s.rk == secret;
    assert s.cks != NoKey ==> exists d :: s.rk == RootKey(secret, d) && s.cks == ChainKey(secret, d);
  }

  /** Whatever reaches them, two ratchets with different secrets seal under the same key only if both still
      send on the chain of the nil key. */
  lemma SealingKeysAcross(s1: State, secret1: Term, in1: seq<Replay.Input>, p1: Bytes, s2: State, secret2: Term, in2: seq<Replay.Input>, p2: Bytes)
    requires StartsFrom(s1, secret1) && StartsFrom(s2, secret2)
    requires secret1.X3dhSecret? && secret2.X3dhSecret? && secret1 != secret2
    requires Encrypt(Replay.After(s1, in1), p1).1.ct.key == Encrypt(Replay.After(s2, in2), p2).1.ct.key
    ensures FromNil(Replay.After(s1, in1).cks) && Replay.After(s1, in1).cks == Replay.After(s2, in2).cks
  {
    hide StartsFrom;
    var a := StartSound(s1, secret1);
    var b := StartSound(s2, secret2);
    a := AfterSound(s1, in1, secret1, a);
    b := AfterSound(s2, in2, secret2, b);
    var c := Replay.After(s1, in1).cks;
    if !FromNil(c) {
      OneOrigin(c, secret1, secret2);
    }
  }

  /** So two sessions of one account with one peer, as every new link opens, are not kept apart until the
      initiator has been heard: the responder's first message of one is accepted in the other. */
  lemma FirstReplyCrosses(y1: Agreement.System, y2: Agreement.System, pt: Bytes, q: Bytes, g: Option<PrivateKey>)
    requires Agreement.Established(y1) && Agreement.Established(y2)
    requires y1.bob.dhs == y2.bob.dhs && y1.h.ad == y2.h.ad
    ensures Decrypt(y2.alice, Encrypt(y1.bob, pt).1, g).1 == Ok(pt)
    ensures var c1, c2 := Encrypt(y1.bob, pt).1.ct, Encrypt(y2.bob, q).1.ct; c1.key == c2.key && c1.nonce == c2.nonce
  {
    hide ValidPoint, BigEndian32;
    var w := Encrypt(y1.bob, pt).1;
    assert InCurrentChain(y2.alice, w.header) && y2.alice.ad == y1.bob.ad;
    assert Decrypt(y2.alice, w, g) == OpenInChain(y2.alice, w.header, w.ct);
  }
}
