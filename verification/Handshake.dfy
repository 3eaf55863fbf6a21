/** X3DH and the sessions it opens. */
module Handshake {
  import opened Primitives
  import opened Encoding
  import RatchetModel
  import Epochs
  import Agreement

  // ---- Identities and prekeys ----

  /** Signatures are unforgeable: one verifies exactly when it names its signer and message. */
  datatype Signature = SignedBy(signer: Bytes, message: Bytes) | Forged(raw: Bytes)

  datatype Identity = Identity(signingPub: Bytes, agreement: PrivateKey)

  /** The display fingerprint, a hash of the signing key, is collision free. */
  datatype Fingerprint = Fingerprint(signingPub: Bytes)

  predicate Verify(pub: Bytes, message: Bytes, sig: Signature) {
    |pub| == 32 && sig == SignedBy(pub, message)
  }

  datatype PreKeys = PreKeys(id: Identity, signedPre: PrivateKey, signedPreSig: Signature, oneTime: PrivateKey)

  /** An absent one-time key is an empty byte string. */
  datatype PreKeyBundle = PreKeyBundle(
    identitySign: Bytes, identityDH: Bytes, signedPreKey: Bytes, signedPreKeySig: Signature, oneTimePreKey: Bytes)

  function GeneratePreKeys(id: Identity, signedPre: PrivateKey, oneTime: PrivateKey): PreKeys {
    PreKeys(id, signedPre, SignedBy(id.signingPub, signedPre.pub), oneTime)
  }

  function Bundle(p: PreKeys): PreKeyBundle {
    PreKeyBundle(p.id.signingPub, p.id.agreement.pub, p.signedPre.pub, p.signedPreSig, p.oneTime.pub)
  }

  // ---- X3DH ----

  datatype Error = BadSignature | BadKey | NoPreKeys | Ratchet(error: RatchetModel.Error)

  datatype HandshakeMessage = HandshakeMessage(identitySign: Bytes, identityDH: Bytes, ephemeral: Bytes, usedOTP: bool)

  /** An ECDH error is ignored, which leaves its 32 bytes out of the concatenation. */
  function Part(priv: PrivateKey, remote: Bytes): seq<DhOutput> {
    match Ecdh(priv, remote)
    case None => []
    case Some(d) => [d]
  }

  /** The shared secret and whether the one-time key was used. */
  function X3dhInitiate(local: Identity, b: PreKeyBundle, eph: PrivateKey): Result<(Term, bool), Error> {
    if !Verify(b.identitySign, b.signedPreKey, b.signedPreKeySig) then Err(BadSignature)
    else if !IsPublicKey(b.signedPreKey) || !IsPublicKey(b.identityDH) then Err(BadKey)
    else
      var parts := Part(local.agreement, b.signedPreKey) + Part(eph, b.identityDH) + Part(eph, b.signedPreKey);
      if b.oneTimePreKey == [] then Ok((X3dhSecret(parts), false))
      else if !IsPublicKey(b.oneTimePreKey) then Err(BadKey)
      else Ok((X3dhSecret(parts + Part(eph, b.oneTimePreKey)), true))
  }

  function X3dhRespond(pre: PreKeys, initiatorIK: Bytes, ephPub: Bytes, usedOTP: bool): Result<Term, Error> {
    if !IsPublicKey(initiatorIK) || !IsPublicKey(ephPub) then Err(BadKey)
    else
      var parts := Part(pre.signedPre, initiatorIK) + Part(pre.id.agreement, ephPub) + Part(pre.signedPre, ephPub);
      Ok(X3dhSecret(if usedOTP then parts + Part(pre.oneTime, ephPub) else parts))
  }

  // ---- Opening a session on each side ----

  function Initiate(local: Identity, b: PreKeyBundle, eph: PrivateKey, ratchetKey: PrivateKey)
    : Result<(RatchetModel.State, HandshakeMessage), Error>
  {
    match X3dhInitiate(local, b, eph)
    case Err(e) => Err(e)
    case Ok((sk, used)) =>
      match RatchetModel.Initiator(sk, Slice(b.signedPreKey), AssociatedData(local.signingPub, b.identitySign), ratchetKey)
      case Err(e) => Err(Ratchet(e))
      case Ok(s) => Ok((s, HandshakeMessage(local.signingPub, local.agreement.pub, eph.pub, used)))
  }

  function Accept(local: Identity, pre: Option<PreKeys>, hs: HandshakeMessage): Result<RatchetModel.State, Error> {
    match pre
    case None => Err(NoPreKeys)
    case Some(p) =>
      match X3dhRespond(p, hs.identityDH, hs.ephemeral, hs.usedOTP)
      case Err(e) => Err(e)
      case Ok(sk) => Ok(RatchetModel.Responder(sk, p.signedPre, AssociatedData(local.signingPub, hs.identitySign)))
  }

  /** Keys as the generators return them. */
  predicate GeneratedIdentity(id: Identity) {
    |id.signingPub| == 32 && ValidPoint(id.agreement.pub)
  }

  predicate GeneratedPreKeys(p: PreKeys) {
    && GeneratedIdentity(p.id) && ValidPoint(p.signedPre.pub) && ValidPoint(p.oneTime.pub)
    && p == GeneratePreKeys(p.id, p.signedPre, p.oneTime)
  }

  /** `b` is the bundle of `p`, possibly published without its one-time key. */
  predicate Publishes(p: PreKeys, b: PreKeyBundle) {
    b == Bundle(p) || b == Bundle(p).(oneTimePreKey := [])
  }

  /** Exactly which bundles an initiator accepts. */
  lemma InitiateExactly(local: Identity, b: PreKeyBundle, eph: PrivateKey, k: PrivateKey)
    ensures Initiate(local, b, eph, k).Ok? <==>
      && |b.identitySign| == 32 && b.signedPreKeySig == SignedBy(b.identitySign, b.signedPreKey)
      && |b.signedPreKey| == 32 && |b.identityDH| == 32 && |b.oneTimePreKey| in {0, 32} && !LowOrder(b.signedPreKey)
    ensures Initiate(local, b, eph, k).Err? && !Verify(b.identitySign, b.signedPreKey, b.signedPreKeySig)
      ==> Initiate(local, b, eph, k) == Err(BadSignature)
  {
    hide LowOrder;
  }

  /** Exactly which handshakes a responder accepts. */
  lemma AcceptExactly(local: Identity, pre: Option<PreKeys>, hs: HandshakeMessage)
    ensures Accept(local, pre, hs).Ok? <==> pre.Some? && |hs.identityDH| == 32 && |hs.ephemeral| == 32
    ensures pre.None? ==> Accept(local, pre, hs) == Err(NoPreKeys)
  {
  }

  /** The Diffie-Hellman outputs of the protocol, in order: identity with signed prekey, ephemeral with
      identity, ephemeral with signed prekey, and ephemeral with one-time key if one is published. */
  function Outputs(alice: Identity, b: PreKeyBundle, eph: Bytes): seq<DhOutput> {
    [DhOutput({alice.agreement.pub, b.signedPreKey}), DhOutput({eph, b.identityDH}), DhOutput({eph, b.signedPreKey})]
    + if b.oneTimePreKey == [] then [] else [DhOutput({eph, b.oneTimePreKey})]
  }

  /** Both sides derive the secret of the protocol's outputs, whether or not a one-time key is used. */
  lemma X3dhAgrees(alice: Identity, bob: PreKeys, b: PreKeyBundle, eph: PrivateKey)
    requires GeneratedIdentity(alice) && GeneratedPreKeys(bob) && Publishes(bob, b) && ValidPoint(eph.pub)
    ensures X3dhInitiate(alice, b, eph) == Ok((X3dhSecret(Outputs(alice, b, eph.pub)), b.oneTimePreKey != []))
    ensures X3dhRespond(bob, alice.agreement.pub, eph.pub, b.oneTimePreKey != []) == Ok(X3dhSecret(Outputs(alice, b, eph.pub)))
  {
    hide LowOrder;
    var dh1, dh2 := DhOutput({alice.agreement.pub, b.signedPreKey}), DhOutput({eph.pub, b.identityDH});
    var dh3 := DhOutput({eph.pub, b.signedPreKey});
    assert Part(alice.agreement, b.signedPreKey) + Part(eph, b.identityDH) + Part(eph, b.signedPreKey) == [dh1, dh2, dh3];
    assert [dh1, dh2, dh3] + [] == [dh1, dh2, dh3];
    assert {alice.agreement.pub, bob.signedPre.pub} == {bob.signedPre.pub, alice.agreement.pub};
    assert {eph.pub, bob.id.agreement.pub} == {bob.id.agreement.pub, eph.pub};
    assert {eph.pub, bob.signedPre.pub} == {bob.signedPre.pub, eph.pub};
    assert {eph.pub, bob.oneTime.pub} == {bob.oneTime.pub, eph.pub};
  }

  /** The pair of ratchets X3DH leaves behind, with nothing sent yet. */
  function Opening(a: RatchetModel.State, r: RatchetModel.State): Agreement.System {
    Agreement.System(a, r, Epochs.History(r.rk, r.ad, [r.dhs.pub, a.dhs.pub], [0, 0]), map[], {}, {})
  }

  /** Establishment: a published bundle and the handshake it produces put the two ratchets in the
      states from which every run agrees. */
  lemma Establishes(alice: Identity, bob: PreKeys, b: PreKeyBundle, eph: PrivateKey, k: PrivateKey)
    requires GeneratedIdentity(alice) && GeneratedPreKeys(bob) && Publishes(bob, b)
    requires ValidPoint(eph.pub) && ValidPoint(k.pub) && k.pub != bob.signedPre.pub
    ensures Initiate(alice, b, eph, k).Ok?
    ensures var (a, hs) := Initiate(alice, b, eph, k).value;
      && Accept(bob.id, Some(bob), hs).Ok?
      && var r := Accept(bob.id, Some(bob), hs).value;
         && a.ad == r.ad && r.rk.X3dhSecret?
         && Agreement.Established(Opening(a, r))
  {
    hide LowOrder;
    X3dhAgrees(alice, bob, b, eph);
    AssociatedDataSymmetric(alice.signingPub, bob.id.signingPub);
  }

  /** The test on a bundle: its unsigned keys are the peer's own, the one-time key possibly missing. */
  predicate OwnKeys(p: PreKeys, b: PreKeyBundle) {
    && b.identityDH == p.id.agreement.pub
    && (b.oneTimePreKey == [] || b.oneTimePreKey == p.oneTime.pub)
  }

  lemma PairDetermines(a: Bytes, x: Bytes, y: Bytes)
    ensures {a, x} == {a, y} <==> x == y
  {
    if {a, x} == {a, y} {
      assert x in {a, y} && y in {a, x};
    }
  }

  /** The two concatenations agree part by part or not at all: a low-order key shortens the sender's. */
  lemma PartsAgree(bob: PreKeys, b: PreKeyBundle, eph: PrivateKey, d1: DhOutput, d3: DhOutput)
    requires ValidPoint(bob.id.agreement.pub) && ValidPoint(bob.oneTime.pub) && ValidPoint(eph.pub)
    ensures var used := b.oneTimePreKey != [];
      [d1] + Part(eph, b.identityDH) + [d3] + (if used then Part(eph, b.oneTimePreKey) else [])
      == [d1] + Part(bob.id.agreement, eph.pub) + [d3] + (if used then Part(bob.oneTime, eph.pub) else [])
      <==> OwnKeys(bob, b)
  {
    hide LowOrder;
    PairDetermines(eph.pub, b.identityDH, bob.id.agreement.pub);
    PairDetermines(eph.pub, b.oneTimePreKey, bob.oneTime.pub);
    assert {bob.id.agreement.pub, eph.pub} == {eph.pub, bob.id.agreement.pub};
    assert {bob.oneTime.pub, eph.pub} == {eph.pub, bob.oneTime.pub};
    var used := b.oneTimePreKey != [];
    var l := [d1] + Part(eph, b.identityDH) + [d3] + if used then Part(eph, b.oneTimePreKey) else [];
    var r := [d1] + Part(bob.id.agreement, eph.pub) + [d3] + if used then Part(bob.oneTime, eph.pub) else [];
    if l == r {
      assert |Part(eph, b.identityDH)| == 1;
      assert l[1] == r[1];
      assert used ==> l[3] == r[3];
    }
  }

  lemma SecretsAgreeExactly(alice: Identity, bob: PreKeys, b: PreKeyBundle, eph: PrivateKey)
    requires GeneratedIdentity(alice) && GeneratedPreKeys(bob) && ValidPoint(eph.pub)
    requires b.signedPreKey == bob.signedPre.pub && X3dhInitiate(alice, b, eph).Ok?
    ensures var (sk, used) := X3dhInitiate(alice, b, eph).value;
      && X3dhRespond(bob, alice.agreement.pub, eph.pub, used).Ok?
      && (X3dhRespond(bob, alice.agreement.pub, eph.pub, used).value == sk <==> OwnKeys(bob, b))
  {
    hide LowOrder;
    var d1, d3 := DhOutput({alice.agreement.pub, b.signedPreKey}), DhOutput({eph.pub, b.signedPreKey});
    assert Part(alice.agreement, b.signedPreKey) == [d1] && Part(eph, b.signedPreKey) == [d3];
    assert {bob.signedPre.pub, alice.agreement.pub} == {alice.agreement.pub, b.signedPreKey};
    assert {bob.signedPre.pub, eph.pub} == {eph.pub, b.signedPreKey};
    assert Part(bob.signedPre, alice.agreement.pub) == [d1] && Part(bob.signedPre, eph.pub) == [d3];
    PartsAgree(bob, b, eph, d1, d3);
    var l := [d1] + Part(eph, b.identityDH) + [d3];
    var r := [d1] + Part(bob.id.agreement, eph.pub) + [d3];
    assert l + [] == l && r + [] == r;
  }

  /** What accepting a bundle means when its unsigned keys may have been replaced on the way: if the
      identity it names signed one prekey only, the bundle carries that prekey, the named peer accepts
      the handshake and both sides bind the same associated data; but the two ratchets are an
      established pair if and only if the bundle's other keys are the peer's own. */
  lemma AcceptedBundle(alice: Identity, bob: PreKeys, b: PreKeyBundle, eph: PrivateKey, k: PrivateKey)
    requires GeneratedIdentity(alice) && GeneratedPreKeys(bob) && ValidPoint(eph.pub) && ValidPoint(k.pub)
    requires k.pub != bob.signedPre.pub && b.identitySign == bob.id.signingPub
    requires b.signedPreKeySig.SignedBy? && b.signedPreKeySig.signer == bob.id.signingPub
      ==> b.signedPreKeySig.message == bob.signedPre.pub
    requires Initiate(alice, b, eph, k).Ok?
    ensures b.signedPreKey == bob.signedPre.pub
    ensures var (a, hs) := Initiate(alice, b, eph, k).value;
      && Accept(bob.id, Some(bob), hs).Ok?
      && var r := Accept(bob.id, Some(bob), hs).value;
         && a.ad == r.ad
         && (Agreement.Established(Opening(a, r)) <==> OwnKeys(bob, b))
  {
    hide LowOrder, Part;
    AssociatedDataSymmetric(alice.signingPub, bob.id.signingPub);
    SecretsAgreeExactly(alice, bob, b, eph);
  }

  /** A replaced identity key passes the signature test and still opens no session that works. */
  lemma ReplacedIdentityKey(alice: Identity, bob: PreKeys, b: PreKeyBundle, other: Bytes, eph: PrivateKey, k: PrivateKey)
    requires GeneratedIdentity(alice) && GeneratedPreKeys(bob) && ValidPoint(eph.pub) && ValidPoint(k.pub)
    requires |bob.id.signingPub| == 32 && k.pub != bob.signedPre.pub
    requires b == Bundle(bob).(identityDH := other) && |other| == 32 && other != bob.id.agreement.pub
    ensures Initiate(alice, b, eph, k).Ok?
    ensures var (a, hs) := Initiate(alice, b, eph, k).value;
      Accept(bob.id, Some(bob), hs).Ok? && !Agreement.Established(Opening(a, Accept(bob.id, Some(bob), hs).value))
  {
    hide LowOrder, Part;
    assert Verify(b.identitySign, b.signedPreKey, b.signedPreKeySig);
    assert Initiate(alice, b, eph, k).Ok?;
    AcceptedBundle(alice, bob, b, eph, k);
  }
}
