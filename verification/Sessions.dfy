/** The in-memory session store. */
module Sessions {
  import opened Primitives
  import opened RatchetObject
  import opened Encoding
  import Handshake

  class SessionStore {
    const local: Handshake.Identity
    const pre: Option<Handshake.PreKeys>
    var sessions: map<Handshake.Fingerprint, Ratchet>

    constructor (local: Handshake.Identity, pre: Option<Handshake.PreKeys>)
      ensures this.local == local && this.pre == pre && sessions == map[]
    {
      this.local, this.pre, sessions := local, pre, map[];
    }

    method Initiate(b: Handshake.PreKeyBundle, eph: PrivateKey, ratchetKey: PrivateKey)
      returns (r: Result<(Ratchet, Handshake.HandshakeMessage), Handshake.Error>)
      modifies this`sessions
      ensures r.Ok? == Handshake.Initiate(local, b, eph, ratchetKey).Ok?
      ensures r.Ok? ==>
        && fresh(r.value.0) && r.value.0.Valid()
        && (r.value.0.View(), r.value.1) == Handshake.Initiate(local, b, eph, ratchetKey).value
        && sessions == old(sessions)[Handshake.Fingerprint(b.identitySign) := r.value.0]
      ensures r.Err? ==> r.error == Handshake.Initiate(local, b, eph, ratchetKey).error && sessions == old(sessions)
    {
      var secret := Handshake.X3dhInitiate(local, b, eph);
      if secret.Err? {
        return Err(secret.error);
      }
      var (sk, used) := secret.value;
      var ad := AssociatedData(local.signingPub, b.identitySign);
      var ratchet := NewInitiator(sk, Slice(b.signedPreKey), ad, ratchetKey);
      if ratchet.Err? {
        return Err(Handshake.Ratchet(ratchet.error));
      }
      sessions := sessions[Handshake.Fingerprint(b.identitySign) := ratchet.value];
      r := Ok((ratchet.value, Handshake.HandshakeMessage(local.signingPub, local.agreement.pub, eph.pub, used)));
    }

    method Accept(hs: Handshake.HandshakeMessage) returns (r: Result<Ratchet, Handshake.Error>)
      modifies this`sessions
      ensures r.Ok? == Handshake.Accept(local, pre, hs).Ok?
      ensures r.Ok? ==>
        && fresh(r.value) && r.value.Valid() && r.value.View() == Handshake.Accept(local, pre, hs).value
        && sessions == old(sessions)[Handshake.Fingerprint(hs.identitySign) := r.value]
      ensures r.Err? ==> r.error == Handshake.Accept(local, pre, hs).error && sessions == old(sessions)
    {
      if pre.None? {
        return Err(Handshake.NoPreKeys);
      }
      var sk := Handshake.X3dhRespond(pre.value, hs.identityDH, hs.ephemeral, hs.usedOTP);
      if sk.Err? {
        return Err(sk.error);
      }
      var ratchet := NewResponder(sk.value, pre.value.signedPre, AssociatedData(local.signingPub, hs.identitySign));
      sessions := sessions[Handshake.Fingerprint(hs.identitySign) := ratchet];
      r := Ok(ratchet);
    }
  }
}
