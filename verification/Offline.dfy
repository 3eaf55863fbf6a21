/** The mailbox and the offline delivery path. */
module Offline {
  import opened Primitives
  import opened Encoding
  import opened RatchetModel
  import opened Handshake
  import opened RatchetObject
  import Sessions

  /** An encoded application envelope. */
  type Envelope = Bytes

  /** A queued mailbox entry, as `DecodeFrame` reads it. */
  datatype Frame = NotAFrame | Frame(handshake: Option<HandshakeMessage>, payload: Wire)

  datatype Failure = BadFrame | MissingHandshake | NoSession(session: Handshake.Error) | NotOpened(ratchet: RatchetModel.Error)

  // ---- Mailbox ----

  type Boxes = map<Fingerprint, seq<Frame>>

  function Queue(box: Boxes, fp: Fingerprint): seq<Frame> {
    if fp in box then box[fp] else []
  }

  function Queued(box: Boxes, fp: Fingerprint, f: Frame): Boxes {
    box[fp := Queue(box, fp) + [f]]
  }

  class Mailbox {
    var box: Boxes

    constructor ()
      ensures box == map[]
    {
      box := map[];
    }

    method Put(fp: Fingerprint, f: Frame)
      modifies this
      ensures box == Queued(old(box), fp, f)
    {
      box := box[fp := (if fp in box then box[fp] else []) + [f]];
    }

    method Fetch(fp: Fingerprint) returns (msgs: seq<Frame>)
      modifies this
      ensures msgs == Queue(old(box), fp)
      ensures Queue(box, fp) == [] && forall q :: q != fp ==> Queue(box, q) == Queue(old(box), q)
    {
      msgs := if fp in box then box[fp] else [];
      box := box - {fp};
    }

    method Pending(fp: Fingerprint) returns (n: nat)
      ensures n == |Queue(box, fp)|
    {
      n := if fp in box then |box[fp]| else 0;
    }
  }

  // ---- One offline message ----

  function Compose(sender: Identity, b: PreKeyBundle, env: Envelope, eph: PrivateKey, k: PrivateKey): Result<Frame, Handshake.Error> {
    match Initiate(sender, b, eph, k)
    case Err(e) => Err(e)
    case Ok((s, hs)) => Ok(Frame(Some(hs), Encrypt(s, env).1))
  }

  function Open(local: Identity, pre: Option<PreKeys>, f: Frame, generated: Option<PrivateKey>): Result<Envelope, Failure> {
    if f.NotAFrame? then Err(BadFrame)
    else if f.handshake.None? then Err(MissingHandshake)
    else
      match Accept(local, pre, f.handshake.value)
      case Err(e) => Err(NoSession(e))
      case Ok(s) =>
        match Decrypt(s, f.payload, generated).1
        case Err(e) => Err(NotOpened(e))
        case Ok(env) => Ok(env)
  }

  /** A frame opens exactly when it is one, carries a handshake, the handshake is accepted and the payload
      decrypts in the new session; each missing step has its own error. */
  lemma OpenExactly(local: Identity, pre: Option<PreKeys>, f: Frame, g: Option<PrivateKey>)
    ensures var r := Open(local, pre, f, g);
      && (f == NotAFrame ==> r == Err(BadFrame))
      && (f.Frame? && f.handshake == None ==> r == Err(MissingHandshake))
      && (f.Frame? && f.handshake.Some? && Accept(local, pre, f.handshake.value).Err? ==> r.Err? && r.error.NoSession?)
      && (forall env :: r == Ok(env) <==>
            && f.Frame? && f.handshake.Some? && Accept(local, pre, f.handshake.value).Ok?
            && Decrypt(Accept(local, pre, f.handshake.value).value, f.payload, g).1 == Ok(env))
  {
    hide Accept, Decrypt;
  }

  /** The responder opens the initiator's first message if and only if both start from the same secret. */
  lemma FirstMessageOpens(sk: Term, secret: Term, pre: PrivateKey, ad: Bytes, k: PrivateKey, pt: Bytes, g: PrivateKey)
    requires ValidPoint(pre.pub) && ValidPoint(k.pub)
    ensures Initiator(sk, Slice(pre.pub), ad, k).Ok?
    ensures Decrypt(Responder(secret, pre, ad), Encrypt(Initiator(sk, Slice(pre.pub), ad, k).value, pt).1, Some(g)).1
         == if sk == secret then Ok(pt) else Err(RatchetModel.OpenFailed)
  {
    hide LowOrder, BigEndian32;
    var a := Initiator(sk, Slice(pre.pub), ad, k).value;
    var r := Responder(secret, pre, ad);
    var w := Encrypt(a, pt).1;
    assert {k.pub, pre.pub} == {pre.pub, k.pub};
    var d := DhOutput({k.pub, pre.pub});
    var (s, err) := DhRatchet(r, w.header.dh, Some(g));
    assert err.None? && s.ckr == ChainKey(secret, d) && s.nr == 0 && s.ad == ad;
    assert Decrypt(r, w, Some(g)) == OpenInChain(s, w.header, w.ct);
    assert Skip(s, 0) == s;
  }

  /** An envelope composed for a published bundle opens with the prekeys behind it. */
  lemma OfflineRoundTrip(sender: Identity, to: PreKeys, b: PreKeyBundle, env: Envelope, eph: PrivateKey, k: PrivateKey, g: PrivateKey)
    requires GeneratedIdentity(sender) && GeneratedPreKeys(to) && Publishes(to, b)
    requires ValidPoint(eph.pub) && ValidPoint(k.pub)
    ensures Compose(sender, b, env, eph, k).Ok?
    ensures Open(to.id, Some(to), Compose(sender, b, env, eph, k).value, Some(g)) == Ok(env)
  {
    hide LowOrder, Decrypt;
    X3dhAgrees(sender, to, b, eph);
    AssociatedDataSymmetric(sender.signingPub, to.id.signingPub);
    var (sk, used) := X3dhInitiate(sender, b, eph).value;
    FirstMessageOpens(sk, sk, to.signedPre, AssociatedData(to.id.signingPub, sender.signingPub), k, env, g);
  }

  /** A bundle that names the recipient and passed the signature test: the message opens at the recipient
      if and only if the bundle's unsigned keys are the recipient's own. */
  lemma ClaimedBundleOpens(sender: Identity, to: PreKeys, b: PreKeyBundle, env: Envelope, eph: PrivateKey, k: PrivateKey, g: PrivateKey)
    requires GeneratedIdentity(sender) && GeneratedPreKeys(to) && ValidPoint(eph.pub) && ValidPoint(k.pub)
    requires k.pub != to.signedPre.pub && b.identitySign == to.id.signingPub
    requires b.signedPreKeySig.SignedBy? && b.signedPreKeySig.signer == to.id.signingPub
      ==> b.signedPreKeySig.message == to.signedPre.pub
    requires Compose(sender, b, env, eph, k).Ok?
    ensures Open(to.id, Some(to), Compose(sender, b, env, eph, k).value, Some(g))
      == if OwnKeys(to, b) then Ok(env) else Err(NotOpened(RatchetModel.OpenFailed))
  {
    hide LowOrder, Decrypt, Encrypt, X3dhInitiate, X3dhRespond, OwnKeys;
    AcceptedBundle(sender, to, b, eph, k);
    SecretsAgreeExactly(sender, to, b, eph);
    AssociatedDataSymmetric(sender.signingPub, to.id.signingPub);
    var (sk, used) := X3dhInitiate(sender, b, eph).value;
    var secret := X3dhRespond(to, sender.agreement.pub, eph.pub, used);
    FirstMessageOpens(sk, secret.value, to.signedPre, AssociatedData(to.id.signingPub, sender.signingPub), k, env, g);
  }

  // ---- Fetching ----

  /** The envelopes of the first `n` frames, or the first failure among them. */
  function OpenFirst(local: Identity, pre: Option<PreKeys>, frames: seq<Frame>, gens: nat -> Option<PrivateKey>, n: nat)
    : Result<seq<Envelope>, Failure>
    requires n <= |frames|
  {
    if n == 0 then Ok([])
    else
      match OpenFirst(local, pre, frames, gens, n - 1)
      case Err(e) => Err(e)
      case Ok(out) =>
        match Open(local, pre, frames[n - 1], gens(n - 1))
        case Err(e) => Err(e)
        case Ok(env) => Ok(out + [env])
  }

  lemma {:induction false} FailurePersists(local: Identity, pre: Option<PreKeys>, frames: seq<Frame>, gens: nat -> Option<PrivateKey>, i: nat, n: nat)
    requires i <= n <= |frames| && OpenFirst(local, pre, frames, gens, i).Err?
    ensures OpenFirst(local, pre, frames, gens, n) == OpenFirst(local, pre, frames, gens, i)
  {
    hide Open;
    if i < n {
      FailurePersists(local, pre, frames, gens, i, n - 1);
    }
  }

  /** A fetch succeeds if and only if every frame opens by itself; it then yields each frame's envelope in
      its place, and otherwise nothing but the error of the first frame that does not open. */
  lemma {:induction false} FetchExactly(local: Identity, pre: Option<PreKeys>, frames: seq<Frame>, gens: nat -> Option<PrivateKey>, n: nat)
    requires n <= |frames|
    ensures var r := OpenFirst(local, pre, frames, gens, n);
      && (r.Ok? <==> forall i :: 0 <= i < n ==> Open(local, pre, frames[i], gens(i)).Ok?)
      && (r.Ok? ==> |r.value| == n && forall i :: 0 <= i < n ==> Open(local, pre, frames[i], gens(i)) == Ok(r.value[i]))
      && (r.Err? ==> exists i :: 0 <= i < n && Open(local, pre, frames[i], gens(i)) == Err(r.error)
                       && forall j :: 0 <= j < i ==> Open(local, pre, frames[j], gens(j)).Ok?)
  {
    hide Open;
    if n > 0 {
      FetchExactly(local, pre, frames, gens, n - 1);
    }
  }

  /** `SendOffline` */
  method SendOffline(store: Sessions.SessionStore, mb: Mailbox, b: PreKeyBundle, env: Envelope, eph: PrivateKey, k: PrivateKey)
    returns (err: Option<Handshake.Error>)
    modifies store`sessions, mb
    ensures err.None? == Compose(store.local, b, env, eph, k).Ok?
    ensures mb.box == if err.Some? then old(mb.box)
                      else Queued(old(mb.box), Fingerprint(b.identitySign), Compose(store.local, b, env, eph, k).value)
  {
    var r := store.Initiate(b, eph, k);
    if r.Err? {
      return Some(r.error);
    }
    var session, hs := r.value.0, r.value.1;
    var w := session.Encrypt(env);
    mb.Put(Fingerprint(b.identitySign), Frame(Some(hs), w));
    err := None;
  }

  /** `FetchOffline`: the box is emptied first, so what does not come out is gone. */
  method FetchOffline(store: Sessions.SessionStore, mb: Mailbox, gens: nat -> Option<PrivateKey>)
    returns (r: Result<seq<Envelope>, Failure>)
    modifies store`sessions, mb
    ensures var frames := Queue(old(mb.box), Fingerprint(store.local.signingPub));
      && r == OpenFirst(store.local, store.pre, frames, gens, |frames|)
      && (r.Ok? <==> forall i :: 0 <= i < |frames| ==> Open(store.local, store.pre, frames[i], gens(i)).Ok?)
    ensures Queue(mb.box, Fingerprint(store.local.signingPub)) == []
    ensures forall q :: q != Fingerprint(store.local.signingPub) ==> Queue(mb.box, q) == Queue(old(mb.box), q)
  {
    hide Handshake.Accept, RatchetModel.Decrypt, SameStore, Open;
    var raws := mb.Fetch(Fingerprint(store.local.signingPub));
    FetchExactly(store.local, store.pre, raws, gens, |raws|);
    ghost var box := mb.box;
    var out: seq<Envelope> := [];
    for i := 0 to |raws|
      invariant mb.box == box
      invariant OpenFirst(store.local, store.pre, raws, gens, i) == Ok(out)
    {
      var frame := raws[i];
      var opening := OpenOne(store, frame, gens(i));
      if opening.Err? {
        FailurePersists(store.local, store.pre, raws, gens, i + 1, |raws|);
        return Err(opening.error);
      }
      out := out + [opening.value];
    }
    r := Ok(out);
  }

  /** One turn of the loop of `FetchOffline`. */
  method OpenOne(store: Sessions.SessionStore, frame: Frame, generated: Option<PrivateKey>) returns (r: Result<Envelope, Failure>)
    modifies store`sessions
    ensures r == Open(store.local, store.pre, frame, generated)
    ensures frame.NotAFrame? ==> r == Err(BadFrame)
    ensures frame.Frame? && frame.handshake.None? ==> r == Err(MissingHandshake)
  {
    hide Handshake.Accept, RatchetModel.Decrypt, SameStore;
    if frame.NotAFrame? {
      return Err(BadFrame);
    }
    if frame.handshake.None? {
      return Err(MissingHandshake);
    }
    var session := store.Accept(frame.handshake.value);
    if session.Err? {
      return Err(NoSession(session.error));
    }
    var pt := session.value.Decrypt(frame.payload, generated);
    r := if pt.Err? then Err(NotOpened(pt.error)) else Ok(pt.value);
  }

  // ---- Any number of senders and recipients ----

  /** One successful `SendOffline`: who sends what, to whose bundle, with which generated keys. */
  datatype Post = Post(sender: Identity, to: PreKeys, bundle: PreKeyBundle, env: Envelope, eph: PrivateKey, k: PrivateKey)

  predicate Genuine(p: Post) {
    && GeneratedIdentity(p.sender) && GeneratedPreKeys(p.to) && Publishes(p.to, p.bundle)
    && ValidPoint(p.eph.pub) && ValidPoint(p.k.pub)
  }

  function Posted(posts: seq<Post>): Boxes {
    if posts == [] then map[]
    else
      var p := posts[|posts| - 1];
      var box := Posted(posts[..|posts| - 1]);
      match Compose(p.sender, p.bundle, p.env, p.eph, p.k)
      case Err(_) => box
      case Ok(f) => Queued(box, Fingerprint(p.bundle.identitySign), f)
  }

  /** The envelopes addressed to one identity, in posting order. */
  function Addressed(posts: seq<Post>, signingPub: Bytes): seq<Envelope> {
    if posts == [] then []
    else
      var p := posts[|posts| - 1];
      Addressed(posts[..|posts| - 1], signingPub) + if p.to.id.signingPub == signingPub then [p.env] else []
  }

  lemma {:induction false} OpenFirstPrefix(local: Identity, pre: Option<PreKeys>, frames: seq<Frame>, f: Frame, gens: nat -> Option<PrivateKey>, n: nat)
    requires n <= |frames|
    ensures OpenFirst(local, pre, frames + [f], gens, n) == OpenFirst(local, pre, frames, gens, n)
  {
    hide Open;
    if n > 0 {
      OpenFirstPrefix(local, pre, frames, f, gens, n - 1);
    }
  }

  /** Offline delivery: whatever was posted by whomever, a recipient whose prekeys did not change
      reads exactly the envelopes addressed to it, in posting order. */
  lemma {:induction false} OfflineDelivery(posts: seq<Post>, to: PreKeys, gens: nat -> Option<PrivateKey>)
    requires forall i :: 0 <= i < |posts| ==> Genuine(posts[i])
    requires forall i :: 0 <= i < |posts| && posts[i].to.id.signingPub == to.id.signingPub ==> posts[i].to == to
    requires forall i :: gens(i).Some?
    ensures var frames := Queue(Posted(posts), Fingerprint(to.id.signingPub));
      OpenFirst(to.id, Some(to), frames, gens, |frames|) == Ok(Addressed(posts, to.id.signingPub))
  {
    hide Open, Compose, Genuine;
    if posts != [] {
      var p, rest := posts[|posts| - 1], posts[..|posts| - 1];
      OfflineDelivery(rest, to, gens);
      assert Genuine(p);
      PostOpens(p, gens);
      var frames := Queue(Posted(rest), Fingerprint(to.id.signingPub));
      if p.to.id.signingPub == to.id.signingPub {
        var f := Compose(p.sender, p.bundle, p.env, p.eph, p.k).value;
        OpenFirstPrefix(to.id, Some(to), frames, f, gens, |frames|);
        assert Queue(Posted(posts), Fingerprint(to.id.signingPub)) == frames + [f];
      } else {
        assert Queue(Posted(posts), Fingerprint(to.id.signingPub)) == frames;
        assert Addressed(posts, to.id.signingPub) == Addressed(rest, to.id.signingPub);
      }
    }
  }

  lemma PostOpens(p: Post, gens: nat -> Option<PrivateKey>)
    requires Genuine(p) && forall i :: gens(i).Some?
    ensures p.bundle.identitySign == p.to.id.signingPub
    ensures Compose(p.sender, p.bundle, p.env, p.eph, p.k).Ok?
    ensures forall i :: Open(p.to.id, Some(p.to), Compose(p.sender, p.bundle, p.env, p.eph, p.k).value, gens(i)) == Ok(p.env)
  {
    hide Open, Compose, LowOrder;
    OfflineRoundTrip(p.sender, p.to, p.bundle, p.env, p.eph, p.k, gens(0).value);
    forall i: nat
      ensures Open(p.to.id, Some(p.to), Compose(p.sender, p.bundle, p.env, p.eph, p.k).value, gens(i)) == Ok(p.env)
    {
      OfflineRoundTrip(p.sender, p.to, p.bundle, p.env, p.eph, p.k, gens(i).value);
    }
  }
}
