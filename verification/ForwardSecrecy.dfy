/** Symbolic forward secrecy: the state an endpoint holds does not lead back to the keys of
messages it has already sent or accepted, except for those of the chain that starts from the
nil key, which the responder uses until it has received something. */
module ForwardSecrecy {
  import opened Primitives
  import opened RatchetModel
  import opened Replay
  import opened Epochs
  import opened Agreement

  /** One application of HMAC or of the root KDF. Every DH output is available for free. */
  ghost predicate DerivesTo(p: Term, t: Term) {
    (t.RootKey? || t.ChainKey? || t.NextChainKey? || t.MessageKey?) && t.parent == p
  }

  /** `d` lists terms each of which is known or derived from an earlier one. */
  ghost predicate Derivation(known: set<Term>, d: seq<Term>) {
    forall i :: 0 <= i < |d| ==> d[i] in known || exists j :: 0 <= j < i && DerivesTo(d[j], d[i])
  }

  /** The secrets in an endpoint's state, and the nil key. */
  function Knowledge(s: State): set<Term> {
    {NoKey, s.rk, s.cks, s.ckr} + s.skipped.Values
  }

  /** `t` or a term it was derived from is known. */
  predicate Traces(known: set<Term>, t: Term) {
    || t in known
    || match t
       case NoKey => false
       case X3dhSecret(_) => false
       case RootKey(p, _) => Traces(known, p)
       case ChainKey(p, _) => Traces(known, p)
       case NextChainKey(p) => Traces(known, p)
       case MessageKey(p) => Traces(known, p)
  }

  lemma {:induction false} DerivationTraces(known: set<Term>, d: seq<Term>, i: nat)
    requires Derivation(known, d) && i < |d|
    ensures Traces(known, d[i])
  {
    if d[i] !in known {
      var j :| 0 <= j < i && DerivesTo(d[j], d[i]);
      DerivationTraces(known, d, j);
    }
  }

  // ---- Ages in the key schedule ----

  lemma {:induction false} RootAge(h: History, i: nat)
    requires i < |h.keys| && h.secret.X3dhSecret?
    ensures RootDepth(Root(h, i)) == i
    ensures if i == 0 then Root(h, i).X3dhSecret? else Root(h, i).RootKey?
  {
    if i > 0 {
      RootAge(h, i - 1);
    }
  }

  lemma ChainAge(h: History, c: nat, j: nat)
    requires c < |h.keys| && h.secret.X3dhSecret?
    ensures var t := Advance(Chain(h, c), j);
      Generation(t) == c && Steps(t) == j && (IsChainKey(t) || (c == 0 && j == 0 && t == NoKey))
  {
    if c > 0 {
      RootAge(h, c - 1);
    }
    AdvanceAge(Chain(h, c), j);
  }

  lemma {:induction false} RootUntraced(known: set<Term>, h: History, i: nat)
    requires i < |h.keys| && h.secret.X3dhSecret?
    requires forall j :: 0 <= j <= i ==> Root(h, j) !in known
    ensures !Traces(known, Root(h, i))
  {
    if i > 0 {
      RootUntraced(known, h, i - 1);
    }
  }

  lemma {:induction false} ChainUntraced(known: set<Term>, h: History, c: nat, n: nat)
    requires 1 <= c < |h.keys| && h.secret.X3dhSecret?
    requires forall j :: 0 <= j < c ==> Root(h, j) !in known
    requires forall j :: 0 <= j <= n ==> Advance(Chain(h, c), j) !in known
    ensures !Traces(known, Advance(Chain(h, c), n))
  {
    if n == 0 {
      RootUntraced(known, h, c - 1);
    } else {
      ChainUntraced(known, h, c, n - 1);
    }
    assert Advance(Chain(h, c), n) !in known;
  }

  // ---- What an endpoint of an honest run holds ----

  /** `p` has sealed or accepted the message at `x`. */
  predicate Done(z: System, p: Party, x: Slot) {
    x in z.log && (Owner(x.epoch) == p || x in z.AcceptedBy(p))
  }

  lemma DoneReach(z: System, p: Party, x: Slot)
    requires Inv(z) && Done(z, p, x)
    ensures InConversation(z.h, x) && x.n < z.h.lens[x.epoch]
    ensures var e := EpochOf(z.h, p);
      x.epoch == e || (x.epoch < e && (x.epoch + 1 == e ==> x.n < z.Of(p).nr))
  {
    hide SideOk, Owner;
    if Owner(x.epoch) == p {
      OwnEpoch(z.h, p, x.epoch);
    } else {
      PassedView(z, p, x);
    }
  }

  lemma OwnEpoch(h: History, p: Party, c: nat)
    requires |h.keys| >= 2 && c < |h.keys| && Owner(c) == p
    ensures c <= EpochOf(h, p) && c + 1 != EpochOf(h, p)
  {
    EpochOwner(h, p);
    assert Owner(c + 1) == Peer(p);
  }

  lemma HeldShape(z: System, p: Party)
    requires Inv(z)
    ensures var s, e := z.Of(p), EpochOf(z.h, p);
      && s.rk == Root(z.h, e)
      && s.cks == Advance(Chain(z.h, e), z.h.lens[e])
      && (s.ckr == NoKey || (e >= 1 && s.ckr == Advance(Chain(z.h, e - 1), s.nr)))
  {
    hide Stores, Passed, LogExact;
    assert SideOk(z, p);
  }

  predicate IsChainKey(t: Term) {
    t.ChainKey? || t.NextChainKey?
  }

  /** The root key held is of the endpoint's epoch; the chain keys held are at the next position
      to send and the next position to receive. */
  lemma HeldAges(z: System, p: Party)
    requires Inv(z) && z.h.secret.X3dhSecret?
    ensures 2 <= |z.h.keys| == |z.h.lens|
    ensures var s, e := z.Of(p), EpochOf(z.h, p);
      && RootDepth(s.rk) == e && (s.rk.X3dhSecret? || s.rk.RootKey?)
      && (s.cks == NoKey || IsChainKey(s.cks)) && Generation(s.cks) == e && Steps(s.cks) == z.h.lens[e]
      && (s.ckr == NoKey || (IsChainKey(s.ckr) && Generation(s.ckr) == e - 1 && Steps(s.ckr) == s.nr))
  {
    hide Inv, Root, Advance, Chain;
    InvShape(z);
    var s, e := z.Of(p), EpochOf(z.h, p);
    HeldShape(z, p);
    RootAge(z.h, e);
    ChainAge(z.h, e, z.h.lens[e]);
    if e >= 1 {
      ChainAge(z.h, e - 1, s.nr);
    }
  }

  lemma HeldRoot(z: System, p: Party, x: Slot, i: nat)
    requires Inv(z) && z.h.secret.X3dhSecret? && Done(z, p, x) && i < x.epoch && InConversation(z.h, x)
    ensures Root(z.h, i) !in {NoKey, z.Of(p).rk, z.Of(p).cks, z.Of(p).ckr}
  {
    hide Inv, Root, Done;
    DoneReach(z, p, x);
    HeldAges(z, p);
    RootAge(z.h, i);
  }

  lemma HeldChain(z: System, p: Party, x: Slot, j: nat)
    requires Inv(z) && z.h.secret.X3dhSecret? && Done(z, p, x) && x.epoch >= 1 && j <= x.n && InConversation(z.h, x)
    ensures Advance(Chain(z.h, x.epoch), j) !in {NoKey, z.Of(p).rk, z.Of(p).cks, z.Of(p).ckr}
  {
    hide Inv, Advance, Chain, Done;
    DoneReach(z, p, x);
    HeldAges(z, p);
    ChainAge(z.h, x.epoch, j);
  }

  /** A stored key is the key of a position that is not done. */
  lemma HeldSkipped(z: System, p: Party, t: Term)
    requires Inv(z) && t in z.Of(p).skipped.Values
    ensures exists w :: InConversation(z.h, w) && t == KeyAt(z.h, w) && !Done(z, p, w)
  {
    var m := z.Of(p).skipped;
    var id :| id in m && m[id] == t;
    StoreNames(z, p, id);
    var w :| InConversation(z.h, w) && IdAt(z.h, w) == id;
    StoreAt(z, p, w);
    assert !Done(z, p, w);
  }

  lemma KeysDiffer(h: History, x: Slot, w: Slot)
    requires h.secret.X3dhSecret? && InConversation(h, x) && InConversation(h, w) && KeyAt(h, x) == KeyAt(h, w)
    ensures x == w
  {
    ChainAge(h, x.epoch, x.n);
    ChainAge(h, w.epoch, w.n);
  }

  lemma DoneUntraced(z: System, p: Party, x: Slot)
    requires Inv(z) && z.h.secret.X3dhSecret? && Done(z, p, x) && x.epoch >= 1
    ensures !Traces(Knowledge(z.Of(p)), KeyAt(z.h, x))
  {
    hide Root, Inv, Done, Advance, Chain;
    var known := Knowledge(z.Of(p));
    DoneReach(z, p, x);
    forall t | t in z.Of(p).skipped.Values ensures t.MessageKey? && t != KeyAt(z.h, x) {
      HeldSkipped(z, p, t);
      var w :| InConversation(z.h, w) && t == KeyAt(z.h, w) && !Done(z, p, w);
      if t == KeyAt(z.h, x) {
        KeysDiffer(z.h, x, w);
      }
    }
    forall i | 0 <= i < x.epoch ensures Root(z.h, i) !in known {
      HeldRoot(z, p, x, i);
      RootAge(z.h, i);
    }
    forall j | 0 <= j <= x.n ensures Advance(Chain(z.h, x.epoch), j) !in known {
      HeldChain(z, p, x, j);
      ChainAge(z.h, x.epoch, j);
    }
    ChainUntraced(known, z.h, x.epoch, x.n);
    HeldAges(z, p);
  }

  /** The chain from the nil key, and a message key at its end. */
  function NilDerivation(n: nat): seq<Term> {
    seq(n + 1, i requires 0 <= i <= n => Advance(NoKey, i)) + [MessageKey(Advance(NoKey, n))]
  }

  lemma NilDerives(known: set<Term>, n: nat)
    requires NoKey in known
    ensures Derivation(known, NilDerivation(n)) && MessageKey(Advance(NoKey, n)) in NilDerivation(n)
  {
    var d := NilDerivation(n);
    forall i | 0 <= i < |d| ensures d[i] in known || exists j :: 0 <= j < i && DerivesTo(d[j], d[i]) {
      if i > 0 {
        assert DerivesTo(d[i - 1], d[i]);
      }
    }
    assert d[n + 1] == MessageKey(Advance(NoKey, n));
  }

  ghost predicate Derivable(known: set<Term>, t: Term) {
    exists d :: Derivation(known, d) && t in d
  }

  lemma DoneDerivable(z: System, p: Party, x: Slot)
    requires Inv(z) && z.h.secret.X3dhSecret? && Done(z, p, x)
    ensures Derivable(Knowledge(z.Of(p)), KeyAt(z.h, x)) <==> x.epoch == 0
  {
    hide Inv, Done, Traces, Derivation;
    var known, key := Knowledge(z.Of(p)), KeyAt(z.h, x);
    DoneReach(z, p, x);
    if x.epoch == 0 {
      NilDerives(known, x.n);
      assert Chain(z.h, 0) == NoKey;
    } else {
      DoneUntraced(z, p, x);
      forall d | Derivation(known, d) ensures key !in d {
        forall i | 0 <= i < |d| ensures d[i] != key {
          DerivationTraces(known, d, i);
        }
      }
    }
  }

  /** Forward secrecy: after any run, the key of a message that an endpoint has sent or accepted can be
      derived from the endpoint's secrets if and only if the message is of epoch 0, which the responder
      sent before it had received anything. */
  lemma SpentKeysUnderivable(y: System, acts: seq<Action>, p: Party, x: Slot)
    requires Established(y) && y.h.secret.X3dhSecret? && CanRun(y, acts) && Done(Run(y, acts), p, x)
    ensures var z := Run(y, acts);
      && z.log[x].wire.Wire? && z.log[x].wire.ct.Sealed?
      && (Derivable(Knowledge(z.Of(p)), z.log[x].wire.ct.key.mk) <==> x.epoch == 0)
  {
    hide Derivable, Knowledge, SideOk, KeyAt;
    EstablishedInv(y);
    RunKeeps(y, acts);
    SecretStays(y, acts);
    var z := Run(y, acts);
    DoneDerivable(z, p, x);
    DoneReach(z, p, x);
  }

  lemma {:induction false} SecretStays(y: System, acts: seq<Action>)
    requires CanRun(y, acts)
    ensures Run(y, acts).h.secret == y.h.secret
    decreases |acts|
  {
    if acts != [] {
      SecretStays(Apply(y, acts[0]), acts[1..]);
    }
  }
}
