/** What failed and out-of-step deliveries cost: exactly when the two endpoints stay in agreement, and
which messages are lost for good when they do not. */
module Failures {
  import opened Primitives
  import opened Encoding
  import opened RatchetModel
  import opened Epochs
  import opened Agreement

  // ---- Every reachable endpoint is ordered ----

  lemma ApplyOrdered(y: System, a: Action)
    requires 2 <= |y.h.keys| == |y.h.lens| && Enabled(y, a)
    requires Replay.Ordered(y.alice) && Replay.Ordered(y.bob)
    ensures Replay.Ordered(Apply(y, a).alice) && Replay.Ordered(Apply(y, a).bob)
  {
    hide Replay.Ordered, Decrypt, Encrypt, InStep;
    match a
    case Send(who, pt) => Replay.StepAges(y.Of(who), Replay.Send(pt));
    case Deliver(x, k) => Replay.DecryptAges(y.Of(Peer(Owner(x.epoch))), y.log[x].wire, Some(PrivateKey(k)));
    case Inject(who, w, g) => Replay.DecryptAges(y.Of(who), w, g);
  }

  lemma {:induction false} RunOrdered(y: System, acts: seq<Action>)
    requires CanRun(y, acts) && Replay.Ordered(y.alice) && Replay.Ordered(y.bob)
    ensures Replay.Ordered(Run(y, acts).alice) && Replay.Ordered(Run(y, acts).bob)
    decreases |acts|
  {
    hide Replay.Ordered, Apply, Enabled;
    if acts != [] {
      ApplyOrdered(y, acts[0]);
      RunOrdered(Apply(y, acts[0]), acts[1..]);
    }
  }

  lemma ReachedOrdered(y: System, acts: seq<Action>, p: Party)
    requires Established(y) && CanRun(y, acts)
    ensures Inv(Run(y, acts)) && Replay.Ordered(Run(y, acts).Of(p))
  {
    assert Replay.Ordered(y.alice) && Replay.Ordered(y.bob);
    hide Inv, Replay.Ordered;
    EstablishedInv(y);
    RunKeeps(y, acts);
    RunOrdered(y, acts);
  }

  // ---- A failure keeps the agreement exactly when it was refused early ----

  /** The position whose key a message in the current chain is tried with. */
  function Tried(s: State, hd: Header): U32 {
    Skip(s, hd.n).nr
  }

  lemma TriedAt(h: History, s: State, e: nat, hd: Header)
    requires Good(h) && 1 <= e < |h.keys| && Core(h, s, e) && !SkipRefused(s, hd.n)
    ensures Tried(s, hd) == if s.ckr == NoKey || hd.n < s.nr then s.nr else hd.n
    ensures Skip(s, hd.n).ckr == Advance(Chain(h, e - 1), Tried(s, hd))
  {
    if s.ckr != NoKey && s.nr <= hd.n {
      AdvanceAdds(Chain(h, e - 1), s.nr, hd.n - s.nr);
    }
  }

  /** The position tried is passed without being accepted or stored. */
  lemma ChainFailureBreaks(h: History, acc: set<Slot>, s: State, e: nat, hd: Header, ct: Ciphertext)
    requires Good(h) && 1 <= e < |h.keys| && Endpoint(h, acc, s, e) && !SkipRefused(s, hd.n)
    ensures !Endpoint(h, acc, OpenInChain(s, hd, ct).0, e)
  {
    hide Stores, KeyAt, Passed, Chain, Root, AllValid;
    var t, p := OpenInChain(s, hd, ct).0, Tried(s, hd);
    var x := Slot(e - 1, p);
    TriedAt(h, s, e, hd);
    if Core(h, t, e) {
      Replay.AdvanceAge(Chain(h, e - 1), p as int + 1);
      Replay.AdvanceAge(Chain(h, e - 1), t.nr);
      assert t.nr == p + 1;
      PassedMembers(h, e, s.nr, x);
      PassedMembers(h, e, t.nr, x);
      StoresOnly(h, Passed(h, e, s.nr) - acc, s.skipped, x);
      SkipStoresExactly(s, hd.n, IdAt(h, x));
      MissingKey(h, acc, t, e, x);
    }
  }

  lemma RatchetFailureBreaks(h: History, acc: set<Slot>, s: State, e: nat, hd: Header, ct: Ciphertext, g: Option<PrivateKey>)
    requires Good(h) && e < |h.keys| && Core(h, s, e) && !InCurrentChain(s, hd) && !SkipRefused(s, hd.pn)
    ensures var t := OpenUnskipped(s, hd, ct, g).0; Core(h, t, e) ==> t == s
  {
    hide OpenInChain, Root, Chain, AllValid;
    var s1 := Skip(s, hd.pn);
    var (s2, err) := DhRatchet(s1, hd.dh, g);
    if ValidPoint(hd.dh.Contents()) {
      assert Replay.RootDepth(s2.rk) > Replay.RootDepth(s.rk);
      Replay.OpenInChainMoves(s2, hd, ct);
    }
  }

  lemma EndpointFailure(h: History, acc: set<Slot>, s: State, e: nat, w: Wire, g: Option<PrivateKey>)
    requires Good(h) && e < |h.keys| && Endpoint(h, acc, s, e) && Decrypt(s, w, g).1.Err?
    ensures Endpoint(h, acc, Decrypt(s, w, g).0, e) <==> Replay.RefusedEarly(s, w)
  {
    hide Endpoint, OpenInChain, DhRatchet, SkipRefused;
    Replay.FailureUnchangedExactly(s, w, g);
    if !Replay.RefusedEarly(s, w) {
      EndpointCore(h, acc, s, e);
      EndpointCore(h, acc, Decrypt(s, w, g).0, e);
      if InCurrentChain(s, w.header) {
        ChainFailureBreaks(h, acc, s, e, w.header, w.ct);
      } else {
        RatchetFailureBreaks(h, acc, s, e, w.header, w.ct, g);
      }
    }
  }

  lemma EndpointCore(h: History, acc: set<Slot>, s: State, e: nat)
    requires Good(h) && e < |h.keys|
    ensures Endpoint(h, acc, s, e) ==> Core(h, s, e) && (s.dhr == NilSlice <==> e == 0)
  {
  }

  /** Whatever arrives and fails, genuine, repeated or forged: the joint invariant, with the same history
      and the same accepted messages, holds afterwards if and only if it was refused early. */
  lemma FailureKeepsExactly(y: System, who: Party, w: Wire, g: Option<PrivateKey>)
    requires Inv(y) && Decrypt(y.Of(who), w, g).1.Err?
    ensures Inv(y.With(who, Decrypt(y.Of(who), w, g).0, y.AcceptedBy(who))) <==> Replay.RefusedEarly(y.Of(who), w)
  {
    hide Endpoint, Decrypt, LogExact, Replay.RefusedEarly;
    var z := y.With(who, Decrypt(y.Of(who), w, g).0, y.AcceptedBy(who));
    assert SideOk(y, who);
    EndpointFailure(y.h, y.AcceptedBy(who), y.Of(who), EpochOf(y.h, who), w, g);
    assert SideOk(y, Peer(who)) == SideOk(z, Peer(who));
    assert who == Alice || who == Bob;
  }

  // ---- What is lost ----

  /** No further input makes `s` accept what is in slot `x`. */
  ghost predicate Lost(z: System, s: State, x: Slot)
    requires x in z.log
  {
    forall later, g :: !Replay.Accepts(Replay.After(s, later), Replay.Receive(z.log[x].wire, g))
  }

  lemma SpentIsLost(z: System, s: State, x: Slot)
    requires Inv(z) && x in z.log && Replay.Ordered(s) && Replay.Spent(s, KeyAt(z.h, x))
    ensures Lost(z, s, x)
  {
    hide SideOk, KeyAt, Replay.Ordered, Replay.Spent, Replay.Accepts;
    forall later, g ensures !Replay.Accepts(Replay.After(s, later), Replay.Receive(z.log[x].wire, g)) {
      Replay.SpentForGood(s, later, Replay.Receive(z.log[x].wire, g));
    }
  }

  /** A message that reaches the current chain loses the one at the position it is tried at, unless it
      is that one. */
  lemma TriedIsLost(z: System, p: Party, hd: Header, ct: Ciphertext)
    requires Inv(z) && Replay.Ordered(z.Of(p)) && EpochOf(z.h, p) >= 1 && !SkipRefused(z.Of(p), hd.n)
    ensures var x := Slot(EpochOf(z.h, p) - 1, Tried(z.Of(p), hd));
      x !in z.AcceptedBy(p) && (x in z.log ==> Lost(z, OpenInChain(z.Of(p), hd, ct).0, x))
  {
    hide Stores, LogExact, Root, Replay.Ordered, Replay.Spent, Lost, OpenInChain, Skip, SkipRefused, AllValid;
    var s, e := z.Of(p), EpochOf(z.h, p);
    var x := Slot(e - 1, Tried(s, hd));
    assert SideOk(z, p);
    TriedAt(z.h, s, e, hd);
    PassedMembers(z.h, e, s.nr, x);
    Replay.TriedKeySpent(s, hd, ct);
    if x in z.log {
      SpentIsLost(z, OpenInChain(s, hd, ct).0, x);
    }
  }

  lemma TriedMisses(h: History, s: State, e: nat, x: Slot, pt: Bytes)
    requires Good(h) && 1 <= e < |h.keys| && Core(h, s, e) && x.epoch + 1 == e && x.n < s.nr
    ensures var w := WireAt(h, x, pt);
      && !SkipRefused(s, w.header.n) && Tried(s, w.header) == s.nr
      && OpenInChain(s, w.header, w.ct).1 == Err(OpenFailed)
  {
    hide Root, AllValid, Chain, BigEndian32;
    TriedAt(h, s, e, WireAt(h, x, pt).header);
    Replay.AdvanceAge(Chain(h, x.epoch), x.n);
    Replay.AdvanceAge(Chain(h, x.epoch), s.nr);
  }

  lemma RepeatFails(h: History, acc: set<Slot>, s: State, e: nat, x: Slot, pt: Bytes, g: Option<PrivateKey>)
    requires Good(h) && 1 <= e < |h.keys| && Endpoint(h, acc, s, e) && x in acc && x.epoch + 1 == e
    ensures var w := WireAt(h, x, pt);
      && !SkipRefused(s, w.header.n) && Tried(s, w.header) == s.nr
      && Decrypt(s, w, g) == (OpenInChain(s, w.header, w.ct).0, Err(OpenFailed))
      && !Replay.RefusedEarly(s, w)
  {
    PassedMembers(h, e, s.nr, x);
    StoresOnly(h, Passed(h, e, s.nr) - acc, s.skipped, x);
    hide Root, AllValid, Chain, KeyAt, Passed, Stores, OpenInChain, Tried;
    CurrentEpoch(h, s, e, x, pt);
    TriedMisses(h, s, e, x, pt);
  }

  /** Delivering an accepted message of the current chain once more fails, breaks the invariant, and
      loses the peer's next message for good. */
  lemma RedeliveryCosts(y: System, acts: seq<Action>, p: Party, x: Slot, g: Option<PrivateKey>)
    requires Established(y) && CanRun(y, acts) && x in Run(y, acts).AcceptedBy(p)
    requires x in Run(y, acts).log && Run(y, acts).log[x].wire.Wire?
    requires InCurrentChain(Run(y, acts).Of(p), Run(y, acts).log[x].wire.header)
    ensures var z := Run(y, acts);
      var (t, r) := Decrypt(z.Of(p), z.log[x].wire, g);
      var next := Slot(x.epoch, z.Of(p).nr);
      && r == Err(OpenFailed) && !Inv(z.With(p, t, z.AcceptedBy(p)))
      && next !in z.AcceptedBy(p) && (next in z.log ==> Lost(z, t, next))
  {
    hide Established, CanRun, Run, Inv, Lost, Replay.Ordered, Decrypt;
    ReachedOrdered(y, acts, p);
    RepeatLoses(Run(y, acts), p, x, g);
  }

  lemma InvSide(z: System, p: Party, x: Slot)
    requires Inv(z) && x in z.log
    ensures Good(z.h) && EpochOf(z.h, p) < |z.h.keys| && Endpoint(z.h, z.AcceptedBy(p), z.Of(p), EpochOf(z.h, p))
    ensures Core(z.h, z.Of(p), EpochOf(z.h, p)) && InConversation(z.h, x)
    ensures z.log[x].wire == WireAt(z.h, x, z.log[x].plaintext)
  {
    hide Stores, Root, KeyAt;
    assert SideOk(z, p);
  }

  lemma RepeatLoses(z: System, p: Party, x: Slot, g: Option<PrivateKey>)
    requires Inv(z) && Replay.Ordered(z.Of(p)) && x in z.AcceptedBy(p)
    requires x in z.log && z.log[x].wire.Wire? && InCurrentChain(z.Of(p), z.log[x].wire.header)
    ensures var (t, r) := Decrypt(z.Of(p), z.log[x].wire, g);
      var next := Slot(x.epoch, z.Of(p).nr);
      && r == Err(OpenFailed) && !Inv(z.With(p, t, z.AcceptedBy(p)))
      && next !in z.AcceptedBy(p) && (next in z.log ==> Lost(z, t, next))
  {
    hide *;
    InvShape(z);
    InvSide(z, p, x);
    CurrentEpoch(z.h, z.Of(p), EpochOf(z.h, p), x, z.log[x].plaintext);
    RepeatFails(z.h, z.AcceptedBy(p), z.Of(p), EpochOf(z.h, p), x, z.log[x].plaintext, g);
    FailureKeepsExactly(z, p, z.log[x].wire, g);
    TriedIsLost(z, p, z.log[x].wire.header, z.log[x].wire.ct);
  }

  /** The other way out of step: a new key makes the initiator abandon the responder's first chain. */
  lemma AbandonedSpent(h: History, s: State, n: U32, pt: Bytes, k: Bytes)
    requires Good(h) && |h.keys| == 3 && Core(h, s, 1) && s.ckr == NoKey && s.skipped == map[] && Replay.Ordered(s)
    requires n < h.lens[2] && ValidPoint(k) && k !in h.keys
    ensures var t := Decrypt(s, WireAt(h, Slot(2, n), pt), Some(PrivateKey(k))).0;
      Replay.Ordered(t) && Replay.Spent(t, MessageKey(NoKey))
  {
    var w := WireAt(h, Slot(2, n), pt);
    var s2 := DhRatchet(s, w.header.dh, Some(PrivateKey(k))).0;
    RatchetCore(h, s, 1, k);
    Replay.RatchetAges(s, w.header.dh, Some(PrivateKey(k)));
    assert !InCurrentChain(s, w.header);
    assert Decrypt(s, w, Some(PrivateKey(k))) == OpenInChain(s2, w.header, w.ct);
    assert Replay.Spent(s2, MessageKey(NoKey));
    hide OpenInChain, Root, AllValid, Replay.Ordered;
    Replay.OpenInChainAges(s2, w.header, w.ct);
    Replay.AgesKeepsSpent(s2, OpenInChain(s2, w.header, w.ct).0, MessageKey(NoKey));
  }

  /** A delivery that finds its receiver out of step, even if the message opens, loses another one for
      good: the responder's very first message, sent and not accepted. */
  lemma OutOfStepCosts(y: System, acts: seq<Action>, x: Slot, k: Bytes)
    requires Established(y) && CanRun(y, acts)
    requires Genuine(Run(y, acts), x, k) && !InStepAt(Run(y, acts), x)
    ensures var z := Run(y, acts);
      var t := Opening(z, x, k).0;
      var first := Slot(0, 0);
      && Peer(Owner(x.epoch)) == Alice && first != x && first in z.log && first !in z.byAlice && Lost(z, t, first)
      && !Inv(DoDeliver(z, x, k))
  {
    ReachedOrdered(y, acts, Alice);
    ReachedOrdered(y, acts, Bob);
    var z := Run(y, acts);
    DeliverExactly(z, x, k);
    OutOfStepLost(z, x, k);
  }

  lemma OutOfStepLost(z: System, x: Slot, k: Bytes)
    requires Inv(z) && Replay.Ordered(z.alice) && Replay.Ordered(z.bob) && Genuine(z, x, k) && !InStepAt(z, x)
    ensures Peer(Owner(x.epoch)) == Alice && Slot(0, 0) != x && Slot(0, 0) in z.log && Slot(0, 0) !in z.byAlice
    ensures Lost(z, Opening(z, x, k).0, Slot(0, 0))
  {
    var who := Peer(Owner(x.epoch));
    var s, e := z.Of(who), EpochOf(z.h, who);
    EpochOwner(z.h, who);
    LogWire(z, x);
    assert SideOk(z, who);
    hide Root, AllValid, Passed, Stores, Decrypt, Lost, Replay.Ordered, Replay.Spent;
    OutOfStepShape(z.h, z.AcceptedBy(who), s, e, x, z.log[x].plaintext);
    if x.epoch == 0 {
      MissesFirst(z.h, s, x.n, z.log[x].plaintext, Some(PrivateKey(k)));
      Replay.TriedKeySpent(s, z.log[x].wire.header, z.log[x].wire.ct);
      CurrentEpoch(z.h, s, e, x, z.log[x].plaintext);
    } else {
      AbandonedSpent(z.h, s, x.n, z.log[x].plaintext, k);
    }
    SpentIsLost(z, Opening(z, x, k).0, Slot(0, 0));
  }

  // ---- Both costs are met in short runs ----

  /** What one message from a responder that has heard nothing adds. */
  lemma EarlySend(y: System, pt: Bytes)
    requires 2 == |y.h.keys| == |y.h.lens| && Owner(1) == Alice && y.bob.ns + 1 < U32_LIMIT
    ensures var z, x := DoSend(y, Bob, pt), Slot(0, y.bob.ns);
      && z.alice == y.alice && z.byAlice == y.byAlice && z.h.keys == y.h.keys && |z.h.lens| == 2
      && z.bob.ns == y.bob.ns + 1 && z.bob.dhs == y.bob.dhs
      && x in z.log && z.log[x].wire.Wire? && z.log[x].wire.header.dh == Slice(y.bob.dhs.pub) && z.log[x].wire.header.n == x.n
  {
    hide AeadSeal, BigEndian32;
  }

  lemma OutOfStepReached(y: System, first: Bytes, second: Bytes, k: Bytes)
    requires Established(y) && FreshKey(y, k)
    ensures var acts := [Send(Bob, first), Send(Bob, second)];
      CanRun(y, acts) && Genuine(Run(y, acts), Slot(0, 1), k) && !InStepAt(Run(y, acts), Slot(0, 1))
  {
    assert 2 == |y.h.keys| == |y.h.lens| && y.bob.ns == 0 && y.byAlice == {};
    assert y.alice.ckr == NoKey && y.alice.dhr == Slice(y.bob.dhs.pub);
    hide Established, DoSend, FreshKey, InStepAt;
    var acts := [Send(Bob, first), Send(Bob, second)];
    assert acts[1..] == [Send(Bob, second)] && acts[1..][1..] == [];
    var y1 := DoSend(y, Bob, first);
    EarlySend(y, first);
    var y2 := DoSend(y1, Bob, second);
    EarlySend(y1, second);
    assert Apply(y, acts[0]) == y1 && Apply(y1, acts[1..][0]) == y2;
    assert CanRun(y2, []) && Run(y2, []) == y2;
    assert CanRun(y1, acts[1..]) && Run(y1, acts[1..]) == y2;
    assert CanRun(y, acts) && Run(y, acts) == y2;
    StillFresh(y, y2, k);
    BehindFirst(y2, Slot(0, 1));
    assert Peer(Owner(0)) == Alice && Slot(0, 1) !in y2.AcceptedBy(Alice);
  }

  lemma StillFresh(y: System, z: System, k: Bytes)
    requires FreshKey(y, k) && z.h.keys == y.h.keys
    ensures FreshKey(z, k)
  {
  }

  lemma BehindFirst(z: System, x: Slot)
    requires x in z.log && z.log[x].wire.Wire? && x.epoch == 0 && z.log[x].wire.header.n > 0
    requires z.alice.ckr == NoKey && z.alice.dhr == z.log[x].wire.header.dh && z.alice.dhr != NilSlice
    ensures !InStepAt(z, x)
  {
  }

  lemma RedeliveryReached(y: System, pt: Bytes, k: Bytes)
    requires Established(y) && FreshKey(y, k)
    ensures var acts, x := [Send(Alice, pt), Deliver(Slot(1, 0), k)], Slot(1, 0);
      && CanRun(y, acts) && x in Run(y, acts).AcceptedBy(Bob) && x in Run(y, acts).log
      && Run(y, acts).log[x].wire.Wire? && InCurrentChain(Run(y, acts).Of(Bob), Run(y, acts).log[x].wire.header)
  {
    var x := Slot(1, 0);
    var acts := [Send(Alice, pt), Deliver(x, k)];
    assert acts[1..] == [Deliver(x, k)] && acts[1..][1..] == [];
    var y1 := DoSend(y, Alice, pt);
    assert [Send(Alice, pt)][1..] == [];
    assert Run(y1, []) == y1;
    assert CanRun(y, [Send(Alice, pt)]) && Run(y, [Send(Alice, pt)]) == y1;
    assert Genuine(y1, x, k) && EarlierAccepted(y1, x);
    hide Decrypt, Inv, Established;
    InOrderDelivery(y, [Send(Alice, pt)], x, k);
    EstablishedInv(y);
    SendKeeps(y, Alice, pt);
    DeliverKeeps(y1, x, k);
    DeliverFrame(y1, x, k);
    var y2 := DoDeliver(y1, x, k);
    assert Run(y2, []) == y2;
    assert Run(y1, acts[1..]) == y2;
    AcceptedCurrent(y2, x);
  }

  lemma AcceptedCurrent(z: System, x: Slot)
    requires Inv(z) && x in z.byBob && x.epoch == 1 && 2 <= |z.h.keys| <= 3
    ensures x in z.log && z.log[x].wire.Wire? && InCurrentChain(z.bob, z.log[x].wire.header)
  {
    hide Endpoint;
    PassedView(z, Bob, x);
    PassedInLog(z, Bob, x);
    InvSide(z, Bob, x);
    CurrentEpoch(z.h, z.bob, EpochOf(z.h, Bob), x, z.log[x].plaintext);
  }
}
