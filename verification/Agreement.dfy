/** Two honest endpoints over a network that reorders, delays and drops.

A party only generates a ratchet key on seeing the peer's newest one, so the number of keys
alone determines where both parties are: the owner of the last key is in the last epoch and
its peer in the one before. */
module Agreement {
  import opened Primitives
  import opened Encoding
  import opened RatchetModel
  import opened Epochs
  import Replay

  datatype Packet = Packet(plaintext: Bytes, wire: Wire)

  /** The history, the log and the accepted sets record what happened; the endpoints do not read them. */
  datatype System = System(
    alice: State, bob: State, h: History, log: map<Slot, Packet>, byAlice: set<Slot>, byBob: set<Slot>)
  {
    function Of(p: Party): State {
      if p == Alice then alice else bob
    }

    /** What `p` has accepted. */
    function AcceptedBy(p: Party): set<Slot> {
      if p == Alice then byAlice else byBob
    }

    function With(p: Party, s: State, acc: set<Slot>): System {
      if p == Alice then this.(alice := s, byAlice := acc) else this.(bob := s, byBob := acc)
    }
  }

  function EpochOf(h: History, p: Party): nat
    requires |h.keys| >= 2
  {
    if Owner(|h.keys| - 1) == p then |h.keys| - 1 else |h.keys| - 2
  }

  /** The log holds every message sent, sealed under the key of its position. */
  ghost predicate LogExact(h: History, log: map<Slot, Packet>)
    requires Good(h)
  {
    && (forall x :: x in log <==> x.epoch < |h.keys| && x.n < h.lens[x.epoch])
    && (forall x :: x in log ==> log[x].wire == WireAt(h, x, log[x].plaintext))
  }

  ghost predicate SideOk(y: System, p: Party)
    requires Good(y.h)
  {
    Endpoint(y.h, y.AcceptedBy(p), y.Of(p), EpochOf(y.h, p))
  }

  ghost predicate Inv(y: System) {
    Good(y.h) && SideOk(y, Alice) && SideOk(y, Bob) && LogExact(y.h, y.log)
  }

  datatype Action =
    | Send(who: Party, plaintext: Bytes)
    | Deliver(slot: Slot, generated: Bytes)
    | Inject(who: Party, wire: Wire, drawn: Option<PrivateKey>)

  /** A generated key is a valid point that no earlier ratchet key equals. */
  predicate FreshKey(y: System, k: Bytes) {
    ValidPoint(k) && k !in y.h.keys
  }

  /** The message in slot `x` was sent and its receiver has not accepted it yet; `k` is fresh. */
  predicate Genuine(y: System, x: Slot, k: Bytes) {
    x in y.log && x !in y.AcceptedBy(Peer(Owner(x.epoch))) && FreshKey(y, k)
  }

  /** The message finds its receiver in step. */
  predicate InStepAt(y: System, x: Slot)
    requires x in y.log
  {
    y.log[x].wire.Wire? && InStep(y.Of(Peer(Owner(x.epoch))), y.log[x].wire.header)
  }

  /** Either party may send at any time, as long as chains stay short of the uint32 range. Deliveries
      are of genuine messages in any order that finds the receiver in step. Anything else the network
      makes up may arrive too, as long as it fails and is refused early. */
  predicate Enabled(y: System, a: Action) {
    match a
    case Send(who, _) => y.Of(who).ns + 1 + 1000 < U32_LIMIT
    case Deliver(x, k) => Genuine(y, x, k) && InStepAt(y, x)
    case Inject(who, w, g) => Decrypt(y.Of(who), w, g).1.Err? && Replay.RefusedEarly(y.Of(who), w)
  }

  function DoSend(y: System, who: Party, plaintext: Bytes): System
    requires 2 <= |y.h.keys| == |y.h.lens|
  {
    var (s, w) := Encrypt(y.Of(who), plaintext);
    var e := EpochOf(y.h, who);
    y.With(who, s, y.AcceptedBy(who)).(h := y.h.(lens := y.h.lens[e := s.ns]),
                    log := y.log[Slot(e, y.Of(who).ns) := Packet(plaintext, w)])
  }

  function Opening(y: System, slot: Slot, k: Bytes): (State, Opened)
    requires slot in y.log
  {
    Decrypt(y.Of(Peer(Owner(slot.epoch))), y.log[slot].wire, Some(PrivateKey(k)))
  }

  function DoDeliver(y: System, slot: Slot, k: Bytes): System
    requires slot in y.log
  {
    var who := Peer(Owner(slot.epoch));
    var (s, r) := Opening(y, slot, k);
    var acc := if r.Ok? then y.AcceptedBy(who) + {slot} else y.AcceptedBy(who);
    y.With(who, s, acc).(h := if s.dhs == y.Of(who).dhs then y.h else Grown(y.h, s.dhs.pub))
  }

  function Apply(y: System, a: Action): System
    requires 2 <= |y.h.keys| == |y.h.lens| && Enabled(y, a)
  {
    match a
    case Send(who, pt) => DoSend(y, who, pt)
    case Deliver(slot, k) => DoDeliver(y, slot, k)
    case Inject(who, w, g) => y.With(who, Decrypt(y.Of(who), w, g).0, y.AcceptedBy(who))
  }

  // ---- Every step keeps the invariant ----

  lemma SendWire(h: History, s: State, e: nat, pt: Bytes)
    requires Good(h) && e < |h.keys| && Core(h, s, e)
    ensures Encrypt(s, pt).1 == WireAt(h, Slot(e, h.lens[e]), pt)
  {
  }

  lemma SendCore(h: History, s: State, e: nat, pt: Bytes)
    requires Good(h) && e < |h.keys| && Core(h, s, e) && s.ns + 1 + 1000 < U32_LIMIT
    ensures var g := h.(lens := h.lens[e := h.lens[e] + 1]);
      Good(g) && Encrypt(s, pt).0.ns == h.lens[e] + 1 && Core(g, Encrypt(s, pt).0, e)
  {
    hide AllValid, Shared;
    var g := h.(lens := h.lens[e := h.lens[e] + 1]);
    RootStable(h, g, e);
    if e >= 1 {
      RootStable(h, g, e - 1);
    }
    if e >= 2 {
      RootStable(h, g, e - 2);
    }
  }

  lemma SendEndpoint(h: History, acc: set<Slot>, s: State, e: nat, pt: Bytes)
    requires Good(h) && e < |h.keys| && Endpoint(h, acc, s, e) && s.ns + 1 + 1000 < U32_LIMIT
    ensures var g := h.(lens := h.lens[e := h.lens[e] + 1]);
      var (t, w) := Encrypt(s, pt);
      Good(g) && w == WireAt(h, Slot(e, h.lens[e]), pt) && t.ns == h.lens[e] + 1 && Endpoint(g, acc, t, e)
  {
    hide KeyAt, WireAt, Core, Stores;
    var g := h.(lens := h.lens[e := h.lens[e] + 1]);
    SendWire(h, s, e, pt);
    SendCore(h, s, e, pt);
    if e >= 2 {
      OlderStable(h, g, e - 2);
    }
    StoresStable(h, g, Passed(h, e, s.nr) - acc, s.skipped);
  }

  lemma LogGrows(h: History, log: map<Slot, Packet>, e: nat, p: Packet)
    requires Good(h) && LogExact(h, log) && |h.keys| - 2 <= e < |h.keys|
    requires h.lens[e] + 1 + 1000 < U32_LIMIT && p.wire == WireAt(h, Slot(e, h.lens[e]), p.plaintext)
    ensures var g := h.(lens := h.lens[e := h.lens[e] + 1]);
      Good(g) && LogExact(g, log[Slot(e, h.lens[e]) := p])
  {
    hide KeyAt;
    var g := h.(lens := h.lens[e := h.lens[e] + 1]);
    WireStable(h, g, Slot(e, h.lens[e]), p.plaintext);
    forall x | x in log ensures log[x].wire == WireAt(g, x, log[x].plaintext) {
      WireStable(h, g, x, log[x].plaintext);
    }
  }

  lemma LogGrown(h: History, log: map<Slot, Packet>, k: Bytes)
    requires Good(h) && LogExact(h, log) && Good(Grown(h, k))
    ensures LogExact(Grown(h, k), log)
  {
    hide KeyAt;
    var g := Grown(h, k);
    forall x | x in log ensures log[x].wire == WireAt(g, x, log[x].plaintext) {
      WireStable(h, g, x, log[x].plaintext);
    }
  }

  /** The invariant seen from one party. */
  ghost predicate Joint(h: History, log: map<Slot, Packet>, s: State, acc: set<Slot>, e: nat, s': State, acc': set<Slot>, e': nat) {
    && Good(h) && LogExact(h, log)
    && ((e == |h.keys| - 1 && e' == e - 1) || (e' == |h.keys| - 1 && e == e' - 1))
    && Endpoint(h, acc, s, e) && Endpoint(h, acc', s', e')
  }

  lemma JointView(y: System, who: Party)
    requires |y.h.keys| >= 2
    ensures Inv(y) <==>
      Joint(y.h, y.log, y.Of(who), y.AcceptedBy(who), EpochOf(y.h, who),
            y.Of(Peer(who)), y.AcceptedBy(Peer(who)), EpochOf(y.h, Peer(who)))
  {
    hide Endpoint, LogExact, AllValid;
    if Good(y.h) {
      assert who == Alice || who == Bob;
    }
  }

  lemma JointSend(h: History, log: map<Slot, Packet>, s: State, acc: set<Slot>, e: nat, s': State, acc': set<Slot>, e': nat, pt: Bytes)
    requires Joint(h, log, s, acc, e, s', acc', e') && s.ns + 1 + 1000 < U32_LIMIT
    ensures s.ns == h.lens[e] && Slot(e, s.ns) !in log
    ensures var (t, w) := Encrypt(s, pt);
      && t.ns == s.ns + 1
      && Joint(h.(lens := h.lens[e := t.ns]), log[Slot(e, s.ns) := Packet(pt, w)], t, acc, e, s', acc', e')
  {
    assert s.ns == h.lens[e];
    hide Endpoint, KeyAt;
    var g := h.(lens := h.lens[e := h.lens[e] + 1]);
    var (t, w) := Encrypt(s, pt);
    SendEndpoint(h, acc, s, e, pt);
    LogGrows(h, log, e, Packet(pt, w));
    EndpointStable(h, g, acc', s', e');
  }

  /** A send keeps the invariant and never overwrites a logged message. */
  lemma SendKeeps(y: System, who: Party, pt: Bytes)
    requires Inv(y) && Enabled(y, Send(who, pt))
    ensures Inv(DoSend(y, who, pt))
    ensures Slot(EpochOf(y.h, who), y.Of(who).ns) !in y.log
  {
    hide Joint, Inv, Good, Encrypt;
    InvShape(y);
    var y' := DoSend(y, who, pt);
    JointView(y, who);
    JointSend(y.h, y.log, y.Of(who), y.AcceptedBy(who), EpochOf(y.h, who),
              y.Of(Peer(who)), y.AcceptedBy(Peer(who)), EpochOf(y.h, Peer(who)), pt);
    JointView(y', who);
  }

  lemma JointDeliver(h: History, log: map<Slot, Packet>, s: State, acc: set<Slot>, e: nat, s': State, acc': set<Slot>, e': nat, x: Slot, k: Bytes)
    requires Joint(h, log, s, acc, e, s', acc', e')
    requires x in log && Owner(x.epoch) != Owner(e) && x !in acc && ValidPoint(k) && k !in h.keys
    requires log[x].wire.Wire? && InStep(s, log[x].wire.header)
    ensures var (t, r) := Decrypt(s, log[x].wire, Some(PrivateKey(k)));
      && (r.Ok? <==> WithinLimit(s, log[x].wire.header))
      && r == (if r.Ok? then Ok(log[x].plaintext) else Err(TooManySkipped))
      && var acc1 := if r.Ok? then acc + {x} else acc;
         if t.dhs == s.dhs then Joint(h, log, t, acc1, e, s', acc', e')
         else t.dhs.pub == k && e + 2 == |h.keys| && Joint(Grown(h, k), log, t, acc1, e + 2, s', acc', e')
  {
    hide Endpoint, Decrypt, KeyAt, WithinLimit, InStep;
    Receive(h, acc, s, e, x, log[x].plaintext, k);
    var (t, r) := Decrypt(s, log[x].wire, Some(PrivateKey(k)));
    if t.dhs != s.dhs {
      LogGrown(h, log, k);
      EndpointStable(h, Grown(h, k), acc', s', e');
    }
  }

  lemma EpochOwner(h: History, p: Party)
    requires |h.keys| >= 2
    ensures Owner(EpochOf(h, p)) == p
  {
  }

  /** When the party behind adds a key, it moves two epochs on and its peer stays. */
  lemma EpochsGrow(h: History, k: Bytes, who: Party)
    requires |h.keys| >= 2
    ensures EpochOf(h, who) + 2 == |h.keys| ==>
      EpochOf(Grown(h, k), who) == EpochOf(h, who) + 2 && EpochOf(Grown(h, k), Peer(who)) == EpochOf(h, Peer(who))
  {
  }

  lemma DeliverFrame(y: System, x: Slot, k: Bytes)
    requires x in y.log && |y.h.keys| >= 2
    ensures var who := Peer(Owner(x.epoch));
      var (t, r) := Opening(y, x, k);
      var z := DoDeliver(y, x, k);
      && |z.h.keys| >= 2 && z.log == y.log
      && z.h == (if t.dhs == y.Of(who).dhs then y.h else Grown(y.h, t.dhs.pub))
      && z.Of(who) == t && z.AcceptedBy(who) == (if r.Ok? then y.AcceptedBy(who) + {x} else y.AcceptedBy(who))
      && z.Of(Peer(who)) == y.Of(Peer(who)) && z.AcceptedBy(Peer(who)) == y.AcceptedBy(Peer(who))
  {
    hide Decrypt;
  }

  lemma InvShape(y: System)
    requires Inv(y)
    ensures 2 <= |y.h.keys| == |y.h.lens|
  {
  }

  lemma DeliverOpens(y: System, x: Slot, k: Bytes)
    requires Inv(y) && Enabled(y, Deliver(x, k))
    ensures y.log[x].wire.Wire?
    ensures var r := Opening(y, x, k).1;
      && (r.Ok? <==> WithinLimit(y.Of(Peer(Owner(x.epoch))), y.log[x].wire.header))
      && r == (if r.Ok? then Ok(y.log[x].plaintext) else Err(TooManySkipped))
  {
    var who := Peer(Owner(x.epoch));
    EpochOwner(y.h, who);
    hide Joint, Endpoint, Decrypt, WithinLimit, InStep, EpochOf, Owner;
    JointView(y, who);
    JointDeliver(y.h, y.log, y.Of(who), y.AcceptedBy(who), EpochOf(y.h, who),
                 y.Of(Peer(who)), y.AcceptedBy(Peer(who)), EpochOf(y.h, Peer(who)), x, k);
  }

  lemma DeliverInv(y: System, x: Slot, k: Bytes)
    requires Inv(y) && Enabled(y, Deliver(x, k))
    ensures Inv(DoDeliver(y, x, k))
  {
    hide Joint, Inv, Good, Decrypt, WithinLimit, InStep, EpochOf, Owner, DoDeliver;
    var who := Peer(Owner(x.epoch));
    InvShape(y);
    EpochOwner(y.h, who);
    EpochsGrow(y.h, k, who);
    DeliverFrame(y, x, k);
    JointView(y, who);
    JointDeliver(y.h, y.log, y.Of(who), y.AcceptedBy(who), EpochOf(y.h, who),
                 y.Of(Peer(who)), y.AcceptedBy(Peer(who)), EpochOf(y.h, Peer(who)), x, k);
    JointView(DoDeliver(y, x, k), who);
  }

  /** A delivery opens the message exactly when it is within the limit, and keeps the invariant
      whether it opens or not. */
  lemma DeliverKeeps(y: System, x: Slot, k: Bytes)
    requires Inv(y) && Enabled(y, Deliver(x, k))
    ensures Inv(DoDeliver(y, x, k)) && y.log[x].wire.Wire?
    ensures var r := Opening(y, x, k).1;
      && (r.Ok? <==> WithinLimit(y.Of(Peer(Owner(x.epoch))), y.log[x].wire.header))
      && r == (if r.Ok? then Ok(y.log[x].plaintext) else Err(TooManySkipped))
  {
    hide Inv, DoDeliver, Opening;
    DeliverInv(y, x, k);
    DeliverOpens(y, x, k);
  }

  // ---- Exactly when a delivery keeps the invariant ----

  /** A message opens exactly when the gaps are within the limit and, in the current chain, the
      receiver is in step. */
  predicate Opens(s: State, hd: Header) {
    WithinLimit(s, hd) && (InCurrentChain(s, hd) ==> InStep(s, hd))
  }

  lemma JointOutOfStep(h: History, log: map<Slot, Packet>, s: State, acc: set<Slot>, e: nat, s': State, acc': set<Slot>, e': nat, x: Slot, k: Bytes)
    requires Joint(h, log, s, acc, e, s', acc', e')
    requires x in log && Owner(x.epoch) != Owner(e) && ValidPoint(k) && k !in h.keys
    requires log[x].wire.Wire? && !InStep(s, log[x].wire.header)
    ensures e == 1 && s.ckr == NoKey && s.skipped == map[] && acc == {} && Slot(0, 0) in log
    ensures var (t, r) := Decrypt(s, log[x].wire, Some(PrivateKey(k)));
      && (r == Ok(log[x].plaintext) <==> Opens(s, log[x].wire.header))
      && var acc1 := if r.Ok? then acc + {x} else acc;
         if t.dhs == s.dhs then !Endpoint(h, acc1, t, e)
         else t.dhs.pub == k && e + 2 == |h.keys| && Good(Grown(h, k)) && !Endpoint(Grown(h, k), acc1, t, e + 2)
  {
    hide KeyAt, Decrypt, Stores, Passed, Root;
    var pt := log[x].plaintext;
    OutOfStepShape(h, acc, s, e, x, pt);
    CurrentEpoch(h, s, e, x, pt);
    var t := Decrypt(s, log[x].wire, Some(PrivateKey(k))).0;
    if x.epoch == 0 {
      MissesFirst(h, s, x.n, pt, Some(PrivateKey(k)));
      PassedMembers(h, 1, 1, Slot(0, 0));
      MissingKey(h, acc, t, 1, Slot(0, 0));
    } else {
      AbandonsFirst(h, s, x.n, pt, k);
      var g := Grown(h, k);
      PassedMembers(g, 3, t.nr, Slot(0, 0));
      assert IdAt(g, Slot(0, 0)) == IdAt(h, Slot(0, 0));
      MissingKey(g, if x.n <= 1000 then acc + {x} else acc, t, 3, Slot(0, 0));
    }
  }

  lemma DeliverOutOfStep(y: System, x: Slot, k: Bytes)
    requires Inv(y) && Genuine(y, x, k) && y.log[x].wire.Wire? && !InStepAt(y, x)
    ensures !Inv(DoDeliver(y, x, k))
    ensures Opening(y, x, k).1 == Ok(y.log[x].plaintext) <==> Opens(y.Of(Peer(Owner(x.epoch))), y.log[x].wire.header)
  {
    hide Inv, Good, Endpoint, Decrypt, Opens, InStep, EpochOf, Owner, DoDeliver;
    var who := Peer(Owner(x.epoch));
    InvShape(y);
    EpochOwner(y.h, who);
    EpochsGrow(y.h, k, who);
    DeliverFrame(y, x, k);
    JointView(y, who);
    JointOutOfStep(y.h, y.log, y.Of(who), y.AcceptedBy(who), EpochOf(y.h, who),
                   y.Of(Peer(who)), y.AcceptedBy(Peer(who)), EpochOf(y.h, Peer(who)), x, k);
    JointView(DoDeliver(y, x, k), who);
  }

  lemma LogWire(y: System, x: Slot)
    requires Inv(y) && x in y.log
    ensures y.log[x].wire.Wire?
  {
    hide SideOk;
  }

  /** A genuine message, delivered in any order: it opens exactly when `Opens` says so, and the
      invariant survives exactly when it found its receiver in step. */
  lemma DeliverExactly(y: System, x: Slot, k: Bytes)
    requires Inv(y) && Genuine(y, x, k)
    ensures y.log[x].wire.Wire?
    ensures Opening(y, x, k).1 == Ok(y.log[x].plaintext) <==> Opens(y.Of(Peer(Owner(x.epoch))), y.log[x].wire.header)
    ensures Inv(DoDeliver(y, x, k)) <==> InStepAt(y, x)
    ensures InStepAt(y, x) ==> Opening(y, x, k).1 in {Ok(y.log[x].plaintext), Err(TooManySkipped)}
  {
    hide Inv, DoDeliver, Opening, WithinLimit, InStep;
    LogWire(y, x);
    if InStepAt(y, x) {
      DeliverKeeps(y, x, k);
    } else {
      DeliverOutOfStep(y, x, k);
    }
  }

  // ---- Runs ----

  lemma ApplyKeeps(y: System, a: Action)
    requires Inv(y) && Enabled(y, a)
    ensures Inv(Apply(y, a))
  {
    hide Inv, Decrypt, DoSend, DoDeliver;
    InvShape(y);
    match a
    case Send(who, pt) => SendKeeps(y, who, pt);
    case Deliver(x, k) => DeliverKeeps(y, x, k);
    case Inject(who, w, g) => Replay.FailureUnchangedExactly(y.Of(who), w, g);
  }

  /** A schedule: each action is enabled when its turn comes. */
  ghost predicate CanRun(y: System, acts: seq<Action>)
    decreases |acts|
  {
    acts == []
    || (2 <= |y.h.keys| == |y.h.lens| && Enabled(y, acts[0]) && CanRun(Apply(y, acts[0]), acts[1..]))
  }

  ghost function Run(y: System, acts: seq<Action>): System
    requires CanRun(y, acts)
    decreases |acts|
  {
    if acts == [] then y else Run(Apply(y, acts[0]), acts[1..])
  }

  lemma {:induction false} RunKeeps(y: System, acts: seq<Action>)
    requires Inv(y) && CanRun(y, acts)
    ensures Inv(Run(y, acts))
    decreases |acts|
  {
    if acts != [] {
      ApplyKeeps(y, acts[0]);
      RunKeeps(Apply(y, acts[0]), acts[1..]);
    }
  }

  // ---- Theorems ----

  /** The two states X3DH leaves behind: the responder holds its signed prekey, the initiator a
      key generated for the conversation. */
  ghost predicate Established(y: System) {
    && y.h.keys == [y.bob.dhs.pub, y.alice.dhs.pub] && y.h.lens == [0, 0]
    && ValidPoint(y.bob.dhs.pub) && ValidPoint(y.alice.dhs.pub) && y.alice.dhs.pub != y.bob.dhs.pub
    && RatchetModel.Initiator(y.h.secret, Slice(y.bob.dhs.pub), y.h.ad, y.alice.dhs) == Ok(y.alice)
    && y.bob == RatchetModel.Responder(y.h.secret, y.bob.dhs, y.h.ad)
    && y.log == map[] && y.byAlice == {} && y.byBob == {}
  }

  lemma EstablishedInv(y: System)
    requires Established(y)
    ensures Inv(y)
  {
    var h := y.h;
    assert AllValid(h.keys) by {
      assert h.keys[..1][..0] == [];
    }
    assert Root(h, 1) == RootKey(h.secret, Shared(h, 1));
    assert {h.keys[0], h.keys[1]} == {h.keys[1], h.keys[0]};
    assert y.alice.ad == h.ad;
  }

  /** Agreement over all runs: after any schedule that kept receivers in step, a message sent and not
      yet accepted, delivered in whatever order, decrypts to the plaintext that was sent if and only if
      its gaps are within the skip limit and, in the current chain, the receiver is in step; and the
      joint invariant, from which all this follows again, survives if and only if it is in step. */
  lemma Agreement(y: System, acts: seq<Action>, x: Slot, k: Bytes)
    requires Established(y) && CanRun(y, acts)
    requires Genuine(Run(y, acts), x, k)
    ensures Inv(Run(y, acts)) && Run(y, acts).log[x].wire.Wire?
    ensures var z := Run(y, acts);
      var receiver, hd := z.Of(Peer(Owner(x.epoch))), z.log[x].wire.header;
      var r := Decrypt(receiver, z.log[x].wire, Some(PrivateKey(k))).1;
      && (r == Ok(z.log[x].plaintext) <==> Opens(receiver, hd))
      && (InStep(receiver, hd) ==> r == Ok(z.log[x].plaintext) || r == Err(TooManySkipped))
      && (Inv(DoDeliver(z, x, k)) <==> InStep(receiver, hd))
  {
    hide Inv, Opens, InStep, DoDeliver, Decrypt, Established, CanRun, Run, Owner, FreshKey;
    EstablishedInv(y);
    RunKeeps(y, acts);
    DeliverExactly(Run(y, acts), x, k);
  }

  /** The skip limit in numbers, after every run: what a genuine message in step, whose key is not stored,
      does to its receiver. */
  lemma SkipLimit(y: System, acts: seq<Action>, x: Slot, k: Bytes)
    requires Established(y) && CanRun(y, acts)
    requires Genuine(Run(y, acts), x, k) && InStepAt(Run(y, acts), x)
    requires Run(y, acts).log[x].wire.header.Position() !in Run(y, acts).Of(Peer(Owner(x.epoch))).skipped
    ensures var z := Run(y, acts);
      var s, hd, pt := z.Of(Peer(Owner(x.epoch))), z.log[x].wire.header, z.log[x].plaintext;
      var (t, r) := Decrypt(s, z.log[x].wire, Some(PrivateKey(k)));
      if InCurrentChain(s, hd) then
        if hd.n <= s.nr + 1000 then r == Ok(pt) else r == Err(TooManySkipped) && t == s
      else if s.ckr != NoKey && hd.pn > s.nr + 1000 then r == Err(TooManySkipped) && t == s
      else if hd.n <= 1000 then r == Ok(pt)
      else r == Err(TooManySkipped) && t.dhs == PrivateKey(k)
  {
    hide Inv, Established, CanRun, Run, Decrypt, InCurrentChain, InStep, FreshKey;
    EstablishedInv(y);
    RunKeeps(y, acts);
    LimitIn(Run(y, acts), x, k);
  }

  lemma LimitIn(z: System, x: Slot, k: Bytes)
    requires Inv(z) && Genuine(z, x, k) && InStepAt(z, x)
    requires z.log[x].wire.header.Position() !in z.Of(Peer(Owner(x.epoch))).skipped
    ensures var s, hd, pt := z.Of(Peer(Owner(x.epoch))), z.log[x].wire.header, z.log[x].plaintext;
      var (t, r) := Decrypt(s, z.log[x].wire, Some(PrivateKey(k)));
      if InCurrentChain(s, hd) then
        if hd.n <= s.nr + 1000 then r == Ok(pt) else r == Err(TooManySkipped) && t == s
      else if s.ckr != NoKey && hd.pn > s.nr + 1000 then r == Err(TooManySkipped) && t == s
      else if hd.n <= 1000 then r == Ok(pt)
      else r == Err(TooManySkipped) && t.dhs == PrivateKey(k)
  {
    var p := Peer(Owner(x.epoch));
    InvShape(z);
    EpochOwner(z.h, p);
    assert SideOk(z, p);
    hide Endpoint, Decrypt, InCurrentChain, InStep, KeyAt;
    LimitAt(z.h, z.AcceptedBy(p), z.Of(p), EpochOf(z.h, p), x, z.log[x].plaintext, k);
  }

  /** `p` has moved past position `x` of its peer. */
  predicate HasPassed(z: System, p: Party, x: Slot)
    requires 2 <= |z.h.keys| == |z.h.lens|
  {
    var e := EpochOf(z.h, p);
    && x.epoch < e && Owner(x.epoch) == Peer(p)
    && x.n < (if x.epoch + 1 == e then z.Of(p).nr else z.h.lens[x.epoch])
  }

  lemma PassedView(z: System, p: Party, x: Slot)
    requires Inv(z)
    ensures x in Passed(z.h, EpochOf(z.h, p), z.Of(p).nr) <==> HasPassed(z, p, x)
    ensures x in z.AcceptedBy(p) ==> HasPassed(z, p, x)
  {
    assert SideOk(z, p);
    hide Stores, Core, LogExact;
    EpochOwner(z.h, p);
    PassedMembers(z.h, EpochOf(z.h, p), z.Of(p).nr, x);
  }

  lemma StoreAt(z: System, p: Party, x: Slot)
    requires Inv(z) && InConversation(z.h, x)
    ensures IdAt(z.h, x) in z.Of(p).skipped <==> HasPassed(z, p, x) && x !in z.AcceptedBy(p)
    ensures IdAt(z.h, x) in z.Of(p).skipped ==> z.Of(p).skipped[IdAt(z.h, x)] == KeyAt(z.h, x)
  {
    PassedView(z, p, x);
    assert SideOk(z, p);
    hide Core, LogExact, HasPassed, Passed, KeyAt;
    var q := Passed(z.h, EpochOf(z.h, p), z.Of(p).nr) - z.AcceptedBy(p);
    StoresOnly(z.h, q, z.Of(p).skipped, x);
    if x in q {
      assert Ids(z.h)(x) in z.Of(p).skipped && z.Of(p).skipped[Ids(z.h)(x)] == Keys(z.h)(x);
    }
  }

  /** Exact store: after any run, an endpoint holds a key for a position if and only if it has
      passed that position over and not accepted the message; the key is the one that sealed the
      message; and no other key is held. */
  lemma SkippedStoreExact(y: System, acts: seq<Action>, p: Party)
    requires Established(y) && CanRun(y, acts)
    ensures Inv(Run(y, acts))
    ensures var z := Run(y, acts);
      && (forall x :: InConversation(z.h, x) ==>
            (IdAt(z.h, x) in z.Of(p).skipped <==> HasPassed(z, p, x) && x !in z.AcceptedBy(p)))
      && (forall x :: InConversation(z.h, x) && IdAt(z.h, x) in z.Of(p).skipped ==>
            x in z.log && z.Of(p).skipped[IdAt(z.h, x)] == KeyAt(z.h, x)
            && z.log[x].wire == WireAt(z.h, x, z.log[x].plaintext))
      && (forall id :: id in z.Of(p).skipped ==> exists x :: InConversation(z.h, x) && IdAt(z.h, x) == id)
  {
    EstablishedInv(y);
    RunKeeps(y, acts);
    var z := Run(y, acts);
    forall x | InConversation(z.h, x)
      ensures IdAt(z.h, x) in z.Of(p).skipped <==> HasPassed(z, p, x) && x !in z.AcceptedBy(p)
      ensures IdAt(z.h, x) in z.Of(p).skipped ==> x in z.log && z.Of(p).skipped[IdAt(z.h, x)] == KeyAt(z.h, x)
    {
      StoreAt(z, p, x);
      if HasPassed(z, p, x) {
        PassedInLog(z, p, x);
      }
    }
    forall id | id in z.Of(p).skipped ensures exists x :: InConversation(z.h, x) && IdAt(z.h, x) == id {
      StoreNames(z, p, id);
    }
  }

  lemma PassedInLog(z: System, p: Party, x: Slot)
    requires Inv(z) && HasPassed(z, p, x)
    ensures x in z.log
  {
    hide WireAt, Root, AllValid;
    assert SideOk(z, p);
  }

  lemma StoreNames(z: System, p: Party, id: SkipId)
    requires Inv(z) && id in z.Of(p).skipped
    ensures exists x :: InConversation(z.h, x) && IdAt(z.h, x) == id
  {
    assert SideOk(z, p);
    hide Core, LogExact, KeyAt;
    var q := Passed(z.h, EpochOf(z.h, p), z.Of(p).nr) - z.AcceptedBy(p);
    assert Stores(z.h, q, z.Of(p).skipped);
    var x :| x in q && Ids(z.h)(x) == id;
    assert IdAt(z.h, x) == id;
  }

  /** Everything that the sender of `x` sent before `x` has been accepted. */
  ghost predicate EarlierAccepted(z: System, x: Slot) {
    forall w :: w in z.log && Owner(w.epoch) == Owner(x.epoch) && (w.epoch < x.epoch || (w.epoch == x.epoch && w.n < x.n))
      ==> w in z.AcceptedBy(Peer(Owner(x.epoch)))
  }

  lemma EarlierPassed(z: System, x: Slot, w: Slot)
    requires Inv(z) && x in z.log && EarlierAccepted(z, x) && InConversation(z.h, w) && w.n < z.h.lens[w.epoch]
    requires Owner(w.epoch) == Owner(x.epoch) && (w.epoch < x.epoch || (w.epoch == x.epoch && w.n < x.n))
    ensures HasPassed(z, Peer(Owner(x.epoch)), w)
  {
    hide SideOk;
    assert w in z.log;
    PassedView(z, Peer(Owner(x.epoch)), w);
  }

  lemma NextWithinLimit(z: System, x: Slot)
    requires Inv(z) && x in z.log && x !in z.AcceptedBy(Peer(Owner(x.epoch))) && EarlierAccepted(z, x)
    ensures z.log[x].wire.Wire? && WithinLimit(z.Of(Peer(Owner(x.epoch))), z.log[x].wire.header)
    ensures InStepAt(z, x)
  {
    hide KeyAt, EarlierAccepted, Endpoint, WithinLimit;
    var p := Peer(Owner(x.epoch));
    assert SideOk(z, p);
    assert z.log[x].wire == WireAt(z.h, x, z.log[x].plaintext);
    EpochOwner(z.h, p);
    if x.n > 0 {
      EarlierPassed(z, x, Slot(x.epoch, x.n - 1));
    }
    if x.epoch >= 2 && z.h.lens[x.epoch - 2] > 0 {
      EarlierPassed(z, x, Slot(x.epoch - 2, z.h.lens[x.epoch - 2] - 1));
    }
    StoreAt(z, p, x);
    NilPosition(z.h, z.AcceptedBy(p), z.Of(p), EpochOf(z.h, p));
    WithinReach(z.h, z.AcceptedBy(p), z.Of(p), EpochOf(z.h, p), x, z.log[x].plaintext);
  }

  /** In-order delivery is always in step and never meets the limit: when everything sent earlier by
      the same party has been accepted, the next message decrypts, also when the responder spoke first. */
  lemma InOrderDelivery(y: System, acts: seq<Action>, x: Slot, k: Bytes)
    requires Established(y) && CanRun(y, acts)
    requires Genuine(Run(y, acts), x, k) && EarlierAccepted(Run(y, acts), x)
    ensures var z := Run(y, acts);
      Enabled(z, Deliver(x, k)) && Opening(z, x, k).1 == Ok(z.log[x].plaintext)
  {
    hide Inv, EarlierAccepted, Opening, WithinLimit, InStep;
    EstablishedInv(y);
    RunKeeps(y, acts);
    NextWithinLimit(Run(y, acts), x);
    DeliverKeeps(Run(y, acts), x, k);
  }
}
