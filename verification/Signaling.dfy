/** The in-process offer/answer fabric shared by any number of nodes. */
module Signaling {
  type PeerId = string

  /** Session descriptions, named by the dial they belong to. */
  datatype Sdp = OfferSdp(dial: nat) | AnswerSdp(dial: nat)

  datatype OfferFrame = OfferFrame(source: PeerId, data: Sdp)

  const OFFER_CAPACITY := 16
  const ANSWER_CAPACITY := 8

  /** Inboxes: offers per node, answers per node and answering peer; and whom each node last heard
      an offer from. */
  datatype Fabric = Fabric(
    offers: map<PeerId, seq<OfferFrame>>,
    answers: map<(PeerId, PeerId), seq<Sdp>>,
    lastRemote: map<PeerId, PeerId>)

  function Offers(f: Fabric, p: PeerId): seq<OfferFrame> {
    if p in f.offers then f.offers[p] else []
  }

  function Answers(f: Fabric, p: PeerId, source: PeerId): seq<Sdp> {
    if (p, source) in f.answers then f.answers[(p, source)] else []
  }

  /** Channel operations either proceed, block, or report an error. */
  datatype Outcome<T> = Done(value: T) | Blocks | Fails

  function SendSdp(f: Fabric, self: PeerId, peer: PeerId, sdp: Sdp): (Fabric, Outcome<()>) {
    if peer != "" then
      if |Offers(f, peer)| >= OFFER_CAPACITY then (f, Blocks)
      else (f.(offers := f.offers[peer := Offers(f, peer) + [OfferFrame(self, sdp)]]), Done(()))
    else if self !in f.lastRemote || f.lastRemote[self] == "" then (f, Fails)
    else
      var to := f.lastRemote[self];
      if |Answers(f, to, self)| >= ANSWER_CAPACITY then (f, Blocks)
      else (f.(answers := f.answers[(to, self) := Answers(f, to, self) + [sdp]]), Done(()))
  }

  function RecvSdp(f: Fabric, self: PeerId, peer: PeerId): (Fabric, Outcome<Sdp>) {
    if peer == "" then
      if Offers(f, self) == [] then (f, Blocks)
      else
        var o := Offers(f, self)[0];
        (f.(offers := f.offers[self := Offers(f, self)[1..]], lastRemote := f.lastRemote[self := o.source]), Done(o.data))
    else if Answers(f, self, peer) == [] then (f, Blocks)
    else
      (f.(answers := f.answers[(self, peer) := Answers(f, self, peer)[1..]]), Done(Answers(f, self, peer)[0]))
  }

  /** The shared registry with the signalers joined to it. */
  class Registry {
    var offers: map<PeerId, seq<OfferFrame>>
    var answers: map<(PeerId, PeerId), seq<Sdp>>
    var lastRemote: map<PeerId, PeerId>

    ghost function View(): Fabric
      reads this
    {
      Fabric(offers, answers, lastRemote)
    }

    constructor ()
      ensures View() == Fabric(map[], map[], map[])
    {
      offers, answers, lastRemote := map[], map[], map[];
    }

    method SendSDP(self: PeerId, peer: PeerId, sdp: Sdp) returns (r: Outcome<()>)
      modifies this
      ensures (View(), r) == SendSdp(old(View()), self, peer, sdp)
      ensures peer != "" ==> r == if |Offers(old(View()), peer)| < 16 then Done(()) else Blocks
      ensures peer != "" && r == Done(()) ==> Offers(View(), peer) == Offers(old(View()), peer) + [OfferFrame(self, sdp)]
      ensures peer == "" ==> (r == Fails <==> self !in old(lastRemote) || old(lastRemote)[self] == "")
      ensures peer == "" && r != Fails ==>
        var to := old(lastRemote)[self];
        && r == (if |Answers(old(View()), to, self)| < 8 then Done(()) else Blocks)
        && (r == Done(()) ==> Answers(View(), to, self) == Answers(old(View()), to, self) + [sdp])
    {
      if peer != "" {
        var queue := if peer in offers then offers[peer] else [];
        if |queue| >= OFFER_CAPACITY {
          return Blocks;
        }
        offers := offers[peer := queue + [OfferFrame(self, sdp)]];
        return Done(());
      }
      if self !in lastRemote || lastRemote[self] == "" {
        return Fails;
      }
      var to := lastRemote[self];
      var queue := if (to, self) in answers then answers[(to, self)] else [];
      if |queue| >= ANSWER_CAPACITY {
        return Blocks;
      }
      answers := answers[(to, self) := queue + [sdp]];
      r := Done(());
    }

    method RecvSDP(self: PeerId, peer: PeerId) returns (r: Outcome<Sdp>)
      modifies this
      ensures (View(), r) == RecvSdp(old(View()), self, peer)
      ensures peer == "" && r.Done? ==>
        var q := Offers(old(View()), self);
        && q != [] && r.value == q[0].data && Offers(View(), self) == q[1..]
        && self in lastRemote && lastRemote[self] == q[0].source
      ensures peer != "" && r.Done? ==>
        var q := Answers(old(View()), self, peer);
        q != [] && r.value == q[0] && Answers(View(), self, peer) == q[1..] && lastRemote == old(lastRemote)
      ensures r == Blocks <==> if peer == "" then Offers(old(View()), self) == [] else Answers(old(View()), self, peer) == []
    {
      if peer == "" {
        var queue := if self in offers then offers[self] else [];
        if queue == [] {
          return Blocks;
        }
        offers := offers[self := queue[1..]];
        lastRemote := lastRemote[self := queue[0].source];
        return Done(queue[0].data);
      }
      var queue := if (self, peer) in answers then answers[(self, peer)] else [];
      if queue == [] {
        return Blocks;
      }
      answers := answers[(self, peer) := queue[1..]];
      r := Done(queue[0]);
    }
  }

  // ---- Nodes that dial and run one accept loop each ----

  /** Where the description of a dial is: among the callee's offers, in the callee's accept loop,
      among the caller's answers, or consumed. */
  datatype Place = Offered | Accepting | Answered | Consumed

  /** `dials` records caller and callee of every dial made, `place` where each one's description is,
      `waiting` the dials whose caller still expects an answer, and `accepting` the offer each accept
      loop is working on. */
  datatype World = World(
    f: Fabric, dials: seq<(PeerId, PeerId)>, place: seq<Place>, waiting: set<nat>, accepting: map<PeerId, Sdp>)

  datatype Action =
    | Dial(caller: PeerId, callee: PeerId)
    | TakeOffer(node: PeerId)
    | Answer(node: PeerId)
    | DropOffer(node: PeerId)
    | TakeAnswer(dial: nat)

  /** A dial is allowed at any time its offer fits, also while another one for the same pair waits. */
  predicate Enabled(w: World, a: Action) {
    match a
    case Dial(i, j) => i != "" && j != "" && SendSdp(w.f, i, j, OfferSdp(|w.dials|)).1.Done?
    case TakeOffer(j) => j !in w.accepting && RecvSdp(w.f, j, "").1.Done?
    case Answer(j) => j in w.accepting && SendSdp(w.f, j, "", AnswerSdp(w.accepting[j].dial)).1.Done?
    case DropOffer(j) => j in w.accepting
    case TakeAnswer(d) => d in w.waiting && d < |w.dials| && RecvSdp(w.f, w.dials[d].0, w.dials[d].1).1.Done?
  }

  function Move(place: seq<Place>, d: nat, to: Place): seq<Place> {
    if d < |place| then place[d := to] else place
  }

  function Step(w: World, a: Action): World
    requires Enabled(w, a)
  {
    match a
    case Dial(i, j) =>
      w.(f := SendSdp(w.f, i, j, OfferSdp(|w.dials|)).0, dials := w.dials + [(i, j)],
         place := w.place + [Offered], waiting := w.waiting + {|w.dials|})
    case TakeOffer(j) =>
      var (f, r) := RecvSdp(w.f, j, "");
      w.(f := f, accepting := w.accepting[j := r.value], place := Move(w.place, r.value.dial, Accepting))
    case Answer(j) =>
      var d := w.accepting[j].dial;
      w.(f := SendSdp(w.f, j, "", AnswerSdp(d)).0, accepting := w.accepting - {j}, place := Move(w.place, d, Answered))
    case DropOffer(j) =>
      w.(accepting := w.accepting - {j}, place := Move(w.place, w.accepting[j].dial, Consumed))
    case TakeAnswer(d) =>
      var (f, r) := RecvSdp(w.f, w.dials[d].0, w.dials[d].1);
      w.(f := f, waiting := w.waiting - {d}, place := Move(w.place, r.value.dial, Consumed))
  }

  // ---- Routing: holds in every run ----

  ghost predicate At(w: World, d: nat, i: PeerId, j: PeerId, p: Place) {
    d < |w.dials| && d < |w.place| && w.dials[d] == (i, j) && w.place[d] == p
  }

  /** Node j's inbox holds offers only, each of a distinct dial from its source to j. */
  ghost predicate OffersOk(w: World, j: PeerId) {
    var q := Offers(w.f, j);
    && (forall k :: 0 <= k < |q| ==> q[k].data.OfferSdp? && q[k].source != "" && At(w, q[k].data.dial, q[k].source, j, Offered))
    && (forall k, m :: 0 <= k < m < |q| ==> q[k].data != q[m].data)
  }

  /** The offer j is working on is one from the peer its replies go to. */
  ghost predicate AcceptingOk(w: World, j: PeerId) {
    j in w.accepting ==>
      && w.accepting[j].OfferSdp? && j in w.f.lastRemote && w.f.lastRemote[j] != ""
      && At(w, w.accepting[j].dial, w.f.lastRemote[j], j, Accepting)
  }

  /** Answers from j waiting at i answer distinct dials from i to j. */
  ghost predicate AnswersOk(w: World, i: PeerId, j: PeerId) {
    var q := Answers(w.f, i, j);
    && (forall k :: 0 <= k < |q| ==> q[k].AnswerSdp? && At(w, q[k].dial, i, j, Answered))
    && (forall k, m :: 0 <= k < m < |q| ==> q[k] != q[m])
  }

  ghost predicate Routed(w: World) {
    && |w.place| == |w.dials|
    && (forall d :: 0 <= d < |w.dials| ==> w.dials[d].1 != "")
    && (forall d :: d in w.waiting ==> d < |w.dials|)
    && (forall j :: OffersOk(w, j))
    && (forall j :: AcceptingOk(w, j))
    && (forall i, j :: AnswersOk(w, i, j))
  }

  const QUIET := World(Fabric(map[], map[], map[]), [], [], {}, map[])

  lemma DialRoutes(w: World, i: PeerId, j: PeerId)
    requires Routed(w) && Enabled(w, Dial(i, j))
    ensures Routed(Step(w, Dial(i, j)))
  {
    var w' := Step(w, Dial(i, j));
    forall p ensures OffersOk(w', p) {
      assert OffersOk(w, p);
    }
    forall p ensures AcceptingOk(w', p) {
      assert AcceptingOk(w, p);
    }
    forall p, r ensures AnswersOk(w', p, r) {
      assert AnswersOk(w, p, r);
    }
  }

  lemma TakeOfferRoutes(w: World, j: PeerId)
    requires Routed(w) && Enabled(w, TakeOffer(j))
    ensures Routed(Step(w, TakeOffer(j)))
  {
    var w' := Step(w, TakeOffer(j));
    assert OffersOk(w, j);
    forall p ensures OffersOk(w', p) {
      assert OffersOk(w, p);
    }
    forall p ensures AcceptingOk(w', p) {
      assert AcceptingOk(w, p);
    }
    forall p, r ensures AnswersOk(w', p, r) {
      assert AnswersOk(w, p, r);
    }
  }

  lemma AnswerRoutes(w: World, j: PeerId)
    requires Routed(w) && Enabled(w, Answer(j))
    ensures Routed(Step(w, Answer(j)))
  {
    var w' := Step(w, Answer(j));
    assert AcceptingOk(w, j);
    forall p ensures OffersOk(w', p) {
      assert OffersOk(w, p);
    }
    forall p ensures AcceptingOk(w', p) {
      assert AcceptingOk(w, p);
    }
    forall p, r ensures AnswersOk(w', p, r) {
      assert AnswersOk(w, p, r);
    }
  }

  lemma DropOfferRoutes(w: World, j: PeerId)
    requires Routed(w) && Enabled(w, DropOffer(j))
    ensures Routed(Step(w, DropOffer(j)))
  {
    var w' := Step(w, DropOffer(j));
    assert AcceptingOk(w, j);
    forall p ensures OffersOk(w', p) {
      assert OffersOk(w, p);
    }
    forall p ensures AcceptingOk(w', p) {
      assert AcceptingOk(w, p);
    }
    forall p, r ensures AnswersOk(w', p, r) {
      assert AnswersOk(w, p, r);
    }
  }

  lemma TakeAnswerRoutes(w: World, d: nat)
    requires Routed(w) && Enabled(w, TakeAnswer(d))
    ensures Routed(Step(w, TakeAnswer(d)))
  {
    var w' := Step(w, TakeAnswer(d));
    assert AnswersOk(w, w.dials[d].0, w.dials[d].1);
    forall p ensures OffersOk(w', p) {
      assert OffersOk(w, p);
    }
    forall p ensures AcceptingOk(w', p) {
      assert AcceptingOk(w, p);
    }
    forall p, r ensures AnswersOk(w', p, r) {
      assert AnswersOk(w, p, r);
    }
  }

  lemma StepRoutes(w: World, a: Action)
    requires Routed(w) && Enabled(w, a)
    ensures Routed(Step(w, a))
  {
    hide Routed, Enabled, Step;
    match a
    case Dial(i, j) => DialRoutes(w, i, j);
    case TakeOffer(j) => TakeOfferRoutes(w, j);
    case Answer(j) => AnswerRoutes(w, j);
    case DropOffer(j) => DropOfferRoutes(w, j);
    case TakeAnswer(d) => TakeAnswerRoutes(w, d);
  }

  // ---- Matching: holds where no pair has two outstanding dials ----

  /** This dial is the only outstanding one of its pair. */
  ghost predicate Alone(w: World, d: nat) {
    d < |w.dials| && forall e :: e in w.waiting && e < |w.dials| && w.dials[e] == w.dials[d] ==> e == d
  }

  ghost predicate Matched(w: World) {
    && (forall d :: d in w.waiting ==> Alone(w, d))
    && (forall d :: 0 <= d < |w.place| && w.place[d] != Consumed ==> d in w.waiting)
  }

  /** A dial is made only while none is outstanding for the same pair. */
  ghost predicate Single(w: World, a: Action) {
    a.Dial? ==> forall e :: e in w.waiting && e < |w.dials| ==> w.dials[e] != (a.caller, a.callee)
  }

  lemma AnswerIsOwn(w: World, d: nat)
    requires Routed(w) && Matched(w) && d in w.waiting && Answers(w.f, w.dials[d].0, w.dials[d].1) != []
    ensures Answers(w.f, w.dials[d].0, w.dials[d].1) == [AnswerSdp(d)]
  {
    var (i, j) := w.dials[d];
    var q := Answers(w.f, i, j);
    assert AnswersOk(w, i, j) && Alone(w, d);
    forall k | 0 <= k < |q| ensures q[k] == AnswerSdp(d) {
      assert At(w, q[k].dial, i, j, Answered);
    }
    assert q[0] == q[|q| - 1];
  }

  lemma StepMatches(w: World, a: Action)
    requires Routed(w) && Matched(w) && Enabled(w, a) && Single(w, a)
    ensures Matched(Step(w, a))
  {
    var w' := Step(w, a);
    match a {
      case Dial(i, j) =>
      case TakeOffer(j) => assert OffersOk(w, j);
      case Answer(j) => assert AcceptingOk(w, j);
      case DropOffer(j) => assert AcceptingOk(w, j);
      case TakeAnswer(d) => AnswerIsOwn(w, d);
    }
    forall d | d in w'.waiting ensures Alone(w', d) {
      assert d in w.waiting ==> Alone(w, d);
    }
  }

  // ---- Runs ----

  ghost predicate CanRun(w: World, acts: seq<Action>)
    decreases |acts|
  {
    acts == [] || (Enabled(w, acts[0]) && CanRun(Step(w, acts[0]), acts[1..]))
  }

  ghost function Run(w: World, acts: seq<Action>): World
    requires CanRun(w, acts)
    decreases |acts|
  {
    if acts == [] then w else Run(Step(w, acts[0]), acts[1..])
  }

  ghost predicate AllSingle(w: World, acts: seq<Action>)
    requires CanRun(w, acts)
    decreases |acts|
  {
    acts == [] || (Single(w, acts[0]) && AllSingle(Step(w, acts[0]), acts[1..]))
  }

  lemma {:induction false} RunKeeps(w: World, acts: seq<Action>)
    requires Routed(w) && CanRun(w, acts)
    ensures Routed(Run(w, acts))
    ensures Matched(w) && AllSingle(w, acts) ==> Matched(Run(w, acts))
    decreases |acts|
  {
    hide Routed, Matched, Step, Enabled, Single;
    if acts != [] {
      StepRoutes(w, acts[0]);
      if Matched(w) && AllSingle(w, acts) {
        StepMatches(w, acts[0]);
      }
      RunKeeps(Step(w, acts[0]), acts[1..]);
    }
  }

  /** Over every run of any number of nodes and dials: an accept loop receives offers only, made to
      it by the peer its reply will go to; the reply is queued at that peer, under the answering
      node; and a caller receives an answer only, to some dial of its own to the same callee. */
  lemma AnswersRouted(acts: seq<Action>, j: PeerId, d: nat)
    requires CanRun(QUIET, acts)
    ensures var w := Run(QUIET, acts);
      && (Enabled(w, TakeOffer(j)) ==>
            var (f, r) := RecvSdp(w.f, j, "");
            r.value.OfferSdp? && r.value.dial < |w.dials| && w.dials[r.value.dial] == (f.lastRemote[j], j))
      && (j in w.accepting ==>
            var e := w.accepting[j].dial;
            && w.accepting[j] == OfferSdp(e) && e < |w.dials| && w.dials[e].1 == j
            && var (f, r) := SendSdp(w.f, j, "", AnswerSdp(e));
               !r.Fails? && (r.Done? ==> Answers(f, w.dials[e].0, j) == Answers(w.f, w.dials[e].0, j) + [AnswerSdp(e)]))
      && (Enabled(w, TakeAnswer(d)) ==>
            var sdp := RecvSdp(w.f, w.dials[d].0, w.dials[d].1).1.value;
            sdp.AnswerSdp? && sdp.dial < |w.dials| && w.dials[sdp.dial] == w.dials[d])
  {
    assert Routed(QUIET);
    RunKeeps(QUIET, acts);
    var w := Run(QUIET, acts);
    assert OffersOk(w, j) && AcceptingOk(w, j);
    if Enabled(w, TakeAnswer(d)) {
      assert AnswersOk(w, w.dials[d].0, w.dials[d].1);
    }
  }

  /** With at most one outstanding dial per ordered pair, a caller receives the answer to that very
      dial, and an accept loop's answer never blocks. */
  lemma AnswersMatchDials(acts: seq<Action>, j: PeerId, d: nat)
    requires CanRun(QUIET, acts) && AllSingle(QUIET, acts)
    ensures var w := Run(QUIET, acts);
      && (Enabled(w, TakeAnswer(d)) ==> RecvSdp(w.f, w.dials[d].0, w.dials[d].1).1 == Done(AnswerSdp(d)))
      && (Enabled(w, DropOffer(j)) ==> Enabled(w, Answer(j)))
  {
    assert Routed(QUIET) && Matched(QUIET);
    RunKeeps(QUIET, acts);
    var w := Run(QUIET, acts);
    if Enabled(w, TakeAnswer(d)) {
      AnswerIsOwn(w, d);
    }
    if j in w.accepting {
      assert AcceptingOk(w, j);
      var e := w.accepting[j].dial;
      if Answers(w.f, w.dials[e].0, j) != [] {
        AnswerIsOwn(w, e);
      }
    }
  }

  // ---- A second outstanding dial of a pair can always be crossed ----

  /** After these steps, all taken without a dial too many, some caller receives another dial's answer. */
  ghost predicate Crosses(w: World, acts: seq<Action>, d: nat) {
    && CanRun(w, acts) && AllSingle(w, acts)
    && Enabled(Run(w, acts), TakeAnswer(d))
    && var z := Run(w, acts); RecvSdp(z.f, z.dials[d].0, z.dials[d].1).1 != Done(AnswerSdp(d))
  }

  /** The accept loop gives up on all offers but the last of the `n` in its queue, which it answers. */
  function DropAllButLast(j: PeerId, n: nat): seq<Action> {
    if n <= 1 then [TakeOffer(j), Answer(j)] else [TakeOffer(j), DropOffer(j)] + DropAllButLast(j, n - 1)
  }

  lemma RunTwo(w: World, a: Action, b: Action, rest: seq<Action>)
    requires !a.Dial? && !b.Dial? && Enabled(w, a) && Enabled(Step(w, a), b)
    requires CanRun(Step(Step(w, a), b), rest) && AllSingle(Step(Step(w, a), b), rest)
    ensures CanRun(w, [a, b] + rest) && AllSingle(w, [a, b] + rest)
    ensures Run(w, [a, b] + rest) == Run(Step(Step(w, a), b), rest)
  {
    hide Enabled, Step;
    var acts := [a, b] + rest;
    assert acts[1..] == [b] + rest && acts[1..][1..] == rest;
    assert Single(w, a) && Single(Step(w, a), b);
  }

  /** Node j is free, its queue ends with offer `d` from i, no answer from j waits at i, and dial `e`
      from i to j is outstanding. */
  ghost predicate Primed(w: World, i: PeerId, j: PeerId, d: nat, e: nat) {
    && i != "" && j != "" && j !in w.accepting && Answers(w.f, i, j) == []
    && Offers(w.f, j) != [] && Offers(w.f, j)[|Offers(w.f, j)| - 1] == OfferFrame(i, OfferSdp(d))
    && e in w.waiting && e < |w.dials| && w.dials[e] == (i, j)
  }

  lemma DropFirst(w: World, i: PeerId, j: PeerId, d: nat, e: nat)
    requires Primed(w, i, j, d, e) && |Offers(w.f, j)| > 1
    ensures Enabled(w, TakeOffer(j)) && Enabled(Step(w, TakeOffer(j)), DropOffer(j))
    ensures var z := Step(Step(w, TakeOffer(j)), DropOffer(j));
      Primed(z, i, j, d, e) && |Offers(z.f, j)| == |Offers(w.f, j)| - 1
  {
  }

  lemma AnswerLast(w: World, i: PeerId, j: PeerId, d: nat, e: nat)
    requires Primed(w, i, j, d, e) && |Offers(w.f, j)| == 1
    ensures Enabled(w, TakeOffer(j)) && Enabled(Step(w, TakeOffer(j)), Answer(j))
    ensures var z := Step(Step(w, TakeOffer(j)), Answer(j));
      Enabled(z, TakeAnswer(e)) && z.dials == w.dials && Answers(z.f, i, j) == [AnswerSdp(d)]
  {
  }

  lemma {:induction false} LastAnswered(w: World, i: PeerId, j: PeerId, d: nat, e: nat)
    requires Primed(w, i, j, d, e) && d != e
    ensures Crosses(w, DropAllButLast(j, |Offers(w.f, j)|), e)
    decreases |Offers(w.f, j)|
  {
    hide Enabled, Step;
    var n := |Offers(w.f, j)|;
    if n == 1 {
      AnswerLast(w, i, j, d, e);
      RunTwo(w, TakeOffer(j), Answer(j), []);
      assert [TakeOffer(j), Answer(j)] + [] == [TakeOffer(j), Answer(j)];
    } else {
      DropFirst(w, i, j, d, e);
      var z := Step(Step(w, TakeOffer(j)), DropOffer(j));
      LastAnswered(z, i, j, d, e);
      RunTwo(w, TakeOffer(j), DropOffer(j), DropAllButLast(j, n - 1));
    }
  }

  lemma DialPrimes(w: World, i: PeerId, j: PeerId, e: nat)
    requires Routed(w) && Enabled(w, Dial(i, j)) && j !in w.accepting && Answers(w.f, i, j) == []
    requires e in w.waiting && e < |w.dials| && w.dials[e] == (i, j)
    ensures Primed(Step(w, Dial(i, j)), i, j, |w.dials|, e)
  {
  }

  /** With no answer waiting, the outstanding dial can be made to take the new dial's answer. */
  lemma OldTakesNew(w: World, i: PeerId, j: PeerId, e: nat)
    requires Routed(w) && Enabled(w, Dial(i, j)) && Answers(w.f, i, j) == []
    requires e in w.waiting && e < |w.dials| && w.dials[e] == (i, j)
    ensures exists acts :: Crosses(Step(w, Dial(i, j)), acts, e)
  {
    hide Crosses;
    var u := Step(w, Dial(i, j));
    if j in w.accepting {
      var v := Step(u, DropOffer(j));
      assert Primed(v, i, j, |w.dials|, e);
      var acts := DropAllButLast(j, |Offers(v.f, j)|);
      LastAnswered(v, i, j, |w.dials|, e);
      CrossLater(u, DropOffer(j), acts, e);
    } else {
      DialPrimes(w, i, j, e);
      LastAnswered(u, i, j, |w.dials|, e);
    }
  }

  lemma CrossLater(w: World, a: Action, acts: seq<Action>, d: nat)
    requires Enabled(w, a) && !a.Dial? && Crosses(Step(w, a), acts, d)
    ensures Crosses(w, [a] + acts, d)
  {
    hide Enabled, Step;
    assert ([a] + acts)[1..] == acts;
    assert Single(w, a);
  }

  /** With an answer waiting, the new dial can take it. */
  lemma NewTakesOld(w: World, i: PeerId, j: PeerId)
    requires Routed(w) && Enabled(w, Dial(i, j)) && Answers(w.f, i, j) != []
    ensures Crosses(Step(w, Dial(i, j)), [], |w.dials|)
  {
    assert AnswersOk(w, i, j);
    var u := Step(w, Dial(i, j));
    assert Answers(u.f, i, j) == Answers(w.f, i, j);
    assert At(w, Answers(w.f, i, j)[0].dial, i, j, Answered);
    assert Run(u, []) == u;
  }

  /** The condition is exact: in any world that single dials lead to, one more dial is safe, whatever
      single dials follow, if and only if no dial of its pair is outstanding. */
  lemma DialSafeExactly(acts: seq<Action>, i: PeerId, j: PeerId)
    requires CanRun(QUIET, acts) && AllSingle(QUIET, acts) && Enabled(Run(QUIET, acts), Dial(i, j))
    ensures var w := Run(QUIET, acts);
      Single(w, Dial(i, j)) <==> !exists later, d :: Crosses(Step(w, Dial(i, j)), later, d)
  {
    assert Routed(QUIET) && Matched(QUIET);
    hide Routed, Matched, Step, Enabled, Crosses;
    RunKeeps(QUIET, acts);
    var w := Run(QUIET, acts);
    var u := Step(w, Dial(i, j));
    if Single(w, Dial(i, j)) {
      StepRoutes(w, Dial(i, j));
      StepMatches(w, Dial(i, j));
      forall later, d ensures !Crosses(u, later, d) {
        NeverCrosses(u, later, d);
      }
    } else if Answers(w.f, i, j) != [] {
      NewTakesOld(w, i, j);
    } else {
      var e :| e in w.waiting && e < |w.dials| && w.dials[e] == (i, j);
      OldTakesNew(w, i, j, e);
    }
  }

  lemma NeverCrosses(w: World, acts: seq<Action>, d: nat)
    requires Routed(w) && Matched(w)
    ensures !Crosses(w, acts, d)
  {
    hide Routed, Matched, Step;
    if CanRun(w, acts) && AllSingle(w, acts) {
      RunKeeps(w, acts);
      var z := Run(w, acts);
      if Enabled(z, TakeAnswer(d)) {
        TakesOwn(z, d);
      }
    }
  }

  lemma TakesOwn(z: World, d: nat)
    requires Routed(z) && Matched(z) && Enabled(z, TakeAnswer(d))
    ensures RecvSdp(z.f, z.dials[d].0, z.dials[d].1).1 == Done(AnswerSdp(d))
  {
    AnswerIsOwn(z, d);
  }

  /** The shortest crossing: of two dials from "a" to "b" the second may take the first's answer. */
  lemma CrossedAnswers()
    ensures var acts := [Dial("a", "b"), Dial("a", "b"), TakeOffer("b"), Answer("b")];
      && CanRun(QUIET, acts)
      && Enabled(Run(QUIET, acts), TakeAnswer(1))
      && RecvSdp(Run(QUIET, acts).f, "a", "b").1 == Done(AnswerSdp(0))
  {
    var acts := [Dial("a", "b"), Dial("a", "b"), TakeOffer("b"), Answer("b")];
    var w1 := Step(QUIET, acts[0]);
    var w2 := Step(w1, acts[1]);
    var w3 := Step(w2, acts[2]);
    var w4 := Step(w3, acts[3]);
    assert acts[1..][1..][1..][1..] == [];
    assert Run(w4, []) == w4;
    assert Run(w3, acts[3..]) == w4 && acts[2..][1..] == acts[3..];
    assert Run(w2, acts[2..]) == w4 && acts[1..][1..] == acts[2..];
  }
}
