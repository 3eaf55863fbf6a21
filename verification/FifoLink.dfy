/** Two endpoints joined by an ordered channel in each direction, either of which may speak first. A write
may fail after its message was sealed, which leaves a gap in the ratchet chain. */
module FifoLink {
  import opened Primitives
  import opened RatchetModel
  import opened Epochs
  import opened Agreement

  /** One direction: what is in the channel, the plaintexts sent into it and received from it, and what
      was sealed but never got into it. */
  datatype Pipe = Pipe(queue: seq<Slot>, sent: seq<Bytes>, got: seq<Bytes>, lost: set<Slot>)

  datatype Conversation = Conversation(y: System, fromAlice: Pipe, fromBob: Pipe) {
    function From(p: Party): Pipe {
      if p == Alice then fromAlice else fromBob
    }

    function WithPipe(p: Party, q: Pipe): Conversation {
      if p == Alice then this.(fromAlice := q) else this.(fromBob := q)
    }
  }

  datatype Event =
    | Speak(who: Party, plaintext: Bytes)
    | Lose(who: Party, plaintext: Bytes)
    | Hear(source: Party, generated: Bytes)

  /** Gaps stay within the skip limit, and the responder loses nothing of what it says before it has
      heard the initiator, where no gap can be skipped. */
  predicate Bearable(c: Conversation, p: Party)
    requires 2 <= |c.y.h.keys|
  {
    |c.From(p).lost| < 1000 && (p == Bob ==> EpochOf(c.y.h, p) > 0)
  }

  predicate Possible(c: Conversation, a: Event) {
    && 2 <= |c.y.h.keys| == |c.y.h.lens|
    && match a
       case Speak(p, _) => c.y.Of(p).ns + 1 + 1000 < U32_LIMIT
       case Lose(p, _) => c.y.Of(p).ns + 1 + 1000 < U32_LIMIT && Bearable(c, p)
       case Hear(p, k) => c.From(p).queue != [] && c.From(p).queue[0] in c.y.log && FreshKey(c.y, k)
  }

  function Next(c: Conversation, a: Event): Conversation
    requires Possible(c, a)
  {
    match a
    case Speak(p, pt) =>
      var q := c.From(p);
      c.WithPipe(p, q.(queue := q.queue + [Slot(EpochOf(c.y.h, p), c.y.Of(p).ns)], sent := q.sent + [pt]))
       .(y := DoSend(c.y, p, pt))
    case Lose(p, pt) =>
      var q := c.From(p);
      c.WithPipe(p, q.(lost := q.lost + {Slot(EpochOf(c.y.h, p), c.y.Of(p).ns)})).(y := DoSend(c.y, p, pt))
    case Hear(p, k) =>
      var q := c.From(p);
      var r := Opening(c.y, q.queue[0], k).1;
      c.WithPipe(p, q.(queue := q.queue[1..], got := if r.Ok? then q.got + [r.value] else q.got))
       .(y := DoDeliver(c.y, q.queue[0], k))
  }

  predicate Earlier(a: Slot, b: Slot) {
    a.epoch < b.epoch || (a.epoch == b.epoch && a.n < b.n)
  }

  /** The channel holds exactly what `p` sent into it and its peer has not accepted, in order. */
  ghost predicate Waiting(y: System, p: Party, q: seq<Slot>, lost: set<Slot>) {
    && (forall x :: x in q <==> x in y.log && Owner(x.epoch) == p && x !in y.AcceptedBy(Peer(p)) && x !in lost)
    && (forall i, j :: 0 <= i < j < |q| ==> Earlier(q[i], q[j]))
  }

  ghost predicate LostOk(y: System, p: Party, lost: set<Slot>) {
    && |lost| <= 1000
    && (forall x :: x in lost ==> x in y.log && (p == Bob ==> x.epoch > 0))
  }

  function Texts(log: map<Slot, Packet>, q: seq<Slot>): seq<Bytes>
    requires forall x :: x in q ==> x in log
  {
    seq(|q|, i requires 0 <= i < |q| => log[q[i]].plaintext)
  }

  ghost predicate PipeOk(y: System, p: Party, q: Pipe) {
    Waiting(y, p, q.queue, q.lost) && LostOk(y, p, q.lost) && q.sent == q.got + Texts(y.log, q.queue)
  }

  ghost predicate Flowing(c: Conversation) {
    Inv(c.y) && PipeOk(c.y, Alice, c.fromAlice) && PipeOk(c.y, Bob, c.fromBob)
  }

  // ---- The head of a channel opens ----

  lemma HeadIsNext(y: System, p: Party, q: seq<Slot>, lost: set<Slot>)
    requires Waiting(y, p, q, lost) && q != []
    ensures q[0] in y.log && Owner(q[0].epoch) == p && q[0] !in y.AcceptedBy(Peer(p))
    ensures OnlyLostBefore(y, p, q[0], lost)
  {
    assert q[0] in q;
    hide Owner;
    forall i | 0 <= i < |q| ensures !Earlier(q[i], q[0]) {
      assert i == 0 || Earlier(q[0], q[i]);
    }
    forall w | w in y.log && Owner(w.epoch) == p && w !in y.AcceptedBy(Peer(p)) && Earlier(w, q[0]) ensures w in lost {
      assert w in q || w in lost;
    }
  }

  lemma {:induction false} GapSize(lost: set<Slot>, epoch: nat, a: U32, b: U32)
    requires a <= b && forall i: U32 :: a <= i < b ==> Slot(epoch, i) in lost
    ensures b - a <= |lost|
    decreases b
  {
    if a < b {
      GapSize(lost - {Slot(epoch, b - 1)}, epoch, a, b - 1);
    }
  }

  /** The messages of one epoch from `a` up to `b`, not yet passed and earlier than the head, are lost. */
  lemma GapLost(y: System, p: Party, x: Slot, lost: set<Slot>, epoch: nat, a: U32, b: U32)
    requires Inv(y) && LostOk(y, p, lost) && epoch < |y.h.keys| && Owner(epoch) == p && Owner(x.epoch) == p && a <= b
    requires OnlyLostBefore(y, p, x, lost)
    requires 2 <= |y.h.keys| == |y.h.lens| && b <= y.h.lens[epoch] && (epoch < x.epoch || (epoch == x.epoch && b <= x.n))
    requires forall i: U32 :: a <= i < b ==> !HasPassed(y, Peer(p), Slot(epoch, i))
    ensures b - a <= 1000 && (p == Bob && epoch == 0 ==> a == b)
  {
    hide SideOk, Owner, HasPassed;
    forall i: U32 | a <= i < b ensures Slot(epoch, i) in lost {
      PassedView(y, Peer(p), Slot(epoch, i));
      assert Slot(epoch, i) in y.log;
    }
    GapSize(lost, epoch, a, b);
    if a < b {
      assert Slot(epoch, a) in lost;
    }
  }

  /** Whatever precedes `x` and is not accepted is lost. */
  ghost predicate OnlyLostBefore(y: System, p: Party, x: Slot, lost: set<Slot>) {
    forall w :: w in y.log && Owner(w.epoch) == p && w !in y.AcceptedBy(Peer(p)) && Earlier(w, x) ==> w in lost
  }

  /** The messages of one epoch that the peer has not passed, up to `b`. */
  lemma GapBefore(y: System, p: Party, x: Slot, lost: set<Slot>, epoch: nat, b: U32)
    requires Inv(y) && LostOk(y, p, lost) && OnlyLostBefore(y, p, x, lost) && Owner(x.epoch) == p && Owner(epoch) == p
    requires epoch < |y.h.keys| == |y.h.lens| && 2 <= |y.h.keys| && b <= y.h.lens[epoch]
    requires epoch < x.epoch || (epoch == x.epoch && b <= x.n)
    requires epoch + 1 >= EpochOf(y.h, Peer(p))
    ensures var a := if epoch + 1 == EpochOf(y.h, Peer(p)) then y.Of(Peer(p)).nr else 0;
      a < b ==> b - a <= 1000 && !(p == Bob && epoch == 0)
  {
    hide Inv, LostOk, Owner, EpochOf;
    var a := if epoch + 1 == EpochOf(y.h, Peer(p)) then y.Of(Peer(p)).nr else 0;
    if a < b {
      GapLost(y, p, x, lost, epoch, a, b);
    }
  }

  lemma OwnerTwoBack(e: nat)
    requires e >= 1
    ensures Owner(e + 1) == Owner(e - 1) && (e == 1 ==> Owner(e - 1) == Bob)
  {
  }

  /** The gaps before a message all of whose unaccepted predecessors are lost. */
  lemma HeadGaps(y: System, p: Party, x: Slot, lost: set<Slot>)
    requires Inv(y) && LostOk(y, p, lost) && OnlyLostBefore(y, p, x, lost) && x in y.log && Owner(x.epoch) == p
    ensures 2 <= |y.h.keys| == |y.h.lens| && x.epoch < |y.h.keys|
    ensures var s, e := y.Of(Peer(p)), EpochOf(y.h, Peer(p));
      && (x.epoch == e + 1 ==> x.n <= 1000 && PreviousLength(y.h, x.epoch) <= s.nr + 1000
                               && (s.nr == 0 && e <= 1 ==> PreviousLength(y.h, x.epoch) == 0))
      && (x.epoch + 1 == e ==> x.n <= s.nr + 1000 && (s.nr == 0 && e <= 1 ==> x.n == 0))
  {
    hide Inv, Endpoint, LostOk, EpochOf, Good, WireAt, Owner, OnlyLostBefore;
    HeadEndpoint(y, Peer(p), x);
    var e, c := EpochOf(y.h, Peer(p)), x.epoch;
    if c == e + 1 {
      GapBefore(y, p, x, lost, c, x.n);
      if e >= 1 {
        OwnerTwoBack(e);
        GapBefore(y, p, x, lost, e - 1, y.h.lens[e - 1]);
      }
    } else if c + 1 == e {
      OwnerTwoBack(e);
      GapBefore(y, p, x, lost, c, x.n);
    }
  }

  lemma HeadReach(y: System, p: Party, q: seq<Slot>, lost: set<Slot>)
    requires Inv(y) && Waiting(y, p, q, lost) && LostOk(y, p, lost) && q != []
    ensures q[0] in y.log && InStepAt(y, q[0])
    ensures WithinLimit(y.Of(Peer(p)), y.log[q[0]].wire.header) && Owner(q[0].epoch) == p
  {
    hide Inv, Endpoint, Waiting, LostOk, WithinLimit, InStep, KeyAt, IdAt, EpochOf, Good, InConversation, PreviousLength, OnlyLostBefore;
    var x, r := q[0], Peer(p);
    HeadIsNext(y, p, q, lost);
    HeadEndpoint(y, r, x);
    HeadGaps(y, p, x, lost);
    EpochOwner(y.h, r);
    NilPosition(y.h, y.AcceptedBy(r), y.Of(r), EpochOf(y.h, r));
    StoreAt(y, r, x);
    WithinReach(y.h, y.AcceptedBy(r), y.Of(r), EpochOf(y.h, r), x, y.log[x].plaintext);
  }

  lemma HeadEndpoint(y: System, r: Party, x: Slot)
    requires Inv(y) && x in y.log && Owner(x.epoch) == Peer(r)
    ensures 2 <= |y.h.keys| == |y.h.lens| && Good(y.h) && InConversation(y.h, x) && x.n < y.h.lens[x.epoch]
    ensures var e := EpochOf(y.h, r);
      e < |y.h.keys| <= e + 2 && Endpoint(y.h, y.AcceptedBy(r), y.Of(r), e) && (e >= 1 ==> y.Of(r).nr <= y.h.lens[e - 1])
    ensures y.log[x].wire == WireAt(y.h, x, y.log[x].plaintext)
  {
    hide Stores, Root, KeyAt, Passed, WireAt, AllValid, Chain;
    assert SideOk(y, r);
  }

  lemma HeadOpens(y: System, p: Party, q: seq<Slot>, lost: set<Slot>, k: Bytes)
    requires Inv(y) && Waiting(y, p, q, lost) && LostOk(y, p, lost) && q != [] && FreshKey(y, k)
    ensures q[0] in y.log && Opening(y, q[0], k).1 == Ok(y.log[q[0]].plaintext) && Inv(DoDeliver(y, q[0], k))
  {
    hide Inv, Waiting, LostOk, Opening, DoDeliver, WithinLimit, InStep, FreshKey;
    HeadIsNext(y, p, q, lost);
    HeadReach(y, p, q, lost);
    DeliverKeeps(y, q[0], k);
  }

  // ---- Every event keeps the channels right ----

  lemma HearPipe(y: System, z: System, p: Party, q: Pipe, x: Slot)
    requires PipeOk(y, p, q) && q.queue != [] && x == q.queue[0] && z.log == y.log
    requires z.AcceptedBy(Peer(p)) == y.AcceptedBy(Peer(p)) + {x} && x in y.log
    ensures PipeOk(z, p, q.(queue := q.queue[1..], got := q.got + [y.log[x].plaintext]))
  {
    hide Owner;
    var tail := q.queue[1..];
    forall w ensures w in tail <==> w in z.log && Owner(w.epoch) == p && w !in z.AcceptedBy(Peer(p)) && w !in q.lost {
      assert w in q.queue <==> w in y.log && Owner(w.epoch) == p && w !in y.AcceptedBy(Peer(p)) && w !in q.lost;
      if w in tail {
        var i :| 0 <= i < |tail| && tail[i] == w;
        assert Earlier(q.queue[0], q.queue[i + 1]);
      }
    }
    assert Texts(y.log, q.queue) == [y.log[x].plaintext] + Texts(y.log, tail);
  }

  lemma HearKeeps(c: Conversation, p: Party, k: Bytes)
    requires Flowing(c) && Possible(c, Hear(p, k))
    ensures Flowing(Next(c, Hear(p, k)))
  {
    hide Inv, Waiting, LostOk, PipeOk, Opening, DoDeliver, FreshKey;
    var q := c.From(p);
    var x := q.queue[0];
    var z := DoDeliver(c.y, x, k);
    assert PipeOk(c.y, p, q);
    PipeTexts(c.y, p, q);
    HeadIsNext(c.y, p, q.queue, q.lost);
    HeadOpens(c.y, p, q.queue, q.lost, k);
    DeliverFrame(c.y, x, k);
    HearPipe(c.y, z, p, q, x);
    PipeSame(c.y, z, Peer(p), c.From(Peer(p)));
  }

  lemma PipeSame(y: System, z: System, p: Party, q: Pipe)
    requires PipeOk(y, p, q) && z.log == y.log && z.AcceptedBy(Peer(p)) == y.AcceptedBy(Peer(p))
    ensures PipeOk(z, p, q)
  {
  }

  lemma SpeakPipe(y: System, z: System, p: Party, q: Pipe, x: Slot, packet: Packet)
    requires PipeOk(y, p, q) && z.log == y.log[x := packet] && x !in y.log && Owner(x.epoch) == p
    requires x !in y.AcceptedBy(Peer(p)) && z.AcceptedBy(Peer(p)) == y.AcceptedBy(Peer(p))
    requires forall w :: w in y.log && Owner(w.epoch) == p ==> Earlier(w, x)
    ensures PipeOk(z, p, q.(queue := q.queue + [x], sent := q.sent + [packet.plaintext]))
  {
    hide Owner;
    var longer := q.queue + [x];
    forall w ensures w in longer <==> w in z.log && Owner(w.epoch) == p && w !in z.AcceptedBy(Peer(p)) && w !in q.lost {
      assert w in q.queue <==> w in y.log && Owner(w.epoch) == p && w !in y.AcceptedBy(Peer(p)) && w !in q.lost;
    }
    forall i, j | 0 <= i < j < |longer| ensures Earlier(longer[i], longer[j]) {
      assert longer[i] in q.queue;
    }
    assert Texts(z.log, longer) == Texts(y.log, q.queue) + [packet.plaintext];
  }

  lemma LosePipe(y: System, z: System, p: Party, q: Pipe, x: Slot, packet: Packet)
    requires PipeOk(y, p, q) && z.log == y.log[x := packet] && x !in y.log
    requires z.AcceptedBy(Peer(p)) == y.AcceptedBy(Peer(p))
    requires |q.lost| < 1000 && (p == Bob ==> x.epoch > 0)
    ensures PipeOk(z, p, q.(lost := q.lost + {x}))
  {
    hide Owner;
    forall w ensures w in q.queue <==> w in z.log && Owner(w.epoch) == p && w !in z.AcceptedBy(Peer(p)) && w !in q.lost + {x} {
      assert w in q.queue <==> w in y.log && Owner(w.epoch) == p && w !in y.AcceptedBy(Peer(p)) && w !in q.lost;
    }
    assert Texts(z.log, q.queue) == Texts(y.log, q.queue);
  }

  lemma OtherPipe(y: System, z: System, p: Party, q: Pipe, x: Slot, packet: Packet)
    requires PipeOk(y, p, q) && z.log == y.log[x := packet] && x !in y.log && Owner(x.epoch) != p
    requires z.AcceptedBy(Peer(p)) == y.AcceptedBy(Peer(p))
    ensures PipeOk(z, p, q)
  {
    hide Owner;
    forall w ensures w in q.queue <==> w in z.log && Owner(w.epoch) == p && w !in z.AcceptedBy(Peer(p)) && w !in q.lost {
      assert w in q.queue <==> w in y.log && Owner(w.epoch) == p && w !in y.AcceptedBy(Peer(p)) && w !in q.lost;
    }
    assert Texts(z.log, q.queue) == Texts(y.log, q.queue);
  }

  /** A new message comes after all its sender has sent, and nobody has accepted it yet. */
  lemma NewIsLast(y: System, p: Party)
    requires Inv(y)
    ensures 2 <= |y.h.keys| == |y.h.lens|
    ensures var x := Slot(EpochOf(y.h, p), y.Of(p).ns);
      && Owner(x.epoch) == p && x !in y.log && x !in y.AcceptedBy(Peer(p))
      && forall w :: w in y.log && Owner(w.epoch) == p ==> Earlier(w, x)
  {
    assert SideOk(y, p);
    hide Stores, Root, KeyAt, Passed, AllValid, HasPassed;
    EpochOwner(y.h, p);
    var x := Slot(EpochOf(y.h, p), y.Of(p).ns);
    if x in y.AcceptedBy(Peer(p)) {
      PassedView(y, Peer(p), x);
      PassedInLog(y, Peer(p), x);
    }
    forall w | w in y.log && Owner(w.epoch) == p ensures Earlier(w, x) {
      OwnUpTo(y.h, p, w.epoch);
    }
  }

  lemma OwnUpTo(h: History, p: Party, c: nat)
    requires |h.keys| >= 2 && c < |h.keys| && Owner(c) == p
    ensures c <= EpochOf(h, p)
  {
  }

  lemma SpeakKeeps(c: Conversation, p: Party, pt: Bytes)
    requires Flowing(c) && Possible(c, Speak(p, pt))
    ensures Flowing(Next(c, Speak(p, pt)))
  {
    hide Inv, Waiting, LostOk, PipeOk, Encrypt, Owner, EpochOf, Earlier;
    NewIsLast(c.y, p);
    SendKeeps(c.y, p, pt);
    var z := DoSend(c.y, p, pt);
    var x := Slot(EpochOf(c.y.h, p), c.y.Of(p).ns);
    SpeakPipe(c.y, z, p, c.From(p), x, z.log[x]);
    OtherPipe(c.y, z, Peer(p), c.From(Peer(p)), x, z.log[x]);
  }

  lemma LoseKeeps(c: Conversation, p: Party, pt: Bytes)
    requires Flowing(c) && Possible(c, Lose(p, pt))
    ensures Flowing(Next(c, Lose(p, pt)))
  {
    hide Inv, Waiting, LostOk, PipeOk, Encrypt, Owner, EpochOf, Earlier;
    NewIsLast(c.y, p);
    SendKeeps(c.y, p, pt);
    var z := DoSend(c.y, p, pt);
    var x := Slot(EpochOf(c.y.h, p), c.y.Of(p).ns);
    LosePipe(c.y, z, p, c.From(p), x, z.log[x]);
    OtherPipe(c.y, z, Peer(p), c.From(Peer(p)), x, z.log[x]);
  }

  ghost predicate CanFlow(c: Conversation, acts: seq<Event>)
    decreases |acts|
  {
    acts == [] || (Possible(c, acts[0]) && CanFlow(Next(c, acts[0]), acts[1..]))
  }

  ghost function Flow(c: Conversation, acts: seq<Event>): Conversation
    requires CanFlow(c, acts)
    decreases |acts|
  {
    if acts == [] then c else Flow(Next(c, acts[0]), acts[1..])
  }

  lemma {:induction false} FlowKeeps(c: Conversation, acts: seq<Event>)
    requires Flowing(c) && CanFlow(c, acts)
    ensures Flowing(Flow(c, acts))
    decreases |acts|
  {
    hide Flowing, Possible, Next;
    if acts != [] {
      match acts[0] {
        case Speak(p, pt) => SpeakKeeps(c, p, pt);
        case Lose(p, pt) => LoseKeeps(c, p, pt);
        case Hear(p, k) => HearKeeps(c, p, k);
      }
      FlowKeeps(Next(c, acts[0]), acts[1..]);
    }
  }

  const SILENT := Pipe([], [], [], {})

  /** Over every run on ordered channels, whoever speaks first and though writes fail: what was received in
      each direction, followed by what is in the channel, is exactly what was sent into it, and the next
      message opens. */
  lemma EverythingOpens(y: System, acts: seq<Event>, p: Party, k: Bytes)
    requires Established(y) && CanFlow(Conversation(y, SILENT, SILENT), acts)
    ensures var c := Flow(Conversation(y, SILENT, SILENT), acts);
      var q := c.From(p);
      && (forall x :: x in q.queue ==> x in c.y.log)
      && q.sent == q.got + Texts(c.y.log, q.queue)
      && (q.queue != [] && FreshKey(c.y, k) ==> Opening(c.y, q.queue[0], k).1 == Ok(c.y.log[q.queue[0]].plaintext))
  {
    hide Inv, Opening, CanFlow, Flow, Established, Waiting, LostOk, FreshKey;
    StartFlows(y);
    FlowKeeps(Conversation(y, SILENT, SILENT), acts);
    var c := Flow(Conversation(y, SILENT, SILENT), acts);
    PipeTexts(c.y, p, c.From(p));
    if c.From(p).queue != [] && FreshKey(c.y, k) {
      HeadOpens(c.y, p, c.From(p).queue, c.From(p).lost, k);
    }
  }

  lemma StartFlows(y: System)
    requires Established(y)
    ensures Flowing(Conversation(y, SILENT, SILENT))
  {
    hide Inv;
    EstablishedInv(y);
  }

  lemma PipeTexts(y: System, p: Party, q: Pipe)
    requires PipeOk(y, p, q)
    ensures Waiting(y, p, q.queue, q.lost) && LostOk(y, p, q.lost)
    ensures forall x :: x in q.queue ==> x in y.log
    ensures q.sent == q.got + Texts(y.log, q.queue)
  {
  }
}
