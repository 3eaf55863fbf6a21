/** The key schedule of a conversation and what one honest endpoint holds in it.

Ratchet keys are numbered in the order the conversation generates them: key 0 is the
responder's signed prekey, odd keys are the initiator's, even keys the responder's. Each key
opens an epoch, in which its owner sends one chain of messages. Epoch 0 is what the responder
sends before it has received anything; its chain starts from the nil key. */
module Epochs {
  import opened Primitives
  import opened Encoding
  import opened RatchetModel
  import opened Tables

  // ---- Who owns an epoch ----

  datatype Party = Alice | Bob

  function Peer(p: Party): Party {
    if p == Alice then Bob else Alice
  }

  /** Alice is the initiator and owns the odd epochs, Bob the even ones. */
  function Owner(epoch: nat): Party {
    if epoch == 0 then Bob else Peer(Owner(epoch - 1))
  }

  // ---- The key schedule of a conversation ----

  /** History of a conversation: the X3DH secret, the associated data, every ratchet public
      key in order, and how many messages each epoch has sent. */
  datatype History = History(secret: Term, ad: Bytes, keys: seq<Bytes>, lens: seq<U32>)

  predicate AllValid(keys: seq<Bytes>) {
    keys == [] || (AllValid(keys[..|keys| - 1]) && ValidPoint(keys[|keys| - 1]))
  }

  lemma {:induction false} AllValidAt(keys: seq<Bytes>, i: nat)
    requires AllValid(keys) && i < |keys|
    ensures ValidPoint(keys[i])
  {
    if i < |keys| - 1 {
      AllValidAt(keys[..|keys| - 1], i);
    }
  }

  ghost predicate Good(h: History) {
    && |h.keys| >= 2 && |h.lens| == |h.keys|
    && AllValid(h.keys)
    && (forall i, j :: 0 <= i < j < |h.keys| ==> h.keys[i] != h.keys[j])
    && (forall i :: 0 <= i < |h.lens| ==> h.lens[i] + 1000 < U32_LIMIT)
  }

  function Shared(h: History, i: nat): DhOutput
    requires 1 <= i < |h.keys|
  {
    DhOutput({h.keys[i - 1], h.keys[i]})
  }

  function Root(h: History, i: nat): Term
    requires i < |h.keys|
  {
    if i == 0 then h.secret else RootKey(Root(h, i - 1), Shared(h, i))
  }

  function Chain(h: History, i: nat): Term
    requires i < |h.keys|
  {
    if i == 0 then NoKey else ChainKey(Root(h, i - 1), Shared(h, i))
  }

  /** Names the n-th message of an epoch. */
  datatype Slot = Slot(epoch: nat, n: U32)

  predicate InConversation(h: History, x: Slot) {
    x.epoch < |h.keys|
  }

  function KeyAt(h: History, x: Slot): Term {
    if InConversation(h, x) then MessageKey(Advance(Chain(h, x.epoch), x.n)) else NoKey
  }

  function IdAt(h: History, x: Slot): SkipId {
    SkipId(if InConversation(h, x) then h.keys[x.epoch] else [], x.n)
  }

  /** Length of the owner's previous chain, as headers of epoch `c` carry it. */
  function PreviousLength(h: History, c: nat): U32
    requires c < |h.lens|
  {
    if c < 2 then 0 else h.lens[c - 2]
  }

  // ---- What an endpoint in epoch `e` holds ----

  /** The first `k` positions of an epoch. */
  function Line(epoch: nat, k: U32): set<Slot> {
    set n: U32 | n < k :: Slot(epoch, n)
  }

  /** Every position of the peer epochs `e - 1`, `e - 3`, ... */
  function Older(h: History, e: nat): set<Slot>
    requires e <= |h.lens|
  {
    if e == 0 then {} else Line(e - 1, h.lens[e - 1]) + if e == 1 then {} else Older(h, e - 2)
  }

  /** What an endpoint in epoch `e` has moved past: `nr` positions of the peer's current epoch
      and all of the peer's earlier epochs. */
  function Passed(h: History, e: nat, nr: U32): set<Slot>
    requires e <= |h.lens|
  {
    if e == 0 then {} else Line(e - 1, nr) + if e == 1 then {} else Older(h, e - 2)
  }

  ghost predicate Core(h: History, s: State, e: nat)
    requires Good(h) && e < |h.keys|
  {
    && s.ad == h.ad
    && s.dhs == PrivateKey(h.keys[e])
    && s.dhr == (if e == 0 then NilSlice else Slice(h.keys[e - 1]))
    && s.rk == Root(h, e)
    && s.cks == Advance(Chain(h, e), h.lens[e])
    && s.ns == h.lens[e]
    && s.pn == PreviousLength(h, e)
    && (if e == 0 then s.ckr == NoKey && s.nr == 0
        else s.nr <= h.lens[e - 1] && s.ckr == Advance(Chain(h, e - 1), s.nr))
  }

  ghost function Ids(h: History): Slot -> SkipId {
    x => IdAt(h, x)
  }

  ghost function Keys(h: History): Slot -> Term {
    x => KeyAt(h, x)
  }

  /** `m` holds exactly the keys of the positions in `p`. */
  ghost predicate Stores(h: History, p: set<Slot>, m: map<SkipId, Term>) {
    (forall x :: x in p ==> InConversation(h, x)) && Holds(Ids(h), Keys(h), p, m)
  }

  /** `acc` is what the endpoint has accepted. Its skipped store holds exactly the keys of the
      messages it passed over and has not accepted. */
  ghost predicate Endpoint(h: History, acc: set<Slot>, s: State, e: nat)
    requires Good(h) && e < |h.keys|
  {
    && Core(h, s, e)
    && acc <= Passed(h, e, s.nr)
    && Stores(h, Passed(h, e, s.nr) - acc, s.skipped)
  }

  // ---- Messages ----

  function WireAt(h: History, slot: Slot, plaintext: Bytes): Wire
    requires slot.epoch < |h.keys| == |h.lens|
  {
    var hd := Header(Slice(h.keys[slot.epoch]), PreviousLength(h, slot.epoch), slot.n);
    Wire(hd, AeadSeal(KeyAt(h, slot), plaintext, h.ad + hd.Encode()))
  }

  function Grown(h: History, k: Bytes): History {
    h.(keys := h.keys + [k], lens := h.lens + [0])
  }

  /** The condition a receiver can test on its own state and the header alone. */
  predicate WithinLimit(s: State, hd: Header) {
    || hd.Position() in s.skipped
    || (if InCurrentChain(s, hd)
        then hd.n <= s.nr + 1000
        else (s.ckr == NoKey || hd.pn <= s.nr + 1000) && hd.n <= 1000)
  }

  /** Without a receive chain `skip` does nothing, so the endpoint stays in step only with the first
      message of the chain, or with a new key whose owner sent nothing under the one before. The
      receiver can test this on its own state and the header. */
  predicate InStep(s: State, hd: Header) {
    s.ckr == NoKey ==> (if InCurrentChain(s, hd) then hd.n else hd.pn) == 0
  }

  lemma NilChain(h: History, s: State, e: nat)
    requires Good(h) && e < |h.keys| && Core(h, s, e)
    ensures s.ckr == NoKey <==> e == 0 || (e == 1 && s.nr == 0)
  {
  }

  // ---- The skipped store ----

  lemma IdsDistinct(h: History, p: set<Slot>)
    requires Good(h) && forall x :: x in p ==> InConversation(h, x)
    ensures Distinct(Ids(h), p)
  {
  }

  /** A position has a stored key exactly when it is in `p`. */
  lemma StoresOnly(h: History, p: set<Slot>, m: map<SkipId, Term>, x: Slot)
    requires Good(h) && Stores(h, p, m) && InConversation(h, x)
    ensures x in p <==> IdAt(h, x) in m
  {
    IdsDistinct(h, p + {x});
    HoldsOnly(Ids(h), Keys(h), p, m, x);
  }

  lemma {:induction false} RootStable(h: History, g: History, i: nat)
    requires h.keys <= g.keys && h.secret == g.secret && i < |h.keys|
    ensures Root(h, i) == Root(g, i)
  {
    if i > 0 {
      RootStable(h, g, i - 1);
    }
  }

  lemma KeyStable(h: History, g: History, x: Slot)
    requires h.keys <= g.keys && h.secret == g.secret && x.epoch < |h.keys|
    ensures Chain(h, x.epoch) == Chain(g, x.epoch) && KeyAt(h, x) == KeyAt(g, x)
  {
    if x.epoch > 0 {
      RootStable(h, g, x.epoch - 1);
    }
  }

  lemma StoresStable(h: History, g: History, p: set<Slot>, m: map<SkipId, Term>)
    requires h.keys <= g.keys && h.secret == g.secret && Stores(h, p, m)
    ensures Stores(g, p, m)
  {
    forall x | x in p ensures Ids(h)(x) == Ids(g)(x) && Keys(h)(x) == Keys(g)(x) {
      KeyStable(h, g, x);
    }
    HoldsSame(Ids(h), Keys(h), Ids(g), Keys(g), p, m);
  }

  // ---- Positions passed ----

  lemma {:induction false} OlderStable(h: History, g: History, e: nat)
    requires e <= |h.lens| <= |g.lens|
    requires forall c :: 0 <= c < e ==> h.lens[c] == g.lens[c]
    ensures Older(h, e) == Older(g, e)
  {
    if e >= 2 {
      OlderStable(h, g, e - 2);
    }
  }

  lemma {:induction false} OlderMembers(h: History, e: nat, x: Slot)
    requires e <= |h.lens|
    ensures x in Older(h, e) <==> x.epoch < e && Owner(x.epoch) != Owner(e) && x.n < h.lens[x.epoch]
  {
    if e >= 2 {
      OlderMembers(h, e - 2, x);
    }
  }

  lemma PassedMembers(h: History, e: nat, nr: U32, x: Slot)
    requires e <= |h.lens|
    ensures x in Passed(h, e, nr) <==>
      x.epoch < e && Owner(x.epoch) != Owner(e) && x.n < (if x.epoch + 1 == e then nr else h.lens[x.epoch])
  {
    if e >= 2 {
      OlderMembers(h, e - 2, x);
    }
  }

  lemma PassedNext(h: History, e: nat, nr: U32)
    requires 1 <= e <= |h.lens| && nr < U32_LIMIT - 1
    ensures Passed(h, e, nr + 1) == Passed(h, e, nr) + {Slot(e - 1, nr)}
    ensures Slot(e - 1, nr) !in Passed(h, e, nr)
  {
    assert Line(e - 1, nr + 1) == Line(e - 1, nr) + {Slot(e - 1, nr)};
    PassedMembers(h, e, nr, Slot(e - 1, nr));
  }

  /** `g` continues `h` without touching what an endpoint in epoch `e` depends on. */
  ghost predicate Extends(h: History, g: History, e: nat)
    requires Good(h) && Good(g) && e < |h.keys|
  {
    && h.keys <= g.keys && h.secret == g.secret && h.ad == g.ad
    && h.lens[e] == g.lens[e]
    && (forall c :: 0 <= c < e - 1 ==> h.lens[c] == g.lens[c])
    && (e >= 1 ==> h.lens[e - 1] <= g.lens[e - 1])
  }

  /** An endpoint does not notice what its peer does. */
  lemma EndpointStable(h: History, g: History, acc: set<Slot>, s: State, e: nat)
    requires Good(h) && Good(g) && e < |h.keys| && Extends(h, g, e)
    requires Endpoint(h, acc, s, e)
    ensures Endpoint(g, acc, s, e)
  {
    RootStable(h, g, e);
    if e >= 1 {
      RootStable(h, g, e - 1);
    }
    if e >= 2 {
      RootStable(h, g, e - 2);
      OlderStable(h, g, e - 2);
    }
    StoresStable(h, g, Passed(h, e, s.nr) - acc, s.skipped);
  }

  // ---- Receiving ----

  lemma StoresNext(h: History, acc: set<Slot>, e: nat, nr: U32, m: map<SkipId, Term>)
    requires Good(h) && 1 <= e < |h.keys| && nr < U32_LIMIT - 1
    requires acc <= Passed(h, e, nr) && Stores(h, Passed(h, e, nr) - acc, m)
    ensures var x := Slot(e - 1, nr);
      acc <= Passed(h, e, nr + 1) && Stores(h, Passed(h, e, nr + 1) - acc, m[IdAt(h, x) := KeyAt(h, x)])
  {
    var x := Slot(e - 1, nr);
    PassedNext(h, e, nr);
    var p := Passed(h, e, nr) - acc;
    assert p + {x} == Passed(h, e, nr + 1) - acc;
    IdsDistinct(h, p + {x});
    HoldsAdd(Ids(h), Keys(h), p, m, x);
  }

  lemma StoreNextKeeps(h: History, acc: set<Slot>, s: State, e: nat)
    requires Good(h) && 1 <= e < |h.keys| && Endpoint(h, acc, s, e) && s.nr < h.lens[e - 1]
    ensures Endpoint(h, acc, StoreNext(s), e)
  {
    hide Stores, KeyAt, Passed, Root, Chain;
    StoresNext(h, acc, e, s.nr, s.skipped);
    NextKey(h, e - 1, s.nr);
  }

  lemma NextKey(h: History, c: nat, n: U32)
    requires c < |h.keys|
    ensures KeyAt(h, Slot(c, n)) == MessageKey(Advance(Chain(h, c), n)) && IdAt(h, Slot(c, n)) == SkipId(h.keys[c], n)
    ensures Advance(Chain(h, c), n + 1) == NextChainKey(Advance(Chain(h, c), n))
  {
  }

  lemma {:induction false} SkipToKeeps(h: History, acc: set<Slot>, s: State, e: nat, until: U32)
    requires Good(h) && 1 <= e < |h.keys| && Endpoint(h, acc, s, e) && s.nr <= until <= h.lens[e - 1]
    ensures Endpoint(h, acc, SkipTo(s, until), e)
    decreases until
  {
    if until > s.nr {
      SkipToKeeps(h, acc, s, e, until - 1);
      SkipToStep(s, until);
      StoreNextKeeps(h, acc, SkipTo(s, until - 1), e);
    }
  }

  /** Taking the next message of the current chain. */
  lemma TakeNextKeeps(h: History, acc: set<Slot>, s: State, e: nat)
    requires Good(h) && 1 <= e < |h.keys| && Endpoint(h, acc, s, e) && s.nr < h.lens[e - 1]
    ensures Endpoint(h, acc + {Slot(e - 1, s.nr)}, s.(ckr := NextChainKey(s.ckr), nr := s.nr + 1), e)
  {
    var x := Slot(e - 1, s.nr);
    PassedNext(h, e, s.nr);
    assert Passed(h, e, s.nr + 1) - (acc + {x}) == Passed(h, e, s.nr) - acc;
  }

  lemma ReceivingChain(h: History, s: State, e: nat, n: U32)
    requires Good(h) && 1 <= e < |h.keys| && Core(h, s, e) && s.nr <= n
    ensures MessageKey(Advance(s.ckr, n - s.nr)) == KeyAt(h, Slot(e - 1, n))
  {
    AdvanceAdds(Chain(h, e - 1), s.nr, n - s.nr);
  }

  lemma SkipAndTakeKeeps(h: History, acc: set<Slot>, s: State, e: nat, n: U32)
    requires Good(h) && 1 <= e < |h.keys| && Endpoint(h, acc, s, e) && s.nr <= n < h.lens[e - 1]
    ensures var t := SkipTo(s, n);
      t.nr == n && t.dhs == s.dhs
      && Endpoint(h, acc + {Slot(e - 1, n)}, t.(ckr := NextChainKey(t.ckr), nr := n + 1), e)
  {
    SkipToKeeps(h, acc, s, e, n);
    TakeNextKeeps(h, acc, SkipTo(s, n), e);
  }

  lemma SealedAt(h: History, acc: set<Slot>, s: State, e: nat, n: U32, pt: Bytes)
    requires Good(h) && 1 <= e < |h.keys| && Endpoint(h, acc, s, e) && s.nr <= n < h.lens[e - 1]
    ensures |h.keys| == |h.lens|
    ensures var w := WireAt(h, Slot(e - 1, n), pt);
      w.Wire? && w.header.n == n && w.ct == AeadSeal(KeyAt(h, Slot(e - 1, n)), pt, s.ad + w.header.Encode())
    ensures Core(h, s, e) && s.nr + 1000 < U32_LIMIT && n + 1 < U32_LIMIT
  {
    hide Stores, KeyAt, AeadSeal, Root, Chain, AllValid;
  }

  lemma OpenWithin(h: History, acc: set<Slot>, s: State, e: nat, n: U32, pt: Bytes)
    requires Good(h) && 1 <= e < |h.keys| && Endpoint(h, acc, s, e) && s.nr <= n < h.lens[e - 1]
    requires (s.ckr == NoKey ==> n == s.nr) && n <= s.nr + 1000
    ensures var w := WireAt(h, Slot(e - 1, n), pt);
      var (t, r) := OpenInChain(s, w.header, w.ct);
      r == Ok(pt) && t.dhs == s.dhs && Endpoint(h, acc + {Slot(e - 1, n)}, t, e)
  {
    hide Endpoint, KeyAt, OpenInChain, SkipTo, AeadSeal, Good, WireAt;
    SealedAt(h, acc, s, e, n, pt);
    var w := WireAt(h, Slot(e - 1, n), pt);
    ReceivingChain(h, s, e, n);
    SkipAndTakeKeeps(h, acc, s, e, n);
    OpenInChainAt(s, w.header, pt);
  }

  /** Opening a message that lies ahead in the current receive chain. */
  lemma OpenAhead(h: History, acc: set<Slot>, s: State, e: nat, n: U32, pt: Bytes)
    requires Good(h) && 1 <= e < |h.keys| && Endpoint(h, acc, s, e) && s.nr <= n < h.lens[e - 1]
    requires s.ckr == NoKey ==> n == 0
    ensures var w := WireAt(h, Slot(e - 1, n), pt);
      var (t, r) := OpenInChain(s, w.header, w.ct);
      if n <= s.nr + 1000
      then r == Ok(pt) && t.dhs == s.dhs && Endpoint(h, acc + {Slot(e - 1, n)}, t, e)
      else r == Err(TooManySkipped) && t == s
  {
    NilChain(h, s, e);
    if n <= s.nr + 1000 {
      OpenWithin(h, acc, s, e, n, pt);
    } else {
      hide Stores, KeyAt, Root, Chain, AllValid, Skip;
      assert SkipRefused(s, n);
    }
  }

  /** Opening a message that was passed over. */
  lemma OpenPassed(h: History, acc: set<Slot>, s: State, e: nat, x: Slot, pt: Bytes, k: Bytes)
    requires Good(h) && e < |h.keys| && Endpoint(h, acc, s, e) && x in Passed(h, e, s.nr) - acc
    ensures x.epoch < |h.keys|
    ensures var w := WireAt(h, x, pt);
      var (t, r) := Decrypt(s, w, Some(PrivateKey(k)));
      w.header.Position() in s.skipped && r == Ok(pt) && t.dhs == s.dhs && Endpoint(h, acc + {x}, t, e)
  {
    var p := Passed(h, e, s.nr);
    IdsDistinct(h, p - acc);
    HoldsRemove(Ids(h), Keys(h), p - acc, s.skipped, x);
    assert p - acc - {x} == p - (acc + {x});
  }

  lemma GrownGood(h: History, k: Bytes)
    requires Good(h) && ValidPoint(k) && k !in h.keys
    ensures Good(Grown(h, k))
  {
    var g := Grown(h, k);
    assert g.keys[..|g.keys| - 1] == h.keys;
    forall i, j | 0 <= i < j < |g.keys| ensures g.keys[i] != g.keys[j] {
      assert g.keys[i] == h.keys[i];
    }
  }

  /** The DH ratchet step moves an endpoint two epochs on. */
  lemma RatchetCore(h: History, s: State, e: nat, k: Bytes)
    requires Good(h) && e + 2 == |h.keys| && Core(h, s, e) && ValidPoint(k) && k !in h.keys
    ensures Good(Grown(h, k))
    ensures var (t, err) := DhRatchet(s, Slice(h.keys[e + 1]), Some(PrivateKey(k)));
      err.None? && t.nr == 0 && t.skipped == s.skipped && t.dhs == PrivateKey(k) && Core(Grown(h, k), t, e + 2)
  {
    GrownGood(h, k);
    var g := Grown(h, k);
    AllValidAt(h.keys, e + 1);
    RootStable(h, g, e);
    assert Shared(g, e + 1) == Shared(h, e + 1);
    assert Root(g, e + 1) == RootKey(Root(h, e), Shared(h, e + 1));
    assert Shared(g, e + 2) == DhOutput({k, h.keys[e + 1]});
  }

  /** It leaves behind a peer epoch that is complete, so no position is lost. */
  lemma RatchetKeeps(h: History, acc: set<Slot>, s: State, e: nat, k: Bytes)
    requires Good(h) && e + 2 == |h.keys| && Endpoint(h, acc, s, e) && ValidPoint(k) && k !in h.keys
    requires e >= 1 ==> s.nr == h.lens[e - 1]
    ensures Good(Grown(h, k))
    ensures Endpoint(Grown(h, k), acc, DhRatchet(s, Slice(h.keys[e + 1]), Some(PrivateKey(k))).0, e + 2)
  {
    RatchetCore(h, s, e, k);
    var g := Grown(h, k);
    assert Passed(g, e + 2, 0) == Passed(h, e, s.nr) by {
      OlderStable(h, g, e);
      assert Line(e + 1, 0) == {};
    }
    StoresStable(h, g, Passed(h, e, s.nr) - acc, s.skipped);
  }

  lemma WireStable(h: History, g: History, x: Slot, pt: Bytes)
    requires Good(h) && Good(g) && h.keys <= g.keys && h.secret == g.secret && h.ad == g.ad && InConversation(h, x)
    requires PreviousLength(h, x.epoch) == PreviousLength(g, x.epoch)
    ensures WireAt(h, x, pt) == WireAt(g, x, pt)
  {
    KeyStable(h, g, x);
  }

  /** What one delivery does, seen from the receiver in epoch `e`. */
  ghost predicate Delivered(h: History, acc: set<Slot>, s: State, e: nat, x: Slot, pt: Bytes, k: Bytes, t: State, r: Opened)
    requires Good(h) && e < |h.keys|
  {
    && (r == Ok(pt) || r == Err(TooManySkipped))
    && var acc' := if r.Ok? then acc + {x} else acc;
       if t.dhs == s.dhs then Endpoint(h, acc', t, e)
       else t.dhs == PrivateKey(k) && x.epoch == e + 1
            && Good(Grown(h, k)) && e + 2 < |Grown(h, k).keys| && Endpoint(Grown(h, k), acc', t, e + 2)
  }

  /** A message of the current epoch, not yet passed. */
  lemma ReceiveCurrent(h: History, acc: set<Slot>, s: State, e: nat, n: U32, pt: Bytes, k: Bytes)
    requires Good(h) && 1 <= e < |h.keys| && Endpoint(h, acc, s, e) && s.nr <= n < h.lens[e - 1]
    requires s.ckr == NoKey ==> n == 0
    ensures var x := Slot(e - 1, n);
      var w := WireAt(h, x, pt);
      var (t, r) := Decrypt(s, w, Some(PrivateKey(k)));
      Delivered(h, acc, s, e, x, pt, k, t, r) && (r.Ok? <==> WithinLimit(s, w.header))
  {
    var x := Slot(e - 1, n);
    var w := WireAt(h, x, pt);
    PassedMembers(h, e, s.nr, x);
    StoresOnly(h, Passed(h, e, s.nr) - acc, s.skipped, x);
    assert w.header.Position() == IdAt(h, x);
    assert InCurrentChain(s, w.header);
    assert Decrypt(s, w, Some(PrivateKey(k))) == OpenInChain(s, w.header, w.ct);
    OpenAhead(h, acc, s, e, n, pt);
  }

  /** The skip over the peer's previous epoch: refused without effect, or it completes the epoch. */
  lemma FinishEpoch(h: History, acc: set<Slot>, s: State, e: nat)
    requires Good(h) && e + 2 == |h.keys| && Endpoint(h, acc, s, e)
    requires s.ckr == NoKey ==> PreviousLength(h, e + 1) == 0
    ensures var pn := PreviousLength(h, e + 1);
      (SkipRefused(s, pn) <==> s.ckr != NoKey && pn > s.nr + 1000)
      && (!SkipRefused(s, pn) ==>
            var t := Skip(s, pn);
            t.dhs == s.dhs && Endpoint(h, acc, t, e) && (e >= 1 ==> t.nr == h.lens[e - 1]))
  {
    var pn := PreviousLength(h, e + 1);
    hide Stores, Passed, Root;
    NilChain(h, s, e);
    if e >= 1 && !SkipRefused(s, pn) {
      assert pn == h.lens[e - 1];
      SkipToKeeps(h, acc, s, e, pn);
      assert Skip(s, pn) == SkipTo(s, pn);
    }
  }

  /** Entering a new epoch: the rest of `decrypt` runs as a message of the then current epoch. */
  lemma EnterEpoch(h: History, acc: set<Slot>, s: State, e: nat, w: Wire, k: Bytes)
    requires Good(h) && e + 2 == |h.keys| && Endpoint(h, acc, s, e) && ValidPoint(k) && k !in h.keys
    requires w.Wire? && w.header.dh == Slice(h.keys[e + 1]) && w.header.pn == PreviousLength(h, e + 1)
    requires w.header.Position() !in s.skipped && !SkipRefused(s, w.header.pn)
    requires s.ckr == NoKey ==> w.header.pn == 0
    ensures Good(Grown(h, k))
    ensures var s2 := DhRatchet(Skip(s, w.header.pn), w.header.dh, Some(PrivateKey(k))).0;
      && Decrypt(s, w, Some(PrivateKey(k))) == OpenInChain(s2, w.header, w.ct)
      && s2.nr == 0 && s2.dhs == PrivateKey(k) && Endpoint(Grown(h, k), acc, s2, e + 2)
  {
    hide Stores, Passed, Root, Chain, KeyAt;
    FinishEpoch(h, acc, s, e);
    var s1 := Skip(s, w.header.pn);
    RatchetCore(h, s1, e, k);
    RatchetKeeps(h, acc, s1, e, k);
    assert !InCurrentChain(s, w.header);
  }

  lemma EnteredChain(h: History, acc: set<Slot>, s: State, e: nat)
    requires Good(h) && 2 <= e < |h.keys| && Endpoint(h, acc, s, e)
    ensures s.ckr != NoKey
  {
    NilChain(h, s, e);
  }

  /** The first message seen of a new epoch, with the previous one within reach. */
  lemma ReceiveEntering(h: History, acc: set<Slot>, s: State, e: nat, n: U32, pt: Bytes, k: Bytes)
    requires Good(h) && e + 2 == |h.keys| && Endpoint(h, acc, s, e) && n < h.lens[e + 1]
    requires ValidPoint(k) && k !in h.keys
    requires IdAt(h, Slot(e + 1, n)) !in s.skipped && !SkipRefused(s, PreviousLength(h, e + 1))
    requires s.ckr == NoKey ==> PreviousLength(h, e + 1) == 0
    ensures Good(Grown(h, k))
    ensures var x := Slot(e + 1, n);
      var w := WireAt(h, x, pt);
      var (t, r) := Decrypt(s, w, Some(PrivateKey(k)));
      && t.dhs == PrivateKey(k)
      && (if n <= 1000 then r == Ok(pt) && Endpoint(Grown(h, k), acc + {x}, t, e + 2)
          else r == Err(TooManySkipped) && Endpoint(Grown(h, k), acc, t, e + 2))
  {
    hide Endpoint;
    var x := Slot(e + 1, n);
    var w := WireAt(h, x, pt);
    EnterEpoch(h, acc, s, e, w, k);
    WireStable(h, Grown(h, k), x, pt);
    var s2 := DhRatchet(Skip(s, w.header.pn), w.header.dh, Some(PrivateKey(k))).0;
    EnteredChain(Grown(h, k), acc, s2, e + 2);
    OpenAhead(Grown(h, k), acc, s2, e + 2, n, pt);
  }

  /** The first message seen of a new epoch. */
  lemma ReceiveNew(h: History, acc: set<Slot>, s: State, e: nat, n: U32, pt: Bytes, k: Bytes)
    requires Good(h) && e + 2 == |h.keys| && Endpoint(h, acc, s, e) && n < h.lens[e + 1]
    requires ValidPoint(k) && k !in h.keys
    requires s.ckr == NoKey ==> PreviousLength(h, e + 1) == 0
    ensures var x := Slot(e + 1, n);
      var w := WireAt(h, x, pt);
      var (t, r) := Decrypt(s, w, Some(PrivateKey(k)));
      Delivered(h, acc, s, e, x, pt, k, t, r) && (r.Ok? <==> WithinLimit(s, w.header))
  {
    var x := Slot(e + 1, n);
    var hd := WireAt(h, x, pt).header;
    PassedMembers(h, e, s.nr, x);
    StoresOnly(h, Passed(h, e, s.nr) - acc, s.skipped, x);
    assert hd.Position() == IdAt(h, x) && !InCurrentChain(s, hd);
    FinishEpoch(h, acc, s, e);
    if !SkipRefused(s, hd.pn) {
      ReceiveEntering(h, acc, s, e, n, pt, k);
    }
  }

  /** The header names the current receive chain exactly for messages of the peer's epoch. */
  lemma CurrentEpoch(h: History, s: State, e: nat, x: Slot, pt: Bytes)
    requires Good(h) && e < |h.keys| && Core(h, s, e) && InConversation(h, x)
    ensures InCurrentChain(s, WireAt(h, x, pt).header) <==> x.epoch + 1 == e
  {
    hide KeyAt, Root, AllValid;
  }

  /** Every genuine message not yet accepted that finds the receiver in step: it opens exactly when the
      gaps are within the limit. */
  lemma Receive(h: History, acc: set<Slot>, s: State, e: nat, x: Slot, pt: Bytes, k: Bytes)
    requires Good(h) && e < |h.keys| <= e + 2 && Endpoint(h, acc, s, e)
    requires InConversation(h, x) && x.n < h.lens[x.epoch] && Owner(x.epoch) != Owner(e) && x !in acc
    requires ValidPoint(k) && k !in h.keys && InStep(s, WireAt(h, x, pt).header)
    ensures var w := WireAt(h, x, pt);
      var (t, r) := Decrypt(s, w, Some(PrivateKey(k)));
      Delivered(h, acc, s, e, x, pt, k, t, r) && (r.Ok? <==> WithinLimit(s, w.header))
  {
    PassedMembers(h, e, s.nr, x);
    CurrentEpoch(h, s, e, x, pt);
    if x.epoch == e + 1 {
      ReceiveNew(h, acc, s, e, x.n, pt, k);
    } else if x in Passed(h, e, s.nr) {
      OpenPassed(h, acc, s, e, x, pt, k);
    } else {
      assert x == Slot(e - 1, x.n);
      ReceiveCurrent(h, acc, s, e, x.n, pt, k);
    }
  }

  lemma NilPosition(h: History, acc: set<Slot>, s: State, e: nat)
    requires Good(h) && e < |h.keys| && Endpoint(h, acc, s, e)
    ensures s.ckr == NoKey ==> s.nr == 0 && e <= 1
  {
    NilChain(h, s, e);
  }

  /** Short gaps, seen from the schedule: the receiver is in step and within the limit. */
  lemma WithinReach(h: History, acc: set<Slot>, s: State, e: nat, x: Slot, pt: Bytes)
    requires Good(h) && e < |h.keys| <= e + 2 && Endpoint(h, acc, s, e)
    requires InConversation(h, x) && Owner(x.epoch) != Owner(e)
    requires x.epoch == e + 1 ==> x.n <= 1000 && PreviousLength(h, x.epoch) <= s.nr + 1000
    requires x.epoch == e + 1 && s.ckr == NoKey ==> PreviousLength(h, x.epoch) == 0
    requires x.epoch + 1 == e ==> x.n <= s.nr + 1000 && (s.ckr == NoKey ==> x.n == 0)
    requires x.epoch + 1 < e ==> IdAt(h, x) in s.skipped
    ensures WithinLimit(s, WireAt(h, x, pt).header) && InStep(s, WireAt(h, x, pt).header)
  {
    assert x.epoch != e;
    NilChain(h, s, e);
    CurrentEpoch(h, s, e, x, pt);
    hide Stores, KeyAt, Root, Passed;
  }

  /** A message that is neither accepted nor stored lies in the current chain ahead, or in the next epoch. */
  lemma NotPassed(h: History, acc: set<Slot>, s: State, e: nat, x: Slot)
    requires Good(h) && e < |h.keys| <= e + 2 && Endpoint(h, acc, s, e)
    requires InConversation(h, x) && x.n < h.lens[x.epoch] && Owner(x.epoch) != Owner(e) && x !in acc && IdAt(h, x) !in s.skipped
    ensures Core(h, s, e)
    ensures (x.epoch == e + 1 && e + 2 == |h.keys|) || (x.epoch + 1 == e && s.nr <= x.n)
  {
    hide Root, KeyAt, AllValid;
    PassedMembers(h, e, s.nr, x);
    StoresOnly(h, Passed(h, e, s.nr) - acc, s.skipped, x);
  }

  /** The limit in numbers: in the current chain a message up to 1000 ahead opens, and one further ahead is
      refused without effect; a new epoch is refused without effect when more than 1000 messages of the
      previous chain are missing, and otherwise entered, where the first 1001 messages open. */
  lemma LimitAt(h: History, acc: set<Slot>, s: State, e: nat, x: Slot, pt: Bytes, k: Bytes)
    requires Good(h) && e < |h.keys| <= e + 2 && Endpoint(h, acc, s, e)
    requires InConversation(h, x) && x.n < h.lens[x.epoch] && Owner(x.epoch) != Owner(e) && x !in acc
    requires ValidPoint(k) && k !in h.keys && InStep(s, WireAt(h, x, pt).header)
    requires IdAt(h, x) !in s.skipped
    ensures var w := WireAt(h, x, pt);
      var (t, r) := Decrypt(s, w, Some(PrivateKey(k)));
      if InCurrentChain(s, w.header) then
        if x.n <= s.nr + 1000 then r == Ok(pt) else r == Err(TooManySkipped) && t == s
      else if s.ckr != NoKey && w.header.pn > s.nr + 1000 then r == Err(TooManySkipped) && t == s
      else if x.n <= 1000 then r == Ok(pt)
      else r == Err(TooManySkipped) && t.dhs == PrivateKey(k)
  {
    hide Endpoint, KeyAt, Root, AllValid, Passed, OpenInChain, DhRatchet, Skip;
    NotPassed(h, acc, s, e, x);
    CurrentEpoch(h, s, e, x, pt);
    var w := WireAt(h, x, pt);
    assert w.header.Position() == IdAt(h, x);
    if x.epoch == e + 1 {
      FinishEpoch(h, acc, s, e);
      if !SkipRefused(s, w.header.pn) {
        ReceiveEntering(h, acc, s, e, x.n, pt, k);
      }
    } else {
      OpenAhead(h, acc, s, e, x.n, pt);
    }
  }

  // ---- Out of step ----

  /** A position passed and not accepted whose key is missing. */
  lemma MissingKey(h: History, acc: set<Slot>, s: State, e: nat, x: Slot)
    requires Good(h) && e < |h.keys| && InConversation(h, x)
    requires x in Passed(h, e, s.nr) && x !in acc && IdAt(h, x) !in s.skipped
    ensures !Endpoint(h, acc, s, e)
  {
    hide Core, KeyAt, Passed;
    if Stores(h, Passed(h, e, s.nr) - acc, s.skipped) {
      StoresOnly(h, Passed(h, e, s.nr) - acc, s.skipped, x);
    }
  }

  /** Only an initiator that has received nothing can be out of step: with a later message of epoch 0,
      or with epoch 2 when epoch 0 was used. */
  lemma OutOfStepShape(h: History, acc: set<Slot>, s: State, e: nat, x: Slot, pt: Bytes)
    requires Good(h) && e < |h.keys| <= e + 2 && Endpoint(h, acc, s, e)
    requires InConversation(h, x) && Owner(x.epoch) != Owner(e) && !InStep(s, WireAt(h, x, pt).header)
    ensures e == 1 && s.nr == 0 && s.ckr == NoKey && s.skipped == map[] && acc == {}
    ensures (x.epoch == 0 && x.n > 0) || (x.epoch == 2 && |h.keys| == 3 && h.lens[0] > 0)
  {
    NilChain(h, s, e);
    CurrentEpoch(h, s, e, x, pt);
    hide KeyAt, Root;
    assert x.epoch != e;
    assert Line(0, 0) == {};
    assert Passed(h, e, s.nr) == {};
    assert forall id :: id !in s.skipped;
  }

  /** The message does not open, and its receiver has moved past position 0 without a key for it. */
  lemma MissesFirst(h: History, s: State, n: U32, pt: Bytes, g: Option<PrivateKey>)
    requires Good(h) && Core(h, s, 1) && s.ckr == NoKey && s.nr == 0 && s.skipped == map[] && n > 0
    ensures Decrypt(s, WireAt(h, Slot(0, n), pt), g) == (s.(ckr := NextChainKey(NoKey), nr := 1), Err(OpenFailed))
  {
  }

  /** The new epoch is entered with nothing stored of epoch 0. */
  lemma AbandonsFirst(h: History, s: State, n: U32, pt: Bytes, k: Bytes)
    requires Good(h) && |h.keys| == 3 && Core(h, s, 1) && s.ckr == NoKey && s.skipped == map[]
    requires n < h.lens[2] && ValidPoint(k) && k !in h.keys
    ensures Good(Grown(h, k))
    ensures var (t, r) := Decrypt(s, WireAt(h, Slot(2, n), pt), Some(PrivateKey(k)));
      && r == (if n <= 1000 then Ok(pt) else Err(TooManySkipped))
      && t.dhs == PrivateKey(k) && IdAt(h, Slot(0, 0)) !in t.skipped
  {
    var w := WireAt(h, Slot(2, n), pt);
    RatchetCore(h, s, 1, k);
    var g := Grown(h, k);
    var s2 := DhRatchet(s, w.header.dh, Some(PrivateKey(k))).0;
    assert !InCurrentChain(s, w.header);
    assert Decrypt(s, w, Some(PrivateKey(k))) == OpenInChain(s2, w.header, w.ct);
    WireStable(h, g, Slot(2, n), pt);
    ReceivingChain(g, s2, 3, n);
    NilChain(g, s2, 3);
    SkipStoresExactly(s2, n, IdAt(h, Slot(0, 0)));
    if n <= 1000 {
      OpenInChainAt(s2, w.header, pt);
    }
  }
}
