/** What one endpoint keeps over every sequence of inputs: no message key seals twice and
no ciphertext is accepted twice, whatever the network injects. */
module Replay {
  import opened Primitives
  import opened Encoding
  import opened RatchetModel

  // ---- The age of a key ----

  function RootDepth(t: Term): nat {
    match t
    case RootKey(parent, _) => 1 + RootDepth(parent)
    case _ => 0
  }

  /** How deep the root key is that a chain starts from. */
  function Generation(ck: Term): nat {
    match ck
    case NextChainKey(parent) => Generation(parent)
    case ChainKey(parent, _) => 1 + RootDepth(parent)
    case _ => 0
  }

  function Steps(ck: Term): nat {
    match ck
    case NextChainKey(parent) => 1 + Steps(parent)
    case _ => 0
  }

  /** `x` is an earlier chain key than `y`: an older chain, or fewer steps along the same one. */
  predicate Before(x: Term, y: Term) {
    Generation(x) < Generation(y) || (Generation(x) == Generation(y) && Steps(x) < Steps(y))
  }

  lemma {:induction false} AdvanceAge(ck: Term, k: nat)
    ensures Generation(Advance(ck, k)) == Generation(ck)
    ensures Steps(Advance(ck, k)) == Steps(ck) + k
  {
    if k > 0 {
      AdvanceAge(ck, k - 1);
    }
  }

  // ---- Inputs and runs of one endpoint ----

  datatype Input =
    | Send(plaintext: Bytes)
    | Receive(wire: Wire, generated: Option<PrivateKey>)

  function Step(s: State, i: Input): State {
    match i
    case Send(pt) => Encrypt(s, pt).0
    case Receive(w, g) => Decrypt(s, w, g).0
  }

  function After(s: State, inputs: seq<Input>): State
    decreases inputs
  {
    if inputs == [] then s else After(Step(s, inputs[0]), inputs[1..])
  }

  ghost predicate IsInitial(s: State) {
    || (exists sk, remote, ad, dhs :: RatchetModel.Initiator(sk, remote, ad, dhs) == Ok(s))
    || (exists sk, pre, ad :: s == RatchetModel.Responder(sk, pre, ad))
  }

  predicate Accepts(s: State, i: Input) {
    i.Receive? && Decrypt(s, i.wire, i.generated).1.Ok?
  }

  /** Both chains are no younger than the root key, and the skipped keys are distinct keys of the past. */
  ghost predicate Ordered(s: State) {
    && Generation(s.cks) <= RootDepth(s.rk)
    && Generation(s.ckr) <= RootDepth(s.rk)
    && (forall id :: id in s.skipped ==> s.skipped[id].MessageKey? && Before(s.skipped[id].parent, s.ckr))
    && (forall i, j :: i in s.skipped && j in s.skipped && s.skipped[i] == s.skipped[j] ==> i == j)
  }

  lemma InitialOrdered(s: State)
    requires IsInitial(s)
    ensures Ordered(s)
  {
  }

  // ---- Each operation keeps the order and only ages keys ----

  /** The receive-side effect of any operation: the chain moves on, the store gains fresh keys only. */
  ghost predicate Ages(s: State, t: State) {
    && Ordered(t)
    && (s.cks == t.cks || Before(s.cks, t.cks))
    && (s.ckr == t.ckr || Before(s.ckr, t.ckr))
    && (forall id :: id in t.skipped ==>
          (id in s.skipped && t.skipped[id] == s.skipped[id])
          || !Before(t.skipped[id].parent, s.ckr))
  }

  lemma SkipAges(s: State, until: U32)
    requires Ordered(s)
    ensures Ages(s, Skip(s, until))
    ensures Skip(s, until).cks == s.cks && Skip(s, until).rk == s.rk
  {
    if s.ckr != NoKey && !SkipRefused(s, until) && until > s.nr {
      SkipToAges(s, until);
    }
  }

  lemma StoreNextAges(s: State)
    requires Ordered(s) && s.nr < U32_LIMIT - 1
    ensures Ages(s, StoreNext(s))
  {
  }

  lemma {:induction false} SkipToAges(s: State, until: U32)
    requires Ordered(s) && until >= s.nr
    ensures Ages(s, SkipTo(s, until))
    decreases until
  {
    if until > s.nr {
      var t := SkipTo(s, until - 1);
      SkipToAges(s, until - 1);
      SkipToStep(s, until);
      StoreNextAges(t);
      AgesTransitive(s, t, StoreNext(t));
    }
  }

  lemma RatchetAges(s: State, remote: Slice, generated: Option<PrivateKey>)
    requires Ordered(s)
    ensures Ages(s, DhRatchet(s, remote, generated).0)
  {
  }

  lemma AgesTransitive(s: State, t: State, u: State)
    requires Ages(s, t) && Ages(t, u)
    ensures Ages(s, u)
  {
  }

  /** A key is spent: it is older than the receive chain and no longer in the store. */
  ghost predicate Spent(s: State, mk: Term) {
    && mk.MessageKey?
    && Before(mk.parent, s.ckr)
    && (forall id :: id in s.skipped ==> s.skipped[id] != mk)
  }

  lemma AgesKeepsSpent(s: State, t: State, mk: Term)
    requires Ages(s, t) && Spent(s, mk)
    ensures Spent(t, mk)
  {
  }

  /** Opening a message in the current chain uses a key never derived before, and spends it. */
  lemma OpenInChainAges(s: State, h: Header, ct: Ciphertext)
    requires Ordered(s)
    ensures var (t, r) := OpenInChain(s, h, ct);
      && Ages(s, t)
      && (r.Ok? ==> ct.Sealed? && Spent(t, ct.key.mk) && !Before(ct.key.mk.parent, s.ckr))
  {
    if !SkipRefused(s, h.n) {
      var s1 := Skip(s, h.n);
      SkipAges(s, h.n);
      var t := OpenInChain(s, h, ct).0;
      assert Ages(s1, t);
      AgesTransitive(s, s1, t);
    }
  }

  lemma DecryptAges(s: State, w: Wire, generated: Option<PrivateKey>)
    requires Ordered(s)
    ensures var (t, r) := Decrypt(s, w, generated);
      && Ages(s, t)
      && (r.Ok? ==> w.Wire? && w.ct.Sealed? && Spent(t, w.ct.key.mk) && !Spent(s, w.ct.key.mk))
  {
    if w.Wire? && w.header.Position() !in s.skipped {
      var h := w.header;
      if InCurrentChain(s, h) {
        OpenInChainAges(s, h, w.ct);
      } else if !SkipRefused(s, h.pn) {
        var s1 := Skip(s, h.pn);
        SkipAges(s, h.pn);
        var (s2, err) := DhRatchet(s1, h.dh, generated);
        RatchetAges(s1, h.dh, generated);
        AgesTransitive(s, s1, s2);
        if err.None? {
          OpenInChainAges(s2, h, w.ct);
          AgesTransitive(s, s2, OpenInChain(s2, h, w.ct).0);
        }
      }
    }
  }

  lemma StepAges(s: State, i: Input)
    requires Ordered(s)
    ensures Ages(s, Step(s, i))
  {
    if i.Receive? {
      DecryptAges(s, i.wire, i.generated);
    }
  }

  lemma {:induction false} RunAges(s: State, inputs: seq<Input>)
    requires Ordered(s)
    ensures Ages(s, After(s, inputs))
    decreases inputs
  {
    if inputs != [] {
      StepAges(s, inputs[0]);
      RunAges(Step(s, inputs[0]), inputs[1..]);
      AgesTransitive(s, Step(s, inputs[0]), After(s, inputs));
    }
  }

  // ---- Theorems ----

  /** At most once: a ciphertext accepted once is never accepted again, under any header,
      after any further inputs. */
  lemma AtMostOnce(s0: State, before: seq<Input>, first: Input, between: seq<Input>, second: Input)
    requires IsInitial(s0)
    requires var s := After(s0, before);
      && Accepts(s, first)
      && second.Receive? && second.wire.Wire? && second.wire.ct == first.wire.ct
    ensures !Accepts(After(Step(After(s0, before), first), between), second)
  {
    InitialOrdered(s0);
    RunAges(s0, before);
    var s := After(s0, before);
    DecryptAges(s, first.wire, first.generated);
    var t := Step(s, first);
    RunAges(t, between);
    var u := After(t, between);
    AgesKeepsSpent(t, u, first.wire.ct.key.mk);
    DecryptAges(u, second.wire, second.generated);
  }

  /** What is sealed under a spent key is never accepted again. */
  lemma SpentForGood(s: State, later: seq<Input>, i: Input)
    requires Ordered(s) && i.Receive? && i.wire.Wire? && i.wire.ct.Sealed? && Spent(s, i.wire.ct.key.mk)
    ensures !Accepts(After(s, later), i)
  {
    RunAges(s, later);
    AgesKeepsSpent(s, After(s, later), i.wire.ct.key.mk);
    DecryptAges(After(s, later), i.wire, i.generated);
  }

  /** Whether or not the message opens, the key tried on it is spent. */
  lemma TriedKeySpent(s: State, h: Header, ct: Ciphertext)
    requires Ordered(s) && !SkipRefused(s, h.n)
    ensures Ordered(OpenInChain(s, h, ct).0) && Spent(OpenInChain(s, h, ct).0, MessageKey(Skip(s, h.n).ckr))
  {
    SkipAges(s, h.n);
    OpenInChainAges(s, h, ct);
  }

  /** Sealing keys never repeat, hence no (AES key, nonce) pair is used twice. */
  lemma SealingKeysDistinct(s0: State, before: seq<Input>, p: Bytes, between: seq<Input>, q: Bytes)
    requires IsInitial(s0)
    ensures var s := After(s0, before);
      var (t, w1) := Encrypt(s, p);
      var w2 := Encrypt(After(t, between), q).1;
      w1.ct.key != w2.ct.key && w1.ct.nonce != w2.ct.nonce
  {
    InitialOrdered(s0);
    RunAges(s0, before);
    var s := After(s0, before);
    var t := Step(s, Send(p));
    StepAges(s, Send(p));
    RunAges(t, between);
    assert Before(s.cks, t.cks);
  }

  // ---- What a failed decrypt leaves behind ----

  /** A test on the state and the header alone: the message is refused before anything is written. The
      last case is a header without a DH key reaching an endpoint that has none either. */
  predicate RefusedEarly(s: State, w: Wire) {
    || w.Undecodable?
    || w.header.Position() in s.skipped
    || SkipRefused(s, if InCurrentChain(s, w.header) then w.header.n else w.header.pn)
    || (&& s.dhr == NilSlice && w.header.dh == NilSlice && s.pn == s.ns == s.nr == 0
        && (s.ckr == NoKey || w.header.pn == 0))
  }

  lemma OpenInChainMoves(s: State, h: Header, ct: Ciphertext)
    ensures OpenInChain(s, h, ct).0.rk == s.rk
    ensures !SkipRefused(s, h.n) ==> OpenInChain(s, h, ct).0.ckr != s.ckr
  {
    if !SkipRefused(s, h.n) && s.ckr != NoKey && h.n > s.nr {
      AdvanceAge(s.ckr, h.n - s.nr);
    }
    assert Steps(NextChainKey(Skip(s, h.n).ckr)) > Steps(s.ckr);
  }

  lemma RatchetMoves(s: State, h: Header, ct: Ciphertext, g: Option<PrivateKey>)
    requires !InCurrentChain(s, h) && !SkipRefused(s, h.pn)
    ensures OpenUnskipped(s, h, ct, g).0 == s <==>
      s.dhr == NilSlice && h.dh == NilSlice && s.pn == s.ns == s.nr == 0 && (s.ckr == NoKey || h.pn == 0)
  {
    hide OpenInChain;
    var s1 := Skip(s, h.pn);
    if s.ckr != NoKey && h.pn > s.nr {
      AdvanceAge(s.ckr, h.pn - s.nr);
    }
    var (s2, err) := DhRatchet(s1, h.dh, g);
    if ValidPoint(h.dh.Contents()) {
      assert RootDepth(s2.rk) > RootDepth(s.rk);
      OpenInChainMoves(s2, h, ct);
    } else {
      assert OpenUnskipped(s, h, ct, g).0 == s1.(pn := s1.ns, ns := 0, nr := 0, dhr := h.dh);
    }
  }

  /** A failed decrypt leaves the state as it was if and only if the message was refused early; in
      every other case the failure has already moved a chain or the ratchet. */
  lemma FailureUnchangedExactly(s: State, w: Wire, g: Option<PrivateKey>)
    requires Decrypt(s, w, g).1.Err?
    ensures Decrypt(s, w, g).0 == s <==> RefusedEarly(s, w)
  {
    hide OpenInChain;
    if w.Wire? && w.header.Position() !in s.skipped {
      var h := w.header;
      if InCurrentChain(s, h) {
        OpenInChainMoves(s, h, w.ct);
        if SkipRefused(s, h.n) {
          RefusedInChain(s, h, w.ct);
        }
      } else if !SkipRefused(s, h.pn) {
        RatchetMoves(s, h, w.ct, g);
      }
    }
  }

  lemma RefusedInChain(s: State, h: Header, ct: Ciphertext)
    requires SkipRefused(s, h.n)
    ensures OpenInChain(s, h, ct).0 == s
  {
  }
}
