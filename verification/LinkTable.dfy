/** Which goroutine owns each live link: adoption, drops after a failure, and shutdown. */
module LinkTable {
  import opened Primitives

  /** A link is one connection object; `serial` tells apart connections to the same peer. */
  datatype Link = Link(fingerprint: string, serial: nat)

  /** `links` and `stopped` are guarded by the runtime's lock. `closed` holds the links Close was called
      on, `dropping` and `stopping` those a drop or Stop has still to close after releasing the lock,
      and `adopted` every link ever registered. */
  datatype Table = Table(
    links: map<string, Link>, stopped: bool, closed: set<Link>,
    dropping: multiset<Link>, stopping: set<Link>, adopted: set<Link>)

  const FRESH := Table(map[], false, {}, multiset{}, {}, {})

  /** One locked region or one Close call of any goroutine. A failed send drops the link it used under
      the contact's fingerprint, a finished reader under the link's own. */
  datatype Action =
    | Adopt(link: Link)
    | Drop(fingerprint: string, link: Link)
    | Stop
    | CloseDropped(link: Link)
    | CloseStopped(link: Link)

  function Get(t: Table, fp: string): Option<Link> {
    if fp in t.links then Some(t.links[fp]) else None
  }

  /** Only links that were adopted are ever dropped; a Close follows the locked region that asked for it. */
  predicate Enabled(t: Table, a: Action) {
    match a
    case Adopt(l) => true
    case Drop(fp, l) => l in t.adopted
    case Stop => true
    case CloseDropped(l) => l in t.dropping
    case CloseStopped(l) => l in t.stopping
  }

  function Step(t: Table, a: Action): Table {
    match a
    case Adopt(l) =>
      var former := Get(t, l.fingerprint);
      t.(closed := if former.Some? && former.value != l then t.closed + {former.value} else t.closed,
         links := t.links[l.fingerprint := l],
         adopted := t.adopted + {l})
    case Drop(fp, l) =>
      t.(links := if Get(t, fp) == Some(l) then t.links - {fp} else t.links,
         dropping := t.dropping + multiset{l})
    case Stop =>
      if t.stopped then t
      else t.(stopped := true, links := map[], stopping := t.stopping + t.links.Values)
    case CloseDropped(l) => t.(dropping := t.dropping - multiset{l}, closed := t.closed + {l})
    case CloseStopped(l) => t.(stopping := t.stopping - {l}, closed := t.closed + {l})
  }

  /** The runtime's link bookkeeping; each method is one locked region or a Close. */
  class Runtime {
    var links: map<string, Link>
    var stopped: bool
    var closed: set<Link>
    var signalerClosed: bool
    var transportClosed: bool
    ghost var dropping: multiset<Link>
    ghost var stopping: set<Link>
    ghost var adopted: set<Link>

    ghost function View(): Table
      reads this
    {
      Table(links, stopped, closed, dropping, stopping, adopted)
    }

    constructor ()
      ensures View() == FRESH && !signalerClosed && !transportClosed
    {
      signalerClosed, transportClosed := false, false;
      links, stopped, closed := map[], false, {};
      dropping, stopping, adopted := multiset{}, {}, {};
    }

    method AdoptLink(link: Link)
      modifies `links, `closed, `adopted
      ensures View() == Step(old(View()), Adopt(link))
    {
      if link.fingerprint in links && links[link.fingerprint] != link {
        closed := closed + {links[link.fingerprint]};
      }
      links := links[link.fingerprint := link];
      adopted := adopted + {link};
    }

    method Unlink(fp: string, link: Link)
      modifies `links, `dropping
      ensures View() == Step(old(View()), Drop(fp, link))
    {
      if fp in links && links[fp] == link {
        links := links - {fp};
      }
      dropping := dropping + multiset{link};
    }

    method CloseUnlinked(link: Link)
      requires link in dropping
      modifies `closed, `dropping
      ensures View() == Step(old(View()), CloseDropped(link))
    {
      closed := closed + {link};
      dropping := dropping - multiset{link};
    }

    /** A drop nobody interferes with removes the link if it is the current one, and closes it. */
    method DropLink(fp: string, link: Link)
      modifies `links, `closed, `dropping
      ensures View() == Step(Step(old(View()), Drop(fp, link)), CloseDropped(link))
    {
      Unlink(fp, link);
      CloseUnlinked(link);
    }

    /** The locked region of Stop hands over the links that are left for it to close. */
    method Seal() returns (left: set<Link>)
      modifies `links, `stopped, `stopping
      ensures View() == Step(old(View()), Stop)
      ensures left == if old(stopped) then {} else old(links).Values
    {
      if stopped {
        return {};
      }
      stopped := true;
      left := links.Values;
      links := map[];
      stopping := stopping + left;
    }

    /** The loop of Stop over the links handed to it. */
    method CloseAll(links: set<Link>)
      requires stopping == links
      modifies `closed, `stopping
      ensures closed == old(closed) + links && stopping == {}
    {
      var left := links;
      while left != {}
        invariant left <= links && stopping == left && closed == old(closed) + (links - left)
        decreases |left|
      {
        var l :| l in left;
        closed := closed + {l};
        stopping := stopping - {l};
        left := left - {l};
      }
    }

    /** Stop, when no other goroutine runs between its closes: a second call changes nothing. */
    method StopAll()
      requires stopping == {}
      modifies this
      ensures var was := old(View());
        View() == if was.stopped then was
                  else was.(stopped := true, links := map[], closed := was.closed + was.links.Values)
      ensures signalerClosed == (old(signalerClosed) || !old(stopped))
      ensures transportClosed == (old(transportClosed) || !old(stopped))
    {
      var again := stopped;
      var left := Seal();
      CloseAll(left);
      if !again {
        signalerClosed, transportClosed := true, true;
      }
    }
  }

  // ---- Every run ----

  predicate Current(t: Table, l: Link) {
    Get(t, l.fingerprint) == Some(l)
  }

  /** The link is in the table, closed, or some goroutine has still to close it. */
  predicate Accounted(t: Table, l: Link) {
    Current(t, l) || l in t.closed || l in t.dropping || l in t.stopping
  }

  /** No adopted link is lost, and the table holds adopted links under their own fingerprints. */
  ghost predicate Owned(t: Table) {
    && (forall l :: l in t.adopted ==> Accounted(t, l))
    && (forall fp :: fp in t.links ==> t.links[fp].fingerprint == fp && t.links[fp] in t.adopted)
    && (forall l :: l in t.stopping || l in t.dropping || l in t.closed ==> l in t.adopted)
  }

  lemma StepAccounts(t: Table, a: Action, l: Link)
    requires Accounted(t, l) && Enabled(t, a)
    requires forall fp :: fp in t.links ==> t.links[fp].fingerprint == fp
    ensures Accounted(Step(t, a), l)
  {
    match a
    case Adopt(m) =>
    case Drop(fp, m) => assert l in Step(t, a).dropping <==> l == m || l in t.dropping;
    case Stop =>
    case CloseDropped(m) => assert l in t.dropping ==> l == m || l in Step(t, a).dropping;
    case CloseStopped(m) =>
  }

  lemma StepOwned(t: Table, a: Action)
    requires Owned(t) && Enabled(t, a)
    ensures Owned(Step(t, a))
  {
    hide Accounted;
    var u := Step(t, a);
    forall l | l in u.adopted ensures Accounted(u, l) {
      if l in t.adopted {
        StepAccounts(t, a, l);
      } else {
        NewAccounted(t, l);
      }
    }
  }

  lemma NewAccounted(t: Table, l: Link)
    ensures Accounted(Step(t, Adopt(l)), l)
  {
  }

  ghost predicate CanRun(t: Table, acts: seq<Action>)
    decreases |acts|
  {
    acts == [] || (Enabled(t, acts[0]) && CanRun(Step(t, acts[0]), acts[1..]))
  }

  ghost function Run(t: Table, acts: seq<Action>): Table
    decreases |acts|
  {
    if acts == [] then t else Run(Step(t, acts[0]), acts[1..])
  }

  lemma {:induction false} RunOwned(t: Table, acts: seq<Action>)
    requires Owned(t) && CanRun(t, acts)
    ensures Owned(Run(t, acts))
    decreases |acts|
  {
    if acts != [] {
      StepOwned(t, acts[0]);
      RunOwned(Step(t, acts[0]), acts[1..]);
    }
  }

  /** What can take link l out of the table: a different link of the same peer, a drop of l itself
      under its fingerprint, or the first Stop. */
  predicate Displaces(t: Table, a: Action, l: Link) {
    match a
    case Adopt(m) => m.fingerprint == l.fingerprint && m != l
    case Drop(fp, m) => fp == l.fingerprint && m == l
    case Stop => !t.stopped
    case _ => false
  }

  ghost predicate Undisturbed(t: Table, acts: seq<Action>, l: Link)
    decreases |acts|
  {
    acts == [] || (!Displaces(t, acts[0], l) && Undisturbed(Step(t, acts[0]), acts[1..], l))
  }

  /** From the table holding l, a run that never adopts l again keeps l there exactly when nothing
      displaces it. Drops of stale links of the same peer are therefore harmless. */
  lemma {:induction false} CurrentUntilDisplaced(t: Table, acts: seq<Action>, l: Link)
    requires Current(t, l) && Adopt(l) !in acts
    ensures Undisturbed(t, acts, l) <==> Current(Run(t, acts), l)
    decreases |acts|
  {
    if acts != [] {
      assert acts[0] in acts && forall a :: a in acts[1..] ==> a in acts;
      var u := Step(t, acts[0]);
      if Displaces(t, acts[0], l) {
        GoneStaysGone(u, acts[1..], l);
      } else {
        CurrentUntilDisplaced(u, acts[1..], l);
      }
    }
  }

  lemma {:induction false} GoneStaysGone(t: Table, acts: seq<Action>, l: Link)
    requires !Current(t, l) && Adopt(l) !in acts
    ensures !Current(Run(t, acts), l)
    decreases |acts|
  {
    if acts != [] {
      assert acts[0] in acts && forall a :: a in acts[1..] ==> a in acts;
      GoneStaysGone(Step(t, acts[0]), acts[1..], l);
    }
  }

  /** A newly adopted link survives every later failure of older links of its peer. */
  lemma {:induction false} StaleDropsHarmless(t: Table, l: Link, acts: seq<Action>)
    requires forall a :: a in acts ==> (a.Drop? && a.link != l) || a.CloseDropped? || a.CloseStopped?
    ensures Current(Run(Step(t, Adopt(l)), acts), l)
  {
    OnlyStaleUndisturbed(Step(t, Adopt(l)), acts, l);
    CurrentUntilDisplaced(Step(t, Adopt(l)), acts, l);
  }

  lemma {:induction false} OnlyStaleUndisturbed(t: Table, acts: seq<Action>, l: Link)
    requires forall a :: a in acts ==> (a.Drop? && a.link != l) || a.CloseDropped? || a.CloseStopped?
    ensures Undisturbed(t, acts, l)
    decreases |acts|
  {
    if acts != [] {
      assert acts[0] in acts && forall a :: a in acts[1..] ==> a in acts;
      OnlyStaleUndisturbed(Step(t, acts[0]), acts[1..], l);
    }
  }

  // ---- Shutdown ----

  /** No goroutine still owes a Close. */
  predicate Settled(t: Table) {
    t.dropping == multiset{} && t.stopping == {}
  }

  lemma {:induction false} EmptyAfterStop(t: Table, acts: seq<Action>)
    requires t.stopped && t.links == map[] && forall a :: a in acts ==> !a.Adopt?
    ensures Run(t, acts).stopped && Run(t, acts).links == map[]
    decreases |acts|
  {
    if acts != [] {
      assert acts[0] in acts && forall a :: a in acts[1..] ==> a in acts;
      EmptyAfterStop(Step(t, acts[0]), acts[1..]);
    }
  }

  lemma {:induction false} RunAppend(t: Table, a: seq<Action>, b: seq<Action>)
    ensures Run(t, a + b) == Run(Run(t, a), b)
    ensures CanRun(t, a + b) ==> CanRun(t, a) && CanRun(Run(t, a), b)
    decreases |a|
  {
    if a == [] {
      assert a + b == b;
    } else {
      assert (a + b)[1..] == a[1..] + b;
      RunAppend(Step(t, a[0]), a[1..], b);
    }
  }

  /** Over every interleaving: each adopted link is current, closed, or owed a Close. */
  lemma NoLinkLost(acts: seq<Action>, l: Link)
    requires CanRun(FRESH, acts) && l in Run(FRESH, acts).adopted
    ensures Accounted(Run(FRESH, acts), l)
    ensures var t := Run(FRESH, acts); Settled(t) && !Current(t, l) ==> l in t.closed
  {
    RunOwned(FRESH, acts);
  }

  /** Stop closes everything: once no Close is owed, every adopted link has been closed, for every run
      that adopts nothing after the first Stop. */
  lemma StopClosesAll(before: seq<Action>, later: seq<Action>)
    requires CanRun(FRESH, before + [Stop] + later)
    requires Stop !in before && forall a :: a in later ==> !a.Adopt?
    ensures var t := Run(FRESH, before + [Stop] + later);
      t.links == map[] && (Settled(t) ==> t.adopted <= t.closed)
  {
    var acts := before + [Stop] + later;
    assert acts == before + ([Stop] + later);
    RunAppend(FRESH, before, [Stop] + later);
    var t := Run(FRESH, before);
    StillRunning(FRESH, before);
    assert ([Stop] + later)[1..] == later;
    EmptyAfterStop(Step(t, Stop), later);
    RunOwned(FRESH, acts);
  }

  lemma {:induction false} StillRunning(t: Table, acts: seq<Action>)
    requires !t.stopped && Stop !in acts
    ensures !Run(t, acts).stopped
    decreases |acts|
  {
    if acts != [] {
      assert acts[0] in acts && forall a :: a in acts[1..] ==> a in acts;
      StillRunning(Step(t, acts[0]), acts[1..]);
    }
  }

  /** A link adopted after Stop stays open: nothing is owed, yet it was never closed. */
  lemma AdoptedAfterStopStaysOpen(l: Link)
    ensures var acts := [Stop, Adopt(l)];
      && CanRun(FRESH, acts)
      && Run(FRESH, acts).stopped && Settled(Run(FRESH, acts)) && Current(Run(FRESH, acts), l)
      && l !in Run(FRESH, acts).closed
  {
    var acts := [Stop, Adopt(l)];
    assert acts[1..] == [Adopt(l)] && acts[1..][1..] == [];
    var t := Step(Step(FRESH, Stop), Adopt(l));
    assert Run(Step(FRESH, Stop), [Adopt(l)]) == Run(t, []) == t;
  }

  // ---- Exactly which links end up closed ----

  /** What ends link l while it is current: being displaced, or a drop of it under any fingerprint. */
  predicate Ends(t: Table, a: Action, l: Link) {
    Displaces(t, a, l) || (a.Drop? && a.link == l)
  }

  ghost predicate Spared(t: Table, acts: seq<Action>, l: Link)
    decreases |acts|
  {
    acts == [] || (!Ends(t, acts[0], l) && Spared(Step(t, acts[0]), acts[1..], l))
  }

  /** Closed already or about to be. */
  predicate Doomed(t: Table, l: Link) {
    l in t.closed || l in t.dropping || l in t.stopping
  }

  lemma DoomedStep(t: Table, a: Action, l: Link)
    requires Doomed(t, l) && Enabled(t, a)
    ensures Doomed(Step(t, a), l)
  {
    if a.CloseDropped? {
      assert l in t.dropping ==> l == a.link || l in Step(t, a).dropping;
    }
  }

  lemma {:induction false} DoomedStays(t: Table, acts: seq<Action>, l: Link)
    requires Doomed(t, l) && CanRun(t, acts)
    ensures Doomed(Run(t, acts), l)
    decreases |acts|
  {
    hide Doomed, Step, Enabled;
    if acts != [] {
      DoomedStep(t, acts[0], l);
      DoomedStays(Step(t, acts[0]), acts[1..], l);
    }
  }

  lemma EndsDooms(t: Table, a: Action, l: Link)
    requires Owned(t) && Current(t, l) && !Doomed(t, l) && Enabled(t, a) && a != Adopt(l)
    ensures Doomed(Step(t, a), l) <==> Ends(t, a, l)
    ensures !Ends(t, a, l) ==> Current(Step(t, a), l)
  {
    if a == Stop && !t.stopped {
      assert t.links[l.fingerprint] == l;
    }
  }

  lemma {:induction false} SparedExactly(t: Table, acts: seq<Action>, l: Link)
    requires Owned(t) && Current(t, l) && !Doomed(t, l) && CanRun(t, acts) && Adopt(l) !in acts
    ensures Spared(t, acts, l) <==> !Doomed(Run(t, acts), l)
    decreases |acts|
  {
    hide Doomed, Step, Enabled, Owned, Current, Ends;
    if acts != [] {
      assert acts[0] in acts && forall a :: a in acts[1..] ==> a in acts;
      StepOwned(t, acts[0]);
      EndsDooms(t, acts[0], l);
      if Ends(t, acts[0], l) {
        DoomedStays(Step(t, acts[0]), acts[1..], l);
      } else {
        SparedExactly(Step(t, acts[0]), acts[1..], l);
      }
    }
  }

  /** A link adopted once, before or after Stop, has been closed when no Close is owed any more if and
      only if some later action ended it: a newer link of its peer, a drop of it, or a first Stop. */
  lemma ClosedExactly(before: seq<Action>, l: Link, later: seq<Action>)
    requires CanRun(FRESH, before + [Adopt(l)] + later) && Settled(Run(FRESH, before + [Adopt(l)] + later))
    requires l !in Run(FRESH, before).adopted && Adopt(l) !in later
    ensures l in Run(FRESH, before + [Adopt(l)] + later).closed
       <==> !Spared(Step(Run(FRESH, before), Adopt(l)), later, l)
  {
    var acts := before + [Adopt(l)] + later;
    assert acts == before + ([Adopt(l)] + later);
    assert ([Adopt(l)] + later)[1..] == later;
    RunAppend(FRESH, before, [Adopt(l)] + later);
    RunOwned(FRESH, before);
    var t := Step(Run(FRESH, before), Adopt(l));
    StepOwned(Run(FRESH, before), Adopt(l));
    SparedExactly(t, later, l);
  }
}
