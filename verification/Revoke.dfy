/** revoke (sel4_cspace/src/cte.rs): delete the next slot for as long as it is a child. */
module Revoke {
  import opened Caps
  import opened MdbNodes
  import opened Memory
  import opened Descent
  import opened Mdb
  import opened Containers
  import opened SwapSafety
  import opened DeletionFrame
  import opened DeletionSteps
  import opened Deletion

  /** The first position from j on that is not a child of node i reached through joined nodes. */
  ghost function RunFrom(ns: seq<Node>, i: nat, j: nat): (e: nat)
    requires i < j <= |ns|
    ensures j <= e <= |ns|
    decreases |ns| - j
  {
    if j < |ns| && ns[j - 1].joined && IsParent(ns[i], ns[j]) then RunFrom(ns, i, j + 1) else j
  }

  /** The end of the maximal run of children directly after node i. */
  ghost function RunEnd(ns: seq<Node>, i: nat): (e: nat)
    requires i < |ns|
  {
    RunFrom(ns, i, i + 1)
  }

  /** Every child in the run can be removed without deleting the slots of another object. */
  ghost predicate RunPlain(ns: seq<Node>, i: nat)
    requires i < |ns|
  {
    forall j :: i < j < RunEnd(ns, i) ==>
      && !ns[j].cap.ZombieCap?
      && (ns[j].cap.CNodeCap? || ns[j].cap.ThreadCap? || ns[j].cap.IrqHandlerCap? ==> SameObject(ns[i], ns[j]))
  }

  lemma {:induction false} RunFromParent(ns: seq<Node>, i: nat, j: nat, k: nat)
    requires i < j <= k < |ns| && k < RunFrom(ns, i, j)
    ensures ns[k - 1].joined && IsParent(ns[i], ns[k])
    decreases k - j
  {
    if j < k { RunFromParent(ns, i, j + 1, k); }
  }

  lemma {:induction false} RunReaches(ns: seq<Node>, i: nat, j: nat, k: nat)
    requires i < j <= k < |ns| && forall m {:trigger ChildAt(ns, i, m)} :: j <= m <= k ==> ChildAt(ns, i, m)
    ensures k < RunFrom(ns, i, j)
    decreases k - j
  {
    assert ChildAt(ns, i, j);
    if j < k { RunReaches(ns, i, j + 1, k); }
  }

  /** The run of children is the descendants. */
  lemma RunIsDescent(ns: seq<Node>, i: nat, j: nat)
    requires NodesOk(ns) && i < j < |ns|
    ensures j < RunEnd(ns, i) <==> Descends(ns, i, j)
  {
    DescentIsRun(ns, i, j);
    if j < RunEnd(ns, i) {
      forall m | i < m <= j
        ensures ChildAt(ns, i, m)
      {
        RunFromParent(ns, i, i + 1, m);
      }
    } else if Descends(ns, i, j) {
      RunReaches(ns, i, i + 1, j);
    }
  }

  /** What descends from node i can be removed without deleting the slots of another object. */
  ghost predicate PlainDescent(ns: seq<Node>, i: nat)
    requires i < |ns|
  {
    forall j: nat :: Descends(ns, i, j) ==>
      && !ns[j].cap.ZombieCap?
      && (ns[j].cap.CNodeCap? || ns[j].cap.ThreadCap? || ns[j].cap.IrqHandlerCap? ==> SameObject(ns[i], ns[j]))
  }

  lemma PlainIsRunPlain(ns: seq<Node>, i: nat)
    requires NodesOk(ns) && i < |ns|
    ensures PlainDescent(ns, i) ==> RunPlain(ns, i)
  {
    forall j | i < j < RunEnd(ns, i)
      ensures Descends(ns, i, j)
    {
      RunIsDescent(ns, i, j);
    }
  }

  /** Only an untyped or the IRQ control capability can have children that are not plain. */
  lemma OthersDescendPlain(ns: seq<Node>, i: nat)
    requires i < |ns| && !ns[i].cap.UntypedCap? && !ns[i].cap.IrqControlCap?
    ensures PlainDescent(ns, i)
  {}

  /** After t children of node i have been removed from ns0. */
  ghost predicate AfterRun(ns0: seq<Node>, ns: seq<Node>, i: nat, t: nat) {
    && i + t < |ns0| && |ns| == |ns0| - t
    && (forall k :: 0 <= k < i ==> ns[k] == ns0[k])
    && ns[i] == ns0[i].(joined := ns0[i + t].joined)
    && (forall k :: i + 1 < k < |ns| ==> ns[k] == ns0[k + t])
    && (i + 1 < |ns| ==>
          && ns[i + 1].cap == ns0[i + 1 + t].cap && ns[i + 1].joined == ns0[i + 1 + t].joined
          && ns[i + 1].revocable == ns0[i + 1 + t].revocable
          && (Badge(ns0[i].cap) != 0 ==> ns[i + 1].firstBadged == ns0[i + 1 + t].firstBadged))
  }

  lemma AfterRunSameTest(ns0: seq<Node>, ns: seq<Node>, i: nat, t: nat)
    requires AfterRun(ns0, ns, i, t) && i + 1 < |ns|
    ensures ns[i].joined == ns0[i + t].joined
    ensures IsParent(ns[i], ns[i + 1]) == IsParent(ns0[i], ns0[i + 1 + t])
  {}

  lemma AfterRunStep(ns0: seq<Node>, ns: seq<Node>, i: nat, t: nat)
    requires AfterRun(ns0, ns, i, t) && i + 1 < |ns| && ns[i].joined && IsParent(ns[i], ns[i + 1])
    ensures AfterRun(ns0, RemoveNode(ns, i + 1), i, t + 1)
  {}

  /** The slots at positions i + 1 .. i + t are empty; all others keep their capability. */
  ghost predicate RunRemoved(s0: Slots, o0: seq<nat>, s: Slots, o: seq<nat>, i: nat, t: nat) {
    && i + 1 + t <= |o0| && s.Keys == s0.Keys
    && o == o0[..i + 1] + o0[i + 1 + t..]
    && forall b :: b in s0 ==>
         if b in o0[i + 1..i + 1 + t] then s[b] == EMPTY else s[b].cap == s0[b].cap
  }

  lemma RunRemovedStep(s0: Slots, o0: seq<nat>, s: Slots, o: seq<nat>, i: nat, t: nat, s': Slots, o': seq<nat>)
    requires RunRemoved(s0, o0, s, o, i, t) && i + 1 < |o|
    requires s'.Keys == s.Keys && o' == RemoveAt(o, i + 1) && o[i + 1] in s && s'[o[i + 1]] == EMPTY
    requires forall b :: b in s && b != o[i + 1] ==> s'[b].cap == s[b].cap
    requires forall b :: b in s' && s'[b].cap == NullCap ==> s'[b] == EMPTY
    ensures RunRemoved(s0, o0, s', o', i, t + 1)
  {
    assert o[i + 1] == o0[i + 1 + t];
    assert o' == o0[..i + 1] + o0[i + 2 + t..];
    assert o0[i + 1..i + 2 + t] == o0[i + 1..i + 1 + t] + [o0[i + 1 + t]];
  }

  lemma EmptyMeansEmpty(slots: Slots, order: seq<nat>, ns: seq<Node>)
    requires Rep(slots, order, ns)
    ensures forall b :: b in slots && slots[b].cap == NullCap ==> slots[b] == EMPTY
  {
    forall b | b in slots && slots[b].cap == NullCap
      ensures slots[b] == EMPTY
    {
      LinksAreInverse(slots, order, ns, b);
    }
  }

  /** The slot after a, seen through the nodes. */
  lemma NextIsNextNode(slots: Slots, order: seq<nat>, ns: seq<Node>, a: nat)
    requires Rep(slots, order, ns) && a in slots && slots[a].next != 0
    ensures a in order && slots[a].next in slots && slots[slots[a].next].cap != NullCap
    ensures
      var i := Index(order, a);
      i + 1 < |order| && ns[i].joined && order[i + 1] == slots[a].next
      && (IsMdbParentOf(slots[a], slots[order[i + 1]]) <==> IsParent(ns[i], ns[i + 1]))
      && Index(order, order[i + 1]) == i + 1
      && ns[i].cap == slots[a].cap && ns[i + 1].cap == slots[order[i + 1]].cap
  {
    LinksAreInverse(slots, order, ns, a);
    var i := Index(order, a);
    assert At(slots, order, ns, i);
    if i + 1 < |order| { assert At(slots, order, ns, i + 1); }
  }

  /** A child that names its parent's object is never the last capability to it. */
  lemma ChildIsPlain(slots: Slots, order: seq<nat>, ns: seq<Node>, a: nat, b: nat)
    requires Rep(slots, order, ns) && a in slots && b in slots && a != b
    requires !slots[b].cap.ZombieCap?
    requires slots[b].cap.CNodeCap? || slots[b].cap.ThreadCap? || slots[b].cap.IrqHandlerCap?
             ==> ObjectOf(slots[a].cap) == ObjectOf(slots[b].cap)
    ensures Plain(slots, b)
  {
    SameObjectIsSameId(slots[b].cap, slots[a].cap);
  }

  /** The exact course of revoke on slot a, the element i of the list, after t turns. */
  ghost predicate RunState(s0: Slots, o0: seq<nat>, ns0: seq<Node>, s: Slots, o: seq<nat>, ns: seq<Node>,
                           a: nat, i: nat, t: nat)
  {
    && Rep(s0, o0, ns0) && a in o0 && i == Index(o0, a) && RunPlain(ns0, i)
    && RunRemoved(s0, o0, s, o, i, t) && AfterRun(ns0, ns, i, t)
    && RunFrom(ns0, i, i + 1 + t) == RunEnd(ns0, i)
  }

  // ---- what a revocation touches ----

  /** The slots that hold something of what slot a stands for. */
  function Kin(slots: Slots, a: nat): (x: set<nat>)
    requires a in slots
  {
    set b | b in slots && b != a && SameRegionAs(slots[a].cap, slots[b].cap)
  }

  /** The containers among it. */
  function KinNames(slots: Slots, a: nat): (ks: set<Container>)
    requires a in slots
  {
    set b | b in Kin(slots, a) && IsContainerCap(slots[b].cap) :: ContainerOf(slots[b].cap)
  }

  /** Only kin of a is deleted, with what died by that. */
  ghost predicate KinTaken(slots: Slots, slots': Slots, l: Layout, a: nat, done: bool) {
    a in slots && Taken(slots, slots', l, KinNames(slots, a), Kin(slots, a), if done then {} else Kin(slots, a), done)
  }

  /** While a has a child it is as it was at first, and so is the child, or it is the zombie of a container that died.
      */
  lemma ChildKin(first: Slots, d: Db, l: Layout, a: nat)
    requires DbOk(d, l) && a in first && a in d.slots && first.Keys == d.slots.Keys && HasChild(d.slots, a)
    requires KinTaken(first, d.slots, l, a, true)
    ensures
      var next := d.slots[a].next;
      && next in first && next != a && d.slots[next].cap != NullCap
      && (d.slots[next].cap == first[next].cap ==> next in Kin(first, a))
      && (d.slots[next].cap != first[next].cap ==>
            && d.slots[next].cap.ZombieCap? && d.slots[next].cap.ptr == next
            && DeadAt(first, d.slots, l, KinNames(first, a), next))
  {
    var next, ks, x := d.slots[a].next, KinNames(first, a), Kin(first, a);
    NextIsNextNode(d.slots, d.order, d.nodes, a);
    assert At(d.slots, d.order, d.nodes, Index(d.order, a)) && At(d.slots, d.order, d.nodes, Index(d.order, a) + 1);
    assert TakenAt(first, d.slots, l, ks, x, true, a) && TakenAt(first, d.slots, l, ks, x, true, next);
  }

  /** What the child stands for is among the kin, or died before. */
  lemma ChildNames(first: Slots, d: Db, l: Layout, a: nat, k: Container)
    requires DbOk(d, l) && a in first && a in d.slots && first.Keys == d.slots.Keys && HasChild(d.slots, a)
    requires KinTaken(first, d.slots, l, a, true)
    requires k in Names(d.slots[d.slots[a].next].cap)
    ensures k in KinNames(first, a) || (Named(first, k) && !Named(d.slots, k))
  {
    var next := d.slots[a].next;
    ChildKin(first, d, l, a);
    if d.slots[next].cap != first[next].cap { CyclicDead(d.slots, l, next); }
  }

  /** One turn, seen from the beginning. */
  lemma TurnTakenAt(first: Slots, d: Db, slots': Slots, l: Layout, a: nat, done: bool, c: nat)
    requires DbOk(d, l) && a in first && a in d.slots && HasChild(d.slots, a) && KinTaken(first, d.slots, l, a, true)
    requires Wanes(first, d.slots) && Wanes(d.slots, slots') && Leftover(slots'[d.slots[a].next].cap)
    requires (done ==> slots'[d.slots[a].next].cap.NullCap?)
    requires
      var next := d.slots[a].next;
      Taken(d.slots, slots', l, Names(d.slots[next].cap), {next}, if done then {} else {next}, done)
    requires done || c !in Kin(first, a)
    ensures TakenAt(first, slots', l, KinNames(first, a), Kin(first, a), done, c)
  {
    var next, ks, x := d.slots[a].next, KinNames(first, a), Kin(first, a);
    var kr := Names(d.slots[next].cap);
    ChildKin(first, d, l, a);
    forall k | k in kr
      ensures k in ks || (Named(first, k) && !Named(d.slots, k))
    {
      ChildNames(first, d, l, a, k);
    }
    DeadTrans(first, d.slots, slots', l, ks, kr, c);
    assert TakenAt(first, d.slots, l, ks, x, true, c);
    if c != next || done { assert TakenAt(d.slots, slots', l, kr, {next}, done, c); }
    TurnSides(first, d.slots, slots', l, kr, x, next, done, c);
  }

  /** Slots emptied on the side before or in the turn. */
  lemma TurnSides(first: Slots, slots: Slots, slots': Slots, l: Layout, kr: set<Container>, x: set<nat>, next: nat,
      done: bool, c: nat)
    requires Wanes(first, slots) && Wanes(slots, slots') && next in slots' && Leftover(slots'[next].cap)
    requires Taken(slots, slots', l, kr, {next}, if done then {} else {next}, done)
    ensures (exists irq :: Unhandled(first, slots, l, x, c, irq)) ==>
      exists irq :: Unhandled(first, slots', l, x, c, irq)
    ensures (exists irq :: Unhandled(slots, slots', l, {next}, c, irq)) ==>
      exists irq :: Unhandled(first, slots', l, x, c, irq)
    ensures c in first && c in slots && slots[c].cap == first[c].cap && Unawaited(slots, slots', c) ==>
      Unawaited(first, slots', c)
    ensures c in first && Unawaited(first, slots, c) ==> Unawaited(first, slots', c)
  {
    if c in first && first[c].cap.ReplyCap? && Live(slots', TcbOf(first[c].cap.tcb)) {
      WanesLive(slots, slots', TcbOf(first[c].cap.tcb));
    }
    forall irq | Unhandled(first, slots, l, x, c, irq)
      ensures Unhandled(first, slots', l, x, c, irq)
    {
      forall h | HandlerAt(slots', irq, h)
        ensures h in x
      {
        assert TakenAt(slots, slots', l, kr, {next}, done, h);
      }
    }
    forall irq | Unhandled(slots, slots', l, {next}, c, irq)
      ensures Unhandled(first, slots', l, x, c, irq)
    {
      var h :| HandlerAt(slots, irq, h);
      assert Came(first, slots, h);
      var g :| g in first && first[g].cap == slots[h].cap;
      assert HandlerAt(first, irq, g);
    }
  }

  lemma TurnTaken(first: Slots, d: Db, slots': Slots, l: Layout, a: nat, done: bool)
    requires DbOk(d, l) && a in first && a in d.slots && HasChild(d.slots, a) && KinTaken(first, d.slots, l, a, true)
    requires Wanes(first, d.slots) && Wanes(d.slots, slots') && Leftover(slots'[d.slots[a].next].cap)
    requires (done ==> slots'[d.slots[a].next].cap.NullCap?)
    requires
      var next := d.slots[a].next;
      Taken(d.slots, slots', l, Names(d.slots[next].cap), {next}, if done then {} else {next}, done)
    ensures KinTaken(first, slots', l, a, done)
  {
    forall c | done || c !in Kin(first, a)
      ensures TakenAt(first, slots', l, KinNames(first, a), Kin(first, a), done, c)
    {
      TurnTakenAt(first, d, slots', l, a, done, c);
    }
  }

  /** A zone for any sequence of deletions. */
  ghost predicate WholeZone(slots: Slots, l: Layout, z: Zone) {
    slots.Keys <= z.touched && l.owner.Keys <= z.swapped
  }

  lemma WholeCovers(slots: Slots, l: Layout, z: Zone, a: nat)
    requires WholeZone(slots, l, z) && a in slots
    ensures Covered(slots, l, z, a)
  {
    forall e
      ensures CoveredAt(slots, l, z, a, e)
    {
      assert e in l.owner.Keys ==> e in z.swapped;
    }
  }

  /** One turn of the loop: the next slot is a child and is deleted. */
  method RevokeNext(cs: CSpace, l: Layout, blocked: set<nat>, a: nat, ghost z: Zone, ghost first: Slots)
    returns (status: Status)
    requires Inv(cs, l) && a in cs.slots && HasChild(cs.slots, a) && RepliesBlocked(cs.slots, blocked)
    requires WholeZone(cs.slots, l, z)
    requires Wanes(first, cs.slots) && KinTaken(first, cs.slots, l, a, true)
    modifies cs
    ensures Evolves(old(View(cs)), View(cs), l, z)
    ensures Clear(old(View(cs)), l, z) ==> status.Done?
    ensures status.AdjacentSwap? ==> AtSwap(cs.slots)
    ensures status.Done? ==>
      Loose(cs.slots) < Loose(old(cs.slots))
        || (Loose(cs.slots) == Loose(old(cs.slots)) && |cs.order| < |old(cs.order)|)
    ensures old(Plain(cs.slots, cs.slots[a].next)) ==>
      status.Done?
        && Emptied(old(cs.slots), old(cs.order), old(cs.nodes), cs.slots, cs.order, cs.nodes, old(cs.slots[a].next))
    ensures KinTaken(first, cs.slots, l, a, status.Done?)
  {
    ghost var d := View(cs);
    NextIsNextNode(cs.slots, cs.order, cs.nodes, a);
    WholeCovers(cs.slots, l, z, cs.slots[a].next);
    status := DeleteAll(cs, l, blocked, cs.slots[a].next, true, z);
    TurnTaken(first, d, cs.slots, l, a, status.Done?);
  }

  lemma RunStateStep(s0: Slots, o0: seq<nat>, ns0: seq<Node>, s: Slots, o: seq<nat>, ns: seq<Node>,
                     s': Slots, o': seq<nat>, ns': seq<Node>, a: nat, i: nat, t: nat)
    requires RunState(s0, o0, ns0, s, o, ns, a, i, t) && Rep(s, o, ns) && a in s && HasChild(s, a)
    requires Emptied(s, o, ns, s', o', ns', s[a].next)
    ensures RunState(s0, o0, ns0, s', o', ns', a, i, t + 1)
  {
    RunChildPlain(s0, o0, s, o, ns0, ns, a, i, t);
    EmptyMeansEmpty(s', o', ns');
    RunRemovedStep(s0, o0, s, o, i, t, s', o');
    AfterRunStep(ns0, ns, i, t);
  }

  /** RevokeNext on the exact course. */
  method RevokeTurn(cs: CSpace, l: Layout, blocked: set<nat>, a: nat, ghost exact: bool, ghost first: Db, ghost i: nat,
      ghost t: nat, ghost z: Zone)
    returns (status: Status)
    requires Inv(cs, l) && a in cs.slots && HasChild(cs.slots, a) && RepliesBlocked(cs.slots, blocked)
    requires WholeZone(cs.slots, l, z)
    requires exact ==> RunState(first.slots, first.order, first.nodes, cs.slots, cs.order, cs.nodes, a, i, t)
    requires Evolves(first, View(cs), l, z) && KinTaken(first.slots, cs.slots, l, a, true)
    modifies cs
    ensures Evolves(first, View(cs), l, z) && RepliesBlocked(cs.slots, blocked)
    ensures Clear(first, l, z) ==> status.Done?
    ensures status.AdjacentSwap? ==> AtSwap(cs.slots)
    ensures status.Done? ==>
      Loose(cs.slots) < Loose(old(cs.slots))
        || (Loose(cs.slots) == Loose(old(cs.slots)) && |cs.order| < |old(cs.order)|)
    ensures exact ==>
      status.Done? && RunState(first.slots, first.order, first.nodes, cs.slots, cs.order, cs.nodes, a, i, t + 1)
    ensures KinTaken(first.slots, cs.slots, l, a, status.Done?)
  {
    ghost var d := View(cs);
    if exact { RunChildPlain(first.slots, first.order, d.slots, d.order, first.nodes, d.nodes, a, i, t); }
    status := RevokeNext(cs, l, blocked, a, z, first.slots);
    if exact {
      RunStateStep(first.slots, first.order, first.nodes, d.slots, d.order, d.nodes, cs.slots, cs.order, cs.nodes, a, i,
        t);
    }
    EvolvesTrans(first, d, View(cs), l, z);
    BlockedKept(d.slots, cs.slots, blocked);
  }

  /** revoke ends with a slot that has no children, unless a zombie gets next to its own first slot, which does
      not happen in a clear space; and when its children are plain it removes exactly the maximal run of
      children after the slot and nothing else. */
  method RevokeSlot(cs: CSpace, l: Layout, blocked: set<nat>, a: nat, ghost z: Zone) returns (status: Status)
    requires Inv(cs, l) && a in cs.slots && RepliesBlocked(cs.slots, blocked) && WholeZone(cs.slots, l, z)
    modifies cs
    ensures Evolves(old(View(cs)), View(cs), l, z)
    ensures Clear(old(View(cs)), l, z) ==> status.Done?
    ensures status.AdjacentSwap? ==> AtSwap(cs.slots)
    ensures status.Done? ==> Childless(View(cs), a)
    ensures a in old(cs.order) && PlainDescent(old(cs.nodes), Index(old(cs.order), a)) ==>
      status.Done? && Revoked(old(View(cs)), cs.slots, cs.order, a)
    ensures status.Done? && old(IsOriginal(cs.slots, a)) ==> UniqueObject(cs.slots, a)
    ensures KinTaken(old(cs.slots), cs.slots, l, a, status.Done?)
  {
    ghost var first := View(cs);
    ghost var s0, o0, ns0 := cs.slots, cs.order, cs.nodes;
    ghost var i: nat := if a in o0 then Index(o0, a) else 0;
    ghost var t: nat := 0;
    ghost var exact := a in o0 && PlainDescent(ns0, i);
    if a in o0 { OriginalPlain(first, a); PlainIsRunPlain(ns0, i); }
    if exact { RunStateStart(s0, o0, ns0, a); }
    EvolvesSelf(first, l, z);
    TakenSelf(s0, l, KinNames(s0, a), Kin(s0, a), {});
    while cs.slots[a].next != 0
      invariant Evolves(first, View(cs), l, z) && RepliesBlocked(cs.slots, blocked)
      invariant KinTaken(s0, cs.slots, l, a, true)
      invariant exact ==> RunState(s0, o0, ns0, cs.slots, cs.order, cs.nodes, a, i, t)
      decreases Loose(cs.slots), |cs.order|
    {
      LinksAreInverse(cs.slots, cs.order, cs.nodes, a);
      if !IsMdbParentOf(cs.slots[a], cs.slots[cs.slots[a].next]) {
        break;
      }
      status := RevokeTurn(cs, l, blocked, a, exact, first, i, t, z);
      if !status.Done? {
        return;
      }
      t := t + 1;
    }
    if a in cs.order { ChildMeansDescendant(cs.slots, cs.order, cs.nodes, a); }
    if exact { RunEnds(first, View(cs), a, i, t); }
    status := Done;
  }

  /** Nothing descends from slot a. */
  ghost predicate Childless(d: Db, a: nat)
    requires |d.order| == |d.nodes|
  {
    a in d.order ==> IsBare(d.nodes, Index(d.order, a))
  }

  /** Exactly the descendants of slot a have gone: those from the next position of the list up to e. */
  ghost predicate RevokedTo(d: Db, s: Slots, o: seq<nat>, i: nat, e: nat) {
    && i < e <= |d.order| == |d.nodes| && o == d.order[..i + 1] + d.order[e..] && s.Keys == d.slots.Keys
    && (forall j :: i < j < |d.order| ==> (Descends(d.nodes, i, j) <==> j < e))
    && forall b :: b in d.slots ==> if b in d.order[i + 1..e] then s[b] == EMPTY else s[b].cap == d.slots[b].cap
  }

  ghost predicate Revoked(d: Db, s: Slots, o: seq<nat>, a: nat)
    requires a in d.order
  {
    exists e: nat :: RevokedTo(d, s, o, Index(d.order, a), e)
  }

  /** An original: the capability that a new object started with, before any badge. */
  predicate IsOriginal(slots: Slots, a: nat) {
    && a in slots && slots[a].revocable && Badge(slots[a].cap) == 0 && ObjectOf(slots[a].cap) != NoObject
    && !slots[a].cap.FrameCap? && !slots[a].cap.IrqControlCap?
  }

  lemma OriginalPlain(d: Db, a: nat)
    requires Rep(d.slots, d.order, d.nodes) && a in d.order
    ensures IsOriginal(d.slots, a) ==> PlainDescent(d.nodes, Index(d.order, a))
  {
    assert At(d.slots, d.order, d.nodes, Index(d.order, a));
    if IsOriginal(d.slots, a) { OthersDescendPlain(d.nodes, Index(d.order, a)); }
  }

  /** The end of the exact course. */
  lemma RunEnds(first: Db, d: Db, a: nat, i: nat, t: nat)
    requires RunState(first.slots, first.order, first.nodes, d.slots, d.order, d.nodes, a, i, t)
    requires NodesOk(first.nodes) && Rep(d.slots, d.order, d.nodes) && NodesOk(d.nodes)
    requires a in d.slots && !HasChild(d.slots, a) && Childless(d, a)
    ensures Revoked(first, d.slots, d.order, a)
    ensures IsOriginal(first.slots, a) ==> UniqueObject(d.slots, a)
  {
    AfterRunStop(first.slots, first.order, d.slots, d.order, first.nodes, d.nodes, a, i, t);
    forall j | i < j < |first.order|
      ensures Descends(first.nodes, i, j) <==> j < RunEnd(first.nodes, i)
    {
      RunIsDescent(first.nodes, i, j);
    }
    assert RevokedTo(first, d.slots, d.order, i, RunEnd(first.nodes, i));
    PositionKept(first.slots, first.order, first.nodes, d.slots, d.order, d.nodes, a, i, t);
    assert At(first.slots, first.order, first.nodes, i) && At(d.slots, d.order, d.nodes, i);
    if IsOriginal(first.slots, a) { SoleSlot(d, a); }
  }

  lemma SoleSlot(d: Db, a: nat)
    requires Rep(d.slots, d.order, d.nodes) && NodesOk(d.nodes) && a in d.order && Childless(d, a)
    requires IsOriginal(d.slots, a)
    ensures UniqueObject(d.slots, a)
  {
    var i := Index(d.order, a);
    assert At(d.slots, d.order, d.nodes, i);
    forall b | b in d.slots && b != a
      ensures !SameObjectAs(d.slots[a].cap, d.slots[b].cap)
    {
      SameObjectIsSameId(d.slots[a].cap, d.slots[b].cap);
      LinksAreInverse(d.slots, d.order, d.nodes, b);
      if b in d.order {
        var k := Index(d.order, b);
        assert At(d.slots, d.order, d.nodes, k);
        OriginalIsSole(d.nodes, i, k);
      }
    }
  }

  ghost predicate RevokedExactly(s0: Slots, o0: seq<nat>, ns0: seq<Node>, s: Slots, o: seq<nat>, a: nat)
    requires a in o0 && |o0| == |ns0|
  {
    var i := Index(o0, a);
    RunRemoved(s0, o0, s, o, i, RunEnd(ns0, i) - (i + 1))
  }

  lemma RunStateStart(s0: Slots, o0: seq<nat>, ns0: seq<Node>, a: nat)
    requires Rep(s0, o0, ns0) && a in o0 && RunPlain(ns0, Index(o0, a))
    ensures RunState(s0, o0, ns0, s0, o0, ns0, a, Index(o0, a), 0)
  {
    var i := Index(o0, a);
    assert o0 == o0[..i + 1] + o0[i + 1..];
  }

  /** a keeps its position while later elements are removed. */
  lemma PositionKept(s0: Slots, o0: seq<nat>, ns0: seq<Node>, s: Slots, o: seq<nat>, ns: seq<Node>, a: nat, i: nat,
      t: nat)
    requires Rep(s0, o0, ns0) && a in o0 && i == Index(o0, a)
    requires Rep(s, o, ns) && RunRemoved(s0, o0, s, o, i, t)
    ensures a in o && Index(o, a) == i
  {
    assert At(s0, o0, ns0, i);
    assert o[i] == a;
    assert At(s, o, ns, i);
  }

  lemma AfterRunStop(s0: Slots, o0: seq<nat>, s: Slots, o: seq<nat>, ns0: seq<Node>, ns: seq<Node>, a: nat, i: nat,
      t: nat)
    requires RunState(s0, o0, ns0, s, o, ns, a, i, t) && Rep(s, o, ns) && a in s && !HasChild(s, a)
    ensures RevokedExactly(s0, o0, ns0, s, o, a)
  {
    PositionKept(s0, o0, ns0, s, o, ns, a, i, t);
    assert At(s, o, ns, i);
    if s[a].next != 0 {
      NextIsNextNode(s, o, ns, a);
      AfterRunSameTest(ns0, ns, i, t);
    } else if i + 1 < |o| {
      assert At(s, o, ns, i + 1);
    }
  }

  lemma RunChildPlain(s0: Slots, o0: seq<nat>, s: Slots, o: seq<nat>, ns0: seq<Node>, ns: seq<Node>, a: nat, i: nat,
      t: nat)
    requires Rep(s0, o0, ns0) && a in o0 && i == Index(o0, a) && i < |ns0| && RunPlain(ns0, i)
    requires Rep(s, o, ns) && RunRemoved(s0, o0, s, o, i, t) && AfterRun(ns0, ns, i, t)
    requires RunFrom(ns0, i, i + 1 + t) == RunEnd(ns0, i)
    requires a in s && HasChild(s, a)
    ensures a in o && Index(o, a) == i && i + 1 < |o| && o[i + 1] == s[a].next && Index(o, o[i + 1]) == i + 1
    ensures ns[i].joined && IsParent(ns[i], ns[i + 1])
    ensures Plain(s, s[a].next) && s[s[a].next].cap != NullCap
    ensures RunFrom(ns0, i, i + 2 + t) == RunEnd(ns0, i)
  {
    PositionKept(s0, o0, ns0, s, o, ns, a, i, t);
    NextIsNextNode(s, o, ns, a);
    AfterRunSameTest(ns0, ns, i, t);
    ChildIsPlain(s, o, ns, a, s[a].next);
  }
}
