/** The steps of a deletion on the capability space as a value: a slot is emptied, the last capability of a
    container becomes a zombie, a zombie counts down, a zombie goes into its own first slot
    (sel4_cspace/src/cte.rs). Each keeps the whole invariant. */
module DeletionSteps {
  import opened Caps
  import opened MdbNodes
  import opened Memory
  import opened Mdb
  import opened ReplyMdb
  import opened Containers
  import opened SwapSafety
  import opened DeletionFrame

  /** What every part of a deletion keeps: the invariant, the slots, and a clear space; loose capabilities
      and capabilities as such only become fewer. */
  ghost predicate Evolves(d: Db, d': Db, l: Layout, z: Zone) {
    && DbOk(d', l) && d'.slots.Keys == d.slots.Keys
    && Loose(d'.slots) <= Loose(d.slots) && |d'.order| <= |d.order|
    && Wanes(d.slots, d'.slots)
    && (Clear(d, l, z) ==> Clear(d', l, z))
  }

  lemma EvolvesTrans(d0: Db, d1: Db, d2: Db, l: Layout, z: Zone)
    requires Evolves(d0, d1, l, z) && Evolves(d1, d2, l, z)
    ensures Evolves(d0, d2, l, z)
  {
    WanesTrans(d0.slots, d1.slots, d2.slots);
  }

  lemma EvolvesSelf(d: Db, l: Layout, z: Zone)
    requires DbOk(d, l)
    ensures Evolves(d, d, l, z)
  {}

  /** What deleting slot e without exposing it may do to the rest of the system: a zombie stored
      elsewhere is untouched, unless it is pushed out by the zombie of the object whose first
      slot it occupied; and loose capabilities only become fewer. */
  ghost predicate Frame(slots: Slots, slots': Slots, e: nat) {
    && slots'.Keys == slots.Keys
    && Loose(slots') <= Loose(slots)
    && forall b {:trigger FrameAt(slots, slots', e, b)} :: FrameAt(slots, slots', e, b)
  }

  ghost predicate FrameAt(slots: Slots, slots': Slots, e: nat, b: nat) {
    b in slots && b in slots' && b != e && slots[b].cap.ZombieCap? ==>
      slots'[b].cap == slots[b].cap
      || (CyclicZombie(slots'[b].cap, b) && slots[b].cap.ptr != b && Loose(slots') < Loose(slots))
  }

  /** capCyclicZombie */
  predicate CyclicZombie(c: Cap, a: nat) {
    c.ZombieCap? && c.ptr == a
  }

  lemma FrameTrans(s0: Slots, s1: Slots, s2: Slots, e: nat)
    requires Frame(s0, s1, e) && Frame(s1, s2, e)
    ensures Frame(s0, s2, e)
  {
    forall b
      ensures FrameAt(s0, s2, e, b)
    {
      assert FrameAt(s0, s1, e, b) && FrameAt(s1, s2, e, b);
    }
  }

  // ---- set_empty ----

  lemma RemoveStep(d: Db, l: Layout, z: Zone, a: nat, d': Db)
    requires DbOk(d, l) && a in d.slots && MayGo(d.slots, a)
    requires Emptied(d.slots, d.order, d.nodes, d'.slots, d'.order, d'.nodes, a)
    requires Clear(d, l, z) ==> a in z.touched || d.slots[a].cap.ReplyCap? || d.slots[a].cap.NullCap?
    ensures Evolves(d, d', l, z) && Frame(d.slots, d'.slots, a)
  {
    if d.slots[a].cap == NullCap {
      EvolvesSelf(d, l, z);
    } else {
      RemoveKeepsRest(d, l, a, d');
      WithoutKeepsCapsOk(d.slots, l, d'.slots, a);
      if Clear(d, l, z) { RemoveKeepsClear(d, l, z, a, d'); }
      WithoutWanes(d.slots, d'.slots, a);
    }
  }

  lemma RemoveKeepsRest(d: Db, l: Layout, a: nat, d': Db)
    requires DbOk(d, l) && a in d.slots && d.slots[a].cap != NullCap && MayGo(d.slots, a)
    requires Emptied(d.slots, d.order, d.nodes, d'.slots, d'.order, d'.nodes, a)
    ensures NodesOk(d'.nodes) && ReplyPairs(d'.nodes)
  {
    var i := Index(d.order, a);
    assert At(d.slots, d.order, d.nodes, i);
    RemoveKeepsNodesOk(d.nodes, i);
    if d.slots[a].cap.ReplyCap? && d.slots[a].cap.master {
      NextOfMasterIsReply(d.slots, d.order, d.nodes, a, d.slots[a].cap.tcb);
      if i + 1 < |d.order| { assert At(d.slots, d.order, d.nodes, i + 1); }
    }
    RemoveKeepsPairs(d.nodes, i);
  }

  // ---- self.cap = remainder and set_zombie_number ----

  /** Slot a holds the zombie c; links and order are as before. */
  ghost predicate Recapped1(d: Db, d': Db, a: nat, c: Cap) {
    && a in d.slots && a in d.order && |d.order| == |d.nodes|
    && d'.slots == d.slots[a := d.slots[a].(cap := c)] && d'.order == d.order
    && var i := Index(d.order, a); d'.nodes == d.nodes[i := d.nodes[i].(cap := c)]
  }

  lemma RecapKeepsPairs(ns: seq<Node>, i: nat, c: Cap)
    requires ReplyPairs(ns) && i < |ns| && !ns[i].cap.ReplyCap? && !c.ReplyCap?
    ensures ReplyPairs(ns[i := ns[i].(cap := c)])
  {
    var r := ns[i := ns[i].(cap := c)];
    forall k | 0 <= k < |r|
      ensures Paired(r, k)
    {
      assert Paired(ns, k);
    }
    forall k, j | 0 <= k < |r| && 0 <= j < |r|
      ensures OneMaster(r, k, j)
    {
      assert OneMaster(ns, k, j);
    }
  }

  lemma RecapStep(d: Db, l: Layout, z: Zone, a: nat, c: Cap, d': Db)
    requires DbOk(d, l) && Recapped1(d, d', a, c) && c.ZombieCap? && IsContainerCap(d.slots[a].cap)
    requires ContainerOf(d.slots[a].cap) == ContainerOf(c)
    requires Sole(d.slots, a) && ZombieOk(d.slots, c) && NodesOk(d'.nodes) && Rep(d'.slots, d'.order, d'.nodes)
    ensures Evolves(d, d', l, z)
  {
    var i := Index(d.order, a);
    assert At(d.slots, d.order, d.nodes, i);
    RecapKeepsPairs(d.nodes, i, c);
    RecontainKeepsCapsOk(d.slots, l, d'.slots, a, c);
    if Clear(d, l, z) { RecapKeepsClear(d, l, z, a, c, d'); }
    RecontainWanes(d.slots, d'.slots, a, c);
  }

  lemma UniqueIsSole(slots: Slots, l: Layout, a: nat)
    requires CapsOk(slots, l) && a in slots && (slots[a].cap.CNodeCap? || slots[a].cap.ThreadCap?)
    requires UniqueObject(slots, a)
    ensures Sole(slots, a)
  {
    var c := slots[a].cap;
    forall b | Houses(slots, ContainerOf(c), b)
      ensures b == a
    {
      assert CapOk(slots, l, a) && CapOk(slots, l, b) && Alone(slots, b, a);
      SameObjectIsSameId(c, slots[b].cap);
    }
  }

  /** The last CNode or thread capability becomes a zombie. */
  lemma ZombifyStep(d: Db, l: Layout, z: Zone, a: nat, d': Db)
    requires DbOk(d, l) && a in d.slots && (d.slots[a].cap.CNodeCap? || d.slots[a].cap.ThreadCap?)
    requires UniqueObject(d.slots, a)
    requires d.slots[a].cap.ThreadCap? ==> NoReplies(d.slots, d.slots[a].cap.ptr)
    requires Recapped1(d, d', a, ZombieFor(d.slots[a].cap)) && Rep(d'.slots, d'.order, d'.nodes)
    ensures Evolves(d, d', l, z)
  {
    var c := d.slots[a].cap;
    var i := Index(d.order, a);
    assert At(d.slots, d.order, d.nodes, i);
    assert CapOk(d.slots, l, a);
    UniqueIsSole(d.slots, l, a);
    UniqueNode(d.slots, d.order, d.nodes, a);
    RetireKeepsNodesOk(d.nodes, i, ZombieFor(c));
    RecapStep(d, l, z, a, ZombieFor(c), d');
  }

  lemma UniqueNode(slots: Slots, order: seq<nat>, ns: seq<Node>, a: nat)
    requires Rep(slots, order, ns) && a in slots && a in order && UniqueObject(slots, a)
    ensures var i := Index(order, a); forall k :: 0 <= k < |ns| && k != i ==> !Same(ns, i, k)
  {
    var i := Index(order, a);
    assert At(slots, order, ns, i);
    forall k | 0 <= k < |ns| && k != i
      ensures !Same(ns, i, k)
    {
      assert At(slots, order, ns, k);
      SameObjectIsSameId(slots[a].cap, slots[order[k]].cap);
    }
  }

  lemma ZombieIsSole(slots: Slots, l: Layout, a: nat)
    requires CapsOk(slots, l) && a in slots && slots[a].cap.ZombieCap?
    ensures Sole(slots, a)
  {
    forall b | Houses(slots, ContainerOf(slots[a].cap), b)
      ensures b == a
    {
      assert Alone(slots, a, b);
    }
  }

  /** The zombie's last slot is empty and counted off. */
  lemma CountDownStep(d: Db, l: Layout, z: Zone, a: nat, d': Db)
    requires DbOk(d, l) && a in d.slots && d.slots[a].cap.ZombieCap? && d.slots[a].cap.number > 0
    requires
      var c := d.slots[a].cap;
      var end := SlotAddr(c.ptr, c.number - 1);
      && end in d.slots && d.slots[end].cap == NullCap
      && Recapped1(d, d', a, ZombieCap(c.ptr, c.number - 1, c.kind)) && Rep(d'.slots, d'.order, d'.nodes)
    ensures Evolves(d, d', l, z)
  {
    var c := d.slots[a].cap;
    var c' := ZombieCap(c.ptr, c.number - 1, c.kind);
    var i := Index(d.order, a);
    assert At(d.slots, d.order, d.nodes, i);
    assert CapOk(d.slots, l, a);
    ZombieIsSole(d.slots, l, a);
    RewriteKeepsNodesOk(d.nodes, i, c');
    RecapStep(d, l, z, a, c', d');
  }

  // ---- cte_swap with the first slot ----

  lemma SwapLoose(slots: Slots, l: Layout, slots': Slots, e: nat)
    requires CapsOk(slots, l) && e in slots && slots[e].cap.ZombieCap? && slots[e].cap.ptr != e
    requires ZombieSwap(slots, slots', e)
    ensures Loose(slots') < Loose(slots) && Frame(slots, slots', e)
  {
    var f := slots[e].cap.ptr;
    FirstSlot(slots, l, e);
    forall b | b in Loose(slots')
      ensures b in Loose(slots)
    {
      assert b != f;
    }
    assert f !in Loose(slots') && e in Loose(slots);
    if f in Loose(slots) {
      assert f in Loose(slots) && f !in Loose(slots');
    } else if slots[f].cap.ZombieCap? {
      assert false;
    } else {
      assert e !in Loose(slots');
    }
    forall b
      ensures FrameAt(slots, slots', e, b)
    {}
  }

  lemma SwapStep(d: Db, l: Layout, z: Zone, e: nat, d': Db)
    requires DbOk(d, l) && e in d.slots && d.slots[e].cap.ZombieCap? && d.slots[e].cap.ptr != e
    requires d.slots[e].cap.number > 0
    requires ZombieSwap(d.slots, d'.slots, e) && Rep(d'.slots, d'.order, d'.nodes)
    requires d'.order == Exchange(d.order, d.slots[e].cap.ptr, e) && d'.nodes == d.nodes
    requires Clear(d, l, z) ==> e in z.swapped
    ensures Evolves(d, d', l, z) && Loose(d'.slots) < Loose(d.slots) && Frame(d.slots, d'.slots, e)
    ensures Taken(d.slots, d'.slots, l, {}, {e}, {e}, true)
  {
    SwapKeepsCapsOk(d.slots, l, d'.slots, e);
    SwapLoose(d.slots, l, d'.slots, e);
    SwapWanes(d.slots, l, d'.slots, e);
    SwapTaken(d.slots, l, d'.slots, e);
    if Clear(d, l, z) { SwapKeepsClear(d, l, z, e, d'); }
  }
}
