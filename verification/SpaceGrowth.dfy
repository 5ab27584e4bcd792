/** How a capability space grows: memory of a new CNode or TCB becomes slots, and the capability to a new object
    is written down (kernel/src/syscall/invocation/invoke_untyped.rs, kernel/src/boot/utils.rs). */
module SpaceGrowth {
  import opened Config
  import opened Words
  import opened Caps
  import opened MdbNodes
  import opened Memory
  import opened Mdb
  import opened ReplyMdb
  import opened Containers
  import opened CNodeOps

  // ---- new slots ----

  function SlotSet(c: Container): (s: set<nat>)
  {
    set k {:trigger SlotAddr(c.base, k)} | 0 <= k < SlotCount(c.kind) :: SlotAddr(c.base, k)
  }

  lemma SlotSetIs(c: Container)
    ensures forall a :: a in SlotSet(c) <==> InContainer(c, a)
  {}

  /** The layout with the container's slots. */
  function LayoutWith(l: Layout, c: Container): (r: Layout) {
    var s := SlotSet(c);
    Layout(l.owner + map a | a in s :: c,
           (l.replySlots - s) + (if c.kind == ZombieTcb then {SlotAddr(c.base, TCB_REPLY_INDEX)} else {}), l.irqNode)
  }

  /** The container's memory holds no slot in use, no kernel slot, and no slot of a live container. */
  ghost predicate Unused(slots: Slots, l: Layout, a: nat) {
    && a != 0 && (a in slots ==> slots[a].cap == NullCap && a in l.owner)
    && forall b, c {:trigger Houses(slots, c, b)} :: Houses(slots, c, b) ==> !InContainer(c, a)
  }

  ghost predicate AllUnused(slots: Slots, l: Layout, c: Container) {
    forall a {:trigger Unused(slots, l, a)} :: InContainer(c, a) ==> Unused(slots, l, a)
  }

  lemma GrowKeepsOwned(slots: Slots, l: Layout, c: Container, e: Container, b: nat)
    requires AllUnused(slots, l, c) && Houses(slots, e, b) && OwnsSlots(slots, l, e)
    ensures OwnsSlots(Grown(slots, SlotSet(c)), LayoutWith(l, c), e)
  {
    SlotSetIs(c);
    forall k | 0 <= k < SlotCount(e.kind)
      ensures
        var a := SlotAddr(e.base, k);
        a in Grown(slots, SlotSet(c)) && a in LayoutWith(l, c).owner && LayoutWith(l, c).owner[a] == e
    {
      var a := SlotAddr(e.base, k);
      assert InContainer(e, a);
      assert InContainer(c, a) ==> Unused(slots, l, a);
    }
  }

  lemma GrowKeepsCapOk(slots: Slots, l: Layout, c: Container, b: nat)
    requires CapsOk(slots, l) && AllUnused(slots, l, c) && b in Grown(slots, SlotSet(c))
    ensures CapOk(Grown(slots, SlotSet(c)), LayoutWith(l, c), b)
  {
    SlotSetIs(c);
    var s, l' := Grown(slots, SlotSet(c)), LayoutWith(l, c);
    if InContainer(c, b) {
      assert Unused(slots, l, b);
    } else {
      assert CapOk(slots, l, b);
      var x := slots[b].cap;
      if IsContainerCap(x) { GrowKeepsOwned(slots, l, c, ContainerOf(x), b); }
      if x.ZombieCap? { GrowKeepsZombie(slots, l, c, x); }
      if x.ThreadCap? { GrowKeepsReplySlot(slots, l, c, b); }
      if x.IrqHandlerCap? { GrowKeepsIrq(slots, l, c, SlotAddr(l.irqNode, x.irq)); }
      if x != NullCap && b in l.owner {
        var h :| Houses(slots, l.owner[b], h);
        GrowHouses(slots, l, c, l.owner[b], h);
      }
    }
  }

  lemma GrowHouses(slots: Slots, l: Layout, c: Container, e: Container, h: nat)
    requires AllUnused(slots, l, c)
    ensures Houses(slots, e, h) <==> Houses(Grown(slots, SlotSet(c)), e, h)
  {
    SlotSetIs(c);
    if InContainer(c, h) { assert Unused(slots, l, h); }
  }

  lemma GrowKeepsIrq(slots: Slots, l: Layout, c: Container, a: nat)
    requires AllUnused(slots, l, c) && IrqSlot(slots, l, a)
    ensures IrqSlot(Grown(slots, SlotSet(c)), LayoutWith(l, c), a)
  {
    SlotSetIs(c);
    assert InContainer(c, a) ==> Unused(slots, l, a);
  }

  lemma GrowKeepsZombie(slots: Slots, l: Layout, c: Container, z: Cap)
    requires AllUnused(slots, l, c) && z.ZombieCap? && ZombieOk(slots, z)
    ensures ZombieOk(Grown(slots, SlotSet(c)), z)
  {
    var s := Grown(slots, SlotSet(c));
    if z.kind == ZombieTcb { GrowReplies(slots, l, c, z.ptr + TCB_OFFSET); }
  }

  lemma GrowReplies(slots: Slots, l: Layout, c: Container, t: nat)
    requires NoReplies(slots, t)
    ensures NoReplies(Grown(slots, SlotSet(c)), t)
  {
    var s := Grown(slots, SlotSet(c));
    forall b | b in s
      ensures !IsReply(s[b].cap, t)
    {
      if b in slots { assert !IsReply(slots[b].cap, t); }
    }
  }

  lemma GrowKeepsReplySlot(slots: Slots, l: Layout, c: Container, b: nat)
    requires CapsOk(slots, l) && AllUnused(slots, l, c) && b in slots && slots[b].cap.ThreadCap?
    ensures ReplySlot(slots[b].cap.ptr) in LayoutWith(l, c).replySlots
  {
    SlotSetIs(c);
    assert CapOk(slots, l, b);
    var e := ContainerOf(slots[b].cap);
    var a := ReplySlot(slots[b].cap.ptr);
    assert Houses(slots, e, b) && a == SlotAddr(e.base, TCB_REPLY_INDEX) && InContainer(e, a);
    assert InContainer(c, a) ==> Unused(slots, l, a);
  }

  lemma GrowKeepsCapsOk(slots: Slots, l: Layout, c: Container)
    requires CapsOk(slots, l) && AllUnused(slots, l, c)
    ensures CapsOk(Grown(slots, SlotSet(c)), LayoutWith(l, c))
    ensures OwnsSlots(Grown(slots, SlotSet(c)), LayoutWith(l, c), c)
  {
    SlotSetIs(c);
    var s, l' := Grown(slots, SlotSet(c)), LayoutWith(l, c);
    forall b | b in s
      ensures CapOk(s, l', b)
    {
      GrowKeepsCapOk(slots, l, c, b);
    }
    forall a | a in l'.replySlots
      ensures ReplySlotOk(s, l', a)
    {
      if !InContainer(c, a) { assert ReplySlotOk(slots, l, a); }
    }
    forall a | a in s || a in l'.owner
      ensures OwnerOk(s, l', a)
    {
      if !InContainer(c, a) {
        assert OwnerOk(slots, l, a);
        assert forall b :: Surrounds(s, b, a) ==> Surrounds(slots, b, a);
      }
    }
    forall a, b
      ensures Alone(s, a, b)
    {
      assert Alone(slots, a, b);
    }
    forall k | 0 <= k < SlotCount(c.kind)
      ensures var a := SlotAddr(c.base, k); a in s && a in l'.owner && l'.owner[a] == c
    {
      assert InContainer(c, SlotAddr(c.base, k));
    }
  }

  // ---- a new capability ----

  /** Slot dest holds the new capability c, all others hold what they held. */
  predicate Put(slots: Slots, slots': Slots, dest: nat, c: Cap) {
    && dest in slots && slots[dest].cap == NullCap && slots'.Keys == slots.Keys && slots'[dest].cap == c
    && forall b :: b in slots && b != dest ==> slots'[b].cap == slots[b].cap
  }

  /** The zombie in slot b is all that is left of thread t. */
  predicate DeadThread(slots: Slots, b: nat, t: nat) {
    b in slots && slots[b].cap.ZombieCap? && slots[b].cap.kind == ZombieTcb && slots[b].cap.ptr + TCB_OFFSET == t
  }

  /** What a new capability must bring: its slots, a reply slot, memory that is not the kernel's. */
  ghost predicate NewOk(slots: Slots, l: Layout, dest: nat, c: Cap) {
    && c != NullCap && !c.ZombieCap? && !c.IrqHandlerCap?
    && (c.ReplyCap? && !c.master ==> forall b {:trigger DeadThread(slots, b, c.tcb)} :: !DeadThread(slots, b, c.tcb))
    && (IsContainerCap(c) ==> OwnsSlots(slots, l, ContainerOf(c)) && forall b :: Houses(slots, ContainerOf(c), b) ==>
      !slots[b].cap.ZombieCap?)
    && (c.ThreadCap? ==> c.ptr % 1024 == TCB_OFFSET && ReplySlot(c.ptr) in l.replySlots)
    && (c.ReplyCap? && c.master ==> dest == ReplySlot(c.tcb) && dest in l.replySlots && c.tcb % 1024 == TCB_OFFSET)
    && (dest in l.replySlots ==> c.ReplyCap? && c.master)
    && (c.UntypedCap? ==> c.ptr > 0 && forall a :: a in slots && a !in l.owner ==>
      !(c.ptr <= a < c.ptr + Pow2(c.blockSize)))
  }

  lemma PutKeepsCapOk(slots: Slots, l: Layout, slots': Slots, dest: nat, c: Cap, b: nat)
    requires CapsOk(slots, l) && Put(slots, slots', dest, c) && NewOk(slots, l, dest, c) && dest in l.owner
    requires Live(slots, l.owner[dest])
    requires b in slots'
    ensures CapOk(slots', l, b)
  {
    FillOk(slots, l, dest);
    assert CapOk(slots, l, b);
    var x := slots'[b].cap;
    if x != NullCap && b in l.owner {
      var h :| Houses(slots, l.owner[b], h);
      assert Houses(slots', l.owner[b], h);
    }
    if x.ZombieCap? {
      assert !CountedBy(slots, b, dest);
      assert c.ReplyCap? ==> !DeadThread(slots, b, c.tcb) || c.master;
      PutKeepsZombie(slots, slots', dest, c, b);
    }
  }

  lemma PutKeepsZombie(slots: Slots, slots': Slots, dest: nat, c: Cap, b: nat)
    requires Put(slots, slots', dest, c) && b != dest && (c.ReplyCap? && !c.master ==> !DeadThread(slots, b, c.tcb))
    requires b in slots && slots[b].cap.ZombieCap? && ZombieOk(slots, slots[b].cap) && !CountedBy(slots, b, dest)
    ensures ZombieOk(slots', slots[b].cap)
  {
    if slots[b].cap.kind == ZombieTcb { PutReplies(slots, slots', dest, c, slots[b].cap.ptr + TCB_OFFSET); }
  }

  lemma PutReplies(slots: Slots, slots': Slots, dest: nat, c: Cap, t: nat)
    requires Put(slots, slots', dest, c) && !IsReply(c, t) && NoReplies(slots, t)
    ensures NoReplies(slots', t)
  {
    forall b | b in slots'
      ensures !IsReply(slots'[b].cap, t)
    {
      if b != dest { assert !IsReply(slots[b].cap, t); }
    }
  }

  lemma PutKeepsCapsOk(slots: Slots, l: Layout, slots': Slots, dest: nat, c: Cap)
    requires CapsOk(slots, l) && Put(slots, slots', dest, c) && NewOk(slots, l, dest, c) && dest in l.owner
    requires Live(slots, l.owner[dest])
    ensures CapsOk(slots', l)
  {
    forall b | b in slots'
      ensures CapOk(slots', l, b)
    {
      PutKeepsCapOk(slots, l, slots', dest, c, b);
    }
    forall a | a in l.replySlots
      ensures ReplySlotOk(slots', l, a)
    {
      assert ReplySlotOk(slots, l, a);
      if a == dest { MasterOfSlot(l.owner[a].base, c.tcb); }
    }
    forall a | a in slots' || a in l.owner
      ensures OwnerOk(slots', l, a)
    {
      assert OwnerOk(slots, l, a);
      if a !in l.owner {
        forall b
          ensures !Surrounds(slots', b, a)
        {
          assert !Surrounds(slots, b, a);
        }
      }
    }
    forall a, b
      ensures Alone(slots', a, b)
    {
      assert Alone(slots, a, b);
      if b == dest && IsContainerCap(c) { assert Houses(slots, ContainerOf(c), a) ==> !slots[a].cap.ZombieCap?; }
    }
  }

  /** The reply slot tells the thread. */
  lemma MasterOfSlot(base: nat, t: nat)
    requires SlotAddr(base, TCB_REPLY_INDEX) == ReplySlot(t) && t % 1024 == TCB_OFFSET
    ensures t == base + TCB_OFFSET
  {}

  lemma PutKeepsLive(slots: Slots, slots': Slots, dest: nat, c: Cap)
    requires Put(slots, slots', dest, c)
    ensures LiveKept(slots, slots')
  {
    forall k | Live(slots, k)
      ensures Live(slots', k)
    {
      var h :| h in slots && Houses(slots, k, h) && !slots[h].cap.ZombieCap?;
      assert h in slots' && slots'[h].cap == slots[h].cap;
      assert Houses(slots', k, h);
    }
  }

  lemma GrowKeepsLive(slots: Slots, l: Layout, c: Container)
    requires AllUnused(slots, l, c)
    ensures LiveKept(slots, Grown(slots, SlotSet(c)))
  {
    var s := Grown(slots, SlotSet(c));
    forall k | Live(slots, k)
      ensures Live(s, k)
    {
      var h :| Houses(slots, k, h) && !slots[h].cap.ZombieCap?;
      GrowHouses(slots, l, c, k, h);
    }
  }

  // ---- a list of its own ----

  /** No capability names the object of c or shares memory with it. */
  ghost predicate Separate(ns: seq<Node>, c: Cap) {
    && (IsPhysical(c) ==> RangeOk(c))
    && (forall i :: 0 <= i < |ns| ==> ObjectOf(ns[i].cap) != ObjectOf(c) || ObjectOf(c) == NoObject)
    && (IsPhysical(c) ==> forall i :: 0 <= i < |ns| && IsPhysical(ns[i].cap) ==> Disjoint(ns[i].cap, c))
    && (c.ReplyCap? ==> c.master && forall i :: 0 <= i < |ns| ==> !IsMaster(ns[i].cap, c.tcb))
  }

  lemma AppendKeepsNodes(ns: seq<Node>, c: Cap)
    requires NodesOk(ns) && ReplyPairs(ns) && Separate(ns, c) && (ns != [] ==> !ns[|ns| - 1].joined)
    ensures NodesOk(ns + [Node(c, true, true, false)]) && ReplyPairs(ns + [Node(c, true, true, false)])
  {
    AppendKeepsMdbOk(ns, c);
    AppendKeepsMemOk(ns, c);
    AppendKeepsPairs(ns, c);
  }

  lemma AppendKeepsMdbOk(ns: seq<Node>, c: Cap)
    requires MdbOk(ns) && Separate(ns, c) && (ns != [] ==> !ns[|ns| - 1].joined)
    ensures MdbOk(ns + [Node(c, true, true, false)])
  {
    var r := ns + [Node(c, true, true, false)];
    forall i, k | 0 <= i < k < |r| && Same(r, i, k)
      ensures Same(r, i, i + 1) && r[i].joined && Same(r, k - 1, k) && r[k - 1].joined
    {
      assert k < |ns| && Same(ns, i, k);
      assert Same(ns, i, i + 1) && Same(ns, k - 1, k);
    }
    forall i | 0 <= i < |r| - 1 && Same(r, i, i + 1) && Badge(r[i].cap) != Badge(r[i + 1].cap)
      && Badge(r[i + 1].cap) != 0
      ensures r[i + 1].firstBadged
    {
      assert Same(ns, i, i + 1);
    }
  }

  lemma AppendKeepsMemOk(ns: seq<Node>, c: Cap)
    requires MemOk(ns) && Separate(ns, c)
    ensures MemOk(ns + [Node(c, true, true, false)])
  {
    var r := ns + [Node(c, true, true, false)];
    var m := |ns|;
    forall i, j | 0 <= i < |r| && 0 <= j < |r| && i != j
      ensures Apart(r, i, j)
    {
      if i < m && j < m { assert Apart(ns, i, j); }
    }
    forall i, j | 0 <= i < j < |r|
      ensures RunStep(r, i, j) && Below(r, i, j)
    {
      if j < m { assert RunStep(ns, i, j) && Below(ns, i, j); }
    }
    forall i, j | 0 <= j < i < |r| && Contains(r, i, j)
      ensures Contains(r, j, i)
    {
      assert i < m && Contains(ns, i, j);
    }
  }

  lemma AppendKeepsPairs(ns: seq<Node>, c: Cap)
    requires ReplyPairs(ns) && Separate(ns, c) && (ns != [] ==> !ns[|ns| - 1].joined)
    ensures ReplyPairs(ns + [Node(c, true, true, false)])
  {
    var r := ns + [Node(c, true, true, false)];
    forall i | 0 <= i < |r|
      ensures Paired(r, i)
    {
      if i < |ns| { assert Paired(ns, i); }
    }
    forall i, j | 0 <= i < |r| && 0 <= j < |r|
      ensures OneMaster(r, i, j)
    {
      if i < |ns| && j < |ns| { assert OneMaster(ns, i, j); }
    }
  }

  /** write_slot keeps the whole invariant, for a capability to memory that nothing else names. */
  method WriteNew(cs: CSpace, l: Layout, dest: nat, c: Cap)
    requires Inv(cs, l) && dest in cs.slots && dest in l.owner && cs.slots[dest].cap == NullCap
    requires Live(cs.slots, l.owner[dest])
    requires NewOk(cs.slots, l, dest, c) && Separate(cs.nodes, c)
    modifies cs
    ensures Inv(cs, l) && cs.slots == old(cs.slots)[dest := Slot(c, 0, 0, true, true)]
    ensures cs.order == old(cs.order) + [dest] && cs.nodes == old(cs.nodes) + [Node(c, true, true, false)]
  {
    ghost var d := View(cs);
    if d.order != [] { assert At(d.slots, d.order, d.nodes, |d.order| - 1); }
    AppendKeepsNodes(d.nodes, c);
    cs.WriteSlot(dest, c);
    PutKeepsCapsOk(d.slots, l, cs.slots, dest, c);
  }
}
