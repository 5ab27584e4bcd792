/** The capability space at boot (kernel/src/boot/root_server.rs, kernel/src/boot/untyped.rs): the root CNode, the
    initial thread and untyped memory. It meets the invariant that every run of capability operations keeps. */
module BootSpace {
  import opened Config
  import opened Words
  import opened Caps
  import opened MdbNodes
  import opened Memory
  import opened Mdb
  import opened ReplyMdb
  import opened Containers
  import opened Deletion
  import opened CNodeOps
  import opened SpaceGrowth
  import opened SpaceRuns

  const TCB_INDEX := 1
  const CNODE_INDEX := 2
  const FIRST_FREE := 16
  const TCB_CTABLE_INDEX := 0

  function RootCap(root: nat, radix: nat): (c: Cap) {
    CNodeCap(root, radix, 0, if radix < WORD_BITS then WORD_BITS - radix else 0)
  }

  function RootContainer(root: nat, radix: nat): (c: Container) {
    Container(root, ZombieCNode(radix))
  }

  /** create_root_cnode: a table of empty slots, with its own capability written to one of them. */
  function RootSlots(root: nat, radix: nat): (s: Slots) {
    map a | a in SlotSet(RootContainer(root, radix)) ::
      if a == SlotAddr(root, CNODE_INDEX) then Slot(RootCap(root, radix), 0, 0, true, true) else EMPTY
  }

  function RootLayout(root: nat, radix: nat, irqNode: nat): (l: Layout) {
    Layout(map a | a in SlotSet(RootContainer(root, radix)) :: RootContainer(root, radix), {}, irqNode)
  }

  function RootDb(root: nat, radix: nat): (d: Db) {
    Db(RootSlots(root, radix), [SlotAddr(root, CNODE_INDEX)], [Node(RootCap(root, radix), true, true, false)])
  }

  lemma RootSlotThere(root: nat, radix: nat, k: nat)
    requires k < Pow2(radix)
    ensures SlotAddr(root, k) in RootSlots(root, radix) && InContainer(RootContainer(root, radix), SlotAddr(root, k))
  {
    SlotSetIs(RootContainer(root, radix));
    assert InContainer(RootContainer(root, radix), SlotAddr(root, k));
  }

  lemma RootRep(root: nat, radix: nat)
    requires root > 0 && radix >= 2
    ensures var d := RootDb(root, radix); Rep(d.slots, d.order, d.nodes)
  {
    var d := RootDb(root, radix);
    Pow2Monotone(2, radix);
    assert Pow2(2) == 4;
    RootSlotThere(root, radix, CNODE_INDEX);
    SlotSetIs(RootContainer(root, radix));
    assert At(d.slots, d.order, d.nodes, 0);
  }

  /** The root CNode starts with every invariant of the capability space. */
  lemma RootCNodeOk(root: nat, radix: nat, irqNode: nat)
    requires root > 0 && radix >= 2 && IsAligned(root, radix + SLOT_BITS)
    ensures DbOk(RootDb(root, radix), RootLayout(root, radix, irqNode))
    ensures Live(RootSlots(root, radix), RootContainer(root, radix))
  {
    var d, l, c := RootDb(root, radix), RootLayout(root, radix, irqNode), RootContainer(root, radix);
    var home := SlotAddr(root, CNODE_INDEX);
    RootRep(root, radix);
    Pow2Monotone(2, radix);
    assert Pow2(2) == 4;
    RootSlotThere(root, radix, CNODE_INDEX);
    SlotSetIs(c);
    assert Houses(d.slots, c, home);
    RootNodesOk(d.nodes, root, radix);
    forall a | a in d.slots
      ensures CapOk(d.slots, l, a)
    {}
  }

  lemma RootNodesOk(ns: seq<Node>, root: nat, radix: nat)
    requires ns == RootDb(root, radix).nodes && root > 0 && radix >= 2 && IsAligned(root, radix + SLOT_BITS)
    ensures NodesOk(ns) && ReplyPairs(ns)
  {}

  /** The memory boot hands out: the root CNode, the initial thread's TCB and untyped blocks lie apart. */
  ghost predicate BootMemory(root: nat, radix: nat, tcb: nat, untypeds: seq<Cap>) {
    && root > 0 && IsAligned(root, radix + SLOT_BITS) && FIRST_FREE + |untypeds| <= Pow2(radix) && radix >= 2
    && tcb > 0 && tcb % 1024 == 0 && Disjoint(ThreadCap(tcb + TCB_OFFSET), RootCap(root, radix))
    && (forall i :: 0 <= i < |untypeds| ==> UntypedOk(root, radix, tcb, untypeds[i]))
    && forall i, j :: 0 <= i < j < |untypeds| ==> Disjoint(untypeds[i], untypeds[j])
  }

  predicate UntypedOk(root: nat, radix: nat, tcb: nat, u: Cap) {
    && u.UntypedCap? && u.ptr > 0 && RangeOk(u) && Disjoint(u, RootCap(root, radix))
    && Disjoint(u, ThreadCap(tcb + TCB_OFFSET))
  }

  /** What boot writes: the root CNode, the initial thread, its master reply capability, and the first i untyped blocks.
      */
  ghost predicate Known(root: nat, radix: nat, tcb: nat, untypeds: seq<Cap>, i: nat, c: Cap) {
    || c == NullCap || c == RootCap(root, radix) || c == ThreadCap(tcb + TCB_OFFSET)
    || c == ReplyCap(tcb + TCB_OFFSET, true, true)
    || exists j :: 0 <= j < i && j < |untypeds| && c == untypeds[j]
  }

  predicate UntypedAt(slots: Slots, root: nat, untypeds: seq<Cap>, i: nat, k: nat)
    requires k < |untypeds|
  {
    var a := SlotAddr(root, FIRST_FREE + k);
    a in slots && slots[a].cap == if k < i then untypeds[k] else NullCap
  }

  /** The root CNode holds its own capability and i untyped blocks; no slot is outside a container. */
  ghost predicate Shape(slots: Slots, l: Layout, root: nat, radix: nat, tcb: nat, untypeds: seq<Cap>, i: nat) {
    && Houses(slots, RootContainer(root, radix), SlotAddr(root, CNODE_INDEX))
    && slots[SlotAddr(root, CNODE_INDEX)].cap == RootCap(root, radix)
    && (forall k {:trigger UntypedAt(slots, root, untypeds, i, k)} :: 0 <= k < |untypeds| ==>
      UntypedAt(slots, root, untypeds, i, k))
    && (forall a {:trigger Known(root, radix, tcb, untypeds, i, slots[a].cap)} :: a in slots ==>
      Known(root, radix, tcb, untypeds, i, slots[a].cap))
    && forall a :: a in slots ==> a in l.owner
  }

  lemma RootShape(root: nat, radix: nat, irqNode: nat, tcb: nat, untypeds: seq<Cap>)
    requires BootMemory(root, radix, tcb, untypeds)
    ensures Shape(RootSlots(root, radix), RootLayout(root, radix, irqNode), root, radix, tcb, untypeds, 0)
  {
    RootSlotThere(root, radix, CNODE_INDEX);
    forall k | 0 <= k < |untypeds|
      ensures UntypedAt(RootSlots(root, radix), root, untypeds, 0, k)
    {
      RootSlotThere(root, radix, FIRST_FREE + k);
    }
  }

  /** A slot of the root CNode is an ordinary one. */
  lemma RootUserSlot(slots: Slots, l: Layout, root: nat, radix: nat, tcb: nat, untypeds: seq<Cap>, i: nat, k: nat)
    requires CapsOk(slots, l) && Shape(slots, l, root, radix, tcb, untypeds, i) && k < Pow2(radix)
    ensures UserSlot(slots, l, SlotAddr(root, k)) && l.owner[SlotAddr(root, k)] == RootContainer(root, radix)
  {
    var home, a := SlotAddr(root, CNODE_INDEX), SlotAddr(root, k);
    assert CapOk(slots, l, home);
    assert OwnsSlots(slots, l, RootContainer(root, radix));
    assert a in l.replySlots ==> ReplySlotOk(slots, l, a);
  }

  lemma KnownNodes(slots: Slots, order: seq<nat>, ns: seq<Node>, root: nat, radix: nat, tcb: nat, untypeds: seq<Cap>,
      i: nat, n: nat)
    requires Rep(slots, order, ns) && n < |ns|
    requires forall a {:trigger Known(root, radix, tcb, untypeds, i, slots[a].cap)} :: a in slots ==>
      Known(root, radix, tcb, untypeds, i, slots[a].cap)
    ensures Known(root, radix, tcb, untypeds, i, ns[n].cap) && ns[n].cap != NullCap
  {
    assert At(slots, order, ns, n);
    assert Known(root, radix, tcb, untypeds, i, slots[order[n]].cap);
  }

  /** create_untypeds_for_region: the next block goes to the next slot. */
  method WriteUntyped(cs: CSpace, l: Layout, root: nat, radix: nat, tcb: nat, untypeds: seq<Cap>, i: nat)
    requires BootMemory(root, radix, tcb, untypeds) && i < |untypeds|
    requires Inv(cs, l) && Shape(cs.slots, l, root, radix, tcb, untypeds, i)
    modifies cs
    ensures Inv(cs, l) && Shape(cs.slots, l, root, radix, tcb, untypeds, i + 1)
    ensures Put(old(cs.slots), cs.slots, SlotAddr(root, FIRST_FREE + i), untypeds[i])
  {
    ghost var s0 := cs.slots;
    var dest, u := SlotAddr(root, FIRST_FREE + i), untypeds[i];
    RootUserSlot(s0, l, root, radix, tcb, untypeds, i, FIRST_FREE + i);
    assert UntypedAt(s0, root, untypeds, i, i) && UntypedOk(root, radix, tcb, u);
    UntypedSeparate(cs.slots, cs.order, cs.nodes, root, radix, tcb, untypeds, i);
    WriteNew(cs, l, dest, u);
    UntypedKeepsShape(s0, cs.slots, l, root, radix, tcb, untypeds, i);
  }

  lemma UntypedKeepsShape(s: Slots, s': Slots, l: Layout, root: nat, radix: nat, tcb: nat, untypeds: seq<Cap>, i: nat)
    requires i < |untypeds| && Shape(s, l, root, radix, tcb, untypeds, i)
    requires Put(s, s', SlotAddr(root, FIRST_FREE + i), untypeds[i])
    ensures Shape(s', l, root, radix, tcb, untypeds, i + 1)
  {
    var n := i + 1;
    forall k | 0 <= k < |untypeds|
      ensures UntypedAt(s', root, untypeds, n, k)
    {
      assert UntypedAt(s, root, untypeds, i, k);
    }
    forall a | a in s'
      ensures Known(root, radix, tcb, untypeds, i + 1, s'[a].cap)
    {
      if a != SlotAddr(root, FIRST_FREE + i) { assert Known(root, radix, tcb, untypeds, i, s[a].cap); }
    }
  }

  lemma UntypedSeparate(slots: Slots, order: seq<nat>, ns: seq<Node>, root: nat, radix: nat, tcb: nat,
      untypeds: seq<Cap>, i: nat)
    requires BootMemory(root, radix, tcb, untypeds) && i < |untypeds| && Rep(slots, order, ns)
    requires forall a {:trigger Known(root, radix, tcb, untypeds, i, slots[a].cap)} :: a in slots ==>
      Known(root, radix, tcb, untypeds, i, slots[a].cap)
    ensures Separate(ns, untypeds[i])
  {
    assert UntypedOk(root, radix, tcb, untypeds[i]);
    forall n | 0 <= n < |ns|
      ensures ObjectOf(ns[n].cap) != ObjectOf(untypeds[i]) || ObjectOf(untypeds[i]) == NoObject
      ensures IsPhysical(ns[n].cap) ==> Disjoint(ns[n].cap, untypeds[i])
    {
      KnownNodes(slots, order, ns, root, radix, tcb, untypeds, i, n);
    }
  }

  lemma TcbBase(tcb: nat)
    requires tcb % 1024 == 0
    ensures ContainerOf(ThreadCap(tcb + TCB_OFFSET)) == Container(tcb, ZombieTcb)
    ensures RangeOk(ThreadCap(tcb + TCB_OFFSET))
    ensures Base(ThreadCap(tcb + TCB_OFFSET)) == tcb && End(ThreadCap(tcb + TCB_OFFSET)) == tcb + 1024
    ensures ReplySlot(tcb + TCB_OFFSET) == SlotAddr(tcb, TCB_REPLY_INDEX) && (tcb + TCB_OFFSET) % 1024 == TCB_OFFSET
  {
    assert Pow2(10) == 1024 by { Pow2Add(5, 5); assert Pow2(5) == 32; }
  }

  /** The TCB's slots lie outside the root CNode. */
  lemma TcbUnused(root: nat, radix: nat, irqNode: nat, tcb: nat, a: nat)
    requires tcb > 0 && tcb % 1024 == 0 && Disjoint(ThreadCap(tcb + TCB_OFFSET), RootCap(root, radix))
    requires InContainer(Container(tcb, ZombieTcb), a)
    ensures !InContainer(RootContainer(root, radix), a) && a !in RootSlots(root, radix)
    ensures Unused(RootSlots(root, radix), RootLayout(root, radix, irqNode), a)
  {
    TcbBase(tcb);
    var c := RootContainer(root, radix);
    SlotSetIs(c);
    Pow2Add(radix, SLOT_BITS);
    assert Pow2(SLOT_BITS) == SLOT_SIZE;
  }

  /** The slots in front of the initial TCB. */
  method AddTcbSlots(cs: CSpace, l: Layout, root: nat, radix: nat, tcb: nat, untypeds: seq<Cap>) returns (l': Layout)
    requires BootMemory(root, radix, tcb, untypeds)
    requires Inv(cs, l) && Shape(cs.slots, l, root, radix, tcb, untypeds, 0)
    requires View(cs) == RootDb(root, radix) && l == RootLayout(root, radix, l.irqNode)
    modifies cs
    ensures Inv(cs, l') && Shape(cs.slots, l', root, radix, tcb, untypeds, 0)
    ensures cs.slots == Grown(old(cs.slots), SlotSet(Container(tcb, ZombieTcb)))
    ensures OwnsSlots(cs.slots, l', Container(tcb, ZombieTcb)) && l'.replySlots == {SlotAddr(tcb, TCB_REPLY_INDEX)}
    ensures cs.nodes == old(cs.nodes)
  {
    var c := Container(tcb, ZombieTcb);
    ghost var s0 := cs.slots;
    SlotSetIs(c);
    forall a | InContainer(c, a)
      ensures Unused(s0, l, a) && a !in s0
    {
      TcbUnused(root, radix, l.irqNode, tcb, a);
    }
    assert AllUnused(s0, l, c);
    GrowKeepsCapsOk(s0, l, c);
    cs.AddSlots(SlotSet(c));
    l' := LayoutWith(l, c);
    forall k | 0 <= k < |untypeds|
      ensures UntypedAt(cs.slots, root, untypeds, 0, k)
    {
      assert UntypedAt(s0, root, untypeds, 0, k);
    }
    forall a | a in cs.slots
      ensures Known(root, radix, tcb, untypeds, 0, cs.slots[a].cap)
    {
      if a in s0 { assert Known(root, radix, tcb, untypeds, 0, s0[a].cap); }
    }
  }

  /** Writing one of the known capabilities outside the slots for untyped blocks. */
  lemma WriteKeepsShape(s: Slots, s': Slots, l: Layout, root: nat, radix: nat, tcb: nat, untypeds: seq<Cap>, dest: nat,
      c: Cap)
    requires Shape(s, l, root, radix, tcb, untypeds, 0) && Put(s, s', dest, c)
    requires Known(root, radix, tcb, untypeds, 0, c)
    requires forall k {:trigger SlotAddr(root, k)} :: FIRST_FREE <= k < FIRST_FREE + |untypeds| ==>
      dest != SlotAddr(root, k)
    ensures Shape(s', l, root, radix, tcb, untypeds, 0)
  {
    forall k | 0 <= k < |untypeds|
      ensures UntypedAt(s', root, untypeds, 0, k)
    {
      assert UntypedAt(s, root, untypeds, 0, k);
    }
    forall a | a in s'
      ensures Known(root, radix, tcb, untypeds, 0, s'[a].cap)
    {
      if a != dest { assert Known(root, radix, tcb, untypeds, 0, s[a].cap); }
    }
  }

  /** The thread's capability names memory of its own, and so does its master. */
  lemma ThreadSeparate(ns: seq<Node>, root: nat, radix: nat, tcb: nat, untypeds: seq<Cap>)
    requires BootMemory(root, radix, tcb, untypeds)
    requires forall n :: 0 <= n < |ns| ==> ns[n].cap == RootCap(root, radix)
    ensures Separate(ns, ThreadCap(tcb + TCB_OFFSET))
    ensures Separate(ns + [Node(ThreadCap(tcb + TCB_OFFSET), true, true, false)],
      ReplyCap(tcb + TCB_OFFSET, true, true))
  {
    TcbBase(tcb);
  }

  lemma RootSole(s: Slots, root: nat, radix: nat, tcb: nat, c: Container, b: nat)
    requires tcb % 1024 == 0 && s == Grown(RootSlots(root, radix), SlotSet(Container(tcb, ZombieTcb)))
    ensures Houses(s, c, b) ==> !s[b].cap.ZombieCap?
  {}

  /** write_slot of the thread's capability. */
  lemma NoZombies(s: Slots, root: nat, radix: nat, tcb: nat, t: nat)
    requires tcb % 1024 == 0 && s == Grown(RootSlots(root, radix), SlotSet(Container(tcb, ZombieTcb)))
    ensures forall b :: Houses(s, ContainerOf(ThreadCap(t)), b) ==> !s[b].cap.ZombieCap?
  {
    forall b
      ensures Houses(s, ContainerOf(ThreadCap(t)), b) ==> !s[b].cap.ZombieCap?
    {
      RootSole(s, root, radix, tcb, ContainerOf(ThreadCap(t)), b);
    }
  }

  lemma ThreadKeepsShape(s: Slots, s': Slots, l: Layout, root: nat, radix: nat, tcb: nat, untypeds: seq<Cap>)
    requires Shape(s, l, root, radix, tcb, untypeds, 0)
    requires Put(s, s', SlotAddr(root, TCB_INDEX), ThreadCap(tcb + TCB_OFFSET))
    ensures Shape(s', l, root, radix, tcb, untypeds, 0)
  {
    WriteKeepsShape(s, s', l, root, radix, tcb, untypeds, SlotAddr(root, TCB_INDEX), ThreadCap(tcb + TCB_OFFSET));
  }

  lemma ThreadCapNew(s: Slots, l: Layout, root: nat, radix: nat, tcb: nat, untypeds: seq<Cap>)
    requires BootMemory(root, radix, tcb, untypeds) && CapsOk(s, l) && Shape(s, l, root, radix, tcb, untypeds, 0)
    requires s == Grown(RootSlots(root, radix), SlotSet(Container(tcb, ZombieTcb)))
    requires OwnsSlots(s, l, Container(tcb, ZombieTcb)) && l.replySlots == {SlotAddr(tcb, TCB_REPLY_INDEX)}
    ensures
      var a := SlotAddr(root, TCB_INDEX);
      && UserSlot(s, l, a) && s[a].cap == NullCap && NewOk(s, l, a, ThreadCap(tcb + TCB_OFFSET))
  {
    TcbBase(tcb);
    RootUserSlot(s, l, root, radix, tcb, untypeds, 0, TCB_INDEX);
    NoZombies(s, root, radix, tcb, tcb + TCB_OFFSET);
    RootSlotThere(root, radix, TCB_INDEX);
  }

  method WriteThreadCap(cs: CSpace, l: Layout, root: nat, radix: nat, tcb: nat, untypeds: seq<Cap>)
    requires BootMemory(root, radix, tcb, untypeds) && Inv(cs, l) && Shape(cs.slots, l, root, radix, tcb, untypeds, 0)
    requires cs.slots == Grown(RootSlots(root, radix), SlotSet(Container(tcb, ZombieTcb)))
    requires cs.nodes == RootDb(root, radix).nodes
    requires OwnsSlots(cs.slots, l, Container(tcb, ZombieTcb)) && l.replySlots == {SlotAddr(tcb, TCB_REPLY_INDEX)}
    modifies cs
    ensures Inv(cs, l) && Shape(cs.slots, l, root, radix, tcb, untypeds, 0)
    ensures Put(old(cs.slots), cs.slots, SlotAddr(root, TCB_INDEX), ThreadCap(tcb + TCB_OFFSET))
    ensures cs.nodes == RootDb(root, radix).nodes + [Node(ThreadCap(tcb + TCB_OFFSET), true, true, false)]
  {
    var t, a := tcb + TCB_OFFSET, SlotAddr(root, TCB_INDEX);
    ghost var s := cs.slots;
    TcbBase(tcb);
    ThreadCapNew(s, l, root, radix, tcb, untypeds);
    ThreadSeparate(cs.nodes, root, radix, tcb, untypeds);
    WriteNew(cs, l, a, ThreadCap(t));
    ThreadKeepsShape(s, cs.slots, l, root, radix, tcb, untypeds);
  }

  /** The initial thread has its slots and its capability, in a root CNode. */
  ghost predicate Begun(s: Slots, l: Layout, root: nat, radix: nat, tcb: nat, untypeds: seq<Cap>) {
    && Shape(s, l, root, radix, tcb, untypeds, 0)
    && OwnsSlots(s, l, Container(tcb, ZombieTcb)) && l.replySlots == {SlotAddr(tcb, TCB_REPLY_INDEX)}
    && Houses(s, Container(tcb, ZombieTcb), SlotAddr(root, TCB_INDEX)) && s[SlotAddr(root, TCB_INDEX)].cap.ThreadCap?
  }

  lemma TcbSlotApart(s: Slots, l: Layout, root: nat, radix: nat, tcb: nat, untypeds: seq<Cap>, j: nat)
    requires BootMemory(root, radix, tcb, untypeds) && CapsOk(s, l) && Begun(s, l, root, radix, tcb, untypeds)
    requires j < TCB_CNODE_ENTRIES
    ensures SlotAddr(tcb, j) in s && SlotAddr(tcb, j) in l.owner
    ensures l.owner[SlotAddr(tcb, j)] == Container(tcb, ZombieTcb)
    ensures Live(s, Container(tcb, ZombieTcb))
    ensures forall k {:trigger SlotAddr(root, k)} :: FIRST_FREE <= k < FIRST_FREE + |untypeds| ==>
      SlotAddr(tcb, j) != SlotAddr(root, k)
  {
    forall k {:trigger SlotAddr(root, k)} | FIRST_FREE <= k < FIRST_FREE + |untypeds|
      ensures SlotAddr(tcb, j) != SlotAddr(root, k)
    {
      RootUserSlot(s, l, root, radix, tcb, untypeds, 0, k);
    }
  }

  /** setup_reply_master. */
  method WriteMaster(cs: CSpace, l: Layout, root: nat, radix: nat, tcb: nat, untypeds: seq<Cap>)
    requires BootMemory(root, radix, tcb, untypeds) && Inv(cs, l) && Begun(cs.slots, l, root, radix, tcb, untypeds)
    requires cs.slots[SlotAddr(tcb, TCB_REPLY_INDEX)].cap == NullCap
    requires Separate(cs.nodes, ReplyCap(tcb + TCB_OFFSET, true, true))
    modifies cs
    ensures Inv(cs, l) && Begun(cs.slots, l, root, radix, tcb, untypeds)
    ensures Put(old(cs.slots), cs.slots, SlotAddr(tcb, TCB_REPLY_INDEX), ReplyCap(tcb + TCB_OFFSET, true, true))
  {
    var m, c := SlotAddr(tcb, TCB_REPLY_INDEX), ReplyCap(tcb + TCB_OFFSET, true, true);
    ghost var s := cs.slots;
    TcbBase(tcb);
    TcbSlotApart(s, l, root, radix, tcb, untypeds, TCB_REPLY_INDEX);
    WriteNew(cs, l, m, c);
    WriteKeepsShape(s, cs.slots, l, root, radix, tcb, untypeds, m, c);
  }

  /** cte_insert of the root CNode's capability as the thread's CSpace root. */
  method InsertRoot(cs: CSpace, l: Layout, root: nat, radix: nat, tcb: nat, untypeds: seq<Cap>)
    requires BootMemory(root, radix, tcb, untypeds) && Inv(cs, l) && Begun(cs.slots, l, root, radix, tcb, untypeds)
    requires cs.slots[SlotAddr(tcb, TCB_CTABLE_INDEX)].cap == NullCap
    modifies cs
    ensures Inv(cs, l) && Shape(cs.slots, l, root, radix, tcb, untypeds, 0)
    ensures Put(old(cs.slots), cs.slots, SlotAddr(tcb, TCB_CTABLE_INDEX), RootCap(root, radix))
  {
    var b := SlotAddr(tcb, TCB_CTABLE_INDEX);
    ghost var s := cs.slots;
    TcbSlotApart(s, l, root, radix, tcb, untypeds, TCB_CTABLE_INDEX);
    InsertDerived(cs, l, SlotAddr(root, CNODE_INDEX), b, RootCap(root, radix));
    WriteKeepsShape(s, cs.slots, l, root, radix, tcb, untypeds, b, RootCap(root, radix));
  }

  /** The initial thread as create_initial_thread leaves it: its capability in the root CNode, its master reply
      capability and its CSpace root in front of the TCB, and its caller slot empty. */
  ghost predicate ThreadReady(s: Slots, root: nat, radix: nat, tcb: nat) {
    && SlotAddr(root, TCB_INDEX) in s && s[SlotAddr(root, TCB_INDEX)].cap == ThreadCap(tcb + TCB_OFFSET)
    && SlotAddr(tcb, TCB_REPLY_INDEX) in s
    && s[SlotAddr(tcb, TCB_REPLY_INDEX)].cap == ReplyCap(tcb + TCB_OFFSET, true, true)
    && SlotAddr(tcb, TCB_CTABLE_INDEX) in s && s[SlotAddr(tcb, TCB_CTABLE_INDEX)].cap == RootCap(root, radix)
    && SlotAddr(tcb, CALLER_INDEX) in s && s[SlotAddr(tcb, CALLER_INDEX)].cap == NullCap
  }

  /** The initial thread's master is the only reply capability. */
  ghost predicate SoleMaster(s: Slots, tcb: nat) {
    forall a :: a in s && s[a].cap.ReplyCap? ==> s[a].cap == ReplyCap(tcb + TCB_OFFSET, true, true)
  }

  /** create_initial_thread. */
  method WriteThread(cs: CSpace, l: Layout, root: nat, radix: nat, tcb: nat, untypeds: seq<Cap>) returns (l': Layout)
    requires BootMemory(root, radix, tcb, untypeds) && Inv(cs, l) && Shape(cs.slots, l, root, radix, tcb, untypeds, 0)
    requires View(cs) == RootDb(root, radix) && l == RootLayout(root, radix, l.irqNode)
    modifies cs
    ensures Inv(cs, l') && Shape(cs.slots, l', root, radix, tcb, untypeds, 0) && ThreadReady(cs.slots, root, radix, tcb)
  {
    TcbBase(tcb);
    l' := AddTcbSlots(cs, l, root, radix, tcb, untypeds);
    ghost var s := cs.slots;
    ThreadSeparate(cs.nodes, root, radix, tcb, untypeds);
    NewTcbEmpty(root, radix, tcb, TCB_REPLY_INDEX);
    NewTcbEmpty(root, radix, tcb, TCB_CTABLE_INDEX);
    NewTcbEmpty(root, radix, tcb, CALLER_INDEX);
    WriteThreadCap(cs, l', root, radix, tcb, untypeds);
    assert forall j {:trigger SlotAddr(tcb, j)} :: 0 <= j < TCB_CNODE_ENTRIES ==>
      SlotAddr(tcb, j) != SlotAddr(root, TCB_INDEX) by {
      RootUserSlot(s, l', root, radix, tcb, untypeds, 0, TCB_INDEX);
    }
    assert Begun(cs.slots, l', root, radix, tcb, untypeds);
    WriteMaster(cs, l', root, radix, tcb, untypeds);
    InsertRoot(cs, l', root, radix, tcb, untypeds);
  }

  lemma NewTcbEmpty(root: nat, radix: nat, tcb: nat, j: nat)
    requires tcb > 0 && tcb % 1024 == 0 && Disjoint(ThreadCap(tcb + TCB_OFFSET), RootCap(root, radix))
    requires j < TCB_CNODE_ENTRIES
    ensures
      var s := Grown(RootSlots(root, radix), SlotSet(Container(tcb, ZombieTcb)));
      SlotAddr(tcb, j) in s && s[SlotAddr(tcb, j)].cap == NullCap
  {
    SlotSetIs(Container(tcb, ZombieTcb));
    assert InContainer(Container(tcb, ZombieTcb), SlotAddr(tcb, j));
    TcbUnused(root, radix, 0, tcb, SlotAddr(tcb, j));
  }

  // ---- boot, and every run from it ----

  method WriteUntypeds(cs: CSpace, l: Layout, root: nat, radix: nat, tcb: nat, untypeds: seq<Cap>)
    requires BootMemory(root, radix, tcb, untypeds) && Inv(cs, l) && Shape(cs.slots, l, root, radix, tcb, untypeds, 0)
    requires ThreadReady(cs.slots, root, radix, tcb)
    modifies cs
    ensures Inv(cs, l) && Shape(cs.slots, l, root, radix, tcb, untypeds, |untypeds|)
    ensures ThreadReady(cs.slots, root, radix, tcb)
  {
    for i := 0 to |untypeds|
      invariant Inv(cs, l) && Shape(cs.slots, l, root, radix, tcb, untypeds, i)
      invariant ThreadReady(cs.slots, root, radix, tcb)
    {
      TcbNotRoot(cs.slots, l, root, radix, tcb, untypeds, i);
      WriteUntyped(cs, l, root, radix, tcb, untypeds, i);
    }
  }

  lemma TcbNotRoot(s: Slots, l: Layout, root: nat, radix: nat, tcb: nat, untypeds: seq<Cap>, i: nat)
    requires BootMemory(root, radix, tcb, untypeds) && CapsOk(s, l) && Shape(s, l, root, radix, tcb, untypeds, i)
    requires ThreadReady(s, root, radix, tcb)
    requires i < |untypeds|
    ensures SlotAddr(tcb, CALLER_INDEX) != SlotAddr(root, FIRST_FREE + i)
  {
    RootUserSlot(s, l, root, radix, tcb, untypeds, i, FIRST_FREE + i);
    TcbBase(tcb);
    assert CapOk(s, l, SlotAddr(root, TCB_INDEX));
    assert OwnsSlots(s, l, Container(tcb, ZombieTcb));
  }

  /** Boot: the root CNode, the initial thread, the untyped blocks. Everything that runs of capability operations
      rely on holds of the space it leaves. */
  method Boot(root: nat, radix: nat, tcb: nat, untypeds: seq<Cap>, irqNode: nat) returns (cs: CSpace, l: Layout)
    requires BootMemory(root, radix, tcb, untypeds)
    ensures fresh(cs) && Inv(cs, l) && RepliesBlocked(cs.slots, {}) && ThreadReady(cs.slots, root, radix, tcb)
    ensures SoleMaster(cs.slots, tcb)
    ensures SlotAddr(root, CNODE_INDEX) in cs.slots && cs.slots[SlotAddr(root, CNODE_INDEX)].cap == RootCap(root, radix)
    ensures forall k {:trigger UntypedAt(cs.slots, root, untypeds, |untypeds|, k)} :: 0 <= k < |untypeds| ==>
      UntypedAt(cs.slots, root, untypeds, |untypeds|, k)
  {
    RootCNodeOk(root, radix, irqNode);
    RootShape(root, radix, irqNode, tcb, untypeds);
    cs := new CSpace(RootSlots(root, radix), RootDb(root, radix).order, RootDb(root, radix).nodes);
    l := RootLayout(root, radix, irqNode);
    l := WriteThread(cs, l, root, radix, tcb, untypeds);
    WriteUntypeds(cs, l, root, radix, tcb, untypeds);
    NoBootReplies(cs.slots, root, radix, tcb, untypeds);
  }

  lemma NoBootReplies(s: Slots, root: nat, radix: nat, tcb: nat, untypeds: seq<Cap>)
    requires BootMemory(root, radix, tcb, untypeds)
    requires forall a {:trigger Known(root, radix, tcb, untypeds, |untypeds|, s[a].cap)} :: a in s ==>
      Known(root, radix, tcb, untypeds, |untypeds|, s[a].cap)
    ensures SoleMaster(s, tcb) && RepliesBlocked(s, {})
  {
    forall a | a in s && s[a].cap.ReplyCap?
      ensures s[a].cap == ReplyCap(tcb + TCB_OFFSET, true, true)
    {
      assert Known(root, radix, tcb, untypeds, |untypeds|, s[a].cap);
    }
    forall t
      ensures NoReplies(s, t)
    {}
  }

  /** The invariant holds after every run of copies, moves, rotations, retypes, deletions and revocations from boot. */
  method RunFromBoot(root: nat, radix: nat, tcb: nat, untypeds: seq<Cap>, irqNode: nat, ops: seq<SpaceOp>)
    returns (cs: CSpace, l: Layout, status: Status)
    requires BootMemory(root, radix, tcb, untypeds)
    ensures Inv(cs, l) && RepliesBlocked(cs.slots, {}) && (status.AdjacentSwap? ==> AtSwap(cs.slots))
  {
    cs, l := Boot(root, radix, tcb, untypeds, irqNode);
    l, status := RunSpace(cs, l, {}, ops);
  }
}
