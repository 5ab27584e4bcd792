/** Objects made of slots, and what holds of the capabilities in a capability space
    (sel4_cspace/src/cte.rs, sel4_cspace/src/cap/zombie.rs, sel4_task/src/tcb.rs): each CNode, thread or zombie
    capability leads to slots that are there, every slot in use belongs to an object that something still
    names, and reply masters stay where cancel_ipc looks for them. */
module Containers {
  import opened Config
  import opened Words
  import opened Caps
  import opened MdbNodes
  import opened Memory
  import opened Mdb
  import opened ReplyMdb

  /** An object made of slots: a CNode, or the slots of a TCB. */
  datatype Container = Container(base: nat, kind: ZombieKind)

  predicate IsContainerCap(c: Cap) {
    c.CNodeCap? || c.ThreadCap? || c.ZombieCap?
  }

  function ContainerOf(c: Cap): (r: Container)
    requires IsContainerCap(c)
  {
    match c
    case CNodeCap(ptr, radix, _, _) => Container(ptr, ZombieCNode(radix))
    case ThreadCap(ptr) => Container(ptr - ptr % 1024, ZombieTcb)
    case ZombieCap(ptr, _, kind) => Container(ptr, kind)
  }

  function SlotCount(k: ZombieKind): (r: nat)
    ensures r >= 1
  {
    match k
    case ZombieTcb => TCB_CNODE_ENTRIES
    case ZombieCNode(radix) => Pow2(radix)
  }

  function SlotAddr(base: nat, k: nat): (a: nat) {
    base + SLOT_SIZE * k
  }

  /** Address a is one of the container's slots. */
  ghost predicate InContainer(c: Container, a: nat) {
    exists k {:trigger SlotAddr(c.base, k)} :: 0 <= k < SlotCount(c.kind) && a == SlotAddr(c.base, k)
  }

  /** The slot in front of a TCB for its master reply capability. */
  function ReplySlot(t: nat): (a: nat) {
    SlotAddr(t - t % 1024, TCB_REPLY_INDEX)
  }

  /** Which object each slot belongs to; the slots of reply masters; the IRQ node. */
  datatype Layout = Layout(owner: map<nat, Container>, replySlots: set<nat>, irqNode: nat)

  ghost predicate OwnsSlots(slots: Slots, l: Layout, c: Container) {
    forall k {:trigger SlotAddr(c.base, k)} :: 0 <= k < SlotCount(c.kind) ==>
      SlotAddr(c.base, k) in slots && SlotAddr(c.base, k) in l.owner && l.owner[SlotAddr(c.base, k)] == c
  }

  ghost predicate NoReplies(slots: Slots, t: nat) {
    forall b {:trigger IsReply(slots[b].cap, t)} :: b in slots ==> !IsReply(slots[b].cap, t)
  }

  /** A zombie counts the slots not yet deleted; a dead thread is owed no reply. */
  ghost predicate ZombieOk(slots: Slots, z: Cap)
    requires z.ZombieCap?
  {
    && z.number <= SlotCount(z.kind)
    && (forall k {:trigger SlotAddr(z.ptr, k)} :: z.number <= k < SlotCount(z.kind) ==>
          SlotAddr(z.ptr, k) in slots && slots[SlotAddr(z.ptr, k)].cap == NullCap)
    && (z.kind == ZombieTcb ==> NoReplies(slots, z.ptr + TCB_OFFSET) && z.ptr % 1024 == 0)
  }

  predicate IrqSlot(slots: Slots, l: Layout, a: nat) {
    a in slots && a !in l.owner && (slots[a].cap.NullCap? || slots[a].cap.NotificationCap?)
  }

  predicate Houses(slots: Slots, c: Container, b: nat) {
    b in slots && IsContainerCap(slots[b].cap) && ContainerOf(slots[b].cap) == c
  }

  /** Some capability or zombie still stands for the container. */
  ghost predicate Alive(slots: Slots, c: Container) {
    exists b :: Houses(slots, c, b)
  }

  /** A capability that is no zombie stands for the container. */
  predicate Live(slots: Slots, c: Container) {
    exists b | b in slots :: Houses(slots, c, b) && !slots[b].cap.ZombieCap?
  }

  /** The slots of a thread's TCB. */
  function TcbOf(t: nat): (c: Container) {
    Container(t - t % TCB_SIZE, ZombieTcb)
  }

  ghost predicate CapOk(slots: Slots, l: Layout, a: nat)
    requires a in slots
  {
    var c := slots[a].cap;
    && (IsContainerCap(c) ==> OwnsSlots(slots, l, ContainerOf(c)))
    && (c.ZombieCap? ==> ZombieOk(slots, c))
    && (c.ThreadCap? ==> c.ptr % 1024 == TCB_OFFSET && ReplySlot(c.ptr) in l.replySlots)
    && (c.UntypedCap? ==> c.ptr > 0)
    && (c.IrqHandlerCap? ==> IrqSlot(slots, l, SlotAddr(l.irqNode, c.irq)))
    && (IsMaster(c, if c.ReplyCap? then c.tcb else 0) ==>
          a == ReplySlot(c.tcb) && a in l.replySlots && c.tcb % 1024 == TCB_OFFSET)
    && (c != NullCap && a in l.owner ==> Alive(slots, l.owner[a]))
  }

  /** Reply slots belong to TCBs and hold nothing but masters. */
  predicate ReplySlotOk(slots: Slots, l: Layout, a: nat) {
    && a in slots && a in l.owner && l.owner[a].kind == ZombieTcb && a == SlotAddr(l.owner[a].base, TCB_REPLY_INDEX)
    && (slots[a].cap.NullCap? || IsMaster(slots[a].cap, l.owner[a].base + TCB_OFFSET))
  }

  /** Untyped memory around address a. */
  predicate Surrounds(slots: Slots, b: nat, a: nat) {
    b in slots && slots[b].cap.UntypedCap? && slots[b].cap.ptr <= a < slots[b].cap.ptr + Pow2(slots[b].cap.blockSize)
  }

  /** A slot lies in its owner, or is the kernel's own and outside all untyped memory. */
  ghost predicate OwnerOk(slots: Slots, l: Layout, a: nat) {
    if a in l.owner then a in slots && InContainer(l.owner[a], a) else forall b :: !Surrounds(slots, b, a)
  }

  /** No object has both a zombie and another capability. */
  predicate Alone(slots: Slots, a: nat, b: nat) {
    a in slots && b in slots && a != b && slots[a].cap.ZombieCap? && IsContainerCap(slots[b].cap) ==>
      ContainerOf(slots[a].cap) != ContainerOf(slots[b].cap)
  }

  ghost predicate CapsOk(slots: Slots, l: Layout) {
    && (forall a {:trigger CapOk(slots, l, a)} :: a in slots ==> CapOk(slots, l, a))
    && (forall a {:trigger ReplySlotOk(slots, l, a)} :: a in l.replySlots ==> ReplySlotOk(slots, l, a))
    && (forall a {:trigger OwnerOk(slots, l, a)} :: a in slots || a in l.owner ==> OwnerOk(slots, l, a))
    && (forall a, b {:trigger Alone(slots, a, b)} :: Alone(slots, a, b))
  }

  /** The capability space as a value: slots, the order of the derivation lists, and their nodes. */
  datatype Db = Db(slots: Slots, order: seq<nat>, nodes: seq<Node>)

  ghost predicate DbOk(d: Db, l: Layout) {
    && Rep(d.slots, d.order, d.nodes) && NodesOk(d.nodes) && ReplyPairs(d.nodes) && CapsOk(d.slots, l)
  }

  ghost function View(cs: CSpace): (d: Db)
    reads cs
  {
    Db(cs.slots, cs.order, cs.nodes)
  }

  ghost predicate Inv(cs: CSpace, l: Layout)
    reads cs
  {
    DbOk(View(cs), l)
  }

  // ---- removal ----

  /** All slots of the container other than a are empty. */
  ghost predicate OthersEmpty(slots: Slots, c: Container, a: nat) {
    forall k {:trigger SlotAddr(c.base, k)} :: 0 <= k < SlotCount(c.kind) ==>
      SlotAddr(c.base, k) == a || (SlotAddr(c.base, k) in slots && slots[SlotAddr(c.base, k)].cap == NullCap)
  }

  /** The capability in a is not the last one for slots in use. */
  ghost predicate Vacant(slots: Slots, a: nat)
    requires a in slots
  {
    var c := slots[a].cap;
    IsContainerCap(c) ==>
      (exists b :: b != a && Houses(slots, ContainerOf(c), b)) || OthersEmpty(slots, ContainerOf(c), a)
  }

  /** A master in slot a is waited on by nobody. */
  ghost predicate MasterFree(slots: Slots, a: nat)
    requires a in slots
  {
    slots[a].cap.ReplyCap? && slots[a].cap.master ==> NoReplies(slots, slots[a].cap.tcb)
  }

  /** The capability may go. */
  ghost predicate MayGo(slots: Slots, a: nat)
    requires a in slots
  {
    Vacant(slots, a) && MasterFree(slots, a)
  }

  /** Slot a has become empty and every other slot holds what it held. */
  predicate Without(slots: Slots, slots': Slots, a: nat) {
    && a in slots && slots'.Keys == slots.Keys && slots'[a].cap == NullCap
    && forall b :: b in slots && b != a ==> slots'[b].cap == slots[b].cap
  }

  lemma WithoutKeepsCapsOk(slots: Slots, l: Layout, slots': Slots, a: nat)
    requires CapsOk(slots, l) && Without(slots, slots', a) && MayGo(slots, a)
    ensures CapsOk(slots', l)
  {
    forall b | b in slots'
      ensures CapOk(slots', l, b)
    {
      WithoutKeepsCapOk(slots, l, slots', a, b);
    }
    forall b | b in l.replySlots
      ensures ReplySlotOk(slots', l, b)
    {
      assert ReplySlotOk(slots, l, b);
    }
    forall b | b in slots' || b in l.owner
      ensures OwnerOk(slots', l, b)
    {
      assert OwnerOk(slots, l, b);
      assert forall c :: Surrounds(slots', c, b) ==> Surrounds(slots, c, b);
    }
    forall b, c
      ensures Alone(slots', b, c)
    {
      assert Alone(slots, b, c);
    }
  }

  lemma WithoutKeepsCapOk(slots: Slots, l: Layout, slots': Slots, a: nat, b: nat)
    requires CapsOk(slots, l) && Without(slots, slots', a) && MayGo(slots, a) && b in slots'
    ensures CapOk(slots', l, b)
  {
    assert CapOk(slots, l, b);
    var c := slots'[b].cap;
    if c != NullCap && b in l.owner {
      var h :| Houses(slots, l.owner[b], h);
      if h == a { StillAlive(slots, l, slots', a, b); } else { assert Houses(slots', l.owner[b], h); }
    }
    if c.ZombieCap? && c.kind == ZombieTcb { assert NoReplies(slots, c.ptr + TCB_OFFSET); }
  }

  lemma StillAlive(slots: Slots, l: Layout, slots': Slots, a: nat, b: nat)
    requires CapsOk(slots, l) && Without(slots, slots', a) && MayGo(slots, a)
    requires b in slots' && slots'[b].cap != NullCap && b in l.owner && Houses(slots, l.owner[b], a)
    ensures Alive(slots', l.owner[b])
  {
    var c := ContainerOf(slots[a].cap);
    assert OwnerOk(slots, l, b);
    var k :| 0 <= k < SlotCount(c.kind) && b == SlotAddr(c.base, k);
    var h :| h != a && Houses(slots, c, h);
    assert Houses(slots', c, h);
  }

  // ---- new data in a container capability ----

  /** finaliseCap's result for the last CNode or thread capability. */
  function ZombieFor(c: Cap): (z: Cap)
    requires c.CNodeCap? || c.ThreadCap?
  {
    var o := ContainerOf(c);
    ZombieCap(o.base, SlotCount(o.kind), o.kind)
  }

  /** Slot a holds z for the same container, and every other slot what it held. */
  predicate Recontained(slots: Slots, slots': Slots, a: nat, z: Cap) {
    && a in slots && slots'.Keys == slots.Keys && slots'[a].cap == z && z.ZombieCap?
    && IsContainerCap(slots[a].cap) && ContainerOf(slots[a].cap) == ContainerOf(z)
    && forall b :: b in slots && b != a ==> slots'[b].cap == slots[b].cap
  }

  /** The zombie is the only one to name its container. */
  ghost predicate Sole(slots: Slots, a: nat)
    requires a in slots && IsContainerCap(slots[a].cap)
  {
    forall b :: Houses(slots, ContainerOf(slots[a].cap), b) ==> b == a
  }

  lemma RecontainKeepsCapsOk(slots: Slots, l: Layout, slots': Slots, a: nat, z: Cap)
    requires CapsOk(slots, l) && Recontained(slots, slots', a, z) && Sole(slots, a) && ZombieOk(slots, z)
    ensures CapsOk(slots', l)
  {
    forall b | b in slots'
      ensures CapOk(slots', l, b)
    {
      RecontainKeepsCapOk(slots, l, slots', a, z, b);
    }
    forall b | b in l.replySlots
      ensures ReplySlotOk(slots', l, b)
    {
      assert ReplySlotOk(slots, l, b);
    }
    forall b | b in slots' || b in l.owner
      ensures OwnerOk(slots', l, b)
    {
      assert OwnerOk(slots, l, b);
      assert forall c :: Surrounds(slots', c, b) ==> Surrounds(slots, c, b);
    }
    forall b, c
      ensures Alone(slots', b, c)
    {
      assert Alone(slots, b, c);
      assert Houses(slots, ContainerOf(z), c) ==> c == a;
      assert Houses(slots, ContainerOf(z), b) ==> b == a;
    }
  }

  lemma RecontainKeepsCapOk(slots: Slots, l: Layout, slots': Slots, a: nat, z: Cap, b: nat)
    requires CapsOk(slots, l) && Recontained(slots, slots', a, z) && ZombieOk(slots, z) && b in slots'
    ensures CapOk(slots', l, b)
  {
    assert CapOk(slots, l, b) && CapOk(slots, l, a);
    var c := slots'[b].cap;
    if c != NullCap && b in l.owner {
      var h :| Houses(slots, l.owner[b], h);
      assert Houses(slots', l.owner[b], h);
    }
    if c.ZombieCap? { RecontainKeepsZombie(slots, slots', a, z, c); }
  }

  lemma RecontainKeepsZombie(slots: Slots, slots': Slots, a: nat, z: Cap, c: Cap)
    requires Recontained(slots, slots', a, z) && c.ZombieCap? && ZombieOk(slots, c)
    ensures ZombieOk(slots', c)
  {
    if c.kind == ZombieTcb {
      forall b | b in slots'
        ensures !IsReply(slots'[b].cap, c.ptr + TCB_OFFSET)
      {
        assert !IsReply(slots[b].cap, c.ptr + TCB_OFFSET);
      }
    }
  }

  // ---- a zombie goes into its own first slot ----

  /** Swapping a zombie into its own first slot. */
  ghost predicate ZombieSwap(slots: Slots, slots': Slots, e: nat)
    requires e in slots && slots[e].cap.ZombieCap?
  {
    var z := slots[e].cap.ptr;
    && z in slots && slots'.Keys == slots.Keys
    && slots'[z].cap == slots[e].cap && slots'[e].cap == slots[z].cap
    && forall b :: b in slots && b != z && b != e ==> slots'[b].cap == slots[b].cap
  }

  /** The first slot of a zombie's container belongs to it, and holds no zombie of its own. */
  lemma FirstSlot(slots: Slots, l: Layout, e: nat)
    requires CapsOk(slots, l) && e in slots && slots[e].cap.ZombieCap?
    ensures
      var z := slots[e].cap.ptr;
      z in slots && z in l.owner && l.owner[z] == ContainerOf(slots[e].cap) && z !in l.replySlots
    ensures var z := slots[e].cap.ptr; z != e && slots[z].cap.ZombieCap? ==> slots[z].cap.ptr != z
  {
    var z := slots[e].cap.ptr;
    assert CapOk(slots, l, e) && SlotAddr(z, 0) == z;
    assert z in l.replySlots ==> ReplySlotOk(slots, l, z);
    if z != e && slots[z].cap.ZombieCap? && slots[z].cap.ptr == z {
      assert CapOk(slots, l, z);
      assert Alone(slots, e, z);
    }
  }

  lemma SwapHouses(slots: Slots, slots': Slots, e: nat, c: Container)
    requires e in slots && slots[e].cap.ZombieCap? && ZombieSwap(slots, slots', e) && Alive(slots, c)
    ensures Alive(slots', c)
  {
    var h :| Houses(slots, c, h);
    assert Houses(slots', c, Rename(e, slots[e].cap.ptr, h));
  }

  lemma SwapKeepsZombie(slots: Slots, l: Layout, slots': Slots, e: nat, b: nat)
    requires CapsOk(slots, l) && e in slots && slots[e].cap.ZombieCap? && slots[e].cap.ptr != e
    requires slots[e].cap.number > 0
    requires ZombieSwap(slots, slots', e) && b in slots && slots[b].cap.ZombieCap?
    ensures ZombieOk(slots', slots[b].cap)
  {
    var z := slots[b].cap;
    var f := slots[e].cap.ptr;
    FirstSlot(slots, l, e);
    assert CapOk(slots, l, b) && CapOk(slots, l, e);
    forall k | z.number <= k < SlotCount(z.kind)
      ensures SlotAddr(z.ptr, k) in slots' && slots'[SlotAddr(z.ptr, k)].cap == NullCap
    {
      assert SlotAddr(z.ptr, k) in l.owner && l.owner[SlotAddr(z.ptr, k)] == ContainerOf(z);
      assert Alone(slots, e, b);
    }
    if z.kind == ZombieTcb {
      forall x | x in slots'
        ensures !IsReply(slots'[x].cap, z.ptr + TCB_OFFSET)
      {
        assert !IsReply(slots[Rename(e, f, x)].cap, z.ptr + TCB_OFFSET);
      }
    }
  }

  lemma SwapKeepsCapOk(slots: Slots, l: Layout, slots': Slots, e: nat, b: nat)
    requires CapsOk(slots, l) && e in slots && slots[e].cap.ZombieCap? && slots[e].cap.ptr != e
    requires slots[e].cap.number > 0
    requires ZombieSwap(slots, slots', e) && b in slots'
    ensures CapOk(slots', l, b)
  {
    var f := slots[e].cap.ptr;
    var o := Rename(e, f, b);
    FirstSlot(slots, l, e);
    assert CapOk(slots, l, o) && CapOk(slots, l, b) && CapOk(slots, l, e);
    var c := slots'[b].cap;
    assert c == slots[o].cap;
    if c.ZombieCap? { SwapKeepsZombie(slots, l, slots', e, o); }
    if c != NullCap && b in l.owner {
      if b == f { assert Houses(slots', l.owner[f], f); } else { SwapHouses(slots, slots', e, l.owner[b]); }
    }
    if c.ReplyCap? && c.master { assert ReplySlotOk(slots, l, o); }
    if c.IrqHandlerCap? { SwapKeepsIrq(slots, l, slots', e, SlotAddr(l.irqNode, c.irq)); }
  }

  lemma SwapKeepsIrq(slots: Slots, l: Layout, slots': Slots, e: nat, a: nat)
    requires CapsOk(slots, l) && e in slots && slots[e].cap.ZombieCap? && ZombieSwap(slots, slots', e)
    requires IrqSlot(slots, l, a)
    ensures IrqSlot(slots', l, a)
  {
    FirstSlot(slots, l, e);
  }

  lemma SwapKeepsCapsOk(slots: Slots, l: Layout, slots': Slots, e: nat)
    requires CapsOk(slots, l) && e in slots && slots[e].cap.ZombieCap? && slots[e].cap.ptr != e
    requires slots[e].cap.number > 0
    requires ZombieSwap(slots, slots', e)
    ensures CapsOk(slots', l)
  {
    var f := slots[e].cap.ptr;
    forall b | b in slots'
      ensures CapOk(slots', l, b)
    {
      SwapKeepsCapOk(slots, l, slots', e, b);
    }
    FirstSlot(slots, l, e);
    forall b | b in l.replySlots
      ensures ReplySlotOk(slots', l, b)
    {
      assert ReplySlotOk(slots, l, b);
    }
    forall b | b in slots' || b in l.owner
      ensures OwnerOk(slots', l, b)
    {
      assert OwnerOk(slots, l, b);
      forall c
        ensures Surrounds(slots', c, b) ==> Surrounds(slots, Rename(e, f, c), b)
      {}
    }
    forall b, c
      ensures Alone(slots', b, c)
    {
      assert Alone(slots, Rename(e, f, b), Rename(e, f, c));
    }
  }
}
