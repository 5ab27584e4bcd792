/** Deletion of capabilities through zombies: delete_one, delete_all, finalise and reduce_zombie
    (sel4_cspace/src/cte.rs), with finaliseCap (kernel/src/interfaces_impl/cspace.rs). */
module Deletion {
  import opened Config
  import opened Words
  import opened Caps
  import opened MdbNodes
  import opened Mdb
  import opened ReplyMdb
  import opened Containers
  import opened SwapSafety
  import opened DeletionFrame
  import opened DeletionSteps

  /** exception_t, plus the one point where the model stops: reduce_zombie is about to swap two
      MDB neighbours, after which the mapping database is not a list any more. */
  datatype Status = Done | AdjacentSwap

  /** The state in which the model stops: some zombie is a neighbour of its own first slot. */
  ghost predicate AtSwap(slots: Slots) {
    exists e {:trigger NextToFirst(slots, e)} :: NextToFirst(slots, e)
  }

  predicate NextToFirst(slots: Slots, e: nat) {
    && e in slots && slots[e].cap.ZombieCap? && slots[e].cap.ptr != e
    && slots[e].cap.ptr in slots && Neighbours(slots, slots[e].cap.ptr, e)
  }

  /** Every reply capability is for a thread that waits for a reply. */
  ghost predicate RepliesBlocked(slots: Slots, blocked: set<nat>) {
    forall t {:trigger NoReplies(slots, t)} :: t !in blocked ==> NoReplies(slots, t)
  }

  lemma BlockedKept(slots: Slots, slots': Slots, blocked: set<nat>)
    requires RepliesBlocked(slots, blocked) && Wanes(slots, slots')
    ensures RepliesBlocked(slots', blocked)
  {
    forall t | t !in blocked
      ensures NoReplies(slots', t)
    {
      assert NoReplies(slots, t);
      WanesReplies(slots, slots', t);
    }
  }

  // ---- finaliseCap ----

  /** The capabilities that finaliseCap finalises at once, leaving nothing. */
  predicate FinalisesAtOnce(c: Cap) {
    !c.UntypedCap? && !IsContainerCap(c) && !c.IrqControlCap? && !c.IrqHandlerCap?
  }

  /** delete_one; it panics on a capability that cannot be finalised at once. */
  method DeleteOne(cs: CSpace, l: Layout, a: nat, ghost z: Zone)
    requires Inv(cs, l) && a in cs.slots && FinalisesAtOnce(cs.slots[a].cap) && MasterFree(cs.slots, a)
    requires Clear(View(cs), l, z) ==> a in z.touched || cs.slots[a].cap.ReplyCap? || cs.slots[a].cap.NullCap?
    modifies cs
    ensures Evolves(old(View(cs)), View(cs), l, z)
    ensures Emptied(old(cs.slots), old(cs.order), old(cs.nodes), cs.slots, cs.order, cs.nodes, a)
  {
    ghost var d := View(cs);
    cs.SetEmpty(a);
    RemoveStep(d, l, z, a, View(cs));
  }

  /** The slot that finalising c deletes besides; 0 for none. */
  ghost function SideSlot(slots: Slots, l: Layout, blocked: set<nat>, c: Cap, final: bool): (r: nat) {
    if !final then 0
    else if c.IrqHandlerCap? then SlotAddr(l.irqNode, c.irq)
    else if c.ThreadCap? && c.ptr in blocked && ReplySlot(c.ptr) in slots then slots[ReplySlot(c.ptr)].next
    else 0
  }

  /** What finaliseCap leaves of the capability. */
  function Remainder(c: Cap, final: bool): (r: Cap) {
    if (c.CNodeCap? || c.ThreadCap?) && final then ZombieFor(c) else if c.ZombieCap? then c else NullCap
  }

  /** The interrupt of the handler in slot a, if that was the last one, has no notification any more. */
  ghost predicate IrqSilent(slots: Slots, slots': Slots, l: Layout, a: nat) {
    a in slots && slots[a].cap.IrqHandlerCap? && UniqueObject(slots, a) ==>
      var side := SlotAddr(l.irqNode, slots[a].cap.irq);
      side in slots' && slots'[side].cap == NullCap
  }

  /** Only the side slot is emptied; with none nothing happens. */
  ghost predicate SideEmptied(d: Db, d': Db, side: nat)
    requires Rep(d.slots, d.order, d.nodes)
  {
    if side == 0 then d' == d
    else side in d.slots && Emptied(d.slots, d.order, d.nodes, d'.slots, d'.order, d'.nodes, side)
  }

  /** The reply that a thread waits for is the slot behind its master; without one there is no reply. */
  lemma ReplyBehindMaster(d: Db, l: Layout, t: nat)
    requires DbOk(d, l) && ReplySlot(t) in l.replySlots && t % 1024 == TCB_OFFSET
    ensures ReplySlot(t) in d.slots
    ensures
      var n := d.slots[ReplySlot(t)].next;
      n != 0 ==> n in d.slots && IsReply(d.slots[n].cap, t) && n != ReplySlot(t)
    ensures forall b :: b in d.slots && IsReply(d.slots[b].cap, t) ==> b == d.slots[ReplySlot(t)].next
  {
    var a := ReplySlot(t);
    assert ReplySlotOk(d.slots, l, a);
    LinksAreInverse(d.slots, d.order, d.nodes, a);
    if d.slots[a].cap == NullCap {
      forall b | b in d.slots && IsReply(d.slots[b].cap, t)
        ensures false
      {
        MasterThere(d, l, b, t);
      }
    } else {
      NextOfMasterIsReply(d.slots, d.order, d.nodes, a, t);
    }
  }

  /** A reply capability has its master in the thread's reply slot. */
  lemma MasterThere(d: Db, l: Layout, b: nat, t: nat)
    requires DbOk(d, l) && b in d.slots && IsReply(d.slots[b].cap, t)
    ensures ReplySlot(t) in d.slots && IsMaster(d.slots[ReplySlot(t)].cap, t)
  {
    LinksAreInverse(d.slots, d.order, d.nodes, b);
    var i := Index(d.order, b);
    assert At(d.slots, d.order, d.nodes, i) && Paired(d.nodes, i);
    assert At(d.slots, d.order, d.nodes, i - 1);
    assert CapOk(d.slots, l, d.order[i - 1]);
  }

  lemma NoneLeft(slots: Slots, slots': Slots, a: nat, t: nat)
    requires Without(slots, slots', a) && forall b :: b in slots && IsReply(slots[b].cap, t) ==> b == a
    ensures NoReplies(slots', t)
  {
  }

  /** cancel_ipc of a thread that waits for a reply: the slot behind its master is deleted. */
  method CancelReply(cs: CSpace, l: Layout, blocked: set<nat>, t: nat, ghost z: Zone)
    requires Inv(cs, l) && ReplySlot(t) in l.replySlots && t % 1024 == TCB_OFFSET && RepliesBlocked(cs.slots, blocked)
    modifies cs
    ensures Evolves(old(View(cs)), View(cs), l, z) && NoReplies(cs.slots, t)
    ensures ReplySlot(t) in old(cs.slots)
    ensures SideEmptied(old(View(cs)), View(cs), if t in blocked then old(cs.slots)[ReplySlot(t)].next else 0)
    ensures forall b :: b in cs.slots && !old(cs.slots)[b].cap.ReplyCap? ==> cs.slots[b].cap == old(cs.slots)[b].cap
  {
    ghost var d := View(cs);
    ReplyBehindMaster(d, l, t);
    EvolvesSelf(d, l, z);
    if t in blocked {
      var caller := cs.slots[ReplySlot(t)].next;
      if caller != 0 {
        DeleteOne(cs, l, caller, z);
        NoneLeft(d.slots, cs.slots, caller, t);
      } else {
        assert NoReplies(cs.slots, t);
      }
    }
  }

  /** finaliseCap with exposed = false, as far as it touches slots. Cancelling the IPC of a thread
      that waits for a reply deletes the reply capability behind its master; deleting the last IRQ
      handler deletes the notification in the IRQ node. */
  method FinaliseCap(cs: CSpace, l: Layout, blocked: set<nat>, a: nat, final: bool, ghost z: Zone)
    returns (remainder: Cap)
    requires Inv(cs, l) && a in cs.slots && cs.slots[a].cap != NullCap && RepliesBlocked(cs.slots, blocked)
    modifies cs
    ensures Evolves(old(View(cs)), View(cs), l, z) && cs.slots[a].cap == old(cs.slots[a].cap)
    ensures ContainersKept(old(cs.slots), cs.slots)
    ensures remainder == Remainder(cs.slots[a].cap, final)
    ensures cs.slots[a].cap.ThreadCap? && final ==> NoReplies(cs.slots, cs.slots[a].cap.ptr)
    ensures SideEmptied(old(View(cs)), View(cs), SideSlot(old(cs.slots), l, blocked, old(cs.slots[a].cap), final))
    ensures final == UniqueObject(old(cs.slots), a) ==> IrqSilent(old(cs.slots), cs.slots, l, a)
  {
    var c := cs.slots[a].cap;
    EvolvesSelf(View(cs), l, z);
    assert CapOk(cs.slots, l, a);
    match c {
      case CNodeCap(ptr, radix, _, _) =>
        remainder := if final then ZombieCap(ptr, Pow2(radix), ZombieCNode(radix)) else NullCap;
      case ThreadCap(tcb) =>
        if final {
          CancelReply(cs, l, blocked, tcb, z);
          remainder := ZombieCap(tcb - tcb % 1024, TCB_CNODE_ENTRIES, ZombieTcb);
        } else {
          remainder := NullCap;
        }
      case ZombieCap(_, _, _) =>
        remainder := c;
      case IrqHandlerCap(irq) =>
        if final {
          assert Clear(View(cs), l, z) ==> IrqTouched(View(cs), l, z, a);
          DeleteOne(cs, l, SlotAddr(l.irqNode, irq), z);
        }
        remainder := NullCap;
      case _ =>
        remainder := NullCap;
    }
  }

  ghost predicate ContainersKept(slots: Slots, slots': Slots)
    requires slots'.Keys == slots.Keys
  {
    forall b :: b in slots && IsContainerCap(slots[b].cap) ==> slots'[b].cap == slots[b].cap
  }

  // ---- finalise and reduce_zombie ----

  /** A capability whose deletion touches no other slot: neither the last CNode, thread or IRQ
      handler capability of its object, nor a zombie. */
  ghost predicate Plain(slots: Slots, a: nat)
    requires a in slots
  {
    var c := slots[a].cap;
    !c.ZombieCap? && (c.CNodeCap? || c.ThreadCap? || c.IrqHandlerCap? ==> !UniqueObject(slots, a))
  }

  /** cap_removable */
  predicate CapRemovable(c: Cap, a: nat) {
    c.NullCap? || (c.ZombieCap? && (c.number == 0 || (c.number == 1 && c.ptr == a)))
  }

  /** The other half of the loop measure: slots the capability still has to clear. */
  function Weight(c: Cap): (w: nat) {
    match c
    case ZombieCap(_, number, _) => number
    case CNodeCap(_, radix, _, _) => Pow2(radix) + 1
    case ThreadCap(_) => TCB_CNODE_ENTRIES + 1
    case _ => 1
  }

  /** Progress: fewer loose capabilities or, of the zombie in a, fewer slots left. */
  ghost predicate Shrinks(slots: Slots, slots': Slots, a: nat, immediate: bool)
    requires a in slots && a in slots'
  {
    Loose(slots') < Loose(slots)
      || (immediate && slots'[a].cap.ZombieCap? && Weight(slots'[a].cap) < Weight(slots[a].cap))
  }

  /** A slot that the deletion of the capability in a empties without exposing it lies in the zone. */
  predicate CoveredAt(slots: Slots, l: Layout, z: Zone, a: nat, e: nat)
    requires a in slots
  {
    e in l.owner
      && (l.owner[e].base == a || (IsContainerCap(slots[a].cap) && l.owner[e] == ContainerOf(slots[a].cap))) ==>
      e in z.swapped
  }

  /** The zone holds every slot of the container in a, and of the container whose first slot a is. */
  ghost predicate Covered(slots: Slots, l: Layout, z: Zone, a: nat)
    requires a in slots
  {
    a in z.touched && forall e {:trigger CoveredAt(slots, l, z, a, e)} :: CoveredAt(slots, l, z, a, e)
  }

  /** How the capability in a changes while its container is taken apart. */
  predicate Dismantled(c: Cap, c': Cap, a: nat) {
    c' == c || c'.NullCap?
      || (c'.ZombieCap? && (c'.ptr == a || (IsContainerCap(c) && ContainerOf(c') == ContainerOf(c))))
  }

  lemma CoveredKept(slots: Slots, slots': Slots, l: Layout, z: Zone, a: nat)
    requires a in slots && a in slots' && Covered(slots, l, z, a) && Dismantled(slots[a].cap, slots'[a].cap, a)
    ensures Covered(slots', l, z, a)
  {
    forall e
      ensures CoveredAt(slots', l, z, a, e)
    {
      assert CoveredAt(slots, l, z, a, e);
    }
  }

  /** finalise up to finaliseCap. */
  method FinaliseSlot(cs: CSpace, l: Layout, blocked: set<nat>, a: nat, ghost z: Zone) returns (remainder: Cap)
    requires Inv(cs, l) && a in cs.slots && cs.slots[a].cap != NullCap && RepliesBlocked(cs.slots, blocked)
    modifies cs
    ensures Evolves(old(View(cs)), View(cs), l, z) && cs.slots[a].cap == old(cs.slots[a].cap)
    ensures ContainersKept(old(cs.slots), cs.slots)
    ensures remainder == Remainder(cs.slots[a].cap, UniqueObject(old(cs.slots), a))
    ensures cs.slots[a].cap.ThreadCap? && UniqueObject(old(cs.slots), a) ==> NoReplies(cs.slots, cs.slots[a].cap.ptr)
    ensures SideEmptied(old(View(cs)), View(cs),
      SideSlot(old(cs.slots), l, blocked, old(cs.slots[a].cap), UniqueObject(old(cs.slots), a)))
    ensures IrqSilent(old(cs.slots), cs.slots, l, a)
  {
    var final := cs.IsFinalCap(a);
    remainder := FinaliseCap(cs, l, blocked, a, final, z);
  }

  lemma RecapSame1(d: Db, a: nat)
    requires Rep(d.slots, d.order, d.nodes) && a in d.slots && a in d.order
    ensures Recapped1(d, d, a, d.slots[a].cap)
  {
    var i := Index(d.order, a);
    assert At(d.slots, d.order, d.nodes, i);
    assert d.slots == d.slots[a := d.slots[a].(cap := d.slots[a].cap)];
    assert d.nodes == d.nodes[i := d.nodes[i].(cap := d.slots[a].cap)];
  }

  /** self.cap = fc_ret.remainder: the zombie already there, or the zombie of an object nothing else names. */
  method Store(cs: CSpace, l: Layout, a: nat, r: Cap, ghost z: Zone)
    requires Inv(cs, l) && a in cs.slots && r.ZombieCap?
    requires r == cs.slots[a].cap ||
      ((cs.slots[a].cap.CNodeCap? || cs.slots[a].cap.ThreadCap?) && r == ZombieFor(cs.slots[a].cap)
        && UniqueObject(cs.slots, a)
       && (cs.slots[a].cap.ThreadCap? ==> NoReplies(cs.slots, cs.slots[a].cap.ptr)))
    modifies cs
    ensures Evolves(old(View(cs)), View(cs), l, z) && cs.slots == old(cs.slots)[a := old(cs.slots)[a].(cap := r)]
  {
    ghost var d := View(cs);
    LinksAreInverse(d.slots, d.order, d.nodes, a);
    cs.SetCap(a, r);
    if r == d.slots[a].cap {
      RecapSame1(d, a);
      EvolvesSelf(d, l, z);
      assert View(cs) == d;
    } else {
      ZombifyStep(d, l, z, a, View(cs));
    }
  }

  /** The links of a slot and everything else but its capability are untouched. */
  predicate OnlyCap(slots: Slots, slots': Slots, a: nat, c: Cap) {
    a in slots && slots' == slots[a := slots[a].(cap := c)]
  }

  lemma UniqueAfterSide(d: Db, d': Db, side: nat, a: nat)
    requires Rep(d.slots, d.order, d.nodes) && a in d.slots && SideEmptied(d, d', side) && a in d'.slots
    requires d'.slots[a].cap == d.slots[a].cap
    requires d'.slots.Keys == d.slots.Keys && UniqueObject(d.slots, a)
    ensures UniqueObject(d'.slots, a)
  {
    forall b | b in d'.slots && b != a
      ensures !SameObjectAs(d'.slots[a].cap, d'.slots[b].cap)
    {
      assert !SameObjectAs(d.slots[a].cap, d.slots[b].cap);
      SameObjectIsSameId(d'.slots[a].cap, d'.slots[b].cap);
    }
  }

  lemma SideFrame(d: Db, d': Db, l: Layout, z: Zone, a: nat)
    requires Evolves(d, d', l, z) && ContainersKept(d.slots, d'.slots)
    ensures Frame(d.slots, d'.slots, a)
  {
    forall b
      ensures FrameAt(d.slots, d'.slots, a, b)
    {}
  }

  /** What finalise leaves when the remainder can be removed: the capability may go. */
  lemma RemovableVacant(slots: Slots, slots': Slots, l: Layout, a: nat)
    requires CapsOk(slots', l) && a in slots && a in slots' && slots'[a].cap == slots[a].cap
    requires slots'.Keys == slots.Keys && ContainersKept(slots, slots')
    requires CapRemovable(Remainder(slots'[a].cap, UniqueObject(slots, a)), a)
    ensures Vacant(slots', a)
  {
    var c := slots'[a].cap;
    assert CapOk(slots', l, a);
    if (c.CNodeCap? || c.ThreadCap?) && !UniqueObject(slots, a) {
      var b :| b in slots && b != a && SameObjectAs(slots[a].cap, slots[b].cap);
      SameObjectIsSameId(slots[a].cap, slots[b].cap);
      assert Houses(slots', ContainerOf(c), b);
    } else if IsContainerCap(c) {
      assert SlotAddr(ContainerOf(c).base, 0) == ContainerOf(c).base;
    }
  }

  /** finalise up to self.cap = fc_ret.remainder, which is skipped for a removable remainder. */
  method StoreFinalised(cs: CSpace, l: Layout, blocked: set<nat>, a: nat, ghost exposed: bool, ghost z: Zone)
    returns (remainder: Cap)
    requires Inv(cs, l) && a in cs.slots && cs.slots[a].cap != NullCap && RepliesBlocked(cs.slots, blocked)
    modifies cs
    ensures Evolves(old(View(cs)), View(cs), l, z) && Frame(old(cs.slots), cs.slots, a)
    ensures remainder == Remainder(old(cs.slots[a].cap), UniqueObject(old(cs.slots), a))
    ensures CapRemovable(remainder, a) ==> cs.slots[a].cap == old(cs.slots[a].cap) && Vacant(cs.slots, a)
    ensures !CapRemovable(remainder, a) ==> cs.slots[a].cap == remainder
    ensures CyclicZombie(remainder, a) && !CapRemovable(remainder, a) && remainder != old(cs.slots[a].cap) ==>
      Loose(cs.slots) < Loose(old(cs.slots))
    ensures SideSlot(old(cs.slots), l, blocked, old(cs.slots[a].cap), UniqueObject(old(cs.slots), a)) == 0 ==>
      if CapRemovable(remainder, a) then View(cs) == old(View(cs)) else OnlyCap(old(cs.slots), cs.slots, a, remainder)
    ensures Spares(old(cs.slots), cs.slots, l, a, exposed, true) && IrqSilent(old(cs.slots), cs.slots, l, a)
  {
    ghost var d := View(cs);
    remainder := FinaliseSlot(cs, l, blocked, a, z);
    ghost var mid := View(cs);
    SideFrame(d, mid, l, z, a);
    if !CapRemovable(remainder, a) {
      ghost var side := SideSlot(d.slots, l, blocked, d.slots[a].cap, UniqueObject(d.slots, a));
      if UniqueObject(d.slots, a) { UniqueAfterSide(d, mid, side, a); }
      Store(cs, l, a, remainder, z);
      StoreFrame(d, mid, View(cs), l, z, a, remainder);
    } else {
      RemovableVacant(d.slots, cs.slots, l, a);
    }
    StoredSpares(d, mid, cs.slots, l, blocked, a, remainder, exposed);
  }

  /** Deleting the last handler of an interrupt empties its notification's slot. */
  lemma IrqSideTaken(d: Db, mid: Db, l: Layout, a: nat, ks: set<Container>)
    requires DbOk(d, l) && a in d.slots && d.slots[a].cap.IrqHandlerCap? && UniqueObject(d.slots, a)
    requires SideEmptied(d, mid, SlotAddr(l.irqNode, d.slots[a].cap.irq))
    requires SlotAddr(l.irqNode, d.slots[a].cap.irq) != 0
    ensures Taken(d.slots, mid.slots, l, ks, {a}, {a}, true)
  {
    var irq := d.slots[a].cap.irq;
    var side := SlotAddr(l.irqNode, irq);
    assert CapOk(d.slots, l, a);
    assert HandlerAt(d.slots, irq, a);
    forall h | HandlerAt(mid.slots, irq, h)
      ensures h in {a}
    {
      assert h != side;
      assert SameObjectAs(d.slots[a].cap, d.slots[h].cap);
    }
    assert Unhandled(d.slots, mid.slots, l, {a}, side, irq);
    forall c | c != a
      ensures TakenAt(d.slots, mid.slots, l, ks, {a}, true, c)
    {}
  }

  /** Deleting the last capability to a thread takes the reply it waits for. */
  lemma ReplySideTaken(d: Db, mid: Db, slots': Slots, l: Layout, a: nat, side: nat, ks: set<Container>)
    requires DbOk(d, l) && a in d.slots && d.slots[a].cap.ThreadCap? && UniqueObject(d.slots, a) && side != 0
    requires ReplySlot(d.slots[a].cap.ptr) in d.slots && side == d.slots[ReplySlot(d.slots[a].cap.ptr)].next
    requires SideEmptied(d, mid, side)
    requires OnlyCap(mid.slots, slots', a, ZombieFor(d.slots[a].cap))
    ensures Taken(d.slots, slots', l, ks, {a}, {a}, true)
  {
    var t := d.slots[a].cap.ptr;
    assert CapOk(d.slots, l, a);
    ReplyBehindMaster(d, l, t);
    UniqueIsSole(d.slots, l, a);
    forall h | Houses(slots', TcbOf(t), h)
      ensures h == a
    {
      assert h != a ==> Houses(d.slots, TcbOf(t), h);
    }
    assert Unawaited(d.slots, slots', side);
    forall c | c != a
      ensures TakenAt(d.slots, slots', l, ks, {a}, true, c)
    {}
  }

  /** What finaliseCap and storing its remainder touch besides a: the side slot. */
  lemma StoredSpares(d: Db, mid: Db, slots': Slots, l: Layout, blocked: set<nat>, a: nat, r: Cap, exposed: bool)
    requires DbOk(d, l) && a in d.slots && d.slots[a].cap != NullCap && mid.slots.Keys == d.slots.Keys
    requires SideEmptied(d, mid, SideSlot(d.slots, l, blocked, d.slots[a].cap, UniqueObject(d.slots, a)))
    requires r == Remainder(d.slots[a].cap, UniqueObject(d.slots, a)) && mid.slots[a].cap == d.slots[a].cap
    requires if CapRemovable(r, a) then slots' == mid.slots else OnlyCap(mid.slots, slots', a, r)
    ensures Spares(d.slots, slots', l, a, exposed, true)
  {
    var c := d.slots[a].cap;
    var side := SideSlot(d.slots, l, blocked, c, UniqueObject(d.slots, a));
    if side == 0 {
      RecapSpares(d.slots, slots', l, a, exposed);
    } else if c.IrqHandlerCap? {
      IrqSideTaken(d, mid, l, a, Base(d.slots, a, exposed));
    } else {
      ReplySideTaken(d, mid, slots', l, a, side, Base(d.slots, a, exposed));
      assert NamesAt(d.slots, ContainerOf(c), a);
    }
  }

  lemma StoreFrame(d: Db, mid: Db, d': Db, l: Layout, z: Zone, a: nat, r: Cap)
    requires Evolves(d, mid, l, z) && Evolves(mid, d', l, z) && a in d.slots && mid.slots[a].cap == d.slots[a].cap
    requires Frame(d.slots, mid.slots, a) && OnlyCap(mid.slots, d'.slots, a, r)
    requires r.ZombieCap? && (r == d.slots[a].cap || d.slots[a].cap.CNodeCap? || d.slots[a].cap.ThreadCap?)
    ensures Evolves(d, d', l, z) && Frame(d.slots, d'.slots, a)
    ensures CyclicZombie(r, a) && r != d.slots[a].cap ==> Loose(d'.slots) < Loose(d.slots)
  {
    EvolvesTrans(d, mid, d', l, z);
    forall b
      ensures FrameAt(mid.slots, d'.slots, a, b)
    {}
    FrameTrans(d.slots, mid.slots, d'.slots, a);
    if CyclicZombie(r, a) && r != d.slots[a].cap {
      assert a in Loose(d.slots) && a !in Loose(d'.slots);
    }
  }

  /** reduce_zombie, not immediate: the zombie trades places with its own first slot. */
  method ReduceBySwap(cs: CSpace, l: Layout, a: nat, ghost z: Zone) returns (status: Status)
    requires Inv(cs, l) && a in cs.slots && cs.slots[a].cap.ZombieCap? && cs.slots[a].cap.number > 0
    requires !CyclicZombie(cs.slots[a].cap, a) && a in z.swapped
    modifies cs
    ensures Evolves(old(View(cs)), View(cs), l, z)
    ensures status.Done? <==> !old(NextToFirst(cs.slots, a))
    ensures Clear(old(View(cs)), l, z) ==> status.Done?
    ensures status.Done? ==> Frame(old(cs.slots), cs.slots, a) && Loose(cs.slots) < Loose(old(cs.slots))
    ensures status.AdjacentSwap? ==> View(cs) == old(View(cs)) && AtSwap(cs.slots)
    ensures Spares(old(cs.slots), cs.slots, l, a, false, status.Done?)
  {
    ghost var d := View(cs);
    var ptr := cs.slots[a].cap.ptr;
    assert ptr != a;
    FirstSlot(cs.slots, l, a);
    EvolvesSelf(d, l, z);
    if Clear(d, l, z) { ClearNoNeighbour(d, l, z, a); }
    if Neighbours(cs.slots, ptr, a) {
      return AdjacentSwap;
    }
    var cap1, cap2 := cs.slots[ptr].cap, cs.slots[a].cap;
    RecapSame(cs.slots, cs.order, cs.nodes, ptr, a);
    cs.CteSwap(cap1, ptr, cap2, a);
    SwapStep(d, l, z, a, View(cs));
    SwapSpares(d.slots, l, cs.slots, a);
    status := Done;
  }

  lemma RecapSame(slots: Slots, order: seq<nat>, ns: seq<Node>, s1: nat, s2: nat)
    requires Rep(slots, order, ns) && s1 in slots && s2 in slots
    ensures RecapTwo(order, ns, s1, slots[s1].cap, s2, slots[s2].cap) == ns
  {
    forall k | 0 <= k < |ns|
      ensures RecapTwo(order, ns, s1, slots[s1].cap, s2, slots[s2].cap)[k] == ns[k]
    {
      assert At(slots, order, ns, k);
    }
  }

  /** set_zombie_number(n - 1) */
  method CountDown(cs: CSpace, l: Layout, a: nat, ghost z: Zone)
    requires Inv(cs, l) && a in cs.slots && cs.slots[a].cap.ZombieCap? && cs.slots[a].cap.number > 0
    requires
      var c := cs.slots[a].cap;
      var end := SlotAddr(c.ptr, c.number - 1);
      end in cs.slots && cs.slots[end].cap == NullCap
    modifies cs
    ensures Evolves(old(View(cs)), View(cs), l, z)
    ensures var c := old(cs.slots[a].cap); OnlyCap(old(cs.slots), cs.slots, a, ZombieCap(c.ptr, c.number - 1, c.kind))
  {
    ghost var d := View(cs);
    var ZombieCap(ptr, n, kind) := cs.slots[a].cap;
    cs.SetCap(a, ZombieCap(ptr, n - 1, kind));
    CountDownStep(d, l, z, a, View(cs));
  }

  // ---- the mutually recursive methods ----

  /** The zone covers what deleting slot a may swap: a itself when it is not exposed, else the slots of its container.
      */
  ghost predicate Zoned(slots: Slots, l: Layout, z: Zone, a: nat, immediate: bool)
    requires a in slots
  {
    if immediate then Covered(slots, l, z, a) else a in z.swapped
  }

  /** A capability whose deletion, when it is not exposed, begins with a swap of neighbours. */
  ghost predicate Stuck(slots: Slots, l: Layout, blocked: set<nat>, e: nat) {
    && e in slots && IsContainerCap(slots[e].cap)
    && var c := slots[e].cap;
       && (if c.ZombieCap? then c.number > 0 else UniqueObject(slots, e) && SideSlot(slots, l, blocked, c, true) == 0)
       && ContainerOf(c).base != e && ContainerOf(c).base in slots && Neighbours(slots, ContainerOf(c).base, e)
  }

  /** A container to be deleted whose last slot holds such a capability. */
  ghost predicate StuckInside(slots: Slots, l: Layout, blocked: set<nat>, a: nat) {
    && a in slots && IsContainerCap(slots[a].cap)
    && var c := slots[a].cap;
       && (c.ZombieCap? || (UniqueObject(slots, a) && SideSlot(slots, l, blocked, c, true) == 0))
       && var r := Remainder(c, true);
          && !CapRemovable(r, a) && SlotAddr(r.ptr, r.number - 1) != a
          && Stuck(slots, l, blocked, SlotAddr(r.ptr, r.number - 1))
  }

  /** Deleting slot a begins with such a swap. */
  ghost predicate Stops(slots: Slots, l: Layout, blocked: set<nat>, a: nat, exposed: bool) {
    if exposed then StuckInside(slots, l, blocked, a) else Stuck(slots, l, blocked, a)
  }

  lemma StuckKept(slots: Slots, slots': Slots, l: Layout, blocked: set<nat>, a: nat, r: Cap, e: nat)
    requires OnlyCap(slots, slots', a, r) && r.ZombieCap? && a != e && Stuck(slots, l, blocked, e)
    ensures Stuck(slots', l, blocked, e)
  {
    if !slots[e].cap.ZombieCap? {
      forall b | b in slots' && b != e
        ensures !SameObjectAs(slots'[e].cap, slots'[b].cap)
      {
        assert !SameObjectAs(slots[e].cap, slots[b].cap);
        SameObjectIsSameId(slots'[e].cap, slots'[b].cap);
      }
    }
  }

  /** After the zombie's last slot has been deleted: the zombie is gone, or it is as before and
      that slot is empty, or the slot now holds the zombie of the object it is the first slot of. */
  lemma EndSlotCleared(top: Slots, slots: Slots, l: Layout, a: nat, end: nat)
    requires CapsOk(top, l) && CapsOk(slots, l) && a in top && end in top
    requires top[a].cap.ZombieCap? && !CapRemovable(top[a].cap, a)
    requires end == SlotAddr(top[a].cap.ptr, top[a].cap.number - 1)
    requires Frame(top, slots, end)
    requires slots[end].cap == NullCap
             || (CyclicZombie(slots[end].cap, end) && (slots[end].cap == top[end].cap || Loose(slots) < Loose(top)))
    ensures slots[a].cap == NullCap || slots[a].cap.ZombieCap?
    ensures slots[a].cap == top[a].cap ==> slots[end].cap == NullCap
    ensures slots[a].cap.ZombieCap? && slots[a].cap != top[a].cap ==>
      slots[a].cap.ptr == a && top[a].cap.ptr != a && Loose(slots) < Loose(top)
    ensures slots[a].cap == NullCap ==> Loose(slots) < Loose(top)
  {
    assert CapOk(top, l, a) && CapOk(slots, l, a) && CapOk(slots, l, end) && FrameAt(top, slots, end, a);
    if slots[end].cap.ZombieCap? {
      assert SlotAddr(slots[end].cap.ptr, 0) == end;
      assert l.owner[end] == ContainerOf(slots[end].cap);
      assert a != end ==> Alone(slots, end, a);
    }
    assert l.owner[end] == ContainerOf(top[a].cap);
    if slots[a].cap == NullCap { assert a in Loose(top) && a !in Loose(slots); }
  }

  /** The last slot of a zombie, and what may be deleted there. */
  lemma EndSlot(slots: Slots, l: Layout, a: nat)
    requires CapsOk(slots, l) && a in slots && slots[a].cap.ZombieCap? && slots[a].cap.number > 0
    ensures
      var end := SlotAddr(slots[a].cap.ptr, slots[a].cap.number - 1);
      end in slots && end in l.owner && l.owner[end] == ContainerOf(slots[a].cap) && MasterFree(slots, end)
  {
    var end := SlotAddr(slots[a].cap.ptr, slots[a].cap.number - 1);
    assert CapOk(slots, l, a) && CapOk(slots, l, end);
    if slots[end].cap.ReplyCap? && slots[end].cap.master { assert ReplySlotOk(slots, l, end); }
  }

  /** delete_all. A deletion completes whenever the space is clear for its zone; it stops only where a zombie is
      a neighbour of its own first slot, and does stop there when that is its first swap. */
  method DeleteAll(cs: CSpace, l: Layout, blocked: set<nat>, a: nat, exposed: bool, ghost z: Zone)
    returns (status: Status)
    requires Inv(cs, l) && a in cs.slots && RepliesBlocked(cs.slots, blocked) && MasterFree(cs.slots, a)
    requires Zoned(cs.slots, l, z, a, exposed)
    modifies cs
    decreases if exposed then 5 else 2
    ensures Evolves(old(View(cs)), View(cs), l, z)
    ensures Clear(old(View(cs)), l, z) ==> status.Done?
    ensures status.AdjacentSwap? ==> AtSwap(cs.slots)
    ensures old(Stops(cs.slots, l, blocked, a, exposed)) ==> status.AdjacentSwap?
    ensures status.Done? && exposed ==> cs.slots[a] == EMPTY
    ensures status.Done? && !exposed ==>
      && Frame(old(cs.slots), cs.slots, a)
      && (cs.slots[a].cap == NullCap
          || (CyclicZombie(cs.slots[a].cap, a)
              && (cs.slots[a].cap == old(cs.slots[a].cap) || Loose(cs.slots) < Loose(old(cs.slots)))))
    ensures status.Done? && old(cs.slots[a].cap) != NullCap && cs.slots[a].cap == NullCap ==>
      Loose(cs.slots) < Loose(old(cs.slots)) || |cs.order| < |old(cs.order)|
    ensures old(Plain(cs.slots, a)) ==>
      status.Done? && Emptied(old(cs.slots), old(cs.order), old(cs.nodes), cs.slots, cs.order, cs.nodes, a)
    ensures Taken(old(cs.slots), cs.slots, l, Base(old(cs.slots), a, exposed), {a}, if status.Done? then {} else {a},
      status.Done?)
    ensures status.AdjacentSwap? ==> Leftover(cs.slots[a].cap)
    ensures IrqSilent(old(cs.slots), cs.slots, l, a)
  {
    ghost var first := View(cs);
    var success;
    status, success := Finalise(cs, l, blocked, a, exposed, z);
    if status.Done? && (exposed || success) {
      ghost var d := View(cs);
      LinksAreInverse(d.slots, d.order, d.nodes, a);
      cs.SetEmpty(a);
      EmptiedAfter(first, d, View(cs), l, a, exposed, z);
    } else if status.Done? {
      WorkDone(first.slots, cs.slots, l, a, exposed);
    }
  }

  /** The end of a deletion: what is left in the slot may go, and goes. */
  lemma EmptiedAfter(first: Db, d: Db, d': Db, l: Layout, a: nat, exposed: bool, z: Zone)
    requires Evolves(first, d, l, z) && Spares(first.slots, d.slots, l, a, exposed, true)
    requires (!exposed ==> Frame(first.slots, d.slots, a))
    requires MayGo(d.slots, a) && Emptied(d.slots, d.order, d.nodes, d'.slots, d'.order, d'.nodes, a)
    requires Clear(d, l, z) ==> a in z.touched || d.slots[a].cap.ReplyCap? || d.slots[a].cap.NullCap?
    ensures Evolves(first, d', l, z) && (!exposed ==> Frame(first.slots, d'.slots, a))
    ensures Taken(first.slots, d'.slots, l, Base(first.slots, a, exposed), {a}, {}, true)
  {
    RemoveStep(d, l, z, a, d');
    EvolvesTrans(first, d, d', l, z);
    if !exposed { FrameTrans(first.slots, d.slots, d'.slots, a); }
    RecapSpares(d.slots, d'.slots, l, a, exposed);
    SparesTrans(first.slots, d.slots, d'.slots, l, a, exposed, true);
    WorkDone(first.slots, d'.slots, l, a, exposed);
  }

  /** finalise */
  method Finalise(cs: CSpace, l: Layout, blocked: set<nat>, a: nat, immediate: bool, ghost z: Zone)
    returns (status: Status, success: bool)
    requires Inv(cs, l) && a in cs.slots && RepliesBlocked(cs.slots, blocked) && MasterFree(cs.slots, a)
    requires Zoned(cs.slots, l, z, a, immediate)
    modifies cs
    decreases if immediate then 4 else 1, 1
    ensures Evolves(old(View(cs)), View(cs), l, z)
    ensures Clear(old(View(cs)), l, z) ==> status.Done?
    ensures status.AdjacentSwap? ==> AtSwap(cs.slots)
    ensures old(Stops(cs.slots, l, blocked, a, immediate)) ==> status.AdjacentSwap?
    ensures status.Done? && immediate ==> success
    ensures status.Done? && success ==> MayGo(cs.slots, a)
    ensures status.Done? && !immediate ==>
      && Frame(old(cs.slots), cs.slots, a)
      && (!success ==>
            CyclicZombie(cs.slots[a].cap, a)
            && (cs.slots[a].cap == old(cs.slots[a].cap) || Loose(cs.slots) < Loose(old(cs.slots))))
    ensures status.Done? && old(cs.slots[a].cap) != NullCap && cs.slots[a].cap == NullCap ==>
      Loose(cs.slots) < Loose(old(cs.slots))
    ensures old(Plain(cs.slots, a)) ==> status.Done? && success && View(cs) == old(View(cs))
    ensures Spares(old(cs.slots), cs.slots, l, a, immediate, status.Done?)
    ensures status.AdjacentSwap? ==> Leftover(cs.slots[a].cap)
    ensures IrqSilent(old(cs.slots), cs.slots, l, a)
  {
    ghost var first := View(cs);
    EvolvesSelf(first, l, z);
    SparesSelf(first.slots, l, a, immediate);
    var turn := Again;
    ghost var begun := false;
    while cs.slots[a].cap != NullCap
      invariant Between(first, View(cs), l, blocked, a, immediate, z)
      invariant !begun ==> View(cs) == first
      invariant begun ==> GoesOn(first.slots, l, blocked, a, immediate)
      decreases Loose(cs.slots), Weight(cs.slots[a].cap)
    {
      status, turn := FinaliseRound(cs, l, blocked, a, immediate, z, first, begun);
      begun := true;
      if !status.Done? || turn != Again {
        return status, turn == Succeeded;
      }
    }
    return Done, true;
  }

  /** While no loose capability has gone, the slot holds what it held. */
  ghost predicate NotYet(slots: Slots, slots': Slots, a: nat, immediate: bool) {
    && a in slots && a in slots'
    && (Loose(slots') == Loose(slots) ==>
          && (slots[a].cap != NullCap ==> slots'[a].cap != NullCap)
          && (!immediate ==> slots'[a].cap == slots[a].cap))
  }

  /** Between two rounds of the loop of finalise that began in the capability space `first`. */
  ghost predicate Between(first: Db, d: Db, l: Layout, blocked: set<nat>, a: nat, immediate: bool, z: Zone) {
    && Evolves(first, d, l, z) && RepliesBlocked(d.slots, blocked) && NotYet(first.slots, d.slots, a, immediate)
    && Zoned(d.slots, l, z, a, immediate) && MasterFree(d.slots, a)
    && Spares(first.slots, d.slots, l, a, immediate, true) && (!immediate ==> Frame(first.slots, d.slots, a))
  }

  /** One round, seen from the beginning. */
  method FinaliseRound(cs: CSpace, l: Layout, blocked: set<nat>, a: nat, immediate: bool, ghost z: Zone,
      ghost first: Db, ghost begun: bool)
    returns (status: Status, turn: Turn)
    requires Inv(cs, l) && a in cs.slots && cs.slots[a].cap != NullCap
    requires Between(first, View(cs), l, blocked, a, immediate, z) && (!begun ==> View(cs) == first)
    requires begun ==> GoesOn(first.slots, l, blocked, a, immediate)
    modifies cs
    decreases if immediate then 4 else 1, 0, 2
    ensures Evolves(first, View(cs), l, z) && Spares(first.slots, cs.slots, l, a, immediate, status.Done?)
    ensures Clear(first, l, z) ==> status.Done?
    ensures status.AdjacentSwap? ==> AtSwap(cs.slots) && Leftover(cs.slots[a].cap)
    ensures Stops(first.slots, l, blocked, a, immediate) ==> status.AdjacentSwap?
    ensures status.Done? && !immediate ==> Frame(first.slots, cs.slots, a)
    ensures status.Done? && turn == Succeeded ==> cs.slots[a].cap != NullCap && MayGo(cs.slots, a)
    ensures status.Done? && turn == Stays ==>
      && !immediate && CyclicZombie(cs.slots[a].cap, a)
      && (cs.slots[a].cap == first.slots[a].cap || Loose(cs.slots) < Loose(first.slots))
    ensures status.Done? && turn == Again ==>
      && Between(first, View(cs), l, blocked, a, immediate, z) && Shrinks(old(cs.slots), cs.slots, a, immediate)
      && Loose(cs.slots) <= Loose(old(cs.slots)) && GoesOn(first.slots, l, blocked, a, immediate)
    ensures Plain(first.slots, a) ==> status.Done? && turn == Succeeded && View(cs) == first
    ensures IrqSilent(first.slots, cs.slots, l, a)
  {
    ghost var top := View(cs);
    status, turn := FinaliseOnce(cs, l, blocked, a, immediate, z);
    JoinRounds(first, top, View(cs), l, blocked, a, immediate, z, status.Done?);
  }

  /** What a capability that takes more than one round is not. */
  ghost predicate GoesOn(slots: Slots, l: Layout, blocked: set<nat>, a: nat, immediate: bool) {
    a in slots && !Plain(slots, a) && !Stops(slots, l, blocked, a, immediate) && !slots[a].cap.IrqHandlerCap?
  }

  /** Rounds follow each other. */
  lemma JoinRounds(first: Db, top: Db, d: Db, l: Layout, blocked: set<nat>, a: nat, immediate: bool, z: Zone,
      done: bool)
    requires Evolves(first, top, l, z) && Evolves(top, d, l, z) && RepliesBlocked(top.slots, blocked)
    requires Spares(first.slots, top.slots, l, a, immediate, true) && Spares(top.slots, d.slots, l, a, immediate, done)
    requires !immediate ==> Frame(first.slots, top.slots, a) && (done ==> Frame(top.slots, d.slots, a))
    ensures Evolves(first, d, l, z) && RepliesBlocked(d.slots, blocked)
    ensures Spares(first.slots, d.slots, l, a, immediate, done)
    ensures !immediate && done ==> Frame(first.slots, d.slots, a)
  {
    EvolvesTrans(first, top, d, l, z);
    SparesTrans(first.slots, top.slots, d.slots, l, a, immediate, done);
    BlockedKept(top.slots, d.slots, blocked);
    if !immediate && done { FrameTrans(first.slots, top.slots, d.slots, a); }
  }

  datatype Turn = Again | Succeeded | Stays

  /** The loop body of finalise: Again when it goes round, otherwise the success it returns. */
  method FinaliseOnce(cs: CSpace, l: Layout, blocked: set<nat>, a: nat, immediate: bool, ghost z: Zone)
    returns (status: Status, turn: Turn)
    requires Inv(cs, l) && a in cs.slots && cs.slots[a].cap != NullCap && RepliesBlocked(cs.slots, blocked)
    requires MasterFree(cs.slots, a) && Zoned(cs.slots, l, z, a, immediate)
    modifies cs
    decreases if immediate then 4 else 1, 0, 1
    ensures Evolves(old(View(cs)), View(cs), l, z)
    ensures Clear(old(View(cs)), l, z) ==> status.Done?
    ensures status.AdjacentSwap? ==> AtSwap(cs.slots)
    ensures old(Stops(cs.slots, l, blocked, a, immediate)) ==> status.AdjacentSwap?
    ensures status.Done? && !immediate ==> Frame(old(cs.slots), cs.slots, a)
    ensures status.Done? ==> Zoned(cs.slots, l, z, a, immediate)
    ensures status.Done? && turn == Succeeded ==> cs.slots[a].cap != NullCap && MayGo(cs.slots, a)
    ensures status.Done? && turn == Again ==> MasterFree(cs.slots, a)
    ensures status.Done? && turn == Stays ==>
      && !immediate && CyclicZombie(cs.slots[a].cap, a)
      && (cs.slots[a].cap == old(cs.slots[a].cap) || Loose(cs.slots) < Loose(old(cs.slots)))
    ensures status.Done? && turn == Again ==>
      Shrinks(old(cs.slots), cs.slots, a, immediate)
    ensures old(Plain(cs.slots, a)) ==> status.Done? && turn == Succeeded && View(cs) == old(View(cs))
    ensures Spares(old(cs.slots), cs.slots, l, a, immediate, status.Done?)
    ensures status.AdjacentSwap? ==> Leftover(cs.slots[a].cap)
    ensures IrqSilent(old(cs.slots), cs.slots, l, a) && (turn == Again ==> !old(cs.slots[a].cap.IrqHandlerCap?))
  {
    ghost var top := View(cs);
    var remainder;
    ghost var ahead;
    remainder, ahead := BeginRound(cs, l, blocked, a, immediate, z);
    if CapRemovable(remainder, a) {
      return Done, Succeeded;
    }
    status, turn := FinishRound(cs, l, blocked, a, immediate, z, top, ahead);
  }

  /** The zombie in a is about to be swapped with a neighbour, at once or when its last slot is deleted. */
  ghost predicate SwapAhead(slots: Slots, l: Layout, blocked: set<nat>, a: nat, immediate: bool)
    requires a in slots && slots[a].cap.ZombieCap? && slots[a].cap.number > 0
  {
    if immediate then Stuck(slots, l, blocked, SlotAddr(slots[a].cap.ptr, slots[a].cap.number - 1))
      else NextToFirst(slots, a)
  }

  /** The beginning of a round: the capability is finalised and what is left of it stored. */
  method BeginRound(cs: CSpace, l: Layout, blocked: set<nat>, a: nat, immediate: bool, ghost z: Zone)
    returns (remainder: Cap, ghost ahead: bool)
    requires Inv(cs, l) && a in cs.slots && cs.slots[a].cap != NullCap && RepliesBlocked(cs.slots, blocked)
    requires MasterFree(cs.slots, a) && Zoned(cs.slots, l, z, a, immediate)
    modifies cs
    ensures Evolves(old(View(cs)), View(cs), l, z) && Frame(old(cs.slots), cs.slots, a)
    ensures RepliesBlocked(cs.slots, blocked) && Zoned(cs.slots, l, z, a, immediate)
    ensures CapRemovable(remainder, a) ==> cs.slots[a].cap != NullCap && MayGo(cs.slots, a)
    ensures old(Stops(cs.slots, l, blocked, a, immediate)) ==> ahead
    ensures CapRemovable(remainder, a) ==> !ahead
    ensures !CapRemovable(remainder, a) ==>
      && remainder.ZombieCap? && remainder.number > 0 && cs.slots[a].cap == remainder
      && Weight(remainder) <= Weight(old(cs.slots[a].cap))
      && (CyclicZombie(remainder, a) && remainder != old(cs.slots[a].cap) ==> Loose(cs.slots) < Loose(old(cs.slots)))
      && (ahead ==> SwapAhead(cs.slots, l, blocked, a, immediate))
    ensures old(Plain(cs.slots, a)) ==> CapRemovable(remainder, a) && View(cs) == old(View(cs))
    ensures Spares(old(cs.slots), cs.slots, l, a, immediate, true) && IrqSilent(old(cs.slots), cs.slots, l, a)
    ensures !CapRemovable(remainder, a) ==> IsContainerCap(old(cs.slots[a].cap))
  {
    ghost var top := View(cs);
    remainder := StoreFinalised(cs, l, blocked, a, immediate, z);
    ghost var stored := View(cs);
    ZonedStored(top.slots, stored.slots, l, z, a, immediate, remainder);
    BlockedKept(top.slots, stored.slots, blocked);
    ahead := Stops(top.slots, l, blocked, a, immediate);
    RoundBegins(top, stored, l, blocked, a, immediate, z, remainder);
  }

  /** What was stored may go, or is a zombie that is swapped with a neighbour if that was ahead. */
  lemma RoundBegins(top: Db, stored: Db, l: Layout, blocked: set<nat>, a: nat, immediate: bool, z: Zone, r: Cap)
    requires Evolves(top, stored, l, z) && a in top.slots && top.slots[a].cap != NullCap && MasterFree(top.slots, a)
    requires r == Remainder(top.slots[a].cap, UniqueObject(top.slots, a))
    requires CapRemovable(r, a) ==> stored.slots[a].cap == top.slots[a].cap && Vacant(stored.slots, a)
    requires !CapRemovable(r, a) ==> stored.slots[a].cap == r
    requires SideSlot(top.slots, l, blocked, top.slots[a].cap, UniqueObject(top.slots, a)) == 0 ==>
      if CapRemovable(r, a) then stored == top else OnlyCap(top.slots, stored.slots, a, r)
    ensures CapRemovable(r, a) ==> MayGo(stored.slots, a) && !Stops(top.slots, l, blocked, a, immediate)
    ensures !CapRemovable(r, a) ==>
      && r.ZombieCap? && r.number > 0 && Weight(r) <= Weight(top.slots[a].cap) && IsContainerCap(top.slots[a].cap)
      && (Stops(top.slots, l, blocked, a, immediate) ==> SwapAhead(stored.slots, l, blocked, a, immediate))
    ensures Plain(top.slots, a) ==> CapRemovable(r, a) && stored == top
  {
    if CapRemovable(r, a) {
      MasterStays(top, stored, l, z, a);
    } else {
      StoredStuck(top.slots, stored.slots, l, blocked, a, r);
    }
  }

  /** The rest of a round with a zombie: one stored in its own first slot stays, any other is reduced. */
  method FinishRound(cs: CSpace, l: Layout, blocked: set<nat>, a: nat, immediate: bool, ghost z: Zone, ghost top: Db,
      ghost ahead: bool)
    returns (status: Status, turn: Turn)
    requires Inv(cs, l) && a in cs.slots && cs.slots[a].cap.ZombieCap? && RepliesBlocked(cs.slots, blocked)
    requires Zoned(cs.slots, l, z, a, immediate)
    requires !CapRemovable(cs.slots[a].cap, a)
    requires Evolves(top, View(cs), l, z) && a in top.slots && Frame(top.slots, cs.slots, a)
    requires Weight(cs.slots[a].cap) <= Weight(top.slots[a].cap)
    requires CyclicZombie(cs.slots[a].cap, a) && cs.slots[a].cap != top.slots[a].cap ==>
      Loose(cs.slots) < Loose(top.slots)
    requires cs.slots[a].cap.number > 0 && (ahead ==> SwapAhead(cs.slots, l, blocked, a, immediate))
    requires Spares(top.slots, cs.slots, l, a, immediate, true)
    modifies cs
    decreases if immediate then 4 else 1, 0, 0
    ensures Evolves(top, View(cs), l, z)
    ensures Clear(top, l, z) ==> status.Done?
    ensures status.AdjacentSwap? ==> AtSwap(cs.slots)
    ensures ahead ==> status.AdjacentSwap?
    ensures status.Done? ==>
      turn != Succeeded && Zoned(cs.slots, l, z, a, immediate) && (!immediate ==> Frame(top.slots, cs.slots, a))
    ensures status.Done? && turn == Again ==> MasterFree(cs.slots, a) && Shrinks(top.slots, cs.slots, a, immediate)
    ensures status.Done? && turn == Stays ==>
      && !immediate && CyclicZombie(cs.slots[a].cap, a)
      && (cs.slots[a].cap == top.slots[a].cap || Loose(cs.slots) < Loose(top.slots))
    ensures Spares(top.slots, cs.slots, l, a, immediate, status.Done?)
    ensures status.AdjacentSwap? ==> Leftover(cs.slots[a].cap)
  {
    if !immediate && CyclicZombie(cs.slots[a].cap, a) {
      return Done, Stays;
    }
    status := ReduceStored(cs, l, blocked, a, immediate, z, top);
    turn := Again;
  }

  /** The rest of a round: the stored zombie is reduced. */
  method ReduceStored(cs: CSpace, l: Layout, blocked: set<nat>, a: nat, immediate: bool, ghost z: Zone, ghost top: Db)
    returns (status: Status)
    requires Inv(cs, l) && a in cs.slots && cs.slots[a].cap.ZombieCap? && RepliesBlocked(cs.slots, blocked)
    requires Zoned(cs.slots, l, z, a, immediate)
    requires !CapRemovable(cs.slots[a].cap, a) && (!immediate ==> !CyclicZombie(cs.slots[a].cap, a))
    requires Evolves(top, View(cs), l, z) && a in top.slots && Frame(top.slots, cs.slots, a)
    requires Weight(cs.slots[a].cap) <= Weight(top.slots[a].cap)
    requires Spares(top.slots, cs.slots, l, a, immediate, true)
    modifies cs
    decreases if immediate then 3 else 0, 2
    ensures Evolves(top, View(cs), l, z)
    ensures Clear(top, l, z) ==> status.Done?
    ensures status.AdjacentSwap? ==> AtSwap(cs.slots)
    ensures !immediate && old(NextToFirst(cs.slots, a)) ==> status.AdjacentSwap?
    ensures
      var c := old(cs.slots[a].cap);
      immediate && old(Stuck(cs.slots, l, blocked, SlotAddr(c.ptr, c.number - 1))) ==> status.AdjacentSwap?
    ensures status.Done? ==>
      Zoned(cs.slots, l, z, a, immediate) && MasterFree(cs.slots, a) && Shrinks(top.slots, cs.slots, a, immediate)
    ensures status.Done? && !immediate ==> Frame(top.slots, cs.slots, a)
    ensures Spares(top.slots, cs.slots, l, a, immediate, status.Done?)
    ensures status.AdjacentSwap? ==> Leftover(cs.slots[a].cap)
  {
    ghost var stored := View(cs);
    status := ReduceZombie(cs, l, blocked, a, immediate, z);
    SparesTrans(top.slots, stored.slots, cs.slots, l, a, immediate, status.Done?);
    if status.Done? {
      if !immediate { FrameTrans(top.slots, stored.slots, cs.slots, a); }
      NotMaster(View(cs), l, a, stored);
    }
    EvolvesTrans(top, stored, View(cs), l, z);
  }

  lemma ZonedStored(slots: Slots, slots': Slots, l: Layout, z: Zone, a: nat, immediate: bool, r: Cap)
    requires a in slots && a in slots' && Zoned(slots, l, z, a, immediate)
    requires r == Remainder(slots[a].cap, UniqueObject(slots, a))
    requires slots'[a].cap == if CapRemovable(r, a) then slots[a].cap else r
    ensures Zoned(slots', l, z, a, immediate)
  {
    if immediate { CoveredKept(slots, slots', l, z, a); }
  }

  /** A capability that is neither container nor reply stays deletable. */
  lemma MasterStays(d: Db, d': Db, l: Layout, z: Zone, a: nat)
    requires Evolves(d, d', l, z) && a in d.slots && d'.slots[a].cap == d.slots[a].cap && MasterFree(d.slots, a)
    ensures MasterFree(d'.slots, a)
  {
    if d.slots[a].cap.ReplyCap? && d.slots[a].cap.master { WanesReplies(d.slots, d'.slots, d.slots[a].cap.tcb); }
  }

  /** A slot that held a zombie is no reply slot. */
  lemma NotMaster(d: Db, l: Layout, a: nat, before: Db)
    requires DbOk(d, l) && DbOk(before, l) && a in d.slots && a in before.slots && before.slots[a].cap.ZombieCap?
    ensures MasterFree(d.slots, a)
  {
    assert CapOk(d.slots, l, a);
    assert a in l.replySlots ==> ReplySlotOk(before.slots, l, a);
  }

  lemma StoredStuck(slots: Slots, slots': Slots, l: Layout, blocked: set<nat>, a: nat, r: Cap)
    requires a in slots && slots[a].cap != NullCap && r == Remainder(slots[a].cap, UniqueObject(slots, a))
    requires !CapRemovable(r, a)
    requires SideSlot(slots, l, blocked, slots[a].cap, UniqueObject(slots, a)) == 0 ==> OnlyCap(slots, slots', a, r)
    ensures Stuck(slots, l, blocked, a) ==> NextToFirst(slots', a)
    ensures StuckInside(slots, l, blocked, a) ==>
      a in slots' && slots'[a].cap == r && Stuck(slots', l, blocked, SlotAddr(r.ptr, r.number - 1))
  {
    if StuckInside(slots, l, blocked, a) { StuckKept(slots, slots', l, blocked, a, r, SlotAddr(r.ptr, r.number - 1)); }
  }

  /** reduce_zombie. The assert statements here and below are the source's assertions. */
  method ReduceZombie(cs: CSpace, l: Layout, blocked: set<nat>, a: nat, immediate: bool, ghost z: Zone)
    returns (status: Status)
    requires Inv(cs, l) && a in cs.slots && cs.slots[a].cap.ZombieCap? && RepliesBlocked(cs.slots, blocked)
    requires Zoned(cs.slots, l, z, a, immediate)
    requires !CapRemovable(cs.slots[a].cap, a)
    requires !immediate ==> !CyclicZombie(cs.slots[a].cap, a)
    modifies cs
    decreases if immediate then 3 else 0, 1
    ensures Evolves(old(View(cs)), View(cs), l, z)
    ensures Clear(old(View(cs)), l, z) ==> status.Done?
    ensures status.AdjacentSwap? ==> AtSwap(cs.slots)
    ensures !immediate ==> (status.AdjacentSwap? <==> old(NextToFirst(cs.slots, a)))
    ensures
      var c := old(cs.slots[a].cap);
      immediate && old(Stuck(cs.slots, l, blocked, SlotAddr(c.ptr, c.number - 1))) ==> status.AdjacentSwap?
    ensures status.Done? ==> Zoned(cs.slots, l, z, a, immediate)
    ensures status.Done? && !immediate ==> Frame(old(cs.slots), cs.slots, a)
    ensures status.Done? ==> Shrinks(old(cs.slots), cs.slots, a, immediate)
    ensures Spares(old(cs.slots), cs.slots, l, a, immediate, status.Done?)
    ensures status.AdjacentSwap? ==> Leftover(cs.slots[a].cap)
  {
    assert cs.slots[a].cap.ZombieCap?;
    assert cs.slots[a].cap.number > 0;
    if immediate {
      status := ReduceImmediate(cs, l, blocked, a, z);
    } else {
      status := ReduceBySwap(cs, l, a, z);
    }
  }

  /** reduce_zombie, immediate: delete the zombie's last slot and count it off. */
  method ReduceImmediate(cs: CSpace, l: Layout, blocked: set<nat>, a: nat, ghost z: Zone) returns (status: Status)
    requires Inv(cs, l) && a in cs.slots && cs.slots[a].cap.ZombieCap? && RepliesBlocked(cs.slots, blocked)
    requires Covered(cs.slots, l, z, a)
    requires !CapRemovable(cs.slots[a].cap, a)
    modifies cs
    decreases 3, 0
    ensures Evolves(old(View(cs)), View(cs), l, z)
    ensures Clear(old(View(cs)), l, z) ==> status.Done?
    ensures status.AdjacentSwap? ==> AtSwap(cs.slots)
    ensures
      var c := old(cs.slots[a].cap);
      old(Stuck(cs.slots, l, blocked, SlotAddr(c.ptr, c.number - 1))) ==> status.AdjacentSwap?
    ensures status.Done? ==> Covered(cs.slots, l, z, a)
    ensures status.Done? ==> Shrinks(old(cs.slots), cs.slots, a, true)
    ensures Spares(old(cs.slots), cs.slots, l, a, true, status.Done?)
    ensures status.AdjacentSwap? ==> Leftover(cs.slots[a].cap)
  {
    ghost var top := View(cs);
    var ZombieCap(ptr, n, kind) := cs.slots[a].cap;
    EndSlot(cs.slots, l, a);
    var end := SlotAddr(ptr, n - 1);
    assert CoveredAt(cs.slots, l, z, a, end);
    status := DeleteAll(cs, l, blocked, end, false, z);
    EndTaken(top.slots, l, cs.slots, a, end, status.Done?);
    if !status.Done? {
      return;
    }
    ghost var mid := View(cs);
    EndSlotCleared(top.slots, mid.slots, l, a, end);
    CountOff(cs, l, a, ptr, n, kind, top.slots, z);
    EvolvesTrans(top, mid, View(cs), l, z);
    SparesTrans(top.slots, mid.slots, cs.slots, l, a, true, true);
    CoveredKept(top.slots, cs.slots, l, z, a);
  }

  /** What reduce_zombie does once the last slot is deleted. */
  method CountOff(cs: CSpace, l: Layout, a: nat, ptr: nat, n: nat, kind: ZombieKind, ghost top: Slots, ghost z: Zone)
    requires Inv(cs, l) && a in cs.slots && n > 0 && a in top && top[a].cap == ZombieCap(ptr, n, kind)
    requires cs.slots[a].cap == NullCap || cs.slots[a].cap.ZombieCap?
    requires Loose(cs.slots) <= Loose(top) && (cs.slots[a].cap != top[a].cap ==> Loose(cs.slots) < Loose(top))
    requires cs.slots[a].cap == top[a].cap ==>
      SlotAddr(ptr, n - 1) in cs.slots && cs.slots[SlotAddr(ptr, n - 1)].cap == NullCap
    requires cs.slots[a].cap.ZombieCap? && cs.slots[a].cap != top[a].cap ==> cs.slots[a].cap.ptr == a && ptr != a
    modifies cs
    ensures Evolves(old(View(cs)), View(cs), l, z)
    ensures Dismantled(top[a].cap, cs.slots[a].cap, a) && Shrinks(top, cs.slots, a, true)
    ensures Spares(old(cs.slots), cs.slots, l, a, true, true)
  {
    ghost var s := cs.slots;
    EvolvesSelf(View(cs), l, z);
    SparesSelf(s, l, a, true);
    match cs.slots[a].cap {
      case NullCap =>
      case ZombieCap(ptr2, n2, kind2) =>
        if ptr == ptr2 && n == n2 && kind == kind2 {
          assert cs.slots[SlotAddr(ptr, n - 1)].cap == NullCap;
          CountDown(cs, l, a, z);
          RecapSpares(s, cs.slots, l, a, true);
        } else {
          assert ptr2 == a && ptr != a;
        }
      case _ =>
        assert false;
    }
  }
}
