/** Every run of capability operations: retype, copy, mint, move, mutate, rotate, transfer, delete and revoke, in any
    order, keep the whole invariant of the capability space, new CNodes and TCBs included. */
module SpaceRuns {
  import opened Words
  import opened Caps
  import opened Mdb
  import opened ReplyMdb
  import opened Containers
  import opened SwapSafety
  import opened DeletionFrame
  import opened Deletion
  import opened Revoke
  import opened CNodeOps
  import opened Untyped
  import opened Retype
  import CapTransfer

  datatype SpaceOp =
    | Copy(src: nat, dest: nat, rights: Rights, mint: Option<nat>)
    | Move(src: nat, dest: nat, data: Option<nat>)
    | Rotate(src: nat, pivot: nat, dest: nat, srcData: nat, pivotData: nat)
    | Delete(slot: nat)
    | Revoke(slot: nat)
    | Retype(src: nat, request: Request, node: nat, offset: nat)
    | Transfer(endpoint: Option<nat>, extra: seq<nat>, receiveSlot: Option<nat>)   // the capabilities of a message

  /** A slot that a capability address can lead to: lookup goes through CNodes only. */
  predicate Reachable(slots: Slots, l: Layout, a: nat) {
    a in slots && a in l.owner && l.owner[a].kind.ZombieCNode?
  }

  /** What the decoders establish: the slots were looked up, destinations are empty and the user's to fill. */
  predicate May(slots: Slots, l: Layout, op: SpaceOp) {
    match op
    case Copy(src, dest, _, _) =>
      Reachable(slots, l, src) && Reachable(slots, l, dest) && slots[src].cap != NullCap && UserSlot(slots, l, dest)
        && slots[dest].cap == NullCap
    case Move(src, dest, _) =>
      Reachable(slots, l, src) && Reachable(slots, l, dest) && Movable(l, src) && UserSlot(slots, l, dest)
        && slots[dest].cap == NullCap
    case Rotate(src, pivot, dest, _, _) =>
      && Reachable(slots, l, src) && Reachable(slots, l, pivot) && Reachable(slots, l, dest)
      && RotateOk(slots, l, src, pivot, dest) && !(src == dest && Neighbours(slots, src, pivot))
    case Delete(a) => a in slots && a !in l.replySlots
    case Revoke(a) => a in slots
    case Retype(src, _, node, _) => Reachable(slots, l, src) && slots[src].cap.UntypedCap? && node in slots
    case Transfer(_, extra, receiveSlot) =>
      && |extra| <= CapTransfer.MAX_EXTRA_CAPS && (forall j :: 0 <= j < |extra| ==> Reachable(slots, l, extra[j]))
      && (receiveSlot.Some? ==>
            Reachable(slots, l, receiveSlot.value) && UserSlot(slots, l, receiveSlot.value)
              && slots[receiveSlot.value].cap == NullCap)
  }

  predicate TcbSlotKept(slots: Slots, slots': Slots, l: Layout, a: nat) {
    a in slots && a in l.owner && l.owner[a].kind == ZombieTcb ==> a in slots' && slots'[a].cap == slots[a].cap
  }

  /** What copy, move, rotate and retype leave alone: no reply capability is made, the slots of TCBs keep what they
      hold, and whatever a capability stands for stays so. */
  ghost predicate Peaceful(slots: Slots, slots': Slots, l: Layout) {
    && NoNewReplies(slots, slots') && LiveKept(slots, slots')
    && forall a {:trigger TcbSlotKept(slots, slots', l, a)} :: TcbSlotKept(slots, slots', l, a)
  }

  /** Every reply capability was there before, perhaps in another slot. */
  ghost predicate NoNewReplies(slots: Slots, slots': Slots) {
    forall b {:trigger ReplyFrom(slots, slots', b)} :: b in slots' ==> ReplyFrom(slots, slots', b)
  }

  ghost predicate ReplyFrom(slots: Slots, slots': Slots, b: nat)
    requires b in slots'
  {
    slots'[b].cap.ReplyCap? && !slots'[b].cap.master ==> exists a :: a in slots && slots[a].cap == slots'[b].cap
  }

  lemma NoNewShrink(slots: Slots, slots': Slots, blocked: set<nat>)
    requires NoNewReplies(slots, slots') && RepliesBlocked(slots, blocked)
    ensures RepliesBlocked(slots', blocked)
  {
    forall t | t !in blocked
      ensures NoReplies(slots', t)
    {
      assert NoReplies(slots, t);
      forall b | b in slots'
        ensures !IsReply(slots'[b].cap, t)
      {
        assert ReplyFrom(slots, slots', b);
        assert forall a :: a in slots ==> !IsReply(slots[a].cap, t);
      }
    }
  }

  /** A slot of no reply master may always be emptied. */
  lemma OrdinaryFree(slots: Slots, l: Layout, a: nat)
    requires CapsOk(slots, l) && a in slots && a !in l.replySlots
    ensures MasterFree(slots, a)
  {
    assert CapOk(slots, l, a);
  }

  /** A zone for any operation: every slot. */
  function AllOf(slots: Slots, l: Layout): (z: Zone) {
    var s := slots.Keys + l.owner.Keys;
    Zone(s, s)
  }

  method DoCopy(cs: CSpace, l: Layout, op: SpaceOp)
    requires Inv(cs, l) && op.Copy? && May(cs.slots, l, op)
    modifies cs
    ensures Inv(cs, l) && Peaceful(old(cs.slots), cs.slots, l)
  {
    ghost var s0 := cs.slots;
    var ok := CopyOrMint(cs, l, op.src, op.dest, op.rights, op.mint);
    forall b | b in cs.slots
      ensures ReplyFrom(s0, cs.slots, b)
    {
      if b != op.dest && b != op.src { assert cs.slots[b].cap == s0[b].cap; }
    }
    if !ok { LiveSame(s0); }
  }

  lemma LiveSame(s: Slots)
    ensures LiveKept(s, s)
  {}

  method DoMove(cs: CSpace, l: Layout, op: SpaceOp)
    requires Inv(cs, l) && op.Move? && May(cs.slots, l, op)
    modifies cs
    ensures Inv(cs, l) && Peaceful(old(cs.slots), cs.slots, l)
  {
    ghost var s0 := cs.slots;
    var ok := MoveOrMutate(cs, l, op.src, op.dest, op.data);
    forall b | b in cs.slots
      ensures ReplyFrom(s0, cs.slots, b)
    {
      if ok && b != op.dest && b != op.src { assert cs.slots[b].cap == s0[b].cap; }
      assert s0[op.src].cap.ReplyCap? ==> !s0[op.src].cap.CNodeCap?;
    }
  }

  method DoRotate(cs: CSpace, l: Layout, op: SpaceOp)
    requires Inv(cs, l) && op.Rotate? && May(cs.slots, l, op)
    modifies cs
    ensures Inv(cs, l) && Peaceful(old(cs.slots), cs.slots, l)
  {
    ghost var s0 := cs.slots;
    var ok := CNodeOps.Rotate(cs, l, op.src, op.pivot, op.dest, op.srcData, op.pivotData);
    LiveSame(s0);
    if ok {
      RotatedReplies(s0, cs.slots, op.src, op.pivot, op.dest);
    }
  }

  lemma RotatedReplies(s0: Slots, s: Slots, src: nat, pivot: nat, dest: nat)
    requires s.Keys == s0.Keys && pivot in s && dest in s
    requires Rotated(s0, s, src, pivot, dest, s[pivot].cap, s[dest].cap)
    requires (s[pivot].cap.ReplyCap? ==> s[pivot].cap == s0[src].cap)
    requires (s[dest].cap.ReplyCap? ==> s[dest].cap == s0[pivot].cap)
    ensures NoNewReplies(s0, s)
  {
    forall b | b in s
      ensures ReplyFrom(s0, s, b)
    {
      if b != src && b != pivot && b != dest { assert s[b].cap == s0[b].cap; }
    }
  }

  method DoRetype(cs: CSpace, l: Layout, op: SpaceOp) returns (l': Layout)
    requires Inv(cs, l) && op.Retype? && May(cs.slots, l, op)
    modifies cs
    ensures Inv(cs, l') && Peaceful(old(cs.slots), cs.slots, l)
  {
    ghost var s0 := cs.slots;
    var node := cs.slots[op.node].cap;
    var error;
    error, l' := DecodeRetype(cs, l, op.src, op.request, node, op.offset);
    forall b | b in cs.slots
      ensures ReplyFrom(s0, cs.slots, b)
    {
      if error.None? { RetypedReply(s0, cs.slots, op.src, cs.slots[op.src].cap, node.ptr, op.offset, op.request, b); }
    }
    LiveSame(s0);
    if error.None? {
      RetypedLive(s0, cs.slots, op.src, cs.slots[op.src].cap, node.ptr, op.offset, op.request);
      forall a
        ensures TcbSlotKept(s0, cs.slots, l, a)
      {
        RetypedTcb(s0, cs.slots, l, op.src, cs.slots[op.src].cap, node, op.offset, op.request, a);
      }
    }
  }

  /** The capabilities that stand for CNodes and TCBs are not touched by a retype. */
  lemma RetypedLive(s0: Slots, s: Slots, src: nat, u: Cap, node: nat, offset: nat, r: Request)
    requires src in s0 && s0[src].cap.UntypedCap? && DestEmpty(s0, node, offset, r.count)
    requires exists base :: Populated(s0, s, src, u, node, offset, base, r, r.count)
    ensures LiveKept(s0, s)
  {
    var base :| Populated(s0, s, src, u, node, offset, base, r, r.count);
    forall c | Live(s0, c)
      ensures Live(s, c)
    {
      var h :| h in s0 && Houses(s0, c, h) && !s0[h].cap.ZombieCap?;
      assert forall k {:trigger DestSlot(node, offset, k)} :: 0 <= k < r.count ==> h != DestSlot(node, offset, k);
      assert h in s && s[h].cap == s0[h].cap;
      assert Houses(s, c, h);
    }
  }

  lemma RetypedTcb(s0: Slots, s: Slots, l: Layout, src: nat, u: Cap, node: Cap, offset: nat, r: Request, a: nat)
    requires CapsOk(s0, l) && Reachable(s0, l, src) && node.CNodeCap? && NamedNode(s0, node)
    requires offset < Pow2(node.radix) && r.count <= Pow2(node.radix) - offset
    requires exists base :: Populated(s0, s, src, u, node.ptr, offset, base, r, r.count)
    ensures TcbSlotKept(s0, s, l, a)
  {
    var base :| Populated(s0, s, src, u, node.ptr, offset, base, r, r.count);
    var b :| b in s0 && s0[b].cap == node;
    assert CapOk(s0, l, b) && OwnsSlots(s0, l, ContainerOf(node));
    forall k {:trigger DestSlot(node.ptr, offset, k)} | 0 <= k < r.count
      ensures DestSlot(node.ptr, offset, k) in l.owner && l.owner[DestSlot(node.ptr, offset, k)].kind.ZombieCNode?
    {
      assert DestSlot(node.ptr, offset, k) == SlotAddr(node.ptr, offset + k);
    }
  }

  lemma RetypedReply(s0: Slots, s: Slots, src: nat, u: Cap, node: nat, offset: nat, r: Request, b: nat)
    requires b in s && exists base :: Populated(s0, s, src, u, node, offset, base, r, r.count)
    requires u.UntypedCap?
    ensures ReplyFrom(s0, s, b)
  {
    var base :| Populated(s0, s, src, u, node, offset, base, r, r.count);
    if b in s0 && b != src && NotDest(node, offset, r.count, b) { assert s[b].cap == s0[b].cap; }
  }

  /** set_transfer_caps into an empty receive slot. */
  method DoTransfer(cs: CSpace, l: Layout, op: SpaceOp)
    requires Inv(cs, l) && op.Transfer? && May(cs.slots, l, op)
    modifies cs
    ensures Inv(cs, l) && Peaceful(old(cs.slots), cs.slots, l)
  {
    ghost var s0, o0 := cs.slots, cs.order;
    var _, _, _ := CapTransfer.SetTransferCaps(cs, l, op.endpoint, op.extra, true, op.receiveSlot);
    LiveSame(s0);
    if CapTransfer.Inserts(s0, op.endpoint, op.extra, true, op.receiveSlot) {
      TransferPeaceful(s0, o0, cs.slots, cs.order, l, op.extra[CapTransfer.FirstOther(s0, op.endpoint, op.extra, 0)],
        op.receiveSlot.value);
    } else {
      assert forall b :: b in s0 ==> ReplyFrom(s0, s0, b);
    }
  }

  lemma TransferPeaceful(s0: Slots, o0: seq<nat>, s: Slots, o: seq<nat>, l: Layout, a: nat, dest: nat)
    requires Reachable(s0, l, a) && Reachable(s0, l, dest) && s0[dest].cap == NullCap
    requires CapTransfer.Transferred(s0, o0, s, o, a, dest)
    ensures Peaceful(s0, s, l)
  {
    forall b | b in s
      ensures ReplyFrom(s0, s, b)
    {
      if b != dest && b != a { assert s[b].cap == s0[b].cap; }
    }
    forall c | Live(s0, c)
      ensures Live(s, c)
    {
      var h :| h in s0 && Houses(s0, c, h) && !s0[h].cap.ZombieCap?;
      assert h in s && s[h].cap == s0[h].cap && Houses(s, c, h);
    }
  }

  /** What one operation does to the capability space. */
  ghost predicate SpaceStep(d: Db, l: Layout, op: SpaceOp, d': Db, l': Layout) {
    && DbOk(d', l')
    && match op
       case Delete(a) =>
         && l' == l && Wanes(d.slots, d'.slots) && a in d.slots && d'.slots[a] == EMPTY
         && Taken(d.slots, d'.slots, l, Names(d.slots[a].cap), {a}, {}, true)
       case Revoke(a) =>
         l' == l && Wanes(d.slots, d'.slots) && KinTaken(d.slots, d'.slots, l, a, true) && Childless(d', a)
       case _ => Peaceful(d.slots, d'.slots, l)
  }

  /** One operation. Only a deletion can stop, and only next to the first slot of a zombie. */
  method Perform(cs: CSpace, l: Layout, blocked: set<nat>, op: SpaceOp) returns (l': Layout, status: Status)
    requires Inv(cs, l) && RepliesBlocked(cs.slots, blocked) && May(cs.slots, l, op)
    modifies cs
    ensures Inv(cs, l') && RepliesBlocked(cs.slots, blocked)
    ensures status.AdjacentSwap? ==> (op.Delete? || op.Revoke?) && AtSwap(cs.slots)
    ensures (op.Delete? || op.Revoke?) && Clear(old(View(cs)), l, AllOf(old(cs.slots), l)) ==> status.Done?
    ensures status.Done? ==> SpaceStep(old(View(cs)), l, op, View(cs), l')
  {
    l', status := l, Done;
    ghost var s0 := cs.slots;
    ghost var z := AllOf(cs.slots, l);
    match op {
      case Copy(_, _, _, _) => DoCopy(cs, l, op); NoNewShrink(s0, cs.slots, blocked);
      case Move(_, _, _) => DoMove(cs, l, op); NoNewShrink(s0, cs.slots, blocked);
      case Rotate(_, _, _, _, _) => DoRotate(cs, l, op); NoNewShrink(s0, cs.slots, blocked);
      case Retype(_, _, _, _) => l' := DoRetype(cs, l, op); NoNewShrink(s0, cs.slots, blocked);
      case Transfer(_, _, _) => DoTransfer(cs, l, op); NoNewShrink(s0, cs.slots, blocked);
      case Delete(a) =>
        OrdinaryFree(cs.slots, l, a);
        WholeCovers(cs.slots, l, z, a);
        status := DeleteAll(cs, l, blocked, a, true, z);
        BlockedKept(s0, cs.slots, blocked);
      case Revoke(a) =>
        status := RevokeSlot(cs, l, blocked, a, z);
        BlockedKept(s0, cs.slots, blocked);
    }
  }

  /** A whole run: operations that their decoder refuses change nothing. The invariant holds after every run,
      whatever the order; a run ends early only at the swap of a zombie with a neighbour. */
  method RunSpace(cs: CSpace, l: Layout, blocked: set<nat>, ops: seq<SpaceOp>) returns (l': Layout, status: Status)
    requires Inv(cs, l) && RepliesBlocked(cs.slots, blocked)
    modifies cs
    ensures Inv(cs, l') && RepliesBlocked(cs.slots, blocked)
    ensures status.AdjacentSwap? ==> AtSwap(cs.slots)
  {
    l', status := l, Done;
    for i := 0 to |ops|
      invariant Inv(cs, l') && RepliesBlocked(cs.slots, blocked) && status.Done?
    {
      if May(cs.slots, l', ops[i]) {
        l', status := Perform(cs, l', blocked, ops[i]);
        if status.AdjacentSwap? { return; }
      }
    }
  }
}
