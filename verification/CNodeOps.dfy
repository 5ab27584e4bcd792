/** CNode invocations that rearrange capabilities (kernel/src/syscall/invocation/invoke_cnode.rs). Each keeps the
    invariant of the mapping database, so that finality tests and deletion stay correct over every sequence of them.
    */
module CNodeOps {
  import opened Config
  import opened Caps
  import opened MdbNodes
  import opened Memory
  import opened Descent
  import opened Mdb
  import opened ReplyMdb
  import opened Containers
  import opened DeletionSteps

  /** A slot that user invocations may fill: it belongs to a live object and is no reply-master slot. */
  predicate UserSlot(slots: Slots, l: Layout, a: nat) {
    a in slots && a in l.owner && a !in l.replySlots && Live(slots, l.owner[a])
  }

  /** The node of a slot in use. */
  lemma SlotNode(slots: Slots, order: seq<nat>, ns: seq<Node>, a: nat)
    requires Rep(slots, order, ns) && MemOk(ns) && a in slots && slots[a].cap != NullCap
    ensures a in order && ns[Index(order, a)].cap == slots[a].cap
    ensures slots[a].cap.UntypedCap? ==> slots[a].cap.blockSize >= MIN_UNTYPED_BITS
    ensures HasChild(slots, a) <==> HasChildAt(ns, Index(order, a))
  {
    LinksAreInverse(slots, order, ns, a);
    var i := Index(order, a);
    assert At(slots, order, ns, i);
    if i + 1 < |order| { assert At(slots, order, ns, i + 1); }
    if IsPhysical(slots[a].cap) { assert RangeOk(ns[i].cap); }
  }

  /** No zombie has counted off the slot. */
  ghost predicate Uncounted(slots: Slots, a: nat) {
    forall b {:trigger CountedBy(slots, b, a)} :: !CountedBy(slots, b, a)
  }

  ghost predicate CountedBy(slots: Slots, b: nat, a: nat) {
    && b in slots && slots[b].cap.ZombieCap?
    && exists k {:trigger SlotAddr(slots[b].cap.ptr, k)} ::
         slots[b].cap.number <= k < SlotCount(slots[b].cap.kind) && a == SlotAddr(slots[b].cap.ptr, k)
  }

  /** A slot may be filled if its object is alive and no zombie has counted it off. */
  lemma FillOk(slots: Slots, l: Layout, a: nat)
    requires CapsOk(slots, l) && a in slots && a in l.owner && (slots[a].cap != NullCap || Live(slots, l.owner[a]))
    ensures Uncounted(slots, a) && Alive(slots, l.owner[a])
  {
    assert CapOk(slots, l, a);
    forall b
      ensures !CountedBy(slots, b, a)
    {
      if CountedBy(slots, b, a) { CountedIsDead(slots, l, b, a); }
    }
  }

  /** A slot that a zombie has counted off is empty and its object has no other capability. */
  lemma CountedIsDead(slots: Slots, l: Layout, b: nat, a: nat)
    requires CapsOk(slots, l) && CountedBy(slots, b, a)
    ensures a in slots && slots[a].cap == NullCap && a in l.owner && !Live(slots, l.owner[a])
  {
    assert CapOk(slots, l, b);
    var k :| slots[b].cap.number <= k < SlotCount(slots[b].cap.kind) && a == SlotAddr(slots[b].cap.ptr, k);
    assert l.owner[a] == ContainerOf(slots[b].cap);
    forall h | Houses(slots, l.owner[a], h)
      ensures slots[h].cap.ZombieCap?
    {
      assert Alone(slots, b, h);
    }
  }

  // ---- copying ----

  /** Slot dest holds c, slot src at most has its untyped memory marked full, all others hold what they held. */
  predicate Copied(slots: Slots, slots': Slots, src: nat, dest: nat, c: Cap) {
    && src in slots && dest in slots && src != dest && slots'.Keys == slots.Keys && slots'[dest].cap == c
    && (slots'[src].cap == slots[src].cap
        || (slots[src].cap.UntypedCap? && slots'[src].cap.UntypedCap? && slots'[src].cap.ptr == slots[src].cap.ptr
            && slots'[src].cap.blockSize == slots[src].cap.blockSize))
    && forall b :: b in slots && b != src && b != dest ==> slots'[b].cap == slots[b].cap
  }

  lemma CopyKeepsCapOk(slots: Slots, l: Layout, slots': Slots, src: nat, dest: nat, c: Cap, b: nat)
    requires CapsOk(slots, l) && Copied(slots, slots', src, dest, c) && UserSlot(slots, l, dest)
    requires slots[dest].cap == NullCap
    requires DerivedFrom(c, slots[src].cap) && b in slots'
    ensures CapOk(slots', l, b)
  {
    FillOk(slots, l, dest);
    assert CapOk(slots, l, b) && CapOk(slots, l, src);
    var e := slots'[b].cap;
    if e != NullCap && b in l.owner {
      var h :| Houses(slots, l.owner[b], h);
      assert Houses(slots', l.owner[b], h);
    }
    if e.ZombieCap? {
      assert !CountedBy(slots, b, dest);
      CopyKeepsZombie(slots, slots', src, dest, c, b);
    }
    if b == dest && IsContainerCap(c) { assert ContainerOf(c) == ContainerOf(slots[src].cap); }
  }

  lemma CopyKeepsZombie(slots: Slots, slots': Slots, src: nat, dest: nat, c: Cap, b: nat)
    requires Copied(slots, slots', src, dest, c) && slots[dest].cap == NullCap && !c.ReplyCap? && b != dest
    requires b in slots && slots[b].cap.ZombieCap? && ZombieOk(slots, slots[b].cap) && !CountedBy(slots, b, dest)
    ensures ZombieOk(slots', slots[b].cap)
  {
    if slots[b].cap.kind == ZombieTcb { CopyReplies(slots, slots', src, dest, c, slots[b].cap.ptr + TCB_OFFSET); }
  }

  lemma CopyReplies(slots: Slots, slots': Slots, src: nat, dest: nat, c: Cap, t: nat)
    requires Copied(slots, slots', src, dest, c) && !c.ReplyCap? && NoReplies(slots, t)
    ensures NoReplies(slots', t)
  {
    forall b | b in slots'
      ensures !IsReply(slots'[b].cap, t)
    {
      assert !IsReply(slots[b].cap, t);
    }
  }

  lemma CopyKeepsCapsOk(slots: Slots, l: Layout, slots': Slots, src: nat, dest: nat, c: Cap)
    requires CapsOk(slots, l) && Copied(slots, slots', src, dest, c) && UserSlot(slots, l, dest)
    requires slots[dest].cap == NullCap
    requires DerivedFrom(c, slots[src].cap)
    ensures CapsOk(slots', l)
  {
    forall b | b in slots'
      ensures CapOk(slots', l, b)
    {
      CopyKeepsCapOk(slots, l, slots', src, dest, c, b);
    }
    forall b | b in l.replySlots
      ensures ReplySlotOk(slots', l, b)
    {
      assert ReplySlotOk(slots, l, b);
    }
    forall b | b in slots' || b in l.owner
      ensures OwnerOk(slots', l, b)
    {
      assert OwnerOk(slots, l, b);
      if b !in l.owner {
        forall e
          ensures !Surrounds(slots', e, b)
        {
          CopySurrounds(slots, slots', src, dest, c, e, b);
        }
      }
    }
    forall b, e
      ensures Alone(slots', b, e)
    {
      assert Alone(slots, b, e) && Alone(slots, b, src);
      CopyAlone(slots, slots', src, dest, c, b, e);
    }
  }

  lemma CopySurrounds(slots: Slots, slots': Slots, src: nat, dest: nat, c: Cap, e: nat, b: nat)
    requires Copied(slots, slots', src, dest, c) && DerivedFrom(c, slots[src].cap) && !Surrounds(slots, e, b)
    requires !Surrounds(slots, src, b)
    ensures !Surrounds(slots', e, b)
  {}

  lemma CopyAlone(slots: Slots, slots': Slots, src: nat, dest: nat, c: Cap, b: nat, e: nat)
    requires Copied(slots, slots', src, dest, c) && slots[dest].cap == NullCap && DerivedFrom(c, slots[src].cap)
    requires Alone(slots, b, e) && Alone(slots, b, src)
    ensures Alone(slots', b, e)
  {
    if e == dest && IsContainerCap(c) && b in slots && b != e { assert ContainerOf(c) == ContainerOf(slots[src].cap); }
  }

  lemma CopyKeepsPairs(ns: seq<Node>, p: nat, c: Cap)
    requires ReplyPairs(ns) && p < |ns| && DerivedFrom(c, ns[p].cap)
    requires (ns[p].cap.UntypedCap? ==> ns[p].cap.blockSize >= MIN_UNTYPED_BITS)
    ensures ReplyPairs(CopyNodes(ns, p, c))
  {
    var full := UntypedAsFull(ns[p].cap, c);
    var revocable := IsCapRevocable(c, ns[p].cap);
    RecapKeepsPairs(ns, p, full);
    InsertOtherKeepsPairs(ns[p := ns[p].(cap := full)], p, Node(c, revocable, revocable, false));
  }

  /** invoke_cnode_copy (mint = None) and invoke_cnode_mint; true is success. */
  method CopyOrMint(cs: CSpace, l: Layout, src: nat, dest: nat, rights: Rights, mint: Option<nat>) returns (ok: bool)
    requires Inv(cs, l)
    requires src in cs.slots && UserSlot(cs.slots, l, dest)
    requires cs.slots[src].cap != NullCap && cs.slots[dest].cap == NullCap
    modifies cs
    ensures Inv(cs, l) && cs.slots.Keys == old(cs.slots).Keys && LiveKept(old(cs.slots), cs.slots)
    ensures !ok ==> cs.slots == old(cs.slots) && cs.order == old(cs.order)
    ensures src in old(cs.order)
    ensures ok <==> old(MayDerive(cs.slots[src].cap, mint, IsBare(cs.nodes, Index(cs.order, src))))
    ensures ok ==>
      && DerivedFrom(cs.slots[dest].cap, old(cs.slots[src].cap))
      && GreatestWithin(cs.slots[dest].cap, old(cs.slots[src].cap), rights)
      && Labelled(cs.slots[dest].cap, old(cs.slots[src].cap), mint)
    ensures ok ==> cs.order == InsertAt(old(cs.order), Index(old(cs.order), src) + 1, dest)
    ensures ok ==> CopyListed(View(cs), src, dest) && cs.slots[src].revocable == old(cs.slots[src].revocable)
    ensures ok && old(cs.slots[src].cap.UntypedCap?) ==>
      && cs.slots[src].cap.UntypedCap?
      && cs.slots[src].cap.blockSize >= MIN_UNTYPED_BITS
      && cs.slots[src].cap.freeIndex == MaxFreeIndex(cs.slots[src].cap.blockSize)
    ensures ok && !old(cs.slots[src].cap.UntypedCap?) ==> cs.slots[src].cap == old(cs.slots[src].cap)
    ensures ok ==> forall b :: b in cs.slots && b != src && b != dest ==> cs.slots[b].cap == old(cs.slots)[b].cap
  {
    var srcCap := cs.slots[src].cap;
    var masked := MaskCapRights(rights, srcCap);
    var data := if mint.Some? then UpdateData(masked, false, mint.value) else masked;
    var noChildren := cs.EnsureNoChildren(src);
    SlotNode(cs.slots, cs.order, cs.nodes, src);
    var derived := DeriveCap(data, noChildren);
    CopyAndMintDerive(srcCap, rights, mint, noChildren);
    if derived.None? || derived.value == NullCap {
      return false;
    }
    InsertDerived(cs, l, src, dest, derived.value);
    ok := true;
  }

  /** The cte_insert of a derived capability. */
  method InsertDerived(cs: CSpace, l: Layout, src: nat, dest: nat, c: Cap)
    requires Inv(cs, l)
    requires src in cs.slots && UserSlot(cs.slots, l, dest)
    requires cs.slots[src].cap != NullCap && cs.slots[dest].cap == NullCap
    requires DerivedFrom(c, cs.slots[src].cap) && !c.IrqControlCap?
    requires c.UntypedCap? ==> !HasChild(cs.slots, src) && c.blockSize >= MIN_UNTYPED_BITS
    modifies cs
    ensures Inv(cs, l) && cs.slots.Keys == old(cs.slots).Keys && LiveKept(old(cs.slots), cs.slots)
    ensures src in old(cs.order) && cs.order == InsertAt(old(cs.order), Index(old(cs.order), src) + 1, dest)
    ensures cs.slots[dest].cap == c && CopyListed(View(cs), src, dest)
    ensures cs.slots[src].revocable == old(cs.slots[src].revocable)
    ensures cs.slots[src].cap ==
      if old(cs.slots[src].cap.UntypedCap?)
      then UntypedCap(c.ptr, c.blockSize, MaxFreeIndex(c.blockSize), c.isDevice) else old(cs.slots[src].cap)
    ensures forall b :: b in cs.slots && b != src && b != dest ==> cs.slots[b].cap == old(cs.slots)[b].cap
  {
    ghost var s0, o0, ns0 := cs.slots, cs.order, cs.nodes;
    SlotNode(s0, o0, ns0, src);
    ghost var full := UntypedAsFull(s0[src].cap, c);
    CopyKeepsNodesOk(ns0, Index(o0, src), c);
    CopyKeepsPairs(ns0, Index(o0, src), c);
    cs.CteInsert(c, src, dest);
    CopyKeepsCapsOk(s0, l, cs.slots, src, dest, c);
    CopyKeepsLive(s0, cs.slots, src, dest, c);
    CopyIsListed(Db(s0, o0, ns0), View(cs), src, dest, c);
  }

  /** A copy descends from its source, if that is revocable and no frame, and nothing descends from the copy yet. */
  ghost predicate CopyListed(d: Db, src: nat, dest: nat) {
    && src in d.slots && src in d.order && dest in d.order
    && (d.slots[src].revocable && !d.slots[src].cap.FrameCap? ==>
          Descends(d.nodes, Index(d.order, src), Index(d.order, dest)))
    && IsBare(d.nodes, Index(d.order, dest))
  }

  lemma CopyIsListed(d: Db, d': Db, src: nat, dest: nat, c: Cap)
    requires Rep(d.slots, d.order, d.nodes) && NodesOk(d.nodes) && src in d.slots && src in d.order
    requires DerivedFrom(c, d.slots[src].cap) && !c.IrqControlCap?
    requires c.UntypedCap? ==> c.blockSize >= MIN_UNTYPED_BITS && !HasChild(d.slots, src)
    requires Rep(d'.slots, d'.order, d'.nodes) && d'.order == InsertAt(d.order, Index(d.order, src) + 1, dest)
    requires Index(d.order, src) < |d.nodes| && d.nodes[Index(d.order, src)].cap == d.slots[src].cap
    requires d'.nodes == CopyNodes(d.nodes, Index(d.order, src), c)
    ensures CopyListed(d', src, dest) && d'.slots[src].revocable == d.slots[src].revocable
  {
    var p := Index(d.order, src);
    assert At(d.slots, d.order, d.nodes, p);
    ChildMeansDescendant(d.slots, d.order, d.nodes, src);
    NextTells(d.nodes, p);
    CopyDescends(d.nodes, p, c);
    assert At(d'.slots, d'.order, d'.nodes, p) && At(d'.slots, d'.order, d'.nodes, p + 1);
  }

  /** What was live stays live. */
  ghost predicate LiveKept(slots: Slots, slots': Slots) {
    forall c {:trigger Live(slots', c)} :: Live(slots, c) ==> Live(slots', c)
  }

  lemma CopyKeepsLive(slots: Slots, slots': Slots, src: nat, dest: nat, c: Cap)
    requires Copied(slots, slots', src, dest, c) && slots[dest].cap == NullCap
    ensures LiveKept(slots, slots')
  {
    forall k | Live(slots, k)
      ensures Live(slots', k)
    {
      var h :| h in slots && Houses(slots, k, h) && !slots[h].cap.ZombieCap?;
      assert h in slots' && slots'[h].cap == slots[h].cap;
      assert Houses(slots', k, h);
    }
  }

  // ---- moving and exchanging ----

  /** The same capability, up to the guard of a CNode. */
  predicate Reguarded(c: Cap, d: Cap) {
    d == c || (c.CNodeCap? && d.CNodeCap? && ObjectOf(c) == ObjectOf(d))
  }

  /** The capabilities of s1 and s2, with new guards, have changed places; one of them may be null. */
  predicate Exchanged(slots: Slots, slots': Slots, s1: nat, s2: nat) {
    && s1 in slots && s2 in slots && s1 != s2 && slots'.Keys == slots.Keys
    && Reguarded(slots[s1].cap, slots'[s2].cap) && Reguarded(slots[s2].cap, slots'[s1].cap)
    && forall b :: b in slots && b != s1 && b != s2 ==> slots'[b].cap == slots[b].cap
  }

  /** A slot whose capability may be taken to another. */
  predicate Movable(l: Layout, a: nat) {
    a in l.owner && a !in l.replySlots
  }

  lemma ExchangeAlive(slots: Slots, slots': Slots, s1: nat, s2: nat, c: Container)
    requires Exchanged(slots, slots', s1, s2)
    ensures Alive(slots, c) ==> Alive(slots', c)
    ensures Live(slots, c) ==> Live(slots', c)
  {
    if h :| Houses(slots, c, h) { assert Houses(slots', c, Rename(s1, s2, h)); }
    if h :| Houses(slots, c, h) && !slots[h].cap.ZombieCap? { assert Houses(slots', c, Rename(s1, s2, h)); }
  }

  lemma ExchangeKeepsLive(slots: Slots, slots': Slots, s1: nat, s2: nat)
    requires Exchanged(slots, slots', s1, s2)
    ensures LiveKept(slots, slots')
  {
    forall c | Live(slots, c)
      ensures Live(slots', c)
    {
      ExchangeAlive(slots, slots', s1, s2, c);
    }
  }

  lemma ExchangeKeepsZombie(slots: Slots, slots': Slots, s1: nat, s2: nat, b: nat)
    requires Exchanged(slots, slots', s1, s2) && b in slots && slots[b].cap.ZombieCap? && ZombieOk(slots, slots[b].cap)
    requires !CountedBy(slots, b, s1) && !CountedBy(slots, b, s2)
    ensures ZombieOk(slots', slots[b].cap)
  {
    var z := slots[b].cap;
    if z.kind == ZombieTcb {
      forall x | x in slots'
        ensures !IsReply(slots'[x].cap, z.ptr + TCB_OFFSET)
      {
        assert !IsReply(slots[Rename(s1, s2, x)].cap, z.ptr + TCB_OFFSET);
      }
    }
  }

  lemma ExchangeKeepsCapOk(slots: Slots, l: Layout, slots': Slots, s1: nat, s2: nat, b: nat)
    requires CapsOk(slots, l) && Exchanged(slots, slots', s1, s2) && Movable(l, s1) && Movable(l, s2)
    requires slots[s1].cap != NullCap || Live(slots, l.owner[s1])
    requires slots[s2].cap != NullCap || Live(slots, l.owner[s2])
    requires b in slots'
    ensures CapOk(slots', l, b)
  {
    FillOk(slots, l, s1);
    FillOk(slots, l, s2);
    var o := Rename(s1, s2, b);
    assert CapOk(slots, l, b) && CapOk(slots, l, o);
    var c := slots'[b].cap;
    assert Reguarded(slots[o].cap, c);
    if c != NullCap && b in l.owner { ExchangeAlive(slots, slots', s1, s2, l.owner[b]); }
    if c.ZombieCap? {
      assert !CountedBy(slots, o, s1) && !CountedBy(slots, o, s2);
      ExchangeKeepsZombie(slots, slots', s1, s2, o);
    }
  }

  lemma ExchangeKeepsCapsOk(slots: Slots, l: Layout, slots': Slots, s1: nat, s2: nat)
    requires CapsOk(slots, l) && Exchanged(slots, slots', s1, s2) && Movable(l, s1) && Movable(l, s2)
    requires slots[s1].cap != NullCap || Live(slots, l.owner[s1])
    requires slots[s2].cap != NullCap || Live(slots, l.owner[s2])
    ensures CapsOk(slots', l)
  {
    forall b | b in slots'
      ensures CapOk(slots', l, b)
    {
      ExchangeKeepsCapOk(slots, l, slots', s1, s2, b);
    }
    forall b | b in l.replySlots
      ensures ReplySlotOk(slots', l, b)
    {
      assert ReplySlotOk(slots, l, b);
    }
    forall b | b in slots' || b in l.owner
      ensures OwnerOk(slots', l, b)
    {
      assert OwnerOk(slots, l, b);
      if b !in l.owner {
        forall e
          ensures !Surrounds(slots', e, b)
        {
          assert !Surrounds(slots, Rename(s1, s2, e), b);
        }
      }
    }
    forall b, e
      ensures Alone(slots', b, e)
    {
      ExchangeAlone(slots, l, slots', s1, s2, b, e);
    }
  }

  lemma ExchangeAlone(slots: Slots, l: Layout, slots': Slots, s1: nat, s2: nat, b: nat, e: nat)
    requires CapsOk(slots, l) && Exchanged(slots, slots', s1, s2)
    ensures Alone(slots', b, e)
  {
    var b0, e0 := Rename(s1, s2, b), Rename(s1, s2, e);
    assert Alone(slots, b0, e0);
    if b in slots && e in slots {
      ReguardedContainer(slots[b0].cap, slots'[b].cap);
      ReguardedContainer(slots[e0].cap, slots'[e].cap);
    }
  }

  lemma ReguardedContainer(c: Cap, d: Cap)
    requires Reguarded(c, d)
    ensures IsContainerCap(c) == IsContainerCap(d) && c.ZombieCap? == d.ZombieCap?
    ensures IsContainerCap(c) ==> ContainerOf(c) == ContainerOf(d)
  {}

  lemma ReguardKeepsNode(ns: seq<Node>, i: nat, c: Cap)
    requires NodesOk(ns) && ReplyPairs(ns) && i < |ns| && Reguarded(ns[i].cap, c)
    ensures NodesOk(ns[i := ns[i].(cap := c)]) && ReplyPairs(ns[i := ns[i].(cap := c)])
  {
    if c == ns[i].cap {
      assert ns[i := ns[i].(cap := c)] == ns;
    } else {
      RewriteKeepsNodesOk(ns, i, c);
      RecapKeepsPairs(ns, i, c);
    }
  }

  /** What a capability becomes when it is moved: itself, or itself with new data. */
  function Rewritten(c: Cap, data: Option<nat>): (r: Cap) {
    if data.Some? then UpdateData(c, true, data.value) else c
  }

  /** invoke_cnode_move (data = None) and invoke_cnode_mutate: dest takes the place of src. */
  method MoveOrMutate(cs: CSpace, l: Layout, src: nat, dest: nat, data: Option<nat>) returns (ok: bool)
    requires Inv(cs, l) && src in cs.slots && UserSlot(cs.slots, l, dest) && Movable(l, src)
    requires cs.slots[dest].cap == NullCap
    modifies cs
    ensures Inv(cs, l) && cs.slots.Keys == old(cs.slots).Keys && LiveKept(old(cs.slots), cs.slots)
    ensures ok <==>
      old(cs.slots[src].cap != NullCap && (data.Some? ==> MayMutate(cs.slots[src].cap, data.value)))
    ensures !ok ==> cs.slots == old(cs.slots) && cs.order == old(cs.order)
    ensures ok ==>
      && src in old(cs.order) && cs.order == old(cs.order)[Index(old(cs.order), src) := dest]
      && cs.slots[src] == EMPTY
      && (if data.Some? then Mutated(old(cs.slots[src].cap), cs.slots[dest].cap, data.value)
          else cs.slots[dest].cap == old(cs.slots[src].cap))
      && forall b :: b in cs.slots && b != src && b != dest ==> cs.slots[b].cap == old(cs.slots)[b].cap
  {
    var srcCap := cs.slots[src].cap;
    if srcCap == NullCap {
      return false;
    }
    var newCap := Rewritten(srcCap, data);
    if data.Some? { MutateKeepsObject(srcCap, data.value); }
    if newCap == NullCap {
      return false;
    }
    MoveCap(cs, l, src, dest, newCap);
    ok := true;
  }

  /** The cte_move of a capability, with a new guard if it is a CNode's. */
  method MoveCap(cs: CSpace, l: Layout, src: nat, dest: nat, c: Cap)
    requires Inv(cs, l) && src in cs.slots && UserSlot(cs.slots, l, dest) && Movable(l, src)
    requires cs.slots[src].cap != NullCap && cs.slots[dest].cap == NullCap && Reguarded(cs.slots[src].cap, c)
    modifies cs
    ensures Inv(cs, l) && cs.slots.Keys == old(cs.slots).Keys && LiveKept(old(cs.slots), cs.slots)
    ensures src in old(cs.order) && cs.order == old(cs.order)[Index(old(cs.order), src) := dest]
    ensures cs.slots[src] == EMPTY && cs.slots[dest].cap == c
    ensures forall b :: b in cs.slots && b != src && b != dest ==> cs.slots[b].cap == old(cs.slots)[b].cap
  {
    ghost var s0, o0, ns0 := cs.slots, cs.order, cs.nodes;
    LinksAreInverse(s0, o0, ns0, src);
    assert At(s0, o0, ns0, Index(o0, src));
    ReguardKeepsNode(ns0, Index(o0, src), c);
    cs.CteMove(c, src, dest);
    ExchangeKeepsCapsOk(s0, l, cs.slots, src, dest);
    ExchangeKeepsLive(s0, cs.slots, src, dest);
  }

  /** decode_cnode_rotate's checks on the three slots. */
  predicate RotateOk(slots: Slots, l: Layout, src: nat, pivot: nat, dest: nat) {
    && UserSlot(slots, l, src) && UserSlot(slots, l, pivot) && UserSlot(slots, l, dest)
    && pivot != src && pivot != dest
    && (src != dest ==> slots[dest].cap == NullCap)
    && slots[src].cap != NullCap && slots[pivot].cap != NullCap
  }

  lemma ExchangeKeepsNodesOk(slots: Slots, order: seq<nat>, ns: seq<Node>, s1: nat, c1: Cap, s2: nat, c2: Cap)
    requires Rep(slots, order, ns) && NodesOk(ns) && ReplyPairs(ns) && s1 in order && s2 in order && s1 != s2
    requires s1 in slots && s2 in slots && Reguarded(slots[s1].cap, c1) && Reguarded(slots[s2].cap, c2)
    ensures NodesOk(RecapTwo(order, ns, s1, c1, s2, c2)) && ReplyPairs(RecapTwo(order, ns, s1, c1, s2, c2))
  {
    var i, j := Index(order, s1), Index(order, s2);
    assert At(slots, order, ns, i) && At(slots, order, ns, j);
    ReguardKeepsNode(ns, i, c1);
    ReguardKeepsNode(ns[i := ns[i].(cap := c1)], j, c2);
    RecapTwoIsTwoUpdates(slots, order, ns, s1, c1, s2, c2);
  }

  lemma RecapTwoIsTwoUpdates(slots: Slots, order: seq<nat>, ns: seq<Node>, s1: nat, c1: Cap, s2: nat, c2: Cap)
    requires Rep(slots, order, ns) && s1 in order && s2 in order && s1 != s2
    ensures
      var i, j := Index(order, s1), Index(order, s2);
      i != j && RecapTwo(order, ns, s1, c1, s2, c2) == ns[i := ns[i].(cap := c1)][j := ns[j].(cap := c2)]
  {
    var i, j := Index(order, s1), Index(order, s2);
    var ns2 := ns[i := ns[i].(cap := c1)][j := ns[j].(cap := c2)];
    forall k | 0 <= k < |ns|
      ensures RecapTwo(order, ns, s1, c1, s2, c2)[k] == ns2[k]
    {
      assert At(slots, order, ns, k);
    }
  }

  /** The source's capability is in the pivot, the pivot's in the destination, and nothing else changed. */
  ghost predicate Rotated(slots: Slots, slots': Slots, src: nat, pivot: nat, dest: nat, newSrc: Cap, newPivot: Cap) {
    && slots'.Keys == slots.Keys && src in slots && pivot in slots && dest in slots
    && slots'[pivot].cap == newSrc && slots'[dest].cap == newPivot && (src != dest ==> slots'[src] == EMPTY)
    && forall b :: b in slots && b != src && b != pivot && b != dest ==> slots'[b].cap == slots[b].cap
  }

  /** invoke_cnode_rotate. With three slots it is two moves. With source and destination equal it
      is a swap, and then a list is left behind exactly if the two slots were not neighbours. */
  method Rotate(cs: CSpace, l: Layout, src: nat, pivot: nat, dest: nat, srcData: nat, pivotData: nat) returns (ok: bool)
    requires Inv(cs, l) && RotateOk(cs.slots, l, src, pivot, dest)
    modifies cs
    ensures ok <==> old(MayMutate(cs.slots[src].cap, srcData) && MayMutate(cs.slots[pivot].cap, pivotData))
    ensures !ok ==> cs.slots == old(cs.slots) && Inv(cs, l)
    ensures ok && (src == dest ==> !old(Neighbours(cs.slots, src, pivot))) ==>
      && cs.slots.Keys == old(cs.slots).Keys
      && Rotated(old(cs.slots), cs.slots, src, pivot, dest, cs.slots[pivot].cap, cs.slots[dest].cap)
      && Mutated(old(cs.slots[src].cap), cs.slots[pivot].cap, srcData)
      && Mutated(old(cs.slots[pivot].cap), cs.slots[dest].cap, pivotData)
    ensures ok && (src == dest ==> !old(Neighbours(cs.slots, src, pivot))) ==> LiveKept(old(cs.slots), cs.slots)
    ensures ok && src != dest ==>
      && Inv(cs, l) && src in old(cs.order) && pivot in old(cs.order)
      && cs.order == old(cs.order)[Index(old(cs.order), pivot) := dest][Index(old(cs.order), src) := pivot]
    ensures ok && src == dest ==>
      && ((exists o, n :: Rep(cs.slots, o, n)) <==> !old(Neighbours(cs.slots, src, pivot)))
      && (!old(Neighbours(cs.slots, src, pivot)) ==>
            Inv(cs, l) && cs.order == Exchange(old(cs.order), src, pivot))
  {
    var newSrc := UpdateData(cs.slots[src].cap, true, srcData);
    var newPivot := UpdateData(cs.slots[pivot].cap, true, pivotData);
    MutateKeepsObject(cs.slots[src].cap, srcData);
    MutateKeepsObject(cs.slots[pivot].cap, pivotData);
    if newSrc == NullCap || newPivot == NullCap {
      return false;
    }
    if src == dest {
      RotateSwap(cs, l, src, newSrc, pivot, newPivot);
    } else {
      RotateMoves(cs, l, src, pivot, dest, newSrc, newPivot);
    }
    ok := true;
  }

  method RotateSwap(cs: CSpace, l: Layout, s1: nat, c1: Cap, s2: nat, c2: Cap)
    requires Inv(cs, l) && s1 != s2 && s1 in cs.slots && s2 in cs.slots && Movable(l, s1) && Movable(l, s2)
    requires cs.slots[s1].cap != NullCap && cs.slots[s2].cap != NullCap
    requires Reguarded(cs.slots[s1].cap, c1) && Reguarded(cs.slots[s2].cap, c2)
    modifies cs
    ensures (exists o, n :: Rep(cs.slots, o, n)) <==> !old(Neighbours(cs.slots, s1, s2))
    ensures !old(Neighbours(cs.slots, s1, s2)) ==>
      && Inv(cs, l) && cs.order == Exchange(old(cs.order), s1, s2)
      && Rotated(old(cs.slots), cs.slots, s1, s2, s1, c1, c2)
      && LiveKept(old(cs.slots), cs.slots)
  {
    ghost var s0, o0, ns0 := cs.slots, cs.order, cs.nodes;
    LinksAreInverse(s0, o0, ns0, s1);
    LinksAreInverse(s0, o0, ns0, s2);
    ExchangeKeepsNodesOk(s0, o0, ns0, s1, c1, s2, c2);
    cs.CteSwap(c1, s1, c2, s2);
    if !Neighbours(s0, s1, s2) {
      ExchangeKeepsCapsOk(s0, l, cs.slots, s1, s2);
      ExchangeKeepsLive(s0, cs.slots, s1, s2);
    }
  }

  method RotateMoves(cs: CSpace, l: Layout, src: nat, pivot: nat, dest: nat, newSrc: Cap, newPivot: Cap)
    requires Inv(cs, l) && RotateOk(cs.slots, l, src, pivot, dest) && src != dest
    requires Reguarded(cs.slots[src].cap, newSrc) && Reguarded(cs.slots[pivot].cap, newPivot)
    modifies cs
    ensures Inv(cs, l) && src in old(cs.order) && pivot in old(cs.order)
    ensures Rotated(old(cs.slots), cs.slots, src, pivot, dest, newSrc, newPivot) && LiveKept(old(cs.slots), cs.slots)
    ensures cs.order == old(cs.order)[Index(old(cs.order), pivot) := dest][Index(old(cs.order), src) := pivot]
  {
    ghost var d := View(cs);
    PositionsKept(d, src, pivot, dest);
    MoveCap(cs, l, pivot, dest, newPivot);
    assert Live(cs.slots, l.owner[pivot]);
    SrcStays(d, View(cs), src, pivot, dest);
    ghost var mid := cs.slots;
    MoveCap(cs, l, src, pivot, newSrc);
    TwoMovesRotate(d.slots, mid, cs.slots, src, pivot, dest, newSrc, newPivot);
  }

  lemma TwoMovesRotate(s0: Slots, s1: Slots, s2: Slots, src: nat, pivot: nat, dest: nat, newSrc: Cap, newPivot: Cap)
    requires src in s0 && pivot in s0 && dest in s0 && src != pivot && pivot != dest && src != dest
    requires s1.Keys == s0.Keys && s2.Keys == s0.Keys
    requires s1[dest].cap == newPivot && s2[pivot].cap == newSrc && s2[src] == EMPTY
    requires forall b :: b in s0 && b != pivot && b != dest ==> s1[b].cap == s0[b].cap
    requires forall b :: b in s1 && b != src && b != pivot ==> s2[b].cap == s1[b].cap
    ensures Rotated(s0, s2, src, pivot, dest, newSrc, newPivot)
  {}

  lemma PositionsKept(d: Db, src: nat, pivot: nat, dest: nat)
    requires Rep(d.slots, d.order, d.nodes) && src in d.slots && pivot in d.slots && d.slots[src].cap != NullCap
    requires d.slots[pivot].cap != NullCap
    ensures src in d.order && pivot in d.order
  {
    LinksAreInverse(d.slots, d.order, d.nodes, src);
    LinksAreInverse(d.slots, d.order, d.nodes, pivot);
  }

  /** The source keeps its position while the pivot is moved away. */
  lemma SrcStays(d: Db, d': Db, src: nat, pivot: nat, dest: nat)
    requires Rep(d.slots, d.order, d.nodes) && Rep(d'.slots, d'.order, d'.nodes) && src in d.order && pivot in d.order
    requires src != pivot
    requires d'.order == d.order[Index(d.order, pivot) := dest]
    ensures src in d'.order && Index(d'.order, src) == Index(d.order, src)
  {
    var i := Index(d.order, src);
    assert d'.order[i] == src;
    assert At(d'.slots, d'.order, d'.nodes, i);
  }
}
