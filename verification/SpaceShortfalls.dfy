/** A capability space in everyday use at which operations fall short (sel4_cspace/src/cte.rs,
    sel4_ipc/src/transfer.rs): a CNode whose capability was moved to the last slot of another CNode, and whose first
    slot holds an endpoint retyped right after it from the same untyped block. The endpoint and the CNode are
    neighbours in the derivation list. */
module SpaceShortfalls {
  import opened Words
  import opened Caps
  import opened MdbNodes
  import opened Memory
  import opened Mdb
  import opened ReplyMdb
  import opened Containers
  import opened SwapSafety
  import opened Deletion
  import opened Revoke
  import opened CNodeOps
  import opened CapTransfer

  // The root CNode of four slots, and a block with an endpoint and two CNodes of two slots.
  const ROOT := 4096
  const ENDPOINT := 8192
  const OUTER := 8256
  const INNER := 8320
  const OWN_SLOT := 4160
  const BLOCK_SLOT := 4128
  const OUTER_SLOT := 4192
  const INNER_SLOT := 8288
  const ENDPOINT_SLOT := 8320

  const OWN := CNodeCap(ROOT, 2, 0, 62)
  const BLOCK := UntypedCap(ENDPOINT, 8, 12, false)
  const END_CAP := EndpointCap(ENDPOINT, 0, true, true, true, true)
  const INNER_CAP := CNodeCap(INNER, 1, 0, 0)
  const OUTER_CAP := CNodeCap(OUTER, 1, 0, 0)

  /** In the order of the lists: the root alone; then the block, the endpoint, the inner and the outer CNode. */
  const ORDER: seq<nat> := [OWN_SLOT, BLOCK_SLOT, ENDPOINT_SLOT, INNER_SLOT, OUTER_SLOT]

  const NODES: seq<Node> := [
    Node(OWN, true, true, false), Node(BLOCK, true, true, true), Node(END_CAP, true, true, true),
    Node(INNER_CAP, true, true, true), Node(OUTER_CAP, true, true, false)]

  const SLOTS: Slots := map[
    4096 := EMPTY,
    BLOCK_SLOT := Slot(BLOCK, ENDPOINT_SLOT, 0, true, true),
    OWN_SLOT := Slot(OWN, 0, 0, true, true),
    OUTER_SLOT := Slot(OUTER_CAP, 0, INNER_SLOT, true, true),
    8256 := EMPTY,
    INNER_SLOT := Slot(INNER_CAP, OUTER_SLOT, ENDPOINT_SLOT, true, true),
    ENDPOINT_SLOT := Slot(END_CAP, INNER_SLOT, BLOCK_SLOT, true, true),
    8352 := EMPTY]

  function HomeOf(a: nat): (c: Container) {
    if a < OUTER then Container(ROOT, ZombieCNode(2)) else if a < INNER then Container(OUTER, ZombieCNode(1))
      else Container(INNER, ZombieCNode(1))
  }

  const LAYOUT: Layout := Layout(map a | a in SLOTS :: HomeOf(a), {}, 0)

  const DB: Db := Db(SLOTS, ORDER, NODES)

  lemma Powers()
    ensures Pow2(1) == 2 && Pow2(2) == 4 && Pow2(4) == 16 && Pow2(6) == 64 && Pow2(7) == 128 && Pow2(8) == 256
  {
    Pow2Add(4, 2);
    Pow2Add(4, 4);
    Pow2Add(6, 1);
  }

  lemma Linked()
    ensures Rep(SLOTS, ORDER, NODES)
  {
    forall k | 0 <= k < |ORDER|
      ensures At(SLOTS, ORDER, NODES, k)
    {}
  }

  lemma Extents()
    ensures Base(OWN) == 4096 && End(OWN) == 4224 && RangeOk(OWN)
    ensures Base(BLOCK) == 8192 && End(BLOCK) == 8448 && RangeOk(BLOCK) && FreePtr(BLOCK) == 8384
    ensures Base(END_CAP) == 8192 && End(END_CAP) == 8208 && RangeOk(END_CAP)
    ensures Base(INNER_CAP) == 8320 && End(INNER_CAP) == 8384 && RangeOk(INNER_CAP)
    ensures Base(OUTER_CAP) == 8256 && End(OUTER_CAP) == 8320 && RangeOk(OUTER_CAP)
  {
    Powers();
  }

  /** Five different objects; only the block contains others. */
  lemma Contents(i: nat, j: nat)
    requires i < |NODES| && j < |NODES| && i != j
    ensures !Same(NODES, i, j) && (Contains(NODES, i, j) <==> i == 1 && j >= 2)
    ensures Apart(NODES, i, j) && RangeOk(NODES[i].cap)
    ensures i == 1 && j >= 2 ==> End(NODES[j].cap) <= FreePtr(NODES[i].cap)
  {
    Extents();
    var c, d := NODES[i].cap, NODES[j].cap;
    assert ObjectOf(c) != ObjectOf(d) || ObjectOf(c) == NoObject;
    assert i == 1 && j >= 2 ==> Inside(d, c) && c.UntypedCap?;
    assert j == 1 && i >= 2 ==> Inside(c, d) && d.UntypedCap?;
    assert i != 1 && j != 1 ==> Disjoint(c, d);
    assert i == 0 || j == 0 ==> Disjoint(c, d);
  }

  lemma OrderedMdb()
    ensures MdbOk(NODES) && ReplyPairs(NODES)
  {
    forall i, j | 0 <= i < |NODES| && 0 <= j < |NODES| && i != j
      ensures !Same(NODES, i, j)
    {
      Contents(i, j);
    }
  }

  lemma OrderedApart()
    ensures RangesOk(NODES) && Separated(NODES)
  {
    forall i | 0 <= i < |NODES|
      ensures RangeOk(NODES[i].cap)
    {
      Contents(i, if i == 0 then 1 else 0);
    }
    forall i, j | 0 <= i < |NODES| && 0 <= j < |NODES| && i != j
      ensures Apart(NODES, i, j)
    {
      Contents(i, j);
    }
  }

  lemma OrderedRuns()
    ensures RunsBehind(NODES) && EarlierIsAncestor(NODES) && BelowFree(NODES)
  {
    forall i, j | 0 <= i < j < |NODES|
      ensures RunStep(NODES, i, j) && Below(NODES, i, j) && !Contains(NODES, j, i)
    {
      Contents(i, j);
      Contents(j, i);
      if j - 1 != i { Contents(i, j - 1); }
    }
  }

  lemma Ordered()
    ensures NodesOk(NODES) && ReplyPairs(NODES)
  {
    OrderedMdb();
    OrderedApart();
    OrderedRuns();
  }

  lemma Owned(a: nat)
    requires a in SLOTS
    ensures InContainer(HomeOf(a), a)
  {
    Powers();
    var c := HomeOf(a);
    assert a == SlotAddr(c.base, 0) || a == SlotAddr(c.base, 1) || a == SlotAddr(c.base, 2) || a == SlotAddr(c.base, 3);
  }

  lemma Standing(a: nat)
    requires a in SLOTS
    ensures Alive(SLOTS, HomeOf(a))
  {
    assert Houses(SLOTS, Container(ROOT, ZombieCNode(2)), OWN_SLOT);
    assert Houses(SLOTS, Container(OUTER, ZombieCNode(1)), OUTER_SLOT);
    assert Houses(SLOTS, Container(INNER, ZombieCNode(1)), INNER_SLOT);
  }

  lemma Whole(c: Container)
    requires c == HomeOf(ROOT) || c == HomeOf(OUTER) || c == HomeOf(INNER)
    ensures OwnsSlots(SLOTS, LAYOUT, c)
  {
    Powers();
  }

  lemma SlotOk(a: nat)
    requires a in SLOTS
    ensures CapOk(SLOTS, LAYOUT, a)
  {
    Standing(a);
    Whole(HomeOf(ROOT));
    Whole(HomeOf(OUTER));
    Whole(HomeOf(INNER));
  }

  lemma OwnerFits(a: nat)
    requires a in SLOTS || a in LAYOUT.owner
    ensures OwnerOk(SLOTS, LAYOUT, a)
  {
    Owned(a);
  }

  lemma NoZombies(a: nat, b: nat)
    ensures Alone(SLOTS, a, b)
  {}

  lemma Housed(slots: Slots, l: Layout)
    requires slots == SLOTS && l == LAYOUT
    ensures CapsOk(slots, l)
  {
    forall a | a in slots
      ensures CapOk(slots, l, a)
    {
      SlotOk(a);
    }
    forall a | a in slots || a in l.owner
      ensures OwnerOk(slots, l, a)
    {
      OwnerFits(a);
    }
    forall a, b
      ensures Alone(slots, a, b)
    {
      NoZombies(a, b);
    }
  }

  /** The inner CNode's capability is its only one, and the neighbour of the CNode's first slot. */
  lemma InnerIsStuck()
    ensures Stuck(SLOTS, LAYOUT, {}, INNER_SLOT) && UniqueObject(SLOTS, OUTER_SLOT)
  {}

  lemma OuterIsStuck()
    ensures StuckInside(SLOTS, LAYOUT, {}, OUTER_SLOT)
  {
    Powers();
    InnerIsStuck();
  }

  lemma NobodyWaits(slots: Slots)
    requires slots == SLOTS
    ensures RepliesBlocked(slots, {})
  {
    forall t
      ensures NoReplies(slots, t)
    {}
  }

  /** Everything the kernel keeps holds of the layout, and yet deleting the outer CNode begins with a swap of
      neighbours. */
  lemma EverydayLayoutIsStuck(d: Db, l: Layout)
    requires d == DB && l == LAYOUT
    ensures DbOk(d, l) && RepliesBlocked(d.slots, {}) && StuckInside(d.slots, l, {}, OUTER_SLOT)
  {
    Linked();
    Ordered();
    Housed(d.slots, l);
    NobodyWaits(d.slots);
    OuterIsStuck();
  }

  /** delete_all of the outer CNode's capability stops. */
  method DeleteOuter() returns (cs: CSpace, status: Status)
    ensures status == AdjacentSwap && AtSwap(cs.slots)
  {
    EverydayLayoutIsStuck(DB, LAYOUT);
    cs := new CSpace(SLOTS, ORDER, NODES);
    ghost var z := Zone(LAYOUT.owner.Keys, SLOTS.Keys);
    WholeCovers(SLOTS, LAYOUT, z, OUTER_SLOT);
    status := DeleteAll(cs, LAYOUT, {}, OUTER_SLOT, true, z);
  }

  /** cte_swap of the two neighbours leaves links that are no list. */
  lemma SwapTearsList()
    ensures Rep(SLOTS, ORDER, NODES)
    ensures forall o, n :: !Rep(SwapWrites(SLOTS, END_CAP, ENDPOINT_SLOT, INNER_CAP, INNER_SLOT), o, n)
  {
    Linked();
    SwapIsListIff(SLOTS, ORDER, NODES, END_CAP, ENDPOINT_SLOT, INNER_CAP, INNER_SLOT);
  }

  /** The slots of the two CNodes' capabilities are neighbours too, and may be rotated. */
  lemma RotateReady(slots: Slots, l: Layout)
    requires slots == SLOTS && l == LAYOUT
    ensures RotateOk(slots, l, OUTER_SLOT, INNER_SLOT, OUTER_SLOT) && Neighbours(slots, OUTER_SLOT, INNER_SLOT)
    ensures UpdateData(slots[OUTER_SLOT].cap, true, 0) != NullCap
    ensures UpdateData(slots[INNER_SLOT].cap, true, 0) != NullCap
  {
    assert Houses(slots, HomeOf(ROOT), OWN_SLOT) && Houses(slots, HomeOf(OUTER), OUTER_SLOT);
    assert Live(slots, HomeOf(ROOT)) && Live(slots, HomeOf(OUTER));
  }

  /** A rotation that exchanges them leaves no list either. */
  method RotateNeighbours() returns (cs: CSpace, ok: bool)
    ensures ok && forall o, n :: !Rep(cs.slots, o, n)
  {
    EverydayLayoutIsStuck(DB, LAYOUT);
    RotateReady(SLOTS, LAYOUT);
    cs := new CSpace(SLOTS, ORDER, NODES);
    ok := RotateIn(cs, LAYOUT, OUTER_SLOT, INNER_SLOT);
  }

  method RotateIn(cs: CSpace, l: Layout, a: nat, b: nat) returns (ok: bool)
    requires Inv(cs, l) && RotateOk(cs.slots, l, a, b, a) && Neighbours(cs.slots, a, b)
    requires UpdateData(cs.slots[a].cap, true, 0) != NullCap && UpdateData(cs.slots[b].cap, true, 0) != NullCap
    modifies cs
    ensures ok && forall o, n :: !Rep(cs.slots, o, n)
  {
    ok := Rotate(cs, l, a, b, a, 0, 0);
  }

  /** The endpoint capability can be passed on, and the slot of the inner CNode's capability is one that a receiver may
      name. */
  lemma TransferReady(slots: Slots, l: Layout)
    requires slots == SLOTS && l == LAYOUT
    ensures UserSlot(slots, l, INNER_SLOT) && slots[INNER_SLOT].cap != NullCap && ENDPOINT_SLOT in slots
    ensures Inserts(slots, None, [ENDPOINT_SLOT], true, Some(INNER_SLOT))
  {
    assert Houses(slots, HomeOf(OUTER), OUTER_SLOT);
    assert Live(slots, HomeOf(OUTER));
  }

  /** A message that carries the endpoint capability to a receiver whose receive slot is in use fails in cte_insert. */
  method TransferToUsedSlot() returns (panics: bool)
    ensures panics
  {
    EverydayLayoutIsStuck(DB, LAYOUT);
    TransferReady(SLOTS, LAYOUT);
    var cs := new CSpace(SLOTS, ORDER, NODES);
    panics := TransferIn(cs, LAYOUT, ENDPOINT_SLOT, INNER_SLOT);
  }

  method TransferIn(cs: CSpace, l: Layout, a: nat, b: nat) returns (panics: bool)
    requires Inv(cs, l) && a in cs.slots && UserSlot(cs.slots, l, b) && cs.slots[b].cap != NullCap
    requires Inserts(cs.slots, None, [a], true, Some(b))
    modifies cs
    ensures panics
  {
    var count, badges;
    panics, count, badges := SetTransferCaps(cs, l, None, [a], true, Some(b));
  }
}
