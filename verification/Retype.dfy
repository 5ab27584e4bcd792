/** invoke_untyped_retype and the checks before it, on slots in memory
    (kernel/src/syscall/invocation/invoke_untyped.rs,
    kernel/src/syscall/invocation/decode/decode_untyped_invocation.rs). */
module Retype {
  import opened Config
  import opened Words
  import opened Caps
  import opened MdbNodes
  import opened Memory
  import opened Descent
  import opened Mdb
  import opened ReplyMdb
  import opened Containers
  import opened DeletionSteps
  import opened CNodeOps
  import opened SpaceGrowth
  import opened Untyped

  function DestSlot(node: nat, offset: nat, i: nat): (a: nat) {
    node + SLOT_SIZE * (offset + i)
  }

  ghost predicate DestEmpty(slots: Slots, node: nat, offset: nat, n: nat) {
    forall i {:trigger DestSlot(node, offset, i)} :: 0 <= i < n ==>
      DestSlot(node, offset, i) in slots && slots[DestSlot(node, offset, i)].cap == NullCap
  }

  function NewCap(base: nat, r: Request, i: nat): (c: Cap) {
    NewNode(base, r, i).cap
  }

  /** Object i, if it is made of slots. */
  predicate HasSlots(r: Request) {
    r.kind.CapTableObject? || r.kind.TcbObject?
  }

  function NewContainer(base: nat, r: Request, i: nat): (c: Container) {
    Container(ObjectBase(base, r, i), if r.kind.CapTableObject? then ZombieCNode(r.userSize) else ZombieTcb)
  }

  /** The layout after i objects. */
  function LayoutAfter(l: Layout, base: nat, r: Request, i: nat): (l': Layout) {
    if i == 0 || !HasSlots(r) then l else LayoutWith(LayoutAfter(l, base, r, i - 1), NewContainer(base, r, i - 1))
  }

  /** Slot b is none of the destination slots. */
  ghost predicate NotDest(node: nat, offset: nat, count: nat, b: nat) {
    forall k {:trigger DestSlot(node, offset, k)} :: 0 <= k < count ==> b != DestSlot(node, offset, k)
  }

  /** The first i destination slots hold the new objects in order; the source holds u; every
      other slot holds what it held in s0, and slots of new objects are empty. */
  ghost predicate Populated(s0: Slots, s: Slots, src: nat, u: Cap, node: nat, offset: nat, base: nat, r: Request,
      i: nat)
  {
    && AddedKeys(s0, s)
    && (forall k {:trigger DestSlot(node, offset, k)} :: 0 <= k < r.count ==>
          DestSlot(node, offset, k) in s0
          && s[DestSlot(node, offset, k)].cap == if k < i then NewCap(base, r, k) else NullCap)
    && src in s0 && s[src].cap == u
    && forall b :: b in s0 && b != src && NotDest(node, offset, r.count, b) ==> s[b].cap == s0[b].cap
  }

  /** The first n destination slots hold the first capabilities to the objects asked for. */
  ghost predicate AllFresh(s: Slots, node: nat, offset: nat, base: nat, r: Request, n: nat) {
    forall k {:trigger DestSlot(node, offset, k)} :: 0 <= k < n ==>
      DestSlot(node, offset, k) in s
      && IsFresh(s[DestSlot(node, offset, k)].cap, r.kind, ObjectBase(base, r, k), r.userSize, r.device)
  }

  lemma PopulatedFresh(s0: Slots, s: Slots, src: nat, u: Cap, node: nat, offset: nat, base: nat, r: Request)
    requires Populated(s0, s, src, u, node, offset, base, r, r.count)
    ensures AllFresh(s, node, offset, base, r, r.count)
  {
    forall k {:trigger DestSlot(node, offset, k)} | 0 <= k < r.count
      ensures DestSlot(node, offset, k) in s
      ensures IsFresh(s[DestSlot(node, offset, k)].cap, r.kind, ObjectBase(base, r, k), r.userSize, r.device)
    {
      CreatedIsFresh(r.kind, ObjectBase(base, r, k), r.userSize, r.device);
    }
  }

  /** The slots of the first n objects stand behind position p, the last one first. */
  ghost predicate Behind(order: seq<nat>, p: nat, node: nat, offset: nat, n: nat) {
    p + n < |order| && forall k {:trigger DestSlot(node, offset, k)} :: 0 <= k < n ==>
      order[p + n - k] == DestSlot(node, offset, k)
  }

  lemma BehindNext(order: seq<nat>, p: nat, node: nat, offset: nat, n: nat)
    requires Behind(order, p, node, offset, n)
    ensures Behind(InsertAt(order, p + 1, DestSlot(node, offset, n)), p, node, offset, n + 1)
  {
    var order' := InsertAt(order, p + 1, DestSlot(node, offset, n));
    forall k {:trigger DestSlot(node, offset, k)} | 0 <= k < n + 1
      ensures order'[p + (n + 1) - k] == DestSlot(node, offset, k)
    {
      if k < n { assert order[p + n - k] == DestSlot(node, offset, k); }
    }
  }

  /** The new capabilities are originals, and descend from the untyped that they were made from. */
  ghost predicate NewOriginals(d: Db, src: nat, node: nat, offset: nat, n: nat) {
    forall k {:trigger DestSlot(node, offset, k)} :: 0 <= k < n ==> NewOriginal(d, src, DestSlot(node, offset, k))
  }

  ghost predicate NewOriginal(d: Db, src: nat, a: nat) {
    && src in d.order && a in d.slots && a in d.order && d.slots[a].revocable && d.slots[a].firstBadged
    && Descends(d.nodes, Index(d.order, src), Index(d.order, a))
  }

  lemma {:induction false} AddedAt(ns: seq<Node>, p: nat, base: nat, r: Request, n: nat, k: nat)
    requires p < |ns| && k < n
    ensures
      var m := AddObjects(ns, p, base, r, n)[p + n - k];
      m.cap == NewCap(base, r, k) && m.revocable && m.firstBadged
    decreases n
  {
    if k < n - 1 { AddedAt(ns, p, base, r, n - 1, k); }
  }

  lemma {:induction false} AddedKeepsSource(ns: seq<Node>, p: nat, base: nat, r: Request, n: nat)
    requires p < |ns|
    ensures AddObjects(ns, p, base, r, n)[p].cap == ns[p].cap
    decreases n
  {
    if n > 0 { AddedKeepsSource(ns, p, base, r, n - 1); }
  }

  lemma MadeAreOriginals(d: Db, src: nat, ns: seq<Node>, p: nat, node: nat, offset: nat, base: nat, r: Request)
    requires Rep(d.slots, d.order, d.nodes) && NodesOk(d.nodes) && src in d.order && p == Index(d.order, src) < |ns|
    requires d.nodes == AddObjects(ns, p, base, r, r.count) && Behind(d.order, p, node, offset, r.count)
    requires ns[p].cap.UntypedCap? && TypeOk(r.kind, r.userSize) && IsAligned(base, Size(r))
    requires ns[p].cap.ptr <= base && ObjectBase(base, r, r.count) <= End(ns[p].cap)
    ensures NewOriginals(d, src, node, offset, r.count)
  {
    AddedKeepsSource(ns, p, base, r, r.count);
    forall k {:trigger DestSlot(node, offset, k)} | 0 <= k < r.count
      ensures NewOriginal(d, src, DestSlot(node, offset, k))
    {
      AddedAt(ns, p, base, r, r.count, k);
      MadeInside(ns[p].cap, base, r, k);
      MadeIsOriginal(d, src, p, p + r.count - k);
    }
  }

  lemma MadeIsOriginal(d: Db, src: nat, p: nat, j: nat)
    requires Rep(d.slots, d.order, d.nodes) && NodesOk(d.nodes) && p < j < |d.order| && d.order[p] == src
    requires d.nodes[p].cap.UntypedCap? && Contains(d.nodes, p, j) && d.nodes[j].revocable && d.nodes[j].firstBadged
    ensures NewOriginal(d, src, d.order[j])
  {
    assert At(d.slots, d.order, d.nodes, p) && At(d.slots, d.order, d.nodes, j);
  }

  lemma MadeInside(u: Cap, base: nat, r: Request, k: nat)
    requires u.UntypedCap? && TypeOk(r.kind, r.userSize) && IsAligned(base, Size(r)) && k < r.count
    requires u.ptr <= base && ObjectBase(base, r, r.count) <= End(u)
    ensures Inside(NewCap(base, r, k), u)
  {
    ObjectAligned(base, r, k);
    ObjectEnds(base, r, k);
    ObjectWithin(base, r, k);
    CreatedRange(r.kind, ObjectBase(base, r, k), r.userSize, r.device);
  }

  // ---- the memory of new objects ----

  /** No slot in use and no live container in the memory from lo to hi. */
  ghost predicate FreeMemory(slots: Slots, l: Layout, lo: nat, hi: nat) {
    forall x {:trigger Unused(slots, l, x)} :: lo <= x < hi ==> Unused(slots, l, x)
  }

  lemma SlotInMemory(c: Container, a: nat)
    requires InContainer(c, a)
    ensures c.base <= a < c.base +
      (match c.kind case ZombieTcb => 1024 case ZombieCNode(radix) => Pow2(radix + SLOT_BITS))
  {
    var k :| 0 <= k < SlotCount(c.kind) && a == SlotAddr(c.base, k);
    if c.kind.ZombieCNode? { Pow2Add(c.kind.radix, SLOT_BITS); assert Pow2(SLOT_BITS) == SLOT_SIZE; }
  }

  /** A slot of a container that a capability stands for lies in that capability's memory. */
  lemma HousedInMemory(slots: Slots, l: Layout, c: Container, b: nat, a: nat)
    requires CapsOk(slots, l) && Houses(slots, c, b) && InContainer(c, a)
    ensures IsPhysical(slots[b].cap) && Base(slots[b].cap) <= a < End(slots[b].cap)
  {
    SlotInMemory(c, a);
    assert CapOk(slots, l, b);
    assert Pow2(10) == 1024 by { Pow2Add(5, 5); assert Pow2(5) == 32; }
  }

  /** Above the free pointer of an untyped, or anywhere in it when it has no child, there is no live container. */
  lemma NoContainerThere(ns: seq<Node>, p: nat, j: nat, x: nat)
    requires MemOk(ns) && p < |ns| && j < |ns| && ns[p].cap.UntypedCap? && IsPhysical(ns[j].cap)
    requires !ns[j].cap.UntypedCap?
    requires ns[p].cap.ptr <= x < End(ns[p].cap) && (HasChildAt(ns, p) ==> FreePtr(ns[p].cap) <= x)
    ensures !(Base(ns[j].cap) <= x < End(ns[j].cap))
  {
    assert Apart(ns, p, j);
    NoChildMeansNothingAlive(ns, p);
    if j < p {
      assert Contains(ns, p, j) ==> Contains(ns, j, p);
    } else if p < j {
      assert Below(ns, p, j);
    }
  }

  lemma AddressUnused(d: Db, l: Layout, src: nat, x: nat)
    requires DbOk(d, l) && src in d.slots && src in d.order && d.slots[src].cap.UntypedCap?
    requires
      var u := d.slots[src].cap;
      u.ptr <= x < End(u) && (HasChild(d.slots, src) ==> FreePtr(u) <= x)
    ensures Unused(d.slots, l, x)
  {
    var p := Index(d.order, src);
    assert At(d.slots, d.order, d.nodes, p) && CapOk(d.slots, l, src);
    NextTest(d.slots, d.order, d.nodes, src);
    forall b, c | Houses(d.slots, c, b)
      ensures !InContainer(c, x)
    {
      if InContainer(c, x) {
        HousedInMemory(d.slots, l, c, b, x);
        LinksAreInverse(d.slots, d.order, d.nodes, b);
        var j := Index(d.order, b);
        assert At(d.slots, d.order, d.nodes, j);
        NoContainerThere(d.nodes, p, j, x);
      }
    }
    if x in d.slots { SlotThere(d, l, src, x); }
  }

  lemma SlotThere(d: Db, l: Layout, src: nat, x: nat)
    requires DbOk(d, l) && src in d.slots && x in d.slots && Surrounds(d.slots, src, x)
    requires forall b, c {:trigger Houses(d.slots, c, b)} :: Houses(d.slots, c, b) ==> !InContainer(c, x)
    ensures d.slots[x].cap == NullCap && x in l.owner
  {
    assert OwnerOk(d.slots, l, x) && CapOk(d.slots, l, x);
    assert x in l.owner && InContainer(l.owner[x], x);
    assert !Alive(d.slots, l.owner[x]);
  }

  /** The memory a request is placed in holds nothing. */
  lemma WindowUnused(d: Db, l: Layout, src: nat, r: Request)
    requires DbOk(d, l) && src in d.slots && src in d.order && RetypeOk(d.nodes, Index(d.order, src), r)
    ensures
      var p := Index(d.order, src);
      d.nodes[p].cap.UntypedCap?
        && FreeMemory(d.slots, l, RetypeBase(d.nodes, p, r), ObjectBase(RetypeBase(d.nodes, p, r), r, r.count))
  {
    var p := Index(d.order, src);
    assert At(d.slots, d.order, d.nodes, p);
    NextTest(d.slots, d.order, d.nodes, src);
    RetypePlacement(d.nodes, p, r);
    var b := RetypeBase(d.nodes, p, r);
    forall x | b <= x < ObjectBase(b, r, r.count)
      ensures Unused(d.slots, l, x)
    {
      AddressUnused(d, l, src, x);
    }
  }

  // ---- create_new_objects ----

  /** What users could fill they still can. */
  ghost predicate UsersKept(slots: Slots, l: Layout, slots': Slots, l': Layout) {
    forall a {:trigger UserSlot(slots', l', a)} :: UserSlot(slots, l, a) ==> UserSlot(slots', l', a)
  }

  lemma UsersTrans(s0: Slots, l0: Layout, s1: Slots, l1: Layout, s2: Slots, l2: Layout)
    requires UsersKept(s0, l0, s1, l1) && UsersKept(s1, l1, s2, l2)
    ensures UsersKept(s0, l0, s2, l2)
  {
    forall a | UserSlot(s0, l0, a)
      ensures UserSlot(s2, l2, a)
    {
      assert UserSlot(s1, l1, a);
    }
  }

  lemma DestsStayOk(s: Slots, l: Layout, s': Slots, l': Layout, node: nat, offset: nat, n: nat)
    requires DestsOk(s, l, node, offset, n) && UsersKept(s, l, s', l')
    ensures DestsOk(s', l', node, offset, n)
  {
    forall k | 0 <= k < n
      ensures UserSlot(s', l', DestSlot(node, offset, k))
    {
      assert UserSlot(s, l, DestSlot(node, offset, k));
    }
  }

  /** The capability space while the objects of a request are made: everything but the nodes' memory. */
  ghost predicate Making(d: Db, l: Layout, src: nat, u: Cap) {
    && Rep(d.slots, d.order, d.nodes) && ReplyPairs(d.nodes) && CapsOk(d.slots, l)
    && src in d.slots && src in d.order && d.slots[src].cap == u && u.UntypedCap?
  }

  /** The destination slots are the user's to fill. */
  ghost predicate DestsOk(slots: Slots, l: Layout, node: nat, offset: nat, n: nat) {
    forall k {:trigger DestSlot(node, offset, k)} :: 0 <= k < n ==> UserSlot(slots, l, DestSlot(node, offset, k))
  }

  /** A slot of a live container is not in unused memory. */
  lemma LiveSlotApart(slots: Slots, l: Layout, a: nat, x: nat)
    requires CapsOk(slots, l) && a in slots && a in l.owner && Live(slots, l.owner[a]) && Unused(slots, l, x)
    ensures a != x
  {
    assert OwnerOk(slots, l, a);
    var h :| Houses(slots, l.owner[a], h) && !slots[h].cap.ZombieCap?;
    assert Unused(slots, l, x) ==> !InContainer(l.owner[a], x);
  }

  lemma NewContainerUnused(slots: Slots, l: Layout, base: nat, r: Request, i: nat)
    requires HasSlots(r) && FreeMemory(slots, l, ObjectBase(base, r, i), ObjectBase(base, r, i + 1))
    ensures AllUnused(slots, l, NewContainer(base, r, i))
  {
    var c := NewContainer(base, r, i);
    ObjectEnds(base, r, i);
    assert Pow2(10) == 1024 by { Pow2Add(5, 5); assert Pow2(5) == 32; }
    forall a | InContainer(c, a)
      ensures Unused(slots, l, a)
    {
      SlotInMemory(c, a);
    }
  }

  lemma UserSlotGrows(slots: Slots, l: Layout, c: Container, a: nat)
    requires CapsOk(slots, l) && AllUnused(slots, l, c) && UserSlot(slots, l, a)
    ensures UserSlot(Grown(slots, SlotSet(c)), LayoutWith(l, c), a) && !InContainer(c, a)
    ensures Grown(slots, SlotSet(c))[a] == slots[a]
  {
    SlotSetIs(c);
    if InContainer(c, a) {
      assert Unused(slots, l, a);
      LiveSlotApart(slots, l, a, a);
    }
    GrowKeepsLive(slots, l, c);
    assert Live(Grown(slots, SlotSet(c)), l.owner[a]);
  }

  /** Memory beyond the new object stays unused when its slots are added and its capability is written. */
  lemma StillUnused(slots: Slots, l: Layout, c: Container, slots': Slots, dest: nat, x: nat)
    requires CapsOk(slots, l) && Unused(slots, l, x) && AllUnused(slots, l, c) && !InContainer(c, x)
    requires UserSlot(slots, l, dest)
    requires slots'.Keys == Grown(slots, SlotSet(c)).Keys
    requires forall b :: b in slots' && b != dest ==> slots'[b].cap == Grown(slots, SlotSet(c))[b].cap
    requires IsContainerCap(slots'[dest].cap) ==> ContainerOf(slots'[dest].cap) == c
    ensures Unused(slots', LayoutWith(l, c), x)
  {
    SlotSetIs(c);
    LiveSlotApart(slots, l, dest, x);
    forall b, e | Houses(slots', e, b)
      ensures !InContainer(e, x)
    {
      if b != dest {
        GrowHouses(slots, l, c, e, b);
        assert Houses(slots, e, b);
      }
    }
  }

  lemma StillUnusedPlain(slots: Slots, l: Layout, slots': Slots, dest: nat, x: nat)
    requires CapsOk(slots, l) && Unused(slots, l, x) && UserSlot(slots, l, dest) && slots'.Keys == slots.Keys
    requires (forall b :: b in slots' && b != dest ==> slots'[b].cap == slots[b].cap)
    requires !IsContainerCap(slots'[dest].cap)
    ensures Unused(slots', l, x)
  {
    LiveSlotApart(slots, l, dest, x);
    forall b, e | Houses(slots', e, b)
      ensures !InContainer(e, x)
    {
      assert Houses(slots, e, b);
    }
  }

  /** The object's slots, if it is made of slots. */
  method MakeSlots(cs: CSpace, l: Layout, base: nat, r: Request, i: nat, ghost src: nat, ghost u: Cap)
    returns (l': Layout)
    requires Making(View(cs), l, src, u) && FreeMemory(cs.slots, l, ObjectBase(base, r, i), ObjectBase(base, r, i + 1))
    modifies cs
    ensures Making(View(cs), l', src, u) && cs.order == old(cs.order) && cs.nodes == old(cs.nodes)
    ensures l' == (if HasSlots(r) then LayoutWith(l, NewContainer(base, r, i)) else l)
    ensures cs.slots == if HasSlots(r) then Grown(old(cs.slots), SlotSet(NewContainer(base, r, i))) else old(cs.slots)
    ensures HasSlots(r) ==>
      OwnsSlots(cs.slots, l', NewContainer(base, r, i)) && AllUnused(old(cs.slots), l, NewContainer(base, r, i))
  {
    l' := l;
    if HasSlots(r) {
      var c := NewContainer(base, r, i);
      ghost var d := View(cs);
      NewContainerUnused(cs.slots, l, base, r, i);
      SlotSetIs(c);
      assert forall a :: a in SlotSet(c) ==> Unused(cs.slots, l, a);
      GrowKeepsCapsOk(cs.slots, l, c);
      SourceStays(d, l, c, src);
      cs.AddSlots(SlotSet(c));
      l' := LayoutWith(l, c);
    }
  }

  lemma SourceStays(d: Db, l: Layout, c: Container, src: nat)
    requires CapsOk(d.slots, l) && AllUnused(d.slots, l, c) && src in d.slots && d.slots[src].cap != NullCap
    ensures Grown(d.slots, SlotSet(c))[src] == d.slots[src]
  {
    SlotSetIs(c);
    assert InContainer(c, src) ==> Unused(d.slots, l, src);
  }

  /** What the new capability brings is there. */
  lemma NewCapOk(slots: Slots, l: Layout, src: nat, u: Cap, dest: nat, base: nat, r: Request, i: nat)
    requires CapsOk(slots, l) && src in slots && slots[src].cap == u && u.UntypedCap? && UserSlot(slots, l, dest)
    requires IsAligned(ObjectBase(base, r, i), Size(r)) && u.ptr <= ObjectBase(base, r, i)
    requires ObjectBase(base, r, i + 1) <= End(u)
    requires HasSlots(r) ==>
      OwnsSlots(slots, l, NewContainer(base, r, i)) && forall b :: !Houses(slots, NewContainer(base, r, i), b)
    requires HasSlots(r) && r.kind.TcbObject? ==> SlotAddr(ObjectBase(base, r, i), TCB_REPLY_INDEX) in l.replySlots
    ensures NewOk(slots, l, dest, NewCap(base, r, i))
    ensures HasSlots(r) <==> IsContainerCap(NewCap(base, r, i))
    ensures HasSlots(r) ==> ContainerOf(NewCap(base, r, i)) == NewContainer(base, r, i)
  {
    var c := NewCap(base, r, i);
    assert CapOk(slots, l, src);
    ObjectEnds(base, r, i);
    if r.kind.TcbObject? {
      assert Pow2(10) == 1024 by { Pow2Add(5, 5); assert Pow2(5) == 32; }
      assert c.ptr % 1024 == 512 && c.ptr - c.ptr % 1024 == ObjectBase(base, r, i);
    }
    if c.UntypedCap? {
      forall a | a in slots && a !in l.owner
        ensures !(c.ptr <= a < c.ptr + Pow2(c.blockSize))
      {
        assert OwnerOk(slots, l, a);
        assert !Surrounds(slots, src, a);
      }
    }
  }

  /** create_object and insert_new_cap for object i. */
  method AddNewCap(cs: CSpace, l: Layout, src: nat, slot: nat, base: nat, r: Request, i: nat, ghost u: Cap,
      ghost hi: nat)
    returns (l': Layout)
    requires Making(View(cs), l, src, u) && UserSlot(cs.slots, l, slot) && cs.slots[slot].cap == NullCap
    requires TypeOk(r.kind, r.userSize)
    requires IsAligned(base, Size(r)) && u.ptr <= base && ObjectBase(base, r, i + 1) <= hi <= End(u)
    requires FreeMemory(cs.slots, l, ObjectBase(base, r, i), hi)
    modifies cs
    ensures Making(View(cs), l', src, u) && FreeMemory(cs.slots, l', ObjectBase(base, r, i + 1), hi)
    ensures l' == if HasSlots(r) then LayoutWith(l, NewContainer(base, r, i)) else l
    ensures
      var p := Index(old(cs.order), src);
      src in old(cs.order) && p < |old(cs.nodes)| && Index(cs.order, src) == p
        && cs.nodes == InsertNode(old(cs.nodes), p, NewNode(base, r, i))
        && p < |old(cs.order)| && cs.order == InsertAt(old(cs.order), p + 1, slot)
    ensures AddedKeys(old(cs.slots), cs.slots) && cs.slots[slot].cap == NewCap(base, r, i)
    ensures forall b :: b in old(cs.slots) && b != slot ==> cs.slots[b].cap == old(cs.slots)[b].cap
    ensures UsersKept(old(cs.slots), l, cs.slots, l')
  {
    ghost var s0 := cs.slots;
    ObjectAligned(base, r, i);
    ObjectEnds(base, r, i);
    l' := MakeSlots(cs, l, base, r, i, src, u);
    ghost var s1 := cs.slots;
    MadeSlots(s0, l, s1, l', base, r, i, slot);
    NewCapOk(s1, l', src, u, slot, base, r, i);
    InsertNew(cs, l', src, slot, NewCap(base, r, i), u);
    AfterNew(s0, l, s1, cs.slots, l', slot, base, r, i, hi);
    NewKeys(s0, s1, View(cs), slot, NewCap(base, r, i), base, r, i);
  }

  lemma NewKeys(s0: Slots, s1: Slots, d: Db, slot: nat, c: Cap, base: nat, r: Request, i: nat)
    requires s1 == (if HasSlots(r) then Grown(s0, SlotSet(NewContainer(base, r, i))) else s0) && slot in s0
    requires Put(s1, d.slots, slot, c) && Rep(d.slots, d.order, d.nodes)
    ensures AddedKeys(s0, d.slots)
  {
    forall b | b in d.slots && b !in s0
      ensures d.slots[b] == EMPTY
    {
      LinksAreInverse(d.slots, d.order, d.nodes, b);
    }
  }

  /** Slots only come, and those that come are empty. */
  ghost predicate AddedKeys(s0: Slots, s: Slots) {
    s0.Keys <= s.Keys && forall b :: b in s && b !in s0 ==> s[b] == EMPTY
  }

  lemma MadeSlots(s0: Slots, l: Layout, s1: Slots, l': Layout, base: nat, r: Request, i: nat, slot: nat)
    requires CapsOk(s0, l) && UserSlot(s0, l, slot) && (HasSlots(r) ==> AllUnused(s0, l, NewContainer(base, r, i)))
    requires l' == (if HasSlots(r) then LayoutWith(l, NewContainer(base, r, i)) else l)
    requires s1 == if HasSlots(r) then Grown(s0, SlotSet(NewContainer(base, r, i))) else s0
    ensures UserSlot(s1, l', slot) && s1[slot] == s0[slot]
    ensures HasSlots(r) ==> forall b :: !Houses(s1, NewContainer(base, r, i), b)
    ensures HasSlots(r) && r.kind.TcbObject? ==> SlotAddr(ObjectBase(base, r, i), TCB_REPLY_INDEX) in l'.replySlots
  {
    if HasSlots(r) {
      var c := NewContainer(base, r, i);
      UserSlotGrows(s0, l, c, slot);
      forall b
        ensures !Houses(s1, c, b)
      {
        GrowHouses(s0, l, c, c, b);
        assert InContainer(c, SlotAddr(c.base, 0));
        assert Unused(s0, l, SlotAddr(c.base, 0));
      }
    }
  }

  /** insert_new_cap behind the untyped. */
  method InsertNew(cs: CSpace, l: Layout, src: nat, slot: nat, c: Cap, ghost u: Cap)
    requires Making(View(cs), l, src, u) && UserSlot(cs.slots, l, slot) && cs.slots[slot].cap == NullCap
    requires NewOk(cs.slots, l, slot, c) && !c.ReplyCap?
    modifies cs
    ensures Making(View(cs), l, src, u) && Put(old(cs.slots), cs.slots, slot, c)
    ensures
      var p := Index(old(cs.order), src);
      src in old(cs.order) && p < |old(cs.nodes)| && Index(cs.order, src) == p
        && cs.nodes == InsertNode(old(cs.nodes), p, Node(c, true, true, false))
        && p < |old(cs.order)| && cs.order == InsertAt(old(cs.order), p + 1, slot)
  {
    ghost var d := View(cs);
    ghost var p := Index(d.order, src);
    assert At(d.slots, d.order, d.nodes, p);
    assert d.nodes[p := d.nodes[p].(cap := u)] == d.nodes;
    InsertOtherKeepsPairs(d.nodes, p, Node(c, true, true, false));
    cs.InsertNewCap(src, slot, c);
    assert cs.order[p] == src;
    assert At(cs.slots, cs.order, cs.nodes, p);
    PutKeepsCapsOk(d.slots, l, cs.slots, slot, c);
  }

  lemma AfterNew(s0: Slots, l: Layout, s1: Slots, s2: Slots, l': Layout, slot: nat, base: nat, r: Request, i: nat,
      hi: nat)
    requires CapsOk(s0, l) && UserSlot(s0, l, slot) && UserSlot(s1, l', slot)
    requires (HasSlots(r) ==> AllUnused(s0, l, NewContainer(base, r, i)))
    requires l' == (if HasSlots(r) then LayoutWith(l, NewContainer(base, r, i)) else l)
    requires s1 == if HasSlots(r) then Grown(s0, SlotSet(NewContainer(base, r, i))) else s0
    requires Put(s1, s2, slot, NewCap(base, r, i)) && FreeMemory(s0, l, ObjectBase(base, r, i), hi)
    requires HasSlots(r) <==> IsContainerCap(NewCap(base, r, i))
    requires HasSlots(r) ==> ContainerOf(NewCap(base, r, i)) == NewContainer(base, r, i)
    ensures FreeMemory(s2, l', ObjectBase(base, r, i + 1), hi)
    ensures forall b :: b in s0 && b != slot ==> s2[b].cap == s0[b].cap
    ensures UsersKept(s0, l, s2, l')
  {
    ObjectEnds(base, r, i);
    forall x | ObjectBase(base, r, i + 1) <= x < hi
      ensures Unused(s2, l', x)
    {
      assert Unused(s0, l, x);
      if HasSlots(r) { BeyondNew(s0, l, s2, slot, base, r, i, x); } else { StillUnusedPlain(s0, l, s2, slot, x); }
    }
    forall a | UserSlot(s0, l, a)
      ensures UserSlot(s2, l', a)
    {
      if HasSlots(r) { UserSlotGrows(s0, l, NewContainer(base, r, i), a); }
      PutKeepsLive(s1, s2, slot, NewCap(base, r, i));
      assert Live(s2, l'.owner[a]);
    }
    if HasSlots(r) { KeptByGrowth(s0, l, NewContainer(base, r, i)); }
  }

  lemma KeptByGrowth(slots: Slots, l: Layout, c: Container)
    requires AllUnused(slots, l, c)
    ensures forall b :: b in slots ==> Grown(slots, SlotSet(c))[b].cap == slots[b].cap
  {
    SlotSetIs(c);
    forall b | b in slots
      ensures Grown(slots, SlotSet(c))[b].cap == slots[b].cap
    {
      if InContainer(c, b) { assert Unused(slots, l, b); }
    }
  }

  lemma BeyondNew(s0: Slots, l: Layout, s2: Slots, slot: nat, base: nat, r: Request, i: nat, x: nat)
    requires CapsOk(s0, l) && HasSlots(r) && AllUnused(s0, l, NewContainer(base, r, i)) && UserSlot(s0, l, slot)
    requires Put(Grown(s0, SlotSet(NewContainer(base, r, i))), s2, slot, NewCap(base, r, i)) && Unused(s0, l, x)
    requires IsContainerCap(NewCap(base, r, i)) && ContainerOf(NewCap(base, r, i)) == NewContainer(base, r, i)
    requires ObjectBase(base, r, i + 1) <= x
    ensures Unused(s2, LayoutWith(l, NewContainer(base, r, i)), x)
  {
    var c := NewContainer(base, r, i);
    ObjectEnds(base, r, i);
    assert Pow2(10) == 1024 by { Pow2Add(5, 5); assert Pow2(5) == 32; }
    if InContainer(c, x) { SlotInMemory(c, x); }
    StillUnused(s0, l, c, s2, slot, x);
  }

  /** create_new_objects: each object in turn, its slots and its capability. */
  method CreateNewObjects(cs: CSpace, l: Layout, src: nat, node: nat, offset: nat, base: nat, r: Request, ghost u: Cap,
      ghost s0: Slots)
    returns (l': Layout)
    requires Making(View(cs), l, src, u) && TypeOk(r.kind, r.userSize) && IsAligned(base, Size(r)) && u.ptr <= base
    requires ObjectBase(base, r, r.count) <= End(u) && FreeMemory(cs.slots, l, base, ObjectBase(base, r, r.count))
    requires Populated(s0, cs.slots, src, u, node, offset, base, r, 0) && DestsOk(cs.slots, l, node, offset, r.count)
    modifies cs
    ensures Making(View(cs), l', src, u) && l' == LayoutAfter(l, base, r, r.count)
    ensures Index(old(cs.order), src) < |old(cs.nodes)|
    ensures cs.nodes == AddObjects(old(cs.nodes), Index(old(cs.order), src), base, r, r.count)
    ensures Populated(s0, cs.slots, src, u, node, offset, base, r, r.count)
    ensures AllFresh(cs.slots, node, offset, base, r, r.count)
    ensures Index(cs.order, src) == Index(old(cs.order), src)
    ensures Behind(cs.order, Index(cs.order, src), node, offset, r.count)
    ensures UsersKept(old(cs.slots), l, cs.slots, l')
  {
    ghost var first, p := View(cs), Index(cs.order, src);
    ghost var hi := ObjectBase(base, r, r.count);
    assert At(cs.slots, cs.order, cs.nodes, p);
    assert ObjectBase(base, r, 0) == base;
    l' := l;
    for i := 0 to r.count
      invariant Progress(s0, first, l, View(cs), l', src, u, p, node, offset, base, r, i, hi)
    {
      l' := NextObject(cs, l', src, node, offset, base, r, i, u, s0, first, l, p, hi);
    }
    PopulatedFresh(s0, cs.slots, src, u, node, offset, base, r);
  }

  /** After the first i objects, made in the capability space `first`. */
  ghost predicate Progress(s0: Slots, first: Db, l: Layout, d: Db, l': Layout, src: nat, u: Cap, p: nat, node: nat,
      offset: nat, base: nat, r: Request, i: nat, hi: nat)
  {
    && Making(d, l', src, u) && Index(d.order, src) == p < |first.nodes| && l' == LayoutAfter(l, base, r, i)
    && FreeMemory(d.slots, l', ObjectBase(base, r, i), hi)
    && Arranged(s0, d, src, u, p, node, offset, base, r, i)
    && d.nodes == AddObjects(first.nodes, p, base, r, i) && UsersKept(first.slots, l, d.slots, l')
  }

  /** One object, in its turn. */
  method NextObject(cs: CSpace, l: Layout, src: nat, node: nat, offset: nat, base: nat, r: Request, i: nat,
      ghost u: Cap, ghost s0: Slots, ghost first: Db, ghost l0: Layout, ghost p: nat, ghost hi: nat)
    returns (l': Layout)
    requires Progress(s0, first, l0, View(cs), l, src, u, p, node, offset, base, r, i, hi) && i < r.count
    requires TypeOk(r.kind, r.userSize) && IsAligned(base, Size(r)) && u.ptr <= base
    requires hi == ObjectBase(base, r, r.count) <= End(u) && DestsOk(first.slots, l0, node, offset, r.count)
    modifies cs
    ensures Progress(s0, first, l0, View(cs), l', src, u, p, node, offset, base, r, i + 1, hi)
  {
    ghost var d := View(cs);
    ObjectWithin(base, r, i);
    DestsStayOk(first.slots, l0, cs.slots, l, node, offset, r.count);
    l' := AddNewCap(cs, l, src, DestSlot(node, offset, i), base, r, i, u, hi);
    ArrangedNext(s0, d, View(cs), src, u, p, node, offset, base, r, i);
    UsersTrans(first.slots, l0, d.slots, l, cs.slots, l');
  }

  /** Slots and list after the first i objects. */
  ghost predicate Arranged(s0: Slots, d: Db, src: nat, u: Cap, p: nat, node: nat, offset: nat, base: nat, r: Request,
      i: nat)
  {
    Populated(s0, d.slots, src, u, node, offset, base, r, i) && Behind(d.order, p, node, offset, i)
  }

  lemma ArrangedNext(s0: Slots, d: Db, d': Db, src: nat, u: Cap, p: nat, node: nat, offset: nat, base: nat, r: Request,
      i: nat)
    requires Arranged(s0, d, src, u, p, node, offset, base, r, i) && i < r.count && Rep(d'.slots, d'.order, d'.nodes)
    requires AddedKeys(d.slots, d'.slots) && DestSlot(node, offset, i) in d'.slots && src in d'.slots
    requires d'.slots[DestSlot(node, offset, i)].cap == NewCap(base, r, i) && d'.slots[src].cap == u
    requires forall b :: b in d.slots && b != DestSlot(node, offset, i) ==> d'.slots[b].cap == d.slots[b].cap
    requires d'.order == InsertAt(d.order, p + 1, DestSlot(node, offset, i))
    ensures Arranged(s0, d', src, u, p, node, offset, base, r, i + 1)
  {
    EmptySlots(d');
    PopulatedNext(s0, d.slots, d'.slots, src, u, node, offset, base, r, i);
    BehindNext(d.order, p, node, offset, i);
  }

  lemma EmptySlots(d: Db)
    requires Rep(d.slots, d.order, d.nodes)
    ensures forall b :: b in d.slots && d.slots[b].cap == NullCap ==> d.slots[b] == EMPTY
  {
    forall b | b in d.slots && d.slots[b].cap == NullCap
      ensures d.slots[b] == EMPTY
    {
      LinksAreInverse(d.slots, d.order, d.nodes, b);
    }
  }

  lemma ObjectWithin(base: nat, r: Request, i: nat)
    requires i < r.count
    ensures ObjectBase(base, r, i + 1) <= ObjectBase(base, r, r.count)
  {
    MulMonotone(i + 1, r.count, Pow2(Size(r)));
  }

  lemma PopulatedNext(s0: Slots, s: Slots, s': Slots, src: nat, u: Cap, node: nat, offset: nat, base: nat, r: Request,
      i: nat)
    requires Populated(s0, s, src, u, node, offset, base, r, i) && i < r.count
    requires AddedKeys(s, s') && (forall b :: b in s' && s'[b].cap == NullCap ==> s'[b] == EMPTY)
    requires s'[DestSlot(node, offset, i)].cap == NewCap(base, r, i) && s'[src].cap == u
    requires forall b :: b in s && b != DestSlot(node, offset, i) ==> s'[b].cap == s[b].cap
    ensures Populated(s0, s', src, u, node, offset, base, r, i + 1)
  {
    assert DestSlot(node, offset, i) in s0;
    forall k | 0 <= k < r.count
      ensures DestSlot(node, offset, k) in s0
        && s'[DestSlot(node, offset, k)].cap == if k < i + 1 then NewCap(base, r, k) else NullCap
    {
      assert k != i ==> DestSlot(node, offset, k) != DestSlot(node, offset, i);
    }
  }

  // ---- invoke_untyped_retype ----

  /** An untyped capability with another free index. */
  lemma RefreeKeepsCapsOk(slots: Slots, l: Layout, src: nat, c: Cap)
    requires CapsOk(slots, l) && src in slots && slots[src].cap.UntypedCap? && c.UntypedCap?
    requires c.ptr == slots[src].cap.ptr && c.blockSize == slots[src].cap.blockSize
    ensures CapsOk(slots[src := slots[src].(cap := c)], l)
  {
    var s := slots[src := slots[src].(cap := c)];
    forall b | b in s
      ensures CapOk(s, l, b)
    {
      assert CapOk(slots, l, b);
      var x := s[b].cap;
      if x != NullCap && b in l.owner {
        var h :| Houses(slots, l.owner[b], h);
        assert Houses(s, l.owner[b], h);
      }
      if x.ZombieCap? && x.kind == ZombieTcb { RefreeReplies(slots, src, c, x.ptr + TCB_OFFSET); }
    }
    forall a | a in l.replySlots
      ensures ReplySlotOk(s, l, a)
    {
      assert ReplySlotOk(slots, l, a);
    }
    forall a | a in s || a in l.owner
      ensures OwnerOk(s, l, a)
    {
      assert OwnerOk(slots, l, a);
      assert forall b :: Surrounds(s, b, a) ==> Surrounds(slots, b, a);
    }
    forall a, b
      ensures Alone(s, a, b)
    {
      assert Alone(slots, a, b);
    }
  }

  lemma RefreeReplies(slots: Slots, src: nat, c: Cap, t: nat)
    requires src in slots && c.UntypedCap? && NoReplies(slots, t)
    ensures NoReplies(slots[src := slots[src].(cap := c)], t)
  {
    var s := slots[src := slots[src].(cap := c)];
    forall b | b in s
      ensures !IsReply(s[b].cap, t)
    {
      assert !IsReply(slots[b].cap, t);
    }
  }

  lemma RefreeSame(slots: Slots, l: Layout, src: nat, c: Cap)
    requires src in slots && slots[src].cap.UntypedCap? && c.UntypedCap?
    ensures
      var s := slots[src := slots[src].(cap := c)];
      && (forall x :: Unused(slots, l, x) ==> Unused(s, l, x))
      && UsersKept(slots, l, s, l)
  {
    var s := slots[src := slots[src].(cap := c)];
    assert forall e, b :: Houses(s, e, b) <==> Houses(slots, e, b);
    forall x | Unused(slots, l, x)
      ensures Unused(s, l, x)
    {}
    forall a | UserSlot(slots, l, a)
      ensures UserSlot(s, l, a)
    {
      var h :| Houses(slots, l.owner[a], h) && !slots[h].cap.ZombieCap?;
      assert Houses(s, l.owner[a], h);
    }
  }

  /** invoke_untyped_retype, after the checks: the free index is set, then the objects are
      created, slots included. A reset leaves the old free index meaningless until this overwrites it. */
  method InvokeRetype(cs: CSpace, l: Layout, src: nat, r: Request, node: nat, offset: nat) returns (l': Layout)
    requires Inv(cs, l) && src in cs.slots && src in cs.order && RetypeOk(cs.nodes, Index(cs.order, src), r)
    requires DestEmpty(cs.slots, node, offset, r.count) && DestsOk(cs.slots, l, node, offset, r.count)
    modifies cs
    ensures Inv(cs, l') && Index(old(cs.order), src) < |old(cs.nodes)|
    ensures
      var ns0, p := old(cs.nodes), Index(old(cs.order), src);
      && ns0[p].cap.UntypedCap?
      && cs.nodes == RetypeNodes(ns0, p, r) && l' == LayoutAfter(l, RetypeBase(ns0, p, r), r, r.count)
      && Populated(old(cs.slots), cs.slots, src, RetypedCap(ns0, p, r), node, offset, RetypeBase(ns0, p, r), r, r.count)
      && AllFresh(cs.slots, node, offset, RetypeBase(ns0, p, r), r, r.count)
    ensures NewOriginals(View(cs), src, node, offset, r.count)
    ensures UsersKept(old(cs.slots), l, cs.slots, l')
  {
    ghost var d := View(cs);
    ghost var p := Index(cs.order, src);
    assert At(d.slots, d.order, d.nodes, p);
    RetypeKeeps(cs.nodes, p, r);
    RetypePlacement(cs.nodes, p, r);
    WindowUnused(d, l, src, r);
    assert RangeOk(d.nodes[p].cap);
    var base := SetFreeIndex(cs, src, r);
    ghost var u := RetypedCap(d.nodes, p, r);
    RefreeKeepsCapsOk(d.slots, l, src, u);
    RefreeSame(d.slots, l, src, u);
    RecapKeepsPairs(d.nodes, p, u);
    StartPopulated(d.slots, cs.slots, src, u, node, offset, base, r);
    ghost var ns := cs.nodes;
    l' := CreateNewObjects(cs, l, src, node, offset, base, r, u, d.slots);
    MadeAreOriginals(View(cs), src, ns, p, node, offset, base, r);
  }

  lemma StartPopulated(s0: Slots, s: Slots, src: nat, u: Cap, node: nat, offset: nat, base: nat, r: Request)
    requires src in s0 && s0[src].cap != NullCap && s == s0[src := s0[src].(cap := u)]
    requires DestEmpty(s0, node, offset, r.count)
    ensures Populated(s0, s, src, u, node, offset, base, r, 0)
  {
    assert forall k :: 0 <= k < r.count ==> DestSlot(node, offset, k) != src;
  }

  /** The address of the first object, and the new free index of the source. */
  method SetFreeIndex(cs: CSpace, src: nat, r: Request) returns (base: nat)
    requires cs.Valid() && src in cs.slots && src in cs.order && cs.nodes[Index(cs.order, src)].cap.UntypedCap?
    requires
      var ns, p := cs.nodes, Index(cs.order, src);
      RetypeBase(ns, p, r) + r.count * Pow2(Size(r)) >= ns[p].cap.ptr
    modifies cs
    ensures cs.Valid() && cs.order == old(cs.order) && src in cs.order
    ensures
      var ns0, p := old(cs.nodes), Index(old(cs.order), src);
      && p < |ns0| && ns0[p].cap.UntypedCap?
      && base == RetypeBase(ns0, p, r)
      && cs.nodes == ns0[p := ns0[p].(cap := RetypedCap(ns0, p, r))]
      && cs.slots == old(cs.slots)[src := old(cs.slots)[src].(cap := RetypedCap(ns0, p, r))]
  {
    ghost var p := Index(cs.order, src);
    assert At(cs.slots, cs.order, cs.nodes, p);
    NextTest(cs.slots, cs.order, cs.nodes, src);
    var u := cs.slots[src].cap;
    var none := cs.EnsureNoChildren(src);
    var start := if none then 0 else u.freeIndex;
    base := AlignUp(u.ptr + 16 * start, Size(r));
    var freeRef := base + r.count * Pow2(Size(r));
    cs.SetCap(src, UntypedCap(u.ptr, u.blockSize, (freeRef - u.ptr) / 16, u.isDevice));
  }

  lemma NextTest(slots: Slots, order: seq<nat>, ns: seq<Node>, a: nat)
    requires Rep(slots, order, ns) && a in slots && a in order
    ensures HasChild(slots, a) <==> HasChildAt(ns, Index(order, a))
  {
    LinksAreInverse(slots, order, ns, a);
    var i := Index(order, a);
    assert At(slots, order, ns, i);
    if i + 1 < |order| { assert At(slots, order, ns, i + 1); }
  }

  datatype RetypeError = RangeError | InvalidArgument | FailedLookup | DeleteFirst | NotEnoughMemory

  /** is_arch_type: the three frame types. */
  predicate IsFrameType(t: ObjectType) {
    t.GigaPageObject? || t.NormalPageObject? || t.MegaPageObject?
  }

  /** Every reason for which decode_untyed_invocation turns a request down. */
  ghost predicate Admissible(slots: Slots, ns: seq<Node>, p: nat, r: Request, node: Cap, offset: nat)
    requires p < |ns| && ns[p].cap.UntypedCap?
  {
    && node.CNodeCap? && offset < Pow2(node.radix) && r.count <= Pow2(node.radix) - offset
    && RetypeOk(ns, p, r) && DestEmpty(slots, node.ptr, offset, r.count)
    && !(r.device && IsFrameType(r.kind))
  }

  /** check_cnode_slot's scan of the destination window. */
  method WindowEmpty(cs: CSpace, node: nat, offset: nat, n: nat) returns (ok: bool)
    requires forall i {:trigger DestSlot(node, offset, i)} :: 0 <= i < n ==> DestSlot(node, offset, i) in cs.slots
    ensures ok <==> DestEmpty(cs.slots, node, offset, n)
  {
    for i := 0 to n
      invariant forall k {:trigger DestSlot(node, offset, k)} :: 0 <= k < i ==>
        cs.slots[DestSlot(node, offset, k)].cap == NullCap
    {
      if cs.slots[DestSlot(node, offset, i)].cap != NullCap {
        return false;
      }
    }
    ok := true;
  }

  /** decode_untyed_invocation, from the object size check on; None is success. */
  method DecodeRetype(cs: CSpace, l: Layout, src: nat, r: Request, node: Cap, offset: nat)
    returns (error: Option<RetypeError>, l': Layout)
    requires Inv(cs, l) && src in cs.slots && cs.slots[src].cap.UntypedCap? && NamedNode(cs.slots, node)
    modifies cs
    ensures Inv(cs, l') && src in old(cs.order)
    ensures
      var ns0, p := old(cs.nodes), Index(old(cs.order), src);
      && p < |ns0| && ns0[p].cap.UntypedCap?
      && (error.None? <==> Admissible(old(cs.slots), ns0, p, r, node, offset))
      && (error.None? ==>
            && cs.nodes == RetypeNodes(ns0, p, r) && l' == LayoutAfter(l, RetypeBase(ns0, p, r), r, r.count)
            && Populated(old(cs.slots), cs.slots, src, RetypedCap(ns0, p, r), node.ptr, offset, RetypeBase(ns0, p, r),
              r, r.count)
            && AllFresh(cs.slots, node.ptr, offset, RetypeBase(ns0, p, r), r, r.count)
            && NewOriginals(View(cs), src, node.ptr, offset, r.count))
    ensures error.Some? ==> View(cs) == old(View(cs)) && l' == l
  {
    LinksAreInverse(cs.slots, cs.order, cs.nodes, src);
    ghost var p := Index(cs.order, src);
    assert At(cs.slots, cs.order, cs.nodes, p);
    l' := l;
    if node.CNodeCap? { NodeSlots(cs.slots, l, node, offset); }
    error := CheckRequest(cs, r, node, offset);
    if error.Some? {
      return;
    }
    error := CheckSpace(cs, src, r);
    if error.Some? {
      return;
    }
    l' := InvokeRetype(cs, l, src, r, node.ptr, offset);
  }

  /** The destination node was found by a lookup, so a slot holds its capability, or it is none. */
  ghost predicate NamedNode(slots: Slots, node: Cap) {
    node.CNodeCap? ==> exists b :: b in slots && slots[b].cap == node
  }

  lemma NodeSlots(slots: Slots, l: Layout, node: Cap, offset: nat)
    requires CapsOk(slots, l) && node.CNodeCap? && NamedNode(slots, node)
    ensures forall i {:trigger DestSlot(node.ptr, offset, i)} :: 0 <= i && offset + i < Pow2(node.radix) ==>
      UserSlot(slots, l, DestSlot(node.ptr, offset, i))
  {
    var b :| b in slots && slots[b].cap == node;
    assert CapOk(slots, l, b) && Houses(slots, ContainerOf(node), b);
    forall i | 0 <= i && offset + i < Pow2(node.radix)
      ensures UserSlot(slots, l, DestSlot(node.ptr, offset, i))
    {
      var a := DestSlot(node.ptr, offset, i);
      assert a == SlotAddr(node.ptr, offset + i);
      assert a in l.replySlots ==> ReplySlotOk(slots, l, a);
      assert Live(slots, l.owner[a]);
    }
  }

  /** The checks on type, size and destination. */
  method CheckRequest(cs: CSpace, r: Request, node: Cap, offset: nat) returns (error: Option<RetypeError>)
    requires node.CNodeCap? ==> forall i {:trigger DestSlot(node.ptr, offset, i)} ::
      0 <= i && offset + i < Pow2(node.radix) ==> DestSlot(node.ptr, offset, i) in cs.slots
    ensures error.None? <==>
      && TypeOk(r.kind, r.userSize) && node.CNodeCap? && offset < Pow2(node.radix)
      && 1 <= r.count <= RETYPE_FAN_OUT_LIMIT && r.count <= Pow2(node.radix) - offset
      && DestEmpty(cs.slots, node.ptr, offset, r.count)
    ensures error.Some? && TypeOk(r.kind, r.userSize) ==>
      error.value != InvalidArgument && error.value != NotEnoughMemory
  {
    if r.userSize >= WORD_BITS || Size(r) > MAX_UNTYPED_BITS {
      return Some(RangeError);
    }
    if (r.kind.CapTableObject? && r.userSize == 0) || (r.kind.UntypedObject? && r.userSize < MIN_UNTYPED_BITS) {
      return Some(InvalidArgument);
    }
    if !node.CNodeCap? {
      return Some(FailedLookup);
    }
    var nodeSize := Pow2(node.radix);
    if offset > nodeSize - 1 || r.count < 1 || r.count > RETYPE_FAN_OUT_LIMIT || r.count > nodeSize - offset {
      return Some(RangeError);
    }
    var empty := WindowEmpty(cs, node.ptr, offset, r.count);
    error := if empty then None else Some(DeleteFirst);
  }

  /** (untyped_free_bytes >> obj_size) >= node_window */
  predicate HasRoom(blockBits: nat, start: nat, size: nat, count: nat) {
    16 * start <= Pow2(blockBits) && count <= (Pow2(blockBits) - 16 * start) / Pow2(size)
  }

  lemma RoomTest(ns: seq<Node>, p: nat, r: Request, start: nat)
    requires p < |ns| && ns[p].cap.UntypedCap? && start == StartIndex(ns, p)
    requires TypeOk(r.kind, r.userSize) && 1 <= r.count <= RETYPE_FAN_OUT_LIMIT
    ensures RetypeOk(ns, p, r) <==> HasRoom(ns[p].cap.blockSize, start, Size(r), r.count)
  {}

  /** The checks on free space and device memory. */
  method CheckSpace(cs: CSpace, src: nat, r: Request) returns (error: Option<RetypeError>)
    requires cs.Valid() && NodesOk(cs.nodes) && src in cs.slots && src in cs.order && cs.slots[src].cap.UntypedCap?
    requires TypeOk(r.kind, r.userSize) && 1 <= r.count <= RETYPE_FAN_OUT_LIMIT
    ensures error.None? <==> RetypeOk(cs.nodes, Index(cs.order, src), r) && !(r.device && IsFrameType(r.kind))
    ensures error.Some? ==>
      error.value == if RetypeOk(cs.nodes, Index(cs.order, src), r) then InvalidArgument else NotEnoughMemory
  {
    ghost var p := Index(cs.order, src);
    assert At(cs.slots, cs.order, cs.nodes, p);
    NextTest(cs.slots, cs.order, cs.nodes, src);
    assert RangeOk(cs.nodes[p].cap);
    var u := cs.slots[src].cap;
    var none := cs.EnsureNoChildren(src);
    var start := if none then 0 else u.freeIndex;
    RoomTest(cs.nodes, p, r, start);
    if !HasRoom(u.blockSize, start, Size(r), r.count) {
      return Some(NotEnoughMemory);
    }
    error := if r.device && IsFrameType(r.kind) then Some(InvalidArgument) else None;
  }

  // ---- reset_untyped_cap ----

  const RESET_CHUNK_BITS := 8

  /** A call of clear_memory: 2^bits bytes from start on. */
  datatype Cleared = Cleared(start: nat, bits: nat)

  /** Some call clears byte x. */
  ghost predicate IsCleared(calls: seq<Cleared>, x: int) {
    exists k :: 0 <= k < |calls| && calls[k].start <= x < calls[k].start + Pow2(calls[k].bits)
  }

  /** The bytes that reset_untyped_cap clears, for an untyped with offset bytes in use. */
  function ResetEnd(c: Cap, device: bool): (e: nat)
    requires c.UntypedCap?
  {
    var offset := 16 * c.freeIndex;
    if offset == 0 then c.ptr
    else if device && c.blockSize < RESET_CHUNK_BITS then c.ptr + Pow2(c.blockSize)
    else c.ptr + (offset + 255) / 256 * 256
  }

  /** reset_untyped_cap: what it clears, chunk by chunk from the top down. */
  method ResetUntyped(c: Cap, device: bool) returns (calls: seq<Cleared>)
    requires c.UntypedCap?
    ensures forall x :: IsCleared(calls, x) <==> c.ptr <= x < ResetEnd(c, device)
  {
    var offset := 16 * c.freeIndex;
    calls := [];
    if offset == 0 {
      return;
    }
    if device && c.blockSize < RESET_CHUNK_BITS {
      calls := [Cleared(c.ptr, c.blockSize)];
      assert calls[0].start == c.ptr;
      return;
    }
    assert Pow2(8) == 256 by { Pow2Add(4, 4); assert Pow2(4) == 16; }
    var top := (offset - 1) / 256 * 256;
    var at: int := top;
    while at != -256
      invariant -256 <= at <= top && at % 256 == 0
      invariant forall x :: IsCleared(calls, x) <==> c.ptr + at + 256 <= x < c.ptr + top + 256
      decreases at + 256
    {
      OneMoreCleared(calls, Cleared(c.ptr + at, RESET_CHUNK_BITS));
      calls := calls + [Cleared(c.ptr + at, RESET_CHUNK_BITS)];
      at := at - 256;
    }
  }

  lemma OneMoreCleared(calls: seq<Cleared>, c: Cleared)
    ensures forall x :: IsCleared(calls + [c], x) <==> IsCleared(calls, x) || c.start <= x < c.start + Pow2(c.bits)
  {
    var more := calls + [c];
    forall x
      ensures IsCleared(more, x) <==> IsCleared(calls, x) || c.start <= x < c.start + Pow2(c.bits)
    {
      if IsCleared(calls, x) {
        var k :| 0 <= k < |calls| && calls[k].start <= x < calls[k].start + Pow2(calls[k].bits);
        assert more[k] == calls[k];
      }
      if c.start <= x < c.start + Pow2(c.bits) { assert more[|calls|] == c; }
    }
  }

  /** A reset wipes everything that was allocated; but it stays inside the block only if the
      block has a whole chunk, or is device memory, or had nothing allocated. */
  lemma ResetStaysInsideIff(c: Cap, device: bool)
    requires c.UntypedCap? && RangeOk(c)
    ensures FreePtr(c) <= ResetEnd(c, device)
    ensures ResetEnd(c, device) <= End(c) <==> c.blockSize >= RESET_CHUNK_BITS || device || c.freeIndex == 0
  {
    assert Pow2(8) == 256 by { Pow2Add(4, 4); assert Pow2(4) == 16; }
    if c.blockSize >= RESET_CHUNK_BITS {
      Pow2Add(c.blockSize - 8, 8);
      assert Pow2(c.blockSize) % 256 == 0 by { ModOfMultiple(Pow2(c.blockSize - 8), 256); }
    } else {
      Pow2Strict(c.blockSize, 8);
    }
  }

  /** A block of 16 bytes with one endpoint in it: its reset clears 256 bytes. */
  lemma SmallResetOverruns()
    ensures var c := UntypedCap(4096, 4, 1, false); RangeOk(c) && End(c) == 4112 && ResetEnd(c, false) == 4352
  {
    assert Pow2(4) == 16;
    assert Pow2(8) == 256 by { Pow2Add(4, 4); }
  }
}
