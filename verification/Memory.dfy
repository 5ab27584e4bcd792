/** Which memory each capability stands for, and the invariant that keeps kernel objects apart:
    what the untyped allocator relies on when it asks only the next MDB node whether memory is
    still in use. */
module Memory {
  import opened Config
  import opened Words
  import opened Caps
  import opened MdbNodes

  /** First byte of the object. */
  function Base(c: Cap): (r: nat)
    requires IsPhysical(c)
  {
    if c.ThreadCap? then c.ptr - c.ptr % 1024 else c.ptr
  }

  /** log2 of the object's size, as the allocator hands it out (get_object_size). */
  function Bits(c: Cap): (r: nat)
    requires IsPhysical(c)
  {
    match c
    case UntypedCap(_, blockSize, _, _) => blockSize
    case EndpointCap(_, _, _, _, _, _) => ENDPOINT_BITS
    case NotificationCap(_, _, _, _) => NOTIFICATION_BITS
    case CNodeCap(_, radix, _, _) => radix + SLOT_BITS
    case ThreadCap(_) => TCB_BITS
    case FrameCap(_, size, _, _, _, _) => PageBits(size)
    case PageTableCap(_, _, _, _) => PAGE_TABLE_BITS
    case AsidPoolCap(_, _) => ASID_POOL_BITS
    case ZombieCap(_, _, ZombieTcb) => TCB_BITS
    case ZombieCap(_, _, ZombieCNode(radix)) => radix + SLOT_BITS
  }

  function End(c: Cap): (r: nat)
    requires IsPhysical(c)
    ensures r > Base(c)
  {
    Base(c) + Pow2(Bits(c))
  }

  /** Aligned to its size; a TCB's pointer is 512 bytes into its block; an untyped's free index
      stays inside the block. */
  predicate RangeOk(c: Cap)
    requires IsPhysical(c)
  {
    && IsAligned(Base(c), Bits(c))
    && (c.ThreadCap? ==> c.ptr % 1024 == TCB_OFFSET)
    && (c.UntypedCap? ==> c.blockSize >= MIN_UNTYPED_BITS && FreePtr(c) <= End(c))
  }

  /** GET_FREE_REF */
  function FreePtr(c: Cap): (r: nat)
    requires c.UntypedCap?
  {
    c.ptr + 16 * c.freeIndex
  }

  predicate Inside(c: Cap, u: Cap)
    requires IsPhysical(c) && IsPhysical(u)
  {
    Base(u) <= Base(c) && End(c) <= End(u)
  }

  predicate Disjoint(c: Cap, d: Cap)
    requires IsPhysical(c) && IsPhysical(d)
  {
    End(c) <= Base(d) || End(d) <= Base(c)
  }

  /** Node i is an untyped and node j's object lies in its block. */
  predicate Contains(ns: seq<Node>, i: nat, j: nat)
    requires i < |ns| && j < |ns|
  {
    ns[i].cap.UntypedCap? && IsPhysical(ns[j].cap) && Inside(ns[j].cap, ns[i].cap)
  }

  predicate Apart(ns: seq<Node>, i: nat, j: nat)
    requires i < |ns| && j < |ns|
  {
    IsPhysical(ns[i].cap) && IsPhysical(ns[j].cap) ==>
      Disjoint(ns[i].cap, ns[j].cap) || SameObject(ns[i], ns[j]) || Contains(ns, i, j) || Contains(ns, j, i)
  }

  /** Objects overlap only if they are the same object or one is an untyped around the other. */
  ghost predicate Separated(ns: seq<Node>) {
    forall i, j {:trigger Apart(ns, i, j)} :: 0 <= i < |ns| && 0 <= j < |ns| && i != j ==> Apart(ns, i, j)
  }

  ghost predicate RangesOk(ns: seq<Node>) {
    forall i :: 0 <= i < |ns| ==>
      && (IsPhysical(ns[i].cap) ==> RangeOk(ns[i].cap))
      && (ns[i].cap.UntypedCap? ==> ns[i].revocable)
  }

  /** Seen from a later object inside untyped i, the node before it is i itself or is inside i
      too, in the same list: the contents of a block form an unbroken run behind it. */
  ghost predicate RunsBehind(ns: seq<Node>) {
    forall i, j {:trigger RunStep(ns, i, j)} :: 0 <= i < j < |ns| ==> RunStep(ns, i, j)
  }

  predicate RunStep(ns: seq<Node>, i: nat, j: nat)
    requires i < j < |ns|
  {
    Contains(ns, i, j) ==> ns[j - 1].joined && (j - 1 == i || Contains(ns, i, j - 1))
  }

  /** Only an untyped of the same block can come earlier and yet lie inside. */
  ghost predicate EarlierIsAncestor(ns: seq<Node>) {
    forall i, j {:trigger Contains(ns, i, j)} :: 0 <= j < i < |ns| && Contains(ns, i, j) ==> Contains(ns, j, i)
  }

  /** Everything allocated from an untyped is below its free pointer. */
  ghost predicate BelowFree(ns: seq<Node>) {
    forall i, j {:trigger Below(ns, i, j)} :: 0 <= i < j < |ns| ==> Below(ns, i, j)
  }

  predicate Below(ns: seq<Node>, i: nat, j: nat)
    requires i < |ns| && j < |ns|
  {
    Contains(ns, i, j) ==> End(ns[j].cap) <= FreePtr(ns[i].cap)
  }

  ghost predicate MemOk(ns: seq<Node>) {
    RangesOk(ns) && Separated(ns) && RunsBehind(ns) && EarlierIsAncestor(ns) && BelowFree(ns)
  }

  // ---- the neighbour test answers the global question ----

  lemma SameObjectSameRange(m: Node, n: Node)
    requires SameObject(m, n) && IsPhysical(m.cap)
    requires m.cap.ThreadCap? ==> m.cap.ptr % 1024 == TCB_OFFSET
    ensures IsPhysical(n.cap) && Base(m.cap) == Base(n.cap) && Bits(m.cap) == Bits(n.cap)
  {}

  /** same_region_as, although it knows some sizes only as 0, decides containment. */
  lemma RegionTestIsContainment(ns: seq<Node>, i: nat, j: nat)
    requires MemOk(ns) && i < |ns| && j < |ns| && i != j && ns[i].cap.UntypedCap?
    ensures SameRegionAs(ns[i].cap, ns[j].cap) <==> Contains(ns, i, j)
  {
    assert Apart(ns, i, j);
    if IsPhysical(ns[j].cap) {
      assert RangeOk(ns[j].cap);
      PointInside(ns[j].cap);
    }
  }

  lemma PointInside(c: Cap)
    requires IsPhysical(c) && RangeOk(c)
    ensures Base(c) <= c.ptr && c.ptr + Pow2(CapSizeBits(c)) <= End(c)
  {
    assert Pow2(0) == 1;
    assert Pow2(TCB_BITS) == 1024 by { Pow2Values(); }
  }

  lemma Pow2Values()
    ensures Pow2(4) == 16 && Pow2(5) == 32 && Pow2(10) == 1024 && Pow2(12) == 4096
  {
    assert Pow2(4) == 16;
    assert Pow2(8) == 256 by { Pow2Add(4, 4); }
    assert Pow2(10) == 1024 by { Pow2Add(8, 2); }
    Pow2Add(10, 2);
  }

  lemma {:induction false} RunReachesNext(ns: seq<Node>, i: nat, j: nat)
    requires RunsBehind(ns) && i < j < |ns| && Contains(ns, i, j)
    ensures i + 1 < |ns| && ns[i].joined && Contains(ns, i, i + 1)
    decreases j
  {
    assert RunStep(ns, i, j);
    if j > i + 1 { RunReachesNext(ns, i, j - 1); }
  }

  /** ensure_no_children on an untyped: no next child means that nothing at all was allocated
      from it and is still alive. */
  lemma NoChildMeansNothingAlive(ns: seq<Node>, i: nat)
    requires MemOk(ns) && i < |ns| && ns[i].cap.UntypedCap?
    ensures !(i + 1 < |ns| && ns[i].joined && IsParent(ns[i], ns[i + 1]))
       <==> forall j :: i < j < |ns| ==> !Contains(ns, i, j)
  {
    if i + 1 < |ns| { RegionTestIsContainment(ns, i, i + 1); }
    if j :| i < j < |ns| && Contains(ns, i, j) {
      RunReachesNext(ns, i, j);
    }
    if i + 1 < |ns| && ns[i].joined && IsParent(ns[i], ns[i + 1]) {
      assert Contains(ns, i, i + 1);
    }
  }

  // ---- removal ----

  function Unshift(m: nat, k: nat): (o: nat) {
    if k < m then k else k + 1
  }

  lemma RemoveTransport(ns: seq<Node>, m: nat, a: nat, b: nat)
    requires m < |ns| && a < |ns| - 1 && b < |ns| - 1
    ensures Contains(RemoveNode(ns, m), a, b) == Contains(ns, Unshift(m, a), Unshift(m, b))
    ensures Apart(RemoveNode(ns, m), a, b) == Apart(ns, Unshift(m, a), Unshift(m, b))
    ensures Below(RemoveNode(ns, m), a, b) == Below(ns, Unshift(m, a), Unshift(m, b))
  {}

  lemma RemoveKeepsRuns(ns: seq<Node>, m: nat, a: nat, b: nat)
    requires RunsBehind(ns) && m < |ns| && a < b < |ns| - 1
    ensures RunStep(RemoveNode(ns, m), a, b)
  {
    var r := RemoveNode(ns, m);
    RemoveTransport(ns, m, a, b);
    var oa, ob := Unshift(m, a), Unshift(m, b);
    assert RunStep(ns, oa, ob);
    if b - 1 != a { RemoveTransport(ns, m, a, b - 1); }
    if ob - 1 == m && oa < m { assert RunStep(ns, oa, m); }
  }

  lemma RemoveKeepsMemOk(ns: seq<Node>, m: nat)
    requires MemOk(ns) && m < |ns|
    ensures MemOk(RemoveNode(ns, m))
  {
    var r := RemoveNode(ns, m);
    forall a, b | 0 <= a < |r| && 0 <= b < |r| && a != b
      ensures Apart(r, a, b)
    {
      RemoveTransport(ns, m, a, b);
      assert Apart(ns, Unshift(m, a), Unshift(m, b));
    }
    forall a, b | 0 <= a < b < |r|
      ensures RunStep(r, a, b)
    {
      RemoveKeepsRuns(ns, m, a, b);
    }
    forall a, b | 0 <= a < b < |r|
      ensures Below(r, a, b)
    {
      RemoveTransport(ns, m, a, b);
      assert Below(ns, Unshift(m, a), Unshift(m, b));
    }
    forall a, b | 0 <= b < a < |r| && Contains(r, a, b)
      ensures Contains(r, b, a)
    {
      RemoveTransport(ns, m, a, b);
      RemoveTransport(ns, m, b, a);
      assert Contains(ns, Unshift(m, a), Unshift(m, b));
    }
  }

  // ---- rewriting in place ----

  /** Same object, same memory, same allocation state. */
  predicate SameMemory(c: Cap, d: Cap) {
    && ObjectOf(c) == ObjectOf(d)
    && (IsPhysical(c) <==> IsPhysical(d))
    && (IsPhysical(c) ==> Base(c) == Base(d) && Bits(c) == Bits(d) && (RangeOk(d) ==> RangeOk(c)))
    && (c.UntypedCap? <==> d.UntypedCap?)
    && (c.UntypedCap? ==> FreePtr(c) == FreePtr(d))
  }

  lemma RewriteKeepsMemOk(ns: seq<Node>, m: nat, c: Cap)
    requires MemOk(ns) && m < |ns| && SameMemory(c, ns[m].cap)
    ensures MemOk(ns[m := ns[m].(cap := c)])
  {
    var r := ns[m := ns[m].(cap := c)];
    assert forall a, b {:trigger Contains(r, a, b)} :: 0 <= a < |r| && 0 <= b < |r| ==>
      Contains(r, a, b) == Contains(ns, a, b);
    forall a, b | 0 <= a < b < |r|
      ensures RunStep(r, a, b) && Below(r, a, b)
    {
      assert RunStep(ns, a, b) && Below(ns, a, b);
    }
    forall a, b | 0 <= a < |r| && 0 <= b < |r| && a != b
      ensures Apart(r, a, b)
    {
      assert Apart(ns, a, b);
      assert Contains(r, a, b) == Contains(ns, a, b) && Contains(r, b, a) == Contains(ns, b, a);
    }
  }

  /** The last capability to an object becomes its zombie: the memory stays claimed. */
  lemma RetireKeepsMemOk(ns: seq<Node>, m: nat, c: Cap)
    requires MemOk(ns) && m < |ns| && IsPhysical(c) && IsPhysical(ns[m].cap) && ObjectOf(c) == NoObject
    requires !c.UntypedCap? && !ns[m].cap.UntypedCap?
    requires Base(c) == Base(ns[m].cap) && Bits(c) == Bits(ns[m].cap) && RangeOk(c)
    requires forall k :: 0 <= k < |ns| && k != m ==> !Same(ns, m, k)
    ensures MemOk(ns[m := ns[m].(cap := c)])
  {
    var r := ns[m := ns[m].(cap := c)];
    assert forall a, b {:trigger Contains(r, a, b)} :: 0 <= a < |r| && 0 <= b < |r| ==>
      Contains(r, a, b) == Contains(ns, a, b);
    forall a, b | 0 <= a < b < |r|
      ensures RunStep(r, a, b) && Below(r, a, b)
    {
      assert RunStep(ns, a, b) && Below(ns, a, b);
    }
    forall a, b | 0 <= a < |r| && 0 <= b < |r| && a != b
      ensures Apart(r, a, b)
    {
      assert Apart(ns, a, b);
      assert Contains(r, a, b) == Contains(ns, a, b) && Contains(r, b, a) == Contains(ns, b, a);
      if a == m { assert !Same(ns, m, b); }
      if b == m { assert !Same(ns, m, a); }
    }
  }

  /** Moving an untyped's free pointer, above everything allocated from it. */
  lemma SetFreeKeepsMemOk(ns: seq<Node>, m: nat, c: Cap)
    requires MemOk(ns) && m < |ns| && ns[m].cap.UntypedCap? && c.UntypedCap?
    requires c.ptr == ns[m].cap.ptr && c.blockSize == ns[m].cap.blockSize && FreePtr(c) <= End(c)
    requires forall j :: m < j < |ns| && Contains(ns, m, j) ==> End(ns[j].cap) <= FreePtr(c)
    ensures MemOk(ns[m := ns[m].(cap := c)])
    ensures forall j :: 0 <= j < |ns| ==> Contains(ns[m := ns[m].(cap := c)], m, j) == Contains(ns, m, j)
  {
    var r := ns[m := ns[m].(cap := c)];
    assert forall a, b {:trigger Contains(r, a, b)} :: 0 <= a < |r| && 0 <= b < |r| ==>
      Contains(r, a, b) == Contains(ns, a, b);
    forall a, b | 0 <= a < b < |r|
      ensures RunStep(r, a, b) && Below(r, a, b)
    {
      assert RunStep(ns, a, b) && Below(ns, a, b);
    }
    forall a, b | 0 <= a < |r| && 0 <= b < |r| && a != b
      ensures Apart(r, a, b)
    {
      assert Apart(ns, a, b);
      assert Contains(r, a, b) == Contains(ns, a, b) && Contains(r, b, a) == Contains(ns, b, a);
    }
  }

  // ---- insertion ----

  /** Index before an insertion after p; p itself stands for the new node. */
  function Uninsert(p: nat, k: nat): (o: nat) {
    if k <= p then k else k - 1
  }

  lemma InsertTransport(ns: seq<Node>, p: nat, n: Node, a: nat, b: nat)
    requires p < |ns| && a <= |ns| && b <= |ns| && a != p + 1 && b != p + 1
    ensures Contains(InsertNode(ns, p, n), a, b) == Contains(ns, Uninsert(p, a), Uninsert(p, b))
    ensures Apart(InsertNode(ns, p, n), a, b) == Apart(ns, Uninsert(p, a), Uninsert(p, b))
    ensures Below(InsertNode(ns, p, n), a, b) == Below(ns, Uninsert(p, a), Uninsert(p, b))
  {}

  /** A new object carved out of untyped p: inside it, above `bound`, which everything already
      allocated from it stays below. */
  ghost predicate Carved(ns: seq<Node>, p: nat, c: Cap, bound: nat)
    requires p < |ns|
  {
    && ns[p].cap.UntypedCap? && IsPhysical(c) && RangeOk(c) && Inside(c, ns[p].cap)
    && bound <= Base(c) && End(c) <= FreePtr(ns[p].cap)
    && forall j :: p < j < |ns| && Contains(ns, p, j) ==> End(ns[j].cap) <= bound
  }

  /** How a carved object lies relative to every older node. */
  lemma CarvedPosition(ns: seq<Node>, p: nat, c: Cap, bound: nat, k: nat)
    requires MemOk(ns) && p < |ns| && Carved(ns, p, c, bound) && k < |ns| && IsPhysical(ns[k].cap)
    ensures Disjoint(ns[k].cap, c) || k == p || (k < p && Contains(ns, k, p))
    ensures k < p && Contains(ns, k, p) ==> Inside(c, ns[k].cap) && End(c) <= FreePtr(ns[k].cap)
    ensures k > p ==> Disjoint(ns[k].cap, c)
  {
    if k < p { assert Below(ns, k, p); }
    assert RangeOk(ns[k].cap);
    if k != p {
      assert Apart(ns, k, p);
    }
  }

  lemma CarvedApart(ns: seq<Node>, p: nat, n: Node, bound: nat, k: nat)
    requires MemOk(ns) && p < |ns| && Carved(ns, p, n.cap, bound) && k <= |ns| && k != p + 1
    ensures Apart(InsertNode(ns, p, n), k, p + 1) && Apart(InsertNode(ns, p, n), p + 1, k)
  {
    var o := Uninsert(p, k);
    if IsPhysical(ns[o].cap) { CarvedPosition(ns, p, n.cap, bound, o); }
  }

  lemma CarvedRuns(ns: seq<Node>, p: nat, n: Node, bound: nat, a: nat, b: nat)
    requires MemOk(ns) && p < |ns| && Carved(ns, p, n.cap, bound) && a < b <= |ns|
    ensures RunStep(InsertNode(ns, p, n), a, b)
  {
    if a == p + 1 {
      if IsPhysical(ns[b - 1].cap) { CarvedPosition(ns, p, n.cap, bound, b - 1); }
    } else if b == p + 1 {
      if IsPhysical(ns[a].cap) { CarvedPosition(ns, p, n.cap, bound, a); }
      if a < p { InsertTransport(ns, p, n, a, p); }
    } else {
      CarvedOldRuns(ns, p, n, bound, a, b);
    }
  }

  lemma CarvedBelow(ns: seq<Node>, p: nat, n: Node, bound: nat, a: nat, b: nat)
    requires MemOk(ns) && p < |ns| && Carved(ns, p, n.cap, bound) && a < b <= |ns|
    ensures Below(InsertNode(ns, p, n), a, b)
  {
    if a == p + 1 {
      if IsPhysical(ns[b - 1].cap) { CarvedPosition(ns, p, n.cap, bound, b - 1); }
    } else if b == p + 1 {
      if IsPhysical(ns[a].cap) { CarvedPosition(ns, p, n.cap, bound, a); }
    } else {
      InsertTransport(ns, p, n, a, b);
      assert Below(ns, Uninsert(p, a), Uninsert(p, b));
    }
  }

  lemma CarvedInside(ns: seq<Node>, p: nat, n: Node, bound: nat, a: nat)
    requires MemOk(ns) && p < |ns| && Carved(ns, p, n.cap, bound) && a <= p && (a == p || Contains(ns, a, p))
    ensures Contains(InsertNode(ns, p, n), a, p + 1)
  {
    if a < p { CarvedPosition(ns, p, n.cap, bound, a); }
  }

  lemma CarvedOldRuns(ns: seq<Node>, p: nat, n: Node, bound: nat, a: nat, b: nat)
    requires MemOk(ns) && p < |ns| && Carved(ns, p, n.cap, bound) && a < b <= |ns| && a != p + 1 && b != p + 1
    ensures RunStep(InsertNode(ns, p, n), a, b)
  {
    assert RunStep(ns, Uninsert(p, a), Uninsert(p, b));
    if b == p + 2 {
      CarvedNextRun(ns, p, n, bound, a);
    } else {
      CarvedFarRun(ns, p, n, a, b);
    }
  }

  /** The node right behind the carved one. */
  lemma CarvedNextRun(ns: seq<Node>, p: nat, n: Node, bound: nat, a: nat)
    requires MemOk(ns) && p + 1 < |ns| && Carved(ns, p, n.cap, bound) && a <= p && RunStep(ns, a, p + 1)
    ensures RunStep(InsertNode(ns, p, n), a, p + 2)
  {
    InsertTransport(ns, p, n, a, p + 2);
    if a == p || Contains(ns, a, p) { CarvedInside(ns, p, n, bound, a); }
  }

  /** Two old nodes whose second is not right behind the carved one. */
  lemma CarvedFarRun(ns: seq<Node>, p: nat, n: Node, a: nat, b: nat)
    requires p < |ns| && a < b <= |ns| && a != p + 1 && b != p + 1 && b != p + 2
    requires RunStep(ns, Uninsert(p, a), Uninsert(p, b))
    ensures RunStep(InsertNode(ns, p, n), a, b)
  {
    InsertTransport(ns, p, n, a, b);
    if b - 1 != a { InsertTransport(ns, p, n, a, b - 1); }
  }

  lemma CarvedEarlier(ns: seq<Node>, p: nat, n: Node, bound: nat, a: nat, b: nat)
    requires MemOk(ns) && p < |ns| && Carved(ns, p, n.cap, bound) && b < a <= |ns|
    requires Contains(InsertNode(ns, p, n), a, b)
    ensures Contains(InsertNode(ns, p, n), b, a)
  {
    if a == p + 1 {
      CarvedPosition(ns, p, n.cap, bound, b);
    } else if b == p + 1 {
      CarvedPosition(ns, p, n.cap, bound, a - 1);
    } else {
      InsertTransport(ns, p, n, a, b);
      InsertTransport(ns, p, n, b, a);
      assert Contains(ns, Uninsert(p, a), Uninsert(p, b));
    }
  }

  /** Inserting a carved object behind its untyped. */
  lemma CarveKeepsMemOk(ns: seq<Node>, p: nat, n: Node, bound: nat)
    requires MemOk(ns) && p < |ns| && Carved(ns, p, n.cap, bound) && n.revocable
    ensures MemOk(InsertNode(ns, p, n))
  {
    var r := InsertNode(ns, p, n);
    forall a, b | 0 <= a < |r| && 0 <= b < |r| && a != b
      ensures Apart(r, a, b)
    {
      if a == p + 1 { CarvedApart(ns, p, n, bound, b); }
      else if b == p + 1 { CarvedApart(ns, p, n, bound, a); }
      else {
        InsertTransport(ns, p, n, a, b);
        assert Apart(ns, Uninsert(p, a), Uninsert(p, b));
      }
    }
    forall a, b | 0 <= a < b < |r|
      ensures RunStep(r, a, b) && Below(r, a, b)
    {
      CarvedRuns(ns, p, n, bound, a, b);
      CarvedBelow(ns, p, n, bound, a, b);
    }
    forall a, b | 0 <= b < a < |r| && Contains(r, a, b)
      ensures Contains(r, b, a)
    {
      CarvedEarlier(ns, p, n, bound, a, b);
    }
  }

  /** A carved object is one that no node names yet. */
  lemma CarvedIsFresh(ns: seq<Node>, p: nat, n: Node, bound: nat)
    requires MemOk(ns) && p < |ns| && Carved(ns, p, n.cap, bound)
    ensures forall k :: 0 <= k < |ns| ==> !SameObject(ns[k], n)
  {
    forall k | 0 <= k < |ns|
      ensures !SameObject(ns[k], n)
    {
      if SameObject(ns[k], n) {
        SameObjectSameRange(n, ns[k]);
        CarvedPosition(ns, p, n.cap, bound, k);
      }
    }
  }

  /** A copy of node p: the same memory; an untyped is copied only while nothing has been
      allocated from it, and the original then counts as full. */
  ghost predicate Twin(ns: seq<Node>, p: nat, n: Node)
    requires p < |ns|
  {
    var c := ns[p].cap;
    && ObjectOf(n.cap) == ObjectOf(c) && (IsPhysical(n.cap) <==> IsPhysical(c))
    && (IsPhysical(c) ==> Base(n.cap) == Base(c) && Bits(n.cap) == Bits(c) && RangeOk(n.cap))
    && (n.cap.UntypedCap? <==> c.UntypedCap?)
    && (c.UntypedCap? ==> n.revocable && FreePtr(c) == End(c) && forall j :: p < j < |ns| ==> !Contains(ns, p, j))
    && (IsPhysical(c) && !c.UntypedCap? ==> ObjectOf(c) != NoObject)
  }

  lemma TwinTransport(ns: seq<Node>, p: nat, n: Node, k: nat)
    requires p < |ns| && Twin(ns, p, n) && k <= |ns| && k != p + 1
    ensures var o := Uninsert(p, k); o != p ==>
      && Contains(InsertNode(ns, p, n), k, p + 1) == Contains(ns, o, p)
      && Contains(InsertNode(ns, p, n), p + 1, k) == Contains(ns, p, o)
      && (Apart(ns, o, p) ==> Apart(InsertNode(ns, p, n), k, p + 1))
      && (Apart(ns, p, o) ==> Apart(InsertNode(ns, p, n), p + 1, k))
      && (Below(ns, o, p) ==> Below(InsertNode(ns, p, n), k, p + 1))
    ensures k == p ==>
      && Contains(InsertNode(ns, p, n), p, p + 1) == ns[p].cap.UntypedCap?
      && Contains(InsertNode(ns, p, n), p + 1, p) == ns[p].cap.UntypedCap?
      && Apart(InsertNode(ns, p, n), p, p + 1) && Apart(InsertNode(ns, p, n), p + 1, p)
      && Below(InsertNode(ns, p, n), p, p + 1)
  {}

  lemma TwinRuns(ns: seq<Node>, p: nat, n: Node, a: nat, b: nat)
    requires MemOk(ns) && p < |ns| && Twin(ns, p, n) && a < b <= |ns|
    ensures RunStep(InsertNode(ns, p, n), a, b)
  {
    if a == p + 1 {
      TwinTransport(ns, p, n, b);
    } else if b == p + 1 {
      TwinTransport(ns, p, n, a);
      if a < p { InsertTransport(ns, p, n, a, p); }
    } else {
      assert RunStep(ns, Uninsert(p, a), Uninsert(p, b));
      if b == p + 2 {
        InsertTransport(ns, p, n, a, b);
        TwinTransport(ns, p, n, a);
      } else {
        CarvedFarRun(ns, p, n, a, b);
      }
    }
  }

  lemma TwinBelow(ns: seq<Node>, p: nat, n: Node, a: nat, b: nat)
    requires MemOk(ns) && p < |ns| && Twin(ns, p, n) && a < b <= |ns|
    ensures Below(InsertNode(ns, p, n), a, b)
  {
    if a == p + 1 {
      TwinTransport(ns, p, n, b);
    } else if b == p + 1 {
      TwinTransport(ns, p, n, a);
      if a < p { assert Below(ns, a, p); }
    } else {
      InsertTransport(ns, p, n, a, b);
      assert Below(ns, Uninsert(p, a), Uninsert(p, b));
    }
  }

  lemma TwinEarlier(ns: seq<Node>, p: nat, n: Node, a: nat, b: nat)
    requires MemOk(ns) && p < |ns| && Twin(ns, p, n) && b < a <= |ns| && Contains(InsertNode(ns, p, n), a, b)
    ensures Contains(InsertNode(ns, p, n), b, a)
  {
    if a == p + 1 {
      TwinTransport(ns, p, n, b);
    } else if b == p + 1 {
      TwinTransport(ns, p, n, a);
    } else {
      InsertTransport(ns, p, n, a, b);
      InsertTransport(ns, p, n, b, a);
    }
  }

  lemma TwinApart(ns: seq<Node>, p: nat, n: Node, a: nat, b: nat)
    requires MemOk(ns) && p < |ns| && Twin(ns, p, n) && a <= |ns| && b <= |ns| && a != b
    ensures Apart(InsertNode(ns, p, n), a, b)
  {
    if a == p + 1 {
      TwinTransport(ns, p, n, b);
      if Uninsert(p, b) != p { assert Apart(ns, p, Uninsert(p, b)); }
    } else if b == p + 1 {
      TwinTransport(ns, p, n, a);
      if Uninsert(p, a) != p { assert Apart(ns, Uninsert(p, a), p); }
    } else {
      InsertTransport(ns, p, n, a, b);
      assert Apart(ns, Uninsert(p, a), Uninsert(p, b));
    }
  }

  /** Copying keeps objects apart. */
  lemma TwinKeepsMemOk(ns: seq<Node>, p: nat, n: Node)
    requires MemOk(ns) && p < |ns| && Twin(ns, p, n)
    ensures MemOk(InsertNode(ns, p, n))
  {
    var r := InsertNode(ns, p, n);
    forall a, b | 0 <= a < |r| && 0 <= b < |r| && a != b
      ensures Apart(r, a, b)
    {
      TwinApart(ns, p, n, a, b);
    }
    forall a, b | 0 <= a < b < |r|
      ensures RunStep(r, a, b) && Below(r, a, b)
    {
      TwinRuns(ns, p, n, a, b);
      TwinBelow(ns, p, n, a, b);
    }
    forall a, b | 0 <= b < a < |r| && Contains(r, a, b)
      ensures Contains(r, b, a)
    {
      TwinEarlier(ns, p, n, a, b);
    }
  }

  // ---- the whole invariant of the mapping database ----

  /** Shape of the mapping database and separation of memory. */
  ghost predicate NodesOk(ns: seq<Node>) {
    MdbOk(ns) && MemOk(ns)
  }

  lemma RemoveKeepsNodesOk(ns: seq<Node>, i: nat)
    requires NodesOk(ns) && i < |ns|
    ensures NodesOk(RemoveNode(ns, i))
  {
    RemoveKeepsMdbOk(ns, i);
    RemoveKeepsMemOk(ns, i);
  }

  /** The capability keeps its object, memory, badge and kind of list; only data changes. */
  predicate Rewritable(c: Cap, d: Cap) {
    SameMemory(d, c) && Badge(d) == Badge(c) && (d.ReplyCap? <==> c.ReplyCap?)
  }

  lemma RewriteKeepsNodesOk(ns: seq<Node>, i: nat, c: Cap)
    requires NodesOk(ns) && i < |ns| && Rewritable(ns[i].cap, c)
    ensures NodesOk(ns[i := ns[i].(cap := c)])
  {
    RewriteKeepsMdbOk(ns, i, c);
    RewriteKeepsMemOk(ns, i, c);
  }

  /** The zombie of a CNode or thread capability. */
  predicate IsZombieOf(z: Cap, c: Cap) {
    && z.ZombieCap? && (c.CNodeCap? || c.ThreadCap?)
    && z.ptr == Base(c) && z.kind == (if c.ThreadCap? then ZombieTcb else ZombieCNode(c.radix))
  }

  lemma RetireKeepsNodesOk(ns: seq<Node>, i: nat, z: Cap)
    requires NodesOk(ns) && i < |ns| && IsZombieOf(z, ns[i].cap)
    requires forall k :: 0 <= k < |ns| && k != i ==> !Same(ns, i, k)
    ensures NodesOk(ns[i := ns[i].(cap := z)])
  {
    assert RangeOk(ns[i].cap);
    RetireKeepsMdbOk(ns, i, z);
    RetireKeepsMemOk(ns, i, z);
  }

  /** What ensure_no_children answers at node p. */
  predicate HasChildAt(ns: seq<Node>, p: nat)
    requires p < |ns|
  {
    p + 1 < |ns| && ns[p].joined && IsParent(ns[p], ns[p + 1])
  }

  /** setUntypedCapAsFull: the source of a copied untyped has no room left. */
  function UntypedAsFull(src: Cap, copy: Cap): (r: Cap)
    requires src.UntypedCap? ==> src.blockSize >= MIN_UNTYPED_BITS
  {
    if src.UntypedCap? && copy.UntypedCap? && src.ptr == copy.ptr && src.blockSize == copy.blockSize
    then UntypedCap(src.ptr, src.blockSize, MaxFreeIndex(src.blockSize), src.isDevice)
    else src
  }

  /** cte_insert of a derived capability behind node p. */
  function CopyNodes(ns: seq<Node>, p: nat, c: Cap): (r: seq<Node>)
    requires p < |ns| && DerivedFrom(c, ns[p].cap)
    requires ns[p].cap.UntypedCap? ==> ns[p].cap.blockSize >= MIN_UNTYPED_BITS
  {
    var revocable := IsCapRevocable(c, ns[p].cap);
    InsertNode(ns[p := ns[p].(cap := UntypedAsFull(ns[p].cap, c))], p, Node(c, revocable, revocable, false))
  }

  lemma FullFreePtr(u: Cap)
    requires u.UntypedCap? && u.blockSize >= MIN_UNTYPED_BITS
    ensures u.ptr + 16 * MaxFreeIndex(u.blockSize) == u.ptr + Pow2(u.blockSize)
  {
    Pow2Add(MIN_UNTYPED_BITS, u.blockSize - MIN_UNTYPED_BITS);
    Pow2Values();
  }

  lemma FillKeepsNodesOk(ns: seq<Node>, p: nat, c: Cap)
    requires NodesOk(ns) && p < |ns| && DerivedFrom(c, ns[p].cap)
    requires ns[p].cap.UntypedCap? ==> ns[p].cap.blockSize >= MIN_UNTYPED_BITS
    ensures NodesOk(ns[p := ns[p].(cap := UntypedAsFull(ns[p].cap, c))])
    ensures ns[p].cap.UntypedCap? ==>
      forall j :: 0 <= j < |ns| ==>
        Contains(ns[p := ns[p].(cap := UntypedAsFull(ns[p].cap, c))], p, j) == Contains(ns, p, j)
  {
    var full := UntypedAsFull(ns[p].cap, c);
    if ns[p].cap.UntypedCap? {
      FullFreePtr(ns[p].cap);
      RewriteKeepsMdbOk(ns, p, full);
      SetFreeKeepsMemOk(ns, p, full);
    } else {
      assert ns[p := ns[p].(cap := full)] == ns;
    }
  }

  /** Copying or minting keeps the whole invariant; an untyped may be copied only while it has
      no children. */
  lemma CopyKeepsNodesOk(ns: seq<Node>, p: nat, c: Cap)
    requires NodesOk(ns) && p < |ns| && DerivedFrom(c, ns[p].cap) && !c.IrqControlCap?
    requires ns[p].cap.UntypedCap? ==> ns[p].cap.blockSize >= MIN_UNTYPED_BITS && !HasChildAt(ns, p)
    ensures NodesOk(CopyNodes(ns, p, c))
  {
    var full := UntypedAsFull(ns[p].cap, c);
    var revocable := IsCapRevocable(c, ns[p].cap);
    var n := Node(c, revocable, revocable, false);
    var ns1 := ns[p := ns[p].(cap := full)];
    FillKeepsNodesOk(ns, p, c);
    CopyIsTwin(ns, p, c);
    CopyInsertOk(ns1, p, ns[p].cap, n);
    InsertKeepsMdbOk(ns1, p, n);
    TwinKeepsMemOk(ns1, p, n);
  }

  lemma CopyInsertOk(ns: seq<Node>, p: nat, src: Cap, n: Node)
    requires p < |ns| && DerivedFrom(n.cap, src) && ObjectOf(ns[p].cap) == ObjectOf(src)
    requires Badge(ns[p].cap) == Badge(src) && (ns[p].cap.ReplyCap? <==> src.ReplyCap?)
    requires n.firstBadged == n.revocable == IsCapRevocable(n.cap, src)
    ensures InsertOk(ns, p, n)
  {
    if ObjectOf(n.cap) == NoObject {
      assert n.cap.UntypedCap?;
      assert forall k :: 0 <= k < |ns| ==> !SameObject(ns[k], n);
      assert forall k :: 0 <= k < |ns| && k != p ==> !Same(ns, p, k);
    } else {
      assert SameObject(ns[p], n);
    }
  }

  lemma CopyIsTwin(ns: seq<Node>, p: nat, c: Cap)
    requires NodesOk(ns) && p < |ns| && DerivedFrom(c, ns[p].cap)
    requires ns[p].cap.UntypedCap? ==> ns[p].cap.blockSize >= MIN_UNTYPED_BITS && !HasChildAt(ns, p)
    ensures
      var revocable := IsCapRevocable(c, ns[p].cap);
      Twin(ns[p := ns[p].(cap := UntypedAsFull(ns[p].cap, c))], p, Node(c, revocable, revocable, false))
  {
    var full := UntypedAsFull(ns[p].cap, c);
    var revocable := IsCapRevocable(c, ns[p].cap);
    var n := Node(c, revocable, revocable, false);
    var ns1 := ns[p := ns[p].(cap := full)];
    if IsPhysical(ns[p].cap) { assert RangeOk(ns[p].cap); }
    if ns[p].cap.UntypedCap? {
      FullFreePtr(ns[p].cap);
      NoChildMeansNothingAlive(ns, p);
      FillKeepsNodesOk(ns, p, c);
      forall j | p < j < |ns1|
        ensures !Contains(ns1, p, j)
      {
        assert !Contains(ns, p, j);
      }
      assert Base(c) == Base(full) && Bits(c) == Bits(full) && RangeOk(c);
      assert FreePtr(full) == End(full);
    } else if IsPhysical(ns[p].cap) {
      SameObjectSameRange(ns[p], n);
    }
  }
}
