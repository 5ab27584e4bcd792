/** The untyped allocator: decode_untyed_invocation and invoke_untyped_retype. */
module Untyped {
  import opened Config
  import opened Words
  import opened Caps
  import opened MdbNodes
  import opened Memory

  const RETYPE_FAN_OUT_LIMIT := 256

  datatype ObjectType =
    | UntypedObject | TcbObject | EndpointObject | NotificationObject | CapTableObject
    | GigaPageObject | NormalPageObject | MegaPageObject | PageTableObject

  /** get_object_size */
  function ObjectSize(t: ObjectType, userSize: nat): (r: nat) {
    match t
    case UntypedObject => userSize
    case TcbObject => TCB_BITS
    case EndpointObject => ENDPOINT_BITS
    case NotificationObject => NOTIFICATION_BITS
    case CapTableObject => SLOT_BITS + userSize
    case GigaPageObject => 30
    case NormalPageObject => 12
    case MegaPageObject => 21
    case PageTableObject => 12
  }

  /** create_object: the capability to a fresh object at address base. */
  function CreateObject(t: ObjectType, base: nat, userSize: nat, device: bool): (c: Cap)
    ensures IsPhysical(c) && c != NullCap && !c.ReplyCap?
  {
    match t
    case UntypedObject => UntypedCap(base, userSize, 0, device)
    case TcbObject => ThreadCap(base + TCB_OFFSET)
    case EndpointObject => EndpointCap(base, 0, true, true, true, true)
    case NotificationObject => NotificationCap(base, 0, true, true)
    case CapTableObject => CNodeCap(base, userSize, 0, 0)
    case GigaPageObject => FrameCap(base, GigaPage, device, ReadWrite, 0, 0)
    case NormalPageObject => FrameCap(base, SmallPage, device, ReadWrite, 0, 0)
    case MegaPageObject => FrameCap(base, MegaPage, device, ReadWrite, 0, 0)
    case PageTableObject => PageTableCap(base, false, 0, 0)
  }

  /** check_object_type and the size checks before it. */
  predicate TypeOk(t: ObjectType, userSize: nat) {
    && userSize < WORD_BITS && ObjectSize(t, userSize) <= MAX_UNTYPED_BITS
    && (t.CapTableObject? ==> userSize != 0)
    && (t.UntypedObject? ==> userSize >= MIN_UNTYPED_BITS)
  }

  /** The created capability covers exactly the memory the allocator reserved for it. */
  lemma CreatedRange(t: ObjectType, base: nat, userSize: nat, device: bool)
    requires TypeOk(t, userSize) && IsAligned(base, ObjectSize(t, userSize))
    ensures
      var c := CreateObject(t, base, userSize, device);
      Base(c) == base && Bits(c) == ObjectSize(t, userSize) && RangeOk(c) && ObjectSize(t, userSize) >= MIN_UNTYPED_BITS
  {
    if t.TcbObject? {
      Pow2Values();
      assert base % 1024 == 0;
      assert (base + 512) % 1024 == 512;
    }
  }

  /** The object that a type stands for, at an address. */
  function ObjectMade(t: ObjectType, base: nat, userSize: nat, device: bool): (o: ObjectId) {
    match t
    case UntypedObject => NoObject
    case TcbObject => ThreadId(base + TCB_OFFSET)
    case EndpointObject => EndpointId(base)
    case NotificationObject => NotificationId(base)
    case CapTableObject => CNodeId(base, userSize)
    case GigaPageObject => FrameId(base, GigaPage, device)
    case NormalPageObject => FrameId(base, SmallPage, device)
    case MegaPageObject => FrameId(base, MegaPage, device)
    case PageTableObject => PageTableId(base)
  }

  /** The first capability to an object: the greatest of all to it, with no badge, guard or mapping; an untyped with
      nothing allocated. */
  ghost predicate IsFresh(c: Cap, t: ObjectType, base: nat, userSize: nat, device: bool) {
    && ObjectOf(c) == ObjectMade(t, base, userSize, device) && Badge(c) == 0
    && (forall x :: ObjectOf(x) == ObjectOf(c) && ObjectOf(c) != NoObject ==> RightsWithin(x, c))
    && (t.UntypedObject? ==> c.UntypedCap? && c.ptr == base && c.blockSize == userSize && FreePtr(c) == base)
    && (c.UntypedCap? || c.FrameCap? ==> c.isDevice == device)
    && (c.CNodeCap? ==> c.guardSize == 0 && c.guard == 0)
    && (c.FrameCap? ==> c.mappedAsid == 0 && c.mappedAddress == 0)
    && (c.PageTableCap? ==> !c.isMapped && c.mappedAsid == 0 && c.mappedAddress == 0)
  }

  lemma CreatedIsFresh(t: ObjectType, base: nat, userSize: nat, device: bool)
    ensures IsFresh(CreateObject(t, base, userSize, device), t, base, userSize, device)
  {
    match t {
      case EndpointObject =>
      case NotificationObject =>
      case _ =>
    }
  }

  /** There is only one such capability. */
  lemma FreshIsUnique(c: Cap, d: Cap, t: ObjectType, base: nat, userSize: nat, device: bool)
    requires IsFresh(c, t, base, userSize, device) && IsFresh(d, t, base, userSize, device)
    ensures c == d
  {
    assert ObjectOf(c) != NoObject ==> RightsWithin(c, d) && RightsWithin(d, c);
  }

  datatype Request = Request(kind: ObjectType, userSize: nat, count: nat, device: bool)

  function Size(r: Request): (b: nat) {
    ObjectSize(r.kind, r.userSize)
  }

  /** The free index the allocator starts from: the stored one, or 0 after a reset. */
  function StartIndex(ns: seq<Node>, p: nat): (f: nat)
    requires p < |ns| && ns[p].cap.UntypedCap?
  {
    if HasChildAt(ns, p) then ns[p].cap.freeIndex else 0
  }

  /** The checks of decode_untyed_invocation that concern memory. */
  predicate RetypeOk(ns: seq<Node>, p: nat, r: Request)
    requires p < |ns|
  {
    && ns[p].cap.UntypedCap? && TypeOk(r.kind, r.userSize)
    && 1 <= r.count <= RETYPE_FAN_OUT_LIMIT
    && 16 * StartIndex(ns, p) <= Pow2(ns[p].cap.blockSize)
    && r.count <= (Pow2(ns[p].cap.blockSize) - 16 * StartIndex(ns, p)) / Pow2(Size(r))
  }

  /** All objects of the request fit into the block behind the allocation point. */
  predicate AllFit(ns: seq<Node>, p: nat, r: Request)
    requires p < |ns| && ns[p].cap.UntypedCap?
  {
    16 * StartIndex(ns, p) + r.count * Pow2(Size(r)) <= Pow2(ns[p].cap.blockSize)
  }

  /** The shift that compares free space with the request asks whether all objects together fit. */
  lemma SpaceIff(ns: seq<Node>, p: nat, r: Request)
    requires p < |ns| && ns[p].cap.UntypedCap? && TypeOk(r.kind, r.userSize)
    requires 16 * StartIndex(ns, p) <= Pow2(ns[p].cap.blockSize) && 1 <= r.count <= RETYPE_FAN_OUT_LIMIT
    ensures RetypeOk(ns, p, r) <==> AllFit(ns, p, r)
  {
    FitsIff(r.count, Pow2(ns[p].cap.blockSize) - 16 * StartIndex(ns, p), Pow2(Size(r)));
  }

  lemma FitsIff(n: nat, room: nat, p: nat)
    requires p > 0
    ensures n <= room / p <==> n * p <= room
  {
    var q := room / p;
    assert room == q * p + room % p;
    if n <= q { MulMonotone(n, q, p); }
    if n * p <= room { MultipleBound(n, q, p); }
  }

  /** alignUp(GET_FREE_REF(...), obj_size) */
  function RetypeBase(ns: seq<Node>, p: nat, r: Request): (b: nat)
    requires p < |ns| && ns[p].cap.UntypedCap?
  {
    AlignUp(ns[p].cap.ptr + 16 * StartIndex(ns, p), Size(r))
  }

  /** The source capability with the free index of invoke_untyped_retype. */
  function RetypedCap(ns: seq<Node>, p: nat, r: Request): (c: Cap)
    requires p < |ns| && ns[p].cap.UntypedCap?
  {
    var u := ns[p].cap;
    var freeRef := RetypeBase(ns, p, r) + r.count * Pow2(Size(r));
    UntypedCap(u.ptr, u.blockSize, if freeRef >= u.ptr then (freeRef - u.ptr) / 16 else 0, u.isDevice)
  }

  function ObjectBase(base: nat, r: Request, i: nat): (b: nat) {
    base + i * Pow2(Size(r))
  }

  function NewNode(base: nat, r: Request, i: nat): (n: Node) {
    Node(CreateObject(r.kind, ObjectBase(base, r, i), r.userSize, r.device), true, true, false)
  }

  /** create_new_objects: every object is inserted directly behind the untyped. */
  function AddObjects(ns: seq<Node>, p: nat, base: nat, r: Request, i: nat): (ns': seq<Node>)
    requires p < |ns|
    ensures |ns'| == |ns| + i
  {
    if i == 0 then ns else InsertNode(AddObjects(ns, p, base, r, i - 1), p, NewNode(base, r, i - 1))
  }

  function RetypeNodes(ns: seq<Node>, p: nat, r: Request): (ns': seq<Node>)
    requires p < |ns| && ns[p].cap.UntypedCap?
  {
    AddObjects(ns[p := ns[p].(cap := RetypedCap(ns, p, r))], p, RetypeBase(ns, p, r), r, r.count)
  }

  // ---- arithmetic ----

  /** The space check is made before alignment; still the aligned objects fit in the block. */
  lemma AlignedWindowFits(ptr: nat, blockBits: nat, offset: nat, size: nat, n: nat)
    requires IsAligned(ptr, blockBits) && offset <= Pow2(blockBits) && n >= 1
    requires n <= (Pow2(blockBits) - offset) / Pow2(size)
    ensures size <= blockBits
    ensures
      var b := AlignUp(ptr + offset, size);
      IsAligned(b, size) && ptr + offset <= b && b + n * Pow2(size) <= ptr + Pow2(blockBits)
  {
    WindowFitsUnaligned(Pow2(blockBits), offset, Pow2(size), n);
    Pow2Reflects(size, blockBits);
    MultipleOfMultiple(ptr, blockBits, size);
    Pow2Add(blockBits - size, size);
    MulNonNegative(Quot(ptr, Pow2(blockBits)), Pow2(blockBits - size));
    WindowInMultiples(ptr, Quot(ptr, Pow2(blockBits)) * Pow2(blockBits - size), Pow2(blockBits - size), offset,
      Pow2(size), n);
  }

  /** The same with the block given as q multiples of p from the m-th on. */
  lemma WindowInMultiples(ptr: nat, m: nat, q: nat, offset: nat, p: nat, n: nat)
    requires p >= 1 && ptr == m * p && offset + n * p <= q * p
    ensures
      var t := ptr + offset + p - 1;
      (t - t % p) % p == 0 && ptr + offset <= t - t % p && t - t % p + n * p <= ptr + q * p
  {
    MultiplesFit(ptr, m, q, offset, p, n);
    AlignLeast(ptr + offset, p, m + q - n);
  }

  lemma WindowFitsUnaligned(block: nat, offset: nat, p: nat, n: nat)
    requires p >= 1 && offset <= block && 1 <= n <= (block - offset) / p
    ensures offset + n * p <= block && p <= block
  {
    var room := block - offset;
    assert room == room / p * p + room % p;
    MulMonotone(n, room / p, p);
    MulMonotone(1, n, p);
  }

  lemma MultiplesFit(ptr: nat, m: nat, q: nat, offset: nat, p: nat, n: nat)
    requires p >= 1 && ptr == m * p && offset + n * p <= q * p
    ensures n <= q && ptr + offset <= (m + q - n) * p && (m + q - n) * p + n * p == ptr + q * p
  {
    MultipleBound(n, q, p);
    assert (m + q - n) * p == m * p + q * p - n * p;
  }

  lemma AlignedBy16(x: nat, bits: nat)
    requires bits >= 4 && IsAligned(x, bits)
    ensures x % 16 == 0
  {
    MultipleOfMultiple(x, bits, 4);
    Pow2Values();
  }

  // ---- retype keeps objects apart ----

  lemma ObjectAligned(base: nat, r: Request, i: nat)
    requires IsAligned(base, Size(r))
    ensures IsAligned(ObjectBase(base, r, i), Size(r))
    ensures ObjectBase(base, r, i) + Pow2(Size(r)) == ObjectBase(base, r, i + 1)
  {
    var p := Pow2(Size(r));
    var q := base / p;
    assert base == q * p;
    assert (q + i) * p == q * p + i * p;
    assert (i + 1) * p == i * p + p;
    ModOfMultiple(q + i, p);
  }

  /** After i objects of the request: the invariant, and everything in the block ends below the
      address of object i. */
  ghost predicate Filled(ns: seq<Node>, p: nat, u: Cap, bound: nat) {
    && p < |ns| && MemOk(ns) && MdbOk(ns) && ns[p].cap == u
    && forall j :: p < j < |ns| && Contains(ns, p, j) ==> End(ns[j].cap) <= bound
  }

  lemma AddOneObject(ns: seq<Node>, p: nat, u: Cap, base: nat, r: Request, i: nat)
    requires u.UntypedCap? && Filled(ns, p, u, ObjectBase(base, r, i)) && TypeOk(r.kind, r.userSize)
    requires IsAligned(base, Size(r)) && u.ptr <= base && ObjectBase(base, r, i + 1) <= FreePtr(u)
    ensures Filled(InsertNode(ns, p, NewNode(base, r, i)), p, u, ObjectBase(base, r, i + 1))
  {
    var bound := ObjectBase(base, r, i);
    ObjectAligned(base, r, i);
    ObjectEnds(base, r, i);
    CreatedRange(r.kind, bound, r.userSize, r.device);
    assert RangeOk(ns[p].cap);
    NewObjectCarved(ns, p, u, NewNode(base, r, i).cap, bound, ObjectBase(base, r, i + 1));
    AddCarved(ns, p, u, NewNode(base, r, i), bound, ObjectBase(base, r, i + 1));
  }

  /** Object i ends where object i + 1 starts. */
  lemma ObjectEnds(base: nat, r: Request, i: nat)
    ensures ObjectBase(base, r, i + 1) == ObjectBase(base, r, i) + Pow2(Size(r)) && base <= ObjectBase(base, r, i)
  {
    assert (i + 1) * Pow2(Size(r)) == i * Pow2(Size(r)) + Pow2(Size(r));
    MulNonNegative(i, Pow2(Size(r)));
  }

  lemma NewObjectCarved(ns: seq<Node>, p: nat, u: Cap, c: Cap, bound: nat, end: nat)
    requires u.UntypedCap? && Filled(ns, p, u, bound) && RangeOk(u) && IsPhysical(c) && RangeOk(c)
    requires Base(c) == bound && End(c) == end && u.ptr <= bound && end <= FreePtr(u)
    ensures Carved(ns, p, c, bound)
  {
  }

  /** Inserting an object that starts at bound and ends at end. */
  lemma AddCarved(ns: seq<Node>, p: nat, u: Cap, n: Node, bound: nat, end: nat)
    requires u.UntypedCap? && Filled(ns, p, u, bound) && Carved(ns, p, n.cap, bound) && n.revocable && n.firstBadged
    requires !n.cap.ReplyCap? && End(n.cap) <= end && bound <= end
    ensures Filled(InsertNode(ns, p, n), p, u, end)
  {
    var ns' := InsertNode(ns, p, n);
    CarveKeepsMemOk(ns, p, n, bound);
    CarvedIsFresh(ns, p, n, bound);
    assert InsertOk(ns, p, n);
    InsertKeepsMdbOk(ns, p, n);
    forall j | p < j < |ns'| && Contains(ns', p, j)
      ensures End(ns'[j].cap) <= end
    {
      if j != p + 1 { InsertTransport(ns, p, n, p, j); assert Contains(ns, p, j - 1); }
    }
  }

  lemma {:induction false} AddObjectsFilled(ns: seq<Node>, p: nat, u: Cap, base: nat, r: Request, i: nat)
    requires u.UntypedCap? && Filled(ns, p, u, base) && TypeOk(r.kind, r.userSize)
    requires IsAligned(base, Size(r)) && u.ptr <= base && ObjectBase(base, r, i) <= FreePtr(u)
    ensures Filled(AddObjects(ns, p, base, r, i), p, u, ObjectBase(base, r, i))
  {
    if i == 0 {
      assert ObjectBase(base, r, 0) == base;
    } else {
      ObjectEnds(base, r, i - 1);
      AddObjectsFilled(ns, p, u, base, r, i - 1);
      var before := AddObjects(ns, p, base, r, i - 1);
      AddOneObject(before, p, u, base, r, i - 1);
      assert AddObjects(ns, p, base, r, i) == InsertNode(before, p, NewNode(base, r, i - 1));
    }
  }

  /** Where the request is placed: aligned, at or above the allocation point, inside the block;
      and the new free index points exactly behind the last object. */
  lemma RetypePlacement(ns: seq<Node>, p: nat, r: Request)
    requires MemOk(ns) && p < |ns| && RetypeOk(ns, p, r)
    ensures
      var u, b := ns[p].cap, RetypeBase(ns, p, r);
      && IsAligned(b, Size(r)) && u.ptr + 16 * StartIndex(ns, p) <= b
      && (forall x: nat :: IsAligned(x, Size(r)) && u.ptr + 16 * StartIndex(ns, p) <= x ==> b <= x)
      && ObjectBase(b, r, r.count) <= End(u)
      && RetypedCap(ns, p, r) == u.(freeIndex := RetypedCap(ns, p, r).freeIndex)
      && FreePtr(RetypedCap(ns, p, r)) == ObjectBase(b, r, r.count)
  {
    assert RangeOk(ns[p].cap);
    PlacementArithmetic(ns[p].cap, StartIndex(ns, p), r);
    var low := ns[p].cap.ptr + 16 * StartIndex(ns, p);
    forall x: nat | IsAligned(x, Size(r)) && low <= x
      ensures AlignUp(low, Size(r)) <= x
    {
      NoneBetween(low, Size(r), x);
    }
  }

  lemma NoneBetween(low: nat, bits: nat, x: nat)
    requires IsAligned(x, bits) && low <= x
    ensures AlignUp(low, bits) <= x
  {
    var p := Pow2(bits);
    assert x == Quot(x, p) * p;
    AlignLeast(low, p, Quot(x, p));
  }

  lemma PlacementArithmetic(u: Cap, start: nat, r: Request)
    requires u.UntypedCap? && IsAligned(u.ptr, u.blockSize) && u.blockSize >= MIN_UNTYPED_BITS
    requires TypeOk(r.kind, r.userSize) && r.count >= 1
    requires 16 * start <= Pow2(u.blockSize) && r.count <= (Pow2(u.blockSize) - 16 * start) / Pow2(Size(r))
    ensures
      var b := AlignUp(u.ptr + 16 * start, Size(r));
      var freeRef := b + r.count * Pow2(Size(r));
      && IsAligned(b, Size(r)) && u.ptr + 16 * start <= b
      && freeRef <= u.ptr + Pow2(u.blockSize)
      && u.ptr <= freeRef && u.ptr + 16 * ((freeRef - u.ptr) / 16) == freeRef
  {
    AlignedWindowFits(u.ptr, u.blockSize, 16 * start, Size(r), r.count);
    WholeSixteenths(u.ptr, u.blockSize, AlignUp(u.ptr + 16 * start, Size(r)), Size(r), r.count);
  }

  lemma WholeSixteenths(ptr: nat, blockBits: nat, b: nat, size: nat, n: nat)
    requires IsAligned(ptr, blockBits) && blockBits >= 4 && IsAligned(b, size) && size >= 4 && ptr <= b
    ensures ptr <= b + n * Pow2(size) && ptr + 16 * ((b + n * Pow2(size) - ptr) / 16) == b + n * Pow2(size)
  {
    AlignedBy16(b, size);
    AlignedBy16(ptr, blockBits);
    ModOfMultiple(n, Pow2(size));
    AlignedBy16(n * Pow2(size), size);
    Exact16(ptr, b, n * Pow2(size));
  }

  lemma Exact16(ptr: nat, b: nat, t: nat)
    requires ptr <= b && ptr % 16 == 0 && b % 16 == 0 && t % 16 == 0
    ensures ptr <= b + t && ptr + 16 * ((b + t - ptr) / 16) == b + t
  {}

  /** Retype keeps the mapping database and the separation of objects intact. */
  lemma RetypeKeeps(ns: seq<Node>, p: nat, r: Request)
    requires MemOk(ns) && MdbOk(ns) && p < |ns| && RetypeOk(ns, p, r)
    ensures MemOk(RetypeNodes(ns, p, r)) && MdbOk(RetypeNodes(ns, p, r))
  {
    var c, b := RetypedCap(ns, p, r), RetypeBase(ns, p, r);
    RetypePlacement(ns, p, r);
    NoChildMeansNothingAlive(ns, p);
    forall j | p < j < |ns| && Contains(ns, p, j)
      ensures End(ns[j].cap) <= b <= FreePtr(c)
    {
      assert Below(ns, p, j);
      MulNonNegative(r.count, Pow2(Size(r)));
    }
    SetFreeKeepsMemOk(ns, p, c);
    RewriteKeepsMdbOk(ns, p, c);
    AddObjectsFilled(ns[p := ns[p].(cap := c)], p, c, b, r, r.count);
  }

  /** The allocation pointer moves up while anything allocated is alive, and restarts at the
      bottom of the block exactly when nothing is. */
  lemma FreePointerDiscipline(ns: seq<Node>, p: nat, r: Request)
    requires MemOk(ns) && p < |ns| && RetypeOk(ns, p, r)
    ensures (exists j :: p < j < |ns| && Contains(ns, p, j)) ==>
      ns[p].cap.freeIndex < RetypedCap(ns, p, r).freeIndex
    ensures StartIndex(ns, p) ==
      if exists j :: p < j < |ns| && Contains(ns, p, j) then ns[p].cap.freeIndex else 0
  {
    RetypePlacement(ns, p, r);
    NoChildMeansNothingAlive(ns, p);
    MulMonotone(1, r.count, Pow2(Size(r)));
  }
}
