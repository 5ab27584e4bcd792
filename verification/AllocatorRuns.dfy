/** Every state that retype, copy, rewriting and deletion can reach from one untyped capability. */
module AllocatorRuns {
  import opened Config
  import opened Words
  import opened Caps
  import opened MdbNodes
  import opened Memory
  import opened Untyped

  datatype Op =
    | Retype(p: nat, r: Request)      // decode_untyed_invocation accepted
    | Copy(p: nat, c: Cap)            // copy or mint: cte_insert of a derived capability
    | Rewrite(i: nat, c: Cap)         // move, mutate, map: same object, new data or new slot
    | Retire(i: nat, z: Cap)          // finaliseCap turns the last CNode or thread capability into a zombie
    | Delete(i: nat)                  // set_empty

  ghost predicate Allowed(ns: seq<Node>, op: Op) {
    match op
    case Retype(p, r) => p < |ns| && RetypeOk(ns, p, r)
    case Copy(p, c) =>
      && p < |ns| && DerivedFrom(c, ns[p].cap) && !c.IrqControlCap?
      && (ns[p].cap.UntypedCap? ==> ns[p].cap.blockSize >= MIN_UNTYPED_BITS && !HasChildAt(ns, p))
    case Rewrite(i, c) => i < |ns| && Rewritable(ns[i].cap, c)
    case Retire(i, z) => i < |ns| && IsZombieOf(z, ns[i].cap) && FinalByNeighbours(ns, i)
    case Delete(i) => i < |ns|
  }

  ghost function Apply(ns: seq<Node>, op: Op): (ns': seq<Node>)
    requires Allowed(ns, op)
  {
    match op
    case Retype(p, r) => RetypeNodes(ns, p, r)
    case Copy(p, c) => CopyNodes(ns, p, c)
    case Rewrite(i, c) => ns[i := ns[i].(cap := c)]
    case Retire(i, z) => ns[i := ns[i].(cap := z)]
    case Delete(i) => RemoveNode(ns, i)
  }

  /** All memory in use lies in one block. */
  ghost predicate WithinBlock(ns: seq<Node>, lo: nat, hi: nat) {
    forall i :: 0 <= i < |ns| && IsPhysical(ns[i].cap) ==> lo <= Base(ns[i].cap) && End(ns[i].cap) <= hi
  }

  /** The state right after boot handed out a single untyped block. */
  ghost predicate OneUntyped(ns: seq<Node>, u: Cap) {
    u.UntypedCap? && RangeOk(u) && ns == [Node(u, true, true, false)]
  }

  ghost predicate SafeState(ns: seq<Node>, lo: nat, hi: nat) {
    NodesOk(ns) && WithinBlock(ns, lo, hi)
  }

  lemma StartIsSafe(ns: seq<Node>, u: Cap)
    requires OneUntyped(ns, u)
    ensures SafeState(ns, u.ptr, End(u))
  {
    assert Grouped(ns) && BadgeMarked(ns) && ReplyTail(ns);
    assert RangesOk(ns) && Separated(ns) && RunsBehind(ns) && EarlierIsAncestor(ns) && BelowFree(ns);
  }

  lemma {:induction false} AddObjectsWithin(ns: seq<Node>, p: nat, base: nat, r: Request, i: nat, lo: nat, hi: nat)
    requires p < |ns| && WithinBlock(ns, lo, hi) && lo <= base && ObjectBase(base, r, i) <= hi
    requires TypeOk(r.kind, r.userSize) && IsAligned(base, Size(r))
    ensures WithinBlock(AddObjects(ns, p, base, r, i), lo, hi)
  {
    if i > 0 {
      ObjectAligned(base, r, i - 1);
      ObjectEnds(base, r, i - 1);
      AddObjectsWithin(ns, p, base, r, i - 1, lo, hi);
      CreatedRange(r.kind, ObjectBase(base, r, i - 1), r.userSize, r.device);
    }
  }

  lemma RetypeWithin(ns: seq<Node>, p: nat, r: Request, lo: nat, hi: nat)
    requires SafeState(ns, lo, hi) && p < |ns| && RetypeOk(ns, p, r)
    ensures WithinBlock(RetypeNodes(ns, p, r), lo, hi)
  {
    RetypePlacement(ns, p, r);
    AddObjectsWithin(ns[p := ns[p].(cap := RetypedCap(ns, p, r))], p, RetypeBase(ns, p, r), r, r.count, lo, hi);
  }

  lemma CopyWithin(ns: seq<Node>, p: nat, c: Cap, lo: nat, hi: nat)
    requires SafeState(ns, lo, hi) && Allowed(ns, Copy(p, c))
    ensures WithinBlock(CopyNodes(ns, p, c), lo, hi)
  {
    CopyIsTwin(ns, p, c);
  }

  lemma StepWithin(ns: seq<Node>, op: Op, lo: nat, hi: nat)
    requires SafeState(ns, lo, hi) && Allowed(ns, op)
    ensures WithinBlock(Apply(ns, op), lo, hi)
  {
    match op {
      case Retype(p, r) => RetypeWithin(ns, p, r, lo, hi);
      case Copy(p, c) => CopyWithin(ns, p, c, lo, hi);
      case Rewrite(i, c) =>
      case Retire(i, z) =>
      case Delete(i) =>
    }
  }

  /** One operation. */
  lemma StepKeepsSafe(ns: seq<Node>, op: Op, lo: nat, hi: nat)
    requires SafeState(ns, lo, hi) && Allowed(ns, op)
    ensures SafeState(Apply(ns, op), lo, hi)
  {
    StepWithin(ns, op, lo, hi);
    match op {
      case Retype(p, r) => RetypeKeeps(ns, p, r);
      case Copy(p, c) => CopyKeepsNodesOk(ns, p, c);
      case Rewrite(i, c) => RewriteKeepsNodesOk(ns, i, c);
      case Retire(i, z) =>
        FinalIsGlobal(ns, i);
        RetireKeepsNodesOk(ns, i, z);
      case Delete(i) => RemoveKeepsNodesOk(ns, i);
    }
  }

  /** A run: each operation is allowed in the state it meets. */
  ghost predicate Legal(ns: seq<Node>, ops: seq<Op>)
    decreases |ops|
  {
    ops == [] || (Allowed(ns, ops[0]) && Legal(Apply(ns, ops[0]), ops[1..]))
  }

  ghost function Run(ns: seq<Node>, ops: seq<Op>): (ns': seq<Node>)
    requires Legal(ns, ops)
    decreases |ops|
  {
    if ops == [] then ns else Run(Apply(ns, ops[0]), ops[1..])
  }

  lemma {:induction false} RunKeepsSafe(ns: seq<Node>, ops: seq<Op>, lo: nat, hi: nat)
    requires SafeState(ns, lo, hi) && Legal(ns, ops)
    ensures SafeState(Run(ns, ops), lo, hi)
    decreases |ops|
  {
    if ops != [] {
      StepKeepsSafe(ns, ops[0], lo, hi);
      RunKeepsSafe(Apply(ns, ops[0]), ops[1..], lo, hi);
    }
  }

  /** In every reachable state, live objects are aligned to their size and inside the block, and
      two live objects overlap only if they are the same or one is an untyped containing the
      other; what lies inside an untyped and comes after it is below its free pointer. */
  lemma ReachableObjectsAreSafe(start: seq<Node>, u: Cap, ops: seq<Op>)
    requires OneUntyped(start, u) && Legal(start, ops)
    ensures
      var ns := Run(start, ops);
      && (forall i :: 0 <= i < |ns| && IsPhysical(ns[i].cap) ==>
            IsAligned(Base(ns[i].cap), Bits(ns[i].cap)) && u.ptr <= Base(ns[i].cap) && End(ns[i].cap) <= End(u))
      && (forall i, j :: 0 <= i < |ns| && 0 <= j < |ns| && i != j && IsPhysical(ns[i].cap) && IsPhysical(ns[j].cap) ==>
            || Disjoint(ns[i].cap, ns[j].cap) || SameObjectAs(ns[i].cap, ns[j].cap)
            || (ns[i].cap.UntypedCap? && Inside(ns[j].cap, ns[i].cap))
            || (ns[j].cap.UntypedCap? && Inside(ns[i].cap, ns[j].cap)))
      && (forall i,
        j :: 0 <= i < j < |ns| && ns[i].cap.UntypedCap? && IsPhysical(ns[j].cap) && Inside(ns[j].cap, ns[i].cap) ==>
            End(ns[j].cap) <= FreePtr(ns[i].cap))
  {
    StartIsSafe(start, u);
    RunKeepsSafe(start, ops, u.ptr, End(u));
    var ns := Run(start, ops);
    forall i, j | 0 <= i < |ns| && 0 <= j < |ns| && i != j && IsPhysical(ns[i].cap) && IsPhysical(ns[j].cap)
      ensures Disjoint(ns[i].cap, ns[j].cap) || SameObjectAs(ns[i].cap, ns[j].cap)
        || (ns[i].cap.UntypedCap? && Inside(ns[j].cap, ns[i].cap))
        || (ns[j].cap.UntypedCap? && Inside(ns[i].cap, ns[j].cap))
    {
      assert Apart(ns, i, j);
      SameObjectIsSameId(ns[i].cap, ns[j].cap);
    }
    forall i, j | 0 <= i < j < |ns| && ns[i].cap.UntypedCap? && IsPhysical(ns[j].cap) && Inside(ns[j].cap, ns[i].cap)
      ensures End(ns[j].cap) <= FreePtr(ns[i].cap)
    {
      assert Below(ns, i, j);
    }
  }
}
