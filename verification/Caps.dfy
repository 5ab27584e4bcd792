/** Capabilities of the RISC-V build and the pure comparisons on them (sel4_cspace/src/cap/mod.rs,
    sel4_cspace/src/arch/riscv64/mod.rs). */
module Caps {
  import opened Config
  import opened Words

  datatype FrameSize = SmallPage | MegaPage | GigaPage

  datatype VmRights = KernelOnly | ReadOnly | ReadWrite

  /** What a zombie was before: a TCB's five slots, or a CNode with 2^radix slots. */
  datatype ZombieKind = ZombieTcb | ZombieCNode(radix: nat)

  datatype Cap =
    | NullCap
    | UntypedCap(ptr: nat, blockSize: nat, freeIndex: nat, isDevice: bool)
    | EndpointCap(ptr: nat, badge: nat, canSend: bool, canReceive: bool, canGrant: bool, canGrantReply: bool)
    | NotificationCap(ptr: nat, badge: nat, canSend: bool, canReceive: bool)
    | ReplyCap(tcb: nat, master: bool, canGrant: bool)
    | CNodeCap(ptr: nat, radix: nat, guard: nat, guardSize: nat)
    | ThreadCap(ptr: nat)
    | IrqControlCap
    | IrqHandlerCap(irq: nat)
    | ZombieCap(ptr: nat, number: nat, kind: ZombieKind)
    | DomainCap
    | FrameCap(ptr: nat, size: FrameSize, isDevice: bool, rights: VmRights, mappedAsid: nat, mappedAddress: nat)
    | PageTableCap(ptr: nat, isMapped: bool, mappedAsid: nat, mappedAddress: nat)
    | AsidControlCap
    | AsidPoolCap(ptr: nat, asidBase: nat)

  predicate IsArchCap(c: Cap) {
    c.FrameCap? || c.PageTableCap? || c.AsidControlCap? || c.AsidPoolCap?
  }

  function PageBits(s: FrameSize): (r: nat) {
    match s
    case SmallPage => 12
    case MegaPage => 21
    case GigaPage => 30
  }

  /** get_cap_is_physical. */
  predicate IsPhysical(c: Cap) {
    c.UntypedCap? || c.EndpointCap? || c.NotificationCap? || c.CNodeCap? || c.FrameCap?
    || c.AsidPoolCap? || c.PageTableCap? || c.ZombieCap? || c.ThreadCap?
  }

  /** get_cap_size_bits: threads, frames, ASID pools and zombies report 0. */
  function CapSizeBits(c: Cap): (r: nat) {
    match c
    case UntypedCap(_, blockSize, _, _) => blockSize
    case EndpointCap(_, _, _, _, _, _) => ENDPOINT_BITS
    case NotificationCap(_, _, _, _) => NOTIFICATION_BITS
    case CNodeCap(_, radix, _, _) => radix + SLOT_BITS
    case PageTableCap(_, _, _, _) => PAGE_TABLE_BITS
    case ReplyCap(_, _, _) => 4
    case _ => 0
  }

  /** same_region_as. */
  predicate SameRegionAs(c1: Cap, c2: Cap) {
    match c1
    case UntypedCap(ptr, blockSize, _, _) =>
      IsPhysical(c2) && ptr <= c2.ptr && c2.ptr + Pow2(CapSizeBits(c2)) - 1 <= ptr + Pow2(blockSize) - 1
    case EndpointCap(ptr, _, _, _, _, _) => c2.EndpointCap? && ptr == c2.ptr
    case NotificationCap(ptr, _, _, _) => c2.NotificationCap? && ptr == c2.ptr
    case PageTableCap(ptr, _, _, _) => c2.PageTableCap? && ptr == c2.ptr
    case AsidPoolCap(ptr, _) => c2.AsidPoolCap? && ptr == c2.ptr
    case ThreadCap(ptr) => c2.ThreadCap? && ptr == c2.ptr
    case AsidControlCap => c2.AsidControlCap?
    case DomainCap => c2.DomainCap?
    case CNodeCap(ptr, radix, _, _) => c2.CNodeCap? && ptr == c2.ptr && radix == c2.radix
    case IrqControlCap => c2.IrqControlCap? || c2.IrqHandlerCap?
    case IrqHandlerCap(irq) => c2.IrqHandlerCap? && irq == c2.irq
    case _ => false
  }

  /** arch_same_region_as, called only on two architecture caps. */
  predicate ArchSameRegionAs(c1: Cap, c2: Cap) {
    match c1
    case FrameCap(ptr, size, _, _, _, _) =>
      c2.FrameCap? && ptr <= c2.ptr && c2.ptr + Pow2(PageBits(c2.size)) - 1 <= ptr + Pow2(PageBits(size)) - 1
    case PageTableCap(ptr, _, _, _) => c2.PageTableCap? && ptr == c2.ptr
    case AsidControlCap => c2.AsidControlCap?
    case AsidPoolCap(ptr, _) => c2.AsidPoolCap? && ptr == c2.ptr
    case _ => false
  }

  predicate ArchSameObjectAs(c1: Cap, c2: Cap) {
    if c1.FrameCap? && c2.FrameCap? then
      c1.ptr == c2.ptr && c1.size == c2.size && c1.isDevice == c2.isDevice
    else
      ArchSameRegionAs(c1, c2)
  }

  /** same_object_as. */
  predicate SameObjectAs(c1: Cap, c2: Cap) {
    if c1.UntypedCap? then false
    else if c1.IrqControlCap? && c2.IrqHandlerCap? then false
    else if IsArchCap(c1) && IsArchCap(c2) then ArchSameObjectAs(c1, c2)
    else SameRegionAs(c1, c2)
  }

  /** The kernel object a capability names; NoObject for capabilities that `same_object_as`
      never identifies with anything (null, untyped, reply and zombie capabilities). */
  datatype ObjectId =
    | NoObject
    | EndpointId(ptr: nat)
    | NotificationId(ptr: nat)
    | CNodeId(ptr: nat, radix: nat)
    | ThreadId(ptr: nat)
    | DomainId
    | IrqControlId
    | IrqHandlerId(irq: nat)
    | FrameId(ptr: nat, size: FrameSize, isDevice: bool)
    | PageTableId(ptr: nat)
    | AsidControlId
    | AsidPoolId(ptr: nat)

  function ObjectOf(c: Cap): (r: ObjectId) {
    match c
    case EndpointCap(ptr, _, _, _, _, _) => EndpointId(ptr)
    case NotificationCap(ptr, _, _, _) => NotificationId(ptr)
    case CNodeCap(ptr, radix, _, _) => CNodeId(ptr, radix)
    case ThreadCap(ptr) => ThreadId(ptr)
    case DomainCap => DomainId
    case IrqControlCap => IrqControlId
    case IrqHandlerCap(irq) => IrqHandlerId(irq)
    case FrameCap(ptr, size, isDevice, _, _, _) => FrameId(ptr, size, isDevice)
    case PageTableCap(ptr, _, _, _) => PageTableId(ptr)
    case AsidControlCap => AsidControlId
    case AsidPoolCap(ptr, _) => AsidPoolId(ptr)
    case _ => NoObject
  }

  /** The pairwise comparison is equality of named objects; so it is symmetric and transitive,
      which the two-neighbour test of is_final_cap silently relies on. */
  lemma SameObjectIsSameId(c1: Cap, c2: Cap)
    ensures SameObjectAs(c1, c2) <==> ObjectOf(c1) == ObjectOf(c2) && ObjectOf(c1) != NoObject
  {
    match c1 {
      case FrameCap(_, _, _, _, _, _) =>
      case _ =>
    }
  }

  /** is_cap_revocable. The source asserts that an endpoint or notification capability is only
      derived from one of the same type. */
  predicate IsCapRevocable(derived: Cap, src: Cap)
    requires derived.EndpointCap? ==> src.EndpointCap?
    requires derived.NotificationCap? ==> src.NotificationCap?
  {
    match derived
    case EndpointCap(_, badge, _, _, _, _) => badge != src.badge
    case NotificationCap(_, badge, _, _) => badge != src.badge
    case IrqHandlerCap(_) => src.IrqControlCap?
    case UntypedCap(_, _, _, _) => true
    case _ => false
  }

  /** MAX_FREE_INDEX. */
  function MaxFreeIndex(bits: nat): (r: nat)
    requires bits >= MIN_UNTYPED_BITS
  {
    Pow2(bits - MIN_UNTYPED_BITS)
  }

  /** update_data; the guard word carries the guard size in its low six bits. */
  function UpdateData(c: Cap, preserve: bool, newData: nat): (r: Cap) {
    match c
    case EndpointCap(ptr, badge, s, r, g, gr) =>
      if !preserve && badge == 0 then EndpointCap(ptr, newData, s, r, g, gr) else NullCap
    case NotificationCap(ptr, badge, s, r) =>
      if !preserve && badge == 0 then NotificationCap(ptr, newData, s, r) else NullCap
    case CNodeCap(_, radix, _, _) =>
      var guardSize := newData % 64;
      if guardSize + radix > WORD_BITS then NullCap
      else CNodeCap(c.ptr, radix, newData / 64 % Pow2(guardSize), guardSize)
    case _ => c
  }

  datatype Rights = Rights(allowWrite: bool, allowRead: bool, allowGrant: bool, allowGrantReply: bool)

  function MaskVmRights(v: VmRights, r: Rights): (m: VmRights) {
    if v.ReadOnly? && r.allowRead then ReadOnly
    else if v.ReadWrite? && r.allowRead then (if r.allowWrite then ReadWrite else ReadOnly)
    else KernelOnly
  }

  /** mask_cap_rights. */
  function MaskCapRights(r: Rights, c: Cap): (m: Cap) {
    match c
    case EndpointCap(ptr, badge, canSend, canReceive, canGrant, canGrantReply) =>
      EndpointCap(ptr, badge, canSend && r.allowWrite, canReceive && r.allowRead,
                  canGrant && r.allowGrant, canGrantReply && r.allowGrantReply)
    case NotificationCap(ptr, badge, canSend, canReceive) =>
      NotificationCap(ptr, badge, canSend && r.allowWrite, canReceive && r.allowRead)
    case ReplyCap(tcb, master, canGrant) => ReplyCap(tcb, master, canGrant && r.allowGrant)
    case FrameCap(ptr, size, isDevice, rights, asid, addr) =>
      FrameCap(ptr, size, isDevice, MaskVmRights(rights, r), asid, addr)
    case _ => c
  }

  /** derive_cap: None is the error status; noChildren is the answer of ensure_no_children. */
  function DeriveCap(c: Cap, noChildren: bool): (r: Option<Cap>) {
    match c
    case PageTableCap(_, isMapped, _, _) => if isMapped then Some(c) else None
    case FrameCap(ptr, size, isDevice, rights, _, _) => Some(FrameCap(ptr, size, isDevice, rights, 0, 0))
    case ZombieCap(_, _, _) => Some(NullCap)
    case UntypedCap(_, _, _, _) => if noChildren then Some(c) else None
    case ReplyCap(_, _, _) => Some(NullCap)
    case IrqControlCap => Some(NullCap)
    case _ => Some(c)
  }

  datatype Option<T> = None | Some(value: T) {
    function GetOr(other: T): (v: T) {
      if Some? then value else other
    }
  }

  /** A capability that copying or minting puts next to its source. */
  predicate DerivedFrom(derived: Cap, src: Cap) {
    && (derived.UntypedCap? <==> src.UntypedCap?)
    && (derived.UntypedCap? ==> derived == src)
    && ObjectOf(derived) == ObjectOf(src)
    && (derived.EndpointCap? || derived.NotificationCap? ==> derived.badge == src.badge || src.badge == 0)
    && !derived.ReplyCap? && !derived.ZombieCap? && !derived.NullCap?
  }

  predicate VmRightsWithin(v: VmRights, w: VmRights) {
    v.KernelOnly? || v == w || w.ReadWrite?
  }

  /** Every right that c carries is one that src carries. */
  predicate RightsWithin(c: Cap, src: Cap) {
    match c
    case EndpointCap(_, _, s, r, g, gr) =>
      src.EndpointCap? && (s ==> src.canSend) && (r ==> src.canReceive) && (g ==> src.canGrant)
        && (gr ==> src.canGrantReply)
    case NotificationCap(_, _, s, r) => src.NotificationCap? && (s ==> src.canSend) && (r ==> src.canReceive)
    case FrameCap(_, _, _, rights, _, _) => src.FrameCap? && VmRightsWithin(rights, src.rights)
    case _ => true
  }

  /** Every right that c carries is one that was asked for; a frame can be written only if it can be read. */
  predicate RightsAsked(c: Cap, r: Rights) {
    match c
    case EndpointCap(_, _, send, receive, grant, grantReply) =>
      && (send ==> r.allowWrite) && (receive ==> r.allowRead)
      && (grant ==> r.allowGrant) && (grantReply ==> r.allowGrantReply)
    case NotificationCap(_, _, send, receive) => (send ==> r.allowWrite) && (receive ==> r.allowRead)
    case FrameCap(_, _, _, rights, _, _) =>
      (rights != KernelOnly ==> r.allowRead) && (rights == ReadWrite ==> r.allowWrite)
    case _ => true
  }

  /** c is the greatest capability to src's object within both src and what was asked for. */
  ghost predicate GreatestWithin(c: Cap, src: Cap, r: Rights) {
    && ObjectOf(c) == ObjectOf(src) && RightsWithin(c, src) && RightsAsked(c, r)
    && forall x :: ObjectOf(x) == ObjectOf(src) && RightsWithin(x, src) && RightsAsked(x, r) ==> RightsWithin(x, c)
  }

  /** What else a copy or mint carries: the badge or guard asked for, no mapping of a frame. */
  ghost predicate Labelled(c: Cap, src: Cap, mint: Option<nat>) {
    match src
    case EndpointCap(_, badge, _, _, _, _) => c.EndpointCap? && c.badge == mint.GetOr(badge)
    case NotificationCap(_, badge, _, _) => c.NotificationCap? && c.badge == mint.GetOr(badge)
    case FrameCap(_, _, _, _, _, _) => c.FrameCap? && c.mappedAsid == 0 && c.mappedAddress == 0
    case CNodeCap(_, _, guard, guardSize) =>
      c.CNodeCap? && if mint.None? then c == src else GuardFrom(c.guard, c.guardSize, mint.value)
    case _ => c == src
  }

  /** The word carries the guard's size in its low six bits and the guard above them. */
  ghost predicate GuardFrom(guard: nat, guardSize: nat, word: nat) {
    guardSize == word % 64 && IsLowPart(word / 64, Pow2(guardSize), guard)
  }

  ghost predicate IsLowPart(w: nat, p: nat, low: nat) {
    low < p && exists high: nat :: Above(w, high, p, low)
  }

  /** w is made of high and low parts at the power p. */
  predicate Above(w: nat, high: nat, p: nat, low: nat) {
    w == high * p + low
  }

  /** What may be copied or minted: a mapped page table, an untyped without children; a badge is set once; a guard must
      leave room for the index. Replies, zombies and IRQ control stay where they are. */
  predicate MayDerive(src: Cap, mint: Option<nat>, noChildren: bool) {
    match src
    case UntypedCap(_, _, _, _) => noChildren
    case PageTableCap(_, isMapped, _, _) => isMapped
    case EndpointCap(_, badge, _, _, _, _) => mint.Some? ==> badge == 0
    case NotificationCap(_, badge, _, _) => mint.Some? ==> badge == 0
    case CNodeCap(_, radix, _, _) => mint.Some? ==> mint.value % 64 + radix <= WORD_BITS
    case _ => !src.NullCap? && !src.ReplyCap? && !src.ZombieCap? && !src.IrqControlCap?
  }

  /** What copy (mint = None) and mint put into the destination: mask, write data, derive. */
  function Derivation(src: Cap, rights: Rights, mint: Option<nat>, noChildren: bool): (d: Option<Cap>) {
    var masked := MaskCapRights(rights, src);
    DeriveCap(if mint.Some? then UpdateData(masked, false, mint.value) else masked, noChildren)
  }

  /** A derivation succeeds exactly for what may be derived. It then names the source's object with the greatest rights
      within both the source and the request, carries the badge or guard asked for, keeps a badge that is already set,
      and is never a reply, zombie or IRQ-control capability. */
  lemma CopyAndMintDerive(src: Cap, rights: Rights, mint: Option<nat>, noChildren: bool)
    ensures
      var d := Derivation(src, rights, mint, noChildren);
      && (d.Some? && d.value != NullCap <==> MayDerive(src, mint, noChildren))
      && (MayDerive(src, mint, noChildren) ==>
            && DerivedFrom(d.value, src) && !d.value.IrqControlCap?
            && GreatestWithin(d.value, src, rights) && Labelled(d.value, src, mint))
  {
    DerivesIff(src, rights, mint, noChildren);
    if MayDerive(src, mint, noChildren) { DerivesGreatest(src, rights, mint); }
  }

  lemma DerivesIff(src: Cap, rights: Rights, mint: Option<nat>, noChildren: bool)
    ensures
      var d := Derivation(src, rights, mint, noChildren);
      && (d.Some? && d.value != NullCap <==> MayDerive(src, mint, noChildren))
      && (MayDerive(src, mint, noChildren) ==>
            && DerivedFrom(d.value, src) && !d.value.IrqControlCap? && Labelled(d.value, src, mint)
            && d.value == Derivation(src, rights, mint, true).value)
  {
    match src {
      case UntypedCap(_, _, _, _) =>
      case CNodeCap(_, _, _, _) => if mint.Some? { RestIsLowPart(mint.value / 64, Pow2(mint.value % 64)); }
      case _ =>
    }
  }

  lemma DerivesGreatest(src: Cap, rights: Rights, mint: Option<nat>)
    requires MayDerive(src, mint, true)
    ensures var d := Derivation(src, rights, mint, true); d.Some? && GreatestWithin(d.value, src, rights)
  {
    match src {
      case EndpointCap(_, _, _, _, _, _) =>
      case NotificationCap(_, _, _, _) =>
      case FrameCap(_, _, _, v, _, _) => MaskIsGreatest(v, rights);
      case _ =>
    }
  }

  lemma RestIsLowPart(w: nat, p: nat)
    requires p > 0
    ensures IsLowPart(w, p, w % p)
  {
    assert Above(w, w / p, p, w % p);
  }

  lemma MaskIsGreatest(v: VmRights, r: Rights)
    ensures
      var m := MaskVmRights(v, r);
      && VmRightsWithin(m, v) && (m != KernelOnly ==> r.allowRead) && (m == ReadWrite ==> r.allowWrite)
      && forall w :: VmRightsWithin(w, v) && (w != KernelOnly ==> r.allowRead) && (w == ReadWrite ==> r.allowWrite) ==>
           VmRightsWithin(w, m)
  {}

  /** These properties leave no choice. */
  lemma DerivedIsUnique(c: Cap, d: Cap, src: Cap, rights: Rights, mint: Option<nat>)
    requires GreatestWithin(c, src, rights) && Labelled(c, src, mint)
    requires GreatestWithin(d, src, rights) && Labelled(d, src, mint)
    ensures c == d
  {
    assert RightsWithin(c, d) && RightsWithin(d, c);
    if src.CNodeCap? && mint.Some? {
      var w, p := mint.value / 64, Pow2(mint.value % 64);
      var q: nat :| Above(w, q, p, c.guard);
      var r: nat :| Above(w, r, p, d.guard);
      DivModUnique(w, p, q, c.guard);
      DivModUnique(w, p, r, d.guard);
    }
  }

  /** What mutate and rotate may rewrite: not a badge, and a guard only to one that leaves room for the index. */
  predicate MayMutate(c: Cap, newData: nat) {
    && !c.NullCap? && !c.EndpointCap? && !c.NotificationCap?
    && (c.CNodeCap? ==> newData % 64 + c.radix <= WORD_BITS)
  }

  /** m is c with the guard asked for, if it is a CNode's. */
  ghost predicate Mutated(c: Cap, m: Cap, newData: nat) {
    && ObjectOf(m) == ObjectOf(c) && (!c.CNodeCap? ==> m == c)
    && (c.CNodeCap? ==> m.CNodeCap? && GuardFrom(m.guard, m.guardSize, newData))
  }

  /** Mutate and rotate rewrite data with preserve = true: only a CNode's guard changes, to the one asked for. */
  lemma MutateKeepsObject(c: Cap, newData: nat)
    ensures
      var m := UpdateData(c, true, newData);
      && (m != NullCap <==> MayMutate(c, newData))
      && (MayMutate(c, newData) ==> Mutated(c, m, newData))
  {
    match c {
      case CNodeCap(_, _, _, _) => RestIsLowPart(newData / 64, Pow2(newData % 64));
      case _ =>
    }
  }
}
