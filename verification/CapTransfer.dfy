/** The capabilities that travel with a message (sel4_ipc/src/transfer.rs, sel4_task/src/tcb.rs): a capability to the
    endpoint itself is unwrapped to its badge, the first other one is inserted into the receive slot. Nothing
    tests that the receive slot is empty, which cte_insert asserts. */
module CapTransfer {
  import opened Caps
  import opened Mdb
  import opened Containers
  import opened CNodeOps

  const MAX_EXTRA_CAPS := 3

  const ALL_RIGHTS := Rights(true, true, true, true)

  /** The capability names the endpoint that the message goes through. */
  predicate Unwraps(slots: Slots, endpoint: Option<nat>, a: nat)
    requires a in slots
  {
    slots[a].cap.EndpointCap? && endpoint == Some(slots[a].cap.ptr)
  }

  /** The first of the extra capabilities from i on that is not unwrapped. */
  function FirstOther(slots: Slots, endpoint: Option<nat>, extra: seq<nat>, i: nat): (k: nat)
    requires i <= |extra| && forall j :: 0 <= j < |extra| ==> extra[j] in slots
    ensures i <= k <= |extra| && (forall j :: i <= j < k ==> Unwraps(slots, endpoint, extra[j]))
    ensures k < |extra| ==> !Unwraps(slots, endpoint, extra[k])
    decreases |extra| - i
  {
    if i < |extra| && Unwraps(slots, endpoint, extra[i]) then FirstOther(slots, endpoint, extra, i + 1) else i
  }

  /** derive_cap on a slot. */
  function Derived(slots: Slots, a: nat): (d: Option<Cap>)
    requires a in slots
  {
    DeriveCap(slots[a].cap, !HasChild(slots, a))
  }

  predicate Derivable(slots: Slots, a: nat)
    requires a in slots
  {
    MayDerive(slots[a].cap, None, !HasChild(slots, a))
  }

  /** The transfer comes to insert a capability: the receiver has a buffer and a receive slot, and the first
      capability that is not unwrapped can be derived. */
  predicate Inserts(slots: Slots, endpoint: Option<nat>, extra: seq<nat>, buffer: bool, dest: Option<nat>)
    requires forall j :: 0 <= j < |extra| ==> extra[j] in slots
  {
    var k := FirstOther(slots, endpoint, extra, 0);
    buffer && dest.Some? && k < |extra| && Derivable(slots, extra[k])
  }

  lemma DerivedIsDerived(slots: Slots, a: nat)
    requires a in slots && Derivable(slots, a)
    ensures Derived(slots, a).Some?
    ensures
      var d := Derived(slots, a).value;
      && DerivedFrom(d, slots[a].cap) && !d.IrqControlCap? && slots[a].cap != NullCap
      && GreatestWithin(d, slots[a].cap, ALL_RIGHTS) && Labelled(d, slots[a].cap, None)
  {
    assert MaskCapRights(ALL_RIGHTS, slots[a].cap) == slots[a].cap;
    CopyAndMintDerive(slots[a].cap, ALL_RIGHTS, None, !HasChild(slots, a));
  }

  /** What can be derived is what may be copied. */
  lemma DerivableIff(slots: Slots, a: nat)
    requires a in slots
    ensures Derivable(slots, a) <==> Derived(slots, a).Some? && Derived(slots, a).value != NullCap
  {
    assert MaskCapRights(ALL_RIGHTS, slots[a].cap) == slots[a].cap;
    CopyAndMintDerive(slots[a].cap, ALL_RIGHTS, None, !HasChild(slots, a));
  }

  /** The slot after the transfer of the capability in slot a: behind its source, with the same rights and badge. */
  ghost predicate Transferred(s0: Slots, o0: seq<nat>, s: Slots, o: seq<nat>, a: nat, dest: nat)
    requires a in s0 && dest in s0
  {
    && Derivable(s0, a) && dest in s && Copied(s0, s, a, dest, s[dest].cap)
    && GreatestWithin(s[dest].cap, s0[a].cap, ALL_RIGHTS) && Labelled(s[dest].cap, s0[a].cap, None)
    && a in o0 && o == InsertAt(o0, Index(o0, a) + 1, dest)
  }

  /** Inserting into the receive slot; true when the assertion of cte_insert fails. */
  method InsertExtra(cs: CSpace, l: Layout, a: nat, dest: nat) returns (panics: bool)
    requires Inv(cs, l) && a in cs.slots && UserSlot(cs.slots, l, dest) && Derivable(cs.slots, a)
    modifies cs
    ensures Inv(cs, l) && cs.slots.Keys == old(cs.slots).Keys
    ensures panics <==> old(cs.slots[dest].cap) != NullCap
    ensures panics ==> cs.slots == old(cs.slots) && cs.order == old(cs.order)
    ensures !panics ==> Transferred(old(cs.slots), old(cs.order), cs.slots, cs.order, a, dest)
  {
    var noChildren := cs.EnsureNoChildren(a);
    var d := DeriveCap(cs.slots[a].cap, noChildren);
    DerivedIsDerived(cs.slots, a);
    DerivableIff(cs.slots, a);
    if cs.slots[dest].cap != NullCap {
      return true;
    }
    SlotNode(cs.slots, cs.order, cs.nodes, a);
    InsertDerived(cs, l, a, dest, d.value);
    panics := false;
  }

  /** Exactly the capabilities from `from` to `to`, without number skip, have their badges handed over. */
  ghost predicate Handed(slots: Slots, extra: seq<nat>, badges: map<nat, nat>, from: nat, to: nat, skip: nat) {
    && to <= |extra| && (forall j :: 0 <= j < |extra| ==> extra[j] in slots)
    && (forall i :: i in badges <==> from <= i < to && i != skip)
    && forall i :: i in badges ==> slots[extra[i]].cap.EndpointCap? && badges[i] == slots[extra[i]].cap.badge
  }

  /** What the transfer leaves behind when it does not fail. */
  ghost predicate Outcome(s0: Slots, o0: seq<nat>, s: Slots, o: seq<nat>, endpoint: Option<nat>, extra: seq<nat>,
    buffer: bool,
                          receiveSlot: Option<nat>, count: nat, badges: map<nat, nat>)
    requires (forall j :: 0 <= j < |extra| ==> extra[j] in s0) && s.Keys == s0.Keys
    requires receiveSlot.Some? ==> receiveSlot.value in s0
  {
    var k := FirstOther(s0, endpoint, extra, 0);
    if Inserts(s0, endpoint, extra, buffer, receiveSlot) then
      && Transferred(s0, o0, s, o, extra[k], receiveSlot.value)
      && count == FirstOther(s, endpoint, extra, k + 1) && Handed(s, extra, badges, 0, count, k)
    else
      s == s0 && o == o0 && count == (if buffer then k else 0) && Handed(s, extra, badges, 0, count, count)
  }

  /** set_transfer_caps with the extra capabilities up to the first missing one. The kernel fails exactly if it
      comes to insert a capability and the receive slot is in use. */
  method SetTransferCaps(cs: CSpace, l: Layout, endpoint: Option<nat>, extra: seq<nat>, buffer: bool,
      receiveSlot: Option<nat>)
    returns (panics: bool, count: nat, badges: map<nat, nat>)
    requires Inv(cs, l) && |extra| <= MAX_EXTRA_CAPS && forall j :: 0 <= j < |extra| ==> extra[j] in cs.slots
    requires receiveSlot.Some? ==> UserSlot(cs.slots, l, receiveSlot.value)
    modifies cs
    ensures Inv(cs, l) && cs.slots.Keys == old(cs.slots).Keys
    ensures panics <==>
      Inserts(old(cs.slots), endpoint, extra, buffer, receiveSlot) && old(cs.slots)[receiveSlot.value].cap != NullCap
    ensures panics ==> cs.slots == old(cs.slots) && cs.order == old(cs.order)
    ensures !panics ==>
      Outcome(old(cs.slots), old(cs.order), cs.slots, cs.order, endpoint, extra, buffer, receiveSlot, count, badges)
  {
    panics, count, badges := false, 0, map[];
    if extra == [] || !buffer { return; }
    count, badges := TakeBadges(cs, endpoint, extra, 0);
    if count == |extra| || receiveSlot.None? { return; }
    var noChildren := cs.EnsureNoChildren(extra[count]);
    var d := DeriveCap(cs.slots[extra[count]].cap, noChildren);
    DerivableIff(cs.slots, extra[count]);
    if d.None? || d.value == NullCap { return; }
    panics, count, badges := InsertAndGoOn(cs, l, endpoint, extra, receiveSlot.value, count, badges);
  }

  /** The rest of the loop from a capability that is inserted: the receive slot is used up. */
  method InsertAndGoOn(cs: CSpace, l: Layout, endpoint: Option<nat>, extra: seq<nat>, dest: nat, k: nat,
      before: map<nat, nat>)
    returns (panics: bool, count: nat, badges: map<nat, nat>)
    requires Inv(cs, l) && (forall j :: 0 <= j < |extra| ==> extra[j] in cs.slots) && UserSlot(cs.slots, l, dest)
    requires k < |extra| && k == FirstOther(cs.slots, endpoint, extra, 0) && Derivable(cs.slots, extra[k])
    requires Handed(cs.slots, extra, before, 0, k, k)
    modifies cs
    ensures Inv(cs, l) && cs.slots.Keys == old(cs.slots).Keys
    ensures panics <==> old(cs.slots[dest].cap) != NullCap
    ensures panics ==> cs.slots == old(cs.slots) && cs.order == old(cs.order)
    ensures !panics ==>
      && Transferred(old(cs.slots), old(cs.order), cs.slots, cs.order, extra[k], dest)
      && count == FirstOther(cs.slots, endpoint, extra, k + 1) && Handed(cs.slots, extra, badges, 0, count, k)
  {
    ghost var s0, o0 := cs.slots, cs.order;
    panics := InsertExtra(cs, l, extra[k], dest);
    count, badges := k, before;
    if panics { return; }
    BadgesKept(s0, o0, cs.slots, cs.order, endpoint, extra, k, dest, before);
    var more;
    count, more := TakeBadges(cs, endpoint, extra, k + 1);
    JoinHanded(cs.slots, extra, before, more, k, count);
    badges := before + more;
  }

  /** The loop of set_transfer_caps over capabilities that are unwrapped. */
  method TakeBadges(cs: CSpace, endpoint: Option<nat>, extra: seq<nat>, from: nat)
    returns (i: nat, badges: map<nat, nat>)
    requires from <= |extra| && forall j :: 0 <= j < |extra| ==> extra[j] in cs.slots
    ensures i == FirstOther(cs.slots, endpoint, extra, from) && Handed(cs.slots, extra, badges, from, i, i)
  {
    i, badges := from, map[];
    while i < |extra| && Unwraps(cs.slots, endpoint, extra[i])
      invariant from <= i <= |extra|
      invariant FirstOther(cs.slots, endpoint, extra, i) == FirstOther(cs.slots, endpoint, extra, from)
      invariant Handed(cs.slots, extra, badges, from, i, i)
    {
      badges := badges[i := cs.slots[extra[i]].cap.badge];
      i := i + 1;
    }
  }

  /** The insertion changes no capability that was unwrapped before it. */
  lemma BadgesKept(s0: Slots, o0: seq<nat>, s: Slots, o: seq<nat>, endpoint: Option<nat>, extra: seq<nat>, k: nat,
      dest: nat, before: map<nat, nat>)
    requires (forall j :: 0 <= j < |extra| ==> extra[j] in s0) && dest in s0 && s0[dest].cap == NullCap
    requires k < |extra| && k == FirstOther(s0, endpoint, extra, 0) && Handed(s0, extra, before, 0, k, k)
    requires Transferred(s0, o0, s, o, extra[k], dest)
    ensures Handed(s, extra, before, 0, k, k)
  {
  }

  lemma JoinHanded(s: Slots, extra: seq<nat>, before: map<nat, nat>, more: map<nat, nat>, k: nat, i: nat)
    requires Handed(s, extra, before, 0, k, k) && Handed(s, extra, more, k + 1, i, i) && k < i
    ensures Handed(s, extra, before + more, 0, i, k)
  {
  }
}
