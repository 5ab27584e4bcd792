/** Copying and taking back (kernel/src/syscall/invocation/invoke_cnode.rs, sel4_cspace/src/cte.rs): what revoke does
    to a capability that copy or mint has just made. */
module TakeBack {
  import opened Caps
  import opened MdbNodes
  import opened ReplyMdb
  import opened Memory
  import opened Descent
  import opened Mdb
  import opened Containers
  import opened SwapSafety
  import opened DeletionSteps
  import opened Deletion
  import opened CNodeOps
  import opened Revoke

  /** Neither an untyped, which can have other descendants, nor a capability that names no object. */
  predicate NamesSimply(c: Cap) {
    ObjectOf(c) != NoObject && !c.IrqControlCap?
  }

  /** What was behind a revocable source is empty, and nothing else has changed. */
  lemma DescendantGone(d: Db, s: Slots, o: seq<nat>, a: nat, b: nat)
    requires Rep(d.slots, d.order, d.nodes) && a in d.order && b in d.order && Revoked(d, s, o, a)
    requires Descends(d.nodes, Index(d.order, a), Index(d.order, b))
    ensures b in s && s[b] == EMPTY
  {
    var i, j := Index(d.order, a), Index(d.order, b);
    var e: nat :| RevokedTo(d, s, o, i, e);
    assert At(d.slots, d.order, d.nodes, j);
    assert d.order[i + 1..e][j - i - 1] == b;
  }

  /** Revoking a frame takes back nothing. */
  lemma FrameKeepsAll(d: Db, s: Slots, o: seq<nat>, a: nat)
    requires Rep(d.slots, d.order, d.nodes) && a in d.order && a in d.slots && Revoked(d, s, o, a)
    requires d.slots[a].cap.FrameCap?
    ensures o == d.order && forall b :: b in d.slots ==> b in s && s[b].cap == d.slots[b].cap
  {
    var i := Index(d.order, a);
    assert At(d.slots, d.order, d.nodes, i);
    var e: nat :| RevokedTo(d, s, o, i, e);
    assert !Descends(d.nodes, i, i + 1);
    assert e == i + 1;
  }

  /** So a revoked frame is the only capability to its object exactly if it was before. */
  lemma FrameSoleIff(d: Db, s: Slots, o: seq<nat>, a: nat)
    requires Rep(d.slots, d.order, d.nodes) && a in d.order && a in d.slots && Revoked(d, s, o, a)
    requires d.slots[a].cap.FrameCap? && s.Keys == d.slots.Keys
    ensures UniqueObject(s, a) <==> UniqueObject(d.slots, a)
  {
    FrameKeepsAll(d, s, o, a);
  }

  /** A copy or mint of a revocable capability is gone after the source has been revoked. A frame's copy stays. */
  method CopyThenRevoke(cs: CSpace, l: Layout, blocked: set<nat>, src: nat, dest: nat, rights: Rights,
      mint: Option<nat>, ghost z: Zone)
    returns (ok: bool, status: Status)
    requires Inv(cs, l) && RepliesBlocked(cs.slots, blocked) && WholeZone(cs.slots, l, z)
    requires src in cs.slots && UserSlot(cs.slots, l, dest) && NamesSimply(cs.slots[src].cap)
    requires cs.slots[dest].cap == NullCap
    modifies cs
    ensures ok <==> old(MayDerive(cs.slots[src].cap, mint, true))
    ensures ok ==> status.Done? && dest in cs.slots
    ensures ok && old(cs.slots[src].revocable && !cs.slots[src].cap.FrameCap?) ==> cs.slots[dest] == EMPTY
    ensures ok && old(cs.slots[src].cap.FrameCap?) ==>
      GreatestWithin(cs.slots[dest].cap, old(cs.slots[src].cap), rights)
  {
    ok := CopyOrMint(cs, l, src, dest, rights, mint);
    status := Done;
    if ok {
      NewRepliesBlocked(old(cs.slots), cs.slots, blocked, src, dest);
      status := RevokeCopied(cs, l, blocked, src, dest, z);
    }
  }

  method RevokeCopied(cs: CSpace, l: Layout, blocked: set<nat>, src: nat, dest: nat, ghost z: Zone)
    returns (status: Status)
    requires Inv(cs, l) && RepliesBlocked(cs.slots, blocked) && WholeZone(cs.slots, l, z)
    requires CopyListed(View(cs), src, dest) && NamesSimply(cs.slots[src].cap) && dest in cs.slots
    modifies cs
    ensures status.Done? && dest in cs.slots
    ensures old(cs.slots[src].revocable && !cs.slots[src].cap.FrameCap?) ==> cs.slots[dest] == EMPTY
    ensures old(cs.slots[src].cap.FrameCap?) ==> cs.slots[dest].cap == old(cs.slots[dest].cap)
  {
    ghost var d := View(cs);
    assert At(d.slots, d.order, d.nodes, Index(d.order, src));
    OthersDescendPlain(d.nodes, Index(d.order, src));
    status := RevokeSlot(cs, l, blocked, src, z);
    if d.slots[src].cap.FrameCap? {
      FrameKeepsAll(d, cs.slots, cs.order, src);
    } else if d.slots[src].revocable {
      DescendantGone(d, cs.slots, cs.order, src, dest);
    }
  }

  lemma NewRepliesBlocked(slots: Slots, slots': Slots, blocked: set<nat>, src: nat, dest: nat)
    requires RepliesBlocked(slots, blocked) && slots'.Keys == slots.Keys && src in slots && dest in slots
    requires slots'[src].cap == slots[src].cap && !slots'[dest].cap.ReplyCap?
    requires forall b :: b in slots' && b != src && b != dest ==> slots'[b].cap == slots[b].cap
    ensures RepliesBlocked(slots', blocked)
  {
    forall t | t !in blocked
      ensures NoReplies(slots', t)
    {
      assert NoReplies(slots, t);
      forall b | b in slots'
        ensures !IsReply(slots'[b].cap, t)
      {
        assert b != dest ==> slots'[b].cap == slots[b].cap;
      }
    }
  }
}
