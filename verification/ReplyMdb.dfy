/** Reply capabilities in the derivation lists: each sits directly behind its thread's master, which is
    how cancel_ipc finds it and why the fast path may link it by hand (sel4_task/src/tcb.rs,
    sel4_ipc/src/transfer.rs, kernel/src/kernel/fastpath.rs). */
module ReplyMdb {
  import opened Caps
  import opened MdbNodes
  import opened Memory
  import opened Mdb

  predicate IsMaster(c: Cap, t: nat) {
    c.ReplyCap? && c.master && c.tcb == t
  }

  predicate IsReply(c: Cap, t: nat) {
    c.ReplyCap? && !c.master && c.tcb == t
  }

  /** Node i, if a reply capability, has its master right before it in the same list; if a master, it
      starts its list and carries both flags. */
  predicate Paired(ns: seq<Node>, i: nat)
    requires i < |ns|
  {
    ns[i].cap.ReplyCap? ==>
      if ns[i].cap.master then (i == 0 || !ns[i - 1].joined) && ns[i].revocable && ns[i].firstBadged
      else i > 0 && ns[i - 1].joined && IsMaster(ns[i - 1].cap, ns[i].cap.tcb)
  }

  predicate OneMaster(ns: seq<Node>, i: nat, j: nat)
    requires i < |ns| && j < |ns|
  {
    ns[i].cap.ReplyCap? && IsMaster(ns[i].cap, ns[i].cap.tcb) && IsMaster(ns[j].cap, ns[i].cap.tcb) ==> i == j
  }

  ghost predicate ReplyPairs(ns: seq<Node>) {
    && (forall i {:trigger Paired(ns, i)} :: 0 <= i < |ns| ==> Paired(ns, i))
    && (forall i, j {:trigger OneMaster(ns, i, j)} :: 0 <= i < |ns| && 0 <= j < |ns| ==> OneMaster(ns, i, j))
  }

  /** What cancel_ipc relies on: the slot behind the master is the thread's reply capability, and if the
      thread has one anywhere, that is where it is. */
  lemma NextOfMasterIsReply(slots: Slots, order: seq<nat>, ns: seq<Node>, a: nat, t: nat)
    requires Rep(slots, order, ns) && MdbOk(ns) && ReplyPairs(ns) && a in slots && IsMaster(slots[a].cap, t)
    ensures slots[a].next != 0 ==> slots[a].next in slots && IsReply(slots[slots[a].next].cap, t)
    ensures forall b :: b in slots && IsReply(slots[b].cap, t) ==> b == slots[a].next
  {
    LinksAreInverse(slots, order, ns, a);
    var i := Index(order, a);
    assert At(slots, order, ns, i) && Paired(ns, i);
    if slots[a].next != 0 {
      assert At(slots, order, ns, i + 1) && Paired(ns, i + 1);
    }
    forall b | b in slots && IsReply(slots[b].cap, t)
      ensures b == slots[a].next
    {
      LinksAreInverse(slots, order, ns, b);
      var j := Index(order, b);
      assert At(slots, order, ns, j) && Paired(ns, j) && OneMaster(ns, i, j - 1);
    }
  }

  /** setup_caller_cap inserts a reply capability behind a master that ends its list. */
  lemma InsertReplyKeepsPairs(ns: seq<Node>, p: nat, n: Node, t: nat)
    requires ReplyPairs(ns) && p < |ns| && IsMaster(ns[p].cap, t) && !ns[p].joined && IsReply(n.cap, t)
    ensures ReplyPairs(InsertNode(ns, p, n))
  {
    var r := InsertNode(ns, p, n);
    forall i | 0 <= i < |r|
      ensures Paired(r, i)
    {
      if i <= p { assert Paired(ns, i); }
      else if i >= p + 2 { assert Paired(ns, i - 1); }
    }
    forall i, j | 0 <= i < |r| && 0 <= j < |r|
      ensures OneMaster(r, i, j)
    {
      if i != p + 1 && j != p + 1 { assert OneMaster(ns, if i <= p then i else i - 1, if j <= p then j else j - 1); }
    }
  }

  /** Inserting any other capability behind a node that is no reply capability. */
  lemma InsertOtherKeepsPairs(ns: seq<Node>, p: nat, n: Node)
    requires ReplyPairs(ns) && p < |ns| && !ns[p].cap.ReplyCap? && !n.cap.ReplyCap?
    ensures ReplyPairs(InsertNode(ns, p, n))
  {
    var r := InsertNode(ns, p, n);
    forall i | 0 <= i < |r|
      ensures Paired(r, i)
    {
      OtherPaired(ns, p, n, i);
    }
    forall i, j | 0 <= i < |r| && 0 <= j < |r|
      ensures OneMaster(r, i, j)
    {
      if i != p + 1 && j != p + 1 { assert OneMaster(ns, if i <= p then i else i - 1, if j <= p then j else j - 1); }
    }
  }

  lemma OtherPaired(ns: seq<Node>, p: nat, n: Node, i: nat)
    requires ReplyPairs(ns) && p < |ns| && !ns[p].cap.ReplyCap? && !n.cap.ReplyCap? && i <= |ns|
    ensures Paired(InsertNode(ns, p, n), i)
  {
    if i <= p { assert Paired(ns, i); } else if i >= p + 2 { assert Paired(ns, i - 1); }
  }

  /** Deleting anything but a master that still has its reply. */
  lemma RemoveKeepsPairs(ns: seq<Node>, i: nat)
    requires ReplyPairs(ns) && i < |ns| && !(ns[i].cap.ReplyCap? && ns[i].cap.master && ns[i].joined)
    ensures ReplyPairs(RemoveNode(ns, i))
  {
    var r := RemoveNode(ns, i);
    assert Paired(ns, i);
    forall k | 0 <= k < |r|
      ensures Paired(r, k)
    {
      assert Paired(ns, if k < i then k else k + 1);
    }
    forall a, b | 0 <= a < |r| && 0 <= b < |r|
      ensures OneMaster(r, a, b)
    {
      assert OneMaster(ns, if a < i then a else a + 1, if b < i then b else b + 1);
    }
  }

  // ---- the fast path's hand-made insertion ----

  /** The fast path writes the caller slot's capability and back link, and the master's next link and
      flags; the caller slot's forward link and flags are those of an empty slot. */
  function FastReplySlot(slots: Slots, reply: nat, caller: nat, c: Cap, b: nat): (s: Slot)
    requires reply in slots && caller in slots && b in slots
  {
    if b == caller then Slot(c, slots[caller].next, reply, slots[caller].revocable, slots[caller].firstBadged)
    else if b == reply then Slot(slots[reply].cap, caller, slots[reply].prev, true, true)
    else slots[b]
  }

  /** On an empty caller slot and a master without a reply this is cte_insert. */
  lemma FastReplyIsInsert(slots: Slots, reply: nat, caller: nat, c: Cap, b: nat)
    requires reply in slots && caller in slots && b in slots && b != 0 && reply != caller
    requires slots[caller] == EMPTY && slots[reply].next == 0 && slots[reply].revocable && slots[reply].firstBadged
    requires c.ReplyCap? && slots[reply].cap.ReplyCap?
    ensures
      var revocable := IsCapRevocable(c, slots[reply].cap);
      && UntypedAsFull(slots[reply].cap, c) == slots[reply].cap
      && FastReplySlot(slots, reply, caller, c, b) ==
           InsertedSlot(slots, reply, slots[reply].cap, caller, Node(c, revocable, revocable, false), b)
  {
  }
}
