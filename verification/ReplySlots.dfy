/** Reply capabilities in their slots (sel4_task/src/tcb.rs, sel4_ipc/src/transfer.rs): what setup_caller_cap, do_reply,
    cancel_ipc and setup_reply_master do to the capability space. */
module ReplySlots {
  import opened Config
  import opened Caps
  import opened MdbNodes
  import opened Memory
  import opened Mdb
  import opened ReplyMdb
  import opened Containers
  import opened Deletion
  import opened CNodeOps
  import opened SpaceGrowth
  import opened IpcSpec

  /** The reply capabilities by slot, as IPC sees them. */
  function RepliesOf(slots: Slots): (r: map<nat, Reply>) {
    map a | a in slots && slots[a].cap.ReplyCap?
      && !slots[a].cap.master :: Reply(slots[a].cap.tcb, slots[a].cap.canGrant)
  }

  /** The threads that have their master reply capability. */
  function MastersOf(slots: Slots): (r: set<nat>) {
    set a | a in slots && slots[a].cap.ReplyCap? && slots[a].cap.master :: slots[a].cap.tcb
  }

  /** A TCB that something names: its slots are there, and its caller slot holds nothing but a reply capability. */
  ghost predicate ThreadSlots(slots: Slots, l: Layout, t: nat) {
    && t % TCB_SIZE == TCB_OFFSET && Live(slots, TcbOf(t))
    && CallerSlot(t) in slots && (slots[CallerSlot(t)].cap == NullCap || CallerSlot(t) in RepliesOf(slots))
  }

  /** Where the slots of a live TCB are. */
  lemma ThreadSlotsThere(slots: Slots, l: Layout, t: nat)
    requires CapsOk(slots, l) && t % TCB_SIZE == TCB_OFFSET && Live(slots, TcbOf(t))
    ensures ReplySlot(t) in l.replySlots && ReplySlot(t) in slots && ReplySlot(t) in l.owner
    ensures l.owner[ReplySlot(t)] == TcbOf(t)
    ensures UserSlot(slots, l, CallerSlot(t)) && l.owner[CallerSlot(t)] == TcbOf(t)
    ensures forall b :: !DeadThread(slots, b, t)
  {
    var h :| h in slots && Houses(slots, TcbOf(t), h) && !slots[h].cap.ZombieCap?;
    assert CapOk(slots, l, h) && OwnsSlots(slots, l, TcbOf(t));
    assert CallerSlot(t) == SlotAddr(TcbOf(t).base, CALLER_INDEX);
    assert ReplySlot(t) == SlotAddr(TcbOf(t).base, TCB_REPLY_INDEX);
    assert CallerSlot(t) in l.replySlots ==> ReplySlotOk(slots, l, CallerSlot(t));
    SameThread(slots, h, t);
    forall b
      ensures !DeadThread(slots, b, t)
    {
      assert Alone(slots, b, h);
    }
  }

  /** A capability for the TCB's container is one to the thread. */
  lemma SameThread(slots: Slots, h: nat, t: nat)
    requires h in slots && Houses(slots, TcbOf(t), h) && !slots[h].cap.ZombieCap?
    ensures slots[h].cap.ThreadCap? && ReplySlot(slots[h].cap.ptr) == ReplySlot(t)
  {}

  /** The master of a thread is in its reply slot, and with no reply capability out nothing follows it. */
  lemma MasterPlace(d: Db, l: Layout, t: nat)
    requires DbOk(d, l) && t in MastersOf(d.slots)
    ensures ReplySlot(t) in d.slots && IsMaster(d.slots[ReplySlot(t)].cap, t) && t % TCB_SIZE == TCB_OFFSET
    ensures d.slots[ReplySlot(t)].next != 0 ==>
      d.slots[ReplySlot(t)].next in RepliesOf(d.slots) && RepliesOf(d.slots)[d.slots[ReplySlot(t)].next].caller == t
    ensures forall s :: s in RepliesOf(d.slots) && RepliesOf(d.slots)[s].caller == t ==> s == d.slots[ReplySlot(t)].next
  {
    var a :| a in d.slots && d.slots[a].cap.ReplyCap? && d.slots[a].cap.master && d.slots[a].cap.tcb == t;
    assert CapOk(d.slots, l, a);
    NextOfMasterIsReply(d.slots, d.order, d.nodes, a, t);
    forall s | s in RepliesOf(d.slots) && RepliesOf(d.slots)[s].caller == t
      ensures s == d.slots[ReplySlot(t)].next
    {
      assert IsReply(d.slots[s].cap, t);
    }
  }

  /** Every reply capability is the MDB-next of its thread's master. */
  ghost predicate RepliesLinked(slots: Slots, replies: map<nat, Reply>) {
    forall s {:trigger replies[s]} :: s in replies ==>
      var m := ReplySlot(replies[s].caller);
      m in slots && IsMaster(slots[m].cap, replies[s].caller) && slots[m].next == s
  }

  lemma LinkedBehindMasters(d: Db, l: Layout)
    requires DbOk(d, l)
    ensures RepliesLinked(d.slots, RepliesOf(d.slots))
  {
    var replies := RepliesOf(d.slots);
    forall s {:trigger replies[s]} | s in replies
      ensures
        var m := ReplySlot(replies[s].caller);
        m in d.slots && IsMaster(d.slots[m].cap, replies[s].caller) && d.slots[m].next == s
    {
      MasterThere(d, l, s, replies[s].caller);
      NextOfMasterIsReply(d.slots, d.order, d.nodes, ReplySlot(replies[s].caller), replies[s].caller);
    }
  }

  // ---- steps on reply capabilities ----

  /** Slot b holds what it held, or the change is between empty and a reply capability. */
  predicate ReplyChange(slots: Slots, slots': Slots, b: nat)
    requires b in slots && b in slots'
  {
    || slots'[b].cap == slots[b].cap
    || ((slots[b].cap == NullCap || slots[b].cap.ReplyCap?)
      && (slots'[b].cap == NullCap || (slots'[b].cap.ReplyCap? && !slots'[b].cap.master)))
    || ((slots[b].cap == NullCap || slots[b].cap.ReplyCap?) && slots'[b].cap.ReplyCap?
        && b == ReplySlot(slots'[b].cap.tcb))
  }

  /** Nothing but reply capabilities changes. */
  ghost predicate OnlyReplies(slots: Slots, slots': Slots) {
    slots'.Keys == slots.Keys && forall b {:trigger ReplyChange(slots, slots', b)} :: b in slots ==>
      ReplyChange(slots, slots', b)
  }

  lemma OnlyRepliesKeepsLive(slots: Slots, slots': Slots)
    requires OnlyReplies(slots, slots')
    ensures LiveKept(slots, slots')
  {
    forall c | Live(slots, c)
      ensures Live(slots', c)
    {
      var h :| h in slots && Houses(slots, c, h) && !slots[h].cap.ZombieCap?;
      assert ReplyChange(slots, slots', h);
      assert h in slots' && Houses(slots', c, h);
    }
  }

  lemma ThreadSlotsKept(slots: Slots, slots': Slots, l: Layout, t: nat)
    requires OnlyReplies(slots, slots') && ThreadSlots(slots, l, t)
    ensures ThreadSlots(slots', l, t)
  {
    OnlyRepliesKeepsLive(slots, slots');
    assert ReplyChange(slots, slots', CallerSlot(t));
  }

  /** setup_caller_cap's cte_insert: a reply capability behind the master of t. */
  ghost predicate ReplyInserted(d: Db, d': Db, t: nat, dest: nat, grant: bool) {
    && Rep(d.slots, d.order, d.nodes) && ReplySlot(t) in d.order && ReplySlot(t) in d.slots && dest in d.slots
    && Inserted(d.slots, d.order, d.nodes, d'.slots, d'.order, d'.nodes, ReplySlot(t), d.slots[ReplySlot(t)].cap, dest,
                Node(ReplyCap(t, false, grant), false, false, false))
  }

  /** What the assertions of setup_caller_cap and the state of the sender give. */
  ghost predicate MayInsert(d: Db, l: Layout, sender: nat, receiver: nat) {
    && sender in MastersOf(d.slots) && ThreadSlots(d.slots, l, sender) && ThreadSlots(d.slots, l, receiver)
    && CallerSlot(receiver) !in RepliesOf(d.slots)
    && forall s :: s in RepliesOf(d.slots) ==> RepliesOf(d.slots)[s].caller != sender
  }

  lemma ReplyNodesOk(ns: seq<Node>, p: nat, t: nat, grant: bool)
    requires NodesOk(ns) && ReplyPairs(ns) && p < |ns| && IsMaster(ns[p].cap, t) && !ns[p].joined
    ensures
      var r := InsertNode(ns, p, Node(ReplyCap(t, false, grant), false, false, false));
      NodesOk(r) && ReplyPairs(r)
  {
    var n := Node(ReplyCap(t, false, grant), false, false, false);
    assert forall k :: 0 <= k < |ns| && k != p ==> !Same(ns, p, k);
    InsertKeepsMdbOk(ns, p, n);
    TwinKeepsMemOk(ns, p, n);
    InsertReplyKeepsPairs(ns, p, n, t);
  }

  lemma InsertStep(d: Db, d': Db, l: Layout, sender: nat, receiver: nat, grant: bool)
    requires DbOk(d, l) && MayInsert(d, l, sender, receiver)
    requires ReplyInserted(d, d', sender, CallerSlot(receiver), grant)
    ensures DbOk(d', l) && OnlyReplies(d.slots, d'.slots) && MastersOf(d'.slots) == MastersOf(d.slots)
    ensures RepliesOf(d'.slots) == RepliesOf(d.slots)[CallerSlot(receiver) := Reply(sender, grant)]
  {
    var m, dest, c := ReplySlot(sender), CallerSlot(receiver), ReplyCap(sender, false, grant);
    var p := Index(d.order, m);
    MasterPlace(d, l, sender);
    ThreadSlotsThere(d.slots, l, sender);
    ThreadSlotsThere(d.slots, l, receiver);
    assert At(d.slots, d.order, d.nodes, p);
    assert p + 1 < |d.order| ==> At(d.slots, d.order, d.nodes, p + 1);
    assert d.nodes[p := d.nodes[p].(cap := d.slots[m].cap)] == d.nodes;
    ReplyNodesOk(d.nodes, p, sender, grant);
    assert Put(d.slots, d'.slots, dest, c);
    PutKeepsCapsOk(d.slots, l, d'.slots, dest, c);
    PutReplyOf(d.slots, d'.slots, dest, sender, grant);
  }

  lemma PutReplyOf(slots: Slots, slots': Slots, dest: nat, t: nat, grant: bool)
    requires Put(slots, slots', dest, ReplyCap(t, false, grant))
    ensures OnlyReplies(slots, slots') && MastersOf(slots') == MastersOf(slots)
    ensures RepliesOf(slots') == RepliesOf(slots)[dest := Reply(t, grant)]
  {
    MastersSame(slots, slots');
  }

  lemma MastersSame(slots: Slots, slots': Slots)
    requires slots'.Keys == slots.Keys
    requires forall b :: b in slots && slots[b].cap.ReplyCap? && slots[b].cap.master ==> slots'[b].cap == slots[b].cap
    requires forall b :: b in slots' && slots'[b].cap.ReplyCap? && slots'[b].cap.master ==>
      slots'[b].cap == slots[b].cap
    ensures MastersOf(slots') == MastersOf(slots)
  {
    forall t
      ensures t in MastersOf(slots') <==> t in MastersOf(slots)
    {
      if t in MastersOf(slots) {
        var a :| a in slots && slots[a].cap.ReplyCap? && slots[a].cap.master && slots[a].cap.tcb == t;
        assert a in slots' && slots'[a].cap == slots[a].cap;
      }
      if t in MastersOf(slots') {
        var a :| a in slots' && slots'[a].cap.ReplyCap? && slots'[a].cap.master && slots'[a].cap.tcb == t;
        assert a in slots && slots'[a].cap == slots[a].cap;
      }
    }
  }

  // ---- deleting a reply capability ----

  /** cte_delete_one of a slot that is empty or holds a reply capability. */
  ghost predicate ReplyDeleted(d: Db, d': Db, slot: nat) {
    if slot in d.slots then Rep(d.slots, d.order, d.nodes)
      && Emptied(d.slots, d.order, d.nodes, d'.slots, d'.order, d'.nodes, slot) else d' == d
  }

  lemma DeleteStep(d: Db, d': Db, l: Layout, slot: nat)
    requires DbOk(d, l) && ReplyDeleted(d, d', slot)
    requires (slot in d.slots ==> d.slots[slot].cap == NullCap || slot in RepliesOf(d.slots))
    ensures DbOk(d', l) && OnlyReplies(d.slots, d'.slots) && MastersOf(d'.slots) == MastersOf(d.slots)
    ensures RepliesOf(d'.slots) == map s | s in RepliesOf(d.slots) && s != slot :: RepliesOf(d.slots)[s]
  {
    if slot in d.slots {
      if d.slots[slot].cap != NullCap {
        var i := Index(d.order, slot);
        assert At(d.slots, d.order, d.nodes, i);
        RemoveKeepsNodesOk(d.nodes, i);
        RemoveKeepsPairs(d.nodes, i);
        WithoutKeepsCapsOk(d.slots, l, d'.slots, slot);
      }
      MastersSame(d.slots, d'.slots);
    }
  }

  /** cancel_ipc of a thread that waits for a reply: the MDB-next of its master is deleted. */
  ghost predicate NextDeleted(d: Db, d': Db, t: nat) {
    if ReplySlot(t) in d.slots then ReplyDeleted(d, d', d.slots[ReplySlot(t)].next) else d' == d
  }

  /** It deletes every reply capability for the thread. */
  lemma CancelStep(d: Db, d': Db, l: Layout, t: nat)
    requires DbOk(d, l) && t in MastersOf(d.slots) && NextDeleted(d, d', t)
    ensures DbOk(d', l) && OnlyReplies(d.slots, d'.slots) && MastersOf(d'.slots) == MastersOf(d.slots)
    ensures RepliesOf(d'.slots) == map s | s in RepliesOf(d.slots)
      && RepliesOf(d.slots)[s].caller != t :: RepliesOf(d.slots)[s]
  {
    MasterPlace(d, l, t);
    DeleteStep(d, d', l, d.slots[ReplySlot(t)].next);
  }

  // ---- moving a reply capability ----

  ghost predicate ReplyMoved(d: Db, d': Db, from: nat, to: nat) {
    && Rep(d.slots, d.order, d.nodes) && from in d.order && from in d.slots && to in d.slots
    && Moved(d.slots, d.order, d.nodes, d'.slots, d'.order, d'.nodes, d.slots[from].cap, from, to)
  }

  lemma MoveStep(d: Db, d': Db, l: Layout, from: nat, to: nat)
    requires DbOk(d, l) && from in RepliesOf(d.slots) && from in l.owner && UserSlot(d.slots, l, to)
    requires d.slots[to].cap == NullCap && ReplyMoved(d, d', from, to)
    ensures DbOk(d', l) && OnlyReplies(d.slots, d'.slots) && MastersOf(d'.slots) == MastersOf(d.slots)
    ensures RepliesOf(d'.slots) ==
      (map s | s in RepliesOf(d.slots) && s != from :: RepliesOf(d.slots)[s])[to := RepliesOf(d.slots)[from]]
  {
    var p := Index(d.order, from);
    assert At(d.slots, d.order, d.nodes, p);
    assert d.nodes[p := d.nodes[p].(cap := d.slots[from].cap)] == d.nodes;
    assert from in l.replySlots ==> ReplySlotOk(d.slots, l, from);
    ExchangeKeepsCapsOk(d.slots, l, d'.slots, from, to);
    MastersSame(d.slots, d'.slots);
  }

  // ---- setup_reply_master ----

  /** The reply slot, if empty, gets the master, in a list of its own. */
  ghost predicate MasterWritten(d: Db, d': Db, t: nat) {
    var m := ReplySlot(t);
    if m in d.slots && d.slots[m].cap == NullCap then
      d' == Db(d.slots[m := Slot(ReplyCap(t, true, true), 0, 0, true, true)], d.order + [m],
        d.nodes + [Node(ReplyCap(t, true, true), true, true, false)])
    else d' == d
  }

  lemma MasterStep(d: Db, d': Db, l: Layout, t: nat)
    requires DbOk(d, l) && t % TCB_SIZE == TCB_OFFSET && Live(d.slots, TcbOf(t)) && MasterWritten(d, d', t)
    ensures DbOk(d', l) && OnlyReplies(d.slots, d'.slots)
    ensures MastersOf(d'.slots) == MastersOf(d.slots) + {t} && RepliesOf(d'.slots) == RepliesOf(d.slots)
  {
    var m, c := ReplySlot(t), ReplyCap(t, true, true);
    ThreadSlotsThere(d.slots, l, t);
    assert ReplySlotOk(d.slots, l, m);
    if d.slots[m].cap == NullCap {
      AppendKeepsRep(d.slots, d.order, d.nodes, m, c);
      MasterSeparate(d, l, t);
      if d.order != [] { assert At(d.slots, d.order, d.nodes, |d.order| - 1); }
      AppendKeepsNodes(d.nodes, c);
      PutKeepsCapsOk(d.slots, l, d'.slots, m, c);
      NewMaster(d.slots, d'.slots, t);
    } else {
      MasterOfSlot(TcbOf(t).base, t);
      assert m in d.slots && d.slots[m].cap.ReplyCap? && d.slots[m].cap.tcb == t;
    }
  }

  lemma NewMaster(slots: Slots, slots': Slots, t: nat)
    requires Put(slots, slots', ReplySlot(t), ReplyCap(t, true, true))
    ensures MastersOf(slots') == MastersOf(slots) + {t} && RepliesOf(slots') == RepliesOf(slots)
    ensures OnlyReplies(slots, slots')
  {
    var m := ReplySlot(t);
    forall x
      ensures x in MastersOf(slots') <==> x in MastersOf(slots) || x == t
    {
      if x in MastersOf(slots) {
        var a :| a in slots && slots[a].cap.ReplyCap? && slots[a].cap.master && slots[a].cap.tcb == x;
        assert a in slots' && slots'[a].cap == slots[a].cap;
      }
      if x == t { assert m in slots' && slots'[m].cap.ReplyCap? && slots'[m].cap.tcb == t; }
      if x in MastersOf(slots') && x != t {
        var a :| a in slots' && slots'[a].cap.ReplyCap? && slots'[a].cap.master && slots'[a].cap.tcb == x;
        assert a in slots && slots'[a].cap == slots[a].cap;
      }
    }
  }

  /** With an empty reply slot there is no other master for the thread. */
  lemma MasterSeparate(d: Db, l: Layout, t: nat)
    requires DbOk(d, l) && ReplySlot(t) in d.slots && d.slots[ReplySlot(t)].cap == NullCap
    ensures Separate(d.nodes, ReplyCap(t, true, true))
  {
    forall i | 0 <= i < |d.nodes|
      ensures !IsMaster(d.nodes[i].cap, t)
    {
      assert At(d.slots, d.order, d.nodes, i);
      assert CapOk(d.slots, l, d.order[i]);
    }
  }

  // ---- the code on slots ----

  /** setup_caller_cap on the capability space; the two assertions hold. */
  method InsertReply(cs: CSpace, ghost l: Layout, sender: nat, receiver: nat, grant: bool)
    requires Inv(cs, l) && MayInsert(View(cs), l, sender, receiver)
    modifies cs
    ensures Inv(cs, l) && ReplyInserted(old(View(cs)), View(cs), sender, CallerSlot(receiver), grant)
    ensures RepliesOf(cs.slots) == old(RepliesOf(cs.slots))[CallerSlot(receiver) := Reply(sender, grant)]
    ensures MastersOf(cs.slots) == old(MastersOf(cs.slots))
  {
    ghost var d := View(cs);
    MasterPlace(d, l, sender);
    var replySlot, callerSlot := ReplySlot(sender), CallerSlot(receiver);
    assert IsMaster(cs.slots[replySlot].cap, sender);
    assert cs.slots[callerSlot].cap == NullCap;
    cs.CteInsert(ReplyCap(sender, false, grant), replySlot, callerSlot);
    InsertStep(d, View(cs), l, sender, receiver, grant);
  }

  /** delete_one on a slot with a reply capability. */
  method RemoveReply(cs: CSpace, ghost l: Layout, slot: nat)
    requires Inv(cs, l) && slot in RepliesOf(cs.slots)
    modifies cs
    ensures Inv(cs, l) && ReplyDeleted(old(View(cs)), View(cs), slot)
    ensures RepliesOf(cs.slots) == map s | s in old(RepliesOf(cs.slots)) && s != slot :: old(RepliesOf(cs.slots))[s]
    ensures MastersOf(cs.slots) == old(MastersOf(cs.slots))
  {
    ghost var d := View(cs);
    cs.SetEmpty(slot);
    DeleteStep(d, View(cs), l, slot);
  }

  /** cancel_ipc on the capability space: the slot behind the master is deleted, and with it every reply capability for
      t. */
  method RemoveNext(cs: CSpace, ghost l: Layout, t: nat)
    requires Inv(cs, l) && t in MastersOf(cs.slots)
    modifies cs
    ensures Inv(cs, l) && NextDeleted(old(View(cs)), View(cs), t)
    ensures RepliesOf(cs.slots) == map s | s in old(RepliesOf(cs.slots))
      && old(RepliesOf(cs.slots))[s].caller != t :: old(RepliesOf(cs.slots))[s]
    ensures MastersOf(cs.slots) == old(MastersOf(cs.slots))
  {
    ghost var d := View(cs);
    MasterPlace(d, l, t);
    var caller := cs.slots[ReplySlot(t)].next;
    if caller != 0 { cs.SetEmpty(caller); }
    CancelStep(d, View(cs), l, t);
  }

  /** The fast path's own four writes have the effect of setup_caller_cap. */
  method FastInsertReply(cs: CSpace, ghost l: Layout, sender: nat, receiver: nat, grant: bool)
    requires Inv(cs, l) && MayInsert(View(cs), l, sender, receiver)
    modifies cs
    ensures Inv(cs, l) && ReplyInserted(old(View(cs)), View(cs), sender, CallerSlot(receiver), grant)
    ensures RepliesOf(cs.slots) == old(RepliesOf(cs.slots))[CallerSlot(receiver) := Reply(sender, grant)]
    ensures MastersOf(cs.slots) == old(MastersOf(cs.slots))
  {
    ghost var d := View(cs);
    MasterPlace(d, l, sender);
    var reply, caller := ReplySlot(sender), CallerSlot(receiver);
    var c := ReplyCap(sender, false, grant);
    var callerSlot, replySlot := cs.slots[caller], cs.slots[reply];
    cs.slots := cs.slots[caller := Slot(c, callerSlot.next, reply, callerSlot.revocable, callerSlot.firstBadged)];
    cs.slots := cs.slots[reply := Slot(replySlot.cap, caller, replySlot.prev, true, true)];
    FastWritesInsert(d, l, cs.slots, sender, receiver, grant);
    ghost var p := Index(d.order, reply);
    cs.order := InsertAt(d.order, p + 1, caller);
    cs.nodes := InsertNode(d.nodes[p := d.nodes[p].(cap := replySlot.cap)], p, Node(c, false, false, false));
    InsertStep(d, View(cs), l, sender, receiver, grant);
  }

  lemma FastWritesInsert(d: Db, l: Layout, slots': Slots, sender: nat, receiver: nat, grant: bool)
    requires DbOk(d, l) && MayInsert(d, l, sender, receiver) && slots'.Keys == d.slots.Keys
    requires ReplySlot(sender) in d.slots
    requires forall b {:trigger slots'[b]} :: b in d.slots ==>
      slots'[b] == FastReplySlot(d.slots, ReplySlot(sender), CallerSlot(receiver), ReplyCap(sender, false, grant), b)
    ensures ReplySlot(sender) in d.order
    ensures
      var p := Index(d.order, ReplySlot(sender));
      ReplyInserted(d, Db(slots', InsertAt(d.order, p + 1, CallerSlot(receiver)),
                          InsertNode(d.nodes[p := d.nodes[p].(cap := d.slots[ReplySlot(sender)].cap)], p,
                            Node(ReplyCap(sender, false, grant), false, false, false))),
                    sender, CallerSlot(receiver), grant)
  {
    var reply, caller, c := ReplySlot(sender), CallerSlot(receiver), ReplyCap(sender, false, grant);
    MasterPlace(d, l, sender);
    LinksAreInverse(d.slots, d.order, d.nodes, reply);
    LinksAreInverse(d.slots, d.order, d.nodes, caller);
    var p := Index(d.order, reply);
    assert At(d.slots, d.order, d.nodes, p) && Paired(d.nodes, p);
    FastSlotsInserted(d, slots', reply, caller, c);
    InsertRefines(d.slots, d.order, d.nodes, reply, d.slots[reply].cap, caller, Node(c, false, false, false), slots');
  }

  lemma FastSlotsInserted(d: Db, slots': Slots, reply: nat, caller: nat, c: Cap)
    requires slots'.Keys == d.slots.Keys && reply in d.slots && caller in d.slots && reply != caller
    requires d.slots[caller] == EMPTY && 0 !in d.slots && c.ReplyCap? && d.slots[reply].cap.ReplyCap?
    requires d.slots[reply].next == 0 && d.slots[reply].revocable && d.slots[reply].firstBadged
    requires forall b {:trigger slots'[b]} :: b in d.slots ==> slots'[b] == FastReplySlot(d.slots, reply, caller, c, b)
    ensures forall b {:trigger slots'[b]} :: b in d.slots ==>
      slots'[b] == InsertedSlot(d.slots, reply, d.slots[reply].cap, caller, Node(c, false, false, false), b)
  {
    forall b | b in d.slots
      ensures slots'[b] == InsertedSlot(d.slots, reply, d.slots[reply].cap, caller, Node(c, false, false, false), b)
    {
      FastReplyIsInsert(d.slots, reply, caller, c, b);
    }
  }
}
