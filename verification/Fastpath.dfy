/** The call fast path as it runs: its tests and its pointer writes (kernel/src/kernel/fastpath.rs). */
module Fastpath {
  import opened SchedulerSpec
  import opened Queues
  import S = Scheduler
  import opened IpcSpec
  import opened IpcInvariants
  import opened KernelExit
  import opened CallPath
  import opened Ipc
  import opened Config
  import opened Words
  import opened Caps
  import Mdb
  import Lookup
  import opened Containers
  import opened ReplySlots
  import opened ReplyEffects
  import opened ReplyRuns

  /** The endpoint after the fast path's own dequeue: the next receiver becomes the head; with none
      left the endpoint is idle. */
  function FastRecord(r: Record, next: nat): (r': Record)
    requires r.EndpointRec?
  {
    if next != 0 then EndpointRec(r.epState, next, r.tail) else EndpointRec(EpIdle, next, 0)
  }

  /** It clears the next link of the new head, and leaves that head's back link alone. */
  function FastLinks(links: Links, next: nat): (r: Links)
    requires next == 0 || next in links
  {
    if next != 0 then links[next := Link(0, links[next].prev)] else links
  }

  /** After the fast path's dequeue the endpoint still has a well-formed queue exactly if there was
      only one receiver: with more, the new head points back at the thread that left. */
  lemma FastDequeueIff(links: Links, r: Record, q: seq<nat>)
    requires r.EndpointRec? && Rep(links, r.head, r.tail, q) && q != []
    ensures q[0] in links && (links[q[0]].next == 0 || links[q[0]].next in links)
    ensures
      var next := links[q[0]].next;
      (exists q' :: Rep(FastLinks(links, next), FastRecord(r, next).head, FastRecord(r, next).tail, q')) <==> |q| == 1
  {
    Neighbours(links, q, 0);
    var next := links[q[0]].next;
    var links', r' := FastLinks(links, next), FastRecord(r, next);
    if |q| == 1 {
      assert Rep(links', r'.head, r'.tail, []);
    } else {
      Neighbours(links, q, 1);
      MembersLinked(links, q);
      forall q'
        ensures !Rep(links', r'.head, r'.tail, q')
      {
        if Rep(links', r'.head, r'.tail, q') && q' != [] { NewHeadPointsBack(links', r'.head, r'.tail, q'); }
      }
    }
  }

  /** Two receivers: after the fast path's dequeue the second still points back at the first. */
  lemma FastDequeueTearsQueue()
    ensures
      var links: Links := map[512 := Link(1536, 0), 1536 := Link(0, 512)];
      var r := EndpointRec(EpRecv, 512, 1536);
      && Rep(links, r.head, r.tail, [512, 1536])
      && forall q :: !Rep(FastLinks(links, 1536), FastRecord(r, 1536).head, FastRecord(r, 1536).tail, q)
  {
    var links: Links := map[512 := Link(1536, 0), 1536 := Link(0, 512)];
    var r, q := EndpointRec(EpRecv, 512, 1536), [512, 1536];
    assert LinkAt(links, q, 0) && LinkAt(links, q, 1);
    assert Rep(links, r.head, r.tail, q);
    FastDequeueIff(links, r, q);
  }

  lemma NewHeadPointsBack(links: Links, head: nat, tail: nat, q: seq<nat>)
    requires Rep(links, head, tail, q) && q != []
    ensures head in links && links[head].prev == 0
  {
    assert LinkAt(links, q, 0);
  }

  /** The endpoint's queue, as the kernel's pointers describe it, is a queue. */
  ghost predicate WellQueued(records: map<nat, Record>, links: Links, ep: nat)
    requires ep in records
  {
    exists q :: Rep(links, records[ep].head, records[ep].tail, q)
  }

  /** The capability space after the call: a reply capability for the caller behind its master, as setup_caller_cap
      inserts it. */
  ghost predicate CallerLinked(k: Kernel, d: Db, d': Db, ep: nat) {
    && HasHead(k, ep) && HeadOf(k, ep) in k.tcbs
    && Effected(d, d', Insert(k.sched.cur, HeadOf(k, ep), k.tcbs[HeadOf(k, ep)].blocking.canGrant))
  }

  lemma CallerMayCall(k: Kernel, d: Db, l: Layout, ep: nat, canGrant: bool, canGrantReply: bool)
    requires AtUserLevel(k) && k.sched.cur != k.sched.idle && Coupled(k, d, l)
    requires FastConditions(k, ep, canGrant, canGrantReply)
    ensures MayInsert(d, l, k.sched.cur, HeadOf(k, ep))
  {
    HeadWaits(k, ep);
    assert CallerOk(k, k.sched.cur);
    CallAllowed(k, d, l, k.sched.cur, HeadOf(k, ep));
  }

  /** fastpath_call up to the switch. shortMessage stands for the message-info and fault tests,
      validRoot for the test of the receiver's page table. Whether the call may be taken, the queue
      afterwards, and, when the receiver was alone, the same outcome as the slow path. */
  method FastpathCall(st: IpcState, ep: nat, canSend: bool, canGrant: bool, canGrantReply: bool, badge: Badge,
                      shortMessage: bool, validRoot: bool) returns (taken: bool)
    requires st.Valid() && AtUserLevel(st.Abs()) && st.sched.cur != st.sched.idle && ep in st.records
    requires st.records[ep].EndpointRec?
    requires st.InStep()
    modifies st, st.sched, st.space
    ensures taken <==>
      shortMessage && canSend && validRoot && FastConditions(old(st.Abs()), ep, canGrant, canGrantReply)
    ensures !taken ==> unchanged(st) && unchanged(st.sched) && unchanged(st.space)
    ensures taken ==>
      ep in st.records && ep in old(st.queues) && (WellQueued(st.records, st.links, ep) <==> |old(st.queues)[ep]| == 1)
    ensures taken && |old(st.queues)[ep]| == 1 ==>
      st.Valid() && st.Abs() == SlowCall(old(st.Abs()), ep, canGrant, badge, canGrantReply)
    ensures taken ==> Inv(st.space, st.layout) && CallerLinked(old(st.Abs()), old(View(st.space)), View(st.space), ep)
  {
    taken := FastCheck(st, ep, canSend, canGrant, canGrantReply, shortMessage, validRoot);
    if taken {
      FastIsSlow(st.Abs(), ep, canGrant, badge, canGrantReply);
      CallerMayCall(st.Abs(), View(st.space), st.layout, ep, canGrant, canGrantReply);
      FastCommit(st, ep, badge);
    }
  }

  // ---- from the capability address on ----

  /** A badge word as the set of its one-bits. */
  function Bits(word: nat): (b: Badge) {
    set i | 0 <= i < WORD_BITS && word / Pow2(i) % 2 == 1
  }

  function Contents(slots: Mdb.Slots): (m: Lookup.Memory) {
    map a | a in slots :: slots[a].cap
  }

  /** The slot of the thread's CSpace root. */
  function TableSlot(t: nat): (a: nat) {
    SlotAddr(TcbOf(t).base, 0)
  }

  lemma TableThere(k: Kernel, d: Db, l: Layout)
    requires AtUserLevel(k) && k.sched.cur != k.sched.idle && Coupled(k, d, l)
    ensures TableSlot(k.sched.cur) in d.slots
  {
    var t, slots := k.sched.cur, d.slots;
    assert Seated(k, slots, l, t);
    var h :| h in slots && Houses(slots, TcbOf(t), h) && !slots[h].cap.ZombieCap?;
    assert CapOk(slots, l, h) && OwnsSlots(slots, l, TcbOf(t));
  }

  /** The capability that the slow path's lookup finds for thread t. */
  ghost function Named(slots: Mdb.Slots, t: nat, cptr: nat): (c: Cap)
    requires Lookup.MemoryOk(Contents(slots)) && TableSlot(t) in slots
  {
    var mem := Contents(slots);
    assert TableSlot(t) in mem;
    Lookup.Found(mem, mem[TableSlot(t)], cptr, WORD_BITS)
  }

  /** fastpath_call for the capability address cptr: lookup_fp, then the call. The outcome is that of the slow path
      on the capability that the slow path's lookup finds. */
  method FastpathSyscall(st: IpcState, cptr: nat, shortMessage: bool, validRoot: bool) returns (taken: bool, c: Cap)
    requires st.Valid() && AtUserLevel(st.Abs()) && st.InStep() && st.sched.cur != st.sched.idle
    requires Lookup.MemoryOk(Contents(st.space.slots))
    requires forall a :: a in st.space.slots && st.space.slots[a].cap.EndpointCap? ==>
      st.space.slots[a].cap.ptr in st.records && st.records[st.space.slots[a].cap.ptr].EndpointRec?
    modifies st, st.sched, st.space
    ensures TableSlot(old(st.sched.cur)) in old(st.space.slots)
    ensures c == Named(old(st.space.slots), old(st.sched.cur), cptr)
    ensures taken <==>
      shortMessage && c.EndpointCap? && c.canSend && validRoot
        && FastConditions(old(st.Abs()), c.ptr, c.canGrant, c.canGrantReply)
    ensures taken && c.ptr in old(st.queues) && |old(st.queues)[c.ptr]| == 1 ==>
      st.Valid() && st.Abs() == SlowCall(old(st.Abs()), c.ptr, c.canGrant, Bits(c.badge), c.canGrantReply)
    ensures !taken ==> unchanged(st) && unchanged(st.sched) && unchanged(st.space)
  {
    TableThere(st.Abs(), View(st.space), st.layout);
    c := FastLookup(st.space, st.sched.cur, cptr);
    taken := false;
    if !shortMessage || !c.EndpointCap? || !c.canSend { return; }
    taken := FastpathCall(st, c.ptr, c.canSend, c.canGrant, c.canGrantReply, Bits(c.badge), shortMessage, validRoot);
  }

  /** lookup_fp in the CSpace of thread t. */
  method FastLookup(cs: Mdb.CSpace, t: nat, cptr: nat) returns (c: Cap)
    requires Lookup.MemoryOk(Contents(cs.slots)) && TableSlot(t) in cs.slots
    ensures c == Named(cs.slots, t, cptr) && (c != NullCap ==> exists a :: a in cs.slots && cs.slots[a].cap == c)
  {
    var mem := Contents(cs.slots);
    var root := cs.slots[TableSlot(t)].cap;
    assert TableSlot(t) in mem && mem[TableSlot(t)] == root;
    c := Lookup.LookupFp(mem, root, cptr);
    if c != NullCap { FoundInMemory(mem, root, cptr, WORD_BITS); }
  }

  lemma FoundInMemory(mem: Lookup.Memory, root: Cap, cptr: nat, n: nat)
    requires Lookup.MemoryOk(mem) && (root.CNodeCap? ==> Lookup.CNodeOk(mem, root))
    requires Lookup.Found(mem, root, cptr, n) != NullCap
    ensures exists a :: a in mem && mem[a] == Lookup.Found(mem, root, cptr, n)
  {}

  /** The tests of fastpath_call, in their order. */
  method FastCheck(st: IpcState, ep: nat, canSend: bool, canGrant: bool, canGrantReply: bool, shortMessage: bool,
      validRoot: bool)
    returns (taken: bool)
    requires st.Valid() && Agree(st.Abs()) && ep in st.records && st.records[ep].EndpointRec?
    ensures taken <==> shortMessage && canSend && validRoot && FastConditions(st.Abs(), ep, canGrant, canGrantReply)
    ensures taken ==> st.queues[ep] != [] && st.queues[ep][0] in st.tcbs && st.queues[ep][0] in st.sched.threads
    ensures taken ==> StateOf(st.Abs(), st.queues[ep][0]) == BlockedOnReceive
  {
    assert ObjectOk(st.Abs(), ep);
    if !shortMessage || !canSend || st.records[ep].epState != EpRecv { return false; }
    HeadWaits(st.Abs(), ep);
    HeadIsFirst(st.records, st.links, st.queues, ep);
    var dest := st.records[ep].head;
    if !validRoot { return false; }
    var highest := st.sched.IsHighestPrio(st.sched.threads[dest].prio);
    if st.sched.threads[dest].prio < st.sched.threads[st.sched.cur].prio && !highest { return false; }
    if !canGrant && !canGrantReply { return false; }
    return true;
  }

  /** The writes of fastpath_call. */
  method FastCommit(st: IpcState, ep: nat, badge: Badge)
    requires st.Valid() && ep in st.records && st.records[ep].EndpointRec? && st.queues[ep] != []
    requires st.queues[ep][0] in st.tcbs && st.queues[ep][0] in st.sched.threads && st.queues[ep][0] != st.sched.cur
    requires MayInsert(View(st.space), st.layout, st.sched.cur, st.queues[ep][0])
    modifies st, st.sched, st.space
    ensures Inv(st.space, st.layout) && CallerLinked(old(st.Abs()), old(View(st.space)), View(st.space), ep)
    ensures ep in st.records && (WellQueued(st.records, st.links, ep) <==> |old(st.queues)[ep]| == 1)
    ensures |old(st.queues)[ep]| == 1 ==>
      st.Valid() && HasHead(old(st.Abs()), ep) && st.Abs() == FastEffect(old(st.Abs()), ep, badge)
  {
    ghost var k := st.Abs();
    HeadIsFirst(st.records, st.links, st.queues, ep);
    var dest := st.records[ep].head;
    assert HasHead(k, ep) && dest == HeadOf(k, ep);
    FastDequeue(st, ep, dest);
    FastWrites(st, dest, badge);
    if |old(st.queues)[ep]| == 1 { CommitIsEffect(k, st.Abs(), ep, badge); }
  }

  /** The caller waits for the reply and the receiver runs. */
  function Switched(s: Sched, cur: nat, dest: nat): (r: Sched)
    requires cur in s.threads && dest in s.threads
  {
    var threads := s.threads[cur := s.threads[cur].(state := BlockedOnReply)];
    s.(threads := threads[dest := s.threads[dest].(state := Running)], cur := dest)
  }

  lemma CommitIsEffect(k: Kernel, r: Kernel, ep: nat, badge: Badge)
    requires HasHead(k, ep) && k.sched.cur in k.sched.threads && HeadOf(k, ep) in k.tcbs
    requires
      var dest, cur, s := HeadOf(k, ep), k.sched.cur, k.sched;
      && r.sched ==
        Switched(s, cur, dest)
      && r.objects == IpcSpec.PopHead(k, ep).objects && r.tcbs == k.tcbs[dest := k.tcbs[dest].(badge := badge)]
      && r.masters == k.masters
      && r.replies == k.replies[CallerSlot(dest) := Reply(cur, k.tcbs[dest].blocking.canGrant)]
    ensures r == FastEffect(k, ep, badge)
  {}

  /** The writes to the endpoint and the links. */
  method FastDequeue(st: IpcState, ep: nat, dest: nat)
    requires AllReps(st.records, st.links, st.queues) && ep in st.records && st.records[ep].EndpointRec?
    requires st.queues[ep] != [] && dest == st.queues[ep][0]
    modifies st`records, st`links, st`queues
    ensures st.links.Keys == old(st.links).Keys && st.records.Keys == old(st.records).Keys
    ensures WellQueued(st.records, st.links, ep) <==> |old(st.queues)[ep]| == 1
    ensures |old(st.queues)[ep]| == 1 ==>
      && AllReps(st.records, st.links, st.queues)
      && Objects(st.records, st.queues) ==
           old(Objects(st.records, st.queues))[ep := WithQueue(old(Objects(st.records, st.queues))[ep],
             old(st.queues)[ep][1..])]
  {
    ghost var records0, links0, queues0, q := st.records, st.links, st.queues, st.queues[ep];
    assert RepOf(records0, links0, queues0, ep);
    FastDequeueIff(st.links, st.records[ep], q);
    var next := st.links[dest].next;
    st.records := st.records[ep := EndpointRec(st.records[ep].epState, next, st.records[ep].tail)];
    if next != 0 {
      st.links := st.links[next := Link(0, st.links[next].prev)];
    } else {
      st.records := st.records[ep := EndpointRec(EpIdle, next, 0)];
    }
    assert st.records == records0[ep := FastRecord(records0[ep], next)] && st.links == FastLinks(links0, next);
    if |q| == 1 {
      Neighbours(links0, q, 0);
      st.queues := st.queues[ep := []];
      EmptyReps(records0, links0, queues0, ep);
      ObjectsUpdate(records0, queues0, ep, FastRecord(records0[ep], next), []);
    }
  }

  /** The writes to the two threads' states and the current thread. */
  method FastSwitch(sched: S.Scheduler, dest: nat)
    requires sched.Valid() && dest in sched.threads && dest != sched.cur
    modifies sched`threads, sched`cur
    ensures sched.Valid()
    ensures
      var s, cur := old(sched.Abs()), old(sched.cur);
      sched.Abs() ==
        Switched(s, cur, dest)
  {
    WriteState(sched, sched.cur, BlockedOnReply);
    WriteState(sched, dest, Running);
    sched.cur := dest;
  }

  /** The writes to the caller slot, the master and the badge register. */
  method FastTransfer(st: IpcState, dest: nat, badge: Badge)
    requires Inv(st.space, st.layout) && dest in st.tcbs && MayInsert(View(st.space), st.layout, st.sched.cur, dest)
    modifies st`tcbs, st.space
    ensures Inv(st.space, st.layout) && st.tcbs == old(st.tcbs)[dest := old(st.tcbs)[dest].(badge := badge)]
    ensures Effected(old(View(st.space)), View(st.space),
      Insert(st.sched.cur, dest, old(st.tcbs)[dest].blocking.canGrant))
    ensures RepliesOf(st.space.slots) ==
      old(RepliesOf(st.space.slots))[CallerSlot(dest) := Reply(st.sched.cur, old(st.tcbs)[dest].blocking.canGrant)]
    ensures MastersOf(st.space.slots) == old(MastersOf(st.space.slots))
  {
    FastInsertReply(st.space, st.layout, st.sched.cur, dest, st.tcbs[dest].blocking.canGrant);
    st.tcbs := st.tcbs[dest := st.tcbs[dest].(badge := badge)];
  }

  /** All writes but those to the endpoint's queue. */
  method FastWrites(st: IpcState, dest: nat, badge: Badge)
    requires st.sched.Valid() && dest in st.sched.threads && dest in st.tcbs && dest != st.sched.cur
    requires Inv(st.space, st.layout) && MayInsert(View(st.space), st.layout, st.sched.cur, dest)
    modifies st`tcbs, st.space, st.sched`threads, st.sched`cur
    ensures st.sched.Valid() && Inv(st.space, st.layout)
    ensures Effected(old(View(st.space)), View(st.space),
      Insert(old(st.sched.cur), dest, old(st.tcbs)[dest].blocking.canGrant))
    ensures
      var s, cur := old(st.sched.Abs()), old(st.sched.cur);
      && st.sched.Abs() ==
        Switched(s, cur, dest)
      && st.tcbs == old(st.tcbs)[dest := old(st.tcbs)[dest].(badge := badge)]
      && RepliesOf(st.space.slots) ==
        old(RepliesOf(st.space.slots))[CallerSlot(dest) := Reply(cur, old(st.tcbs)[dest].blocking.canGrant)]
      && MastersOf(st.space.slots) == old(MastersOf(st.space.slots))
  {
    FastTransfer(st, dest, badge);
    FastSwitch(st.sched, dest);
  }

  /** The thread state written directly, without set_thread_state. */
  method WriteState(sched: S.Scheduler, t: nat, state: ThreadState)
    requires sched.Valid() && t in sched.threads
    modifies sched`threads
    ensures sched.Valid()
    ensures sched.Abs() == old(sched.Abs()).(threads := old(sched.threads)[t := old(sched.threads)[t].(state := state)])
  {
    S.RewriteRefines(sched.threads, sched.queued, sched.links, sched.heads, sched.tails, sched.queues, t,
      sched.threads[t].(state := state));
    sched.threads := sched.threads[t := sched.threads[t].(state := state)];
  }
}
