/** The running system: IPC, scheduling and all operations on capabilities, deletion and revocation included, in one run
    (kernel/src/syscall/invocation/invoke_cnode.rs, kernel/src/syscall/invocation/invoke_untyped.rs,
    kernel/src/interfaces_impl/cspace.rs). */
module SystemRuns {
  import opened Config
  import opened Caps
  import opened Mdb
  import opened ReplyMdb
  import opened Containers
  import opened DeletionFrame
  import opened Deletion
  import opened Revoke
  import opened SchedulerSpec
  import opened IpcSpec
  import opened KernelExit
  import opened IpcRuns
  import opened ReplySlots
  import opened ReplyEffects
  import opened ReplyRuns
  import SpaceRuns

  // ---- what an operation on capabilities does to threads and objects ----

  /** The last capability to thread t went. */
  predicate GoneThread(slots: Slots, slots': Slots, t: nat) {
    t % TCB_SIZE == TCB_OFFSET && Live(slots, TcbOf(t)) && !Live(slots', TcbOf(t))
  }

  predicate NamesObject(c: Cap, o: nat) {
    (c.EndpointCap? || c.NotificationCap?) && c.ptr == o
  }

  predicate HasCap(slots: Slots, o: nat) {
    exists b | b in slots :: NamesObject(slots[b].cap, o)
  }

  /** The last capability to endpoint or notification o went. */
  predicate GoneObject(slots: Slots, slots': Slots, o: nat) {
    HasCap(slots, o) && !HasCap(slots', o)
  }

  /** Thread t is bound to a notification that went. */
  predicate BoundToGone(k: Kernel, slots: Slots, slots': Slots, t: nat) {
    exists o | o in k.objects :: k.objects[o].Notification? && k.objects[o].boundTcb == t
      && GoneObject(slots, slots', o)
  }

  /** What finaliseCap and create_object do besides: a thread that went is unbound and suspended, the waiters of an
      object that went are woken, a notification that went is unbound; what is new is made. */
  predicate Act(k: Kernel, slots: Slots, slots': Slots, op: KernelOp) {
    match op
    case SuspendTcb(t) => GoneThread(slots, slots', t)
    case UnbindNtfn(t) => GoneThread(slots, slots', t) || BoundToGone(k, slots, slots', t)
    case CancelWaiters(o) => GoneObject(slots, slots', o)
    case NewObject(o, kind) => if kind.NewTcb? then GoneThread(slots', slots, o) else GoneObject(slots', slots, o)
    case _ => false
  }

  function Suspended(acts: seq<KernelOp>): (ts: set<nat>) {
    if acts == [] then {} else (if acts[0].SuspendTcb? then {acts[0].t} else {}) + Suspended(acts[1..])
  }

  /** These and nothing else, in any order, for everything that went. */
  ghost predicate ActsFor(k: Kernel, slots: Slots, slots': Slots, acts: seq<KernelOp>) {
    && (forall i :: 0 <= i < |acts| ==> Act(k, slots, slots', acts[i]))
    && (forall t {:trigger GoneThread(slots, slots', t)} ::
          t in k.sched.threads && t != k.sched.idle && GoneThread(slots, slots', t) ==> t in Suspended(acts))
    && (forall o {:trigger GoneObject(slots, slots', o)} ::
          o in k.objects && GoneObject(slots, slots', o) ==> CancelWaiters(o) in acts)
  }

  /** Operations of which none starts a thread or makes a reply. */
  predicate Quiet(op: KernelOp) {
    op.SuspendTcb? || op.UnbindNtfn? || op.CancelWaiters? || op.NewObject?
  }

  /** Threads and replies after quiet operations: suspended threads are not started and lose their replies, nobody
      else's change. */
  ghost predicate Quieted(k: Kernel, r: Kernel, ts: set<nat>) {
    && r.masters == k.masters && r.sched.idle == k.sched.idle && k.sched.threads.Keys <= r.sched.threads.Keys
    && (forall t {:trigger Started(r, t)} :: Started(r, t) ==> Started(k, t) && t !in ts)
    && (forall s {:trigger ReplyStays(k, r, ts, s)} :: ReplyStays(k, r, ts, s))
  }

  predicate ReplyStays(k: Kernel, r: Kernel, ts: set<nat>, s: nat) {
    s in k.replies && k.replies[s].caller !in ts ==> s in r.replies && r.replies[s] == k.replies[s]
  }

  lemma ActQuiets(k: Kernel, op: KernelOp)
    requires Ok(k) && May(k, op) && Quiet(op)
    ensures Quieted(k, Step(k, op), if op.SuspendTcb? then {op.t} else {})
  {
    StepFollows(k, op);
    OnlyResumeStarts(k, op);
    if op.SuspendTcb? {
      SuspendWaits(k, op.t);
      SuspendQuiets(k, op.t, Step(k, op));
    }
  }

  lemma SuspendWaits(k: Kernel, t: nat)
    requires Ok(k) && t in k.sched.threads
    ensures IsWaiting(StateOf(k, t)) ==> WaitsSomewhere(k, t)
  {
    assert ThreadOk(k, t);
  }

  lemma SuspendQuiets(k: Kernel, t: nat, r: Kernel)
    requires Shape(k) && t in k.sched.threads && (IsWaiting(StateOf(k, t)) ==> WaitsSomewhere(k, t))
    requires r == SuspendThread(k, t)
    requires NoneStarted(k, r) && Follows(k, r, CancelEffects(k, t))
    ensures Quieted(k, r, {t})
  {
    var es := CancelEffects(k, t);
    if es != [] { Unfold1(k.replies, k.masters, es[0]); assert es == [es[0]]; }
    SuspendStops(k, t);
  }

  lemma SuspendStops(k: Kernel, t: nat)
    requires Shape(k) && t in k.sched.threads && (IsWaiting(StateOf(k, t)) ==> WaitsSomewhere(k, t))
    ensures !Started(SuspendThread(k, t), t)
  {}

  lemma QuietedTrans(k: Kernel, m: Kernel, r: Kernel, ts: set<nat>, us: set<nat>)
    requires Quieted(k, m, ts) && Quieted(m, r, us)
    ensures Quieted(k, r, ts + us)
  {
    forall t | Started(r, t)
      ensures Started(k, t) && t !in ts + us
    {
      assert Started(m, t);
    }
    forall s
      ensures ReplyStays(k, r, ts + us, s)
    {
      assert ReplyStays(k, m, ts, s) && ReplyStays(m, r, us, s);
    }
  }

  lemma {:induction false} ActsQuiet(k: Kernel, acts: seq<KernelOp>)
    requires Ok(k) && MayAll(k, acts) && forall i :: 0 <= i < |acts| ==> Quiet(acts[i])
    ensures Quieted(k, Steps(k, acts), Suspended(acts))
    decreases |acts|
  {
    if acts != [] {
      var m := Step(k, acts[0]);
      ActQuiets(k, acts[0]);
      ActsQuiet(m, acts[1..]);
      QuietedTrans(k, m, Steps(m, acts[1..]), if acts[0].SuspendTcb? then {acts[0].t} else {}, Suspended(acts[1..]));
    }
  }

  // ---- what started threads keep ----

  /** The threads that wait for a reply. */
  function Waiting(k: Kernel): (w: set<nat>) {
    set t | t in k.sched.threads && k.sched.threads[t].state == BlockedOnReply
  }

  /** Every reply capability is for one of them. */
  lemma RepliesAreAwaited(k: Kernel, d: Db, l: Layout)
    requires Ok(k) && Coupled(k, d, l)
    ensures RepliesBlocked(d.slots, Waiting(k))
  {
    forall t | t !in Waiting(k)
      ensures NoReplies(d.slots, t)
    {
      forall b | b in d.slots
        ensures !IsReply(d.slots[b].cap, t)
      {
        assert b in k.replies ==> ReplyOk(k, b);
      }
    }
  }

  /** A reply capability is for a thread that something stands for. */
  lemma ReplyIsLive(d: Db, l: Layout, s: nat, t: nat)
    requires DbOk(d, l) && s in d.slots && IsReply(d.slots[s].cap, t)
    ensures t % TCB_SIZE == TCB_OFFSET && Live(d.slots, TcbOf(t))
  {
    MasterThere(d, l, s, t);
    var m := ReplySlot(t);
    assert CapOk(d.slots, l, m) && ReplySlotOk(d.slots, l, m);
    var h :| Houses(d.slots, l.owner[m], h);
    assert CapOk(d.slots, l, h);
    assert d.slots[h].cap.ZombieCap? ==> NoReplies(d.slots, t);
  }

  /** Every reply capability was one before. */
  lemma RepliesCame(d: Db, l: Layout, op: SpaceRuns.SpaceOp, d': Db, l': Layout, s: nat)
    requires SpaceRuns.SpaceStep(d, l, op, d', l') && s in RepliesOf(d'.slots)
    ensures exists a :: a in d.slots && d.slots[a].cap == d'.slots[s].cap
  {
    if op.Delete? || op.Revoke? { assert Came(d.slots, d'.slots, s); }
      else { assert SpaceRuns.ReplyFrom(d.slots, d'.slots, s); }
  }

  /** A slot of a TCB that something still stands for keeps what it holds, or loses a capability that is no master. */
  lemma SlotStays(d: Db, l: Layout, op: SpaceRuns.SpaceOp, d': Db, l': Layout, t: nat, c: nat)
    requires DbOk(d, l) && SpaceRuns.May(d.slots, l, op) && SpaceRuns.SpaceStep(d, l, op, d', l')
    requires c in d.slots && c in l.owner && l.owner[c] == TcbOf(t) && Live(d'.slots, TcbOf(t))
    ensures c in d'.slots
    ensures d'.slots[c].cap == d.slots[c].cap
      || (d'.slots[c].cap == NullCap && !(c in l.replySlots && d.slots[c].cap.ReplyCap? && d.slots[c].cap.master))
  {
    match op
    case Delete(a) => assert TakenAt(d.slots, d'.slots, l, Names(d.slots[a].cap), {a}, true, c);
    case Revoke(a) => assert TakenAt(d.slots, d'.slots, l, KinNames(d.slots, a), Kin(d.slots, a), true, c);
    case _ => assert SpaceRuns.TcbSlotKept(d.slots, d'.slots, l, c);
  }

  /** What a started thread keeps. */
  lemma ThreadStays(k: Kernel, r: Kernel, d: Db, l: Layout, op: SpaceRuns.SpaceOp, d': Db, l': Layout, t: nat)
    requires Ok(k) && Coupled(k, d, l) && SpaceRuns.May(d.slots, l, op) && SpaceRuns.SpaceStep(d, l, op, d', l')
    requires Ok(r) && r.masters == k.masters && Started(k, t) && Started(r, t) && !GoneThread(d.slots, d'.slots, t)
    requires StateOf(r, t) == BlockedOnReceive && CallerSlot(t) in RepliesOf(d'.slots) ==>
      CallerSlot(t) in r.replies || CallerSlot(t) !in k.replies
    ensures StillSeated(r, d'.slots, l', t)
  {
    var c, m := CallerSlot(t), ReplySlot(t);
    assert Seated(k, d.slots, l, t) && CallerOk(r, t);
    ThreadSlotsThere(d.slots, l, t);
    SlotStays(d, l, op, d', l', t, c);
    SlotStays(d, l, op, d', l', t, m);
    if t in k.masters {
      MasterPlace(d, l, t);
      assert m in d'.slots && d'.slots[m].cap.tcb == t;
    }
  }

  /** No operation on capabilities brings a reply back: what is left of the replies is known to IPC. */
  lemma ReplyKnown(k: Kernel, r: Kernel, acts: seq<KernelOp>, d: Db, l: Layout, op: SpaceRuns.SpaceOp, d': Db,
      l': Layout, s: nat)
    requires Coupled(k, d, l) && SpaceRuns.SpaceStep(d, l, op, d', l') && Quieted(k, r, Suspended(acts))
    requires s in RepliesOf(d'.slots)
    requires forall t :: t in Suspended(acts) ==> GoneThread(d.slots, d'.slots, t)
    ensures WasThere(r, d'.slots, s)
    ensures s in k.replies && k.replies[s] == RepliesOf(d'.slots)[s] ==> s in r.replies
  {
    RepliesCame(d, l, op, d', l', s);
    var a :| a in d.slots && d.slots[a].cap == d'.slots[s].cap;
    ReplyIsLive(d', l', s, d'.slots[s].cap.tcb);
    assert a in k.replies && ReplyStays(k, r, Suspended(acts), a) && ReplyStays(k, r, Suspended(acts), s);
  }

  lemma {:induction false} ActsAre(k: Kernel, slots: Slots, slots': Slots, acts: seq<KernelOp>)
    requires forall i :: 0 <= i < |acts| ==> Act(k, slots, slots', acts[i])
    ensures forall i :: 0 <= i < |acts| ==> Quiet(acts[i])
    ensures forall t :: t in Suspended(acts) ==> GoneThread(slots, slots', t)
    decreases |acts|
  {
    if acts != [] { ActsAre(k, slots, slots', acts[1..]); assert acts == [acts[0]] + acts[1..]; }
  }

  lemma SpaceIsChange(k: Kernel, acts: seq<KernelOp>, d: Db, l: Layout, op: SpaceRuns.SpaceOp, d': Db, l': Layout)
    requires Ok(k) && Coupled(k, d, l) && SpaceRuns.May(d.slots, l, op) && SpaceRuns.SpaceStep(d, l, op, d', l')
    requires MayAll(k, acts) && ActsFor(k, d.slots, d'.slots, acts)
    ensures MayChange(Steps(k, acts), d', l')
  {
    var r := Steps(k, acts);
    ActsAre(k, d.slots, d'.slots, acts);
    ActsQuiet(k, acts);
    forall s | s in RepliesOf(d'.slots)
      ensures WasThere(r, d'.slots, s)
    {
      ReplyKnown(k, r, acts, d, l, op, d', l', s);
    }
    forall t
      ensures StillSeated(r, d'.slots, l', t)
    {
      if Started(r, t) { StartedStays(k, r, acts, d, l, op, d', l', t); }
    }
  }

  lemma StartedStays(k: Kernel, r: Kernel, acts: seq<KernelOp>, d: Db, l: Layout, op: SpaceRuns.SpaceOp, d': Db,
      l': Layout, t: nat)
    requires Ok(k) && Coupled(k, d, l) && SpaceRuns.May(d.slots, l, op) && SpaceRuns.SpaceStep(d, l, op, d', l')
    requires Ok(r) && Quieted(k, r, Suspended(acts)) && ActsFor(k, d.slots, d'.slots, acts) && Started(r, t)
    requires forall t :: t in Suspended(acts) ==> GoneThread(d.slots, d'.slots, t)
    ensures StillSeated(r, d'.slots, l', t)
  {
    var c := CallerSlot(t);
    assert Started(k, t) && t !in Suspended(acts);
    assert Seated(k, d.slots, l, t);
    if c in RepliesOf(d'.slots) && c in k.replies {
      ThreadSlotsThere(d.slots, l, t);
      SlotStays(d, l, op, d', l', t, c);
      ReplyKnown(k, r, acts, d, l, op, d', l', c);
    }
    ThreadStays(k, r, d, l, op, d', l', t);
  }

  // ---- every run ----

  datatype Sys = Sys(k: Kernel, d: Db, l: Layout)

  datatype Event =
    | Perform(op: KernelOp)
    | Return                                                    // schedule() and activateThread()
    | Space(space: SpaceRuns.SpaceOp, acts: seq<KernelOp>)      // an operation on capabilities

  ghost predicate Next(x: Sys, e: Event, y: Sys) {
    match e
    case Perform(op) =>
      && Ok(x.k) && May(x.k, op) && MaySlots(x.d, x.l, op)
      && y.k == Step(x.k, op) && y.l == x.l && AllEffected(x.d, y.d, EffectsOf(x.k, op))
    case Return => Ok(x.k) && y == x.(k := Leave(x.k))
    case Space(op, acts) =>
      && SpaceRuns.May(x.d.slots, x.l, op) && SpaceRuns.SpaceStep(x.d, x.l, op, y.d, y.l)
      && Ok(x.k) && MayAll(x.k, acts) && ActsFor(x.k, x.d.slots, y.d.slots, acts)
      && y.k == Changed(Steps(x.k, acts), y.d.slots)
  }

  ghost predicate IsRun(run: seq<Sys>, events: seq<Event>) {
    |run| == |events| + 1 && forall i {:trigger events[i]} :: 0 <= i < |events| ==> Next(run[i], events[i], run[i + 1])
  }

  /** One event keeps everything in step. */
  lemma NextKeepsCoupled(x: Sys, e: Event, y: Sys)
    requires Ok(x.k) && Coupled(x.k, x.d, x.l) && Next(x, e, y)
    ensures Ok(y.k) && Coupled(y.k, y.d, y.l)
  {
    match e
    case Perform(op) => StepKeepsCoupled(x.k, x.d, x.l, op, y.d);
    case Return => LeaveKeepsCoupled(x.k, x.d, x.l);
    case Space(op, acts) =>
      SpaceIsChange(x.k, acts, x.d, x.l, op, y.d, y.l);
      ChangeKeepsOk(Steps(x.k, acts), y.d, y.l);
  }

  lemma EventKeepsCoupled(run: seq<Sys>, events: seq<Event>, i: nat)
    requires IsRun(run, events) && i < |events| && Ok(run[i].k) && Coupled(run[i].k, run[i].d, run[i].l)
    ensures Ok(run[i + 1].k) && Coupled(run[i + 1].k, run[i + 1].d, run[i + 1].l)
  {
    var e := events[i];
    NextKeepsCoupled(run[i], e, run[i + 1]);
  }

  lemma RunKeepsCoupled(run: seq<Sys>, events: seq<Event>, i: nat)
    requires IsRun(run, events) && Ok(run[0].k) && Coupled(run[0].k, run[0].d, run[0].l) && i < |run|
    ensures Ok(run[i].k) && Coupled(run[i].k, run[i].d, run[i].l)
  {
    for j := 0 to i
      invariant Ok(run[j].k) && Coupled(run[j].k, run[j].d, run[j].l)
    {
      EventKeepsCoupled(run, events, j);
    }
  }

  /** Over every run of IPC operations, thread control and operations on capabilities: IPC's replies are exactly the
      reply capabilities in slots; each names a thread blocked on it and on no other, and is the MDB-next of that
      thread's master, so cancel_ipc finds it; and the queues are exact. */
  lemma EveryRunLinksReplies(run: seq<Sys>, events: seq<Event>, i: nat)
    requires IsRun(run, events) && Ok(run[0].k) && Coupled(run[0].k, run[0].d, run[0].l) && i < |run|
    ensures QueuesExact(run[i].k) && RepliesExact(run[i].k) && DbOk(run[i].d, run[i].l)
    ensures run[i].k.replies == RepliesOf(run[i].d.slots) && RepliesLinked(run[i].d.slots, run[i].k.replies)
  {
    RunKeepsCoupled(run, events, i);
    QueuesMean(run[i].k);
    RepliesMean(run[i].k);
    LinkedBehindMasters(run[i].d, run[i].l);
  }
}
