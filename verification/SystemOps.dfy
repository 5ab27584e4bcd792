/** Operations on capabilities carried out in the running system: the capability space changes, and threads and objects
    follow (kernel/src/interfaces_impl/cspace.rs, sel4_cspace/src/cte.rs). */
module SystemOps {
  import opened Caps
  import opened Mdb
  import opened Containers
  import opened Deletion
  import opened SchedulerSpec
  import opened IpcSpec
  import opened IpcSafety
  import opened ReplySafety
  import opened IpcRuns
  import opened ReplySlots
  import opened ReplyRuns
  import opened SystemRuns
  import SpaceRuns

  // ---- the list of what is to be done ----

  /** The operation may be performed now, as long as no thread is about to be switched to. */
  predicate Ready(k: Kernel, op: KernelOp) {
    match op
    case SuspendTcb(t) => t in k.sched.threads && t != k.sched.idle
    case UnbindNtfn(t) => t in k.tcbs
    case CancelWaiters(o) => o in k.objects
    case NewObject(o, kind) => MayCreate(k, o, kind)
    case _ => false
  }

  /** Two new objects have two places. */
  predicate Apart(op: KernelOp, next: KernelOp) {
    op.NewObject? && next.NewObject? && op.kind.NewTcb? == next.kind.NewTcb? ==> op.o != next.o
  }

  /** Threads and objects stay, and nobody is about to be switched to. */
  predicate Remain(k: Kernel, r: Kernel) {
    && k.sched.threads.Keys <= r.sched.threads.Keys && k.tcbs.Keys <= r.tcbs.Keys && k.objects.Keys <= r.objects.Keys
    && r.sched.idle == k.sched.idle && !r.sched.action.SwitchTo?
  }

  lemma SuspendRemains(k: Kernel, t: nat)
    requires Shape(k) && t in k.sched.threads && (IsWaiting(StateOf(k, t)) ==> WaitsSomewhere(k, t))
    requires !k.sched.action.SwitchTo?
    ensures Remain(k, SuspendThread(k, t)) && SuspendThread(k, t).sched.threads.Keys == k.sched.threads.Keys
    ensures SuspendThread(k, t).objects.Keys == k.objects.Keys
  {}

  lemma CancelRemains(k: Kernel, o: nat)
    requires Ok(k) && o in k.objects && !k.sched.action.SwitchTo?
    ensures Remain(k, CancelAll(k, o)) && CancelAll(k, o).sched.threads.Keys == k.sched.threads.Keys
    ensures CancelAll(k, o).objects.Keys == k.objects.Keys
  {
    assert ObjectOk(k, o);
    ReadyAllIdle(k.sched, QueueOf(k.objects[o]));
  }

  lemma ReadyMay(k: Kernel, op: KernelOp)
    requires Ok(k) && !k.sched.action.SwitchTo? && Ready(k, op)
    ensures May(k, op) && Remain(k, Step(k, op))
    ensures op.NewObject?
      || (Step(k, op).sched.threads.Keys == k.sched.threads.Keys && Step(k, op).objects.Keys == k.objects.Keys)
  {
    match op
    case SuspendTcb(t) => SuspendThreadOk(k, t); SuspendRemains(k, t);
    case UnbindNtfn(t) => UnbindOk(k, t);
    case CancelWaiters(o) => CancelRemains(k, o);
    case NewObject(o, kind) =>
  }

  lemma StaysReady(k: Kernel, op: KernelOp, next: KernelOp)
    requires Ok(k) && !k.sched.action.SwitchTo? && Ready(k, op) && Ready(k, next) && Apart(op, next)
    ensures May(k, op) && Ready(Step(k, op), next)
  {
    ReadyMay(k, op);
  }

  /** A list of such operations can be performed. */
  lemma {:induction false} AllMay(k: Kernel, acts: seq<KernelOp>)
    requires Ok(k) && !k.sched.action.SwitchTo? && forall i :: 0 <= i < |acts| ==> Ready(k, acts[i])
    requires forall i, j :: 0 <= i < j < |acts| ==> Apart(acts[i], acts[j])
    ensures MayAll(k, acts)
    decreases |acts|
  {
    if acts != [] {
      ReadyMay(k, acts[0]);
      var m := Step(k, acts[0]);
      forall i | 0 <= i < |acts[1..]|
        ensures Ready(m, acts[1..][i])
      {
        StaysReady(k, acts[0], acts[i + 1]);
      }
      AllMay(m, acts[1..]);
    }
  }

  /** One of them, carried out. */
  method Enact(k: Kernel, op: KernelOp) returns (r: Kernel)
    requires Ok(k) && May(k, op) && Quiet(op)
    ensures r == Step(k, op)
  {
    match op {
      case SuspendTcb(t) => SuspendThreadOk(k, t); r := SuspendThread(k, t);
      case UnbindNtfn(t) => UnbindOk(k, t); r := Unbind(k, t);
      case CancelWaiters(o) => r := CancelAll(k, o);
      case NewObject(o, kind) => r := Create(k, o, kind);
    }
  }

  method EnactAll(k: Kernel, acts: seq<KernelOp>) returns (r: Kernel)
    requires Ok(k) && MayAll(k, acts) && forall i :: 0 <= i < |acts| ==> Quiet(acts[i])
    ensures r == Steps(k, acts)
  {
    r := k;
    for i := 0 to |acts|
      invariant Ok(r) && MayAll(r, acts[i..]) && Steps(r, acts[i..]) == Steps(k, acts)
    {
      TakeFirst(r, acts, i);
      r := Enact(r, acts[i]);
    }
    assert acts[|acts|..] == [];
  }

  lemma TakeFirst(k: Kernel, acts: seq<KernelOp>, i: nat)
    requires i < |acts| && Ok(k) && MayAll(k, acts[i..])
    ensures May(k, acts[i]) && MayAll(Step(k, acts[i]), acts[i + 1..])
    ensures Steps(k, acts[i..]) == Steps(Step(k, acts[i]), acts[i + 1..])
  {
    assert acts[i..][0] == acts[i] && acts[i..][1..] == acts[i + 1..];
  }

  // ---- an operation on capabilities ----

  /** The threads of k that went. */
  function Suspends(k: Kernel, slots: Slots, slots': Slots): (ts: set<nat>) {
    set t | t in k.sched.threads && t != k.sched.idle && GoneThread(slots, slots', t)
  }

  /** Those, and the threads bound to notifications that went. */
  function Unbinds(k: Kernel, slots: Slots, slots': Slots): (ts: set<nat>) {
    set t | t in k.tcbs && (t in Suspends(k, slots, slots') || BoundToGone(k, slots, slots', t))
  }

  function Cancels(k: Kernel, slots: Slots, slots': Slots): (os: set<nat>) {
    set o | o in k.objects && GoneObject(slots, slots', o)
  }

  /** The new threads, endpoints and notifications at places where none was. */
  function NewTcbs(k: Kernel, slots: Slots, slots': Slots): (ts: set<nat>) {
    set b | b in slots' && slots'[b].cap.ThreadCap? && MayCreate(k, slots'[b].cap.ptr, NewTcb)
      && GoneThread(slots', slots, slots'[b].cap.ptr) ::
      slots'[b].cap.ptr
  }

  function NewObjects(k: Kernel, slots: Slots, slots': Slots): (os: set<nat>) {
    set b | b in slots' && (slots'[b].cap.EndpointCap? || slots'[b].cap.NotificationCap?) && slots'[b].cap.ptr != 0
            && slots'[b].cap.ptr !in k.objects && GoneObject(slots', slots, slots'[b].cap.ptr) :: slots'[b].cap.ptr
  }

  function KindAt(slots: Slots, o: nat): (kind: NewKind) {
    if exists b | b in slots :: slots[b].cap.EndpointCap? && slots[b].cap.ptr == o then NewEndpoint else NewNotification
  }

  /** What has to be done, as a list. */
  predicate Todo(k: Kernel, slots: Slots, slots': Slots, acts: seq<KernelOp>) {
    && (forall i :: 0 <= i < |acts| ==> Ready(k, acts[i]) && Act(k, slots, slots', acts[i]))
    && (forall i, j :: 0 <= i < j < |acts| ==> Apart(acts[i], acts[j]))
  }

  predicate Finals(acts: seq<KernelOp>) {
    forall i :: 0 <= i < |acts| ==> !acts[i].NewObject?
  }

  lemma TodoJoin(k: Kernel, slots: Slots, slots': Slots, acts: seq<KernelOp>, more: seq<KernelOp>)
    requires Todo(k, slots, slots', acts) && Todo(k, slots, slots', more)
    requires forall i, j :: 0 <= i < |acts| && 0 <= j < |more| ==> Apart(acts[i], more[j])
    ensures Todo(k, slots, slots', acts + more)
  {
    var all := acts + more;
    forall i, j | 0 <= i < j < |all|
      ensures Apart(all[i], all[j])
    {
      assert all[i] == if i < |acts| then acts[i] else more[i - |acts|];
      assert all[j] == if j < |acts| then acts[j] else more[j - |acts|];
    }
  }

  lemma {:induction false} SuspendedJoin(acts: seq<KernelOp>, more: seq<KernelOp>)
    ensures Suspended(acts + more) == Suspended(acts) + Suspended(more)
  {
    if acts == [] {
      assert acts + more == more;
    } else {
      assert (acts + more)[0] == acts[0] && (acts + more)[1..] == acts[1..] + more;
      SuspendedJoin(acts[1..], more);
    }
  }

  method ListUnbinds(k: Kernel, slots: Slots, slots': Slots) returns (acts: seq<KernelOp>)
    ensures Todo(k, slots, slots', acts) && Finals(acts)
  {
    acts := [];
    var rest := Unbinds(k, slots, slots');
    while rest != {}
      invariant rest <= Unbinds(k, slots, slots') && Todo(k, slots, slots', acts) && Finals(acts)
      decreases rest
    {
      var t :| t in rest;
      rest := rest - {t};
      acts := acts + [UnbindNtfn(t)];
    }
  }

  method ListSuspends(k: Kernel, slots: Slots, slots': Slots) returns (acts: seq<KernelOp>)
    ensures Todo(k, slots, slots', acts) && Finals(acts) && Suspended(acts) == Suspends(k, slots, slots')
  {
    acts := [];
    var rest := Suspends(k, slots, slots');
    while rest != {}
      invariant rest <= Suspends(k, slots, slots') && Todo(k, slots, slots', acts) && Finals(acts)
      invariant Suspended(acts) == Suspends(k, slots, slots') - rest
      decreases rest
    {
      var t :| t in rest;
      rest := rest - {t};
      SuspendedJoin(acts, [SuspendTcb(t)]);
      assert Suspended([SuspendTcb(t)]) == {t};
      acts := acts + [SuspendTcb(t)];
    }
  }

  method ListCancels(k: Kernel, slots: Slots, slots': Slots) returns (acts: seq<KernelOp>)
    ensures Todo(k, slots, slots', acts) && Finals(acts)
    ensures forall o :: o in Cancels(k, slots, slots') ==> CancelWaiters(o) in acts
  {
    acts := [];
    var rest := Cancels(k, slots, slots');
    while rest != {}
      invariant rest <= Cancels(k, slots, slots') && Todo(k, slots, slots', acts) && Finals(acts)
      invariant forall o :: o in Cancels(k, slots, slots') && o !in rest ==> CancelWaiters(o) in acts
      decreases rest
    {
      var o :| o in rest;
      rest := rest - {o};
      acts := acts + [CancelWaiters(o)];
    }
  }

  method ListTcbs(k: Kernel, slots: Slots, slots': Slots) returns (acts: seq<KernelOp>)
    ensures Todo(k, slots, slots', acts) && forall i :: 0 <= i < |acts| ==> acts[i].NewObject? && acts[i].kind.NewTcb?
  {
    acts := [];
    var rest := NewTcbs(k, slots, slots');
    while rest != {}
      invariant rest <= NewTcbs(k, slots, slots') && Todo(k, slots, slots', acts)
      invariant forall i :: 0 <= i < |acts| ==> acts[i].NewObject? && acts[i].kind.NewTcb? && acts[i].o !in rest
      decreases rest
    {
      var t :| t in rest;
      rest := rest - {t};
      acts := acts + [NewObject(t, NewTcb)];
    }
  }

  method ListObjects(k: Kernel, slots: Slots, slots': Slots) returns (acts: seq<KernelOp>)
    ensures Todo(k, slots, slots', acts) && forall i :: 0 <= i < |acts| ==> acts[i].NewObject? && !acts[i].kind.NewTcb?
  {
    acts := [];
    var rest := NewObjects(k, slots, slots');
    while rest != {}
      invariant rest <= NewObjects(k, slots, slots') && Todo(k, slots, slots', acts)
      invariant forall i :: 0 <= i < |acts| ==> acts[i].NewObject? && !acts[i].kind.NewTcb? && acts[i].o !in rest
      decreases rest
    {
      var o :| o in rest;
      rest := rest - {o};
      acts := acts + [NewObject(o, KindAt(slots', o))];
    }
  }

  method ListFinals(k: Kernel, slots: Slots, slots': Slots) returns (acts: seq<KernelOp>)
    ensures Todo(k, slots, slots', acts) && Finals(acts) && Suspends(k, slots, slots') <= Suspended(acts)
    ensures forall o :: o in Cancels(k, slots, slots') ==> CancelWaiters(o) in acts
  {
    var unbinds := ListUnbinds(k, slots, slots');
    var suspends := ListSuspends(k, slots, slots');
    var cancels := ListCancels(k, slots, slots');
    TodoJoin(k, slots, slots', unbinds, suspends);
    TodoJoin(k, slots, slots', unbinds + suspends, cancels);
    SuspendedJoin(unbinds, suspends);
    SuspendedJoin(unbinds + suspends, cancels);
    acts := unbinds + suspends + cancels;
  }

  /** Everything that went is finalised, everything that is new is made. */
  method ListActs(k: Kernel, slots: Slots, slots': Slots) returns (acts: seq<KernelOp>)
    ensures Todo(k, slots, slots', acts) && ActsFor(k, slots, slots', acts)
  {
    var finals := ListFinals(k, slots, slots');
    var tcbs := ListTcbs(k, slots, slots');
    var objects := ListObjects(k, slots, slots');
    TodoJoin(k, slots, slots', finals, tcbs);
    TodoJoin(k, slots, slots', finals + tcbs, objects);
    SuspendedJoin(finals, tcbs);
    SuspendedJoin(finals + tcbs, objects);
    acts := finals + tcbs + objects;
  }

  /** All of it is done. */
  method Settle(k: Kernel, slots: Slots, slots': Slots) returns (r: Kernel, acts: seq<KernelOp>)
    requires Ok(k) && !k.sched.action.SwitchTo?
    ensures MayAll(k, acts) && ActsFor(k, slots, slots', acts) && r == Steps(k, acts)
  {
    acts := ListActs(k, slots, slots');
    AllMay(k, acts);
    r := EnactAll(k, acts);
  }

  lemma FollowIsNext(k: Kernel, acts: seq<KernelOp>, d: Db, l: Layout, op: SpaceRuns.SpaceOp, d': Db, l': Layout)
    requires Ok(k) && Coupled(k, d, l) && SpaceRuns.May(d.slots, l, op) && SpaceRuns.SpaceStep(d, l, op, d', l')
    requires MayAll(k, acts) && ActsFor(k, d.slots, d'.slots, acts)
    ensures
      var k' := Changed(Steps(k, acts), d'.slots);
      Next(Sys(k, d, l), Space(op, acts), Sys(k', d', l')) && Ok(k') && Coupled(k', d', l')
  {
    SpaceIsChange(k, acts, d, l, op, d', l');
    ChangeKeepsOk(Steps(k, acts), d', l');
  }

  /** Threads and objects follow the capability space. */
  method FollowSpace(k: Kernel, slots: Slots, slots': Slots, ghost d: Db, ghost l: Layout, ghost op: SpaceRuns.SpaceOp,
      ghost d': Db, ghost l': Layout)
    returns (k': Kernel, acts: seq<KernelOp>)
    requires Ok(k) && Coupled(k, d, l) && SpaceRuns.May(d.slots, l, op) && SpaceRuns.SpaceStep(d, l, op, d', l')
    requires !k.sched.action.SwitchTo? && slots == d.slots && slots' == d'.slots
    ensures Next(Sys(k, d, l), Space(op, acts), Sys(k', d', l')) && Ok(k') && Coupled(k', d', l')
  {
    var r;
    r, acts := Settle(k, slots, slots');
    k' := Changed(r, slots');
    FollowIsNext(k, acts, d, l, op, d', l');
  }

  /** An operation on capabilities, with no thread about to be switched to, is an event of the system's runs. Only a
      deletion can stop, and only next to the first slot of a zombie. */
  method PerformInSystem(k: Kernel, cs: CSpace, l: Layout, op: SpaceRuns.SpaceOp)
    returns (k': Kernel, l': Layout, status: Status, acts: seq<KernelOp>)
    requires Ok(k) && Coupled(k, View(cs), l) && SpaceRuns.May(cs.slots, l, op) && !k.sched.action.SwitchTo?
    modifies cs
    ensures status.Done? ==>
      Next(Sys(k, old(View(cs)), l), Space(op, acts), Sys(k', View(cs), l')) && Ok(k') && Coupled(k', View(cs), l')
    ensures status.AdjacentSwap? ==> (op.Delete? || op.Revoke?) && AtSwap(cs.slots)
  {
    ghost var d := View(cs);
    var slots := cs.slots;
    RepliesAreAwaited(k, d, l);
    l', status := SpaceRuns.Perform(cs, l, Waiting(k), op);
    k', acts := k, [];
    if status.Done? { k', acts := FollowSpace(k, slots, cs.slots, d, l, op, View(cs), l'); }
  }
}
