/** Every run of kernel entries: system calls, faults and interrupts, each followed by schedule() and
    activateThread(), keep IPC and scheduling consistent. */
module IpcRuns {
  import opened SchedulerSpec
  import opened SchedulerRuns
  import opened IpcSpec
  import opened IpcInvariants
  import opened IpcSafety
  import opened ReplySafety
  import opened KernelExit
  import opened CallPath

  datatype KernelOp =
    | Send(ep: nat, blocking: bool, call: bool, canGrant: bool, badge: Badge, canGrantReply: bool)
    | Fault(handler: nat, canGrant: bool, badge: Badge)
    | Stop                                            // a fault without a handler
    | Receive(ep: nat, blocking: bool, grant: bool)
    | Signal(ntfn: nat, badge: Badge)
    | Await(ntfn: nat, blocking: bool)
    | AnswerReply(slot: nat, resume: bool)
    | CancelBadged(ep: nat, badge: Badge)
    | CancelWaiters(o: nat)                           // finalising the last capability of the object
    | SuspendTcb(t: nat)
    | ResumeTcb(t: nat)
    | BindNtfn(t: nat, ntfn: nat)
    | UnbindNtfn(t: nat)
    | DropReply(slot: nat)
    | SaveReply(from: nat, to: nat)
    | Schedule(op: Op)
    | FastCall(ep: nat, canGrant: bool, badge: Badge, canGrantReply: bool)   // a call that takes the fast path
    | NewObject(o: nat, kind: NewKind)                // one of the objects a retype makes

  /** What the capability decoding establishes before an operation is performed. */
  ghost predicate May(k: Kernel, op: KernelOp)
    requires Ok(k)
  {
    match op
    case Send(ep, _, _, _, _, _) => CurrentRuns(k) && IsEndpoint(k, ep)
    case Fault(ep, _, _) => CurrentRuns(k) && IsEndpoint(k, ep)
    case Stop => CurrentRuns(k)
    case Receive(ep, _, _) => CurrentRuns(k) && IsEndpoint(k, ep)
    case Signal(n, _) => IsNotification(k, n)
    case Await(n, _) => CurrentRuns(k) && IsNotification(k, n)
    case AnswerReply(slot, _) => slot in k.replies
    case CancelBadged(ep, _) => IsEndpoint(k, ep)
    case CancelWaiters(o) => o in k.objects
    case SuspendTcb(t) => t in k.sched.threads && t != k.sched.idle && k.sched.action != SwitchTo(t)
    case ResumeTcb(t) => t in k.sched.threads && t != k.sched.idle
    case BindNtfn(t, n) => BindAllowed(k, t, n)
    case UnbindNtfn(t) => t in k.tcbs
    case DropReply(_) => true
    case SaveReply(from, to) =>
      from in k.replies && to !in k.replies && forall t {:trigger CallerSlot(t)} :: t in k.sched.threads ==>
        CallerSlot(t) != to
    case Schedule(op) => Plain(op) && Allowed(k.sched, op)
    case FastCall(ep, canGrant, _, canGrantReply) =>
      && AtUserLevel(k) && k.sched.cur != k.sched.idle && FastConditions(k, ep, canGrant, canGrantReply)
      && |QueueOf(k.objects[ep])| == 1 && !k.tcbs[k.sched.cur].faulted
    case NewObject(o, kind) => MayCreate(k, o, kind)
  }

  /** A fault is recorded and sent to the handler as a call. */
  function MarkFault(k: Kernel): (r: Kernel)
    requires k.sched.cur in k.tcbs
  {
    k.(tcbs := k.tcbs[k.sched.cur := k.tcbs[k.sched.cur].(faulted := true)])
  }

  lemma MarkFaultOk(k: Kernel)
    requires Ok(k) && CurrentRuns(k)
    ensures Ok(MarkFault(k)) && CurrentRuns(MarkFault(k))
  {
    NothingMoves(k, MarkFault(k));
  }

  lemma AfterDropOk(k: Kernel)
    requires Ok(k) && CurrentRuns(k)
    ensures Ok(DeleteReply(k, CallerSlot(k.sched.cur))) && CurrentRuns(DeleteReply(k, CallerSlot(k.sched.cur)))
    ensures CallerSlot(k.sched.cur) !in DeleteReply(k, CallerSlot(k.sched.cur)).replies
  {
    DeleteReplyOk(k, CallerSlot(k.sched.cur));
  }

  /** handle_recv: the caller slot is emptied, then the message is received. */
  ghost function HandleReceive(k: Kernel, ep: nat, blocking: bool, grant: bool): (r: Kernel)
    requires Ok(k) && CurrentRuns(k) && IsEndpoint(k, ep)
    ensures Ok(r)
  {
    AfterDropOk(k);
    var d := DeleteReply(k, CallerSlot(k.sched.cur));
    ReceiveOk(d, ep, blocking, grant);
    ReceiveIpc(d, k.sched.cur, ep, blocking, grant)
  }

  ghost function HandleFault(k: Kernel, ep: nat, canGrant: bool, badge: Badge): (r: Kernel)
    requires Ok(k) && CurrentRuns(k) && IsEndpoint(k, ep)
    ensures Ok(r)
  {
    MarkFaultOk(k);
    SendOk(MarkFault(k), ep, true, true, canGrant, badge, true);
    SendIpc(MarkFault(k), k.sched.cur, ep, true, true, canGrant, badge, true)
  }

  /** The fast path leaves what the slow path leaves. */
  lemma FastCallOk(k: Kernel, ep: nat, canGrant: bool, badge: Badge, canGrantReply: bool)
    requires AtUserLevel(k) && k.sched.cur != k.sched.idle && FastConditions(k, ep, canGrant, canGrantReply)
    ensures HeadOf(k, ep) in k.tcbs && AtUserLevel(FastEffect(k, ep, badge)) && Ok(FastEffect(k, ep, badge))
    ensures SlowCall(k, ep, canGrant, badge, canGrantReply) == FastEffect(k, ep, badge)
  {
    FastIsSlow(k, ep, canGrant, badge, canGrantReply);
    StableIsMid(FastEffect(k, ep, badge).sched);
  }

  // ---- one operation, one entry, one run ----

  /** Performing an operation: what the code asserts of queues, thread states and reply slots holds on the way, and the
      invariant is kept. The one assertion that can fail, on the receiver's receive slot, is CapTransfer's subject. */
  ghost function Step(k: Kernel, op: KernelOp): (r: Kernel)
    requires Ok(k) && May(k, op)
    ensures Ok(r)
  {
    match op
    case Send(ep, blocking, call, canGrant, badge, canGrantReply) =>
      SendOk(k, ep, blocking, call, canGrant, badge, canGrantReply);
      SendIpc(k, k.sched.cur, ep, blocking, call, canGrant, badge, canGrantReply)
    case Fault(ep, canGrant, badge) => HandleFault(k, ep, canGrant, badge)
    case Stop => StopCurrentOk(k, Inactive); SetThreadState(k, k.sched.cur, Inactive)
    case Receive(ep, blocking, grant) => HandleReceive(k, ep, blocking, grant)
    case Signal(n, badge) => SignalOk(k, n, badge); SendSignal(k, n, badge)
    case Await(n, blocking) => ReceiveSignalOk(k, n, blocking); ReceiveSignal(k, k.sched.cur, n, blocking)
    case AnswerReply(slot, resume) => DoReplyOk(k, slot, resume); DoReply(k, slot, resume)
    case CancelBadged(ep, badge) => CancelBadgedOk(k, ep, badge); CancelBadgedSends(k, ep, badge)
    case CancelWaiters(o) => CancelAllOk(k, o); CancelAll(k, o)
    case SuspendTcb(t) => SuspendThreadOk(k, t); SuspendThread(k, t)
    case ResumeTcb(t) => ResumeThreadOk(k, t); ResumeThread(k, t)
    case BindNtfn(t, n) => BindOk(k, t, n); Bind(k, t, n)
    case UnbindNtfn(t) => UnbindOk(k, t); Unbind(k, t)
    case DropReply(slot) => DeleteReplyOk(k, slot); DeleteReply(k, slot)
    case SaveReply(from, to) => MoveReplyOk(k, from, to); MoveReply(k, from, to)
    case Schedule(o) => PlainAgrees(k, o); k.(sched := Apply(k.sched, o))
    case FastCall(ep, canGrant, badge, canGrantReply) =>
      FastCallOk(k, ep, canGrant, badge, canGrantReply); FastEffect(k, ep, badge)
    case NewObject(o, kind) => CreateOk(k, o, kind); Create(k, o, kind)
  }

  ghost predicate MayAll(k: Kernel, ops: seq<KernelOp>)
    requires Ok(k)
    decreases |ops|
  {
    ops == [] || (May(k, ops[0]) && MayAll(Step(k, ops[0]), ops[1..]))
  }

  ghost function Steps(k: Kernel, ops: seq<KernelOp>): (r: Kernel)
    requires Ok(k) && MayAll(k, ops)
    ensures Ok(r)
    decreases |ops|
  {
    if ops == [] then k else Steps(Step(k, ops[0]), ops[1..])
  }

  ghost predicate RunMay(k: Kernel, entries: seq<seq<KernelOp>>)
    requires AtUserLevel(k)
    decreases |entries|
  {
    entries == [] || (StableIsMid(k.sched); MayAll(k, entries[0]) && RunMay(Leave(Steps(k, entries[0])), entries[1..]))
  }

  ghost function Run(k: Kernel, entries: seq<seq<KernelOp>>): (r: Kernel)
    requires AtUserLevel(k) && RunMay(k, entries)
    ensures AtUserLevel(r)
    decreases |entries|
  {
    if entries == [] then k else (StableIsMid(k.sched); Run(Leave(Steps(k, entries[0])), entries[1..]))
  }

  // ---- a run as one sequence of moves ----

  /** One operation, or the end of a kernel entry, at which the thread to run is chosen. */
  datatype Move = Do(op: KernelOp) | Exit

  ghost predicate MayMove(k: Kernel, m: Move)
    requires Ok(k)
  {
    m.Do? ==> May(k, m.op)
  }

  ghost function Moved(k: Kernel, m: Move): (r: Kernel)
    requires Ok(k) && MayMove(k, m)
    ensures Ok(r)
  {
    match m
    case Do(op) => Step(k, op)
    case Exit => StableIsMid(Leave(k).sched); Leave(k)
  }

  ghost predicate MayMoves(k: Kernel, ms: seq<Move>)
    requires Ok(k)
    decreases |ms|
  {
    ms == [] || (MayMove(k, ms[0]) && MayMoves(Moved(k, ms[0]), ms[1..]))
  }

  ghost function Moves(k: Kernel, ms: seq<Move>): (r: Kernel)
    requires Ok(k) && MayMoves(k, ms)
    ensures Ok(r)
    decreases |ms|
  {
    if ms == [] then k else Moves(Moved(k, ms[0]), ms[1..])
  }

  /** Each entry's operations, then its end. */
  function EntryMoves(ops: seq<KernelOp>): (ms: seq<Move>) {
    if ops == [] then [Exit] else [Do(ops[0])] + EntryMoves(ops[1..])
  }

  function RunMoves(entries: seq<seq<KernelOp>>): (ms: seq<Move>) {
    if entries == [] then [] else EntryMoves(entries[0]) + RunMoves(entries[1..])
  }

  lemma OneMove(k: Kernel, m: Move, rest: seq<Move>)
    requires Ok(k) && MayMove(k, m) && MayMoves(Moved(k, m), rest)
    ensures MayMoves(k, [m] + rest) && Moves(k, [m] + rest) == Moves(Moved(k, m), rest)
  {
    var ms := [m] + rest;
    assert ms[0] == m && ms[1..] == rest;
  }

  lemma {:induction false} EntryIsMoves(k: Kernel, ops: seq<KernelOp>, left: Kernel, rest: seq<Move>)
    requires Ok(k) && MayAll(k, ops) && left == Leave(Steps(k, ops)) && Ok(left) && MayMoves(left, rest)
    ensures MayMoves(k, EntryMoves(ops) + rest) && Moves(k, EntryMoves(ops) + rest) == Moves(left, rest)
    decreases |ops|
  {
    if ops == [] {
      OneMove(k, Exit, rest);
    } else {
      EntryIsMoves(Step(k, ops[0]), ops[1..], left, rest);
      OneMove(k, Do(ops[0]), EntryMoves(ops[1..]) + rest);
      FirstMove(ops, rest);
    }
  }

  lemma FirstMove(ops: seq<KernelOp>, rest: seq<Move>)
    requires ops != []
    ensures EntryMoves(ops) + rest == [Do(ops[0])] + (EntryMoves(ops[1..]) + rest)
  {
    assert EntryMoves(ops) == [Do(ops[0])] + EntryMoves(ops[1..]);
  }

  /** Every run of kernel entries is such a sequence. */
  lemma {:induction false} RunIsMoves(k: Kernel, entries: seq<seq<KernelOp>>)
    requires AtUserLevel(k) && RunMay(k, entries)
    ensures Ok(k) && MayMoves(k, RunMoves(entries)) && Moves(k, RunMoves(entries)) == Run(k, entries)
    decreases |entries|
  {
    StableIsMid(k.sched);
    if entries != [] {
      RunIsMoves(Leave(Steps(k, entries[0])), entries[1..]);
      EntryIsMoves(k, entries[0], Leave(Steps(k, entries[0])), RunMoves(entries[1..]));
    }
  }

  ghost predicate LeadsTo(k: Kernel, m: Move, r: Kernel) {
    Ok(k) && MayMove(k, m) && r == Moved(k, m)
  }

  /** Move i leads from state i to the next one. */
  ghost predicate LeadsAt(states: seq<Kernel>, ms: seq<Move>, i: nat)
    requires i < |ms| && |states| == |ms| + 1
  {
    LeadsTo(states[i], ms[i], states[i + 1])
  }

  ghost predicate Trace(states: seq<Kernel>, ms: seq<Move>) {
    |states| == |ms| + 1 && forall i {:trigger LeadsAt(states, ms, i)} :: 0 <= i < |ms| ==> LeadsAt(states, ms, i)
  }

  /** The states of a run. */
  ghost function StatesOf(k: Kernel, ms: seq<Move>): (states: seq<Kernel>)
    requires Ok(k) && MayMoves(k, ms)
    ensures |states| == |ms| + 1 && states[0] == k
    decreases |ms|
  {
    if ms == [] then [k] else [k] + StatesOf(Moved(k, ms[0]), ms[1..])
  }

  lemma {:induction false} StatesTrace(k: Kernel, ms: seq<Move>)
    requires Ok(k) && MayMoves(k, ms)
    ensures Trace(StatesOf(k, ms), ms)
    decreases |ms|
  {
    if ms != [] {
      StatesTrace(Moved(k, ms[0]), ms[1..]);
      TraceGrows(k, ms, StatesOf(Moved(k, ms[0]), ms[1..]));
    }
  }

  lemma TraceGrows(k: Kernel, ms: seq<Move>, rest: seq<Kernel>)
    requires ms != [] && Trace(rest, ms[1..]) && LeadsTo(k, ms[0], rest[0])
    ensures Trace([k] + rest, ms)
  {
    var states := [k] + rest;
    forall i | 0 <= i < |ms|
      ensures LeadsAt(states, ms, i)
    {
      if i > 0 { LeadsLater(k, ms, rest, i); }
    }
  }

  lemma LeadsLater(k: Kernel, ms: seq<Move>, rest: seq<Kernel>, i: nat)
    requires 0 < i < |ms| && |rest| == |ms| && LeadsAt(rest, ms[1..], i - 1)
    ensures LeadsAt([k] + rest, ms, i)
  {
    var states := [k] + rest;
    assert states[i] == rest[i - 1] && states[i + 1] == rest[i] && ms[1..][i - 1] == ms[i];
  }

  ghost function RunStates(k: Kernel, entries: seq<seq<KernelOp>>): (states: seq<Kernel>)
    requires AtUserLevel(k) && RunMay(k, entries)
    ensures |states| == |RunMoves(entries)| + 1 && states[0] == k
  {
    RunIsMoves(k, entries);
    StatesOf(k, RunMoves(entries))
  }

  /** A run passes through its states move by move. */
  lemma RunTrace(k: Kernel, entries: seq<seq<KernelOp>>)
    requires AtUserLevel(k) && RunMay(k, entries)
    ensures Trace(RunStates(k, entries), RunMoves(entries))
    ensures RunStates(k, entries)[|RunMoves(entries)|] == Run(k, entries)
  {
    RunIsMoves(k, entries);
    StatesTrace(k, RunMoves(entries));
    LastState(k, RunMoves(entries));
  }

  lemma {:induction false} LastState(k: Kernel, ms: seq<Move>)
    requires Ok(k) && MayMoves(k, ms)
    ensures StatesOf(k, ms)[|ms|] == Moves(k, ms)
    decreases |ms|
  {
    if ms != [] {
      LastState(Moved(k, ms[0]), ms[1..]);
      LastOf(k, StatesOf(Moved(k, ms[0]), ms[1..]));
    }
  }

  lemma LastOf(k: Kernel, states: seq<Kernel>)
    requires states != []
    ensures ([k] + states)[|states|] == states[|states| - 1]
  {}

  /** What leaving the kernel keeps: everything but who runs, and that a thread to be restarted runs. */
  lemma LeaveKeeps(k: Kernel)
    requires Ok(k)
    ensures
      var r := Leave(k);
      Ok(r) && r == k.(sched := r.sched) && r.sched.threads.Keys == k.sched.threads.Keys && r.sched.idle == k.sched.idle
    ensures forall x {:trigger Leave(k).sched.threads[x]} :: x in k.sched.threads ==>
      var r := Leave(k);
      && r.sched.threads[x].prio == k.sched.threads[x].prio
      && (r.sched.threads[x].state == k.sched.threads[x].state
          || (k.sched.threads[x].state == Restart && r.sched.threads[x].state == Running))
  {
    ScheduleKeepsThreads(k.sched);
    StableIsMid(Leave(k).sched);
  }

  // ---- the main result on queues and replies ----

  /** A thread stands in an object's queue exactly if it is blocked on that object; queues hold nobody
      twice; an object is idle exactly when nobody waits. */
  ghost predicate QueuesExact(r: Kernel) {
    && (forall t, o :: t in r.tcbs && t in r.sched.threads && o in r.objects ==>
          (t in QueueOf(r.objects[o]) <==> IsWaiting(StateOf(r, t)) && r.tcbs[t].blocking.waitsOn == o))
    && (forall o :: o in r.objects ==> NoDup(QueueOf(r.objects[o])))
    && (forall o :: IsEndpoint(r, o) ==> (r.objects[o].epState == EpIdle <==> QueueOf(r.objects[o]) == []))
    && (forall o :: IsNotification(r, o) ==> (r.objects[o].ntfnState == NtfnWaiting <==> QueueOf(r.objects[o]) != []))
    && (forall t, o :: o in r.objects && t in QueueOf(r.objects[o]) ==>
      t in r.sched.threads && StateOf(r, t) == WaitState(r.objects[o]))
  }

  /** Every reply capability names a thread blocked on it and on no other; a thread waiting to receive
      has an empty caller slot. */
  ghost predicate RepliesExact(r: Kernel) {
    && (forall s :: s in r.replies ==>
      r.replies[s].caller in r.sched.threads && StateOf(r, r.replies[s].caller) == BlockedOnReply)
    && (forall s, s' :: s in r.replies && s' in r.replies && r.replies[s].caller == r.replies[s'].caller ==> s == s')
    && (forall t :: t in r.sched.threads && StateOf(r, t) == BlockedOnReceive ==> CallerSlot(t) !in r.replies)
  }

  lemma QueuesMean(r: Kernel)
    requires QueuesAgree(r)
    ensures QueuesExact(r)
  {
    forall t, o | t in r.tcbs && t in r.sched.threads && o in r.objects
      ensures t in QueueOf(r.objects[o]) <==> IsWaiting(StateOf(r, t)) && r.tcbs[t].blocking.waitsOn == o
    {
      assert ObjectOk(r, o) && ThreadOk(r, t);
    }
    forall o | o in r.objects
      ensures ObjectOk(r, o)
    {}
  }

  lemma RepliesMean(r: Kernel)
    requires RepliesAgree(r)
    ensures RepliesExact(r)
  {
    forall s | s in r.replies
      ensures ReplyOk(r, s)
    {}
    forall t | t in r.sched.threads
      ensures CallerOk(r, t)
    {}
  }

  /** The main result: after every run of kernel entries the queues and the replies are exact. */
  lemma EveryRunKeepsIpcConsistent(k: Kernel, entries: seq<seq<KernelOp>>)
    requires AtUserLevel(k) && RunMay(k, entries)
    ensures QueuesExact(Run(k, entries)) && RepliesExact(Run(k, entries)) && Stable(Run(k, entries).sched)
  {
    QueuesMean(Run(k, entries));
    RepliesMean(Run(k, entries));
  }
}
