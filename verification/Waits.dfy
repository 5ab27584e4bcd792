/** Who waits in a queue, since when, with what, and in which order (sel4_ipc/src/endpoint.rs,
    sel4_ipc/src/notification.rs): one operation at a time. */
module Waits {
  import opened SchedulerSpec
  import opened SchedulerRuns
  import opened IpcSpec
  import opened IpcInvariants
  import opened IpcSafety
  import opened ReplySafety
  import opened KernelExit
  import opened CallPath
  import opened IpcRuns

  predicate WaitsNow(k: Kernel, x: nat) {
    x in k.sched.threads && x in k.tcbs && IsWaiting(StateOf(k, x))
  }

  /** x waits in r only if it did in k, in the same way and with the same record. */
  predicate StillWaits(k: Kernel, r: Kernel, x: nat) {
    WaitsNow(r, x) ==> WaitsNow(k, x) && StateOf(k, x) == StateOf(r, x) && k.tcbs[x].blocking == r.tcbs[x].blocking
  }

  /** The operation makes the current thread wait, and the record is what the operation was given: a sender's with its
      badge, rights and whether it calls, a receiver's with its right to grant. */
  predicate Enters(k: Kernel, op: KernelOp, r: Kernel, x: nat) {
    && x == k.sched.cur && x in r.sched.threads && x in r.tcbs
    && var b := r.tcbs[x].blocking;
       match op
       case Send(ep, blocking, call, canGrant, badge, canGrantReply) =>
         blocking && StateOf(r, x) == BlockedOnSend && b == Blocking(ep, badge, canGrant, canGrantReply, call)
       case Fault(ep, canGrant, badge) =>
         StateOf(r, x) == BlockedOnSend && b == Blocking(ep, badge, canGrant, true, true)
       case Receive(ep, blocking, grant) =>
         blocking && StateOf(r, x) == BlockedOnReceive && b.waitsOn == ep && b.canGrant == grant
       case Await(n, blocking) => blocking && StateOf(r, x) == BlockedOnNotification && b.waitsOn == n
       case _ => false
  }

  lemma SendWaits(k: Kernel, ep: nat, blocking: bool, call: bool, canGrant: bool, badge: Badge, canGrantReply: bool,
      x: nat)
    requires Shape(k) && CurrentRuns(k) && IsEndpoint(k, ep) && SendAsserts(k, k.sched.cur, ep)
    ensures
      var r := SendIpc(k, k.sched.cur, ep, blocking, call, canGrant, badge, canGrantReply);
      StillWaits(k, r, x) || Enters(k, Send(ep, blocking, call, canGrant, badge, canGrantReply), r, x)
  {}

  lemma ReceiveWaits(k: Kernel, ep: nat, blocking: bool, grant: bool, x: nat)
    requires Shape(k) && CurrentRuns(k) && IsEndpoint(k, ep) && ReceiveAsserts(k, k.sched.cur, ep)
    ensures
      var r := ReceiveIpc(k, k.sched.cur, ep, blocking, grant);
      StillWaits(k, r, x) || Enters(k, Receive(ep, blocking, grant), r, x)
  {}

  lemma SignalWaits(k: Kernel, n: nat, badge: Badge, x: nat)
    requires Shape(k) && IsNotification(k, n) && SignalAsserts(k, n)
    ensures StillWaits(k, SendSignal(k, n, badge), x)
  {}

  lemma CancelWaits(k: Kernel, t: nat, x: nat)
    requires Shape(k) && t in k.sched.threads && (IsWaiting(StateOf(k, t)) ==> WaitsSomewhere(k, t))
    ensures StillWaits(k, CancelIpc(k, t), x) && StillWaits(k, SuspendThread(k, t), x)
    ensures StillWaits(k, ResumeThread(k, t), x)
  {}

  lemma ReplyWaits(k: Kernel, slot: nat, resume: bool, x: nat)
    requires Shape(k) && slot in k.replies && k.replies[slot].caller in k.sched.threads
    requires StateOf(k, k.replies[slot].caller) == BlockedOnReply
    ensures StillWaits(k, DoReply(k, slot, resume), x)
  {}

  lemma WakeWaitersWaits(k: Kernel, o: nat, keep: seq<nat>, ts: seq<nat>, x: nat)
    requires Shape(k) && Mid(k.sched) && o in k.objects && k.sched.idle !in ts
    requires forall i :: 0 <= i < |ts| ==> ts[i] in k.sched.threads
    ensures StillWaits(k, WakeWaiters(k, o, keep, ts), x)
  {
    if x in k.sched.threads { WakeWaitersEffect(k, o, keep, ts, x); }
  }

  lemma SenderWaits(k: Kernel, op: KernelOp, x: nat)
    requires Ok(k) && May(k, op) && op.Send?
    ensures StillWaits(k, Step(k, op), x) || Enters(k, op, Step(k, op), x)
  {
    SendOk(k, op.ep, op.blocking, op.call, op.canGrant, op.badge, op.canGrantReply);
    SendWaits(k, op.ep, op.blocking, op.call, op.canGrant, op.badge, op.canGrantReply, x);
  }

  lemma FaulterWaits(k: Kernel, op: KernelOp, x: nat)
    requires Ok(k) && May(k, op) && op.Fault?
    ensures StillWaits(k, Step(k, op), x) || Enters(k, op, Step(k, op), x)
  {
    MarkFaultOk(k);
    SendOk(MarkFault(k), op.handler, true, true, op.canGrant, op.badge, true);
    SendWaits(MarkFault(k), op.handler, true, true, op.canGrant, op.badge, true, x);
  }

  lemma ReceiverWaits(k: Kernel, op: KernelOp, x: nat)
    requires Ok(k) && May(k, op) && op.Receive?
    ensures StillWaits(k, Step(k, op), x) || Enters(k, op, Step(k, op), x)
  {
    AfterDropOk(k);
    var d := DeleteReply(k, CallerSlot(k.sched.cur));
    ReceiveOk(d, op.ep, op.blocking, op.grant);
    ReceiveWaits(d, op.ep, op.blocking, op.grant, x);
  }

  lemma AwaiterWaits(k: Kernel, op: KernelOp, x: nat)
    requires Ok(k) && May(k, op) && op.Await?
    ensures StillWaits(k, Step(k, op), x) || Enters(k, op, Step(k, op), x)
  {
    ReceiveSignalOk(k, op.ntfn, op.blocking);
  }

  lemma SignalledWaits(k: Kernel, op: KernelOp, x: nat)
    requires Ok(k) && May(k, op) && op.Signal?
    ensures StillWaits(k, Step(k, op), x)
  {
    SignalOk(k, op.ntfn, op.badge);
    SignalWaits(k, op.ntfn, op.badge, x);
  }

  lemma FastWaits(k: Kernel, ep: nat, badge: Badge, x: nat)
    requires IsEndpoint(k, ep) && HasHead(k, ep) && HeadOf(k, ep) in k.tcbs && k.sched.cur in k.sched.threads
    requires Shape(k)
    ensures StillWaits(k, FastEffect(k, ep, badge), x)
  {}

  lemma FastCallWaits(k: Kernel, op: KernelOp, x: nat)
    requires Ok(k) && May(k, op) && op.FastCall?
    ensures StillWaits(k, Step(k, op), x)
  {
    FastCallOk(k, op.ep, op.canGrant, op.badge, op.canGrantReply);
    FastWaits(k, op.ep, op.badge, x);
  }

  lemma AnsweredWaits(k: Kernel, op: KernelOp, x: nat)
    requires Ok(k) && May(k, op) && op.AnswerReply?
    ensures StillWaits(k, Step(k, op), x)
  {
    DoReplyOk(k, op.slot, op.resume);
    ReplyWaits(k, op.slot, op.resume, x);
  }

  lemma CancelledWait(k: Kernel, op: KernelOp, x: nat)
    requires Ok(k) && May(k, op) && (op.CancelWaiters? || op.CancelBadged?)
    ensures StillWaits(k, Step(k, op), x)
  {
    var o := if op.CancelWaiters? then op.o else op.ep;
    assert ObjectOk(k, o);
    var q := QueueOf(k.objects[o]);
    if op.CancelWaiters? {
      WakeWaitersWaits(k, o, [], q, x);
    } else {
      WakeWaitersWaits(k, o, WithBadge(k.tcbs, q, op.badge, false), WithBadge(k.tcbs, q, op.badge, true), x);
    }
  }

  lemma ControlWaits(k: Kernel, op: KernelOp, x: nat)
    requires Ok(k) && May(k, op) && (op.SuspendTcb? || op.ResumeTcb?)
    ensures StillWaits(k, Step(k, op), x)
  {
    assert ThreadOk(k, op.t);
    CancelWaits(k, op.t, x);
  }

  lemma ScheduleWaits(k: Kernel, op: KernelOp, x: nat)
    requires Ok(k) && May(k, op) && op.Schedule?
    ensures StillWaits(k, Step(k, op), x)
  {
    PlainAgrees(k, op.op);
    PlainEffect(k.sched, op.op);
    if x in k.sched.threads { assert SameForIpc(k.sched, Apply(k.sched, op.op), x); }
  }

  lemma TablesWait(k: Kernel, op: KernelOp, x: nat)
    requires Ok(k) && May(k, op) && (op.BindNtfn? || op.UnbindNtfn? || op.DropReply? || op.SaveReply?)
    ensures StillWaits(k, Step(k, op), x)
  {}

  lemma OthersWait(k: Kernel, op: KernelOp, x: nat)
    requires Ok(k) && May(k, op) && (op.Stop? || op.NewObject?)
    ensures StillWaits(k, Step(k, op), x)
  {}

  /** A thread that waits after an operation was waiting before, with the same record; or it is the current thread and
      waits as the operation says. */
  lemma WaitOrigin(k: Kernel, op: KernelOp, x: nat)
    requires Ok(k) && May(k, op)
    ensures StillWaits(k, Step(k, op), x) || Enters(k, op, Step(k, op), x)
  {
    match op
    case Send(_, _, _, _, _, _) => SenderWaits(k, op, x);
    case Fault(_, _, _) => FaulterWaits(k, op, x);
    case Receive(_, _, _) => ReceiverWaits(k, op, x);
    case Await(_, _) => AwaiterWaits(k, op, x);
    case Signal(_, _) => SignalledWaits(k, op, x);
    case FastCall(_, _, _, _) => FastCallWaits(k, op, x);
    case AnswerReply(_, _) => AnsweredWaits(k, op, x);
    case CancelWaiters(_) => CancelledWait(k, op, x);
    case CancelBadged(_, _) => CancelledWait(k, op, x);
    case SuspendTcb(_) => ControlWaits(k, op, x);
    case ResumeTcb(_) => ControlWaits(k, op, x);
    case Schedule(_) => ScheduleWaits(k, op, x);
    case Stop => OthersWait(k, op, x);
    case NewObject(_, _) => OthersWait(k, op, x);
    case _ => TablesWait(k, op, x);
  }
}
