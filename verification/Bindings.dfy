/** Bound notifications: a pending signal never lets its bound thread sleep in a receive, whatever is
    done, except that a new binding may start that way; and when a new binding is one to one. */
module Bindings {
  import opened SchedulerSpec
  import opened SchedulerRuns
  import opened IpcSpec
  import opened IpcInvariants
  import opened IpcSafety
  import opened ReplySafety
  import opened KernelExit
  import opened CallPath
  import opened IpcRuns

  /** If n has a signal pending, the thread bound to it does not sleep in a receive. */
  predicate Heard(k: Kernel, n: nat) {
    IsNotification(k, n) && k.objects[n].ntfnState == NtfnActive ==>
      var t := k.objects[n].boundTcb;
      !(t in k.sched.threads && t in k.tcbs && k.tcbs[t].boundTo == n && StateOf(k, t) == BlockedOnReceive)
  }

  /** Between k and k' no thread starts to sleep in a receive, and n neither gets a signal nor a thread. */
  predicate Quiet(k: Kernel, k': Kernel, n: nat) {
    && (IsNotification(k', n) && k'.objects[n].ntfnState == NtfnActive ==>
          IsNotification(k, n) && k.objects[n].ntfnState == NtfnActive
            && k'.objects[n].boundTcb == k.objects[n].boundTcb)
    && (IsNotification(k', n) ==>
          var t := k'.objects[n].boundTcb;
          t in k'.sched.threads && t in k'.tcbs && StateOf(k', t) == BlockedOnReceive ==>
            t in k.sched.threads && t in k.tcbs && StateOf(k, t) == BlockedOnReceive
              && k.tcbs[t].boundTo == k'.tcbs[t].boundTo)
  }

  lemma QuietHeard(k: Kernel, k': Kernel, n: nat)
    requires Heard(k, n) && Quiet(k, k', n)
    ensures Heard(k', n)
  {
  }

  lemma SendQuiet(k: Kernel, ep: nat, blocking: bool, doCall: bool, canGrant: bool, badge: Badge, canGrantReply: bool,
      n: nat)
    requires Shape(k) && k.sched.cur in k.sched.threads && IsEndpoint(k, ep) && SendAsserts(k, k.sched.cur, ep)
    ensures Quiet(k, SendIpc(k, k.sched.cur, ep, blocking, doCall, canGrant, badge, canGrantReply), n)
  {
  }

  /** A receive that finds no message first looks for a signal, so it does not sleep through one. */
  lemma ReceiveHeard(k: Kernel, ep: nat, blocking: bool, grant: bool, n: nat)
    requires Shape(k) && k.sched.cur in k.sched.threads && IsEndpoint(k, ep) && ReceiveAsserts(k, k.sched.cur, ep)
    requires Heard(k, n) && n != 0
    ensures Heard(ReceiveIpc(k, k.sched.cur, ep, blocking, grant), n)
  {
    assert BindingOk(k, k.sched.cur);
  }

  /** A signal that finds the bound thread asleep wakes it instead of becoming pending. */
  lemma SignalHeard(k: Kernel, m: nat, badge: Badge, n: nat)
    requires Shape(k) && IsNotification(k, m) && SignalAsserts(k, m) && Heard(k, n)
    ensures Heard(SendSignal(k, m, badge), n)
  {
  }

  lemma CancelQuiet(k: Kernel, t: nat, n: nat)
    requires Shape(k) && t in k.sched.threads && (IsWaiting(StateOf(k, t)) ==> WaitsSomewhere(k, t))
    ensures Quiet(k, CancelIpc(k, t), n)
  {
  }

  lemma WakeWaitersQuiet(k: Kernel, o: nat, keep: seq<nat>, ts: seq<nat>, n: nat)
    requires Shape(k) && Mid(k.sched) && o in k.objects && k.sched.idle !in ts
    requires forall i :: 0 <= i < |ts| ==> ts[i] in k.sched.threads
    ensures Quiet(k, WakeWaiters(k, o, keep, ts), n)
  {
    var k' := WakeWaiters(k, o, keep, ts);
    if IsNotification(k', n) && k'.objects[n].boundTcb in k'.sched.threads && k'.objects[n].boundTcb in k'.tcbs {
      WakeWaitersEffect(k, o, keep, ts, k'.objects[n].boundTcb);
    }
  }

  lemma CancelledHeard(k: Kernel, op: KernelOp, n: nat)
    requires Ok(k) && May(k, op) && Heard(k, n) && (op.CancelWaiters? || op.CancelBadged?)
    ensures Heard(Step(k, op), n)
  {
    var o := if op.CancelWaiters? then op.o else op.ep;
    assert ObjectOk(k, o);
    var q := QueueOf(k.objects[o]);
    if op.CancelWaiters? {
      WakeWaitersQuiet(k, o, [], q, n);
    } else {
      WakeWaitersQuiet(k, o, WithBadge(k.tcbs, q, op.badge, false), WithBadge(k.tcbs, q, op.badge, true), n);
    }
  }

  lemma SuspendQuiet(k: Kernel, t: nat, n: nat)
    requires Shape(k) && t in k.sched.threads && (IsWaiting(StateOf(k, t)) ==> WaitsSomewhere(k, t))
    ensures Quiet(k, SuspendThread(k, t), n)
  {
    CancelQuiet(k, t, n);
  }

  lemma ResumeQuiet(k: Kernel, t: nat, n: nat)
    requires Shape(k) && t in k.sched.threads && (IsWaiting(StateOf(k, t)) ==> WaitsSomewhere(k, t))
    ensures Quiet(k, ResumeThread(k, t), n)
  {
    CancelQuiet(k, t, n);
  }

  lemma ReplyQuiet(k: Kernel, slot: nat, resume: bool, n: nat)
    requires Shape(k) && slot in k.replies && k.replies[slot].caller in k.sched.threads
    requires StateOf(k, k.replies[slot].caller) == BlockedOnReply
    ensures Quiet(k, DoReply(k, slot, resume), n)
  {
  }

  lemma ThreadControlHeard(k: Kernel, op: KernelOp, n: nat)
    requires Ok(k) && May(k, op) && Heard(k, n) && (op.SuspendTcb? || op.ResumeTcb? || op.AnswerReply?)
    ensures Heard(Step(k, op), n)
  {
    if op.SuspendTcb? {
      SuspendThreadOk(k, op.t);
      SuspendQuiet(k, op.t, n);
    } else if op.ResumeTcb? {
      ResumeThreadOk(k, op.t);
      ResumeQuiet(k, op.t, n);
    } else {
      DoReplyOk(k, op.slot, op.resume);
      ReplyQuiet(k, op.slot, op.resume, n);
    }
    QuietHeard(k, Step(k, op), n);
  }

  lemma SendHeard(k: Kernel, ep: nat, blocking: bool, call: bool, canGrant: bool, badge: Badge, canGrantReply: bool,
      n: nat)
    requires Ok(k) && CurrentRuns(k) && IsEndpoint(k, ep) && Heard(k, n)
    ensures SendAsserts(k, k.sched.cur, ep)
    ensures Heard(SendIpc(k, k.sched.cur, ep, blocking, call, canGrant, badge, canGrantReply), n)
  {
    SendOk(k, ep, blocking, call, canGrant, badge, canGrantReply);
    SendQuiet(k, ep, blocking, call, canGrant, badge, canGrantReply, n);
  }

  lemma SendsHeard(k: Kernel, op: KernelOp, n: nat)
    requires Ok(k) && May(k, op) && Heard(k, n) && (op.Send? || op.Fault?)
    ensures Heard(Step(k, op), n)
  {
    match op
    case Send(ep, blocking, call, canGrant, badge, canGrantReply) =>
      SendHeard(k, ep, blocking, call, canGrant, badge, canGrantReply, n);
    case Fault(ep, canGrant, badge) =>
      MarkFaultOk(k);
      SendHeard(MarkFault(k), ep, true, true, canGrant, badge, true, n);
  }

  lemma AwaitsHeard(k: Kernel, op: KernelOp, n: nat)
    requires Ok(k) && May(k, op) && Heard(k, n) && n != 0 && (op.Receive? || op.Await? || op.Signal?)
    ensures Heard(Step(k, op), n)
  {
    match op
    case Receive(ep, blocking, grant) =>
      AfterDropOk(k);
      var d := DeleteReply(k, CallerSlot(k.sched.cur));
      ReceiveOk(d, ep, blocking, grant);
      ReceiveHeard(d, ep, blocking, grant, n);
    case Await(_, _) =>
    case Signal(m, badge) => SignalOk(k, m, badge); SignalHeard(k, m, badge, n);
  }

  lemma BookkeepingHeard(k: Kernel, op: KernelOp, n: nat)
    requires Ok(k) && May(k, op) && Heard(k, n) && n != 0
    requires op.DropReply? || op.SaveReply? || op.Stop? || op.NewObject?
    ensures Heard(Step(k, op), n)
  {
  }

  lemma UnbindHeard(k: Kernel, op: KernelOp, n: nat)
    requires Ok(k) && May(k, op) && Heard(k, n) && n != 0 && op.UnbindNtfn?
    ensures Heard(Step(k, op), n)
  {
    assert BindingOk(k, op.t);
  }

  lemma FastCallHeard(k: Kernel, ep: nat, badge: Badge, n: nat)
    requires Ok(k) && Heard(k, n) && IsEndpoint(k, ep) && HasHead(k, ep) && HeadOf(k, ep) in k.tcbs
    requires k.sched.cur in k.sched.threads
    ensures Heard(FastEffect(k, ep, badge), n)
  {}

  lemma ScheduleHeard(k: Kernel, op: KernelOp, n: nat)
    requires Ok(k) && May(k, op) && Heard(k, n) && op.Schedule?
    ensures Heard(Step(k, op), n)
  {
    PlainAgrees(k, op.op);
    PlainEffect(k.sched, op.op);
    if n in k.objects && k.objects[n].Notification? && k.objects[n].boundTcb in k.sched.threads {
      assert SameForIpc(k.sched, Apply(k.sched, op.op), k.objects[n].boundTcb);
    }
  }

  /** No operation other than a new binding lets a thread sleep through a pending signal. */
  lemma StepHeard(k: Kernel, op: KernelOp, n: nat)
    requires Ok(k) && May(k, op) && Heard(k, n) && n != 0 && !op.BindNtfn?
    ensures Heard(Step(k, op), n)
  {
    if op.Send? || op.Fault? { SendsHeard(k, op, n); }
    else if op.Receive? || op.Await? || op.Signal? { AwaitsHeard(k, op, n); }
    else if op.SuspendTcb? || op.ResumeTcb? || op.AnswerReply? { ThreadControlHeard(k, op, n); }
    else if op.CancelWaiters? || op.CancelBadged? { CancelledHeard(k, op, n); }
    else if op.Schedule? { ScheduleHeard(k, op, n); }
    else if op.FastCall? {
      FastCallOk(k, op.ep, op.canGrant, op.badge, op.canGrantReply);
      FastCallHeard(k, op.ep, op.badge, n);
    }
    else if op.UnbindNtfn? { UnbindHeard(k, op, n); }
    else { BookkeepingHeard(k, op, n); }
  }

  /** A new binding does so exactly if the notification is active and the thread sleeps in a receive:
      nothing checks for that, and later signals are then merged into the pending one. */
  lemma BindHeardIff(k: Kernel, t: nat, n: nat)
    requires Ok(k) && BindAllowed(k, t, n) && forall m :: Heard(k, m)
    ensures (forall m :: Heard(Bind(k, t, n), m)) <==>
      !(k.objects[n].ntfnState == NtfnActive && StateOf(k, t) == BlockedOnReceive)
  {
    var k' := Bind(k, t, n);
    if !(k.objects[n].ntfnState == NtfnActive && StateOf(k, t) == BlockedOnReceive) {
      forall m
        ensures Heard(k', m)
      {
        assert Heard(k, m);
      }
    } else {
      assert !Heard(k', n);
    }
  }

  /** A binding made while a signal is pending and the thread sleeps is the one unsafe operation. */
  predicate SafeOp(k: Kernel, op: KernelOp)
    requires Shape(k)
  {
    op.BindNtfn? && IsNotification(k, op.ntfn) && op.t in k.sched.threads ==>
      !(k.objects[op.ntfn].ntfnState == NtfnActive && StateOf(k, op.t) == BlockedOnReceive)
  }

  ghost predicate SafeAll(k: Kernel, ms: seq<Move>)
    requires Ok(k) && MayMoves(k, ms)
    decreases |ms|
  {
    ms == [] || ((ms[0].Do? ==> SafeOp(k, ms[0].op)) && SafeAll(Moved(k, ms[0]), ms[1..]))
  }

  lemma BindHeard(k: Kernel, op: KernelOp, n: nat)
    requires Ok(k) && May(k, op) && op.BindNtfn? && SafeOp(k, op) && Heard(k, n)
    ensures Heard(Step(k, op), n)
  {
  }

  /** Leaving the kernel puts nobody to sleep. */
  lemma ExitHeard(k: Kernel, n: nat)
    requires Ok(k) && Heard(k, n)
    ensures Heard(Moved(k, Exit), n)
  {
    LeaveKeeps(k);
    if IsNotification(k, n) && k.objects[n].boundTcb in k.sched.threads {
      assert Leave(k).sched.threads[k.objects[n].boundTcb].state == BlockedOnReceive ==>
        StateOf(k, k.objects[n].boundTcb) == BlockedOnReceive;
    }
  }

  lemma {:induction false} MovesHeard(k: Kernel, ms: seq<Move>, n: nat)
    requires Ok(k) && MayMoves(k, ms) && SafeAll(k, ms) && Heard(k, n) && n != 0
    ensures Heard(Moves(k, ms), n)
    decreases |ms|
  {
    if ms != [] {
      if ms[0].Exit? { ExitHeard(k, n); }
      else if ms[0].op.BindNtfn? { BindHeard(k, ms[0].op, n); }
      else { StepHeard(k, ms[0].op, n); }
      MovesHeard(Moved(k, ms[0]), ms[1..], n);
    }
  }

  ghost predicate SafeRun(k: Kernel, entries: seq<seq<KernelOp>>)
    requires AtUserLevel(k) && RunMay(k, entries)
  {
    RunIsMoves(k, entries);
    SafeAll(k, RunMoves(entries))
  }

  /** Over every run of kernel entries without such a binding, no thread ever sleeps through a pending signal. */
  lemma NoSleepThroughSignals(k: Kernel, entries: seq<seq<KernelOp>>, n: nat)
    requires AtUserLevel(k) && RunMay(k, entries) && SafeRun(k, entries) && Heard(k, n) && n != 0
    ensures Heard(Run(k, entries), n)
  {
    RunIsMoves(k, entries);
    MovesHeard(k, RunMoves(entries), n);
  }

  // ---- one thread, one notification ----

  predicate Mutual(k: Kernel, t: nat, n: nat)
    requires t in k.tcbs && IsNotification(k, n)
  {
    k.tcbs[t].boundTo == n <==> k.objects[n].boundTcb == t
  }

  /** A thread names a notification exactly if the notification names the thread. */
  ghost predicate OneToOne(k: Kernel) {
    forall t, n {:trigger Mutual(k, t, n)} :: t in k.tcbs && t != 0 && IsNotification(k, n) && n != 0 ==>
      Mutual(k, t, n)
  }

  /** The check that the notification is not bound already is missing, and it is exactly what a new
      binding needs: without it the thread bound before keeps naming the notification. */
  lemma BindOneToOneIff(k: Kernel, t: nat, n: nat)
    requires Ok(k) && BindAllowed(k, t, n) && OneToOne(k)
    ensures OneToOne(Bind(k, t, n)) <==> k.objects[n].boundTcb == 0
  {
    var k' := Bind(k, t, n);
    var was := k.objects[n].boundTcb;
    assert BoundThreadOk(k, n);
    assert Mutual(k, t, n);
    if was == 0 {
      forall x, m | x in k'.tcbs && x != 0 && IsNotification(k', m) && m != 0
        ensures Mutual(k', x, m)
      {
        assert Mutual(k, x, m);
      }
    } else {
      assert Mutual(k, was, n);
      assert !Mutual(k', was, n);
    }
  }

  lemma UnbindOneToOne(k: Kernel, t: nat)
    requires Ok(k) && t in k.tcbs && OneToOne(k) && BindingOk(k, t)
    ensures OneToOne(Unbind(k, t))
  {
    var k' := Unbind(k, t);
    forall x, m | x in k'.tcbs && x != 0 && IsNotification(k', m) && m != 0
      ensures Mutual(k', x, m)
    {
      assert Mutual(k, x, m) && Mutual(k, t, m);
      if k.tcbs[t].boundTo != 0 { assert Mutual(k, x, k.tcbs[t].boundTo); }
    }
  }
}
