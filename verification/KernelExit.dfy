/** The end of every kernel entry, and the scheduling operations that are not part of IPC, as threads, queues and
    replies see them (sel4_task/src/scheduler.rs, kernel/src/kernel/c_traps.rs). */
module KernelExit {
  import opened SchedulerSpec
  import opened SchedulerRuns
  import opened IpcSpec

  /** The scheduling operations that are not part of IPC. */
  predicate Plain(op: Op) {
    op.Mark? || op.SetPriority? || op.Yield? || op.TimerTick?
  }

  predicate IsEndpoint(k: Kernel, o: nat) {
    o in k.objects && k.objects[o].Endpoint?
  }

  predicate IsNotification(k: Kernel, o: nat) {
    o in k.objects && k.objects[o].Notification?
  }

  lemma PlainAgrees(k: Kernel, op: Op)
    requires Ok(k) && Plain(op) && Allowed(k.sched, op)
    ensures Ok(k.(sched := Apply(k.sched, op)))
  {
    StepMid(k.sched, op);
    var k' := k.(sched := Apply(k.sched, op));
    PlainEffect(k.sched, op);
    PlainTables(k, k');
  }

  /** What a plain scheduling operation does to thread x, as far as IPC can see. */
  ghost predicate SameForIpc(s: Sched, s': Sched, x: nat)
    requires x in s.threads
  {
    && x in s'.threads && s'.threads[x].prio < |s'.queues|
    && (s'.threads[x].state == s.threads[x].state
      || (IsRunnableState(s.threads[x].state) && IsRunnableState(s'.threads[x].state)))
  }

  lemma PlainEffect(s: Sched, op: Op)
    requires Mid(s) && Plain(op) && Allowed(s, op) && Mid(Apply(s, op))
    ensures
      var s' := Apply(s, op);
      && s'.threads.Keys == s.threads.Keys && |s'.queues| == |s.queues| && s'.cur == s.cur && s'.idle == s.idle
      && forall x {:trigger SameForIpc(s, s', x)} :: x in s.threads ==> SameForIpc(s, s', x)
  {
    var s' := Apply(s, op);
    forall x | x in s.threads
      ensures SameForIpc(s, s', x)
    {}
  }

  lemma PlainTables(k: Kernel, k': Kernel)
    requires Agree(k) && k' == k.(sched := k'.sched) && Mid(k'.sched)
    requires k'.sched.threads.Keys == k.sched.threads.Keys && |k'.sched.queues| == |k.sched.queues|
    requires k'.sched.idle == k.sched.idle
    requires forall x {:trigger SameForIpc(k.sched, k'.sched, x)} :: x in k.sched.threads ==>
      SameForIpc(k.sched, k'.sched, x)
    ensures Agree(k')
  {
    forall x | x in k'.tcbs
      ensures BindingOk(k', x) && Placed(k', x) && ThreadOk(k', x) && CallerOk(k', x)
      ensures k'.sched.threads[x].prio < |k'.sched.queues|
    {
      assert BindingOk(k, x) && Placed(k, x) && ThreadOk(k, x) && CallerOk(k, x) && SameForIpc(k.sched, k'.sched, x);
    }
    assert SameForIpc(k.sched, k'.sched, k.sched.idle);
    forall o | o in k'.objects
      ensures BoundThreadOk(k', o) && ObjectOk(k', o)
    {
      assert BoundThreadOk(k, o) && ObjectOk(k, o);
      forall t | t in QueueOf(k'.objects[o])
        ensures t in k'.sched.threads && t in k'.tcbs && StateOf(k', t) == WaitState(k'.objects[o])
        ensures k'.tcbs[t].blocking.waitsOn == o
      {
        assert SameForIpc(k.sched, k'.sched, t);
      }
    }
    forall s | s in k'.replies
      ensures ReplyOk(k', s)
    {
      assert ReplyOk(k, s) && SameForIpc(k.sched, k'.sched, k.replies[s].caller);
    }
  }

  // ---- schedule() and activateThread() ----

  /** At user level: threads, queues and replies agree, and the scheduler is settled. */
  ghost predicate AtUserLevel(k: Kernel) {
    Agree(k) && UserLevel(k.sched)
  }

  /** The end of a kernel entry. */
  ghost function Leave(k: Kernel): (r: Kernel)
    requires Ok(k)
    ensures AtUserLevel(r)
  {
    ScheduleStable(k.sched);
    ActivateUserLevel(SchedulerSpec.Schedule(k.sched));
    LeaveAgrees(k);
    k.(sched := Activate(SchedulerSpec.Schedule(k.sched)))
  }

  lemma LeaveAgrees(k: Kernel)
    requires Ok(k) && Stable(SchedulerSpec.Schedule(k.sched)) && UserLevel(Activate(SchedulerSpec.Schedule(k.sched)))
    ensures Agree(k.(sched := Activate(SchedulerSpec.Schedule(k.sched))))
  {
    var m := SchedulerSpec.Schedule(k.sched);
    var s' := Activate(m);
    ScheduleKeepsThreads(k.sched);
    StableIsMid(s');
    forall x | x in k.sched.threads
      ensures SameForIpc(k.sched, s', x)
    {}
    PlainTables(k, k.(sched := s'));
  }

  /** schedule() changes no thread's state, priority or time slice. */
  lemma ScheduleKeepsThreads(s: Sched)
    requires Mid(s)
    ensures
      var r := SchedulerSpec.Schedule(s);
      r.threads == s.threads && |r.queues| == |s.queues| && r.idle == s.idle
  {
    ScheduleStable(s);
  }
}
