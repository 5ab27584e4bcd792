/** Replies, thread control and bindings keep the IPC invariant (sel4_ipc/src/transfer.rs,
    kernel/src/syscall/invocation/invoke_tcb.rs, kernel/src/syscall/utils.rs). */
module ReplySafety {
  import opened SchedulerSpec
  import opened SchedulerRuns
  import opened IpcSpec
  import opened IpcInvariants
  import opened IpcSafety

  /** Some reply capabilities go away; faults may be cleared. */
  lemma DropAgrees(k: Kernel, k': Kernel)
    requires Agree(k) && k'.sched == k.sched && k'.objects == k.objects && k.masters <= k'.masters
    requires k'.tcbs.Keys == k.tcbs.Keys
    requires forall s :: s in k'.replies ==> s in k.replies && k'.replies[s] == k.replies[s]
    requires forall x {:trigger SameFields(k, k', x)} :: x in k.sched.threads ==> SameFields(k, k', x)
    ensures Agree(k')
  {
    forall x | x in k.sched.threads
      ensures Steady(k, k', x) && Untouched(k, k', x)
    {
      assert SameFields(k, k', x);
    }
    forall o | o in k.objects
      ensures QueueKept(k.objects[o], k'.objects[o])
    {}
    SteadyAgrees(k, k');
  }

  lemma DeleteReplyOk(k: Kernel, slot: nat)
    requires Ok(k)
    ensures Ok(DeleteReply(k, slot)) && slot !in DeleteReply(k, slot).replies
  {
    DropAgrees(k, DeleteReply(k, slot));
  }

  /** A reply capability may be saved in any empty slot that is no thread's caller slot. */
  lemma MoveReplyOk(k: Kernel, from: nat, to: nat)
    requires Ok(k) && from in k.replies && to !in k.replies
    requires forall t {:trigger CallerSlot(t)} :: t in k.sched.threads ==> CallerSlot(t) != to
    ensures Ok(MoveReply(k, from, to))
  {
    var k' := MoveReply(k, from, to);
    SameTables(k, k');
    forall s | s in k'.replies
      ensures ReplyOk(k', s)
    {
      var was := if s == to then from else s;
      assert ReplyOk(k, was) && k'.replies[s] == k.replies[was];
      forall r | r in k'.replies && k'.replies[r].caller == k'.replies[s].caller
        ensures r == s
      {
        assert (if r == to then from else r) in k.replies;
      }
    }
    forall t | t in k'.sched.threads
      ensures CallerOk(k', t)
    {
      assert CallerOk(k, t);
    }
  }

  /** do_reply: the assertion that the receiver is blocked on a reply holds for every reply
      capability, and replying keeps the invariant. */
  lemma DoReplyOk(k: Kernel, slot: nat, resume: bool)
    requires Ok(k) && slot in k.replies
    ensures k.replies[slot].caller in k.sched.threads && StateOf(k, k.replies[slot].caller) == BlockedOnReply
    ensures Ok(DoReply(k, slot, resume))
  {
    assert ReplyOk(k, slot);
    var t := k.replies[slot].caller;
    assert CallerOk(k, t);
    DeleteReplyOk(k, slot);
    var k1 := DeleteReply(k, slot);
    if !k.tcbs[t].faulted {
      SetBadgeOk(k1, t, {});
      WakeReplied(SetBadge(k1, t, {}), t, Running);
    } else if resume {
      WakeReplied(k1, t, Restart);
    } else {
      RestateMid(k1.sched, t, Inactive);
      RestateAgrees(k1, SetThreadState(k1, t, Inactive), t, Inactive);
    }
  }

  lemma WakeReplied(k: Kernel, t: nat, st: ThreadState)
    requires Ok(k) && t in k.sched.threads && StateOf(k, t) == BlockedOnReply && NoReplyFor(k, t) && IsRunnableState(st)
    ensures Ok(IpcSpec.Wake(k, t, st))
  {
    assert CallerOk(k, t);
    WakeFacts(k, t, st);
    RestateAgrees(k, IpcSpec.Wake(k, t, st), t, st);
  }

  /** cancel_ipc leaves the thread in no queue and without a pending reply. */
  lemma CancelIpcOk(k: Kernel, t: nat)
    requires Ok(k) && t in k.sched.threads
    ensures CancelAsserts(k, t) && (IsWaiting(StateOf(k, t)) ==> WaitsSomewhere(k, t))
    ensures Ok(CancelIpc(k, t)) && CancelIpc(k, t).sched.threads.Keys == k.sched.threads.Keys
    ensures
      var c := CancelIpc(k, t);
      && !IsWaiting(StateOf(c, t)) && NoReplyFor(c, t)
      && (StateOf(c, t) == StateOf(k, t) || StateOf(c, t) == Inactive)
      && c.sched.idle == k.sched.idle && c.sched.cur == k.sched.cur
      && (c.sched.action == k.sched.action || c.sched.action == ChooseNew)
  {
    if IsWaiting(StateOf(k, t)) {
      LeaveQueueOk(k, t);
      NotBlockedNoReply(LeaveQueue(k, t), t);
    } else if StateOf(k, t) == BlockedOnReply {
      DropAgrees(k, CancelIpc(k, t));
    } else {
      NotBlockedNoReply(k, t);
    }
  }

  /** A suspension ends inactive, and keeps the invariant exactly if the thread was not the pending switch target. */
  lemma SuspendThreadOk(k: Kernel, t: nat)
    requires Ok(k) && t in k.sched.threads && t != k.sched.idle
    ensures IsWaiting(StateOf(k, t)) ==> WaitsSomewhere(k, t)
    ensures Ok(SuspendThread(k, t)) <==> k.sched.action != SwitchTo(t)
    ensures t in SuspendThread(k, t).sched.threads && StateOf(SuspendThread(k, t), t) == Inactive
  {
    CancelIpcOk(k, t);
    var c := CancelIpc(k, t);
    if k.sched.action == SwitchTo(t) {
      assert c.sched == k.sched;
      SuspendTarget(c.sched, t);
    } else {
      SuspendMid(c.sched, t);
      RestateAgrees(c, SuspendThread(k, t), t, Inactive);
    }
  }

  lemma ResumeThreadOk(k: Kernel, t: nat)
    requires Ok(k) && t in k.sched.threads && t != k.sched.idle
    ensures IsWaiting(StateOf(k, t)) ==> WaitsSomewhere(k, t)
    ensures Ok(ResumeThread(k, t)) && !IsStoppedState(StateOf(ResumeThread(k, t), t))
  {
    CancelIpcOk(k, t);
    ResumeCancelled(k, CancelIpc(k, t), t);
  }

  lemma ResumeCancelled(k: Kernel, c: Kernel, t: nat)
    requires Shape(k) && t in k.sched.threads && (IsWaiting(StateOf(k, t)) ==> WaitsSomewhere(k, t))
    requires c == CancelIpc(k, t)
    requires Ok(c) && t in c.sched.threads && t != c.sched.idle && !IsWaiting(StateOf(c, t)) && NoReplyFor(c, t)
    ensures Ok(ResumeThread(k, t)) && !IsStoppedState(StateOf(ResumeThread(k, t), t))
  {
    if IsStoppedState(StateOf(c, t)) { RestartOk(c, t); }
  }

  /** tcb_t::restart on a stopped thread that waits for nothing. */
  lemma RestartOk(c: Kernel, t: nat)
    requires Ok(c) && t in c.sched.threads && t != c.sched.idle && IsStoppedState(StateOf(c, t))
    requires !IsWaiting(StateOf(c, t)) && NoReplyFor(c, t)
    ensures Ok(SetupMaster(c, t).(sched := RestartIfStopped(c.sched, t)))
    ensures StateOf(SetupMaster(c, t).(sched := RestartIfStopped(c.sched, t)), t) == Restart
  {
    RestartMid(c.sched, t);
    RestartAgrees(c, t);
  }

  lemma RestartAgrees(c: Kernel, t: nat)
    requires Agree(c) && t in c.sched.threads && t != c.sched.idle && IsStoppedState(StateOf(c, t))
    requires !IsWaiting(StateOf(c, t)) && NoReplyFor(c, t)
    ensures Agree(SetupMaster(c, t).(sched := RestartIfStopped(c.sched, t)))
  {
    DropAgrees(c, SetupMaster(c, t));
    RestateAgrees(SetupMaster(c, t), SetupMaster(c, t).(sched := RestartIfStopped(c.sched, t)), t, Restart);
  }

  // ---- bindings ----

  /** decode_bind_notification lets a binding through: the thread has none, and nobody waits. */
  predicate BindAllowed(k: Kernel, t: nat, n: nat) {
    && t in k.tcbs && n in k.objects && k.objects[n].Notification? && n != 0
    && k.tcbs[t].boundTo == 0 && QueueOf(k.objects[n]) == []
  }

  lemma BindOk(k: Kernel, t: nat, n: nat)
    requires Ok(k) && BindAllowed(k, t, n)
    ensures Ok(Bind(k, t, n))
  {
    RebindAgrees(k, Bind(k, t, n), t, n, n, t);
  }

  lemma UnbindOk(k: Kernel, t: nat)
    requires Ok(k) && t in k.tcbs
    ensures BindingOk(k, t) && Ok(Unbind(k, t))
  {
    assert BindingOk(k, t);
    if k.tcbs[t].boundTo != 0 { RebindAgrees(k, Unbind(k, t), t, k.tcbs[t].boundTo, 0, 0); }
  }

  /** Changing one thread's and one notification's binding. */
  lemma RebindAgrees(k: Kernel, k': Kernel, t: nat, n: nat, toNtfn: nat, toTcb: nat)
    requires Agree(k) && t in k.tcbs && n in k.objects && k.objects[n].Notification?
    requires toNtfn == 0 || toNtfn == n
    requires toTcb == 0 || toTcb == t
    requires k' == k.(tcbs := k.tcbs[t := k.tcbs[t].(boundTo := toNtfn)],
                      objects := k.objects[n := Notification(k.objects[n].ntfnState, k.objects[n].ntfnQueue,
                        k.objects[n].word, toTcb)])
    ensures Agree(k')
  {
    forall x | x in k'.tcbs
      ensures BindingOk(k', x) && Placed(k', x) && ThreadOk(k', x) && CallerOk(k', x)
    {
      assert BindingOk(k, x) && Placed(k, x) && ThreadOk(k, x) && CallerOk(k, x);
    }
    forall o | o in k'.objects
      ensures BoundThreadOk(k', o) && ObjectOk(k', o)
    {
      assert BoundThreadOk(k, o) && ObjectOk(k, o);
    }
    forall s | s in k'.replies
      ensures ReplyOk(k', s)
    {
      assert ReplyOk(k, s);
    }
  }
}
