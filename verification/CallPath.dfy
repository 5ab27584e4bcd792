/** The call fast path against the slow path: set_thread_state, send_ipc, schedule and activateThread
    (kernel/src/kernel/fastpath.rs, kernel/src/syscall/invocation/decode/mod.rs). */
module CallPath {
  import opened SchedulerSpec
  import opened SchedulerRuns
  import S = Scheduler
  import O = ScheduleOrder
  import opened IpcSpec
  import opened IpcInvariants
  import opened IpcSafety
  import opened KernelExit

  /** What the fast path leaves to check once the message is short and the capability found: somebody
      waits to receive, may run at once, and a reply may be granted. */
  predicate FastConditions(k: Kernel, ep: nat, canGrant: bool, canGrantReply: bool) {
    && IsEndpoint(k, ep) && k.objects[ep].epState == EpRecv && HasHead(k, ep) && k.sched.cur in k.sched.threads
    && !(k.sched.threads[HeadOf(k, ep)].prio < k.sched.threads[k.sched.cur].prio
      && !IsHighestPrio(k.sched, k.sched.threads[HeadOf(k, ep)].prio))
    && (canGrant || canGrantReply)
  }

  /** A call finds somebody who waits to receive, and a reply may be granted. */
  predicate CallMeets(k: Kernel, ep: nat, canGrant: bool, canGrantReply: bool) {
    && IsEndpoint(k, ep) && k.objects[ep].epState == EpRecv && HasHead(k, ep) && k.sched.cur in k.sched.threads
    && (canGrant || canGrantReply)
  }

  /** The caller blocks on the reply, the receiver runs, nobody else is looked at. */
  function FastEffect(k: Kernel, ep: nat, badge: Badge): (r: Kernel)
    requires HasHead(k, ep) && k.sched.cur in k.sched.threads && HeadOf(k, ep) in k.tcbs
  {
    var dest, cur := HeadOf(k, ep), k.sched.cur;
    var threads := k.sched.threads[cur := k.sched.threads[cur].(state := BlockedOnReply)];
    IpcSpec.SetBadge(IpcSpec.PopHead(k, ep), dest, badge).(
      sched := k.sched.(threads := threads[dest := threads[dest].(state := Running)], cur := dest),
      replies := k.replies[CallerSlot(dest) := Reply(cur, k.tcbs[dest].blocking.canGrant)])
  }

  /** The call as the slow path performs it. */
  ghost function SlowCall(k: Kernel, ep: nat, canGrant: bool, badge: Badge, canGrantReply: bool): (r: Kernel)
    requires AtUserLevel(k) && k.sched.cur != k.sched.idle && IsEndpoint(k, ep)
  {
    var m := SlowCallSent(k, ep, canGrant, badge, canGrantReply);
    Leave(m)
  }

  ghost function SlowCallSent(k: Kernel, ep: nat, canGrant: bool, badge: Badge, canGrantReply: bool): (r: Kernel)
    requires AtUserLevel(k) && k.sched.cur != k.sched.idle && IsEndpoint(k, ep)
    ensures Ok(r)
  {
    MarkedRuns(k);
    var m := k.(sched := SetState(k.sched, k.sched.cur, Restart));
    SendOk(m, ep, true, true, canGrant, badge, canGrantReply);
    IpcSpec.SendIpc(m, m.sched.cur, ep, true, true, canGrant, badge, canGrantReply)
  }

  /** A system call starts with the current thread marked for restart. */
  lemma MarkedRuns(k: Kernel)
    requires AtUserLevel(k) && k.sched.cur != k.sched.idle
    ensures var m := k.(sched := SetState(k.sched, k.sched.cur, Restart)); Ok(m) && CurrentRuns(m)
  {
    StableIsMid(k.sched);
    PlainAgrees(k, Mark(Restart));
  }

  /** After send_ipc: the receiver is the switch target, the caller blocks. */
  lemma SentEffect(k: Kernel, ep: nat, canGrant: bool, badge: Badge, canGrantReply: bool)
    requires AtUserLevel(k) && k.sched.cur != k.sched.idle && CallMeets(k, ep, canGrant, canGrantReply)
    ensures HeadOf(k, ep) in k.tcbs && HeadOf(k, ep) != k.sched.cur && StateOf(k, HeadOf(k, ep)) == BlockedOnReceive
    ensures
      var d, f := SlowCallSent(k, ep, canGrant, badge, canGrantReply), FastEffect(k, ep, badge);
      && d.objects == f.objects && d.tcbs == f.tcbs && d.masters == f.masters && d.replies == f.replies
      && d.sched == f.sched.(cur := k.sched.cur, action := SwitchTo(HeadOf(k, ep)))
  {
    HeadWaits(k, ep);
    MarkedRuns(k);
    var m := k.(sched := SetState(k.sched, k.sched.cur, Restart));
    SendOk(m, ep, true, true, canGrant, badge, canGrantReply);
    var cur, dest, t0 := k.sched.cur, HeadOf(k, ep), k.sched.threads;
    var blocked, running := t0[cur].(state := BlockedOnReply), t0[dest].(state := Running);
    var restarted: map<nat, Thread> := t0[cur := t0[cur].(state := Restart)];
    assert restarted[dest := running][cur := blocked] == t0[cur := blocked][dest := running];
  }

  /** schedule() and activateThread() then switch to the receiver and touch no ready queue. */
  lemma ScheduleSwitches(s: Sched, dest: nat)
    requires HeadsKnown(s) && s.action == SwitchTo(dest) && Known(s, dest) && s.cur != s.idle
    requires !Runnable(s, s.cur) && s.threads[dest].state == Running && dest !in s.queues[s.threads[dest].prio]
    requires !(s.threads[dest].prio < s.threads[s.cur].prio && !IsHighestPrio(s, s.threads[dest].prio))
    ensures SchedulerSpec.Schedule(s) == s.(cur := dest, action := Resume)
  {
    S.RemoveAbsent(s.queues[s.threads[dest].prio], dest);
    assert s.queues[s.threads[dest].prio := s.queues[s.threads[dest].prio]] == s.queues;
  }

  /** Whenever the fast path is taken, it has exactly the effect of the slow path. */
  lemma FastIsSlow(k: Kernel, ep: nat, canGrant: bool, badge: Badge, canGrantReply: bool)
    requires AtUserLevel(k) && k.sched.cur != k.sched.idle && FastConditions(k, ep, canGrant, canGrantReply)
    ensures HeadOf(k, ep) in k.tcbs
    ensures SlowCall(k, ep, canGrant, badge, canGrantReply) == FastEffect(k, ep, badge)
  {
    SentEffect(k, ep, canGrant, badge, canGrantReply);
    var d := SlowCallSent(k, ep, canGrant, badge, canGrantReply);
    var dest := HeadOf(k, ep);
    NotReadyNotQueued(k.sched, dest);
    ScheduleSwitches(d.sched, dest);
  }

  /** The fast path is there exactly for the calls after which the slow path would run the receiver next. */
  lemma FastIffReceiverNext(k: Kernel, ep: nat, canGrant: bool, badge: Badge, canGrantReply: bool)
    requires AtUserLevel(k) && k.sched.cur != k.sched.idle && IsEndpoint(k, ep)
    ensures FastConditions(k, ep, canGrant, canGrantReply) <==>
      && CallMeets(k, ep, canGrant, canGrantReply)
      && SlowCall(k, ep, canGrant, badge, canGrantReply).sched.cur == HeadOf(k, ep)
  {
    if CallMeets(k, ep, canGrant, canGrantReply) {
      SentEffect(k, ep, canGrant, badge, canGrantReply);
      var d, dest := SlowCallSent(k, ep, canGrant, badge, canGrantReply), HeadOf(k, ep);
      NotReadyNotQueued(k.sched, dest);
      NextIffNoneAbove(k.sched, d.sched, dest);
    }
  }

  /** With the caller blocked, the receiver runs next exactly if nobody queued outranks it, which is what the fast path
      asks. */
  lemma NextIffNoneAbove(s: Sched, d: Sched, dest: nat)
    requires Stable(s) && Mid(d) && d.action == SwitchTo(dest) && d.queues == s.queues && d.cur == s.cur != d.idle
    requires !Runnable(d, d.cur) && dest in s.threads && dest !in s.queues[s.threads[dest].prio] && d.idle == s.idle
    requires forall t :: t in s.threads ==> t in d.threads && d.threads[t].prio == s.threads[t].prio
    ensures SchedulerSpec.Schedule(d).cur == dest <==>
      !(s.threads[dest].prio < s.threads[s.cur].prio && !IsHighestPrio(s, s.threads[dest].prio))
  {
    var h := HighestPrio(s.queues);
    O.CandidateChoice(d, dest);
    if h >= 0 {
      assert QueueOk(s, h) && QueueOk(d, h);
      assert Settled(s, s.queues[h][0]) && Queued(d, s.queues[h][0]);
    }
    forall t | t in d.threads && Queued(d, t)
      ensures d.threads[t].prio <= h
    {
      QueuedIsEligible(d, t);
    }
    if !O.RunsAtOnce(d, dest) { O.FirstIsNot(d, dest); }
  }

  lemma NotReadyNotQueued(s: Sched, t: nat)
    requires Structure(s) && t in s.threads && !Runnable(s, t)
    ensures t !in s.queues[s.threads[t].prio]
  {
    assert QueueOk(s, s.threads[t].prio);
  }
}
