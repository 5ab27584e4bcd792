/** Each IPC operation keeps the whole invariant, and what its code asserts of queues, thread states and reply slots
    holds. The assertion on the receive slot of a capability transfer is the subject of CapTransfer. */
module IpcSafety {
  import opened SchedulerSpec
  import opened SchedulerRuns
  import opened IpcSpec
  import opened IpcInvariants

  /** The current thread stops; nobody is waiting for anything else. */
  lemma StopCurrentOk(k: Kernel, st: ThreadState)
    requires Ok(k) && CurrentRuns(k) && (st == Inactive || (st == BlockedOnReply && k.sched.cur in k.masters))
    ensures Ok(SetThreadState(k, k.sched.cur, st))
  {
    StopCurrent(k.sched, st);
    NotBlockedNoReply(k, k.sched.cur);
    RestateAgrees(k, SetThreadState(k, k.sched.cur, st), k.sched.cur, st);
  }

  /** The current thread blocks at the tail of an object's queue. */
  lemma BlockOk(k: Kernel, o: nat, b: Blocking, st: ThreadState, send: bool)
    requires Ok(k) && CurrentRuns(k) && o in k.objects && b.waitsOn == o
    requires st == WaitState(Joined(k.objects[o], k.sched.cur, send))
    requires QueueOf(k.objects[o]) != [] ==> st == WaitState(k.objects[o])
    requires st == BlockedOnReceive ==> CallerSlot(k.sched.cur) !in k.replies
    ensures Ok(BlockOn(k, k.sched.cur, o, b, st, send))
  {
    StopCurrent(k.sched, st);
    BlockOnAgrees(k, o, b, st, send);
  }

  lemma BlockOnAgrees(k: Kernel, o: nat, b: Blocking, st: ThreadState, send: bool)
    requires Agree(k) && CurrentRuns(k) && o in k.objects && b.waitsOn == o
    requires st == WaitState(Joined(k.objects[o], k.sched.cur, send))
    requires QueueOf(k.objects[o]) != [] ==> st == WaitState(k.objects[o])
    requires st == BlockedOnReceive ==> CallerSlot(k.sched.cur) !in k.replies
    ensures Agree(BlockOn(k, k.sched.cur, o, b, st, send))
  {
    var k' := BlockOn(k, k.sched.cur, o, b, st, send);
    forall x | x in k.sched.threads
      ensures Steady(k, k', x) && (x != k.sched.cur ==> Untouched(k, k', x))
    {
      assert CallerOk(k, x);
    }
    BlockAgrees(k, k', o, k.sched.cur, send);
  }

  // ---- endpoints ----

  /** Sending never trips over the assertions of send_ipc and setup_caller_cap, and keeps the invariant. */
  lemma SendOk(k: Kernel, ep: nat, blocking: bool, doCall: bool, canGrant: bool, badge: Badge, canGrantReply: bool)
    requires Ok(k) && CurrentRuns(k) && ep in k.objects && k.objects[ep].Endpoint?
    ensures SendAsserts(k, k.sched.cur, ep)
    ensures Ok(SendIpc(k, k.sched.cur, ep, blocking, doCall, canGrant, badge, canGrantReply))
  {
    assert ObjectOk(k, ep) && CallerOk(k, k.sched.cur);
    if k.objects[ep].epState == EpRecv {
      HeadWaits(k, ep);
      DeliverOk(k, ep, doCall, canGrant, badge, canGrantReply);
    } else if blocking {
      BlockOk(k, ep, Blocking(ep, badge, canGrant, canGrantReply, doCall), BlockedOnSend, true);
    }
  }

  lemma DeliverOk(k: Kernel, ep: nat, doCall: bool, canGrant: bool, badge: Badge, canGrantReply: bool)
    requires Ok(k) && CurrentRuns(k) && ep in k.objects && k.objects[ep].Endpoint? && k.objects[ep].epState == EpRecv
    requires SendAsserts(k, k.sched.cur, ep) && StateOf(k, HeadOf(k, ep)) == BlockedOnReceive
    ensures Ok(Deliver(k, k.sched.cur, ep, doCall, canGrant, badge, canGrantReply))
  {
    var dest := HeadOf(k, ep);
    PopWakeOk(k, ep, dest, badge);
    if doCall {
      CallOk(IpcSpec.Wake(SetBadge(PopHead(k, ep), dest, badge), dest, Running), dest, canGrant || canGrantReply,
        k.tcbs[dest].blocking.canGrant);
    }
  }

  /** After its message is delivered, a caller waits for the reply or is stopped. */
  lemma CallOk(k: Kernel, dest: nat, grants: bool, canGrant: bool)
    requires Ok(k) && CurrentRuns(k) && k.sched.cur in k.masters && dest in k.sched.threads && dest != k.sched.idle
    requires CallerSlot(dest) !in k.replies && StateOf(k, dest) == Running && dest != k.sched.cur
    ensures Ok(if grants then SetupCallerCap(k, dest, k.sched.cur, canGrant)
      else SetThreadState(k, k.sched.cur, Inactive))
  {
    StopCurrentOk(k, if grants then BlockedOnReply else Inactive);
    if grants { SetupAgrees(k, dest, k.sched.cur, canGrant); }
  }

  /** complete_signal and receive_signal on an active notification. */
  lemma TakeSignalOk(k: Kernel, t: nat, n: nat)
    requires Ok(k) && t in k.tcbs && n in k.objects && k.objects[n].Notification?
    requires k.objects[n].ntfnState == NtfnActive
    ensures Ok(TakeSignal(k, t, n))
  {
    NothingMoves(k, TakeSignal(k, t, n));
  }

  /** Steps that change only badge registers, notification words, and whether they are pending. */
  lemma NothingMoves(k: Kernel, k': Kernel)
    requires Agree(k) && k'.sched == k.sched && k'.replies == k.replies && k'.masters == k.masters
    requires k'.tcbs.Keys == k.tcbs.Keys && k'.objects.Keys == k.objects.Keys
    requires forall x {:trigger SameFields(k, k', x)} :: x in k.sched.threads ==> SameFields(k, k', x)
    requires forall o {:trigger QueueKept(k.objects[o], k'.objects[o])} :: o in k.objects ==>
      QueueKept(k.objects[o], k'.objects[o])
    ensures Agree(k')
  {
    forall x | x in k.sched.threads
      ensures Steady(k, k', x) && Untouched(k, k', x)
    {
      assert SameFields(k, k', x);
    }
    SteadyAgrees(k, k');
  }

  lemma SetBadgeOk(k: Kernel, t: nat, badge: Badge)
    requires Ok(k) && t in k.tcbs
    ensures Ok(SetBadge(k, t, badge))
  {
    NothingMoves(k, SetBadge(k, t, badge));
  }

  /** A stopped thread other than the current one changes to another stopped state. */
  lemma RestateMid(s: Sched, t: nat, st: ThreadState)
    requires Mid(s) && t in s.threads && t != s.idle && !Runnable(s, t) && IsStoppedState(st)
    ensures Mid(SetState(s, t, st))
  {
    StepMid(s, Restate(t, st));
  }

  /** A caller's message is taken and the caller is stopped. */
  lemma PopStopOk(k: Kernel, o: nat, t: nat, badge: Badge)
    requires Ok(k) && o in k.objects && QueueOf(k.objects[o]) != [] && HasHead(k, o) && t in k.tcbs
    ensures Ok(SetThreadState(SetBadge(PopHead(k, o), t, badge), HeadOf(k, o), Inactive))
  {
    HeadWaits(k, o);
    RestateMid(k.sched, HeadOf(k, o), Inactive);
    PopStopAgrees(k, o, t, badge);
  }

  lemma PopStopAgrees(k: Kernel, o: nat, t: nat, badge: Badge)
    requires Agree(k) && o in k.objects && QueueOf(k.objects[o]) != [] && HasHead(k, o) && t in k.tcbs
    ensures Agree(SetThreadState(SetBadge(PopHead(k, o), t, badge), HeadOf(k, o), Inactive))
  {
    HeadWaits(k, o);
    var k' := SetThreadState(SetBadge(PopHead(k, o), t, badge), HeadOf(k, o), Inactive);
    forall x | x in k.sched.threads
      ensures SameFields(k, k', x)
    {}
    PopAgrees(k, k', o, Inactive);
  }

  /** setup_caller_cap for a sender that is stopped and not the current thread. */
  lemma SetupStoppedOk(k: Kernel, receiver: nat, sender: nat, canGrant: bool)
    requires Ok(k) && receiver in k.sched.threads && sender in k.sched.threads && receiver != k.sched.idle
    requires sender != k.sched.idle
    requires sender in k.masters && CallerSlot(receiver) !in k.replies && receiver != sender
    requires StateOf(k, sender) == Inactive && StateOf(k, receiver) != BlockedOnReceive
    ensures Ok(SetupCallerCap(k, receiver, sender, canGrant))
  {
    RestateMid(k.sched, sender, BlockedOnReply);
    SetupAgrees(k, receiver, sender, canGrant);
  }

  /** Stopping a sender first makes no difference to setting up its reply. */
  lemma SetupAfterStop(k: Kernel, receiver: nat, sender: nat, canGrant: bool)
    requires Known(k.sched, sender) && receiver in k.tcbs && sender in k.masters && CallerSlot(receiver) !in k.replies
    requires sender != k.sched.cur
    ensures SetupCallerCap(SetThreadState(k, sender, Inactive), receiver, sender, canGrant) ==
      SetupCallerCap(k, receiver, sender, canGrant)
  {
    var threads := k.sched.threads;
    assert threads[sender := threads[sender].(state := Inactive)][sender := threads[sender].(state := BlockedOnReply)]
           == threads[sender := threads[sender].(state := BlockedOnReply)];
  }

  lemma AcceptOk(k: Kernel, ep: nat, grant: bool)
    requires Ok(k) && CurrentRuns(k) && ep in k.objects && k.objects[ep].Endpoint? && k.objects[ep].epState == EpSend
    requires ReceiveAsserts(k, k.sched.cur, ep) && StateOf(k, HeadOf(k, ep)) == BlockedOnSend
    ensures Ok(Accept(k, k.sched.cur, ep, grant))
  {
    var sender := HeadOf(k, ep);
    var b := k.tcbs[sender].blocking;
    if !b.isCall {
      PopWakeOk(k, ep, k.sched.cur, b.badge);
    } else {
      PopStopOk(k, ep, k.sched.cur, b.badge);
      if b.canGrant || b.canGrantReply {
        var k1 := SetBadge(PopHead(k, ep), k.sched.cur, b.badge);
        SetupStoppedOk(SetThreadState(k1, sender, Inactive), k.sched.cur, sender, grant);
        SetupAfterStop(k1, k.sched.cur, sender, grant);
      }
    }
  }

  /** Receiving with an empty caller slot never trips over an assertion, and keeps the invariant. */
  lemma ReceiveOk(k: Kernel, ep: nat, isBlocking: bool, grant: bool)
    requires Ok(k) && CurrentRuns(k) && ep in k.objects && k.objects[ep].Endpoint?
    requires CallerSlot(k.sched.cur) !in k.replies
    ensures ReceiveAsserts(k, k.sched.cur, ep)
    ensures Ok(ReceiveIpc(k, k.sched.cur, ep, isBlocking, grant))
  {
    assert ObjectOk(k, ep) && BindingOk(k, k.sched.cur);
    var b := k.tcbs[k.sched.cur].blocking;
    if k.objects[ep].epState == EpSend { HeadWaits(k, ep); }
    if SignalPending(k, k.sched.cur) {
      TakeSignalOk(k, k.sched.cur, k.tcbs[k.sched.cur].boundTo);
    } else if k.objects[ep].epState == EpSend {
      AcceptOk(k, ep, grant);
    } else if isBlocking {
      BlockOk(k, ep, Blocking(ep, b.badge, grant, b.canGrantReply, b.isCall), BlockedOnReceive, false);
    } else {
      SetBadgeOk(k, k.sched.cur, {});
    }
  }

  // ---- notifications ----

  /** A thread leaves the queue it waits in. */
  lemma LeaveQueueOk(k: Kernel, t: nat)
    requires Ok(k) && t in k.sched.threads && IsWaiting(StateOf(k, t))
    ensures CancelAsserts(k, t) && WaitsSomewhere(k, t) && t in k.masters && t != k.sched.idle && Ok(LeaveQueue(k, t))
  {
    assert ThreadOk(k, t) && CallerOk(k, t) && ObjectOk(k, k.tcbs[t].blocking.waitsOn);
    RestateMid(k.sched, t, Inactive);
    LeaveQueueAgrees(k, t);
  }

  lemma LeaveQueueAgrees(k: Kernel, t: nat)
    requires Agree(k) && t in k.sched.threads && IsWaiting(StateOf(k, t)) && WaitsSomewhere(k, t)
    ensures Agree(LeaveQueue(k, t))
  {
    var o := k.tcbs[t].blocking.waitsOn;
    var q := QueueOf(k.objects[o]);
    var k' := LeaveQueue(k, t);
    assert ThreadOk(k, t) && ObjectOk(k, o);
    RemoveFacts(q, t);
    forall x | x in k.sched.threads
      ensures Steady(k, k', x) && Released(k, k', o, Remove(q, t), x)
    {
      assert CallerOk(k, x);
    }
    ReleaseAgrees(k, k', o, Remove(q, t));
  }

  /** A stopped thread that was started before becomes ready. */
  lemma WakeOk(k: Kernel, t: nat, st: ThreadState)
    requires Ok(k) && t in k.sched.threads && t != k.sched.idle && t in k.masters && StateOf(k, t) == Inactive
    requires IsRunnableState(st)
    ensures Ok(IpcSpec.Wake(k, t, st))
  {
    WakeFacts(k, t, st);
    NotBlockedNoReply(k, t);
    RestateAgrees(k, IpcSpec.Wake(k, t, st), t, st);
  }

  /** Signalling never meets an empty queue, and keeps the invariant. */
  lemma SignalOk(k: Kernel, n: nat, badge: Badge)
    requires Ok(k) && n in k.objects && k.objects[n].Notification?
    ensures SignalAsserts(k, n) && Ok(SendSignal(k, n, badge))
  {
    assert ObjectOk(k, n) && BoundThreadOk(k, n);
    var t := k.objects[n].boundTcb;
    match k.objects[n].ntfnState
    case NtfnIdle =>
      if t != 0 && StateOf(k, t) == BlockedOnReceive {
        LeaveQueueOk(k, t);
        SetBadgeOk(LeaveQueue(k, t), t, badge);
        WakeOk(SetBadge(LeaveQueue(k, t), t, badge), t, Running);
      } else {
        NothingMoves(k, SendSignal(k, n, badge));
      }
    case NtfnWaiting =>
      HeadWaits(k, n);
      PopWakeOk(k, n, HeadOf(k, n), badge);
    case NtfnActive =>
      NothingMoves(k, SendSignal(k, n, badge));
  }

  lemma ReceiveSignalOk(k: Kernel, n: nat, isBlocking: bool)
    requires Ok(k) && CurrentRuns(k) && n in k.objects && k.objects[n].Notification?
    ensures Ok(ReceiveSignal(k, k.sched.cur, n, isBlocking))
  {
    var b := k.tcbs[k.sched.cur].blocking;
    if k.objects[n].ntfnState == NtfnActive {
      TakeSignalOk(k, k.sched.cur, n);
    } else if isBlocking {
      BlockOk(k, n, Blocking(n, b.badge, b.canGrant, b.canGrantReply, b.isCall), BlockedOnNotification, false);
    } else {
      SetBadgeOk(k, k.sched.cur, {});
    }
  }

  // ---- cancellation ----

  /** The waiters of o that are not in keep are restarted and queued for the processor. */
  function WakeWaiters(k: Kernel, o: nat, keep: seq<nat>, ts: seq<nat>): (r: Kernel)
    requires Shape(k) && |k.sched.queues| == NUM_PRIORITIES && o in k.objects
    requires forall i :: 0 <= i < |ts| ==> ts[i] in k.sched.threads
  {
    k.(objects := k.objects[o := WithQueue(k.objects[o], keep)], sched := RescheduleRequired(ReadyAll(k.sched, ts)))
  }

  /** What waking the waiters ts does to one thread. */
  lemma WakeWaitersEffect(k: Kernel, o: nat, keep: seq<nat>, ts: seq<nat>, x: nat)
    requires Shape(k) && Mid(k.sched) && o in k.objects && x in k.sched.threads
    requires k.sched.idle !in ts && forall i :: 0 <= i < |ts| ==> ts[i] in k.sched.threads
    ensures x in WakeWaiters(k, o, keep, ts).sched.threads
    ensures WakeWaiters(k, o, keep, ts).sched.threads[x] == if x in ts then k.sched.threads[x].(state := Restart)
      else k.sched.threads[x]
  {
    MidIsReady(k.sched);
    ReadyAllReady(k.sched, ts);
    ReadyAllWakes(k.sched, ts, x);
  }

  lemma WakeWaitersMid(k: Kernel, o: nat, keep: seq<nat>, ts: seq<nat>)
    requires Shape(k) && Mid(k.sched) && o in k.objects && k.sched.idle !in ts
    requires forall i :: 0 <= i < |ts| ==> ts[i] in k.sched.threads
    ensures Mid(WakeWaiters(k, o, keep, ts).sched)
    ensures WakeWaiters(k, o, keep, ts).sched.cur == k.sched.cur
    ensures WakeWaiters(k, o, keep, ts).sched.idle == k.sched.idle
  {
    StepMid(k.sched, WakeAll(ts));
    MidIsReady(k.sched);
    ReadyAllReady(k.sched, ts);
    ReadyAllIdle(k.sched, ts);
  }

  lemma {:induction false} ReadyAllIdle(s: Sched, ts: seq<nat>)
    requires |s.queues| == NUM_PRIORITIES && (forall t :: t in s.threads ==> s.threads[t].prio < NUM_PRIORITIES)
    requires forall k :: 0 <= k < |ts| ==> ts[k] in s.threads
    ensures ReadyAll(s, ts).idle == s.idle
    decreases |ts|
  {
    if ts != [] { ReadyAllIdle(Enqueue(SetState(s, ts[0], Restart), ts[0]), ts[1..]); }
  }

  lemma WakeWaitersAgrees(k: Kernel, k': Kernel, o: nat, keep: seq<nat>, ts: seq<nat>)
    requires Agree(k) && o in k.objects && QueueOf(k.objects[o]) != [] && NoDup(keep)
    requires forall t :: t in QueueOf(k.objects[o]) <==> t in keep || t in ts
    requires forall t :: !(t in keep && t in ts)
    requires k'.objects == k.objects[o := WithQueue(k.objects[o], keep)] && k'.tcbs == k.tcbs && k'.replies == k.replies
    requires k'.masters == k.masters
    requires StepShape(k, k')
    requires forall x :: x in k.sched.threads ==>
      k'.sched.threads[x] == if x in ts then k.sched.threads[x].(state := Restart) else k.sched.threads[x]
    ensures Agree(k')
  {
    assert ObjectOk(k, o);
    forall x | x in k.sched.threads
      ensures Steady(k, k', x) && Released(k, k', o, keep, x)
    {
      assert CallerOk(k, x);
    }
    ReleaseAgrees(k, k', o, keep);
  }

  lemma WakeWaitersOk(k: Kernel, o: nat, keep: seq<nat>, ts: seq<nat>)
    requires Ok(k) && o in k.objects && QueueOf(k.objects[o]) != [] && NoDup(keep)
    requires forall t :: t in QueueOf(k.objects[o]) <==> t in keep || t in ts
    requires forall t :: !(t in keep && t in ts)
    ensures forall i :: 0 <= i < |ts| ==> ts[i] in k.sched.threads
    ensures Ok(WakeWaiters(k, o, keep, ts))
  {
    assert ObjectOk(k, o);
    forall i | 0 <= i < |ts|
      ensures ts[i] in k.sched.threads && ts[i] != k.sched.idle
    {
      assert ts[i] in ts;
    }
    WakeWaitersMid(k, o, keep, ts);
    var k' := WakeWaiters(k, o, keep, ts);
    forall x | x in k.sched.threads
      ensures k'.sched.threads[x] == if x in ts then k.sched.threads[x].(state := Restart) else k.sched.threads[x]
    {
      WakeWaitersEffect(k, o, keep, ts, x);
    }
    WakeWaitersAgrees(k, k', o, keep, ts);
  }

  /** cancel_all_ipc and cancel_all_signal keep the invariant. */
  lemma CancelAllOk(k: Kernel, o: nat)
    requires Ok(k) && o in k.objects
    ensures Ok(CancelAll(k, o))
  {
    assert ObjectOk(k, o);
    if QueueOf(k.objects[o]) != [] {
      WakeWaitersOk(k, o, [], QueueOf(k.objects[o]));
    }
  }

  lemma {:induction false} WithBadgeNoDup(tcbs: map<nat, Tcb>, q: seq<nat>, badge: Badge, matching: bool)
    requires NoDup(q) && forall t :: t in q ==> t in tcbs
    ensures NoDup(WithBadge(tcbs, q, badge, matching))
  {
    if q != [] {
      WithBadgeNoDup(tcbs, q[1..], badge, matching);
      assert q[0] !in q[1..];
    }
  }

  /** x stands before y, at these places. */
  predicate Before(q: seq<nat>, a: nat, b: nat, x: nat, y: nat) {
    a < b < |q| && q[a] == x && q[b] == y
  }

  /** Of two senders that stay, the one ahead stays ahead. */
  lemma {:induction false} WithBadgeKeepsOrder(tcbs: map<nat, Tcb>, q: seq<nat>, badge: Badge, matching: bool, i: nat,
      j: nat)
    requires i < j < |q| && forall t :: t in q ==> t in tcbs
    requires (tcbs[q[i]].blocking.badge == badge) == matching && (tcbs[q[j]].blocking.badge == badge) == matching
    ensures exists a: nat, b: nat :: Before(WithBadge(tcbs, q, badge, matching), a, b, q[i], q[j])
  {
    var r := WithBadge(tcbs, q, badge, matching);
    var rest := WithBadge(tcbs, q[1..], badge, matching);
    assert q[0] in q && q[1..][j - 1] == q[j];
    if i == 0 {
      assert q[j] in rest;
      var b :| 0 <= b < |rest| && rest[b] == q[j];
      assert Before(r, 0, b + 1, q[i], q[j]);
    } else {
      WithBadgeKeepsOrder(tcbs, q[1..], badge, matching, i - 1, j - 1);
      var a: nat, b: nat :| Before(rest, a, b, q[i], q[j]);
      if |r| == |rest| {
        assert Before(r, a, b, q[i], q[j]);
      } else {
        assert Before(r, a + 1, b + 1, q[i], q[j]);
      }
    }
  }

  /** A thread that waits to send with the given badge. */
  predicate SendsWith(k: Kernel, ep: nat, badge: Badge, t: nat)
    requires t in k.sched.threads && t in k.tcbs
  {
    StateOf(k, t) == BlockedOnSend && k.tcbs[t].blocking.waitsOn == ep && k.tcbs[t].blocking.badge == badge
  }

  lemma CancelBadgedOk(k: Kernel, ep: nat, badge: Badge)
    requires Ok(k) && ep in k.objects && k.objects[ep].Endpoint?
    ensures Ok(CancelBadgedSends(k, ep, badge)) && ep in CancelBadgedSends(k, ep, badge).objects
    ensures CancelBadgedSends(k, ep, badge).sched.threads.Keys == k.sched.threads.Keys
  {
    assert ObjectOk(k, ep);
    var q := QueueOf(k.objects[ep]);
    if k.objects[ep].epState == EpSend {
      WithBadgeNoDup(k.tcbs, q, badge, false);
      WakeWaitersOk(k, ep, WithBadge(k.tcbs, q, badge, false), WithBadge(k.tcbs, q, badge, true));
    }
  }

  /** cancel_badged_sends restarts exactly the senders with the badge; everybody else keeps their
      state and stays in, or out of, the queue. */
  lemma CancelBadgedExact(k: Kernel, ep: nat, badge: Badge, t: nat)
    requires Ok(k) && ep in k.objects && k.objects[ep].Endpoint? && t in k.sched.threads
    ensures ep in CancelBadgedSends(k, ep, badge).objects && t in CancelBadgedSends(k, ep, badge).sched.threads
    ensures
      var k' := CancelBadgedSends(k, ep, badge);
      if SendsWith(k, ep, badge, t) then StateOf(k', t) == Restart && t !in QueueOf(k'.objects[ep])
      else StateOf(k', t) == StateOf(k, t) && (t in QueueOf(k'.objects[ep]) <==> t in QueueOf(k.objects[ep]))
  {
    assert ObjectOk(k, ep) && ThreadOk(k, t);
    var q := QueueOf(k.objects[ep]);
    if k.objects[ep].epState == EpSend {
      var keep, ts := WithBadge(k.tcbs, q, badge, false), WithBadge(k.tcbs, q, badge, true);
      assert k.sched.idle !in ts;
      WakeWaitersEffect(k, ep, keep, ts, t);
    }
  }

  // ---- new threads and objects ----

  lemma NewThreadMid(s: Sched, t: nat)
    requires Mid(s) && t !in s.threads
    ensures Mid(s.(threads := s.threads[t := Thread(Inactive, 0, TIME_SLICE)]))
  {
    var s' := s.(threads := s.threads[t := Thread(Inactive, 0, TIME_SLICE)]);
    forall p | 0 <= p < |s'.queues|
      ensures QueueOk(s', p) && HeadKnown(s', p)
    {
      assert QueueOk(s, p) && HeadKnown(s, p);
    }
    forall x | x in s'.threads
      ensures Fine(s', x)
    {
      if x in s.threads { assert Fine(s, x); } else { assert QueueOk(s, 0); }
    }
  }

  lemma CreateOk(k: Kernel, o: nat, kind: NewKind)
    requires Ok(k) && MayCreate(k, o, kind)
    ensures Ok(Create(k, o, kind))
  {
    var r := Create(k, o, kind);
    if kind.NewTcb? { NewThreadMid(k.sched, o); }
    forall t | t in r.tcbs
      ensures Placed(r, t) && BindingOk(r, t) && ThreadOk(r, t) && CallerOk(r, t)
    {
      if t in k.tcbs { assert Placed(k, t) && BindingOk(k, t) && ThreadOk(k, t) && CallerOk(k, t); }
    }
    forall n | n in r.objects
      ensures BoundThreadOk(r, n) && ObjectOk(r, n)
    {
      if n in k.objects { assert BoundThreadOk(k, n) && ObjectOk(k, n); }
    }
    forall s | s in r.replies
      ensures ReplyOk(r, s)
    {
      assert ReplyOk(k, s);
    }
  }
}
