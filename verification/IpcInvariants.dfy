/** Every IPC operation keeps threads, queues, replies and the scheduler in agreement. */
module IpcInvariants {
  import opened SchedulerSpec
  import opened SchedulerRuns
  import opened IpcSpec

  // ---- the scheduler's part ----

  lemma EnqueueOther(s: Sched, x: nat, c: nat)
    requires Known(s, x) && Known(s, c) && x != c
    ensures Queued(Enqueue(s, x), c) == Queued(s, c)
  {
  }

  lemma PossibleSwitchOther(s: Sched, t: nat, c: nat)
    requires Known(s, t) && Known(s, c) && t != c
    requires (s.action.SwitchTo? ==> Known(s, s.action.thread) && s.action.thread != c)
    ensures Queued(PossibleSwitchTo(s, t), c) == Queued(s, c)
  {
    if s.action != Resume {
      if s.action.SwitchTo? { EnqueueOther(s, s.action.thread, c); }
      EnqueueOther(RescheduleRequired(s), t, c);
    }
  }

  /** Waking a stopped thread keeps the scheduler's invariant, and does not queue the current thread
      unless it is the one that is woken. */
  lemma WakeFacts(k: Kernel, t: nat, st: ThreadState)
    requires Mid(k.sched) && t in k.sched.threads && t != k.sched.idle && !Runnable(k.sched, t) && IsRunnableState(st)
    ensures Mid(IpcSpec.Wake(k, t, st).sched)
    ensures t != k.sched.cur && !Queued(k.sched, k.sched.cur) ==> !Queued(IpcSpec.Wake(k, t, st).sched, k.sched.cur)
  {
    StepMid(k.sched, SchedulerRuns.Wake(t, st));
    if t != k.sched.cur { PossibleSwitchOther(SetState(k.sched, t, st), t, k.sched.cur); }
  }

  /** The current thread runs and is in no ready queue, as at the start of every system call. */
  ghost predicate CurrentRuns(k: Kernel) {
    && k.sched.cur in k.sched.threads && Runnable(k.sched, k.sched.cur) && k.sched.cur != k.sched.idle
    && Known(k.sched, k.sched.cur) && !Queued(k.sched, k.sched.cur)
  }

  lemma StopCurrent(s: Sched, st: ThreadState)
    requires Mid(s) && s.cur != s.idle && !Queued(s, s.cur) && IsStoppedState(st)
    ensures Mid(SetState(s, s.cur, st))
  {
    StopMid(s, s.cur, st);
  }

  // ---- the replies' part ----

  /** How a step that inserts no reply capability treats thread x. */
  ghost predicate KeepsReply(k: Kernel, k': Kernel, x: nat)
    requires x in k.sched.threads && x in k'.sched.threads
  {
    && (StateOf(k, x) == BlockedOnReply && StateOf(k', x) != BlockedOnReply ==>
          forall s :: s in k'.replies ==> k'.replies[s].caller != x)
    && (StateOf(k', x) == BlockedOnReceive ==> StateOf(k, x) == BlockedOnReceive || CallerSlot(x) !in k'.replies)
    && (StateOf(k', x) != Inactive && StateOf(k', x) != IdleState ==>
          x in k'.masters || (StateOf(k, x) != Inactive && StateOf(k, x) != IdleState))
  }

  lemma RepliesFrame(k: Kernel, k': Kernel)
    requires RepliesAgree(k) && k'.tcbs.Keys == k'.sched.threads.Keys == k.sched.threads.Keys
    requires forall s :: s in k'.replies ==> s in k.replies && k'.replies[s] == k.replies[s]
    requires k.masters <= k'.masters
    requires forall x {:trigger KeepsReply(k, k', x)} :: x in k.sched.threads ==> KeepsReply(k, k', x)
    ensures RepliesAgree(k')
  {
    forall s | s in k'.replies
      ensures ReplyOk(k', s)
    {
      assert ReplyOk(k, s);
      assert KeepsReply(k, k', k'.replies[s].caller);
    }
    forall t | t in k'.sched.threads
      ensures CallerOk(k', t)
    {
      assert CallerOk(k, t) && KeepsReply(k, k', t);
    }
  }

  /** A new reply capability for sender, who was not blocked on one, in the caller slot of receiver. */
  lemma CallerSlotsDiffer(k: Kernel, s: nat, t: nat)
    requires Shape(k) && s in k.sched.threads && t in k.sched.threads && s != t && s != k.sched.idle
    requires t != k.sched.idle
    ensures CallerSlot(s) != CallerSlot(t)
  {
    assert Placed(k, s) && Placed(k, t);
  }

  lemma RepliesInsert(k: Kernel, k': Kernel, receiver: nat, sender: nat, canGrant: bool)
    requires Shape(k) && RepliesAgree(k) && k'.tcbs.Keys == k'.sched.threads.Keys == k.sched.threads.Keys
    requires k'.sched.idle == k.sched.idle && StateOf(k', k.sched.idle) == IdleState && receiver != k.sched.idle
    requires receiver in k.sched.threads && sender in k.sched.threads && sender in k.masters
    requires k'.replies == k.replies[CallerSlot(receiver) := Reply(sender, canGrant)] && k'.masters == k.masters
    requires CallerSlot(receiver) !in k.replies
    requires StateOf(k, sender) != BlockedOnReply && StateOf(k', sender) == BlockedOnReply
    requires StateOf(k', receiver) != BlockedOnReceive
    requires forall x {:trigger ReplyUntouched(k, k', receiver, x)} :: x in k.sched.threads && x != sender ==>
      ReplyUntouched(k, k', receiver, x)
    ensures RepliesAgree(k')
  {
    var slot := CallerSlot(receiver);
    forall s | s in k.replies
      ensures k.replies[s].caller != sender
    {
      assert ReplyOk(k, s);
    }
    forall s | s in k'.replies
      ensures ReplyOk(k', s)
    {
      if s != slot {
        assert ReplyOk(k, s);
        assert ReplyUntouched(k, k', receiver, k.replies[s].caller);
      }
    }
    forall t | t in k'.sched.threads
      ensures CallerOk(k', t)
    {
      assert CallerOk(k, t);
      if t != sender { assert ReplyUntouched(k, k', receiver, t); }
      if t != receiver && t != k.sched.idle { CallerSlotsDiffer(k, t, receiver); }
    }
  }

  /** While a reply capability is inserted, only the receiver may change state, from one that is not
      waiting for a reply. */
  ghost predicate ReplyUntouched(k: Kernel, k': Kernel, receiver: nat, x: nat)
    requires x in k.sched.threads && x in k'.sched.threads
  {
    StateOf(k', x) != StateOf(k, x) ==> x == receiver && StateOf(k, x) != BlockedOnReply && x in k.masters
  }

  predicate SameBinding(o: Object, o': Object) {
    o.Notification? == o'.Notification? && (o.Notification? ==> o'.boundTcb == o.boundTcb)
  }

  // ---- four kinds of steps ----

  /** What every step does to thread x, whatever happens to the queues. */
  ghost predicate Steady(k: Kernel, k': Kernel, x: nat)
    requires x in k.sched.threads && x in k'.sched.threads && x in k.tcbs && x in k'.tcbs
  {
    k'.sched.threads[x].prio < |k'.sched.queues| && k'.tcbs[x].boundTo == k.tcbs[x].boundTo && KeepsReply(k, k', x)
  }

  ghost predicate StepShape(k: Kernel, k': Kernel) {
    && |k'.sched.queues| == |k.sched.queues| && k'.sched.cur == k.sched.cur && k'.sched.idle == k.sched.idle
    && (k'.sched.action.SwitchTo? ==> k'.sched.action.thread in k.sched.threads)
    && k'.sched.threads.Keys == k.sched.threads.Keys && k'.tcbs.Keys == k.tcbs.Keys
    && k.masters <= k'.masters && (forall s :: s in k'.replies ==> s in k.replies && k'.replies[s] == k.replies[s])
    && (k.sched.idle in k.sched.threads ==> k'.sched.threads[k.sched.idle].state == k.sched.threads[k.sched.idle].state)
  }

  lemma SteadyShape(k: Kernel, k': Kernel)
    requires Shape(k) && StepShape(k, k')
    requires forall x {:trigger Steady(k, k', x)} :: x in k.sched.threads ==> Steady(k, k', x)
    requires k'.objects.Keys == k.objects.Keys
    requires forall o {:trigger SameBinding(k.objects[o], k'.objects[o])} :: o in k.objects ==>
      SameBinding(k.objects[o], k'.objects[o])
    ensures Shape(k')
  {
    forall t | t in k'.sched.threads
      ensures k'.sched.threads[t].prio < |k'.sched.queues| && Placed(k', t) && BindingOk(k', t)
    {
      assert Steady(k, k', t) && Placed(k, t) && BindingOk(k, t);
      if k.tcbs[t].boundTo != 0 { assert SameBinding(k.objects[k.tcbs[t].boundTo], k'.objects[k.tcbs[t].boundTo]); }
    }
    forall n | n in k'.objects
      ensures BoundThreadOk(k', n)
    {
      assert BoundThreadOk(k, n) && SameBinding(k.objects[n], k'.objects[n]);
    }
  }

  lemma SteadyReplies(k: Kernel, k': Kernel)
    requires Shape(k) && RepliesAgree(k) && StepShape(k, k')
    requires forall x {:trigger Steady(k, k', x)} :: x in k.sched.threads ==> Steady(k, k', x)
    ensures RepliesAgree(k')
  {
    forall x | x in k.sched.threads
      ensures KeepsReply(k, k', x)
    {
      assert Steady(k, k', x);
    }
    RepliesFrame(k, k');
  }

  /** A step that takes waiters off one object. */
  lemma ReleaseAgrees(k: Kernel, k': Kernel, o: nat, q: seq<nat>)
    requires Agree(k) && StepShape(k, k')
    requires o in k.objects && NoDup(q) && forall t :: t in q ==> t in QueueOf(k.objects[o])
    requires k.objects[o].Notification? ==> QueueOf(k.objects[o]) != []
    requires k'.objects == k.objects[o := WithQueue(k.objects[o], q)]
    requires forall x {:trigger Steady(k, k', x)} :: x in k.sched.threads ==> Steady(k, k', x)
    requires forall x {:trigger Released(k, k', o, q, x)} :: x in k.sched.threads ==> Released(k, k', o, q, x)
    ensures Agree(k')
  {
    ShrinkAgrees(k, k', o, q);
    SteadyShape(k, k');
    SteadyReplies(k, k');
  }

  /** A step that adds one waiter to one object. */
  lemma BlockAgrees(k: Kernel, k': Kernel, o: nat, t: nat, send: bool)
    requires Agree(k) && StepShape(k, k')
    requires o in k.objects && t in k.sched.threads && !IsWaiting(StateOf(k, t))
    requires QueueOf(k.objects[o]) != [] ==> WaitState(Joined(k.objects[o], t, send)) == WaitState(k.objects[o])
    requires k'.objects == k.objects[o := Joined(k.objects[o], t, send)]
    requires StateOf(k', t) == WaitState(k'.objects[o]) && k'.tcbs[t].blocking.waitsOn == o
    requires forall x {:trigger Steady(k, k', x)} :: x in k.sched.threads ==> Steady(k, k', x)
    requires forall x {:trigger Untouched(k, k', x)} :: x in k.sched.threads && x != t ==> Untouched(k, k', x)
    ensures Agree(k')
  {
    JoinAgrees(k, k', o, t, send);
    SteadyShape(k, k');
    SteadyReplies(k, k');
  }

  /** The object keeps its queue, its kind and whether it is waited on. */
  ghost predicate QueueKept(o: Object, o': Object) {
    && SameBinding(o, o') && QueueOf(o') == QueueOf(o)
    && (o.Endpoint? ==> o' == o)
    && (o.Notification? ==> (o'.ntfnState == NtfnWaiting <==> o.ntfnState == NtfnWaiting))
  }

  /** A step that moves nobody between queues. */
  lemma SteadyAgrees(k: Kernel, k': Kernel)
    requires Agree(k) && StepShape(k, k') && k'.objects.Keys == k.objects.Keys
    requires forall o {:trigger QueueKept(k.objects[o], k'.objects[o])} :: o in k.objects ==>
      QueueKept(k.objects[o], k'.objects[o])
    requires forall x {:trigger Steady(k, k', x)} :: x in k.sched.threads ==> Steady(k, k', x)
    requires forall x {:trigger Untouched(k, k', x)} :: x in k.sched.threads ==> Untouched(k, k', x)
    ensures Agree(k')
  {
    SteadyQueues(k, k');
    forall o | o in k.objects
      ensures SameBinding(k.objects[o], k'.objects[o])
    {
      assert QueueKept(k.objects[o], k'.objects[o]);
    }
    SteadyShape(k, k');
    SteadyReplies(k, k');
  }

  lemma SteadyQueues(k: Kernel, k': Kernel)
    requires QueuesAgree(k) && k'.tcbs.Keys == k'.sched.threads.Keys == k.sched.threads.Keys
    requires k'.objects.Keys == k.objects.Keys
    requires forall o {:trigger QueueKept(k.objects[o], k'.objects[o])} :: o in k.objects ==>
      QueueKept(k.objects[o], k'.objects[o])
    requires forall x {:trigger Untouched(k, k', x)} :: x in k.sched.threads ==> Untouched(k, k', x)
    ensures QueuesAgree(k')
  {
    forall p | p in k'.objects
      ensures ObjectOk(k', p)
    {
      assert ObjectOk(k, p) && QueueKept(k.objects[p], k'.objects[p]);
      forall x | x in QueueOf(k'.objects[p])
        ensures x in k'.sched.threads && x in k'.tcbs && StateOf(k', x) == WaitState(k'.objects[p])
        ensures k'.tcbs[x].blocking.waitsOn == p
      {
        assert Untouched(k, k', x);
      }
    }
    forall x | x in k'.sched.threads
      ensures ThreadOk(k', x)
    {
      assert ThreadOk(k, x) && Untouched(k, k', x);
      if IsWaiting(StateOf(k, x)) {
        assert QueueKept(k.objects[k.tcbs[x].blocking.waitsOn], k'.objects[k.tcbs[x].blocking.waitsOn]);
      }
    }
  }

  // ---- building blocks ----

  /** The head of a non-empty queue exists and waits. */
  lemma HeadWaits(k: Kernel, o: nat)
    requires Agree(k) && o in k.objects && QueueOf(k.objects[o]) != []
    ensures HasHead(k, o) && IsWaiting(StateOf(k, HeadOf(k, o))) && StateOf(k, HeadOf(k, o)) == WaitState(k.objects[o])
    ensures HeadOf(k, o) in k.masters && HeadOf(k, o) != k.sched.idle
    ensures StateOf(k, HeadOf(k, o)) == BlockedOnReceive ==> CallerSlot(HeadOf(k, o)) !in k.replies
  {
    assert ObjectOk(k, o);
    assert QueueOf(k.objects[o])[0] in QueueOf(k.objects[o]);
    assert CallerOk(k, QueueOf(k.objects[o])[0]);
  }

  /** Popping the head and leaving it in a state that does not wait. */
  lemma PopAgrees(k: Kernel, k': Kernel, o: nat, st: ThreadState)
    requires Agree(k) && o in k.objects && QueueOf(k.objects[o]) != [] && HasHead(k, o)
    requires StepShape(k, k') && k'.objects == PopHead(k, o).objects && k'.replies == k.replies
    requires k'.masters == k.masters
    requires st == Running || st == Inactive
    requires k'.sched.threads == k.sched.threads[HeadOf(k, o) := k.sched.threads[HeadOf(k, o)].(state := st)]
    requires forall x {:trigger SameFields(k, k', x)} :: x in k.sched.threads ==> SameFields(k, k', x)
    ensures Agree(k')
  {
    HeadWaits(k, o);
    assert ObjectOk(k, o);
    var q := QueueOf(k.objects[o]);
    forall x | x in k.sched.threads
      ensures Steady(k, k', x) && Released(k, k', o, q[1..], x)
    {
      assert SameFields(k, k', x) && CallerOk(k, x);
    }
    ReleaseAgrees(k, k', o, q[1..]);
  }

  /** A thread's binding and the object it waits on are as before. */
  ghost predicate SameFields(k: Kernel, k': Kernel, x: nat)
    requires x in k.sched.threads
  {
    && x in k.tcbs && x in k'.tcbs && k'.tcbs[x].boundTo == k.tcbs[x].boundTo
    && k'.tcbs[x].blocking.waitsOn == k.tcbs[x].blocking.waitsOn
  }

  /** The head of o's queue is woken; the badge register of t is set. */
  lemma PopWakeOk(k: Kernel, o: nat, t: nat, badge: Badge)
    requires Ok(k) && o in k.objects && QueueOf(k.objects[o]) != [] && HasHead(k, o) && t in k.tcbs
    ensures Ok(IpcSpec.Wake(SetBadge(PopHead(k, o), t, badge), HeadOf(k, o), Running))
    ensures HeadOf(k, o) != k.sched.cur && !Queued(k.sched, k.sched.cur) ==>
              !Queued(IpcSpec.Wake(SetBadge(PopHead(k, o), t, badge), HeadOf(k, o), Running).sched, k.sched.cur)
  {
    HeadWaits(k, o);
    var k1 := SetBadge(PopHead(k, o), t, badge);
    WakeFacts(k1, HeadOf(k, o), Running);
    PopWakeAgrees(k, o, t, badge);
  }

  lemma PopWakeAgrees(k: Kernel, o: nat, t: nat, badge: Badge)
    requires Agree(k) && o in k.objects && QueueOf(k.objects[o]) != [] && HasHead(k, o) && t in k.tcbs
    ensures Agree(IpcSpec.Wake(SetBadge(PopHead(k, o), t, badge), HeadOf(k, o), Running))
  {
    HeadWaits(k, o);
    var k' := IpcSpec.Wake(SetBadge(PopHead(k, o), t, badge), HeadOf(k, o), Running);
    forall x | x in k.sched.threads
      ensures SameFields(k, k', x)
    {}
    PopAgrees(k, k', o, Running);
  }

  /** No reply capability names t. */
  ghost predicate NoReplyFor(k: Kernel, t: nat) {
    forall s :: s in k.replies ==> k.replies[s].caller != t
  }

  lemma NotBlockedNoReply(k: Kernel, t: nat)
    requires RepliesAgree(k) && t in k.sched.threads && StateOf(k, t) != BlockedOnReply
    ensures NoReplyFor(k, t)
  {
    forall s | s in k.replies
      ensures k.replies[s].caller != t
    {
      assert ReplyOk(k, s);
    }
  }

  /** A thread that does not wait and is not owed a reply moves to another such state. */
  lemma RestateAgrees(k: Kernel, k': Kernel, t: nat, st: ThreadState)
    requires Agree(k) && t in k.sched.threads && t != k.sched.idle && !IsWaiting(StateOf(k, t)) && NoReplyFor(k, t)
    requires !IsWaiting(st) && st != IdleState && (st == Inactive || t in k.masters)
    requires StepShape(k, k') && k'.objects == k.objects && k'.tcbs == k.tcbs && k'.replies == k.replies
    requires k'.masters == k.masters
    requires k'.sched.threads == k.sched.threads[t := k.sched.threads[t].(state := st)]
    ensures Agree(k')
  {
    forall x | x in k.sched.threads
      ensures Steady(k, k', x) && Untouched(k, k', x)
    {
      assert CallerOk(k, x);
    }
    forall o | o in k.objects
      ensures QueueKept(k.objects[o], k'.objects[o])
    {}
    SteadyAgrees(k, k');
  }

  /** setup_caller_cap for a sender that is ready or stopped. */
  lemma SetupAgrees(k: Kernel, receiver: nat, sender: nat, canGrant: bool)
    requires Agree(k) && receiver in k.sched.threads && sender in k.sched.threads && receiver != k.sched.idle
    requires sender != k.sched.idle
    requires sender in k.masters && CallerSlot(receiver) !in k.replies && receiver != sender
    requires !IsWaiting(StateOf(k, sender)) && StateOf(k, sender) != BlockedOnReply
    requires StateOf(k, receiver) != BlockedOnReceive
    ensures Agree(SetupCallerCap(k, receiver, sender, canGrant))
  {
    var m := SetThreadState(k, sender, BlockedOnReply);
    NotBlockedNoReply(k, sender);
    RestateAgrees(k, m, sender, BlockedOnReply);
    var k' := SetupCallerCap(k, receiver, sender, canGrant);
    InsertReplyAgrees(k, m, k', receiver, sender, canGrant);
  }

  lemma InsertReplyAgrees(k: Kernel, m: Kernel, k': Kernel, receiver: nat, sender: nat, canGrant: bool)
    requires Agree(k) && Agree(m) && receiver in k.sched.threads && sender in k.sched.threads
    requires receiver != k.sched.idle && receiver != sender
    requires sender in k.masters && CallerSlot(receiver) !in k.replies
    requires StateOf(k, sender) != BlockedOnReply && StateOf(k, receiver) != BlockedOnReceive
    requires m.sched.threads == k.sched.threads[sender := k.sched.threads[sender].(state := BlockedOnReply)]
    requires m.sched.idle == k.sched.idle && m.masters == k.masters && m.tcbs == k.tcbs && m.replies == k.replies
    requires k' == m.(replies := k.replies[CallerSlot(receiver) := Reply(sender, canGrant)])
    ensures Agree(k')
  {
    forall x | x in k.sched.threads && x != sender
      ensures ReplyUntouched(k, k', receiver, x)
    {}
    RepliesInsert(k, k', receiver, sender, canGrant);
    SameTables(m, k');
  }

  /** Shape and queues do not depend on the replies. */
  lemma SameTables(m: Kernel, k': Kernel)
    requires Shape(m) && QueuesAgree(m) && k' == m.(replies := k'.replies)
    ensures Shape(k') && QueuesAgree(k')
  {
    forall t | t in k'.sched.threads
      ensures Placed(k', t) && BindingOk(k', t) && ThreadOk(k', t)
    {
      assert Placed(m, t) && BindingOk(m, t) && ThreadOk(m, t);
    }
    forall o | o in k'.objects
      ensures BoundThreadOk(k', o) && ObjectOk(k', o)
    {
      assert BoundThreadOk(m, o) && ObjectOk(m, o);
    }
  }
}
