/** What the scheduler's operations do to threads and ready queues, and the invariant that every
    run of kernel entries keeps (sel4_task/src/scheduler.rs, sel4_task/src/tcb.rs). */
module SchedulerSpec {

  const NUM_PRIORITIES := 256
  const TIME_SLICE := 5

  datatype ThreadState =
    | Inactive | Running | Restart | BlockedOnReceive | BlockedOnSend | BlockedOnReply
    | BlockedOnNotification | IdleState

  datatype Thread = Thread(state: ThreadState, prio: nat, timeSlice: nat)

  /** ksSchedulerAction: 0, 1, or the address of a thread. */
  datatype Action = Resume | ChooseNew | SwitchTo(thread: nat)

  datatype Sched = Sched(threads: map<nat, Thread>, queues: seq<seq<nat>>, cur: nat, idle: nat, action: Action)

  /** is_runnable */
  predicate IsRunnableState(s: ThreadState) {
    s.Running? || s.Restart?
  }

  /** is_stopped */
  predicate IsStoppedState(s: ThreadState) {
    s.Inactive? || s.BlockedOnNotification? || s.BlockedOnReceive? || s.BlockedOnReply? || s.BlockedOnSend?
  }

  predicate Known(s: Sched, t: nat) {
    t in s.threads && s.threads[t].prio < |s.queues|
  }

  predicate Runnable(s: Sched, t: nat)
    requires t in s.threads
  {
    IsRunnableState(s.threads[t].state)
  }

  /** The queued flag: the thread is in the ready queue of its priority. */
  predicate Queued(s: Sched, t: nat)
    requires Known(s, t)
  {
    t in s.queues[s.threads[t].prio]
  }

  function Remove(q: seq<nat>, t: nat): (r: seq<nat>)
  {
    if q == [] then [] else if q[0] == t then q[1..] else [q[0]] + Remove(q[1..], t)
  }

  /** sched_enqueue and sched_append: both append at the tail. */
  function Enqueue(s: Sched, t: nat): (r: Sched)
    requires Known(s, t)
    ensures r.threads == s.threads && |r.queues| == |s.queues| && r.cur == s.cur && r.idle == s.idle
    ensures r.action == s.action
  {
    var p := s.threads[t].prio;
    if t in s.queues[p] then s else s.(queues := s.queues[p := s.queues[p] + [t]])
  }

  /** sched_dequeue */
  function Dequeue(s: Sched, t: nat): (r: Sched)
    requires Known(s, t)
  {
    var p := s.threads[t].prio;
    s.(queues := s.queues[p := Remove(s.queues[p], t)])
  }

  /** rescheduleRequired */
  function RescheduleRequired(s: Sched): (r: Sched)
    requires s.action.SwitchTo? ==> Known(s, s.action.thread)
    ensures r.threads == s.threads && |r.queues| == |s.queues| && r.cur == s.cur && r.idle == s.idle
    ensures r.action == ChooseNew
  {
    (if s.action.SwitchTo? then Enqueue(s, s.action.thread) else s).(action := ChooseNew)
  }

  /** schedule_tcb */
  function ScheduleTcb(s: Sched, t: nat): (r: Sched)
    requires t in s.threads
  {
    if t == s.cur && s.action == Resume && !Runnable(s, t) then RescheduleRequired(s) else s
  }

  /** set_thread_state */
  function SetState(s: Sched, t: nat, st: ThreadState): (r: Sched)
    requires Known(s, t)
    ensures r.threads == s.threads[t := s.threads[t].(state := st)] && |r.queues| == |s.queues| && r.cur == s.cur
    ensures r.idle == s.idle
    ensures r.action == s.action || r.action == ChooseNew
  {
    ScheduleTcb(s.(threads := s.threads[t := s.threads[t].(state := st)]), t)
  }

  /** possible_switch_to, in a single domain */
  function PossibleSwitchTo(s: Sched, t: nat): (r: Sched)
    requires Known(s, t) && (s.action.SwitchTo? ==> Known(s, s.action.thread))
    ensures r.threads == s.threads && |r.queues| == |s.queues| && r.cur == s.cur && r.idle == s.idle
    ensures r.action == SwitchTo(t) || r.action == ChooseNew
  {
    if s.action != Resume then Enqueue(RescheduleRequired(s), t) else s.(action := SwitchTo(t))
  }

  /** switch_to_this */
  function SwitchToThis(s: Sched, t: nat): (r: Sched)
    requires Known(s, t)
  {
    Dequeue(s, t).(cur := t)
  }

  /** set_priority */
  function ChangePriority(s: Sched, t: nat, prio: nat): (r: Sched)
    requires Known(s, t) && prio < |s.queues| && (s.action.SwitchTo? ==> Known(s, s.action.thread))
  {
    var d := Dequeue(s, t);
    var d2 := d.(threads := d.threads[t := d.threads[t].(prio := prio)]);
    if !Runnable(d2, t) then d2 else if t == s.cur then RescheduleRequired(d2) else PossibleSwitchTo(d2, t)
  }

  /** tcb_t::restart */
  function RestartIfStopped(s: Sched, t: nat): (r: Sched)
    requires Known(s, t) && (s.action.SwitchTo? ==> Known(s, s.action.thread))
  {
    if IsStoppedState(s.threads[t].state) then PossibleSwitchTo(Enqueue(SetState(s, t, Restart), t), t) else s
  }

  /** timerTick */
  function Tick(s: Sched): (r: Sched)
    requires Known(s, s.cur) && (s.action.SwitchTo? ==> Known(s, s.action.thread))
  {
    var c := s.threads[s.cur];
    if c.state != Running then s
    else if c.timeSlice > 1 then s.(threads := s.threads[s.cur := c.(timeSlice := c.timeSlice - 1)])
    else RescheduleRequired(Enqueue(s.(threads := s.threads[s.cur := c.(timeSlice := TIME_SLICE)]), s.cur))
  }

  /** Index of the last non-empty queue, or -1. */
  function HighestPrio(queues: seq<seq<nat>>): (p: int)
    ensures -1 <= p < |queues|
    ensures p >= 0 ==> queues[p] != []
    ensures forall i :: p < i < |queues| ==> queues[i] == []
  {
    if queues == [] then -1
    else if queues[|queues| - 1] != [] then |queues| - 1
    else HighestPrio(queues[..|queues| - 1])
  }

  /** isHighestPrio */
  predicate IsHighestPrio(s: Sched, prio: nat) {
    prio >= HighestPrio(s.queues)
  }

  /** chooseThread */
  function ChooseThread(s: Sched): (r: Sched)
    requires HeadsKnown(s)
  {
    var p := HighestPrio(s.queues);
    if p >= 0 then (assert HeadKnown(s, p); SwitchToThis(s, s.queues[p][0])) else SwitchToThis(s, s.idle)
  }

  predicate HeadKnown(s: Sched, p: nat) {
    p < |s.queues| && s.queues[p] != [] ==> Known(s, s.queues[p][0])
  }

  /** The current and the idle thread exist, and every ready queue that is not empty starts with a thread. */
  predicate HeadsKnown(s: Sched) {
    Known(s, s.cur) && Known(s, s.idle) && forall p :: 0 <= p < |s.queues| ==> HeadKnown(s, p)
  }

  lemma EnqueueHeads(s: Sched, t: nat)
    requires HeadsKnown(s) && Known(s, t)
    ensures HeadsKnown(Enqueue(s, t))
  {
    var r := Enqueue(s, t);
    forall p | 0 <= p < |r.queues|
      ensures HeadKnown(r, p)
    {
      assert HeadKnown(s, p);
    }
  }

  /** The branch of schedule() that has a candidate c. */
  function TryCandidate(s: Sched, c: nat, wasRunnable: bool): (r: Sched)
    requires HeadsKnown(s) && Known(s, c)
  {
    var fastFail := s.cur == s.idle || s.threads[c].prio < s.threads[s.cur].prio;
    EnqueueHeads(s, c);
    if fastFail && !IsHighestPrio(s, s.threads[c].prio) then ChooseThread(Enqueue(s, c))
    else if wasRunnable && s.threads[c].prio == s.threads[s.cur].prio then ChooseThread(Enqueue(s, c))
    else SwitchToThis(s, c)
  }

  function Dispatch(s: Sched, wasRunnable: bool): (r: Sched)
    requires HeadsKnown(s) && (s.action.SwitchTo? ==> Known(s, s.action.thread))
  {
    (if s.action.SwitchTo? then TryCandidate(s, s.action.thread, wasRunnable) else ChooseThread(s)).(action := Resume)
  }

  /** schedule */
  function Schedule(s: Sched): (r: Sched)
    requires HeadsKnown(s) && (s.action.SwitchTo? ==> Known(s, s.action.thread))
  {
    if s.action == Resume then s
    else
      var wasRunnable := Runnable(s, s.cur);
      var s1 := if wasRunnable then Enqueue(s, s.cur) else s;
      EnqueueHeads(s, s.cur);
      Dispatch(s1, wasRunnable)
  }

  // ---- well-formed queues ----

  ghost predicate NoDup(q: seq<nat>) {
    forall i, j :: 0 <= i < j < |q| ==> q[i] != q[j]
  }

  /** A thread that may sit in a ready queue. */
  predicate Eligible(s: Sched, t: nat) {
    Known(s, t) && t != s.idle && Runnable(s, t)
  }

  ghost predicate QueueOk(s: Sched, p: nat)
    requires p < |s.queues|
  {
    && NoDup(s.queues[p])
    && forall k :: 0 <= k < |s.queues[p]| ==>
         Eligible(s, s.queues[p][k]) && s.threads[s.queues[p][k]].prio == p
  }

  ghost predicate Structure(s: Sched) {
    && |s.queues| == NUM_PRIORITIES
    && (forall t :: t in s.threads ==> s.threads[t].prio < NUM_PRIORITIES && s.threads[t].timeSlice <= TIME_SLICE)
    && HeadsKnown(s) && s.threads[s.idle].state == IdleState
    && forall p :: 0 <= p < |s.queues| ==> QueueOk(s, p)
  }

  lemma EnqueueStructure(s: Sched, t: nat)
    requires Structure(s) && t in s.threads
    ensures Eligible(s, t) ==> Structure(Enqueue(s, t))
  {
    if Eligible(s, t) {
      var r := Enqueue(s, t);
      forall p | 0 <= p < |r.queues|
        ensures QueueOk(r, p) && HeadKnown(r, p)
      {
        assert QueueOk(s, p);
      }
    }
  }

  lemma ActionStructure(s: Sched, a: Action)
    requires Structure(s)
    ensures Structure(s.(action := a))
    ensures forall x :: x in s.threads ==> Queued(s.(action := a), x) == Queued(s, x)
  {
    var r := s.(action := a);
    forall p | 0 <= p < |r.queues|
      ensures QueueOk(r, p) && HeadKnown(r, p)
    {
      assert QueueOk(s, p);
    }
  }

  lemma {:induction false} RemoveFacts(q: seq<nat>, t: nat)
    requires NoDup(q)
    ensures NoDup(Remove(q, t)) && t !in Remove(q, t)
    ensures forall x :: x != t ==> (x in Remove(q, t) <==> x in q)
    ensures t !in q ==> Remove(q, t) == q
  {
    if q != [] {
      assert q == [q[0]] + q[1..];
      if q[0] != t {
        RemoveFacts(q[1..], t);
        assert q[0] !in q[1..];
      }
    }
  }

  lemma DequeueStructure(s: Sched, t: nat)
    requires Structure(s) && t in s.threads
    ensures Structure(Dequeue(s, t)) && Known(Dequeue(s, t), t) && !Queued(Dequeue(s, t), t)
    ensures forall x :: Known(s, x) && x != t ==> Queued(Dequeue(s, t), x) == Queued(s, x)
    ensures Known(s, t) && !Queued(s, t) ==> Dequeue(s, t) == s
  {
    var r := Dequeue(s, t);
    var q := s.threads[t].prio;
    assert QueueOk(s, q);
    RemoveFacts(s.queues[q], t);
    forall p | 0 <= p < |r.queues|
      ensures QueueOk(r, p) && HeadKnown(r, p)
    {
      assert QueueOk(s, p);
      if p == q {
        forall k | 0 <= k < |r.queues[p]|
          ensures Eligible(r, r.queues[p][k]) && r.threads[r.queues[p][k]].prio == p
        {
          assert r.queues[p][k] in s.queues[p];
        }
      }
    }
    if Known(s, t) && !Queued(s, t) { assert s.queues[q := s.queues[q]] == s.queues; }
  }

  // ---- the invariant between operations ----

  /** A runnable thread other than the current one is queued or is the switch target; and until a
      new choice is due, a queued thread other than the switch target does not outrank the current
      thread, and is not queued at all while the idle thread runs. */
  ghost predicate Fine(s: Sched, t: nat)
    requires Structure(s) && t in s.threads
  {
    && (t != s.cur && Runnable(s, t) ==> Queued(s, t) || s.action == SwitchTo(t))
    && (s.action != ChooseNew && Queued(s, t) && s.action != SwitchTo(t) ==>
          s.cur != s.idle && s.threads[t].prio <= s.threads[s.cur].prio)
  }

  ghost predicate Mid(s: Sched) {
    && Structure(s) && (forall t {:trigger Fine(s, t)} :: t in s.threads ==> Fine(s, t))
    && (s.action.SwitchTo? ==> Eligible(s, s.action.thread) && s.action.thread != s.cur)
    && (s.action == Resume ==> s.cur == s.idle || Runnable(s, s.cur))
    && (Queued(s, s.cur) ==> s.action == ChooseNew)
  }

  ghost predicate Settled(s: Sched, t: nat)
    requires Structure(s) && t in s.threads
  {
    && (t != s.cur && Runnable(s, t) ==> Queued(s, t))
    && (Queued(s, t) ==> s.cur != s.idle && s.threads[t].prio <= s.threads[s.cur].prio)
  }

  /** What holds whenever the kernel returns to user level: the current thread is unqueued and can
      run, every other runnable thread is queued, nobody queued outranks the current thread, and
      the idle thread runs only when nothing is queued. */
  ghost predicate Stable(s: Sched) {
    && Structure(s) && s.action == Resume
    && (s.cur == s.idle || Runnable(s, s.cur))
    && !Queued(s, s.cur)
    && (forall t {:trigger Settled(s, t)} :: t in s.threads ==> Settled(s, t))
  }

  lemma StableIsMid(s: Sched)
    requires Stable(s)
    ensures Mid(s)
  {
    forall t | t in s.threads
      ensures Fine(s, t)
    {
      assert Settled(s, t);
    }
  }

  lemma QueuedIsEligible(s: Sched, t: nat)
    requires Structure(s) && t in s.threads && Queued(s, t)
    ensures Eligible(s, t) && t in s.queues[s.threads[t].prio] && s.threads[t].prio <= HighestPrio(s.queues)
  {
    assert QueueOk(s, s.threads[t].prio);
    assert s.queues[s.threads[t].prio] != [];
  }

  /** A thread that is queued if it is runnable. */
  ghost predicate Waits(s: Sched, t: nat)
    requires Structure(s) && t in s.threads
  {
    Runnable(s, t) ==> Queued(s, t)
  }

  /** chooseThread picks the head of the highest queue, or the idle thread when all are empty. */
  lemma ChooseThreadStable(s: Sched)
    requires Structure(s) && (forall t {:trigger Waits(s, t)} :: t in s.threads ==> Waits(s, t))
    ensures Stable(ChooseThread(s).(action := Resume))
  {
    var p := HighestPrio(s.queues);
    var c := if p >= 0 then s.queues[p][0] else s.idle;
    if p >= 0 { assert QueueOk(s, p); }
    forall t | t in s.threads && t != c
      ensures MayFollow(s, c, t)
    {
      assert Waits(s, t);
      if Queued(s, t) { QueuedIsEligible(s, t); }
    }
    SwitchStable(s, c);
  }

  /** Thread t is content when c runs. */
  ghost predicate MayFollow(s: Sched, c: nat, t: nat)
    requires Structure(s) && t in s.threads && c in s.threads
  {
    (Runnable(s, t) ==> Queued(s, t)) && (Queued(s, t) ==> c != s.idle && s.threads[t].prio <= s.threads[c].prio)
  }

  /** Switching to a thread that everybody else may follow. */
  lemma SwitchStable(s: Sched, c: nat)
    requires Structure(s) && c in s.threads && (c != s.idle ==> Runnable(s, c))
    requires forall t {:trigger MayFollow(s, c, t)} :: t in s.threads && t != c ==> MayFollow(s, c, t)
    ensures Stable(SwitchToThis(s, c).(action := Resume))
  {
    var d := Dequeue(s, c);
    DequeueStructure(s, c);
    var r := d.(cur := c, action := Resume);
    forall p | 0 <= p < |r.queues|
      ensures QueueOk(r, p) && HeadKnown(r, p)
    {
      assert QueueOk(d, p);
    }
    forall t | t in r.threads
      ensures Settled(r, t)
    {
      if t != c { assert MayFollow(s, c, t); }
      assert Queued(r, t) == Queued(d, t);
    }
  }

  lemma EnqueueFacts(s: Sched, t: nat)
    requires Structure(s) && Eligible(s, t)
    ensures Structure(Enqueue(s, t)) && Queued(Enqueue(s, t), t)
    ensures forall x :: x in s.threads && x != t ==> Queued(Enqueue(s, t), x) == Queued(s, x)
  {
    EnqueueStructure(s, t);
  }

  /** schedule() turns any state that operations can leave behind into a stable one. */
  lemma ScheduleStable(s: Sched)
    requires Mid(s)
    ensures Stable(Schedule(s))
  {
    if s.action == Resume {
      forall t | t in s.threads
        ensures Settled(s, t)
      {
        assert Fine(s, t);
      }
    } else {
      var s1 := if Runnable(s, s.cur) then Enqueue(s, s.cur) else s;
      if Runnable(s, s.cur) { EnqueueFacts(s, s.cur); }
      if s.action == ChooseNew {
        forall t | t in s1.threads
          ensures Waits(s1, t)
        {
          assert Fine(s, t);
        }
        ChooseThreadStable(s1);
      } else {
        ScheduleCandidate(s, s1);
      }
    }
  }

  lemma ScheduleCandidate(s: Sched, s1: Sched)
    requires Mid(s) && s.action.SwitchTo?
    requires s1 == (if Runnable(s, s.cur) then Enqueue(s, s.cur) else s)
    ensures Stable(Schedule(s))
  {
    var c := s.action.thread;
    if Runnable(s, s.cur) { EnqueueFacts(s, s.cur); }
    EnqueueFacts(s1, c);
    forall t | t in s.threads
      ensures Waits(Enqueue(s1, c), t)
    {
      assert Fine(s, t);
    }
    ChooseThreadStable(Enqueue(s1, c));
    if !((s.cur == s.idle || s.threads[c].prio < s.threads[s.cur].prio) && !IsHighestPrio(s1, s.threads[c].prio))
       && !(Runnable(s, s.cur) && s.threads[c].prio == s.threads[s.cur].prio) {
      CandidateStable(s, s1, c);
    }
  }

  /** When both tests of schedule() let the candidate through, nobody queued outranks it. */
  lemma CandidateStable(s: Sched, s1: Sched, c: nat)
    requires Mid(s) && s.action == SwitchTo(c) && Structure(s1)
    requires s1 == (if Runnable(s, s.cur) then Enqueue(s, s.cur) else s)
    requires !((s.cur == s.idle || s.threads[c].prio < s.threads[s.cur].prio) && !IsHighestPrio(s1, s.threads[c].prio))
    requires !(Runnable(s, s.cur) && s.threads[c].prio == s.threads[s.cur].prio)
    ensures Stable(SwitchToThis(s1, c).(action := Resume))
  {
    if Runnable(s, s.cur) { EnqueueFacts(s, s.cur); }
    forall t | t in s1.threads && t != c
      ensures MayFollow(s1, c, t)
    {
      assert Fine(s, t);
      if Queued(s1, t) { QueuedIsEligible(s1, t); }
    }
    SwitchStable(s1, c);
  }
}
