/** Every run of kernel entries keeps the scheduler's promises: each entry performs some scheduling
    operations, then schedule() and activateThread() (kernel/src/interrupt/handler.rs,
    kernel/src/syscall/mod.rs). */
module SchedulerRuns {
  import opened SchedulerSpec

  /** What system calls, faults and interrupts do to the scheduler. */
  datatype Op =
    | Wake(t: nat, st: ThreadState)        // a blocked thread becomes ready and may be switched to
    | WakeAll(ts: seq<nat>)                // cancel_all_ipc, cancel_all_signal, cancel_badged_sends
    | Block(st: ThreadState)               // the current thread stops
    | Restate(t: nat, st: ThreadState)     // a stopped thread changes to another stopped state
    | Mark(st: ThreadState)                // the current thread toggles between Running and Restart
    | Suspend(t: nat)
    | RestartThread(t: nat)
    | SetPriority(t: nat, prio: nat)
    | Yield
    | TimerTick

  /** What the callers of each operation establish. */
  predicate Callable(s: Sched, op: Op)
    requires Structure(s)
  {
    match op
    case Wake(t, st) => t in s.threads && t != s.idle && !Runnable(s, t) && IsRunnableState(st)
    case WakeAll(ts) => s.idle !in ts && forall k :: 0 <= k < |ts| ==> ts[k] in s.threads
    case Block(st) => s.cur != s.idle && Runnable(s, s.cur) && !Queued(s, s.cur) && IsStoppedState(st)
    case Restate(t, st) => t in s.threads && t != s.idle && !Runnable(s, t) && IsStoppedState(st)
    case Mark(st) => s.cur != s.idle && Runnable(s, s.cur) && IsRunnableState(st)
    case Suspend(t) => t in s.threads && t != s.idle
    case RestartThread(t) => t in s.threads && t != s.idle
    case SetPriority(t, p) => t in s.threads && t != s.idle && p < NUM_PRIORITIES && (t == s.cur ==> Runnable(s, t))
    case Yield => s.cur != s.idle && Runnable(s, s.cur)
    case TimerTick => true
  }

  /** A suspension comes before the same kernel entry has made the thread its switch target. */
  predicate Allowed(s: Sched, op: Op)
    requires Structure(s)
  {
    Callable(s, op) && !(op.Suspend? && s.action == SwitchTo(op.t))
  }

  function ReadyAll(s: Sched, ts: seq<nat>): (r: Sched)
    requires |s.queues| == NUM_PRIORITIES && (forall t :: t in s.threads ==> s.threads[t].prio < NUM_PRIORITIES)
    requires forall k :: 0 <= k < |ts| ==> ts[k] in s.threads
    ensures r.action == s.action && r.threads.Keys == s.threads.Keys && |r.queues| == |s.queues|
    ensures forall t :: t in s.threads ==> r.threads[t].prio == s.threads[t].prio
    decreases |ts|
  {
    if ts == [] then s
    else ReadyAll(Enqueue(SetState(s, ts[0], Restart), ts[0]), ts[1..])
  }

  function Apply(s: Sched, op: Op): (r: Sched)
    requires Mid(s) && Callable(s, op)
  {
    match op
    case Wake(t, st) => PossibleSwitchTo(SetState(s, t, st), t)
    case WakeAll(ts) => RescheduleRequired(ReadyAll(s, ts))
    case Block(st) => SetState(s, s.cur, st)
    case Restate(t, st) => SetState(s, t, st)
    case Mark(st) => SetState(s, s.cur, st)
    case Suspend(t) => Dequeue(SetState(s, t, Inactive), t)
    case RestartThread(t) => RestartIfStopped(s, t)
    case SetPriority(t, p) => ChangePriority(s, t, p)
    case Yield => RescheduleRequired(Enqueue(Dequeue(s, s.cur), s.cur))
    case TimerTick => Tick(s)
  }

  // ---- how each building block treats the invariant ----

  /** Overwriting a thread that is not queued, or that stays runnable at its priority. */
  lemma RewriteStructure(s: Sched, t: nat, th: Thread)
    requires Structure(s) && t in s.threads && t != s.idle
    requires th.prio < NUM_PRIORITIES && th.timeSlice <= TIME_SLICE
    requires !Queued(s, t) || (IsRunnableState(th.state) && th.prio == s.threads[t].prio)
    ensures Structure(s.(threads := s.threads[t := th]))
    ensures forall x :: x in s.threads ==> Queued(s.(threads := s.threads[t := th]), x) == Queued(s, x)
  {
    var r := s.(threads := s.threads[t := th]);
    assert QueueOk(s, th.prio);
    forall p | 0 <= p < |r.queues|
      ensures QueueOk(r, p) && HeadKnown(r, p)
    {
      assert QueueOk(s, p);
    }
  }

  /** Thread t is not forgotten: if it is runnable and not the current one, it is queued or the target. */
  ghost predicate Kept(s: Sched, t: nat)
    requires Structure(s) && t in s.threads
  {
    t != s.cur && Runnable(s, t) ==> Queued(s, t) || s.action == SwitchTo(t)
  }

  /** What rescheduleRequired needs, with thread but possibly forgotten. */
  ghost predicate ReadyBut(s: Sched, but: set<nat>) {
    && Structure(s) && (s.action.SwitchTo? ==> Eligible(s, s.action.thread))
    && forall t {:trigger Kept(s, t)} :: t in s.threads && t !in but ==> Kept(s, t)
  }

  lemma MidIsReady(s: Sched)
    requires Mid(s)
    ensures ReadyBut(s, {})
  {
    forall t | t in s.threads
      ensures Kept(s, t)
    {
      assert Fine(s, t);
    }
  }

  /** After rescheduleRequired every thread that was kept is the current one or is queued. */
  lemma RescheduleQueues(s: Sched, but: set<nat>)
    requires ReadyBut(s, but)
    ensures ReadyBut(RescheduleRequired(s), but)
    ensures forall x :: x in s.threads && Queued(s, x) ==> Queued(RescheduleRequired(s), x)
  {
    var e := if s.action.SwitchTo? then Enqueue(s, s.action.thread) else s;
    if s.action.SwitchTo? { EnqueueFacts(s, s.action.thread); }
    ActionStructure(e, ChooseNew);
    var r := RescheduleRequired(s);
    forall t | t in r.threads && t !in but
      ensures Kept(r, t)
    {
      assert Kept(s, t);
    }
  }

  /** Once a new choice is due, keeping everybody is all that matters. */
  lemma ReadyIsMid(s: Sched)
    requires ReadyBut(s, {}) && s.action == ChooseNew
    ensures Mid(s)
  {
    forall t | t in s.threads
      ensures Fine(s, t)
    {
      assert Kept(s, t);
    }
  }

  lemma RescheduleMid(s: Sched)
    requires ReadyBut(s, {})
    ensures Mid(RescheduleRequired(s))
  {
    RescheduleQueues(s, {});
    ReadyIsMid(RescheduleRequired(s));
  }

  /** Queueing the forgotten thread. */
  lemma EnqueueKeeps(s: Sched, t: nat)
    requires ReadyBut(s, {t}) && Eligible(s, t)
    ensures ReadyBut(Enqueue(s, t), {})
  {
    EnqueueFacts(s, t);
    var r := Enqueue(s, t);
    forall x | x in r.threads
      ensures Kept(r, x)
    {
      if x != t { assert Kept(s, x); }
    }
  }

  /** A queued thread other than t does not outrank the current one. */
  ghost predicate Below(s: Sched, t: nat, x: nat)
    requires Structure(s) && x in s.threads
  {
    x != t && Queued(s, x) ==> s.cur != s.idle && s.threads[x].prio <= s.threads[s.cur].prio
  }

  /** What possible_switch_to needs of its target t. */
  ghost predicate MidBut(s: Sched, t: nat) {
    && ReadyBut(s, {t}) && Eligible(s, t)
    && (s.action == Resume ==>
          && t != s.cur && !Queued(s, s.cur) && (s.cur == s.idle || Runnable(s, s.cur))
          && forall x {:trigger Below(s, t, x)} :: x in s.threads ==> Below(s, t, x))
  }

  lemma SwitchMid(s: Sched, t: nat)
    requires MidBut(s, t)
    ensures Mid(PossibleSwitchTo(s, t))
  {
    if s.action == Resume {
      var r := s.(action := SwitchTo(t));
      ActionStructure(s, SwitchTo(t));
      forall x | x in r.threads
        ensures Fine(r, x)
      {
        assert Below(s, t, x);
        if x != t { assert Kept(s, x); }
      }
    } else {
      RescheduleQueues(s, {t});
      EnqueueKeeps(RescheduleRequired(s), t);
      ReadyIsMid(Enqueue(RescheduleRequired(s), t));
    }
  }

  /** Overwriting a thread inside the invariant: it may now be possible_switch_to's target. */
  lemma RewriteMidBut(s: Sched, t: nat, th: Thread)
    requires Mid(s) && t in s.threads && t != s.idle && !Queued(s, t) && (t == s.cur ==> s.action != Resume)
    requires IsRunnableState(th.state) && th.prio < NUM_PRIORITIES && th.timeSlice <= TIME_SLICE
    ensures MidBut(s.(threads := s.threads[t := th]), t)
  {
    RewriteStructure(s, t, th);
    var r := s.(threads := s.threads[t := th]);
    forall x | x in r.threads && x != t
      ensures Kept(r, x)
    {
      assert Fine(s, x);
    }
    if s.action == Resume {
      forall x | x in r.threads
        ensures Below(r, t, x)
      {
        assert Fine(s, x);
      }
    }
  }

  /** What waking the threads ts does to thread t. */
  ghost predicate Woken(s: Sched, r: Sched, ts: seq<nat>, t: nat)
    requires Structure(s) && Structure(r) && t in s.threads && t in r.threads
  {
    && (t in ts ==> r.threads[t] == s.threads[t].(state := Restart) && Queued(r, t))
    && (t !in ts ==> r.threads[t] == s.threads[t] && Queued(r, t) == Queued(s, t))
  }

  lemma {:induction false} ReadyAllReady(s: Sched, ts: seq<nat>)
    requires ReadyBut(s, {}) && s.idle !in ts && forall k :: 0 <= k < |ts| ==> ts[k] in s.threads
    ensures ReadyBut(ReadyAll(s, ts), {}) && ReadyAll(s, ts).cur == s.cur
    decreases |ts|
  {
    if ts != [] {
      ReadyOne(s, ts[0]);
      ReadyAllReady(Enqueue(SetState(s, ts[0], Restart), ts[0]), ts[1..]);
    }
  }

  /** Waking ts: exactly those threads become ready and queued, the others keep their place. */
  lemma {:induction false} ReadyAllWakes(s: Sched, ts: seq<nat>, t: nat)
    requires ReadyBut(s, {}) && s.idle !in ts && (forall k :: 0 <= k < |ts| ==> ts[k] in s.threads) && t in s.threads
    ensures Structure(ReadyAll(s, ts)) && Woken(s, ReadyAll(s, ts), ts, t)
    decreases |ts|
  {
    if ts != [] {
      ReadyOne(s, ts[0]);
      var m := Enqueue(SetState(s, ts[0], Restart), ts[0]);
      ReadyAllWakes(m, ts[1..], t);
      WokenJoin(s, m, ReadyAll(m, ts[1..]), ts, t);
    }
  }

  lemma WokenJoin(s: Sched, m: Sched, r: Sched, ts: seq<nat>, t: nat)
    requires Structure(s) && Structure(m) && Structure(r) && t in s.threads && t in m.threads && t in r.threads
    requires ts != [] && Woken(s, m, [ts[0]], t) && Woken(m, r, ts[1..], t)
    ensures Woken(s, r, ts, t)
  {
    assert ts == [ts[0]] + ts[1..];
  }

  lemma ReadyOne(s: Sched, t: nat)
    requires ReadyBut(s, {}) && t in s.threads && t != s.idle
    ensures
      var r := Enqueue(SetState(s, t, Restart), t);
      && ReadyBut(r, {}) && r.cur == s.cur && r.idle == s.idle
      && r.threads == s.threads[t := s.threads[t].(state := Restart)]
      && Queued(r, t) && forall x :: x in s.threads && x != t ==> Queued(r, x) == Queued(s, x)
  {
    RewriteStructure(s, t, s.threads[t].(state := Restart));
    var s1 := SetState(s, t, Restart);
    forall x | x in s1.threads && x != t
      ensures Kept(s1, x)
    {
      assert Kept(s, x);
    }
    EnqueueFacts(s1, t);
    EnqueueKeeps(s1, t);
  }

  // ---- one lemma per operation ----

  lemma WakeMid(s: Sched, t: nat, st: ThreadState)
    requires Mid(s) && Allowed(s, Wake(t, st))
    ensures Mid(Apply(s, Wake(t, st)))
  {
    if Queued(s, t) { QueuedIsEligible(s, t); }
    RewriteMidBut(s, t, s.threads[t].(state := st));
    SwitchMid(SetState(s, t, st), t);
  }

  /** Stopping a thread that is not queued. */
  lemma StopMid(s: Sched, t: nat, st: ThreadState)
    requires Mid(s) && t in s.threads && t != s.idle && !Queued(s, t) && s.action != SwitchTo(t) && IsStoppedState(st)
    ensures Mid(SetState(s, t, st)) && !Queued(SetState(s, t, st), t)
  {
    var th := s.threads[t].(state := st);
    RewriteStructure(s, t, th);
    var r := s.(threads := s.threads[t := th]);
    forall x | x in r.threads
      ensures Kept(r, x) && Fine(r, x)
    {
      assert Fine(s, x);
    }
    if t == s.cur && s.action == Resume { RescheduleMid(r); }
  }

  /** Stopping a thread and taking it off its queue commute. */
  lemma SuspendForm(s: Sched, t: nat)
    requires Known(s, t)
    ensures Dequeue(SetState(s, t, Inactive), t) == SetState(Dequeue(s, t), t, Inactive)
  {
  }

  lemma SuspendMid(s: Sched, t: nat)
    requires Mid(s) && Allowed(s, Suspend(t))
    ensures Mid(Apply(s, Suspend(t)))
  {
    SuspendForm(s, t);
    var r := Suspended(s, t);
    SuspendedStructure(s, t);
    forall x | x in r.threads
      ensures Kept(r, x) && Fine(r, x)
    {
      assert Fine(s, x);
    }
    if t == s.cur && s.action == Resume { RescheduleMid(r); }
  }

  ghost function Suspended(s: Sched, t: nat): (r: Sched)
    requires Known(s, t)
  {
    var d := Dequeue(s, t);
    d.(threads := d.threads[t := d.threads[t].(state := Inactive)])
  }

  lemma SuspendedStructure(s: Sched, t: nat)
    requires Structure(s) && t in s.threads && t != s.idle
    ensures Structure(Suspended(s, t)) && !Queued(Suspended(s, t), t)
    ensures forall x :: x in s.threads && x != t ==> Queued(Suspended(s, t), x) == Queued(s, x)
  {
    DequeueStructure(s, t);
    RewriteStructure(Dequeue(s, t), t, s.threads[t].(state := Inactive));
  }

  lemma RestartMid(s: Sched, t: nat)
    requires Mid(s) && Allowed(s, RestartThread(t))
    ensures Mid(Apply(s, RestartThread(t)))
  {
    if IsStoppedState(s.threads[t].state) {
      if Queued(s, t) { QueuedIsEligible(s, t); }
      RewriteMidBut(s, t, s.threads[t].(state := Restart));
      EnqueueMidBut(SetState(s, t, Restart), t);
      SwitchMid(Enqueue(SetState(s, t, Restart), t), t);
    }
  }

  lemma EnqueueMidBut(s: Sched, t: nat)
    requires MidBut(s, t)
    ensures MidBut(Enqueue(s, t), t)
  {
    EnqueueFacts(s, t);
    EnqueueKeeps(s, t);
    var r := Enqueue(s, t);
    if s.action == Resume {
      forall x | x in r.threads
        ensures Below(r, t, x)
      {
        assert Below(s, t, x);
      }
    }
  }

  lemma SetPriorityMid(s: Sched, t: nat, p: nat)
    requires Mid(s) && Allowed(s, SetPriority(t, p))
    ensures Mid(Apply(s, SetPriority(t, p)))
  {
    DequeueStructure(s, t);
    var d := Dequeue(s, t);
    var th := d.threads[t].(prio := p);
    RewriteStructure(d, t, th);
    var d2 := d.(threads := d.threads[t := th]);
    forall x | x in d2.threads
      ensures x != t ==> Kept(d2, x)
      ensures !Runnable(s, t) ==> Fine(d2, x)
      ensures t != s.cur && s.action == Resume ==> Below(d2, t, x)
    {
      assert Fine(s, x);
    }
    if Runnable(s, t) {
      if t == s.cur { RescheduleMid(d2); } else { SwitchMid(d2, t); }
    }
  }

  lemma YieldMid(s: Sched)
    requires Mid(s) && Allowed(s, Yield)
    ensures Mid(Apply(s, Yield))
  {
    DequeueStructure(s, s.cur);
    var d := Dequeue(s, s.cur);
    forall x | x in d.threads
      ensures Kept(d, x)
    {
      assert Fine(s, x);
    }
    EnqueueKeeps(d, s.cur);
    RescheduleMid(Enqueue(d, s.cur));
  }

  lemma TickMid(s: Sched)
    requires Mid(s)
    ensures Mid(Tick(s))
  {
    var c := s.threads[s.cur];
    if c.state == Running {
      var th := c.(timeSlice := if c.timeSlice > 1 then c.timeSlice - 1 else TIME_SLICE);
      RewriteStructure(s, s.cur, th);
      var s1 := s.(threads := s.threads[s.cur := th]);
      forall x | x in s1.threads
        ensures Kept(s1, x) && Fine(s1, x)
      {
        assert Fine(s, x);
      }
      if c.timeSlice <= 1 {
        EnqueueKeeps(s1, s.cur);
        RescheduleMid(Enqueue(s1, s.cur));
      }
    }
  }

  lemma MarkMid(s: Sched, st: ThreadState)
    requires Mid(s) && Allowed(s, Mark(st))
    ensures Mid(Apply(s, Mark(st)))
  {
    RewriteStructure(s, s.cur, s.threads[s.cur].(state := st));
    var r := Apply(s, Mark(st));
    forall x | x in r.threads
      ensures Fine(r, x)
    {
      assert Fine(s, x);
    }
  }

  /** Every operation keeps the invariant, with one exception: suspending the pending switch target leaves a
      target that cannot run. */
  lemma StepMid(s: Sched, op: Op)
    requires Mid(s) && Callable(s, op)
    ensures Mid(Apply(s, op)) <==> Allowed(s, op)
  {
    if op.Suspend? && s.action == SwitchTo(op.t) { SuspendTarget(s, op.t); } else { AllowedMid(s, op); }
  }

  lemma SuspendTarget(s: Sched, t: nat)
    requires Mid(s) && t in s.threads && t != s.idle && s.action == SwitchTo(t)
    ensures !Mid(Apply(s, Suspend(t)))
  {
    SuspendForm(s, t);
  }

  lemma AllowedMid(s: Sched, op: Op)
    requires Mid(s) && Allowed(s, op)
    ensures Mid(Apply(s, op))
  {
    match op
    case Wake(t, st) => WakeMid(s, t, st);
    case WakeAll(ts) =>
      MidIsReady(s);
      ReadyAllReady(s, ts);
      RescheduleMid(ReadyAll(s, ts));
    case Block(st) => StopMid(s, s.cur, st);
    case Restate(t, st) =>
      if Queued(s, t) { QueuedIsEligible(s, t); }
      StopMid(s, t, st);
    case Mark(st) => MarkMid(s, st);
    case Suspend(t) => SuspendMid(s, t);
    case RestartThread(t) => RestartMid(s, t);
    case SetPriority(t, p) => SetPriorityMid(s, t, p);
    case Yield => YieldMid(s);
    case TimerTick => TickMid(s);
  }

  // ---- whole runs ----

  /** activateThread: panics unless the current thread is running, restarted or idle. */
  function Activate(s: Sched): (r: Sched)
    requires Structure(s) && (s.cur == s.idle || Runnable(s, s.cur))
  {
    if s.threads[s.cur].state == Restart then SetState(s, s.cur, Running) else s
  }

  ghost predicate Performable(s: Sched, ops: seq<Op>)
    requires Mid(s)
    decreases |ops|
  {
    ops == [] || (Allowed(s, ops[0]) && (StepMid(s, ops[0]); Performable(Apply(s, ops[0]), ops[1..])))
  }

  ghost function Perform(s: Sched, ops: seq<Op>): (r: Sched)
    requires Mid(s) && Performable(s, ops)
    ensures Mid(r)
    decreases |ops|
  {
    if ops == [] then s else (StepMid(s, ops[0]); Perform(Apply(s, ops[0]), ops[1..]))
  }

  /** At user level: stable, with the current thread running or idle. */
  ghost predicate UserLevel(s: Sched) {
    Stable(s) && (s.threads[s.cur].state == Running || s.cur == s.idle)
  }

  lemma ActivateUserLevel(s: Sched)
    requires Stable(s)
    ensures UserLevel(Activate(s))
  {
    if s.threads[s.cur].state == Restart {
      RewriteStructure(s, s.cur, s.threads[s.cur].(state := Running));
      var r := Activate(s);
      forall x | x in r.threads
        ensures Settled(r, x)
      {
        assert Settled(s, x);
      }
    }
  }

  ghost function Enter(s: Sched, ops: seq<Op>): (r: Sched)
    requires UserLevel(s) && (StableIsMid(s); Performable(s, ops))
    ensures UserLevel(r)
  {
    StableIsMid(s);
    var m := Perform(s, ops);
    ScheduleStable(m);
    ActivateUserLevel(Schedule(m));
    Activate(Schedule(m))
  }

  ghost predicate Runs(s: Sched, entries: seq<seq<Op>>)
    requires UserLevel(s)
    decreases |entries|
  {
    entries == [] || (StableIsMid(s); Performable(s, entries[0]) && Runs(Enter(s, entries[0]), entries[1..]))
  }

  ghost function After(s: Sched, entries: seq<seq<Op>>): (r: Sched)
    requires UserLevel(s) && Runs(s, entries)
    ensures UserLevel(r)
    decreases |entries|
  {
    if entries == [] then s else After(Enter(s, entries[0]), entries[1..])
  }

  /** After every run, each runnable thread is the current one or stands exactly once in the ready
      queue of its priority; queues hold nobody else; and the current thread has the highest
      priority of all runnable threads, the idle thread running only if there is none. */
  lemma EveryRunIsFair(s: Sched, entries: seq<seq<Op>>)
    requires UserLevel(s) && Runs(s, entries)
    ensures
      var r := After(s, entries);
      && (forall t :: t in r.threads ==> (Queued(r, t) <==> t != r.cur && Runnable(r, t)))
      && (forall p, k :: 0 <= p < |r.queues| && 0 <= k < |r.queues[p]| ==>
            r.queues[p][k] in r.threads && r.threads[r.queues[p][k]].prio == p)
      && (forall p :: 0 <= p < |r.queues| ==> NoDup(r.queues[p]))
      && (forall t :: t in r.threads && Runnable(r, t) ==>
            Runnable(r, r.cur) && r.threads[t].prio <= r.threads[r.cur].prio)
  {
    var r := After(s, entries);
    forall p, k | 0 <= p < |r.queues| && 0 <= k < |r.queues[p]|
      ensures r.queues[p][k] in r.threads && r.threads[r.queues[p][k]].prio == p
    {
      assert QueueOk(r, p);
    }
    forall p | 0 <= p < |r.queues|
      ensures NoDup(r.queues[p])
    {
      assert QueueOk(r, p);
    }
    forall t | t in r.threads
      ensures Queued(r, t) <==> t != r.cur && Runnable(r, t)
    {
      assert Settled(r, t);
      if Queued(r, t) { QueuedIsEligible(r, t); }
    }
    forall t | t in r.threads && Runnable(r, t)
      ensures Runnable(r, r.cur) && r.threads[t].prio <= r.threads[r.cur].prio
    {
      assert Settled(r, t);
    }
  }

  // ---- round robin ----

  /** One timer interrupt at user level. */
  ghost function TickEntry(s: Sched): (r: Sched)
    requires UserLevel(s)
    ensures UserLevel(r)
  {
    StableIsMid(s);
    TickMid(s);
    ScheduleStable(Tick(s));
    ActivateUserLevel(Schedule(Tick(s)));
    Activate(Schedule(Tick(s)))
  }

  ghost function Ticks(s: Sched, n: nat): (r: Sched)
    requires UserLevel(s)
    ensures UserLevel(r)
    decreases n
  {
    if n == 0 then s else Ticks(TickEntry(s), n - 1)
  }

  /** The current thread followed by the ready queue of its priority. */
  ghost function Line(s: Sched): (r: seq<nat>)
    requires Structure(s)
  {
    [s.cur] + s.queues[s.threads[s.cur].prio]
  }

  /** A tick within the time slice changes nobody's place. */
  lemma TickWithinSlice(s: Sched)
    requires UserLevel(s) && s.cur != s.idle && s.threads[s.cur].timeSlice > 1
    ensures TickEntry(s).cur == s.cur && Line(TickEntry(s)) == Line(s)
    ensures TickEntry(s).threads[s.cur].timeSlice == s.threads[s.cur].timeSlice - 1
  {
  }

  lemma QueuedIsBelow(s: Sched, t: nat)
    requires Stable(s) && t in s.threads && Queued(s, t)
    ensures s.threads[t].prio <= s.threads[s.cur].prio
  {
    assert Settled(s, t);
  }

  /** Above the current thread's priority every queue is empty. */
  lemma NothingAbove(s: Sched, i: nat)
    requires Stable(s) && s.threads[s.cur].prio < i < NUM_PRIORITIES
    ensures s.queues[i] == []
  {
    assert QueueOk(s, i);
    if s.queues[i] != [] { QueuedIsBelow(s, s.queues[i][0]); }
  }

  /** Where the tick that ends the slice leaves the queues, and whom schedule() then picks. */
  lemma TickThenChoose(s: Sched)
    requires UserLevel(s) && s.cur != s.idle && s.threads[s.cur].timeSlice <= 1
    ensures HeadsKnown(Tick(s)) && Tick(s).action == ChooseNew
    ensures
      var p := s.threads[s.cur].prio;
      var line := s.queues[p] + [s.cur];
      && HighestPrio(Tick(s).queues) == p
      && Tick(s).queues == s.queues[p := line] && Schedule(Tick(s)).cur == line[0]
      && Schedule(Tick(s)).queues == s.queues[p := line[1..]] && Schedule(Tick(s)).threads == Tick(s).threads
  {
    var p := s.threads[s.cur].prio;
    var t := Tick(s);
    StableIsMid(s);
    TickMid(s);
    assert t.queues[p] == s.queues[p] + [s.cur];
    forall i | p < i < |t.queues|
      ensures t.queues[i] == []
    {
      NothingAbove(s, i);
    }
    assert HighestPrio(t.queues) == p;
    var c := t.queues[p][0];
    assert HeadKnown(t, p) && QueueOk(t, p);
    assert ChooseThread(t) == SwitchToThis(t, c);
  }

  /** The tick that ends the slice sends the current thread to the back of the line and runs the
      next one, with a fresh slice for the thread that ran. */
  lemma TickEndsSlice(s: Sched)
    requires UserLevel(s) && s.cur != s.idle && s.threads[s.cur].timeSlice <= 1
    ensures Line(TickEntry(s)) == Line(s)[1..] + [s.cur]
    ensures TickEntry(s).threads[s.cur].timeSlice == TIME_SLICE
    ensures TickEntry(s).cur != s.idle
  {
    var p := s.threads[s.cur].prio;
    TickThenChoose(s);
    StableIsMid(s);
    TickMid(s);
    assert QueueOk(s, p);
    var line := s.queues[p] + [s.cur];
    assert line[0] in Tick(s).threads && Tick(s).threads[line[0]].prio == p;
  }

  /** Bounded waiting: while only the timer interrupts, the thread k places behind the current one
      runs within k time slices. */
  lemma {:induction false} WaitsAtMostSlices(s: Sched, k: nat)
    requires UserLevel(s) && s.cur != s.idle && k < |Line(s)|
    ensures exists n: nat :: n <= TIME_SLICE * k && Ticks(s, n).cur == Line(s)[k]
  {
    var n := WaitFor(s, k);
  }

  /** Ticks left until the thread k places behind the current one is reached. */
  ghost function Budget(s: Sched, k: nat): (n: nat)
    requires s.cur in s.threads
  {
    if k == 0 then 0
    else TIME_SLICE * (k - 1) + if s.threads[s.cur].timeSlice > 1 then s.threads[s.cur].timeSlice else 1
  }

  lemma TickProgress(s: Sched, k: nat) returns (j: nat)
    requires UserLevel(s) && s.cur != s.idle && 0 < k < |Line(s)|
    ensures TickEntry(s).cur != TickEntry(s).idle && j < |Line(TickEntry(s))|
    ensures Line(TickEntry(s))[j] == Line(s)[k] && Budget(TickEntry(s), j) < Budget(s, k)
  {
    if s.threads[s.cur].timeSlice > 1 {
      TickWithinSlice(s);
      j := k;
    } else {
      TickEndsSlice(s);
      j := k - 1;
    }
  }

  lemma {:induction false} WaitFor(s: Sched, k: nat) returns (n: nat)
    requires UserLevel(s) && s.cur != s.idle && k < |Line(s)|
    ensures Ticks(s, n).cur == Line(s)[k] && n <= Budget(s, k)
    decreases Budget(s, k)
  {
    if k == 0 {
      n := 0;
    } else {
      var j := TickProgress(s, k);
      n := WaitFor(TickEntry(s), j);
      n := n + 1;
    }
  }
}
