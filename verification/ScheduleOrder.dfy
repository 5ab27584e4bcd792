/** Who runs next, and in which order the others wait (sel4_task/src/scheduler.rs, sel4_task/src/tcb.rs): schedule()
    said by priorities and places in line. */
module ScheduleOrder {
  import opened SchedulerSpec
  import opened SchedulerRuns

  /** t stands in line q, at the end unless it stood there already. */
  function JoinLine(q: seq<nat>, t: nat): (r: seq<nat>) {
    if t in q then q else q + [t]
  }

  function JoinOf(s: Sched, queues: seq<seq<nat>>, t: nat): (r: seq<seq<nat>>)
    requires Known(s, t) && |queues| == |s.queues|
  {
    queues[s.threads[t].prio := JoinLine(queues[s.threads[t].prio], t)]
  }

  /** The lines with the current thread, if it can still run, at the end of its own. */
  function WithCurrent(s: Sched): (r: seq<seq<nat>>)
    requires Known(s, s.cur)
    ensures |r| == |s.queues|
  {
    if Runnable(s, s.cur) then JoinOf(s, s.queues, s.cur) else s.queues
  }

  /** The first of the highest line runs, and the others keep their places; without a line the idle thread runs. */
  ghost predicate FirstRuns(s: Sched, queues: seq<seq<nat>>, r: Sched) {
    var h := HighestPrio(queues);
    if h < 0 then r.cur == s.idle && r.queues == queues
    else r.cur == queues[h][0] && r.queues == queues[h := queues[h][1..]]
  }

  lemma ChoosesFirst(s: Sched)
    requires Structure(s)
    ensures FirstRuns(s, s.queues, ChooseThread(s)) && ChooseThread(s).threads == s.threads
  {
    var h := HighestPrio(s.queues);
    if h >= 0 {
      assert QueueOk(s, h);
    } else {
      DequeueStructure(s, s.idle);
    }
  }

  lemma CurrentJoins(s: Sched)
    requires Mid(s) && s.action != Resume
    ensures
      var s1 := if Runnable(s, s.cur) then Enqueue(s, s.cur) else s;
      Structure(s1) && s1.queues == WithCurrent(s) && s1.threads == s.threads && s1.cur == s.cur && s1.idle == s.idle
  {
    if Runnable(s, s.cur) { EnqueueFacts(s, s.cur); }
  }

  /** When a new choice is due, the current thread goes behind its equals and the first of the highest line runs. */
  lemma NewChoice(s: Sched)
    requires Mid(s) && s.action == ChooseNew
    ensures FirstRuns(s, WithCurrent(s), Schedule(s)) && Schedule(s).threads == s.threads
  {
    CurrentJoins(s);
    ChoosesFirst(if Runnable(s, s.cur) then Enqueue(s, s.cur) else s);
  }

  /** A candidate runs at once exactly if it outranks a current thread that can still run, and nobody in line outranks
      it. */
  ghost predicate RunsAtOnce(s: Sched, c: nat)
    requires Structure(s) && c in s.threads
  {
    && (Runnable(s, s.cur) ==> s.threads[c].prio > s.threads[s.cur].prio)
    && forall t :: t in s.threads && Queued(s, t) ==> s.threads[t].prio <= s.threads[c].prio
  }

  lemma CandidateChoice(s: Sched, c: nat)
    requires Mid(s) && s.action == SwitchTo(c)
    ensures
      var w, p := WithCurrent(s), s.threads[c].prio;
      if RunsAtOnce(s, c)
      then Schedule(s).cur == c && Schedule(s).queues == w[p := Remove(w[p], c)]
      else FirstRuns(s, JoinOf(s, w, c), Schedule(s))
    ensures Schedule(s).threads == s.threads
  {
    var s1 := if Runnable(s, s.cur) then Enqueue(s, s.cur) else s;
    CurrentJoins(s);
    AtOnceIff(s, s1, c);
    CandidateTried(s1, c, Runnable(s, s.cur), RunsAtOnce(s, c));
    assert Schedule(s) == TryCandidate(s1, c, Runnable(s, s.cur)).(action := Resume);
  }

  lemma CandidateTried(s: Sched, c: nat, wasRunnable: bool, atOnce: bool)
    requires Structure(s) && Eligible(s, c)
    requires atOnce <==>
      && !((s.cur == s.idle || s.threads[c].prio < s.threads[s.cur].prio) && !IsHighestPrio(s, s.threads[c].prio))
      && !(wasRunnable && s.threads[c].prio == s.threads[s.cur].prio)
    ensures TryCandidate(s, c, wasRunnable).threads == s.threads
    ensures
      var r, p := TryCandidate(s, c, wasRunnable), s.threads[c].prio;
      if atOnce then r.cur == c && r.queues == s.queues[p := Remove(s.queues[p], c)]
      else FirstRuns(s, JoinOf(s, s.queues, c), r)
  {
    if !atOnce {
      EnqueueFacts(s, c);
      ChoosesFirst(Enqueue(s, c));
      assert Enqueue(s, c).queues == JoinOf(s, s.queues, c);
    }
  }

  lemma AtOnceIff(s: Sched, s1: Sched, c: nat)
    requires Mid(s) && s.action == SwitchTo(c)
    requires s1 == (if Runnable(s, s.cur) then Enqueue(s, s.cur) else s) && Structure(s1)
    ensures
      var fastFail := s.cur == s.idle || s.threads[c].prio < s.threads[s.cur].prio;
      RunsAtOnce(s, c) <==>
        && !(fastFail && !IsHighestPrio(s1, s.threads[c].prio))
        && !(Runnable(s, s.cur) && s.threads[c].prio == s.threads[s.cur].prio)
  {
    if Runnable(s, s.cur) {
      EnqueueFacts(s, s.cur);
      QueuedIsEligible(s1, s.cur);
    }
    forall t | t in s.threads && Queued(s, t)
      ensures Queued(s1, t) && s.threads[t].prio <= HighestPrio(s1.queues)
      ensures t != c ==> s.cur != s.idle && s.threads[t].prio <= s.threads[s.cur].prio
    {
      assert Fine(s, t);
      QueuedIsEligible(s, t);
      QueuedIsEligible(s1, t);
    }
    var h := HighestPrio(s1.queues);
    if h >= 0 {
      assert QueueOk(s1, h);
      assert s1.queues[h][0] == s.cur || Queued(s, s1.queues[h][0]);
    }
  }

  /** A candidate that does not run at once is not the one that runs. */
  lemma FirstIsNot(s: Sched, c: nat)
    requires Mid(s) && s.action == SwitchTo(c) && !Runnable(s, s.cur) && !Queued(s, c) && !RunsAtOnce(s, c)
    ensures Schedule(s).cur != c
  {
    CandidateChoice(s, c);
    var t :| t in s.threads && Queued(s, t) && s.threads[t].prio > s.threads[c].prio;
    var q := JoinOf(s, WithCurrent(s), c);
    assert q[s.threads[t].prio] == s.queues[s.threads[t].prio];
    var h := HighestPrio(q);
    assert h >= s.threads[t].prio && QueueOk(s, h);
  }

  /** A thread woken at the priority of a current thread that can still run does not overtake those in line before it:
      the current thread and then the woken one join the end, and the first in line runs. */
  lemma EqualsKeepPlaces(s: Sched, c: nat)
    requires Mid(s) && s.action == SwitchTo(c) && Runnable(s, s.cur) && s.threads[c].prio == s.threads[s.cur].prio
    requires !Queued(s, c)
    ensures Structure(Schedule(s)) && Schedule(s).threads == s.threads
    ensures Line(Schedule(s)) == Line(s)[1..] + [s.cur, c]
    ensures forall p :: 0 <= p < |s.queues| && p != s.threads[c].prio ==> Schedule(s).queues[p] == s.queues[p]
  {
    var p := s.threads[c].prio;
    var q := JoinOf(s, WithCurrent(s), c);
    CandidateChoice(s, c);
    ScheduleStable(s);
    assert q[p] == s.queues[p] + [s.cur, c];
    HighestLine(s, q, p);
    FirstOfEquals(s, q, p);
  }

  lemma FirstOfEquals(s: Sched, q: seq<seq<nat>>, p: nat)
    requires Structure(s) && s.action.SwitchTo? && p < |q| == |s.queues|
    requires q[p] == s.queues[p] + [s.cur, s.action.thread]
    requires s.threads[s.cur].prio == p
    ensures q[p][0] in s.threads && s.threads[q[p][0]].prio == p
  {
    assert QueueOk(s, p);
  }

  /** The line of the current thread is the highest when nobody woken outranks it. */
  lemma HighestLine(s: Sched, q: seq<seq<nat>>, p: nat)
    requires Mid(s) && s.action.SwitchTo? && p == s.threads[s.cur].prio && |q| == |s.queues|
    requires q[p] != [] && s.threads[s.action.thread].prio <= p
    requires forall i :: 0 <= i < |q| && i > p ==> q[i] == s.queues[i]
    ensures HighestPrio(q) == p
  {
    forall i | p < i < |q|
      ensures q[i] == []
    {
      assert QueueOk(s, i);
      if s.queues[i] != [] { NoneInLineOutranks(s, s.queues[i][0]); }
    }
  }

  lemma NoneInLineOutranks(s: Sched, t: nat)
    requires Mid(s) && s.action.SwitchTo? && t in s.threads && Queued(s, t)
    ensures t != s.action.thread ==> s.threads[t].prio <= s.threads[s.cur].prio
  {
    assert Fine(s, t);
  }

  // ---- a whole kernel entry ----

  /** Schedule and activate after whatever operations of an entry. */
  ghost function Left(m: Sched): (r: Sched)
    requires Mid(m)
    ensures UserLevel(r) && r.cur == Schedule(m).cur && r.queues == Schedule(m).queues
  {
    ScheduleStable(m);
    ActivateUserLevel(Schedule(m));
    Activate(Schedule(m))
  }

  /** So it is for every kernel entry that ends with such a candidate. */
  lemma EntryKeepsPlaces(s: Sched, ops: seq<Op>)
    requires UserLevel(s) && (StableIsMid(s); Performable(s, ops))
    requires
      var m := (StableIsMid(s); Perform(s, ops));
      m.action.SwitchTo? && Runnable(m, m.cur) && m.threads[m.action.thread].prio == m.threads[m.cur].prio
        && !Queued(m, m.action.thread)
    ensures
      var m := (StableIsMid(s); Perform(s, ops));
      Line(Enter(s, ops)) == Line(m)[1..] + [m.cur, m.action.thread]
  {
    StableIsMid(s);
    var m := Perform(s, ops);
    EqualsKeepPlaces(m, m.action.thread);
    assert Enter(s, ops) == Left(m);
  }

  /** An entry that wakes one thread: it runs at once exactly if it outranks the current thread or none was running; a
      thread of the same priority goes to the end of the line, behind the current one; below it waits in its own line.
      In every case the thread that ran goes behind its equals. */
  lemma WakeDecides(s: Sched, c: nat)
    requires UserLevel(s) && c in s.threads && c != s.idle && !Runnable(s, c)
    requires (StableIsMid(s); Performable(s, [Wake(c, Running)]))
    ensures
      var r := Enter(s, [Wake(c, Running)]);
      var p, pc := s.threads[s.cur].prio, s.threads[c].prio;
      if s.cur == s.idle then r.cur == c && r.queues == s.queues
      else if pc > p then r.cur == c && r.queues == s.queues[p := s.queues[p] + [s.cur]]
      else if pc == p then Line(r) == Line(s)[1..] + [s.cur, c]
      else Line(r) == Line(s)[1..] + [s.cur] && r.queues[pc] == s.queues[pc] + [c]
  {
    StableIsMid(s);
    var ops := [Wake(c, Running)];
    StepMid(s, ops[0]);
    var m := Apply(s, ops[0]);
    assert ops[1..] == [];
    assert Perform(m, []) == m && Perform(s, ops) == m;
    assert Enter(s, ops) == Left(m);
    WokenOutcome(s, c, m);
  }

  lemma WokenOutcome(s: Sched, c: nat, m: Sched)
    requires UserLevel(s) && Mid(s) && c in s.threads && c != s.idle && !Runnable(s, c) && Mid(m)
    requires Allowed(s, Wake(c, Running)) && m == Apply(s, Wake(c, Running))
    ensures
      var r := Left(m);
      var p, pc := s.threads[s.cur].prio, s.threads[c].prio;
      if s.cur == s.idle then r.cur == c && r.queues == s.queues
      else if pc > p then r.cur == c && r.queues == s.queues[p := s.queues[p] + [s.cur]]
      else if pc == p then Line(r) == Line(s)[1..] + [s.cur, c]
      else Line(r) == Line(s)[1..] + [s.cur] && r.queues[pc] == s.queues[pc] + [c]
  {
    var p, pc := s.threads[s.cur].prio, s.threads[c].prio;
    assert m == s.(threads := s.threads[c := s.threads[c].(state := Running)], action := SwitchTo(c));
    if Queued(s, c) { QueuedIsEligible(s, c); }
    CandidateChoice(m, c);
    forall t | t in s.threads && Queued(m, t)
      ensures Queued(s, t) && s.cur != s.idle && s.threads[t].prio <= p
    {
      assert Settled(s, t);
    }
    if s.cur != s.idle {
      assert WithCurrent(m) == s.queues[p := s.queues[p] + [s.cur]];
      if pc == p { EqualsKeepPlaces(m, c); } else if pc < p { LowerWaits(m, c); }
    }
    if pc > p || s.cur == s.idle { NotThere(m, c); }
  }

  lemma NotThere(m: Sched, c: nat)
    requires Mid(m) && c in m.threads && !Queued(m, c) && c != m.cur
    ensures
      var w, p := WithCurrent(m), m.threads[c].prio;
      w[p := Remove(w[p], c)] == w
  {
    var w, p := WithCurrent(m), m.threads[c].prio;
    assert QueueOk(m, p);
    RemoveAbsent(w[p], c);
  }

  lemma {:induction false} RemoveAbsent(q: seq<nat>, t: nat)
    requires t !in q
    ensures Remove(q, t) == q
  {
    if q != [] { RemoveAbsent(q[1..], t); }
  }

  lemma LowerWaits(m: Sched, c: nat)
    requires Mid(m) && m.action == SwitchTo(c) && Runnable(m, m.cur) && m.threads[c].prio < m.threads[m.cur].prio
    requires !Queued(m, c) && FirstRuns(m, JoinOf(m, WithCurrent(m), c), Schedule(m))
    requires Schedule(m).threads == m.threads
    ensures Line(Left(m)) == Line(m)[1..] + [m.cur]
    ensures Left(m).queues[m.threads[c].prio] == m.queues[m.threads[c].prio] + [c]
  {
    var p := m.threads[m.cur].prio;
    var q := JoinOf(m, WithCurrent(m), c);
    assert q[p] == m.queues[p] + [m.cur];
    HighestLine(m, q, p);
    assert QueueOk(m, p);
    assert q[p][0] in m.threads && m.threads[q[p][0]].prio == p;
  }

  // ---- what the other operations do to a thread ----

  /** Thread x after the operation: states, priorities and time slices change only where the operation says. */
  function ThreadAfter(s: Sched, op: Op, x: nat): (th: Thread)
    requires x in s.threads && s.cur in s.threads
  {
    var th := s.threads[x];
    match op
    case Wake(t, st) => if x == t then th.(state := st) else th
    case WakeAll(ts) => if x in ts then th.(state := Restart) else th
    case Block(st) => if x == s.cur then th.(state := st) else th
    case Restate(t, st) => if x == t then th.(state := st) else th
    case Mark(st) => if x == s.cur then th.(state := st) else th
    case Suspend(t) => if x == t then th.(state := Inactive) else th
    case RestartThread(t) => if x == t && IsStoppedState(th.state) then th.(state := Restart) else th
    case SetPriority(t, p) => if x == t then th.(prio := p) else th
    case Yield => th
    case TimerTick =>
      if x != s.cur || th.state != Running then th
      else th.(timeSlice := if th.timeSlice > 1 then th.timeSlice - 1 else TIME_SLICE)
  }

  lemma OperationOnThread(s: Sched, op: Op, x: nat)
    requires Mid(s) && Callable(s, op) && x in s.threads
    ensures x in Apply(s, op).threads && Apply(s, op).threads[x] == ThreadAfter(s, op, x)
  {
    if op.WakeAll? {
      MidIsReady(s);
      ReadyAllWakes(s, op.ts, x);
    }
  }

  /** A kernel entry that changes a priority leaves the thread with the one asked for, and everybody else's as it was;
      who runs then is the highest of all, by EveryRunIsFair. */
  lemma PriorityIsTheOneAsked(s: Sched, t: nat, p: nat, x: nat)
    requires UserLevel(s) && (StableIsMid(s); Performable(s, [SetPriority(t, p)])) && x in s.threads
    ensures
      var r := Enter(s, [SetPriority(t, p)]);
      x in r.threads && r.threads[x].prio == if x == t then p else s.threads[x].prio
  {
    StableIsMid(s);
    var ops := [SetPriority(t, p)];
    StepMid(s, ops[0]);
    var m := Apply(s, ops[0]);
    assert ops[1..] == [];
    assert Perform(m, []) == m && Perform(s, ops) == m;
    OperationOnThread(s, ops[0], x);
    ScheduleKeepsThreads(m);
    assert Enter(s, ops) == Left(m);
  }

  lemma ScheduleKeepsThreads(m: Sched)
    requires Mid(m)
    ensures Schedule(m).threads == m.threads
  {
    if m.action == ChooseNew { NewChoice(m); } else if m.action.SwitchTo? { CandidateChoice(m, m.action.thread); }
  }

  /** Yielding sends the current thread behind its equals. */
  lemma YieldRotates(s: Sched)
    requires UserLevel(s) && s.cur != s.idle && (StableIsMid(s); Performable(s, [Yield]))
    ensures Line(Enter(s, [Yield])) == Line(s)[1..] + [s.cur]
  {
    StableIsMid(s);
    var ops := [Yield];
    StepMid(s, ops[0]);
    var m := Apply(s, ops[0]);
    assert ops[1..] == [];
    assert Perform(m, []) == m && Perform(s, ops) == m;
    DequeueStructure(s, s.cur);
    BehindEquals(s, m);
    assert Enter(s, ops) == Left(m);
  }

  /** The current thread has been put behind its equals, and a new choice is due. */
  lemma BehindEquals(s: Sched, m: Sched)
    requires Stable(s) && Mid(m) && s.cur != s.idle
    requires
      var p := s.threads[s.cur].prio;
      m == s.(queues := s.queues[p := s.queues[p] + [s.cur]], action := ChooseNew)
    ensures Line(Left(m)) == Line(s)[1..] + [s.cur]
  {
    var p := s.threads[s.cur].prio;
    NewChoice(m);
    assert WithCurrent(m) == m.queues;
    forall i | p < i < |m.queues|
      ensures m.queues[i] == []
    {
      NothingAbove(s, i);
    }
    assert HighestPrio(m.queues) == p && QueueOk(m, p);
    assert m.threads[m.queues[p][0]].prio == p;
  }
}
