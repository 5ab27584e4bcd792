/** Nobody overtakes in a queue (sel4_ipc/src/endpoint.rs, sel4_ipc/src/notification.rs): over every run senders are
    taken, and receivers and waiters are served, in the order in which they came. */
module FirstCome {
  import opened SchedulerSpec
  import opened IpcSpec
  import opened IpcInvariants
  import opened IpcSafety
  import opened ReplySafety
  import opened KernelExit
  import opened CallPath
  import opened IpcRuns
  import opened Faults
  import opened Waits
  import opened Rendezvous

  /** x stands ahead of y in q. */
  ghost predicate Ahead(q: seq<nat>, x: nat, y: nat) {
    exists i, j :: 0 <= i < j < |q| && q[i] == x && q[j] == y
  }

  /** Whoever stands ahead of another in r did so in q. */
  ghost predicate OrderFrom(q: seq<nat>, r: seq<nat>) {
    forall x, y :: Ahead(r, x, y) ==> Ahead(q, x, y)
  }

  /** The queue loses some of its threads, or gets one more at its end. */
  ghost predicate QueueStep(q: seq<nat>, r: seq<nat>, cur: nat) {
    OrderFrom(q, r) || (cur !in q && r == q + [cur])
  }

  lemma PopOrder(q: seq<nat>)
    requires q != []
    ensures OrderFrom(q, q[1..])
  {
    forall x, y | Ahead(q[1..], x, y)
      ensures Ahead(q, x, y)
    {
      var i, j :| 0 <= i < j < |q[1..]| && q[1..][i] == x && q[1..][j] == y;
      assert q[i + 1] == x && q[j + 1] == y;
    }
  }

  lemma {:induction false} InRemoved(q: seq<nat>, t: nat, x: nat)
    requires x in Remove(q, t)
    ensures x in q
  {
    if q != [] && q[0] != t && x != q[0] { InRemoved(q[1..], t, x); }
  }

  lemma {:induction false} RemoveOrder(q: seq<nat>, t: nat)
    ensures OrderFrom(q, Remove(q, t))
  {
    if q != [] {
      PopOrder(q);
      if q[0] != t {
        RemoveOrder(q[1..], t);
        forall x, y | Ahead(Remove(q, t), x, y)
          ensures Ahead(q, x, y)
        {
          AheadRemoved(q, t, x, y);
        }
      }
    }
  }

  lemma AheadRemoved(q: seq<nat>, t: nat, x: nat, y: nat)
    requires q != [] && q[0] != t && OrderFrom(q[1..], Remove(q[1..], t)) && OrderFrom(q, q[1..])
    requires Ahead(Remove(q, t), x, y)
    ensures Ahead(q, x, y)
  {
    var r := Remove(q, t);
    var i, j :| 0 <= i < j < |r| && r[i] == x && r[j] == y;
    assert r == [q[0]] + Remove(q[1..], t);
    if i == 0 {
      InRemoved(q[1..], t, y);
      var k :| 0 <= k < |q[1..]| && q[1..][k] == y;
      assert q[0] == x && q[k + 1] == y;
    } else {
      var s := Remove(q[1..], t);
      assert s[i - 1] == x && s[j - 1] == y;
      assert Ahead(s, x, y) && Ahead(q[1..], x, y);
    }
  }

  lemma {:induction false} FilterOrder(tcbs: map<nat, Tcb>, q: seq<nat>, badge: Badge, matching: bool)
    requires forall t :: t in q ==> t in tcbs
    ensures OrderFrom(q, WithBadge(tcbs, q, badge, matching))
  {
    if q != [] {
      PopOrder(q);
      FilterOrder(tcbs, q[1..], badge, matching);
      forall x, y | Ahead(WithBadge(tcbs, q, badge, matching), x, y)
        ensures Ahead(q, x, y)
      {
        AheadFiltered(tcbs, q, badge, matching, x, y);
      }
    }
  }

  lemma AheadFiltered(tcbs: map<nat, Tcb>, q: seq<nat>, badge: Badge, matching: bool, x: nat, y: nat)
    requires q != [] && (forall t :: t in q ==> t in tcbs) && OrderFrom(q, q[1..])
    requires OrderFrom(q[1..], WithBadge(tcbs, q[1..], badge, matching))
    requires Ahead(WithBadge(tcbs, q, badge, matching), x, y)
    ensures Ahead(q, x, y)
  {
    var r, s := WithBadge(tcbs, q, badge, matching), WithBadge(tcbs, q[1..], badge, matching);
    assert q[0] in q;
    if r == s {
      assert Ahead(q[1..], x, y);
    } else {
      var i, j :| 0 <= i < j < |r| && r[i] == x && r[j] == y;
      assert r == [q[0]] + s;
      if i == 0 {
        assert s[j - 1] == y && y in q[1..];
        var k :| 0 <= k < |q[1..]| && q[1..][k] == y;
        assert q[0] == x && q[k + 1] == y;
      } else {
        assert s[i - 1] == x && s[j - 1] == y;
        assert Ahead(s, x, y) && Ahead(q[1..], x, y);
      }
    }
  }

  // ---- every operation ----

  /** The queue of object o, before and after. */
  ghost predicate QueueKept(k: Kernel, r: Kernel, o: nat) {
    o in k.objects ==>
      o in r.objects && QueueStep(QueueOf(k.objects[o]), QueueOf(r.objects[o]), k.sched.cur)
  }

  lemma CurrentInNoQueue(k: Kernel, o: nat)
    requires QueuesAgree(k) && CurrentRuns(k) && o in k.objects
    ensures k.sched.cur !in QueueOf(k.objects[o])
  {
    assert ObjectOk(k, o);
  }

  lemma SendQueue(k: Kernel, ep: nat, blocking: bool, call: bool, canGrant: bool, badge: Badge, canGrantReply: bool,
      o: nat)
    requires Shape(k) && QueuesAgree(k) && CurrentRuns(k) && IsEndpoint(k, ep) && SendAsserts(k, k.sched.cur, ep)
    ensures QueueKept(k, SendIpc(k, k.sched.cur, ep, blocking, call, canGrant, badge, canGrantReply), o)
  {
    CurrentInNoQueue(k, ep);
    if QueueOf(k.objects[ep]) != [] { PopOrder(QueueOf(k.objects[ep])); }
  }

  lemma ReceiveQueue(k: Kernel, ep: nat, blocking: bool, grant: bool, o: nat)
    requires Shape(k) && QueuesAgree(k) && CurrentRuns(k) && IsEndpoint(k, ep) && ReceiveAsserts(k, k.sched.cur, ep)
    ensures QueueKept(k, ReceiveIpc(k, k.sched.cur, ep, blocking, grant), o)
  {
    CurrentInNoQueue(k, ep);
    if QueueOf(k.objects[ep]) != [] { PopOrder(QueueOf(k.objects[ep])); }
  }

  lemma AwaitQueue(k: Kernel, n: nat, blocking: bool, o: nat)
    requires Shape(k) && QueuesAgree(k) && CurrentRuns(k) && IsNotification(k, n)
    ensures QueueKept(k, ReceiveSignal(k, k.sched.cur, n, blocking), o)
  {
    CurrentInNoQueue(k, n);
  }

  lemma SignalQueue(k: Kernel, n: nat, badge: Badge, o: nat)
    requires Shape(k) && QueuesAgree(k) && IsNotification(k, n) && SignalAsserts(k, n)
    ensures QueueKept(k, SendSignal(k, n, badge), o)
  {
    var obj := k.objects[n];
    if QueueOf(obj) != [] { PopOrder(QueueOf(obj)); }
    if obj.boundTcb != 0 && o in k.objects { RemoveOrder(QueueOf(k.objects[o]), obj.boundTcb); }
  }

  lemma CancelQueue(k: Kernel, t: nat, o: nat)
    requires Shape(k) && t in k.sched.threads && (IsWaiting(StateOf(k, t)) ==> WaitsSomewhere(k, t))
    ensures QueueKept(k, CancelIpc(k, t), o) && QueueKept(k, SuspendThread(k, t), o)
    ensures QueueKept(k, ResumeThread(k, t), o)
  {
    if o in k.objects { RemoveOrder(QueueOf(k.objects[o]), t); }
  }

  lemma SendStepQueue(k: Kernel, op: KernelOp, o: nat)
    requires Ok(k) && May(k, op) && op.Send?
    ensures QueueKept(k, Step(k, op), o)
  {
    SendOk(k, op.ep, op.blocking, op.call, op.canGrant, op.badge, op.canGrantReply);
    SendQueue(k, op.ep, op.blocking, op.call, op.canGrant, op.badge, op.canGrantReply, o);
  }

  lemma FaultStepQueue(k: Kernel, op: KernelOp, o: nat)
    requires Ok(k) && May(k, op) && op.Fault?
    ensures QueueKept(k, Step(k, op), o)
  {
    MarkFaultOk(k);
    SendOk(MarkFault(k), op.handler, true, true, op.canGrant, op.badge, true);
    SendQueue(MarkFault(k), op.handler, true, true, op.canGrant, op.badge, true, o);
  }

  lemma ReceiveStepQueue(k: Kernel, op: KernelOp, o: nat)
    requires Ok(k) && May(k, op) && op.Receive?
    ensures QueueKept(k, Step(k, op), o)
  {
    AfterDropOk(k);
    var d := DeleteReply(k, CallerSlot(k.sched.cur));
    ReceiveOk(d, op.ep, op.blocking, op.grant);
    ReceiveQueue(d, op.ep, op.blocking, op.grant, o);
  }

  lemma NotificationQueue(k: Kernel, op: KernelOp, o: nat)
    requires Ok(k) && May(k, op) && (op.Await? || op.Signal?)
    ensures QueueKept(k, Step(k, op), o)
  {
    match op
    case Await(n, blocking) => ReceiveSignalOk(k, n, blocking); AwaitQueue(k, n, blocking, o);
    case Signal(n, badge) => SignalOk(k, n, badge); SignalQueue(k, n, badge, o);
  }

  lemma FastQueue(k: Kernel, ep: nat, badge: Badge, o: nat)
    requires IsEndpoint(k, ep) && HasHead(k, ep) && HeadOf(k, ep) in k.tcbs && k.sched.cur in k.sched.threads
    ensures QueueKept(k, FastEffect(k, ep, badge), o)
  {
    PopOrder(QueueOf(k.objects[ep]));
  }

  lemma FastStepQueue(k: Kernel, op: KernelOp, o: nat)
    requires Ok(k) && May(k, op) && op.FastCall?
    ensures QueueKept(k, Step(k, op), o)
  {
    FastCallOk(k, op.ep, op.canGrant, op.badge, op.canGrantReply);
    FastQueue(k, op.ep, op.badge, o);
  }

  lemma CancelledQueue(k: Kernel, op: KernelOp, o: nat)
    requires Ok(k) && May(k, op) && (op.CancelWaiters? || op.CancelBadged?)
    ensures QueueKept(k, Step(k, op), o)
  {
    var p := if op.CancelWaiters? then op.o else op.ep;
    assert ObjectOk(k, p);
    if op.CancelBadged? { FilterOrder(k.tcbs, QueueOf(k.objects[p]), op.badge, false); }
  }

  lemma ControlQueue(k: Kernel, op: KernelOp, o: nat)
    requires Ok(k) && May(k, op) && (op.SuspendTcb? || op.ResumeTcb?)
    ensures QueueKept(k, Step(k, op), o)
  {
    assert ThreadOk(k, op.t);
    CancelQueue(k, op.t, o);
  }

  lemma AnswerQueue(k: Kernel, op: KernelOp, o: nat)
    requires Ok(k) && May(k, op) && op.AnswerReply?
    ensures QueueKept(k, Step(k, op), o)
  {
    DoReplyOk(k, op.slot, op.resume);
  }

  lemma BindingQueue(k: Kernel, op: KernelOp, o: nat)
    requires Ok(k) && May(k, op) && (op.BindNtfn? || op.UnbindNtfn?)
    ensures QueueKept(k, Step(k, op), o)
  {
    assert BindingOk(k, op.t);
  }

  lemma OtherQueue(k: Kernel, op: KernelOp, o: nat)
    requires Ok(k) && May(k, op)
    requires op.DropReply? || op.SaveReply? || op.Stop? || op.NewObject? || op.Schedule?
    ensures QueueKept(k, Step(k, op), o)
  {}

  /** No operation lets one waiting thread pass another; a thread that joins stands at the end. */
  lemma StepKeepsQueue(k: Kernel, op: KernelOp, o: nat)
    requires Ok(k) && May(k, op)
    ensures QueueKept(k, Step(k, op), o)
  {
    match op
    case Send(_, _, _, _, _, _) => SendStepQueue(k, op, o);
    case Fault(_, _, _) => FaultStepQueue(k, op, o);
    case Receive(_, _, _) => ReceiveStepQueue(k, op, o);
    case Await(_, _) => NotificationQueue(k, op, o);
    case Signal(_, _) => NotificationQueue(k, op, o);
    case FastCall(_, _, _, _) => FastStepQueue(k, op, o);
    case CancelWaiters(_) => CancelledQueue(k, op, o);
    case CancelBadged(_, _) => CancelledQueue(k, op, o);
    case SuspendTcb(_) => ControlQueue(k, op, o);
    case ResumeTcb(_) => ControlQueue(k, op, o);
    case AnswerReply(_, _) => AnswerQueue(k, op, o);
    case BindNtfn(_, _) => BindingQueue(k, op, o);
    case UnbindNtfn(_) => BindingQueue(k, op, o);
    case _ => OtherQueue(k, op, o);
  }

  // ---- over every run ----

  predicate StandsIn(k: Kernel, o: nat, t: nat) {
    o in k.objects && t in QueueOf(k.objects[o])
  }

  /** Both stand in the queue, t ahead of u. */
  ghost predicate AheadIn(k: Kernel, o: nat, t: nat, u: nat) {
    o in k.objects && Ahead(QueueOf(k.objects[o]), t, u)
  }

  lemma EitherAhead(q: seq<nat>, t: nat, u: nat)
    requires t in q && u in q && t != u
    ensures Ahead(q, t, u) || Ahead(q, u, t)
  {
    var i, j :| 0 <= i < |q| && 0 <= j < |q| && q[i] == t && q[j] == u;
    assert i < j || j < i;
  }

  lemma NotBothAhead(q: seq<nat>, t: nat, u: nat)
    requires NoDup(q) && Ahead(q, t, u)
    ensures !Ahead(q, u, t) && q[0] != u
  {
    var i, j :| 0 <= i < j < |q| && q[i] == t && q[j] == u;
    assert q[i] == t && q[j] == u;
  }

  lemma QueueStepAhead(q: seq<nat>, r: seq<nat>, cur: nat, t: nat, u: nat)
    requires QueueStep(q, r, cur) && NoDup(q) && t in q && t in r && u in r && t != u
    requires u in q ==> Ahead(q, t, u)
    ensures Ahead(r, t, u)
  {
    EitherAhead(r, t, u);
    if OrderFrom(q, r) {
      if Ahead(r, u, t) {
        assert Ahead(q, u, t);
        NotBothAhead(q, t, u);
      }
    } else {
      assert r == q + [cur];
      if u in q {
        var i, j :| 0 <= i < j < |q| && q[i] == t && q[j] == u;
        assert r[i] == t && r[j] == u;
      } else {
        var i :| 0 <= i < |q| && q[i] == t;
        assert r[i] == t && r[|q|] == u;
      }
    }
  }

  lemma MoveKeepsQueue(states: seq<Kernel>, ms: seq<Move>, i: nat, o: nat)
    requires Trace(states, ms) && i < |ms|
    ensures QueueKept(states[i], states[i + 1], o) && Ok(states[i])
  {
    assert LeadsAt(states, ms, i);
    match ms[i]
    case Do(op) => StepKeepsQueue(states[i], op, o);
    case Exit => LeaveKeeps(states[i]);
  }

  lemma {:induction false} StaysAhead(states: seq<Kernel>, ms: seq<Move>, o: nat, t: nat, u: nat, i: nat, j: nat)
    requires Trace(states, ms) && i <= j <= |ms| && t != u
    requires forall m :: i <= m <= j ==> StandsIn(states[m], o, t)
    requires !StandsIn(states[i], o, u) && StandsIn(states[j], o, u)
    ensures AheadIn(states[j], o, t, u)
    decreases j - i
  {
    MoveKeepsQueue(states, ms, j - 1, o);
    if StandsIn(states[j - 1], o, u) { StaysAhead(states, ms, o, t, u, i, j - 1); }
    KeptAhead(states[j - 1], states[j], o, t, u);
  }

  lemma KeptAhead(k: Kernel, r: Kernel, o: nat, t: nat, u: nat)
    requires QueuesAgree(k) && QueueKept(k, r, o) && t != u
    requires StandsIn(k, o, t) && StandsIn(r, o, t) && StandsIn(r, o, u)
    requires StandsIn(k, o, u) ==> AheadIn(k, o, t, u)
    ensures AheadIn(r, o, t, u)
  {
    assert ObjectOk(k, o);
    QueueStepAhead(QueueOf(k.objects[o]), QueueOf(r.objects[o]), k.sched.cur, t, u);
  }

  /** The thread of the queue that the operation's message is taken from or given to. */
  function Served(k: Kernel, op: KernelOp): (x: nat)
    requires Carries(k, op).Message?
  {
    if op.Receive? then Carries(k, op).from else Carries(k, op).to
  }

  lemma NotServed(k: Kernel, op: KernelOp, t: nat, u: nat)
    requires Carries(k, op).Message? && !op.AnswerReply? && QueuesAgree(k) && AheadIn(k, Place(op), t, u)
    ensures Served(k, op) != u
  {
    assert ObjectOk(k, Place(op));
    NotBothAhead(QueueOf(k.objects[Place(op)]), t, u);
  }

  /** Thread t waits for object o from state i to state j; u was not waiting for it at state i and is at state j. */
  ghost predicate CameLater(states: seq<Kernel>, o: nat, t: nat, u: nat, i: nat, j: nat) {
    && i <= j < |states| && t != u && (forall m :: i <= m <= j ==> StandsIn(states[m], o, t))
    && !StandsIn(states[i], o, u) && StandsIn(states[j], o, u)
  }

  /** The move does not serve u at object o. */
  predicate Skips(k: Kernel, m: Move, o: nat, u: nat) {
    m.Do? && Carries(k, m.op).Message? && !m.op.AnswerReply? && Place(m.op) == o ==> Served(k, m.op) != u
  }

  lemma LaterWaits(states: seq<Kernel>, ms: seq<Move>, o: nat, t: nat, u: nat, i: nat, j: nat)
    requires Trace(states, ms) && j < |ms| && CameLater(states, o, t, u, i, j)
    ensures AheadIn(states[j], o, t, u) && Skips(states[j], ms[j], o, u)
  {
    StaysAhead(states, ms, o, t, u, i, j);
    MoveKeepsQueue(states, ms, j, o);
    if ms[j].Do? && Carries(states[j], ms[j].op).Message? && !ms[j].op.AnswerReply? && Place(ms[j].op) == o {
      NotServed(states[j], ms[j].op, t, u);
    }
  }

  /** First come, first served: in every run, for as long as both wait, the thread that came first stands ahead, and no
      operation serves the other one. */
  lemma FirstComeFirstServed(k: Kernel, entries: seq<seq<KernelOp>>, o: nat, t: nat, u: nat, i: nat, j: nat)
    requires AtUserLevel(k) && RunMay(k, entries) && j < |RunMoves(entries)|
    requires CameLater(RunStates(k, entries), o, t, u, i, j)
    ensures AheadIn(RunStates(k, entries)[j], o, t, u)
    ensures Skips(RunStates(k, entries)[j], RunMoves(entries)[j], o, u)
  {
    RunTrace(k, entries);
    LaterWaits(RunStates(k, entries), RunMoves(entries), o, t, u, i, j);
  }

  // ---- who leaves a queue ----

  /** u stays in the queue of o, or is the first there. */
  predicate StaysOrFirst(k: Kernel, r: Kernel, o: nat, u: nat) {
    StandsIn(k, o, u) && !StandsIn(r, o, u) ==> QueueOf(k.objects[o])[0] == u
  }

  lemma {:induction false} RemoveKeepsOthers(q: seq<nat>, t: nat, u: nat)
    requires u in q && u != t
    ensures u in Remove(q, t)
  {
    if q[0] != t && q[0] != u { RemoveKeepsOthers(q[1..], t, u); }
  }

  lemma SendLeavesQueue(k: Kernel, ep: nat, blocking: bool, call: bool, canGrant: bool, badge: Badge,
      canGrantReply: bool, o: nat, u: nat)
    requires Shape(k) && k.sched.cur in k.sched.threads && IsEndpoint(k, ep) && SendAsserts(k, k.sched.cur, ep)
    ensures
      var r := SendIpc(k, k.sched.cur, ep, blocking, call, canGrant, badge, canGrantReply);
      StaysOrFirst(k, r, o, u) && (o != ep && StandsIn(k, o, u) ==> StandsIn(r, o, u))
  {}

  lemma ReceiveLeavesQueue(k: Kernel, ep: nat, blocking: bool, grant: bool, o: nat, u: nat)
    requires Shape(k) && k.sched.cur in k.sched.threads && IsEndpoint(k, ep) && ReceiveAsserts(k, k.sched.cur, ep)
    ensures
      var r := ReceiveIpc(k, k.sched.cur, ep, blocking, grant);
      StaysOrFirst(k, r, o, u) && (o != ep && StandsIn(k, o, u) ==> StandsIn(r, o, u))
  {}

  /** The thread that is bound to notification n and asleep in a receive. */
  predicate BoundSleeper(k: Kernel, n: nat, u: nat) {
    IsNotification(k, n) && k.objects[n].boundTcb == u && u in k.sched.threads && StateOf(k, u) == BlockedOnReceive
  }

  lemma SignalLeavesQueue(k: Kernel, n: nat, badge: Badge, o: nat, u: nat)
    requires Shape(k) && IsNotification(k, n) && SignalAsserts(k, n)
    ensures
      var r := SendSignal(k, n, badge);
      StandsIn(k, o, u) && !StandsIn(r, o, u) ==>
        (o == n && QueueOf(k.objects[o])[0] == u) || BoundSleeper(k, n, u)
  {
    var t := k.objects[n].boundTcb;
    if StandsIn(k, o, u) && u != t { RemoveKeepsOthers(QueueOf(k.objects[o]), t, u); }
  }

  lemma CancelLeavesQueue(k: Kernel, t: nat, o: nat, u: nat)
    requires Shape(k) && t in k.sched.threads && (IsWaiting(StateOf(k, t)) ==> WaitsSomewhere(k, t))
    ensures StandsIn(k, o, u) && u != t ==> StandsIn(CancelIpc(k, t), o, u)
    ensures StandsIn(k, o, u) && u != t ==> StandsIn(SuspendThread(k, t), o, u) && StandsIn(ResumeThread(k, t), o, u)
  {
    if StandsIn(k, o, u) && u != t { RemoveKeepsOthers(QueueOf(k.objects[o]), t, u); }
  }

  /** Whom an operation may take out of the queue of o: the first, when it serves that queue; the thread it cancels; the
      sleeper whose bound notification is signalled. */
  predicate MayLeave(k: Kernel, op: KernelOp, o: nat, u: nat)
    requires StandsIn(k, o, u)
  {
    match op
    case Send(ep, _, _, _, _, _) => o == ep && QueueOf(k.objects[o])[0] == u
    case Fault(ep, _, _) => o == ep && QueueOf(k.objects[o])[0] == u
    case FastCall(ep, _, _, _) => o == ep && QueueOf(k.objects[o])[0] == u
    case Receive(ep, _, _) => o == ep && QueueOf(k.objects[o])[0] == u
    case Signal(n, _) => (o == n && QueueOf(k.objects[o])[0] == u) || BoundSleeper(k, n, u)
    case CancelWaiters(p) => o == p
    case CancelBadged(ep, badge) => o == ep && u in k.tcbs && k.tcbs[u].blocking.badge == badge
    case SuspendTcb(t) => t == u
    case ResumeTcb(t) => t == u
    case _ => false
  }

  /** u stands in the queue of o before the operation and not after. */
  predicate Leaves(k: Kernel, r: Kernel, o: nat, u: nat) {
    StandsIn(k, o, u) && !StandsIn(r, o, u)
  }

  lemma SendsLeave(k: Kernel, op: KernelOp, o: nat, u: nat)
    requires Ok(k) && May(k, op) && op.Send?
    ensures Leaves(k, Step(k, op), o, u) ==> MayLeave(k, op, o, u)
  {
    SendOk(k, op.ep, op.blocking, op.call, op.canGrant, op.badge, op.canGrantReply);
    SendLeavesQueue(k, op.ep, op.blocking, op.call, op.canGrant, op.badge, op.canGrantReply, o, u);
  }

  lemma FaultsLeave(k: Kernel, op: KernelOp, o: nat, u: nat)
    requires Ok(k) && May(k, op) && op.Fault?
    ensures Leaves(k, Step(k, op), o, u) ==> MayLeave(k, op, o, u)
  {
    MarkFaultOk(k);
    SendOk(MarkFault(k), op.handler, true, true, op.canGrant, op.badge, true);
    SendLeavesQueue(MarkFault(k), op.handler, true, true, op.canGrant, op.badge, true, o, u);
  }

  lemma ReceivesLeave(k: Kernel, op: KernelOp, o: nat, u: nat)
    requires Ok(k) && May(k, op) && op.Receive?
    ensures Leaves(k, Step(k, op), o, u) ==> MayLeave(k, op, o, u)
  {
    AfterDropOk(k);
    var d := DeleteReply(k, CallerSlot(k.sched.cur));
    ReceiveOk(d, op.ep, op.blocking, op.grant);
    ReceiveLeavesQueue(d, op.ep, op.blocking, op.grant, o, u);
  }

  lemma NotificationsLeave(k: Kernel, op: KernelOp, o: nat, u: nat)
    requires Ok(k) && May(k, op) && (op.Await? || op.Signal?)
    ensures Leaves(k, Step(k, op), o, u) ==> MayLeave(k, op, o, u)
  {
    match op
    case Await(n, blocking) => ReceiveSignalOk(k, n, blocking);
    case Signal(n, badge) => SignalOk(k, n, badge); SignalLeavesQueue(k, n, badge, o, u);
  }

  lemma FastLeavesQueue(k: Kernel, ep: nat, badge: Badge, o: nat, u: nat)
    requires IsEndpoint(k, ep) && HasHead(k, ep) && HeadOf(k, ep) in k.tcbs && k.sched.cur in k.sched.threads
    ensures
      var r := FastEffect(k, ep, badge);
      StaysOrFirst(k, r, o, u) && (o != ep && StandsIn(k, o, u) ==> StandsIn(r, o, u))
  {}

  lemma FastCallsLeave(k: Kernel, op: KernelOp, o: nat, u: nat)
    requires Ok(k) && May(k, op) && op.FastCall?
    ensures Leaves(k, Step(k, op), o, u) ==> MayLeave(k, op, o, u)
  {
    FastCallOk(k, op.ep, op.canGrant, op.badge, op.canGrantReply);
    FastLeavesQueue(k, op.ep, op.badge, o, u);
  }

  lemma CancelsLeave(k: Kernel, op: KernelOp, o: nat, u: nat)
    requires Ok(k) && May(k, op) && (op.CancelWaiters? || op.CancelBadged?)
    ensures Leaves(k, Step(k, op), o, u) ==> MayLeave(k, op, o, u)
  {
    assert ObjectOk(k, if op.CancelWaiters? then op.o else op.ep);
  }

  lemma ControlsLeave(k: Kernel, op: KernelOp, o: nat, u: nat)
    requires Ok(k) && May(k, op) && (op.SuspendTcb? || op.ResumeTcb?)
    ensures Leaves(k, Step(k, op), o, u) ==> MayLeave(k, op, o, u)
  {
    assert ThreadOk(k, op.t);
    CancelLeavesQueue(k, op.t, o, u);
  }

  lemma RepliesLeave(k: Kernel, op: KernelOp, o: nat, u: nat)
    requires Ok(k) && May(k, op) && (op.AnswerReply? || op.DropReply? || op.SaveReply?)
    ensures !Leaves(k, Step(k, op), o, u)
  {
    if op.AnswerReply? { DoReplyOk(k, op.slot, op.resume); }
  }

  lemma OthersLeave(k: Kernel, op: KernelOp, o: nat, u: nat)
    requires Ok(k) && May(k, op) && (op.Stop? || op.NewObject? || op.Schedule?)
    ensures !Leaves(k, Step(k, op), o, u)
  {}

  lemma BindingsLeave(k: Kernel, op: KernelOp, o: nat, u: nat)
    requires Ok(k) && May(k, op) && (op.BindNtfn? || op.UnbindNtfn?)
    ensures !Leaves(k, Step(k, op), o, u)
  {
    assert BindingOk(k, op.t);
  }

  /** Nobody else leaves a queue: who is served is the first, and only a cancellation or the signal on its own bound
      notification takes a thread out of its place. */
  lemma OnlyFirstIsServed(k: Kernel, op: KernelOp, o: nat, u: nat)
    requires Ok(k) && May(k, op) && Leaves(k, Step(k, op), o, u)
    ensures MayLeave(k, op, o, u)
  {
    match op
    case Send(_, _, _, _, _, _) => SendsLeave(k, op, o, u);
    case Fault(_, _, _) => FaultsLeave(k, op, o, u);
    case Receive(_, _, _) => ReceivesLeave(k, op, o, u);
    case Await(_, _) => NotificationsLeave(k, op, o, u);
    case Signal(_, _) => NotificationsLeave(k, op, o, u);
    case FastCall(_, _, _, _) => FastCallsLeave(k, op, o, u);
    case CancelWaiters(_) => CancelsLeave(k, op, o, u);
    case CancelBadged(_, _) => CancelsLeave(k, op, o, u);
    case SuspendTcb(_) => ControlsLeave(k, op, o, u);
    case ResumeTcb(_) => ControlsLeave(k, op, o, u);
    case AnswerReply(_, _) => RepliesLeave(k, op, o, u);
    case DropReply(_) => RepliesLeave(k, op, o, u);
    case SaveReply(_, _) => RepliesLeave(k, op, o, u);
    case BindNtfn(_, _) => BindingsLeave(k, op, o, u);
    case UnbindNtfn(_) => BindingsLeave(k, op, o, u);
    case _ => OthersLeave(k, op, o, u);
  }
}
