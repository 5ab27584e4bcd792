/** Messages over whole runs (sel4_ipc/src/endpoint.rs): what a receiver gets is what a sender gave, the caller is left
    as its call says, and nobody overtakes. */
module Rendezvous {
  import opened SchedulerSpec
  import opened IpcSpec
  import opened IpcInvariants
  import opened IpcSafety
  import opened ReplySafety
  import opened KernelExit
  import opened CallPath
  import opened IpcRuns
  import opened Faults
  import opened Waits

  // ---- since when a thread waits ----

  /** From state i to state j thread t waits in one way, with one record. */
  ghost predicate WaitsSince(states: seq<Kernel>, i: nat, j: nat, t: nat)
    requires i <= j < |states|
  {
    forall m {:trigger states[m]} :: i <= m <= j ==>
      && WaitsNow(states[m], t) && WaitsNow(states[j], t)
      && StateOf(states[m], t) == StateOf(states[j], t) && states[m].tcbs[t].blocking == states[j].tcbs[t].blocking
  }

  /** Move i makes t wait. */
  predicate EntersAt(states: seq<Kernel>, ms: seq<Move>, i: nat, t: nat)
    requires i < |ms| && |states| == |ms| + 1
  {
    ms[i].Do? && Enters(states[i], ms[i].op, states[i + 1], t)
  }

  lemma LeaveWaits(k: Kernel, x: nat)
    requires Ok(k)
    ensures StillWaits(k, Leave(k), x)
  {
    LeaveKeeps(k);
    if x in k.sched.threads { var th := Leave(k).sched.threads[x]; }
  }

  lemma WaitMove(states: seq<Kernel>, ms: seq<Move>, i: nat, t: nat)
    requires Trace(states, ms) && i < |ms|
    ensures StillWaits(states[i], states[i + 1], t) || EntersAt(states, ms, i, t)
  {
    assert LeadsAt(states, ms, i);
    match ms[i]
    case Do(op) => WaitOrigin(states[i], op, t);
    case Exit => LeaveWaits(states[i], t);
  }

  /** Whoever waits has waited since it asked to, with the record of what it asked, or since the run began. */
  lemma {:induction false} WaitHistory(states: seq<Kernel>, ms: seq<Move>, j: nat, t: nat) returns (since: bool, i: nat)
    requires Trace(states, ms) && j <= |ms| && WaitsNow(states[j], t)
    ensures since ==> WaitsSince(states, 0, j, t)
    ensures !since ==> i < j && EntersAt(states, ms, i, t) && WaitsSince(states, i + 1, j, t)
    decreases j
  {
    since, i := true, 0;
    if j > 0 {
      WaitMove(states, ms, j - 1, t);
      if EntersAt(states, ms, j - 1, t) {
        since, i := false, j - 1;
      } else {
        since, i := WaitHistory(states, ms, j - 1, t);
        if since { SinceGrows(states, 0, j, t); } else { SinceGrows(states, i + 1, j, t); }
      }
    }
  }

  lemma SinceGrows(states: seq<Kernel>, i: nat, j: nat, t: nat)
    requires i < j < |states| && WaitsSince(states, i, j - 1, t) && WaitsNow(states[j], t)
    requires StillWaits(states[j - 1], states[j], t)
    ensures WaitsSince(states, i, j, t)
  {
    forall m {:trigger states[m]} | i <= m <= j
      ensures WaitsNow(states[m], t) && WaitsNow(states[j], t)
      ensures StateOf(states[m], t) == StateOf(states[j], t)
      ensures states[m].tcbs[t].blocking == states[j].tcbs[t].blocking
    {
      assert states[j - 1] == states[j - 1];
    }
  }

  // ---- how a message leaves its sender and its receiver ----

  /** A caller that may be answered waits for the reply, which its receiver holds with the receiver's right to grant;
      any other caller stops; whoever only sent runs on. */
  predicate CallerLeft(r: Kernel, caller: nat, to: nat, call: bool, mayReply: bool, grant: bool) {
    && caller in r.sched.threads
    && if !call then IsRunnableState(StateOf(r, caller))
       else if !mayReply then StateOf(r, caller) == Inactive
       else
         && StateOf(r, caller) == BlockedOnReply
         && CallerSlot(to) in r.replies && r.replies[CallerSlot(to)] == Reply(caller, grant)
  }

  predicate RunsOn(r: Kernel, t: nat) {
    t in r.sched.threads && IsRunnableState(StateOf(r, t))
  }

  predicate IsCall(op: KernelOp) {
    (op.Send? && op.call) || op.Fault? || op.FastCall?
  }

  /** The sender's capability lets a reply be made. */
  predicate MayBeAnswered(op: KernelOp) {
    op.Fault? || ((op.Send? || op.FastCall?) && (op.canGrant || op.canGrantReply))
  }

  predicate Delivers(k: Kernel, op: KernelOp) {
    (op.Send? || op.Fault? || op.FastCall?) && Carries(k, op).Message?
  }

  function Place(op: KernelOp): (ep: nat)
    requires op.Send? || op.Fault? || op.FastCall? || op.Receive?
  {
    if op.Fault? then op.handler else op.ep
  }

  /** The receiver waited on the endpoint and runs now; the sender is left as its operation says. */
  predicate DeliveryLeft(k: Kernel, op: KernelOp, r: Kernel)
    requires Delivers(k, op)
  {
    var c := Carries(k, op);
    && WaitsNow(k, c.to) && StateOf(k, c.to) == BlockedOnReceive && k.tcbs[c.to].blocking.waitsOn == Place(op)
    && RunsOn(r, c.to)
    && CallerLeft(r, c.from, c.to, IsCall(op), MayBeAnswered(op), k.tcbs[c.to].blocking.canGrant)
  }

  lemma SendLeaves(k: Kernel, ep: nat, blocking: bool, call: bool, canGrant: bool, badge: Badge, canGrantReply: bool)
    requires Shape(k) && CurrentRuns(k) && IsEndpoint(k, ep) && SendAsserts(k, k.sched.cur, ep) && Receiving(k, ep)
    requires HeadOf(k, ep) in k.tcbs && HeadOf(k, ep) != k.sched.cur
    ensures
      var r, dest := SendIpc(k, k.sched.cur, ep, blocking, call, canGrant, badge, canGrantReply), HeadOf(k, ep);
      && RunsOn(r, dest)
      && CallerLeft(r, k.sched.cur, dest, call, canGrant || canGrantReply, k.tcbs[dest].blocking.canGrant)
  {}

  lemma SenderLeft(k: Kernel, op: KernelOp)
    requires Ok(k) && May(k, op) && op.Send? && Delivers(k, op)
    ensures DeliveryLeft(k, op, Step(k, op))
  {
    SendOk(k, op.ep, op.blocking, op.call, op.canGrant, op.badge, op.canGrantReply);
    SentLeaves(k, op, Step(k, op));
  }

  lemma SentLeaves(k: Kernel, op: KernelOp, r: Kernel)
    requires Shape(k) && QueuesAgree(k) && CurrentRuns(k) && op.Send? && Delivers(k, op)
    requires SendAsserts(k, k.sched.cur, op.ep)
    requires r == SendIpc(k, k.sched.cur, op.ep, op.blocking, op.call, op.canGrant, op.badge, op.canGrantReply)
    ensures DeliveryLeft(k, op, r)
  {
    assert ObjectOk(k, op.ep);
    SendLeaves(k, op.ep, op.blocking, op.call, op.canGrant, op.badge, op.canGrantReply);
  }

  lemma FaulterLeft(k: Kernel, op: KernelOp)
    requires Ok(k) && May(k, op) && op.Fault? && Delivers(k, op)
    ensures DeliveryLeft(k, op, Step(k, op))
  {
    MarkFaultOk(k);
    var m := MarkFault(k);
    SendOk(m, op.handler, true, true, op.canGrant, op.badge, true);
    FaultLeaves(k, op, Step(k, op));
  }

  lemma FaultLeaves(k: Kernel, op: KernelOp, r: Kernel)
    requires Shape(k) && QueuesAgree(k) && CurrentRuns(k) && op.Fault? && Delivers(k, op)
    requires
      var m := MarkFault(k);
      && Shape(m) && SendAsserts(m, k.sched.cur, op.handler)
      && r == SendIpc(m, k.sched.cur, op.handler, true, true, op.canGrant, op.badge, true)
    ensures DeliveryLeft(k, op, r)
  {
    assert ObjectOk(k, op.handler);
    SendLeaves(MarkFault(k), op.handler, true, true, op.canGrant, op.badge, true);
  }

  lemma FastCallerLeft(k: Kernel, op: KernelOp)
    requires Ok(k) && May(k, op) && op.FastCall? && Delivers(k, op)
    ensures DeliveryLeft(k, op, Step(k, op))
  {
    FastCallOk(k, op.ep, op.canGrant, op.badge, op.canGrantReply);
    FastLeaves(k, op, Step(k, op));
  }

  lemma FastLeaves(k: Kernel, op: KernelOp, r: Kernel)
    requires QueuesAgree(k) && CurrentRuns(k) && op.FastCall? && Delivers(k, op) && MayBeAnswered(op)
    requires HeadOf(k, op.ep) in k.tcbs && r == FastEffect(k, op.ep, op.badge)
    ensures DeliveryLeft(k, op, r)
  {
    assert ObjectOk(k, op.ep);
  }

  lemma ReceiveLeaves(k: Kernel, ep: nat, blocking: bool, grant: bool)
    requires Shape(k) && CurrentRuns(k) && IsEndpoint(k, ep) && ReceiveAsserts(k, k.sched.cur, ep)
    requires Sending(k, ep) && !SignalPending(k, k.sched.cur) && HeadOf(k, ep) in k.tcbs && HeadOf(k, ep) != k.sched.cur
    ensures
      var r, s := ReceiveIpc(k, k.sched.cur, ep, blocking, grant), HeadOf(k, ep);
      var b := k.tcbs[s].blocking;
      RunsOn(r, k.sched.cur) && CallerLeft(r, s, k.sched.cur, b.isCall, b.canGrant || b.canGrantReply, grant)
  {}

  lemma TakenLeft(k: Kernel, op: KernelOp)
    requires Ok(k) && May(k, op) && op.Receive? && Carries(k, op).Message?
    ensures TakingLeft(k, op, Step(k, op))
  {
    AfterDropOk(k);
    var d := DeleteReply(k, CallerSlot(k.sched.cur));
    ReceiveOk(d, op.ep, op.blocking, op.grant);
    TakingLeaves(k, op, d, Step(k, op));
  }

  /** The sender waited on the endpoint with the message; it is left as its record says, and the receiver runs. */
  predicate TakingLeft(k: Kernel, op: KernelOp, r: Kernel)
    requires op.Receive? && Carries(k, op).Message?
  {
    var c := Carries(k, op);
    && WaitsNow(k, c.from) && StateOf(k, c.from) == BlockedOnSend && k.tcbs[c.from].blocking.waitsOn == op.ep
    && var b := k.tcbs[c.from].blocking;
       && c.badge == b.badge && c.to == k.sched.cur && RunsOn(r, c.to)
       && CallerLeft(r, c.from, c.to, b.isCall, b.canGrant || b.canGrantReply, op.grant)
  }

  lemma TakingLeaves(k: Kernel, op: KernelOp, d: Kernel, r: Kernel)
    requires QueuesAgree(k) && op.Receive? && Carries(k, op).Message?
    requires d == DeleteReply(k, CallerSlot(k.sched.cur)) && Shape(d) && CurrentRuns(d)
    requires ReceiveAsserts(d, d.sched.cur, op.ep) && r == ReceiveIpc(d, d.sched.cur, op.ep, op.blocking, op.grant)
    ensures TakingLeft(k, op, r)
  {
    assert ObjectOk(k, op.ep);
    ReceiveLeaves(d, op.ep, op.blocking, op.grant);
  }

  // ---- over every run ----

  /** The badge, the call and the right to a reply that a sending operation was given. */
  function BadgeGiven(op: KernelOp): (b: Badge)
    requires op.Send? || op.Fault? || op.FastCall?
  {
    op.badge
  }

  /** Move i was t's own send to the endpoint that the receive at move j takes from; t has waited there since, and the
      message, its kind of call and its right to a reply are the ones t gave. */
  ghost predicate SentAt(states: seq<Kernel>, ms: seq<Move>, i: nat, j: nat)
    requires i < j < |ms| && |states| == |ms| + 1
  {
    && ms[i].Do? && ms[j].Do? && (ms[i].op.Send? || ms[i].op.Fault?) && ms[j].op.Receive?
    && var c := CarriesAt(states, ms, j);
       && c.Message? && states[i].sched.cur == c.from && Place(ms[i].op) == ms[j].op.ep
       && WaitsSince(states, i + 1, j, c.from) && c.badge == BadgeGiven(ms[i].op)
       && CallerLeft(states[j + 1], c.from, c.to, IsCall(ms[i].op), MayBeAnswered(ms[i].op), ms[j].op.grant)
  }

  /** What was received was sent. In every run a message that a receive takes is the one its sender gave, however long
      it waited in between; and the sender is left as its own operation said. */
  lemma ReceivedIsSent(k: Kernel, entries: seq<seq<KernelOp>>, j: nat)
    requires AtUserLevel(k) && RunMay(k, entries) && j < |RunMoves(entries)| && RunMoves(entries)[j].Do?
    requires RunMoves(entries)[j].op.Receive? && CarriesAt(RunStates(k, entries), RunMoves(entries), j).Message?
    ensures
      var states, ms := RunStates(k, entries), RunMoves(entries);
      WaitsSince(states, 0, j, CarriesAt(states, ms, j).from) || exists i :: 0 <= i < j && SentAt(states, ms, i, j)
  {
    RunTrace(k, entries);
    var states, ms := RunStates(k, entries), RunMoves(entries);
    TakenIsSent(states, ms, j);
  }

  lemma TakenIsSent(states: seq<Kernel>, ms: seq<Move>, j: nat)
    requires Trace(states, ms) && j < |ms| && ms[j].Do? && ms[j].op.Receive? && CarriesAt(states, ms, j).Message?
    ensures
      WaitsSince(states, 0, j, CarriesAt(states, ms, j).from) || exists i :: 0 <= i < j && SentAt(states, ms, i, j)
  {
    assert LeadsAt(states, ms, j);
    TakenLeft(states[j], ms[j].op);
    var c := CarriesAt(states, ms, j);
    var since, i := WaitHistory(states, ms, j, c.from);
    if !since {
      assert states[i + 1] == states[i + 1];
      assert SentAt(states, ms, i, j);
    }
  }

  /** Move i was the receiver's own receive on the endpoint that move j sends to; it has waited there since, and a
      caller's reply carries the right to grant that this receive was given. */
  ghost predicate AskedAt(states: seq<Kernel>, ms: seq<Move>, i: nat, j: nat)
    requires i < j < |ms| && |states| == |ms| + 1
  {
    && ms[i].Do? && ms[j].Do? && ms[i].op.Receive? && Delivers(states[j], ms[j].op)
    && var c := CarriesAt(states, ms, j);
       && states[i].sched.cur == c.to && ms[i].op.ep == Place(ms[j].op) && WaitsSince(states, i + 1, j, c.to)
       && RunsOn(states[j + 1], c.to)
       && CallerLeft(states[j + 1], c.from, c.to, IsCall(ms[j].op), MayBeAnswered(ms[j].op), ms[i].op.grant)
  }

  /** A message is delivered only to a thread that asked for one on this endpoint and has waited for it since. */
  lemma DeliveredWhereAsked(k: Kernel, entries: seq<seq<KernelOp>>, j: nat)
    requires AtUserLevel(k) && RunMay(k, entries) && j < |RunMoves(entries)| && RunMoves(entries)[j].Do?
    requires Delivers(RunStates(k, entries)[j], RunMoves(entries)[j].op)
    ensures
      var states, ms := RunStates(k, entries), RunMoves(entries);
      WaitsSince(states, 0, j, CarriesAt(states, ms, j).to) || exists i :: 0 <= i < j && AskedAt(states, ms, i, j)
  {
    RunTrace(k, entries);
    var states, ms := RunStates(k, entries), RunMoves(entries);
    DeliveredIsAsked(states, ms, j);
  }

  lemma DeliveryLeaves(k: Kernel, op: KernelOp)
    requires Ok(k) && May(k, op) && Delivers(k, op)
    ensures DeliveryLeft(k, op, Step(k, op))
  {
    if op.Send? { SenderLeft(k, op); } else if op.Fault? { FaulterLeft(k, op); } else { FastCallerLeft(k, op); }
  }

  lemma DeliveredIsAsked(states: seq<Kernel>, ms: seq<Move>, j: nat)
    requires Trace(states, ms) && j < |ms| && ms[j].Do? && Delivers(states[j], ms[j].op)
    ensures WaitsSince(states, 0, j, CarriesAt(states, ms, j).to) || exists i :: 0 <= i < j && AskedAt(states, ms, i, j)
  {
    assert LeadsAt(states, ms, j);
    DeliveryLeaves(states[j], ms[j].op);
    var c := CarriesAt(states, ms, j);
    var since, i := WaitHistory(states, ms, j, c.to);
    if !since { EnteredIsAsked(states, ms, i, j); }
  }

  lemma EnteredIsAsked(states: seq<Kernel>, ms: seq<Move>, i: nat, j: nat)
    requires i < j < |ms| && |states| == |ms| + 1 && ms[j].Do? && Delivers(states[j], ms[j].op)
    requires DeliveryLeft(states[j], ms[j].op, states[j + 1])
    requires var to := Carries(states[j], ms[j].op).to; EntersAt(states, ms, i, to) && WaitsSince(states, i + 1, j, to)
    ensures AskedAt(states, ms, i, j)
  {
    assert states[i + 1] == states[i + 1];
  }

  // ---- nothing is lost ----

  lemma SendTakenOrWaits(k: Kernel, op: KernelOp, r: Kernel)
    requires Shape(k) && QueuesAgree(k) && CurrentRuns(k) && op.Send? && IsEndpoint(k, op.ep)
    requires SendAsserts(k, k.sched.cur, op.ep)
    requires r == SendIpc(k, k.sched.cur, op.ep, op.blocking, op.call, op.canGrant, op.badge, op.canGrantReply)
    ensures Delivers(k, op) || if op.blocking then Enters(k, op, r, k.sched.cur) else r == k
  {
    assert ObjectOk(k, op.ep);
  }

  /** A message is given to a receiver, or its sender waits with it; only a sender that would not wait gives up, and
      then nothing has changed. */
  lemma SendIsSettled(k: Kernel, op: KernelOp)
    requires Ok(k) && May(k, op) && op.Send?
    ensures Delivers(k, op) || if op.blocking then Enters(k, op, Step(k, op), k.sched.cur) else Step(k, op) == k
  {
    SendOk(k, op.ep, op.blocking, op.call, op.canGrant, op.badge, op.canGrantReply);
    SendTakenOrWaits(k, op, Step(k, op));
  }

  lemma FaultIsSettled(k: Kernel, op: KernelOp)
    requires Ok(k) && May(k, op) && op.Fault?
    ensures Delivers(k, op) || Enters(k, op, Step(k, op), k.sched.cur)
  {
    MarkFaultOk(k);
    var m := MarkFault(k);
    SendOk(m, op.handler, true, true, op.canGrant, op.badge, true);
    FaultTakenOrWaits(k, op, Step(k, op));
  }

  lemma FaultTakenOrWaits(k: Kernel, op: KernelOp, r: Kernel)
    requires QueuesAgree(k) && CurrentRuns(k) && op.Fault? && IsEndpoint(k, op.handler)
    requires
      var m := MarkFault(k);
      && Shape(m) && SendAsserts(m, k.sched.cur, op.handler)
      && r == SendIpc(m, k.sched.cur, op.handler, true, true, op.canGrant, op.badge, true)
    ensures Delivers(k, op) || Enters(k, op, r, k.sched.cur)
  {
    assert ObjectOk(k, op.handler);
  }

  /** Back without a message: badge 0, and still running. */
  predicate GaveUp(r: Kernel, t: nat) {
    RunsOn(r, t) && t in r.tcbs && r.tcbs[t].badge == {}
  }

  /** The message was taken, or the receiver waits, or it came back without one. */
  predicate ReceiveSettled(k: Kernel, op: KernelOp, r: Kernel)
    requires op.Receive?
  {
    Carries(k, op).Message? || if op.blocking then Enters(k, op, r, k.sched.cur) else GaveUp(r, k.sched.cur)
  }

  lemma ReceiveTakesOrWaits(k: Kernel, op: KernelOp, r: Kernel)
    requires Shape(k) && QueuesAgree(k) && CurrentRuns(k) && op.Receive? && IsEndpoint(k, op.ep)
    requires ReceiveAsserts(k, k.sched.cur, op.ep) && r == ReceiveIpc(k, k.sched.cur, op.ep, op.blocking, op.grant)
    requires !SignalPending(k, k.sched.cur)
    ensures ReceiveSettled(k, op, r)
  {
    assert ObjectOk(k, op.ep);
  }

  lemma DropBefore(k: Kernel, slot: nat, op: KernelOp, r: Kernel)
    requires op.Receive? && ReceiveSettled(DeleteReply(k, slot), op, r)
    ensures ReceiveSettled(k, op, r)
  {}

  /** Without a signal on its bound notification, a receiver takes a message, waits, or comes back without one. */
  lemma ReceiveIsSettled(k: Kernel, op: KernelOp)
    requires Ok(k) && May(k, op) && op.Receive? && !SignalPending(k, k.sched.cur)
    ensures ReceiveSettled(k, op, Step(k, op))
  {
    AfterDropOk(k);
    var d := DeleteReply(k, CallerSlot(k.sched.cur));
    ReceiveOk(d, op.ep, op.blocking, op.grant);
    ReceiveTakesOrWaits(d, op, Step(k, op));
    DropBefore(k, CallerSlot(k.sched.cur), op, Step(k, op));
  }

  /** A pending signal is taken, leaving none; without one the thread waits, or comes back with badge 0. */
  predicate AwaitSettled(k: Kernel, op: KernelOp, r: Kernel)
    requires op.Await? && IsNotification(k, op.ntfn)
  {
    var t, n := k.sched.cur, k.objects[op.ntfn];
    if n.ntfnState == NtfnActive
    then RunsOn(r, t) && t in r.tcbs && r.tcbs[t].badge == n.word && IsNotification(r, op.ntfn)
      && r.objects[op.ntfn].ntfnState == NtfnIdle
    else if op.blocking then Enters(k, op, r, t) else GaveUp(r, t)
  }

  lemma AwaitIsSettled(k: Kernel, op: KernelOp)
    requires Ok(k) && May(k, op) && op.Await?
    ensures AwaitSettled(k, op, Step(k, op))
  {
    ReceiveSignalOk(k, op.ntfn, op.blocking);
  }

  /** Nobody waits for a new object, nothing is pending on it and it is bound to nobody; a new thread is stopped, bound
      to nothing and has no fault. */
  predicate IsBlank(r: Kernel, o: nat, kind: NewKind) {
    match kind
    case NewTcb =>
      && o in r.sched.threads && o in r.tcbs && StateOf(r, o) == Inactive
      && r.tcbs[o].boundTo == 0 && !r.tcbs[o].faulted
    case NewEndpoint => IsEndpoint(r, o) && QueueOf(r.objects[o]) == [] && r.objects[o].epState == EpIdle
    case NewNotification =>
      && IsNotification(r, o) && QueueOf(r.objects[o]) == []
      && r.objects[o].ntfnState == NtfnIdle && r.objects[o].boundTcb == 0
  }

  lemma NewIsBlank(k: Kernel, op: KernelOp)
    requires Ok(k) && May(k, op) && op.NewObject?
    ensures IsBlank(Step(k, op), op.o, op.kind)
  {}

  // ---- replies ----

  /** The reply consumes its capability and nothing else; its caller runs, unless it had faulted and the handler does
      not want it to. */
  lemma AnswerIsSettled(k: Kernel, op: KernelOp)
    requires Ok(k) && May(k, op) && op.AnswerReply?
    ensures
      var r, t := Step(k, op), k.replies[op.slot].caller;
      && r.replies == k.replies - {op.slot}
      && t in r.sched.threads
      && StateOf(r, t) == if !Faulted(k, t) then Running else if op.resume then Restart else Inactive
  {
    DoReplyOk(k, op.slot, op.resume);
  }
}
