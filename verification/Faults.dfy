/** What becomes of a recorded fault (sel4_ipc/src/transfer.rs, kernel/src/syscall/mod.rs): nothing but cancel_ipc of
    a thread that waits for a reply clears tcbFault, so a fault outlives the reply that answers it. */
module Faults {
  import opened SchedulerSpec
  import opened IpcSpec
  import opened IpcInvariants
  import opened IpcSafety
  import opened KernelExit
  import opened CallPath
  import opened IpcRuns

  /** The operation cancels t while it waits for a reply. */
  predicate Clears(k: Kernel, op: KernelOp, t: nat) {
    (op.SuspendTcb? || op.ResumeTcb?) && op.t == t && t in k.sched.threads && StateOf(k, t) == BlockedOnReply
  }

  predicate Faulted(k: Kernel, t: nat) {
    t in k.tcbs && k.tcbs[t].faulted
  }

  /** No fault changes. */
  ghost predicate FaultsKept(k: Kernel, r: Kernel) {
    r.tcbs.Keys == k.tcbs.Keys && forall t {:trigger Faulted(r, t)} :: Faulted(r, t) <==> Faulted(k, t)
  }

  lemma SendKeepsFaults(k: Kernel, ep: nat, blocking: bool, call: bool, canGrant: bool, badge: Badge,
      canGrantReply: bool)
    requires Shape(k) && k.sched.cur in k.sched.threads && IsEndpoint(k, ep) && SendAsserts(k, k.sched.cur, ep)
    ensures FaultsKept(k, SendIpc(k, k.sched.cur, ep, blocking, call, canGrant, badge, canGrantReply))
  {}

  lemma ReceiveKeepsFaults(k: Kernel, ep: nat, blocking: bool, grant: bool)
    requires Shape(k) && k.sched.cur in k.sched.threads && IsEndpoint(k, ep) && ReceiveAsserts(k, k.sched.cur, ep)
    ensures FaultsKept(k, ReceiveIpc(k, k.sched.cur, ep, blocking, grant))
  {}

  lemma SignalKeepsFaults(k: Kernel, n: nat, badge: Badge)
    requires Shape(k) && IsNotification(k, n) && SignalAsserts(k, n)
    ensures FaultsKept(k, SendSignal(k, n, badge))
  {}

  /** do_reply reads the fault and leaves it. */
  lemma ReplyKeepsFaults(k: Kernel, slot: nat, resume: bool)
    requires Shape(k) && slot in k.replies && k.replies[slot].caller in k.sched.threads
    requires StateOf(k, k.replies[slot].caller) == BlockedOnReply
    ensures FaultsKept(k, DoReply(k, slot, resume))
  {}

  lemma HandleReceiveKeepsFaults(k: Kernel, ep: nat, blocking: bool, grant: bool)
    requires Ok(k) && CurrentRuns(k) && IsEndpoint(k, ep)
    ensures FaultsKept(k, HandleReceive(k, ep, blocking, grant))
  {
    AfterDropOk(k);
    var d := DeleteReply(k, CallerSlot(k.sched.cur));
    ReceiveOk(d, ep, blocking, grant);
    ReceiveKeepsFaults(d, ep, blocking, grant);
    assert forall t :: Faulted(d, t) <==> Faulted(k, t);
  }

  lemma FastCallKeepsFaults(k: Kernel, ep: nat, badge: Badge)
    requires HasHead(k, ep) && k.sched.cur in k.sched.threads && HeadOf(k, ep) in k.tcbs
    ensures FaultsKept(k, FastEffect(k, ep, badge))
  {}

  lemma MessagesKeepFaults(k: Kernel, op: KernelOp)
    requires Ok(k) && May(k, op) && (op.Send? || op.Receive? || op.FastCall?)
    ensures FaultsKept(k, Step(k, op))
  {
    if op.Send? {
      SendOk(k, op.ep, op.blocking, op.call, op.canGrant, op.badge, op.canGrantReply);
      SendKeepsFaults(k, op.ep, op.blocking, op.call, op.canGrant, op.badge, op.canGrantReply);
    } else if op.Receive? {
      HandleReceiveKeepsFaults(k, op.ep, op.blocking, op.grant);
    } else {
      FastCallOk(k, op.ep, op.canGrant, op.badge, op.canGrantReply);
      FastCallKeepsFaults(k, op.ep, op.badge);
    }
  }

  lemma WakingKeepsFaults(k: Kernel, op: KernelOp)
    requires Ok(k) && May(k, op) && (op.CancelBadged? || op.CancelWaiters?)
    ensures FaultsKept(k, Step(k, op))
  {}

  lemma WaitingKeepsFaults(k: Kernel, op: KernelOp)
    requires Ok(k) && May(k, op) && (op.Stop? || op.Await?)
    ensures FaultsKept(k, Step(k, op))
  {}

  lemma TablesKeepFaults(k: Kernel, op: KernelOp)
    requires Ok(k) && May(k, op) && (op.BindNtfn? || op.UnbindNtfn?)
    ensures FaultsKept(k, Step(k, op))
  {}

  lemma OthersKeepFaults(k: Kernel, op: KernelOp)
    requires Ok(k) && May(k, op) && (op.DropReply? || op.SaveReply? || op.Schedule?)
    ensures FaultsKept(k, Step(k, op))
  {}

  /** After an operation t has a fault exactly if it had one and was not cancelled while waiting for a reply, or just
      faulted. */
  lemma FaultAfter(k: Kernel, op: KernelOp, t: nat)
    requires Ok(k) && May(k, op)
    ensures Faulted(Step(k, op), t) <==> (Faulted(k, t) && !Clears(k, op, t)) || (op.Fault? && t == k.sched.cur)
  {
    if op.Send? || op.Receive? || op.FastCall? { MessagesKeepFaults(k, op); }
    else if op.Fault? { FaultRecorded(k, op, t); }
    else if op.SuspendTcb? || op.ResumeTcb? { ThreadControlClears(k, op, t); }
    else if op.Signal? { SignalOk(k, op.ntfn, op.badge); SignalKeepsFaults(k, op.ntfn, op.badge); }
    else if op.AnswerReply? { assert ReplyOk(k, op.slot); ReplyKeepsFaults(k, op.slot, op.resume); }
    else if op.CancelBadged? || op.CancelWaiters? { WakingKeepsFaults(k, op); }
    else if op.Stop? || op.Await? { WaitingKeepsFaults(k, op); }
    else if op.BindNtfn? || op.UnbindNtfn? { TablesKeepFaults(k, op); }
    else if op.NewObject? { CreateFaults(k, op, t); }
    else { OthersKeepFaults(k, op); }
  }

  lemma CreateFaults(k: Kernel, op: KernelOp, t: nat)
    requires Ok(k) && May(k, op) && op.NewObject?
    ensures Faulted(Step(k, op), t) <==> Faulted(k, t)
  {}

  lemma FaultRecorded(k: Kernel, op: KernelOp, t: nat)
    requires Ok(k) && May(k, op) && op.Fault?
    ensures Faulted(Step(k, op), t) <==> Faulted(k, t) || t == k.sched.cur
  {
    MarkFaultOk(k);
    SendOk(MarkFault(k), op.handler, true, true, op.canGrant, op.badge, true);
    SendKeepsFaults(MarkFault(k), op.handler, true, true, op.canGrant, op.badge, true);
    FaultMarked(k, t);
  }

  lemma FaultMarked(k: Kernel, t: nat)
    requires k.sched.cur in k.tcbs
    ensures Faulted(MarkFault(k), t) <==> Faulted(k, t) || t == k.sched.cur
  {}

  lemma ThreadControlClears(k: Kernel, op: KernelOp, t: nat)
    requires Ok(k) && May(k, op) && (op.SuspendTcb? || op.ResumeTcb?)
    ensures Faulted(Step(k, op), t) <==> Faulted(k, t) && !Clears(k, op, t)
  {
    assert ThreadOk(k, op.t);
  }

  // ---- messages ----

  datatype Kind = Normal | FaultMessage

  datatype Carried = NoMessage | Message(from: nat, to: nat, badge: Badge, kind: Kind)

  /** do_ipc_transfer: what a message from t is. */
  function KindOf(k: Kernel, t: nat): (m: Kind) {
    if Faulted(k, t) then FaultMessage else Normal
  }

  /** The message that an operation carries over, from the thread that has it to the one that gets it. */
  function Carries(k: Kernel, op: KernelOp): (c: Carried) {
    match op
    case Send(ep, _, _, _, badge, _) =>
      if Receiving(k, ep) then Message(k.sched.cur, HeadOf(k, ep), badge, KindOf(k, k.sched.cur)) else NoMessage
    case Fault(ep, _, badge) =>
      if Receiving(k, ep) then Message(k.sched.cur, HeadOf(k, ep), badge, FaultMessage) else NoMessage
    case FastCall(ep, _, badge, _) =>
      if Receiving(k, ep) then Message(k.sched.cur, HeadOf(k, ep), badge, Normal) else NoMessage
    case Receive(ep, _, _) =>
      if Sending(k, ep) && k.sched.cur in k.tcbs && !SignalPending(k, k.sched.cur) && HeadOf(k, ep) in k.tcbs
      then Message(HeadOf(k, ep), k.sched.cur, k.tcbs[HeadOf(k, ep)].blocking.badge, KindOf(k, HeadOf(k, ep)))
      else NoMessage
    case AnswerReply(slot, _) =>
      if slot in k.replies && !Faulted(k, k.replies[slot].caller)
      then Message(k.sched.cur, k.replies[slot].caller, {}, KindOf(k, k.sched.cur)) else NoMessage
    case _ => NoMessage
  }

  predicate Receiving(k: Kernel, ep: nat) {
    IsEndpoint(k, ep) && k.objects[ep].epState == EpRecv && HasHead(k, ep)
  }

  predicate Sending(k: Kernel, ep: nat) {
    IsEndpoint(k, ep) && k.objects[ep].epState == EpSend && HasHead(k, ep)
  }

  /** The receiver has the badge of the message in its register. */
  predicate Arrived(r: Kernel, c: Carried) {
    c.Message? ==> c.to in r.tcbs && r.tcbs[c.to].badge == c.badge
  }

  lemma SendArrives(k: Kernel, ep: nat, blocking: bool, call: bool, canGrant: bool, badge: Badge, canGrantReply: bool)
    requires Shape(k) && k.sched.cur in k.sched.threads && IsEndpoint(k, ep) && SendAsserts(k, k.sched.cur, ep)
    requires Receiving(k, ep)
    ensures
      var r := SendIpc(k, k.sched.cur, ep, blocking, call, canGrant, badge, canGrantReply);
      HeadOf(k, ep) in r.tcbs && r.tcbs[HeadOf(k, ep)].badge == badge
  {}

  lemma ReceiveArrives(k: Kernel, ep: nat, blocking: bool, grant: bool)
    requires Shape(k) && k.sched.cur in k.sched.threads && IsEndpoint(k, ep) && ReceiveAsserts(k, k.sched.cur, ep)
    requires Sending(k, ep) && !SignalPending(k, k.sched.cur) && HeadOf(k, ep) in k.tcbs
    ensures
      var r := ReceiveIpc(k, k.sched.cur, ep, blocking, grant);
      k.sched.cur in r.tcbs && r.tcbs[k.sched.cur].badge == k.tcbs[HeadOf(k, ep)].blocking.badge
  {}

  lemma SentArrives(k: Kernel, op: KernelOp)
    requires Ok(k) && May(k, op) && op.Send?
    ensures Arrived(Step(k, op), Carries(k, op))
  {
    SendOk(k, op.ep, op.blocking, op.call, op.canGrant, op.badge, op.canGrantReply);
    if Receiving(k, op.ep) { SendArrives(k, op.ep, op.blocking, op.call, op.canGrant, op.badge, op.canGrantReply); }
  }

  lemma FastArrives(k: Kernel, op: KernelOp)
    requires Ok(k) && May(k, op) && op.FastCall?
    ensures Arrived(Step(k, op), Carries(k, op))
  {
    FastCallOk(k, op.ep, op.canGrant, op.badge, op.canGrantReply);
  }

  lemma FaultArrives(k: Kernel, op: KernelOp)
    requires Ok(k) && May(k, op) && op.Fault?
    ensures Arrived(Step(k, op), Carries(k, op))
  {
    MarkFaultOk(k);
    var m := MarkFault(k);
    SendOk(m, op.handler, true, true, op.canGrant, op.badge, true);
    if Receiving(m, op.handler) { SendArrives(m, op.handler, true, true, op.canGrant, op.badge, true); }
  }

  lemma TakenArrives(k: Kernel, op: KernelOp)
    requires Ok(k) && May(k, op) && op.Receive?
    ensures Arrived(Step(k, op), Carries(k, op))
  {
    AfterDropOk(k);
    var d := DeleteReply(k, CallerSlot(k.sched.cur));
    ReceiveOk(d, op.ep, op.blocking, op.grant);
    if Carries(k, op).Message? { ReceiveArrives(d, op.ep, op.blocking, op.grant); }
  }

  lemma ReplyArrives(k: Kernel, op: KernelOp)
    requires Ok(k) && May(k, op) && op.AnswerReply?
    ensures Arrived(Step(k, op), Carries(k, op))
  {
    assert ReplyOk(k, op.slot);
  }

  lemma CarriedArrives(k: Kernel, op: KernelOp)
    requires Ok(k) && May(k, op)
    ensures Arrived(Step(k, op), Carries(k, op))
  {
    if op.Send? { SentArrives(k, op); }
    else if op.FastCall? { FastArrives(k, op); }
    else if op.Fault? { FaultArrives(k, op); }
    else if op.Receive? { TakenArrives(k, op); }
    else if op.AnswerReply? { ReplyArrives(k, op); }
  }

  // ---- over runs ----

  /** Move i cancels t while it waits for a reply. */
  predicate ClearsAt(states: seq<Kernel>, ms: seq<Move>, i: nat, t: nat)
    requires i < |ms| < |states|
  {
    ms[i].Do? && Clears(states[i], ms[i].op, t)
  }

  /** Move i is a fault of t. */
  predicate FaultsAt(states: seq<Kernel>, ms: seq<Move>, i: nat, t: nat)
    requires i < |ms| < |states|
  {
    ms[i].Do? && ms[i].op.Fault? && states[i].sched.cur == t
  }

  predicate NotCleared(states: seq<Kernel>, ms: seq<Move>, from: nat, to: nat, t: nat)
    requires to <= |ms| < |states|
  {
    forall i {:trigger ClearsAt(states, ms, i, t)} :: from <= i < to ==> !ClearsAt(states, ms, i, t)
  }

  /** Before move j there was a fault of t, and t has not been cancelled while waiting for a reply since. */
  predicate FaultOpen(states: seq<Kernel>, ms: seq<Move>, j: nat, t: nat)
    requires j <= |ms| < |states|
  {
    || (Faulted(states[0], t) && NotCleared(states, ms, 0, j, t))
    || exists i {:trigger FaultsAt(states, ms, i, t)} ::
         0 <= i < j && FaultsAt(states, ms, i, t) && NotCleared(states, ms, i + 1, j, t)
  }

  lemma FaultAfterMove(k: Kernel, m: Move, t: nat)
    requires Ok(k) && MayMove(k, m)
    ensures Faulted(Moved(k, m), t) <==>
      (Faulted(k, t) && !(m.Do? && Clears(k, m.op, t))) || (m.Do? && m.op.Fault? && t == k.sched.cur)
  {
    match m
    case Do(op) => FaultAfter(k, op, t);
    case Exit => LeaveKeeps(k);
  }

  lemma FaultNext(states: seq<Kernel>, ms: seq<Move>, j: nat, t: nat)
    requires j < |ms| && Trace(states, ms)
    ensures Faulted(states[j + 1], t) <==>
      (Faulted(states[j], t) && !ClearsAt(states, ms, j, t)) || FaultsAt(states, ms, j, t)
  {
    assert LeadsAt(states, ms, j);
    FaultAfterMove(states[j], ms[j], t);
  }

  lemma OpenNext(states: seq<Kernel>, ms: seq<Move>, j: nat, t: nat)
    requires j < |ms| < |states|
    ensures FaultOpen(states, ms, j + 1, t) <==>
      (FaultOpen(states, ms, j, t) && !ClearsAt(states, ms, j, t)) || FaultsAt(states, ms, j, t)
  {
    if FaultsAt(states, ms, j, t) {
      assert NotCleared(states, ms, j + 1, j + 1, t);
    } else if FaultOpen(states, ms, j + 1, t) {
      assert !ClearsAt(states, ms, j, t);
    }
  }

  /** At every point of a run a thread has a fault exactly if one is open. */
  lemma {:induction false} FaultHistory(states: seq<Kernel>, ms: seq<Move>, j: nat, t: nat)
    requires Trace(states, ms) && j <= |ms|
    ensures Faulted(states[j], t) <==> FaultOpen(states, ms, j, t)
    decreases j
  {
    if j > 0 {
      FaultHistory(states, ms, j - 1, t);
      FaultNext(states, ms, j - 1, t);
      OpenNext(states, ms, j - 1, t);
    }
  }

  lemma KindIsFault(k: Kernel, op: KernelOp)
    requires Ok(k) && May(k, op) && Carries(k, op).Message?
    ensures
      var c := Carries(k, op);
      c.kind == FaultMessage <==> Faulted(k, c.from) || (op.Fault? && k.sched.cur == c.from)
  {
  }

  /** The message that move j carries. */
  function CarriesAt(states: seq<Kernel>, ms: seq<Move>, j: nat): (c: Carried)
    requires j < |ms| < |states|
  {
    if ms[j].Do? then Carries(states[j], ms[j].op) else NoMessage
  }

  lemma CarriedAt(states: seq<Kernel>, ms: seq<Move>, j: nat)
    requires j < |ms| && Trace(states, ms)
    ensures Arrived(states[j + 1], CarriesAt(states, ms, j))
    ensures
      var c := CarriesAt(states, ms, j);
      c.Message? ==> (c.kind == FaultMessage <==> Faulted(states[j], c.from) || FaultsAt(states, ms, j, c.from))
  {
    assert LeadsAt(states, ms, j);
    if ms[j].Do? {
      CarriedArrives(states[j], ms[j].op);
      if Carries(states[j], ms[j].op).Message? { KindIsFault(states[j], ms[j].op); }
    }
  }

  /** In every run of kernel entries a message is a fault message exactly if the sender just faulted or has a fault
      open, whether or not that fault has been answered since. */
  lemma MessageIsFaultIff(k: Kernel, entries: seq<seq<KernelOp>>, j: nat)
    requires AtUserLevel(k) && RunMay(k, entries) && j < |RunMoves(entries)|
    ensures
      var states, ms := RunStates(k, entries), RunMoves(entries);
      var c := CarriesAt(states, ms, j);
      && Arrived(states[j + 1], c)
      && (c.Message? ==>
        (c.kind == FaultMessage <==> FaultOpen(states, ms, j, c.from) || FaultsAt(states, ms, j, c.from)))
  {
    RunTrace(k, entries);
    var states, ms := RunStates(k, entries), RunMoves(entries);
    CarriedAt(states, ms, j);
    if CarriesAt(states, ms, j).Message? { FaultHistory(states, ms, j, CarriesAt(states, ms, j).from); }
  }

  /** Move i answers a fault of t. */
  predicate AnswersAt(states: seq<Kernel>, ms: seq<Move>, i: nat, t: nat)
    requires i < |ms| < |states|
  {
    && ms[i].Do? && ms[i].op.AnswerReply? && ms[i].op.slot in states[i].replies
    && states[i].replies[ms[i].op.slot].caller == t && Faulted(states[i], t)
  }

  /** So a reply does not end a fault: after it has been answered, every message from t is a fault message until t is
      cancelled while it waits for a reply. */
  lemma AnsweredFaultIsSentAgain(k: Kernel, entries: seq<seq<KernelOp>>, i: nat, j: nat, t: nat)
    requires AtUserLevel(k) && RunMay(k, entries) && i < j < |RunMoves(entries)|
    requires AnswersAt(RunStates(k, entries), RunMoves(entries), i, t)
    requires NotCleared(RunStates(k, entries), RunMoves(entries), i, j, t)
    ensures
      var c := CarriesAt(RunStates(k, entries), RunMoves(entries), j);
      c.Message? && c.from == t ==> c.kind == FaultMessage
  {
    RunTrace(k, entries);
    var states, ms := RunStates(k, entries), RunMoves(entries);
    FaultKept(states, ms, i, j, t);
    CarriedAt(states, ms, j);
  }

  lemma {:induction false} FaultKept(states: seq<Kernel>, ms: seq<Move>, i: nat, j: nat, t: nat)
    requires Trace(states, ms) && i <= j <= |ms| && Faulted(states[i], t) && NotCleared(states, ms, i, j, t)
    ensures Faulted(states[j], t)
    decreases j - i
  {
    if i < j {
      assert !ClearsAt(states, ms, i, t);
      FaultNext(states, ms, i, t);
      FaultKept(states, ms, i + 1, j, t);
    }
  }
}
