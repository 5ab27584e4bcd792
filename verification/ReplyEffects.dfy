/** What each kernel operation does to reply capabilities in their slots, as the code does it: cancel_ipc goes
    through the link behind the master (sel4_task/src/tcb.rs, sel4_ipc/src/transfer.rs). */
module ReplyEffects {
  import opened Containers
  import opened SchedulerSpec
  import opened SchedulerRuns
  import opened IpcSpec
  import opened IpcInvariants
  import opened IpcSafety
  import opened KernelExit
  import opened CallPath
  import opened IpcRuns
  import opened ReplySlots

  // ---- what an operation does to the capability space ----

  datatype Effect =
    | Insert(sender: nat, receiver: nat, grant: bool)   // setup_caller_cap
    | Delete(slot: nat)                                 // cte_delete_one of a reply capability
    | Cancel(thread: nat)                               // cancel_ipc of a thread that waits for a reply
    | Transfer(from: nat, to: nat)                      // cte_move of a reply capability
    | Master(thread: nat)                               // setup_reply_master

  ghost predicate Effected(d: Db, d': Db, e: Effect) {
    match e
    case Insert(sender, receiver, grant) => ReplyInserted(d, d', sender, CallerSlot(receiver), grant)
    case Delete(slot) => ReplyDeleted(d, d', slot)
    case Cancel(t) => NextDeleted(d, d', t)
    case Transfer(from, to) => ReplyMoved(d, d', from, to)
    case Master(t) => MasterWritten(d, d', t)
  }

  /** One effect after the other. */
  ghost predicate AllEffected(d: Db, d': Db, es: seq<Effect>)
    decreases |es|
  {
    if es == [] then d' == d else exists m :: Effected(d, m, es[0]) && AllEffected(m, d', es[1..])
  }

  /** send_ipc comes to setup_caller_cap if a receiver waits and the caller may be answered. */
  function SendEffects(k: Kernel, src: nat, ep: nat, call: bool, mayReply: bool): (es: seq<Effect>)
    requires Shape(k) && ep in k.objects && k.objects[ep].Endpoint?
    requires (k.objects[ep].epState == EpRecv ==> HasHead(k, ep))
  {
    if k.objects[ep].epState == EpRecv && call && mayReply
    then var dest := QueueOf(k.objects[ep])[0]; [Insert(src, dest, k.tcbs[dest].blocking.canGrant)]
    else []
  }

  /** receive_ipc comes to setup_caller_cap if a caller waits that may be answered. */
  function AcceptEffects(k: Kernel, t: nat, ep: nat, grant: bool): (es: seq<Effect>)
    requires Shape(k) && t in k.sched.threads && ep in k.objects && k.objects[ep].Endpoint?
    requires (k.objects[ep].epState == EpSend ==> HasHead(k, ep))
  {
    if !SignalPending(k, t) && k.objects[ep].epState == EpSend
    then
      var sender := QueueOf(k.objects[ep])[0];
      var b := k.tcbs[sender].blocking;
      if b.isCall && (b.canGrant || b.canGrantReply) then [Insert(sender, t, grant)] else []
    else []
  }

  /** handle_recv empties the caller slot first. */
  function ReceiveEffects(k: Kernel, ep: nat, grant: bool): (es: seq<Effect>)
    requires Shape(k) && k.sched.cur in k.sched.threads && ep in k.objects && k.objects[ep].Endpoint?
    requires (k.objects[ep].epState == EpSend ==> HasHead(k, ep))
  {
    [Delete(CallerSlot(k.sched.cur))] + AcceptEffects(k, k.sched.cur, ep, grant)
  }

  function CancelEffects(k: Kernel, t: nat): (es: seq<Effect>)
    requires t in k.sched.threads
  {
    if StateOf(k, t) == BlockedOnReply then [Cancel(t)] else []
  }

  ghost function EffectsOf(k: Kernel, op: KernelOp): (es: seq<Effect>)
    requires Ok(k) && May(k, op)
  {
    match op
    case Send(ep, _, call, canGrant, _, canGrantReply) =>
      assert ObjectOk(k, ep); SendEffects(k, k.sched.cur, ep, call, canGrant || canGrantReply)
    case Fault(ep, _, _) => assert ObjectOk(k, ep); SendEffects(k, k.sched.cur, ep, true, true)
    case Receive(ep, _, grant) => assert ObjectOk(k, ep); ReceiveEffects(k, ep, grant)
    case AnswerReply(slot, _) => [Delete(slot)]
    case SuspendTcb(t) => CancelEffects(k, t)
    case ResumeTcb(t) =>
      assert ThreadOk(k, t);
      CancelEffects(k, t) + if IsStoppedState(StateOf(CancelIpc(k, t), t)) then [Master(t)] else []
    case DropReply(slot) => if slot in k.replies then [Delete(slot)] else []
    case SaveReply(from, to) => [Transfer(from, to)]
    case FastCall(ep, _, _, _) => [Insert(k.sched.cur, HeadOf(k, ep), k.tcbs[HeadOf(k, ep)].blocking.canGrant)]
    case _ => []
  }

  // ---- the same, seen by IPC ----

  function RepliesAfter(r: map<nat, Reply>, e: Effect): (r': map<nat, Reply>) {
    match e
    case Insert(sender, receiver, grant) => r[CallerSlot(receiver) := Reply(sender, grant)]
    case Delete(slot) => map s | s in r && s != slot :: r[s]
    case Cancel(t) => map s | s in r && r[s].caller != t :: r[s]
    case Transfer(from, to) => if from in r then (map s | s in r && s != from :: r[s])[to := r[from]] else r
    case Master(_) => r
  }

  function MastersAfter(m: set<nat>, e: Effect): (m': set<nat>) {
    if e.Master? then m + {e.thread} else m
  }

  function AllReplies(r: map<nat, Reply>, es: seq<Effect>): (r': map<nat, Reply>)
    decreases |es|
  {
    if es == [] then r else AllReplies(RepliesAfter(r, es[0]), es[1..])
  }

  function AllMasters(m: set<nat>, es: seq<Effect>): (m': set<nat>)
    decreases |es|
  {
    if es == [] then m else AllMasters(MastersAfter(m, es[0]), es[1..])
  }

  lemma Unfold1(r: map<nat, Reply>, m: set<nat>, e: Effect)
    ensures AllReplies(r, [e]) == RepliesAfter(r, e) && AllMasters(m, [e]) == MastersAfter(m, e)
  {
    assert [e][1..] == [];
  }

  lemma Unfold2(r: map<nat, Reply>, m: set<nat>, e: Effect, f: Effect)
    ensures AllReplies(r, [e] + [f]) == RepliesAfter(RepliesAfter(r, e), f)
    ensures AllMasters(m, [e] + [f]) == MastersAfter(MastersAfter(m, e), f)
  {
    assert ([e] + [f])[1..] == [f];
    Unfold1(RepliesAfter(r, e), MastersAfter(m, e), f);
  }

  /** Kernel r has the replies and masters of k after the effects. */
  ghost predicate Follows(k: Kernel, r: Kernel, es: seq<Effect>) {
    r.replies == AllReplies(k.replies, es) && r.masters == AllMasters(k.masters, es)
  }

  lemma SendFollows(k: Kernel, src: nat, ep: nat, blocking: bool, call: bool, canGrant: bool, badge: Badge,
      canGrantReply: bool)
    requires Shape(k) && src == k.sched.cur && src in k.sched.threads && ep in k.objects && k.objects[ep].Endpoint?
    requires SendAsserts(k, src, ep)
    ensures Follows(k, SendIpc(k, src, ep, blocking, call, canGrant, badge, canGrantReply),
      SendEffects(k, k.sched.cur, ep, call, canGrant || canGrantReply))
  {
    var es := SendEffects(k, k.sched.cur, ep, call, canGrant || canGrantReply);
    if es != [] { Unfold1(k.replies, k.masters, es[0]); }
  }

  lemma ReceiveFollows(k: Kernel, ep: nat, blocking: bool, grant: bool)
    requires Ok(k) && CurrentRuns(k) && IsEndpoint(k, ep) && (k.objects[ep].epState == EpSend ==> HasHead(k, ep))
    ensures Follows(k, HandleReceive(k, ep, blocking, grant), ReceiveEffects(k, ep, grant))
  {
    AfterDropOk(k);
    var es := ReceiveEffects(k, ep, grant);
    var d := DeleteReply(k, CallerSlot(k.sched.cur));
    assert d.replies == RepliesAfter(k.replies, es[0]);
    if |es| == 1 {
      Unfold1(k.replies, k.masters, es[0]);
    } else {
      assert es == [es[0]] + [es[1]];
      Unfold2(k.replies, k.masters, es[0], es[1]);
    }
  }

  lemma CancelFollows(k: Kernel, t: nat)
    requires Shape(k) && t in k.sched.threads && (IsWaiting(StateOf(k, t)) ==> WaitsSomewhere(k, t))
    ensures Follows(k, CancelIpc(k, t), CancelEffects(k, t))
  {
    var es := CancelEffects(k, t);
    if es != [] { Unfold1(k.replies, k.masters, es[0]); }
  }

  lemma ResumeFollows(k: Kernel, t: nat)
    requires Shape(k) && t in k.sched.threads && (IsWaiting(StateOf(k, t)) ==> WaitsSomewhere(k, t))
    ensures Follows(k, ResumeThread(k, t),
      CancelEffects(k, t) + if IsStoppedState(StateOf(CancelIpc(k, t), t)) then [Master(t)] else [])
  {
    CancelFollows(k, t);
    var es := CancelEffects(k, t);
    if IsStoppedState(StateOf(CancelIpc(k, t), t)) {
      Unfold1(k.replies, k.masters, Master(t));
      Unfold2(k.replies, k.masters, Cancel(t), Master(t));
      assert [] + [Master(t)] == [Master(t)];
    } else {
      assert es + [] == es;
    }
  }

  lemma FaultFollows(k: Kernel, ep: nat, canGrant: bool, badge: Badge)
    requires Ok(k) && CurrentRuns(k) && IsEndpoint(k, ep)
    ensures Follows(k, HandleFault(k, ep, canGrant, badge), EffectsOf(k, Fault(ep, canGrant, badge)))
  {
    assert ObjectOk(k, ep);
    MarkFaultOk(k);
    SendOk(MarkFault(k), ep, true, true, canGrant, badge, true);
    SendFollows(MarkFault(k), k.sched.cur, ep, true, true, canGrant, badge, true);
  }

  lemma MessagesFollow(k: Kernel, op: KernelOp)
    requires Ok(k) && May(k, op) && (op.Send? || op.Fault? || op.Receive?)
    ensures Follows(k, Step(k, op), EffectsOf(k, op))
  {
    match op
    case Send(ep, blocking, call, canGrant, badge, canGrantReply) =>
      SendOk(k, ep, blocking, call, canGrant, badge, canGrantReply);
      SendFollows(k, k.sched.cur, ep, blocking, call, canGrant, badge, canGrantReply);
    case Fault(ep, canGrant, badge) => FaultFollows(k, ep, canGrant, badge);
    case Receive(ep, blocking, grant) => assert ObjectOk(k, ep); ReceiveFollows(k, ep, blocking, grant);
  }

  lemma AnswerFollows(k: Kernel, slot: nat, resume: bool)
    requires Shape(k) && slot in k.replies && k.replies[slot].caller in k.sched.threads
    requires StateOf(k, k.replies[slot].caller) == BlockedOnReply
    ensures Follows(k, DoReply(k, slot, resume), [Delete(slot)])
  {
    Unfold1(k.replies, k.masters, Delete(slot));
  }

  lemma FastCallFollows(k: Kernel, ep: nat, badge: Badge)
    requires HasHead(k, ep) && k.sched.cur in k.sched.threads && HeadOf(k, ep) in k.tcbs
    ensures Follows(k, FastEffect(k, ep, badge),
      [Insert(k.sched.cur, HeadOf(k, ep), k.tcbs[HeadOf(k, ep)].blocking.canGrant)])
  {
    Unfold1(k.replies, k.masters, Insert(k.sched.cur, HeadOf(k, ep), k.tcbs[HeadOf(k, ep)].blocking.canGrant));
  }

  lemma RepliesFollow(k: Kernel, op: KernelOp)
    requires Ok(k) && May(k, op) && (op.DropReply? || op.SaveReply?)
    ensures Follows(k, Step(k, op), EffectsOf(k, op))
  {
    match op
    case DropReply(slot) =>
      Unfold1(k.replies, k.masters, Delete(slot));
      assert slot !in k.replies ==> DeleteReply(k, slot).replies == k.replies;
    case SaveReply(from, to) => Unfold1(k.replies, k.masters, Transfer(from, to));
  }

  lemma ThreadsFollow(k: Kernel, op: KernelOp)
    requires Ok(k) && May(k, op) && (op.SuspendTcb? || op.ResumeTcb?)
    ensures Follows(k, Step(k, op), EffectsOf(k, op))
  {
    assert ThreadOk(k, op.t);
    if op.SuspendTcb? { CancelFollows(k, op.t); } else { ResumeFollows(k, op.t); }
  }

  predicate SameReplies(k: Kernel, r: Kernel) {
    r.replies == k.replies && r.masters == k.masters
  }

  lemma SignalsIndifferent(k: Kernel, op: KernelOp)
    requires Ok(k) && May(k, op) && op.Signal?
    ensures SameReplies(k, Step(k, op))
  {
    SignalOk(k, op.ntfn, op.badge);
  }

  lemma CancelsIndifferent(k: Kernel, op: KernelOp)
    requires Ok(k) && May(k, op) && (op.CancelBadged? || op.CancelWaiters?)
    ensures SameReplies(k, Step(k, op))
  {}

  lemma BindingsIndifferent(k: Kernel, op: KernelOp)
    requires Ok(k) && May(k, op) && (op.BindNtfn? || op.UnbindNtfn?)
    ensures SameReplies(k, Step(k, op))
  {}

  lemma WaitsIndifferent(k: Kernel, op: KernelOp)
    requires Ok(k) && May(k, op) && (op.Stop? || op.Await?)
    ensures SameReplies(k, Step(k, op))
  {}

  lemma OthersIndifferent(k: Kernel, op: KernelOp)
    requires Ok(k) && May(k, op) && (op.Schedule? || op.NewObject?)
    ensures SameReplies(k, Step(k, op))
  {}

  /** The operations of IPC change replies and masters by exactly these effects. */
  lemma StepFollows(k: Kernel, op: KernelOp)
    requires Ok(k) && May(k, op)
    ensures Follows(k, Step(k, op), EffectsOf(k, op))
  {
    if op.Send? || op.Fault? || op.Receive? { MessagesFollow(k, op); }
    else if op.AnswerReply? { assert ReplyOk(k, op.slot); AnswerFollows(k, op.slot, op.resume); }
    else if op.DropReply? || op.SaveReply? { RepliesFollow(k, op); }
    else if op.SuspendTcb? || op.ResumeTcb? { ThreadsFollow(k, op); }
    else if op.Signal? { SignalsIndifferent(k, op); }
    else if op.CancelBadged? || op.CancelWaiters? { CancelsIndifferent(k, op); }
    else if op.BindNtfn? || op.UnbindNtfn? { BindingsIndifferent(k, op); }
    else if op.FastCall? {
      FastCallOk(k, op.ep, op.canGrant, op.badge, op.canGrantReply);
      FastCallFollows(k, op.ep, op.badge);
    }
    else if op.Stop? || op.Await? { WaitsIndifferent(k, op); }
    else { OthersIndifferent(k, op); }
  }

  // ---- a started thread was started before ----

  predicate Started(k: Kernel, t: nat) {
    t in k.sched.threads && t != k.sched.idle && StateOf(k, t) != Inactive
  }

  /** No thread is started on the way from k to r. */
  ghost predicate NoneStarted(k: Kernel, r: Kernel) {
    k.sched.threads.Keys <= r.sched.threads.Keys && r.sched.idle == k.sched.idle
    && forall t {:trigger Started(r, t)} :: Started(r, t) ==> Started(k, t)
  }

  lemma SendStartsNone(k: Kernel, ep: nat, blocking: bool, call: bool, canGrant: bool, badge: Badge,
      canGrantReply: bool)
    requires Ok(k) && CurrentRuns(k) && IsEndpoint(k, ep) && SendAsserts(k, k.sched.cur, ep)
    ensures NoneStarted(k, SendIpc(k, k.sched.cur, ep, blocking, call, canGrant, badge, canGrantReply))
  {
    assert ObjectOk(k, ep);
  }

  lemma ReceiveStartsNone(k: Kernel, ep: nat, blocking: bool, grant: bool)
    requires Ok(k) && CurrentRuns(k) && IsEndpoint(k, ep) && ReceiveAsserts(k, k.sched.cur, ep)
    ensures NoneStarted(k, ReceiveIpc(k, k.sched.cur, ep, blocking, grant))
  {
    assert ObjectOk(k, ep);
  }

  lemma SignalStartsNone(k: Kernel, n: nat, badge: Badge)
    requires Ok(k) && IsNotification(k, n) && SignalAsserts(k, n)
    ensures NoneStarted(k, SendSignal(k, n, badge))
  {
    assert ObjectOk(k, n);
  }

  lemma ReplyStartsNone(k: Kernel, slot: nat, resume: bool)
    requires Ok(k) && slot in k.replies && k.replies[slot].caller in k.sched.threads
    requires StateOf(k, k.replies[slot].caller) == BlockedOnReply
    ensures NoneStarted(k, DoReply(k, slot, resume))
  {}

  lemma WakeStartsNone(k: Kernel, o: nat, keep: seq<nat>, ts: seq<nat>)
    requires Ok(k) && o in k.objects && forall t :: t in ts ==> t in QueueOf(k.objects[o])
    requires forall i :: 0 <= i < |ts| ==> ts[i] in k.sched.threads
    ensures NoneStarted(k, WakeWaiters(k, o, keep, ts))
  {
    assert ObjectOk(k, o);
    WakeWaitersMid(k, o, keep, ts);
    MidIsReady(k.sched);
    ReadyAllReady(k.sched, ts);
    var r := WakeWaiters(k, o, keep, ts);
    forall t | Started(r, t)
      ensures Started(k, t)
    {
      WakeWaitersEffect(k, o, keep, ts, t);
    }
  }

  lemma CancelsStartNone(k: Kernel, op: KernelOp)
    requires Ok(k) && May(k, op) && (op.CancelBadged? || op.CancelWaiters?)
    ensures NoneStarted(k, Step(k, op))
  {
    var o := if op.CancelWaiters? then op.o else op.ep;
    assert ObjectOk(k, o);
    var q := QueueOf(k.objects[o]);
    if op.CancelWaiters? {
      WakeStartsNone(k, o, [], q);
    } else {
      WakeStartsNone(k, o, WithBadge(k.tcbs, q, op.badge, false), WithBadge(k.tcbs, q, op.badge, true));
    }
  }

  lemma SuspendStartsNone(k: Kernel, t: nat)
    requires Ok(k) && t in k.sched.threads && t != k.sched.idle && (IsWaiting(StateOf(k, t)) ==> WaitsSomewhere(k, t))
    ensures NoneStarted(k, SuspendThread(k, t))
  {}

  lemma ResumeStartsOne(k: Kernel, t: nat)
    requires Ok(k) && t in k.sched.threads && t != k.sched.idle && (IsWaiting(StateOf(k, t)) ==> WaitsSomewhere(k, t))
    ensures var r := ResumeThread(k, t); r.sched.threads.Keys == k.sched.threads.Keys && r.sched.idle == k.sched.idle
    ensures forall x {:trigger Started(ResumeThread(k, t), x)} :: Started(ResumeThread(k, t), x) ==>
      x == t || Started(k, x)
  {}

  lemma FastCallStartsNone(k: Kernel, ep: nat, badge: Badge)
    requires Ok(k) && IsEndpoint(k, ep) && HasHead(k, ep) && HeadOf(k, ep) in k.tcbs && k.sched.cur in k.sched.threads
    requires k.sched.cur != k.sched.idle
    requires StateOf(k, k.sched.cur) != Inactive
    ensures NoneStarted(k, FastEffect(k, ep, badge))
  {
    assert ObjectOk(k, ep);
  }

  lemma PlainStartsNone(k: Kernel, op: Op)
    requires Ok(k) && Plain(op) && Allowed(k.sched, op)
    ensures NoneStarted(k, k.(sched := Apply(k.sched, op)))
  {
    StepMid(k.sched, op);
    PlainEffect(k.sched, op);
    var s' := Apply(k.sched, op);
    forall t | Started(k.(sched := s'), t)
      ensures Started(k, t)
    {
      assert SameForIpc(k.sched, s', t);
    }
  }

  lemma MessagesStartNone(k: Kernel, op: KernelOp)
    requires Ok(k) && May(k, op) && (op.Send? || op.Fault? || op.Receive?)
    ensures NoneStarted(k, Step(k, op))
  {
    match op
    case Send(ep, blocking, call, canGrant, badge, canGrantReply) =>
      SendOk(k, ep, blocking, call, canGrant, badge, canGrantReply);
      SendStartsNone(k, ep, blocking, call, canGrant, badge, canGrantReply);
    case Fault(ep, canGrant, badge) =>
      MarkFaultOk(k);
      SendOk(MarkFault(k), ep, true, true, canGrant, badge, true);
      SendStartsNone(MarkFault(k), ep, true, true, canGrant, badge, true);
      assert forall t :: Started(MarkFault(k), t) ==> Started(k, t);
    case Receive(ep, blocking, grant) =>
      AfterDropOk(k);
      var d := DeleteReply(k, CallerSlot(k.sched.cur));
      ReceiveOk(d, ep, blocking, grant);
      ReceiveStartsNone(d, ep, blocking, grant);
      assert forall t :: Started(d, t) ==> Started(k, t);
  }

  lemma WaitsStartNone(k: Kernel, op: KernelOp)
    requires Ok(k) && May(k, op) && (op.Await? || op.Stop?)
    ensures NoneStarted(k, Step(k, op))
  {}

  lemma TablesStartNone(k: Kernel, op: KernelOp)
    requires Ok(k) && May(k, op) && (op.BindNtfn? || op.UnbindNtfn? || op.DropReply? || op.SaveReply?)
    ensures NoneStarted(k, Step(k, op))
  {}

  lemma CreateStartsNone(k: Kernel, o: nat, kind: NewKind)
    requires MayCreate(k, o, kind)
    ensures NoneStarted(k, Create(k, o, kind))
  {}

  /** Only a resume starts a thread. */
  lemma OnlyResumeStarts(k: Kernel, op: KernelOp)
    requires Ok(k) && May(k, op) && !op.ResumeTcb?
    ensures NoneStarted(k, Step(k, op))
  {
    if op.Send? || op.Fault? || op.Receive? { MessagesStartNone(k, op); }
    else if op.Signal? { SignalOk(k, op.ntfn, op.badge); SignalStartsNone(k, op.ntfn, op.badge); }
    else if op.AnswerReply? { assert ReplyOk(k, op.slot); ReplyStartsNone(k, op.slot, op.resume); }
    else if op.CancelBadged? || op.CancelWaiters? { CancelsStartNone(k, op); }
    else if op.SuspendTcb? { assert ThreadOk(k, op.t); SuspendStartsNone(k, op.t); }
    else if op.Schedule? { PlainStartsNone(k, op.op); }
    else if op.Await? || op.Stop? { WaitsStartNone(k, op); }
    else if op.FastCall? {
      FastCallOk(k, op.ep, op.canGrant, op.badge, op.canGrantReply);
      FastCallStartsNone(k, op.ep, op.badge);
    }
    else if op.NewObject? { CreateStartsNone(k, op.o, op.kind); }
    else { TablesStartNone(k, op); }
  }
}
