/** Signals are neither lost nor invented, a pending signal never lets its bound thread sleep, and
    exactly when a new binding endangers that (sel4_ipc/src/notification.rs,
    kernel/src/syscall/invocation/decode/decode_tcb_invocation.rs). */
module Signals {
  import opened SchedulerSpec
  import opened IpcSpec
  import opened IpcSafety
  import opened ReplySafety
  import opened KernelExit
  import opened CallPath
  import opened IpcRuns

  // ---- conservation ----

  /** The badge bits that wait in the notification. */
  function Pending(k: Kernel, n: nat): (b: Badge)
    requires IsNotification(k, n)
  {
    if k.objects[n].ntfnState == NtfnActive then k.objects[n].word else {}
  }

  /** A signal waits, be its badge empty or not. */
  predicate IsActive(k: Kernel, n: nat)
    requires IsNotification(k, n)
  {
    k.objects[n].ntfnState == NtfnActive
  }

  function SentBy(op: KernelOp, n: nat): (b: Badge) {
    if op.Signal? && op.ntfn == n then op.badge else {}
  }

  datatype Delivery = Nothing | To(thread: nat, badge: Badge)

  /** Who receives what from notification n during the operation. */
  function DeliveryBy(k: Kernel, op: KernelOp, n: nat): (d: Delivery)
    requires IsNotification(k, n)
  {
    var obj := k.objects[n];
    match op
    case Signal(m, badge) => if m == n then SignalDelivery(k, n, badge) else Nothing
    case Await(m, _) => if m == n && obj.ntfnState == NtfnActive then To(k.sched.cur, obj.word) else Nothing
    case Receive(_, _, _) =>
      if k.sched.cur in k.tcbs && k.tcbs[k.sched.cur].boundTo == n && n != 0 && obj.ntfnState == NtfnActive
      then To(k.sched.cur, obj.word) else Nothing
    case _ => Nothing
  }

  /** A signal goes to the first waiter, or to the bound thread if that waits to receive, or nowhere. */
  function SignalDelivery(k: Kernel, n: nat, badge: Badge): (d: Delivery)
    requires IsNotification(k, n)
  {
    var obj := k.objects[n];
    if obj.ntfnState == NtfnWaiting && QueueOf(obj) != [] then To(QueueOf(obj)[0], badge)
    else if obj.ntfnState == NtfnIdle && obj.boundTcb != 0 && obj.boundTcb in k.sched.threads
      && StateOf(k, obj.boundTcb) == BlockedOnReceive
    then To(obj.boundTcb, badge)
    else Nothing
  }

  function Bits(d: Delivery): (b: Badge) {
    match d case Nothing => {} case To(_, b) => b
  }

  /** A notification whose pending bits are untouched. */
  predicate PendingKept(k: Kernel, k': Kernel, n: nat)
    requires IsNotification(k, n)
  {
    IsNotification(k', n) && Pending(k', n) == Pending(k, n) && (IsActive(k', n) <==> IsActive(k, n))
  }

  lemma SendKeepsPending(k: Kernel, ep: nat, blocking: bool, doCall: bool, canGrant: bool, badge: Badge,
      canGrantReply: bool, n: nat)
    requires Shape(k) && k.sched.cur in k.sched.threads && IsEndpoint(k, ep) && SendAsserts(k, k.sched.cur, ep)
    requires IsNotification(k, n)
    ensures PendingKept(k, SendIpc(k, k.sched.cur, ep, blocking, doCall, canGrant, badge, canGrantReply), n)
  {
  }

  lemma ReceiveDelivers(k: Kernel, ep: nat, blocking: bool, grant: bool, n: nat)
    requires Shape(k) && k.sched.cur in k.sched.threads && IsEndpoint(k, ep) && ReceiveAsserts(k, k.sched.cur, ep)
    requires IsNotification(k, n)
    ensures
      var k' := ReceiveIpc(k, k.sched.cur, ep, blocking, grant);
      if k.tcbs[k.sched.cur].boundTo == n && n != 0 && k.objects[n].ntfnState == NtfnActive
      then IsNotification(k', n) && !IsActive(k', n) && k.sched.cur in k'.tcbs
        && k'.tcbs[k.sched.cur].badge == k.objects[n].word
      else PendingKept(k, k', n)
  {
  }

  lemma CancelKeepsPending(k: Kernel, t: nat, n: nat)
    requires Ok(k) && t in k.sched.threads && (IsWaiting(StateOf(k, t)) ==> WaitsSomewhere(k, t))
    requires IsNotification(k, n)
    ensures PendingKept(k, CancelIpc(k, t), n)
  {
    assert ThreadOk(k, t);
    if IsWaiting(StateOf(k, t)) { assert ObjectOk(k, k.tcbs[t].blocking.waitsOn); }
  }

  /** Signalling the bound thread touches no pending bits. */
  lemma SignalBound(k: Kernel, m: nat, badge: Badge, n: nat)
    requires Shape(k) && QueuesAgree(k) && IsNotification(k, m) && IsNotification(k, n) && SignalAsserts(k, m)
    requires k.objects[m].ntfnState == NtfnIdle && k.objects[m].boundTcb != 0
    requires StateOf(k, k.objects[m].boundTcb) == BlockedOnReceive
    ensures PendingKept(k, SendSignal(k, m, badge), n)
    ensures
      var t := k.objects[m].boundTcb;
      t in SendSignal(k, m, badge).tcbs && SendSignal(k, m, badge).tcbs[t].badge == badge
  {
    var t := k.objects[m].boundTcb;
    assert ThreadOk(k, t) && ObjectOk(k, k.tcbs[t].blocking.waitsOn);
  }

  lemma SignalWaiter(k: Kernel, m: nat, badge: Badge, n: nat)
    requires Shape(k) && QueuesAgree(k) && IsNotification(k, m) && IsNotification(k, n) && SignalAsserts(k, m)
    requires k.objects[m].ntfnState == NtfnWaiting
    ensures PendingKept(k, SendSignal(k, m, badge), n)
    ensures
      var t := QueueOf(k.objects[m])[0];
      t in SendSignal(k, m, badge).tcbs && SendSignal(k, m, badge).tcbs[t].badge == badge
  {
  }

  /** With nobody to take it, the badge is added to the pending bits. */
  lemma SignalStored(k: Kernel, m: nat, badge: Badge, n: nat)
    requires Shape(k) && IsNotification(k, m) && IsNotification(k, n) && SignalAsserts(k, m)
    requires k.objects[m].ntfnState != NtfnWaiting
    requires k.objects[m].ntfnState == NtfnIdle ==>
      k.objects[m].boundTcb == 0 || StateOf(k, k.objects[m].boundTcb) != BlockedOnReceive
    ensures IsNotification(SendSignal(k, m, badge), n)
    ensures n == m ==>
      Pending(SendSignal(k, m, badge), n) == Pending(k, n) + badge && IsActive(SendSignal(k, m, badge), n)
    ensures n != m ==> PendingKept(k, SendSignal(k, m, badge), n)
  {
  }

  predicate Signals(op: KernelOp, n: nat) {
    op.Signal? && op.ntfn == n
  }

  /** What happens to the signals of n: a new one is delivered alone or added to what waits; a thread
      that asks takes everything that waits and leaves nothing; nothing else changes what waits. */
  predicate Balanced(k: Kernel, k': Kernel, op: KernelOp, n: nat)
    requires IsNotification(k, n)
  {
    var d := DeliveryBy(k, op, n);
    && IsNotification(k', n)
    && (if Signals(op, n) then
          if d.To? then d.badge == op.badge && PendingKept(k, k', n)
          else IsActive(k', n) && Pending(k', n) == Pending(k, n) + op.badge
        else if d.To? then IsActive(k, n) && d.badge == Pending(k, n) && !IsActive(k', n)
        else PendingKept(k, k', n))
  }

  /** Whoever is said to receive bits has them in the badge register. */
  predicate Handed(k: Kernel, k': Kernel, op: KernelOp, n: nat)
    requires IsNotification(k, n)
  {
    var d := DeliveryBy(k, op, n);
    d.To? ==> d.thread in k'.tcbs && k'.tcbs[d.thread].badge == d.badge
  }

  lemma KeptIsBalanced(k: Kernel, k': Kernel, op: KernelOp, n: nat)
    requires IsNotification(k, n) && PendingKept(k, k', n)
    requires var d := DeliveryBy(k, op, n); if Signals(op, n) then d.To? && d.badge == op.badge else d == Nothing
    ensures Balanced(k, k', op, n)
  {
  }

  lemma SignalDelivers(k: Kernel, m: nat, badge: Badge, n: nat)
    requires Shape(k) && QueuesAgree(k) && IsNotification(k, m) && IsNotification(k, n) && SignalAsserts(k, m)
    ensures Balanced(k, SendSignal(k, m, badge), Signal(m, badge), n)
    ensures Handed(k, SendSignal(k, m, badge), Signal(m, badge), n)
  {
    assert BoundThreadOk(k, m);
    var op := Signal(m, badge);
    var k' := SendSignal(k, m, badge);
    var t := k.objects[m].boundTcb;
    if k.objects[m].ntfnState == NtfnIdle && t != 0 && StateOf(k, t) == BlockedOnReceive {
      SignalBound(k, m, badge, n);
      KeptIsBalanced(k, k', op, n);
    } else if k.objects[m].ntfnState == NtfnWaiting {
      SignalWaiter(k, m, badge, n);
      KeptIsBalanced(k, k', op, n);
    } else {
      SignalStored(k, m, badge, n);
      StoredIsBalanced(k, k', m, badge, n);
    }
  }

  lemma StoredIsBalanced(k: Kernel, k': Kernel, m: nat, badge: Badge, n: nat)
    requires IsNotification(k, n) && IsNotification(k', n) && DeliveryBy(k, Signal(m, badge), n) == Nothing
    requires if n == m then IsActive(k', n) && Pending(k', n) == Pending(k, n) + badge else PendingKept(k, k', n)
    ensures Balanced(k, k', Signal(m, badge), n)
  {
  }

  lemma ReceiveBalanced(k: Kernel, ep: nat, blocking: bool, grant: bool, n: nat)
    requires Ok(k) && May(k, Receive(ep, blocking, grant)) && IsNotification(k, n)
    ensures Balanced(k, HandleReceive(k, ep, blocking, grant), Receive(ep, blocking, grant), n)
    ensures Handed(k, HandleReceive(k, ep, blocking, grant), Receive(ep, blocking, grant), n)
  {
    AfterDropOk(k);
    var d := DeleteReply(k, CallerSlot(k.sched.cur));
    ReceiveOk(d, ep, blocking, grant);
    ReceiveDelivers(d, ep, blocking, grant, n);
    DroppedDelivers(k, d, ReceiveIpc(d, k.sched.cur, ep, blocking, grant), Receive(ep, blocking, grant), n);
  }

  /** Emptying the caller slot changes no notification. */
  lemma DroppedDelivers(k: Kernel, d: Kernel, r: Kernel, op: KernelOp, n: nat)
    requires d == DeleteReply(k, CallerSlot(k.sched.cur)) && op.Receive? && IsNotification(k, n)
    requires k.sched.cur in k.tcbs
    requires
      if d.tcbs[k.sched.cur].boundTo == n && n != 0 && d.objects[n].ntfnState == NtfnActive
      then IsNotification(r, n) && !IsActive(r, n) && k.sched.cur in r.tcbs
        && r.tcbs[k.sched.cur].badge == d.objects[n].word
      else PendingKept(d, r, n)
    ensures Balanced(k, r, op, n) && Handed(k, r, op, n)
  {
  }

  lemma AwaitBalanced(k: Kernel, m: nat, blocking: bool, n: nat)
    requires Ok(k) && May(k, Await(m, blocking)) && IsNotification(k, n)
    ensures Balanced(k, ReceiveSignal(k, k.sched.cur, m, blocking), Await(m, blocking), n)
    ensures Handed(k, ReceiveSignal(k, k.sched.cur, m, blocking), Await(m, blocking), n)
  {
  }

  lemma SendsKeepPending(k: Kernel, op: KernelOp, n: nat)
    requires Ok(k) && May(k, op) && IsNotification(k, n) && (op.Send? || op.Fault?)
    ensures PendingKept(k, Step(k, op), n)
  {
    match op
    case Send(ep, blocking, call, canGrant, badge, canGrantReply) =>
      SendOk(k, ep, blocking, call, canGrant, badge, canGrantReply);
      SendKeepsPending(k, ep, blocking, call, canGrant, badge, canGrantReply, n);
    case Fault(ep, canGrant, badge) =>
      MarkFaultOk(k);
      SendOk(MarkFault(k), ep, true, true, canGrant, badge, true);
      SendKeepsPending(MarkFault(k), ep, true, true, canGrant, badge, true, n);
  }

  lemma ThreadControlKeepsPending(k: Kernel, op: KernelOp, n: nat)
    requires Ok(k) && May(k, op) && IsNotification(k, n) && (op.SuspendTcb? || op.ResumeTcb?)
    ensures PendingKept(k, Step(k, op), n)
  {
    match op
    case SuspendTcb(t) => SuspendThreadOk(k, t); CancelKeepsPending(k, t, n);
    case ResumeTcb(t) => ResumeThreadOk(k, t); CancelKeepsPending(k, t, n);
  }

  lemma CancelAllKeepsPending(k: Kernel, o: nat, n: nat)
    requires Ok(k) && o in k.objects && IsNotification(k, n)
    ensures PendingKept(k, CancelAll(k, o), n)
  {
    assert ObjectOk(k, o);
  }

  lemma CancelBadgedKeepsPending(k: Kernel, ep: nat, badge: Badge, n: nat)
    requires Ok(k) && IsEndpoint(k, ep) && IsNotification(k, n)
    ensures PendingKept(k, CancelBadgedSends(k, ep, badge), n)
  {}

  lemma AnswerKeepsPending(k: Kernel, op: KernelOp, n: nat)
    requires Ok(k) && May(k, op) && IsNotification(k, n)
    requires op.AnswerReply? || op.Stop? || op.NewObject?
    ensures PendingKept(k, Step(k, op), n)
  {}

  lemma FastCallKeepsPending(k: Kernel, ep: nat, badge: Badge, n: nat)
    requires Ok(k) && IsNotification(k, n) && IsEndpoint(k, ep) && HasHead(k, ep) && HeadOf(k, ep) in k.tcbs
    requires k.sched.cur in k.sched.threads
    ensures PendingKept(k, FastEffect(k, ep, badge), n)
  {}

  lemma BookkeepingKeepsPending(k: Kernel, op: KernelOp, n: nat)
    requires Ok(k) && May(k, op) && IsNotification(k, n)
    requires op.BindNtfn? || op.UnbindNtfn? || op.DropReply? || op.SaveReply? || op.Schedule?
    ensures PendingKept(k, Step(k, op), n)
  {
    if op.UnbindNtfn? { assert BindingOk(k, op.t); }
  }

  lemma OthersKeepPending(k: Kernel, op: KernelOp, n: nat)
    requires Ok(k) && May(k, op) && IsNotification(k, n)
    requires !op.Signal? && !op.Await? && !op.Receive?
    ensures PendingKept(k, Step(k, op), n)
  {
    if op.Send? || op.Fault? { SendsKeepPending(k, op, n); }
    else if op.SuspendTcb? || op.ResumeTcb? { ThreadControlKeepsPending(k, op, n); }
    else if op.CancelWaiters? { CancelAllKeepsPending(k, op.o, n); }
    else if op.CancelBadged? { CancelBadgedKeepsPending(k, op.ep, op.badge, n); }
    else if op.AnswerReply? || op.Stop? || op.NewObject? { AnswerKeepsPending(k, op, n); }
    else if op.FastCall? {
      FastCallOk(k, op.ep, op.canGrant, op.badge, op.canGrantReply);
      FastCallKeepsPending(k, op.ep, op.badge, n);
    }
    else { BookkeepingKeepsPending(k, op, n); }
  }

  /** Every operation balances the bits of every notification, and hands over what it delivers. */
  lemma StepBalanced(k: Kernel, op: KernelOp, n: nat)
    requires Ok(k) && May(k, op) && IsNotification(k, n)
    ensures Balanced(k, Step(k, op), op, n) && Handed(k, Step(k, op), op, n)
  {
    if op.Signal? { SignalOk(k, op.ntfn, op.badge); SignalDelivers(k, op.ntfn, op.badge, n); }
    else if op.Await? { AwaitBalanced(k, op.ntfn, op.blocking, n); }
    else if op.Receive? { ReceiveBalanced(k, op.ep, op.blocking, op.grant, n); }
    else { OthersBalanced(k, op, n); }
  }

  lemma OthersBalanced(k: Kernel, op: KernelOp, n: nat)
    requires Ok(k) && May(k, op) && IsNotification(k, n) && !op.Signal? && !op.Await? && !op.Receive?
    ensures Balanced(k, Step(k, op), op, n) && Handed(k, Step(k, op), op, n)
  {
    OthersKeepPending(k, op, n);
    KeptIsBalanced(k, Step(k, op), op, n);
  }

  // ---- whole runs ----

  /** Leaving the kernel touches no notification. */
  lemma ExitKeepsPending(k: Kernel, n: nat)
    requires Ok(k) && IsNotification(k, n)
    ensures PendingKept(k, Moved(k, Exit), n)
  {
    LeaveKeeps(k);
  }

  function MoveSent(m: Move, n: nat): (b: Badge) {
    if m.Do? then SentBy(m.op, n) else {}
  }

  function MoveDelivery(k: Kernel, m: Move, n: nat): (d: Delivery)
    requires IsNotification(k, n)
  {
    if m.Do? then DeliveryBy(k, m.op, n) else Nothing
  }

  function SentByAll(ms: seq<Move>, n: nat): (b: Badge)
    decreases |ms|
  {
    if ms == [] then {} else MoveSent(ms[0], n) + SentByAll(ms[1..], n)
  }

  ghost function DeliveredByAll(k: Kernel, ms: seq<Move>, n: nat): (b: Badge)
    requires Ok(k) && MayMoves(k, ms) && IsNotification(k, n)
    decreases |ms|
  {
    if ms == [] then {}
    else
      MoveBits(k, ms[0], n);
      Bits(MoveDelivery(k, ms[0], n)) + DeliveredByAll(Moved(k, ms[0]), ms[1..], n)
  }

  /** Every move balances the bits of every notification. */
  lemma MoveBits(k: Kernel, m: Move, n: nat)
    requires Ok(k) && MayMove(k, m) && IsNotification(k, n)
    ensures IsNotification(Moved(k, m), n)
    ensures Pending(k, n) + MoveSent(m, n) == Bits(MoveDelivery(k, m, n)) + Pending(Moved(k, m), n)
  {
    match m
    case Do(op) => StepBalanced(k, op, n); BalancedBits(k, Step(k, op), op, n);
    case Exit => ExitKeepsPending(k, n);
  }

  lemma BalancedBits(k: Kernel, k': Kernel, op: KernelOp, n: nat)
    requires IsNotification(k, n) && Balanced(k, k', op, n)
    ensures Pending(k, n) + SentBy(op, n) == Bits(DeliveryBy(k, op, n)) + Pending(k', n)
  {
  }

  lemma Chain(p: Badge, s: Badge, ss: Badge, d: Badge, p': Badge, dd: Badge, p'': Badge)
    requires p + s == d + p' && p' + ss == dd + p''
    ensures p + (s + ss) == (d + dd) + p''
  {
    assert p + (s + ss) == (p + s) + ss == d + (p' + ss) == d + (dd + p'') == (d + dd) + p'';
  }

  lemma {:induction false} BitsConserved(k: Kernel, ms: seq<Move>, n: nat)
    requires Ok(k) && MayMoves(k, ms) && IsNotification(k, n)
    ensures IsNotification(Moves(k, ms), n)
    ensures Pending(k, n) + SentByAll(ms, n) == DeliveredByAll(k, ms, n) + Pending(Moves(k, ms), n)
    decreases |ms|
  {
    if ms != [] {
      var k' := Moved(k, ms[0]);
      MoveBits(k, ms[0], n);
      BitsConserved(k', ms[1..], n);
      Chain(Pending(k, n), MoveSent(ms[0], n), SentByAll(ms[1..], n), Bits(MoveDelivery(k, ms[0], n)), Pending(k', n),
            DeliveredByAll(k', ms[1..], n), Pending(Moves(k', ms[1..]), n));
    }
  }

  /** Over every run of kernel entries, by whatever threads, the bits pending at first together with all bits sent are
      the bits delivered together with the bits still pending. */
  lemma SignalsConserved(k: Kernel, entries: seq<seq<KernelOp>>, n: nat)
    requires AtUserLevel(k) && RunMay(k, entries) && IsNotification(k, n)
    ensures Ok(k) && MayMoves(k, RunMoves(entries)) && IsNotification(Run(k, entries), n)
    ensures Pending(k, n) + SentByAll(RunMoves(entries), n) ==
            DeliveredByAll(k, RunMoves(entries), n) + Pending(Run(k, entries), n)
  {
    RunIsMoves(k, entries);
    BitsConserved(k, RunMoves(entries), n);
  }

  // ---- every signal goes to one place ----

  /** Signals handed over together: to whom, with which badge, and which signals by number. */
  datatype Handover = Handover(thread: nat, badge: Badge, signals: set<nat>)

  /** The badges of all signals so far, in order; the numbers of those that wait; the handovers. */
  datatype Ledger = Ledger(sent: seq<Badge>, waiting: set<nat>, handed: seq<Handover>)

  /** The or of the badges of the numbered signals. */
  function Or(sent: seq<Badge>, signals: set<nat>): (b: Badge) {
    set i, x | i in signals && i < |sent| && x in sent[i] :: x
  }

  /** One more operation on notification n is entered into the ledger. */
  function Post(led: Ledger, k: Kernel, op: KernelOp, n: nat): (r: Ledger)
    requires IsNotification(k, n)
  {
    var d := DeliveryBy(k, op, n);
    if Signals(op, n) then
      if d.To? then Ledger(led.sent + [op.badge], led.waiting, led.handed + [Handover(d.thread, d.badge, {|led.sent|})])
      else led.(sent := led.sent + [op.badge], waiting := led.waiting + {|led.sent|})
    else if d.To? then led.(waiting := {}, handed := led.handed + [Handover(d.thread, d.badge, led.waiting)])
    else led
  }

  function PostMove(led: Ledger, k: Kernel, m: Move, n: nat): (r: Ledger)
    requires IsNotification(k, n)
  {
    if m.Do? then Post(led, k, m.op, n) else led
  }

  ghost function PostAll(led: Ledger, k: Kernel, ms: seq<Move>, n: nat): (r: Ledger)
    requires Ok(k) && MayMoves(k, ms) && IsNotification(k, n)
    decreases |ms|
  {
    if ms == [] then led
    else
      MoveBits(k, ms[0], n);
      PostAll(PostMove(led, k, ms[0], n), Moved(k, ms[0]), ms[1..], n)
  }

  /** In how many places signal i is. */
  function Places(led: Ledger, i: nat): (c: nat) {
    (if i in led.waiting then 1 else 0) + Handovers(led.handed, i)
  }

  function Handovers(handed: seq<Handover>, i: nat): (c: nat) {
    if handed == [] then 0 else Handovers(handed[..|handed| - 1], i) + if i in handed[|handed| - 1].signals then 1
      else 0
  }

  /** The ledger tells the truth about n: what waits in the notification is the or of the waiting
      signals, each handover carried the or of its signals, and every signal is in one place. */
  ghost predicate Accounted(led: Ledger, k: Kernel, n: nat)
    requires IsNotification(k, n)
  {
    && Pending(k, n) == Or(led.sent, led.waiting)
    && (IsActive(k, n) <==> led.waiting != {})
    && (forall h :: 0 <= h < |led.handed| ==>
      led.handed[h].signals != {} && led.handed[h].badge == Or(led.sent, led.handed[h].signals))
    && (forall i {:trigger Places(led, i)} :: 0 <= i < |led.sent| ==> Places(led, i) == 1)
    && (forall i {:trigger Places(led, i)} :: i >= |led.sent| ==> Places(led, i) == 0)
  }

  lemma {:induction false} PlacesInside(handed: seq<Handover>, i: nat, h: nat)
    requires h < |handed| && i in handed[h].signals
    ensures Handovers(handed, i) > 0
  {
    if h < |handed| - 1 { PlacesInside(handed[..|handed| - 1], i, h); }
  }

  lemma OrGrows(sent: seq<Badge>, b: Badge, signals: set<nat>)
    requires forall i :: i in signals ==> i < |sent|
    ensures Or(sent + [b], signals) == Or(sent, signals)
    ensures Or(sent + [b], signals + {|sent|}) == Or(sent, signals) + b
    ensures Or(sent + [b], {|sent|}) == b
  {
    assert forall i :: i in signals ==> (sent + [b])[i] == sent[i];
    assert (sent + [b])[|sent|] == b;
    forall x | x in Or(sent, signals) + b
      ensures x in Or(sent + [b], signals + {|sent|})
    {
      if x !in b {
        var i :| i in signals && i < |sent| && x in sent[i];
        assert x in (sent + [b])[i];
      }
    }
  }

  /** Signals that are somewhere have been sent. */
  lemma AllSent(led: Ledger, k: Kernel, n: nat)
    requires IsNotification(k, n) && Accounted(led, k, n)
    ensures forall i :: i in led.waiting ==> i < |led.sent|
    ensures forall h, i :: 0 <= h < |led.handed| && i in led.handed[h].signals ==> i < |led.sent|
  {
    forall i | i in led.waiting
      ensures i < |led.sent|
    {
      assert Places(led, i) > 0;
    }
    forall h, i | 0 <= h < |led.handed| && i in led.handed[h].signals
      ensures i < |led.sent|
    {
      PlacesInside(led.handed, i, h);
      assert Places(led, i) > 0;
    }
  }

  lemma PostPlaces(led: Ledger, h: Handover, i: nat)
    ensures Handovers(led.handed + [h], i) == Handovers(led.handed, i) + if i in h.signals then 1 else 0
  {
    assert (led.handed + [h])[..|led.handed|] == led.handed;
  }

  lemma PostSignal(led: Ledger, k: Kernel, op: KernelOp, n: nat, k': Kernel)
    requires IsNotification(k, n) && Accounted(led, k, n) && Balanced(k, k', op, n) && Signals(op, n)
    ensures Accounted(Post(led, k, op, n), k', n)
  {
    AllSent(led, k, n);
    var r := Post(led, k, op, n);
    OrGrows(led.sent, op.badge, led.waiting);
    forall h | 0 <= h < |r.handed|
      ensures r.handed[h].signals != {} && r.handed[h].badge == Or(r.sent, r.handed[h].signals)
    {
      if h < |led.handed| { OrGrows(led.sent, op.badge, led.handed[h].signals); }
    }
    forall i: nat
      ensures Places(r, i) == if i < |r.sent| then 1 else 0
    {
      assert Places(led, i) == if i < |led.sent| then 1 else 0;
      if DeliveryBy(k, op, n).To? { PostPlaces(led, r.handed[|led.handed|], i); }
    }
  }

  lemma PostTake(led: Ledger, k: Kernel, op: KernelOp, n: nat, k': Kernel)
    requires IsNotification(k, n) && Accounted(led, k, n) && Balanced(k, k', op, n) && !Signals(op, n)
    ensures Accounted(Post(led, k, op, n), k', n)
  {
    var r := Post(led, k, op, n);
    if DeliveryBy(k, op, n).To? {
      forall i: nat
        ensures Places(r, i) == if i < |r.sent| then 1 else 0
      {
        assert Places(led, i) == if i < |led.sent| then 1 else 0;
        PostPlaces(led, r.handed[|led.handed|], i);
      }
    }
  }

  /** Each signal contributes to exactly one handover or still waits. */
  lemma {:induction false} EachSignalOnce(led: Ledger, k: Kernel, ms: seq<Move>, n: nat)
    requires Ok(k) && MayMoves(k, ms) && IsNotification(k, n) && Accounted(led, k, n)
    ensures IsNotification(Moves(k, ms), n) && Accounted(PostAll(led, k, ms, n), Moves(k, ms), n)
    decreases |ms|
  {
    if ms != [] {
      MoveAccounted(led, k, ms[0], n);
      EachSignalOnce(PostMove(led, k, ms[0], n), Moved(k, ms[0]), ms[1..], n);
    }
  }

  lemma MoveAccounted(led: Ledger, k: Kernel, m: Move, n: nat)
    requires Ok(k) && MayMove(k, m) && IsNotification(k, n) && Accounted(led, k, n)
    ensures IsNotification(Moved(k, m), n) && Accounted(PostMove(led, k, m, n), Moved(k, m), n)
  {
    match m
    case Do(op) => StepBalanced(k, op, n); PostAccounted(led, k, op, n, Step(k, op));
    case Exit => ExitKeepsPending(k, n);
  }

  lemma PostAccounted(led: Ledger, k: Kernel, op: KernelOp, n: nat, k': Kernel)
    requires IsNotification(k, n) && Accounted(led, k, n) && Balanced(k, k', op, n)
    ensures Accounted(Post(led, k, op, n), k', n)
  {
    if Signals(op, n) { PostSignal(led, k, op, n, k'); } else { PostTake(led, k, op, n, k'); }
  }

  /** And the ledger has every signal that was sent, in order. */
  lemma {:induction false} EverySignalPosted(led: Ledger, k: Kernel, ms: seq<Move>, n: nat)
    requires Ok(k) && MayMoves(k, ms) && IsNotification(k, n)
    ensures PostAll(led, k, ms, n).sent == led.sent + SentList(ms, n)
    decreases |ms|
  {
    if ms != [] {
      MoveBits(k, ms[0], n);
      var r := PostMove(led, k, ms[0], n);
      PostSent(led, r, k, ms[0], n, SentList(ms[1..], n));
      EverySignalPosted(r, Moved(k, ms[0]), ms[1..], n);
    }
  }

  lemma PostSent(led: Ledger, r: Ledger, k: Kernel, m: Move, n: nat, rest: seq<Badge>)
    requires IsNotification(k, n) && r == PostMove(led, k, m, n)
    ensures r.sent + rest == led.sent + ((if m.Do? && Signals(m.op, n) then [m.op.badge] else []) + rest)
  {
  }

  /** The badges of the signals to n, in order. */
  function SentList(ms: seq<Move>, n: nat): (s: seq<Badge>)
    decreases |ms|
  {
    if ms == [] then []
    else (if ms[0].Do? && Signals(ms[0].op, n) then [ms[0].op.badge] else []) + SentList(ms[1..], n)
  }

  /** The ledger to begin with: what already waits counts as one signal. */
  function Opening(k: Kernel, n: nat): (led: Ledger)
    requires IsNotification(k, n)
  {
    if IsActive(k, n) then Ledger([Pending(k, n)], {0}, []) else Ledger([], {}, [])
  }

  lemma OpeningAccounted(k: Kernel, n: nat)
    requires IsNotification(k, n)
    ensures Accounted(Opening(k, n), k, n)
  {
    if IsActive(k, n) { OrGrows([], Pending(k, n), {}); }
  }

  /** Over every run of kernel entries, every signal sent to n, together with what waited at first, is in exactly one
      handover or still waits; each handover carried exactly the or of its signals, and what is pending is exactly the
      or of those that wait. */
  lemma SignalsExactlyOnce(k: Kernel, entries: seq<seq<KernelOp>>, n: nat)
    requires AtUserLevel(k) && RunMay(k, entries) && IsNotification(k, n)
    ensures Ok(k) && MayMoves(k, RunMoves(entries))
    ensures
      var led := PostAll(Opening(k, n), k, RunMoves(entries), n);
      && led.sent == Opening(k, n).sent + SentList(RunMoves(entries), n)
      && IsNotification(Run(k, entries), n) && Accounted(led, Run(k, entries), n)
  {
    RunIsMoves(k, entries);
    OpeningAccounted(k, n);
    EachSignalOnce(Opening(k, n), k, RunMoves(entries), n);
    EverySignalPosted(Opening(k, n), k, RunMoves(entries), n);
  }
}
