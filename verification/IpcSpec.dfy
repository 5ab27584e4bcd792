/** Endpoints, notifications and replies: what each operation does to the objects' queues and to the
    threads (sel4_ipc/src/endpoint.rs, sel4_ipc/src/notification.rs, sel4_ipc/src/transfer.rs,
    sel4_task/src/tcb.rs). Messages themselves are left out; the badge register is kept. */
module IpcSpec {
  import opened Config
  import opened SchedulerSpec
  import opened SchedulerRuns

  /** A 64-bit badge word, as the set of its one-bits: the zero badge is empty, the or of two badges their union. */
  type Badge = set<nat>

  datatype EpState = EpIdle | EpSend | EpRecv

  datatype NtfnState = NtfnIdle | NtfnWaiting | NtfnActive

  datatype Object =
    | Endpoint(epState: EpState, epQueue: seq<nat>)
    | Notification(ntfnState: NtfnState, ntfnQueue: seq<nat>, word: Badge, boundTcb: nat)

  /** The blocking fields of a thread's state. */
  datatype Blocking = Blocking(waitsOn: nat, badge: Badge, canGrant: bool, canGrantReply: bool, isCall: bool)

  /** A reply capability that is not a master. */
  datatype Reply = Reply(caller: nat, canGrant: bool)

  /** The part of a TCB that IPC uses: blocking fields, tcbBoundNotification, the badge register, and
      whether tcbFault is not the null fault. */
  datatype Tcb = Tcb(blocking: Blocking, boundTo: nat, badge: Badge, faulted: bool)


  /** The caller slot lies in the small CNode in front of the TCB. */
  function CallerSlot(t: nat): (slot: nat) {
    t / TCB_SIZE * TCB_SIZE + CALLER_INDEX * SLOT_SIZE
  }

  datatype Kernel = Kernel(
    sched: Sched,
    objects: map<nat, Object>,
    tcbs: map<nat, Tcb>,
    masters: set<nat>,            // threads whose reply slot holds their master reply capability
    replies: map<nat, Reply>)     // reply capabilities by slot

  function QueueOf(o: Object): (q: seq<nat>) {
    match o
    case Endpoint(_, q) => q
    case Notification(_, q, _, _) => q
  }

  /** The object with fewer waiters: it falls back to idle when nobody is left. */
  function WithQueue(o: Object, q: seq<nat>): (r: Object) {
    match o
    case Endpoint(s, _) => Endpoint(if q == [] then EpIdle else s, q)
    case Notification(s, _, w, b) => Notification(if q == [] then NtfnIdle else s, q, w, b)
  }

  /** The state of every thread that waits on the object. */
  function WaitState(o: Object): (s: ThreadState) {
    match o
    case Endpoint(s, _) => if s == EpSend then BlockedOnSend else BlockedOnReceive
    case Notification(_, _, _, _) => BlockedOnNotification
  }

  predicate IsWaiting(s: ThreadState) {
    s == BlockedOnSend || s == BlockedOnReceive || s == BlockedOnNotification
  }

  function StateOf(k: Kernel, t: nat): (s: ThreadState)
    requires t in k.sched.threads
  {
    k.sched.threads[t].state
  }

  /** Every thread has its TCB, aligned, and bindings lead to notifications and threads. */
  ghost predicate Shape(k: Kernel) {
    && (forall t :: t in k.sched.threads ==> k.sched.threads[t].prio < |k.sched.queues|)
    && (k.sched.action.SwitchTo? ==> k.sched.action.thread in k.sched.threads)
    && k.tcbs.Keys == k.sched.threads.Keys
    && (forall t {:trigger Placed(k, t)} :: t in k.sched.threads ==> Placed(k, t))
    && (forall t {:trigger BindingOk(k, t)} :: t in k.tcbs ==> BindingOk(k, t))
    && (forall n {:trigger BoundThreadOk(k, n)} :: n in k.objects ==> BoundThreadOk(k, n))
    && 0 !in k.sched.threads && k.sched.idle in k.sched.threads && StateOf(k, k.sched.idle) == IdleState
  }

  /** TCBs are aligned in memory, so no two of them share a caller slot. */
  predicate Placed(k: Kernel, t: nat) {
    t != k.sched.idle ==> t % TCB_SIZE == TCB_OFFSET
  }

  predicate BindingOk(k: Kernel, t: nat)
    requires t in k.tcbs
  {
    k.tcbs[t].boundTo != 0 ==> k.tcbs[t].boundTo in k.objects && k.objects[k.tcbs[t].boundTo].Notification?
  }

  predicate BoundThreadOk(k: Kernel, n: nat)
    requires n in k.objects
  {
    k.objects[n].Notification? && k.objects[n].boundTcb != 0 ==> k.objects[n].boundTcb in k.sched.threads
  }

  // ---- threads and queues agree ----

  ghost predicate ObjectOk(k: Kernel, o: nat)
    requires o in k.objects
  {
    var obj := k.objects[o];
    && (match obj case Endpoint(s, q) => (s == EpIdle <==> q == [])
                  case Notification(s, q, _, _) => (s == NtfnWaiting <==> q != []))
    && NoDup(QueueOf(obj))
    && forall t :: t in QueueOf(obj) ==>
         t in k.sched.threads && t in k.tcbs && StateOf(k, t) == WaitState(obj) && k.tcbs[t].blocking.waitsOn == o
  }

  ghost predicate ThreadOk(k: Kernel, t: nat)
    requires t in k.sched.threads && t in k.tcbs
  {
    IsWaiting(StateOf(k, t)) ==>
      k.tcbs[t].blocking.waitsOn in k.objects && t in QueueOf(k.objects[k.tcbs[t].blocking.waitsOn])
  }

  /** A thread waits in the queue of the object it is blocked on, in the matching mode, and nowhere
      else; an endpoint is idle, a notification not waiting, exactly when its queue is empty. */
  ghost predicate QueuesAgree(k: Kernel) {
    && k.tcbs.Keys == k.sched.threads.Keys
    && (forall o {:trigger ObjectOk(k, o)} :: o in k.objects ==> ObjectOk(k, o))
    && (forall t {:trigger ThreadOk(k, t)} :: t in k.sched.threads ==> ThreadOk(k, t))
  }

  /** No thread is in two queues. */
  lemma OneQueueOnly(k: Kernel, t: nat, o: nat, o': nat)
    requires QueuesAgree(k) && o in k.objects && o' in k.objects
    requires t in QueueOf(k.objects[o]) && t in QueueOf(k.objects[o'])
    ensures o == o'
  {
    assert ObjectOk(k, o) && ObjectOk(k, o');
  }

  /** How a step that only takes waiters away treats thread x: it is untouched, or it no longer
      waits and either did not wait before or was one of the waiters taken away. */
  ghost predicate Released(k: Kernel, k': Kernel, o: nat, q: seq<nat>, x: nat)
    requires x in k.sched.threads && x in k'.sched.threads && x in k.tcbs && x in k'.tcbs && o in k.objects
  {
    if x in QueueOf(k.objects[o]) && x !in q then !IsWaiting(StateOf(k', x))
    else
      || (StateOf(k', x) == StateOf(k, x) && k'.tcbs[x].blocking.waitsOn == k.tcbs[x].blocking.waitsOn)
      || (!IsWaiting(StateOf(k, x)) && !IsWaiting(StateOf(k', x)))
  }

  lemma ShrinkAgrees(k: Kernel, k': Kernel, o: nat, q: seq<nat>)
    requires QueuesAgree(k) && o in k.objects && NoDup(q) && forall t :: t in q ==> t in QueueOf(k.objects[o])
    requires k'.objects == k.objects[o := WithQueue(k.objects[o], q)]
    requires k.objects[o].Notification? ==> QueueOf(k.objects[o]) != []
    requires k'.tcbs.Keys == k'.sched.threads.Keys == k.sched.threads.Keys
    requires forall x {:trigger Released(k, k', o, q, x)} :: x in k.sched.threads ==> Released(k, k', o, q, x)
    ensures QueuesAgree(k')
  {
    assert ObjectOk(k, o);
    if q != [] { assert q[0] in QueueOf(k.objects[o]); }
    forall p | p in k'.objects
      ensures ObjectOk(k', p)
    {
      assert ObjectOk(k, p);
      forall t | t in QueueOf(k'.objects[p])
        ensures t in k'.sched.threads && t in k'.tcbs && StateOf(k', t) == WaitState(k'.objects[p])
        ensures k'.tcbs[t].blocking.waitsOn == p
      {
        assert t in QueueOf(k.objects[p]);
        assert Released(k, k', o, q, t);
      }
    }
    forall x | x in k'.sched.threads
      ensures ThreadOk(k', x)
    {
      assert ThreadOk(k, x) && Released(k, k', o, q, x);
    }
  }

  /** How a step that only adds waiter t treats another thread x. */
  ghost predicate Untouched(k: Kernel, k': Kernel, x: nat)
    requires x in k.sched.threads && x in k'.sched.threads && x in k.tcbs && x in k'.tcbs
  {
    || (StateOf(k', x) == StateOf(k, x) && k'.tcbs[x].blocking.waitsOn == k.tcbs[x].blocking.waitsOn)
    || (!IsWaiting(StateOf(k, x)) && !IsWaiting(StateOf(k', x)))
  }

  /** The object after ep_append of t: the mode is the one the operation waits in. */
  function Joined(o: Object, t: nat, send: bool): (r: Object) {
    match o
    case Endpoint(_, q) => Endpoint(if send then EpSend else EpRecv, q + [t])
    case Notification(_, q, w, b) => Notification(NtfnWaiting, q + [t], w, b)
  }

  lemma JoinAgrees(k: Kernel, k': Kernel, o: nat, t: nat, send: bool)
    requires QueuesAgree(k) && o in k.objects && t in k.sched.threads && !IsWaiting(StateOf(k, t))
    requires QueueOf(k.objects[o]) != [] ==> WaitState(Joined(k.objects[o], t, send)) == WaitState(k.objects[o])
    requires k'.objects == k.objects[o := Joined(k.objects[o], t, send)]
    requires k'.tcbs.Keys == k'.sched.threads.Keys == k.sched.threads.Keys
    requires StateOf(k', t) == WaitState(k'.objects[o]) && k'.tcbs[t].blocking.waitsOn == o
    requires forall x {:trigger Untouched(k, k', x)} :: x in k.sched.threads && x != t ==> Untouched(k, k', x)
    ensures QueuesAgree(k')
  {
    assert ObjectOk(k, o);
    forall p | p in k'.objects
      ensures ObjectOk(k', p)
    {
      assert ObjectOk(k, p);
      assert t !in QueueOf(k.objects[p]);
      forall x | x in QueueOf(k'.objects[p])
        ensures x in k'.sched.threads && x in k'.tcbs && StateOf(k', x) == WaitState(k'.objects[p])
        ensures k'.tcbs[x].blocking.waitsOn == p
      {
        if x != t {
          assert x in QueueOf(k.objects[p]);
          assert Untouched(k, k', x);
        }
      }
    }
    forall x | x in k'.sched.threads
      ensures ThreadOk(k', x)
    {
      if x != t { assert ThreadOk(k, x) && Untouched(k, k', x); }
    }
  }

  // ---- replies ----

  /** A reply capability names a thread that is blocked on that very reply, and no other one names it. */
  ghost predicate ReplyOk(k: Kernel, s: nat)
    requires s in k.replies
  {
    && k.replies[s].caller in k.sched.threads && StateOf(k, k.replies[s].caller) == BlockedOnReply
    && forall r :: r in k.replies && k.replies[r].caller == k.replies[s].caller ==> r == s
  }

  /** A thread that waits to receive has an empty caller slot, and a thread that was ever started has
      its master reply capability. */
  ghost predicate CallerOk(k: Kernel, t: nat)
    requires t in k.sched.threads && t in k.tcbs
  {
    && (StateOf(k, t) == BlockedOnReceive ==> CallerSlot(t) !in k.replies)
    && (StateOf(k, t) != Inactive && StateOf(k, t) != IdleState ==> t in k.masters)
  }

  ghost predicate RepliesAgree(k: Kernel) {
    && k.tcbs.Keys == k.sched.threads.Keys
    && (forall s {:trigger ReplyOk(k, s)} :: s in k.replies ==> ReplyOk(k, s))
    && (forall t {:trigger CallerOk(k, t)} :: t in k.sched.threads ==> CallerOk(k, t))
  }

  ghost predicate Agree(k: Kernel) {
    Shape(k) && QueuesAgree(k) && RepliesAgree(k)
  }

  ghost predicate Ok(k: Kernel) {
    Agree(k) && Mid(k.sched)
  }

  // ---- small steps ----

  function SetThreadState(k: Kernel, t: nat, st: ThreadState): (r: Kernel)
    requires Known(k.sched, t)
  {
    k.(sched := SetState(k.sched, t, st))
  }

  function SetBadge(k: Kernel, t: nat, badge: Badge): (r: Kernel)
    requires t in k.tcbs
  {
    k.(tcbs := k.tcbs[t := k.tcbs[t].(badge := badge)])
  }

  /** set_thread_state to a runnable state, then possible_switch_to. */
  function Wake(k: Kernel, t: nat, st: ThreadState): (r: Kernel)
    requires Known(k.sched, t) && (k.sched.action.SwitchTo? ==> Known(k.sched, k.sched.action.thread))
    requires IsRunnableState(st)
    ensures r.sched.threads == k.sched.threads[t := k.sched.threads[t].(state := st)]
    ensures |r.sched.queues| == |k.sched.queues| && r.sched.cur == k.sched.cur && r.sched.idle == k.sched.idle
    ensures r.sched.action.SwitchTo? ==> r.sched.action.thread in k.sched.threads
  {
    k.(sched := PossibleSwitchTo(SetState(k.sched, t, st), t))
  }

  /** setup_caller_cap; the requirements are its assertions. */
  function SetupCallerCap(k: Kernel, receiver: nat, sender: nat, canGrant: bool): (r: Kernel)
    requires Known(k.sched, sender) && receiver in k.tcbs
    requires sender in k.masters && CallerSlot(receiver) !in k.replies
  {
    SetThreadState(k, sender, BlockedOnReply).(replies := k.replies[CallerSlot(receiver) := Reply(sender, canGrant)])
  }

  /** The waiter at the head of an object's queue is taken off. */
  function PopHead(k: Kernel, o: nat): (r: Kernel)
    requires o in k.objects && QueueOf(k.objects[o]) != []
  {
    k.(objects := k.objects[o := WithQueue(k.objects[o], QueueOf(k.objects[o])[1..])])
  }

  /** What the assertions of the operations on object o say: a queue that must have a head has one. */
  predicate HasHead(k: Kernel, o: nat) {
    o in k.objects && QueueOf(k.objects[o]) != [] && QueueOf(k.objects[o])[0] in k.sched.threads
  }

  function HeadOf(k: Kernel, o: nat): (t: nat)
    requires HasHead(k, o)
  {
    QueueOf(k.objects[o])[0]
  }

  // ---- endpoint_t::send_ipc ----

  /** The assertions of send_ipc and, when it is reached, of setup_caller_cap. */
  predicate SendAsserts(k: Kernel, src: nat, ep: nat)
    requires src in k.sched.threads && ep in k.objects && k.objects[ep].Endpoint?
  {
    k.objects[ep].epState == EpRecv ==>
      && HasHead(k, ep) && src in k.masters
      && CallerSlot(QueueOf(k.objects[ep])[0]) !in k.replies
  }

  /** The endpoint has a receiver: it is woken, and a caller is left waiting for the reply. */
  function Deliver(k: Kernel, src: nat, ep: nat, doCall: bool, canGrant: bool, badge: Badge,
      canGrantReply: bool): (r: Kernel)
    requires Shape(k) && src in k.sched.threads && ep in k.objects && k.objects[ep].Endpoint? && SendAsserts(k, src, ep)
    requires k.objects[ep].epState == EpRecv
  {
    var dest := QueueOf(k.objects[ep])[0];
    var k1 := SetBadge(PopHead(k, ep), dest, badge);
    var k2 := Wake(k1, dest, Running);
    if !doCall then k2
    else if canGrant || canGrantReply then SetupCallerCap(k2, dest, src, k.tcbs[dest].blocking.canGrant)
    else SetThreadState(k2, src, Inactive)
  }

  /** The thread stops in the given state at the tail of the object's queue. */
  function BlockOn(k: Kernel, t: nat, o: nat, b: Blocking, st: ThreadState, send: bool): (r: Kernel)
    requires Known(k.sched, t) && t in k.tcbs && o in k.objects
  {
    SetThreadState(k, t, st).(tcbs := k.tcbs[t := k.tcbs[t].(blocking := b)],
      objects := k.objects[o := Joined(k.objects[o], t, send)])
  }

  function SendIpc(k: Kernel, src: nat, ep: nat, blocking: bool, doCall: bool, canGrant: bool, badge: Badge,
      canGrantReply: bool): (r: Kernel)
    requires Shape(k) && src in k.sched.threads && ep in k.objects && k.objects[ep].Endpoint? && SendAsserts(k, src, ep)
  {
    if k.objects[ep].epState == EpRecv then Deliver(k, src, ep, doCall, canGrant, badge, canGrantReply)
    else if blocking then BlockOn(k, src, ep, Blocking(ep, badge, canGrant, canGrantReply, doCall), BlockedOnSend, true)
    else k
  }

  // ---- endpoint_t::receive_ipc ----

  /** complete_signal: a pending signal on the bound notification ends the receive. */
  predicate SignalPending(k: Kernel, t: nat)
    requires t in k.tcbs
  {
    var n := k.tcbs[t].boundTo;
    n != 0 && n in k.objects && k.objects[n].Notification? && k.objects[n].ntfnState == NtfnActive
  }

  /** The pending word goes to t's badge register and the notification becomes idle. */
  function TakeSignal(k: Kernel, t: nat, n: nat): (r: Kernel)
    requires t in k.tcbs && n in k.objects && k.objects[n].Notification?
  {
    var obj := k.objects[n];
    SetBadge(k.(objects := k.objects[n := Notification(NtfnIdle, obj.ntfnQueue, obj.word, obj.boundTcb)]), t, obj.word)
  }

  predicate ReceiveAsserts(k: Kernel, t: nat, ep: nat)
    requires t in k.sched.threads && ep in k.objects && k.objects[ep].Endpoint?
  {
    k.objects[ep].epState == EpSend ==>
      HasHead(k, ep) && QueueOf(k.objects[ep])[0] in k.masters && t in k.tcbs && CallerSlot(t) !in k.replies
  }

  /** The endpoint has a sender: its message is taken; a caller is left waiting for the reply. */
  function Accept(k: Kernel, t: nat, ep: nat, grant: bool): (r: Kernel)
    requires Shape(k) && t in k.sched.threads && ep in k.objects && k.objects[ep].Endpoint? && ReceiveAsserts(k, t, ep)
    requires k.objects[ep].epState == EpSend
  {
    var sender := QueueOf(k.objects[ep])[0];
    var b := k.tcbs[sender].blocking;
    var k1 := SetBadge(PopHead(k, ep), t, b.badge);
    if !b.isCall then Wake(k1, sender, Running)
    else if b.canGrant || b.canGrantReply then SetupCallerCap(k1, t, sender, grant)
    else SetThreadState(k1, sender, Inactive)
  }

  function ReceiveIpc(k: Kernel, t: nat, ep: nat, isBlocking: bool, grant: bool): (r: Kernel)
    requires Shape(k) && t in k.sched.threads && ep in k.objects && k.objects[ep].Endpoint? && ReceiveAsserts(k, t, ep)
  {
    var b := k.tcbs[t].blocking;
    if SignalPending(k, t) then TakeSignal(k, t, k.tcbs[t].boundTo)
    else if k.objects[ep].epState == EpSend then Accept(k, t, ep, grant)
    else if isBlocking
      then BlockOn(k, t, ep, Blocking(ep, b.badge, grant, b.canGrantReply, b.isCall), BlockedOnReceive, false)
    else SetBadge(k, t, {})
  }

  // ---- notification_t::send_signal and receive_signal ----

  /** The object a waiting thread is blocked on exists. */
  predicate WaitsSomewhere(k: Kernel, t: nat) {
    Known(k.sched, t) && t in k.tcbs && k.tcbs[t].blocking.waitsOn in k.objects
  }

  /** cancel_ipc on a thread that waits in a queue. */
  function LeaveQueue(k: Kernel, t: nat): (r: Kernel)
    requires WaitsSomewhere(k, t)
  {
    var o := k.tcbs[t].blocking.waitsOn;
    SetThreadState(k.(objects := k.objects[o := WithQueue(k.objects[o], Remove(QueueOf(k.objects[o]), t))]), t,
      Inactive)
  }

  predicate SignalAsserts(k: Kernel, n: nat)
    requires n in k.objects && k.objects[n].Notification?
  {
    match k.objects[n].ntfnState
    case NtfnIdle => k.objects[n].boundTcb != 0 ==>
      Known(k.sched, k.objects[n].boundTcb)
        && (StateOf(k, k.objects[n].boundTcb) == BlockedOnReceive ==> CancelAsserts(k, k.objects[n].boundTcb))
    case NtfnWaiting => HasHead(k, n)
    case NtfnActive => true
  }

  function SendSignal(k: Kernel, n: nat, badge: Badge): (r: Kernel)
    requires Shape(k) && n in k.objects && k.objects[n].Notification? && SignalAsserts(k, n)
  {
    var obj := k.objects[n];
    match obj.ntfnState
    case NtfnIdle =>
      var t := obj.boundTcb;
      if t != 0 && StateOf(k, t) == BlockedOnReceive then
        Wake(SetBadge(LeaveQueue(k, t), t, badge), t, Running)
      else k.(objects := k.objects[n := Notification(NtfnActive, obj.ntfnQueue, badge, obj.boundTcb)])
    case NtfnWaiting =>
      var dest := QueueOf(obj)[0];
      Wake(SetBadge(PopHead(k, n), dest, badge), dest, Running)
    case NtfnActive =>
      k.(objects := k.objects[n := Notification(NtfnActive, obj.ntfnQueue, obj.word + badge, obj.boundTcb)])
  }

  function ReceiveSignal(k: Kernel, t: nat, n: nat, isBlocking: bool): (r: Kernel)
    requires Shape(k) && t in k.sched.threads && n in k.objects && k.objects[n].Notification?
  {
    var b := k.tcbs[t].blocking;
    if k.objects[n].ntfnState == NtfnActive then TakeSignal(k, t, n)
    else if isBlocking
      then BlockOn(k, t, n, Blocking(n, b.badge, b.canGrant, b.canGrantReply, b.isCall), BlockedOnNotification, false)
    else SetBadge(k, t, {})
  }

  // ---- cancellation ----

  /** The assertion of cancel_ipc: an endpoint that a thread waits on is not idle. */
  predicate CancelAsserts(k: Kernel, t: nat)
    requires t in k.sched.threads
  {
    StateOf(k, t) == BlockedOnSend || StateOf(k, t) == BlockedOnReceive ==>
      WaitsSomewhere(k, t) && var obj := k.objects[k.tcbs[t].blocking.waitsOn]; obj.Endpoint? && obj.epState != EpIdle
  }

  /** Every reply capability for t goes away. */
  function DropReplyOf(k: Kernel, t: nat): (r: Kernel) {
    k.(replies := map s | s in k.replies && k.replies[s].caller != t :: k.replies[s])
  }

  /** tcb_t::cancel_ipc */
  function CancelIpc(k: Kernel, t: nat): (r: Kernel)
    requires Shape(k) && t in k.sched.threads && (IsWaiting(StateOf(k, t)) ==> WaitsSomewhere(k, t))
  {
    if IsWaiting(StateOf(k, t)) then LeaveQueue(k, t)
    else if StateOf(k, t) == BlockedOnReply then DropReplyOf(k.(tcbs := k.tcbs[t := k.tcbs[t].(faulted := false)]), t)
    else k
  }

  /** cancel_all_ipc and cancel_all_signal: everybody who waits is restarted. */
  function CancelAll(k: Kernel, o: nat): (r: Kernel)
    requires Ok(k) && o in k.objects
  {
    var obj := k.objects[o];
    assert ObjectOk(k, o);
    var idle := match obj case Endpoint(s, _) => s == EpIdle case Notification(s, _, _, _) => s != NtfnWaiting;
    if idle then k
    else k.(objects := k.objects[o := WithQueue(obj, [])], sched := RescheduleRequired(ReadyAll(k.sched, QueueOf(obj))))
  }

  /** The waiters of q with (or without) the badge, in order. */
  function WithBadge(tcbs: map<nat, Tcb>, q: seq<nat>, badge: Badge, matching: bool): (r: seq<nat>)
    requires forall t :: t in q ==> t in tcbs
    ensures forall t :: t in r <==> t in q && (tcbs[t].blocking.badge == badge) == matching
  {
    if q == [] then []
    else
      assert q[0] in q;
      var rest := WithBadge(tcbs, q[1..], badge, matching);
      if (tcbs[q[0]].blocking.badge == badge) == matching then [q[0]] + rest else rest
  }

  /** cancel_badged_sends */
  function CancelBadgedSends(k: Kernel, ep: nat, badge: Badge): (r: Kernel)
    requires Ok(k) && ep in k.objects && k.objects[ep].Endpoint?
  {
    var obj := k.objects[ep];
    assert ObjectOk(k, ep);
    if obj.epState != EpSend then k
    else
      var victims := WithBadge(k.tcbs, obj.epQueue, badge, true);
      k.(objects := k.objects[ep := WithQueue(obj, WithBadge(k.tcbs, obj.epQueue, badge, false))],
         sched := RescheduleRequired(ReadyAll(k.sched, victims)))
  }

  // ---- replies ----

  /** delete_one on a slot, as far as reply capabilities go. */
  function DeleteReply(k: Kernel, slot: nat): (r: Kernel) {
    k.(replies := map s | s in k.replies && s != slot :: k.replies[s])
  }

  /** Moving a capability between slots: SaveCaller and the CNode operations. */
  function MoveReply(k: Kernel, from: nat, to: nat): (r: Kernel)
    requires from in k.replies
  {
    k.(replies := (map s | s in k.replies && s != from :: k.replies[s])[to := k.replies[from]])
  }

  /** do_reply through the reply capability in slot; resume is what the fault handler's label decides. */
  function DoReply(k: Kernel, slot: nat, resume: bool): (r: Kernel)
    requires Shape(k) && slot in k.replies && k.replies[slot].caller in k.sched.threads
    requires StateOf(k, k.replies[slot].caller) == BlockedOnReply
  {
    var receiver := k.replies[slot].caller;
    var k1 := DeleteReply(k, slot);
    if !k.tcbs[receiver].faulted then Wake(SetBadge(k1, receiver, {}), receiver, Running)
    else if resume then Wake(k1, receiver, Restart)
    else SetThreadState(k1, receiver, Inactive)
  }

  // ---- TCB invocations and bindings ----

  /** setup_reply_master */
  function SetupMaster(k: Kernel, t: nat): (r: Kernel) {
    k.(masters := k.masters + {t})
  }

  /** cancel_ipc followed by suspend. */
  function SuspendThread(k: Kernel, t: nat): (r: Kernel)
    requires Shape(k) && t in k.sched.threads && (IsWaiting(StateOf(k, t)) ==> WaitsSomewhere(k, t))
  {
    var c := CancelIpc(k, t);
    c.(sched := Dequeue(SetState(c.sched, t, Inactive), t))
  }

  /** cancel_ipc followed by restart. */
  function ResumeThread(k: Kernel, t: nat): (r: Kernel)
    requires Shape(k) && t in k.sched.threads && (IsWaiting(StateOf(k, t)) ==> WaitsSomewhere(k, t))
  {
    var c := CancelIpc(k, t);
    if IsStoppedState(StateOf(c, t)) then SetupMaster(c, t).(sched := RestartIfStopped(c.sched, t)) else c
  }

  /** do_bind_notification */
  function Bind(k: Kernel, t: nat, n: nat): (r: Kernel)
    requires t in k.tcbs && n in k.objects && k.objects[n].Notification?
  {
    var obj := k.objects[n];
    k.(tcbs := k.tcbs[t := k.tcbs[t].(boundTo := n)],
       objects := k.objects[n := Notification(obj.ntfnState, obj.ntfnQueue, obj.word, t)])
  }

  /** safe_unbind_notification: the thread's own notification is released. */
  function Unbind(k: Kernel, t: nat): (r: Kernel)
    requires t in k.tcbs && BindingOk(k, t)
  {
    var n := k.tcbs[t].boundTo;
    if n == 0 then k
    else
      var obj := k.objects[n];
      k.(tcbs := k.tcbs[t := k.tcbs[t].(boundTo := 0)],
         objects := k.objects[n := Notification(obj.ntfnState, obj.ntfnQueue, obj.word, 0)])
  }

  // ---- new threads and objects ----

  datatype NewKind = NewTcb | NewEndpoint | NewNotification

  const NO_BLOCKING := Blocking(0, {}, false, false, false)

  /** What retype's memory is to IPC: a stopped thread, or an object that nobody uses. */
  function Create(k: Kernel, o: nat, kind: NewKind): (r: Kernel) {
    match kind
    case NewTcb =>
      k.(sched := k.sched.(threads := k.sched.threads[o := Thread(Inactive, 0, TIME_SLICE)]),
        tcbs := k.tcbs[o := Tcb(NO_BLOCKING, 0, {}, false)])
    case NewEndpoint => k.(objects := k.objects[o := Endpoint(EpIdle, [])])
    case NewNotification => k.(objects := k.objects[o := Notification(NtfnIdle, [], {}, 0)])
  }

  /** Its memory is not in use. */
  predicate MayCreate(k: Kernel, o: nat, kind: NewKind) {
    o != 0 && if kind.NewTcb? then o !in k.sched.threads && o % TCB_SIZE == TCB_OFFSET else o !in k.objects
  }
}
