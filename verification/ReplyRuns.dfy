/** Reply capabilities over whole runs (sel4_task/src/tcb.rs, sel4_ipc/src/transfer.rs): whatever operations come in
    whatever order, threads, replies and derivation lists stay in step. */
module ReplyRuns {
  import opened Config
  import opened Caps
  import opened Mdb
  import opened Containers
  import opened CNodeOps
  import opened SchedulerSpec
  import opened IpcSpec
  import opened IpcInvariants
  import opened IpcSafety
  import opened KernelExit
  import opened IpcRuns
  import opened ReplySlots
  import opened ReplyEffects

  // ---- threads, replies and capability space in step ----

  ghost predicate Seated(k: Kernel, slots: Slots, l: Layout, t: nat) {
    Started(k, t) ==> ThreadSlots(slots, l, t)
  }

  /** IPC's replies and masters are those in the slots, and every started thread has its TCB's slots. */
  ghost predicate Coupled(k: Kernel, d: Db, l: Layout) {
    && DbOk(d, l) && k.replies == RepliesOf(d.slots) && k.masters == MastersOf(d.slots)
    && forall t {:trigger Seated(k, d.slots, l, t)} :: Seated(k, d.slots, l, t)
  }

  ghost predicate MayEffect(d: Db, l: Layout, e: Effect) {
    match e
    case Insert(sender, receiver, _) => MayInsert(d, l, sender, receiver)
    case Delete(slot) => slot in d.slots ==> d.slots[slot].cap == NullCap || slot in RepliesOf(d.slots)
    case Cancel(t) => t in MastersOf(d.slots)
    case Transfer(from, to) =>
      from in RepliesOf(d.slots) && from in l.owner && UserSlot(d.slots, l, to) && d.slots[to].cap == NullCap
    case Master(t) => t % TCB_SIZE == TCB_OFFSET && Live(d.slots, TcbOf(t))
  }

  /** d' is d after effects that replies and masters follow. */
  ghost predicate Advanced(d: Db, d': Db, l: Layout, es: seq<Effect>) {
    && DbOk(d', l) && OnlyReplies(d.slots, d'.slots)
    && RepliesOf(d'.slots) == AllReplies(RepliesOf(d.slots), es)
    && MastersOf(d'.slots) == AllMasters(MastersOf(d.slots), es)
  }

  lemma EffectStep(d: Db, d': Db, l: Layout, e: Effect)
    requires DbOk(d, l) && MayEffect(d, l, e) && Effected(d, d', e)
    ensures Advanced(d, d', l, [e])
  {
    Unfold1(RepliesOf(d.slots), MastersOf(d.slots), e);
    match e
    case Insert(sender, receiver, grant) => InsertStep(d, d', l, sender, receiver, grant);
    case Delete(slot) => DeleteStep(d, d', l, slot);
    case Cancel(t) => CancelStep(d, d', l, t);
    case Transfer(from, to) => MoveStep(d, d', l, from, to);
    case Master(t) => MasterStep(d, d', l, t);
  }

  lemma NoEffect(d: Db, l: Layout)
    requires DbOk(d, l)
    ensures Advanced(d, d, l, [])
  {
    assert forall b :: b in d.slots ==> ReplyChange(d.slots, d.slots, b);
  }

  lemma OneEffect(d: Db, d': Db, l: Layout, e: Effect)
    requires DbOk(d, l) && MayEffect(d, l, e) && AllEffected(d, d', [e])
    ensures Advanced(d, d', l, [e])
  {
    assert [e][1..] == [];
    var m :| Effected(d, m, e) && AllEffected(m, d', []);
    EffectStep(d, m, l, e);
  }

  lemma OnlyRepliesTrans(s: Slots, m: Slots, s': Slots)
    requires OnlyReplies(s, m) && OnlyReplies(m, s')
    ensures OnlyReplies(s, s')
  {
    forall b | b in s
      ensures ReplyChange(s, s', b)
    {
      assert ReplyChange(s, m, b) && ReplyChange(m, s', b);
    }
  }

  lemma TwoEffects(d: Db, d': Db, l: Layout, e: Effect, f: Effect)
    requires DbOk(d, l) && MayEffect(d, l, e) && AllEffected(d, d', [e] + [f])
    requires forall m {:trigger Effected(d, m, e)} :: Effected(d, m, e) && Advanced(d, m, l, [e]) ==> MayEffect(m, l, f)
    ensures Advanced(d, d', l, [e] + [f])
  {
    assert ([e] + [f])[1..] == [f];
    var m :| Effected(d, m, e) && AllEffected(m, d', [f]);
    EffectStep(d, m, l, e);
    OneEffect(m, d', l, f);
    OnlyRepliesTrans(d.slots, m.slots, d'.slots);
    Unfold1(RepliesOf(d.slots), MastersOf(d.slots), e);
    Unfold1(RepliesOf(m.slots), MastersOf(m.slots), f);
    Unfold2(RepliesOf(d.slots), MastersOf(d.slots), e, f);
  }

  /** What an operation needs of the slots it names: a resumed thread is named by a capability, and a saved
      reply capability goes to an empty slot. */
  ghost predicate MaySlots(d: Db, l: Layout, op: KernelOp) {
    match op
    case ResumeTcb(t) => ThreadSlots(d.slots, l, t)
    case SaveReply(from, to) => from in l.owner && UserSlot(d.slots, l, to) && d.slots[to].cap == NullCap
    case _ => true
  }

  // ---- each operation is allowed its effects ----

  /** A thread that is neither the idle one nor blocked on a reply may call, and a started thread without a pending
      reply may be called. */
  lemma CallAllowed(k: Kernel, d: Db, l: Layout, sender: nat, receiver: nat)
    requires Agree(k) && Coupled(k, d, l) && Started(k, sender) && Started(k, receiver)
    requires sender in k.masters && StateOf(k, sender) != BlockedOnReply && CallerSlot(receiver) !in k.replies
    ensures MayInsert(d, l, sender, receiver)
  {
    assert Seated(k, d.slots, l, sender) && Seated(k, d.slots, l, receiver);
    forall s | s in k.replies
      ensures k.replies[s].caller != sender
    {
      assert ReplyOk(k, s);
    }
  }

  lemma SendAdvances(k: Kernel, d: Db, l: Layout, ep: nat, call: bool, mayReply: bool, d': Db)
    requires Ok(k) && Coupled(k, d, l) && CurrentRuns(k) && IsEndpoint(k, ep) && SendAsserts(k, k.sched.cur, ep)
    requires AllEffected(d, d', SendEffects(k, k.sched.cur, ep, call, mayReply))
    ensures Advanced(d, d', l, SendEffects(k, k.sched.cur, ep, call, mayReply))
  {
    assert ObjectOk(k, ep);
    var es := SendEffects(k, k.sched.cur, ep, call, mayReply);
    NoEffect(d, l);
    if es != [] {
      CallAllowed(k, d, l, es[0].sender, es[0].receiver);
      OneEffect(d, d', l, es[0]);
    }
  }

  lemma SendsAdvance(k: Kernel, d: Db, l: Layout, op: KernelOp, d': Db)
    requires Ok(k) && Coupled(k, d, l) && May(k, op) && (op.Send? || op.Fault?) && AllEffected(d, d', EffectsOf(k, op))
    ensures Advanced(d, d', l, EffectsOf(k, op))
  {
    match op
    case Send(ep, blocking, call, canGrant, badge, canGrantReply) =>
      SendOk(k, ep, blocking, call, canGrant, badge, canGrantReply);
      SendAdvances(k, d, l, ep, call, canGrant || canGrantReply, d');
    case Fault(ep, canGrant, badge) =>
      SendOk(k, ep, true, true, canGrant, badge, true);
      SendAdvances(k, d, l, ep, true, true, d');
  }

  lemma ReceiveAdvances(k: Kernel, d: Db, l: Layout, ep: nat, grant: bool, d': Db)
    requires Ok(k) && Coupled(k, d, l) && CurrentRuns(k) && IsEndpoint(k, ep)
    requires (k.objects[ep].epState == EpSend ==> HasHead(k, ep))
    requires AllEffected(d, d', ReceiveEffects(k, ep, grant))
    ensures Advanced(d, d', l, ReceiveEffects(k, ep, grant))
  {
    var es := ReceiveEffects(k, ep, grant);
    assert Seated(k, d.slots, l, k.sched.cur);
    if |es| == 1 {
      OneEffect(d, d', l, es[0]);
    } else {
      assert es == [es[0]] + [es[1]];
      forall m {:trigger Effected(d, m, es[0])} | Effected(d, m, es[0]) && Advanced(d, m, l, [es[0]])
        ensures MayEffect(m, l, es[1])
      {
        AcceptAllowed(k, d, m, l, ep, es[1].sender);
      }
      TwoEffects(d, d', l, es[0], es[1]);
    }
  }

  /** After the caller slot is emptied, the caller at the head of the endpoint may be accepted. */
  lemma AcceptAllowed(k: Kernel, d: Db, m: Db, l: Layout, ep: nat, sender: nat)
    requires Ok(k) && Coupled(k, d, l) && CurrentRuns(k) && IsEndpoint(k, ep) && k.objects[ep].epState == EpSend
    requires HasHead(k, ep) && sender == QueueOf(k.objects[ep])[0]
    requires Advanced(d, m, l, [Delete(CallerSlot(k.sched.cur))])
    ensures MayInsert(m, l, sender, k.sched.cur)
  {
    assert ObjectOk(k, ep) && CallerOk(k, sender);
    Unfold1(RepliesOf(d.slots), MastersOf(d.slots), Delete(CallerSlot(k.sched.cur)));
    assert Seated(k, d.slots, l, sender) && Seated(k, d.slots, l, k.sched.cur);
    ThreadSlotsKept(d.slots, m.slots, l, sender);
    ThreadSlotsKept(d.slots, m.slots, l, k.sched.cur);
    forall s | s in k.replies
      ensures k.replies[s].caller != sender
    {
      assert ReplyOk(k, s);
    }
  }

  lemma ResumeAdvances(k: Kernel, d: Db, l: Layout, t: nat, d': Db)
    requires Ok(k) && Coupled(k, d, l) && May(k, ResumeTcb(t)) && MaySlots(d, l, ResumeTcb(t))
    requires AllEffected(d, d', EffectsOf(k, ResumeTcb(t)))
    ensures Advanced(d, d', l, EffectsOf(k, ResumeTcb(t)))
  {
    var es := EffectsOf(k, ResumeTcb(t));
    NoEffect(d, l);
    assert CallerOk(k, t);
    if |es| == 1 {
      assert es == [es[0]];
      OneEffect(d, d', l, es[0]);
    } else if |es| == 2 {
      assert es == [es[0]] + [es[1]];
      forall m {:trigger Effected(d, m, es[0])} | Effected(d, m, es[0]) && Advanced(d, m, l, [es[0]])
        ensures MayEffect(m, l, es[1])
      {
        ThreadSlotsKept(d.slots, m.slots, l, t);
      }
      TwoEffects(d, d', l, es[0], es[1]);
    }
  }

  lemma FastCallAdvances(k: Kernel, d: Db, l: Layout, op: KernelOp, d': Db)
    requires Ok(k) && Coupled(k, d, l) && op.FastCall? && May(k, op) && AllEffected(d, d', EffectsOf(k, op))
    ensures Advanced(d, d', l, EffectsOf(k, op))
  {
    var e := EffectsOf(k, op)[0];
    HeadWaits(k, op.ep);
    assert CallerOk(k, k.sched.cur);
    CallAllowed(k, d, l, e.sender, e.receiver);
    OneEffect(d, d', l, e);
  }

  lemma SimpleAdvances(k: Kernel, d: Db, l: Layout, op: KernelOp, d': Db)
    requires Ok(k) && Coupled(k, d, l) && May(k, op) && MaySlots(d, l, op) && AllEffected(d, d', EffectsOf(k, op))
    requires !op.Send? && !op.Fault? && !op.Receive? && !op.ResumeTcb? && !op.FastCall?
    ensures Advanced(d, d', l, EffectsOf(k, op))
  {
    var es := EffectsOf(k, op);
    NoEffect(d, l);
    if op.SuspendTcb? { assert CallerOk(k, op.t); }
    if es != [] {
      assert es == [es[0]];
      OneEffect(d, d', l, es[0]);
    }
  }

  lemma StepAdvances(k: Kernel, d: Db, l: Layout, op: KernelOp, d': Db)
    requires Ok(k) && Coupled(k, d, l) && May(k, op) && MaySlots(d, l, op) && AllEffected(d, d', EffectsOf(k, op))
    ensures Advanced(d, d', l, EffectsOf(k, op))
  {
    if op.Send? || op.Fault? { SendsAdvance(k, d, l, op, d'); }
    else if op.Receive? { assert ObjectOk(k, op.ep); ReceiveAdvances(k, d, l, op.ep, op.grant, d'); }
    else if op.ResumeTcb? { ResumeAdvances(k, d, l, op.t, d'); }
    else if op.FastCall? { FastCallAdvances(k, d, l, op, d'); }
    else { SimpleAdvances(k, d, l, op, d'); }
  }

  /** Every operation keeps threads, replies and capability space in step. */
  lemma StepKeepsCoupled(k: Kernel, d: Db, l: Layout, op: KernelOp, d': Db)
    requires Ok(k) && Coupled(k, d, l) && May(k, op) && MaySlots(d, l, op) && AllEffected(d, d', EffectsOf(k, op))
    ensures Coupled(Step(k, op), d', l)
  {
    StepAdvances(k, d, l, op, d');
    StepFollows(k, op);
    var r := Step(k, op);
    if !op.ResumeTcb? { OnlyResumeStarts(k, op); } else { assert ThreadOk(k, op.t); ResumeStartsOne(k, op.t); }
    forall t
      ensures Seated(r, d'.slots, l, t)
    {
      if Started(r, t) {
        assert Seated(k, d.slots, l, t);
        ThreadSlotsKept(d.slots, d'.slots, l, t);
      }
    }
  }

  // ---- other operations on capabilities ----

  /** A reply capability that IPC knows, perhaps from another slot. */
  ghost predicate WasThere(k: Kernel, slots: Slots, s: nat)
    requires s in RepliesOf(slots)
  {
    exists b :: b in k.replies && k.replies[b] == RepliesOf(slots)[s]
  }

  /** What started threads keep: their slots and masters, and nobody writes the caller slot of a thread that waits to
      receive. */
  ghost predicate StillSeated(k: Kernel, slots: Slots, l: Layout, t: nat) {
    Started(k, t) ==>
      && ThreadSlots(slots, l, t) && (t in k.masters ==> t in MastersOf(slots))
      && (StateOf(k, t) == BlockedOnReceive ==> CallerSlot(t) !in RepliesOf(slots))
  }

  /** What the kernel relies on while capabilities are copied, moved, retyped, deleted or revoked: the invariant of the
      capability space is kept, no reply capability is made, and started threads keep what they have. */
  ghost predicate MayChange(k: Kernel, d: Db, l: Layout) {
    && DbOk(d, l)
    && (forall s {:trigger WasThere(k, d.slots, s)} :: s in RepliesOf(d.slots) ==> WasThere(k, d.slots, s))
    && (forall t {:trigger StillSeated(k, d.slots, l, t)} :: StillSeated(k, d.slots, l, t))
  }

  /** IPC sees the replies and masters that are left. */
  function Changed(k: Kernel, slots: Slots): (r: Kernel) {
    k.(replies := RepliesOf(slots), masters := MastersOf(slots))
  }

  lemma ChangeKeepsOk(k: Kernel, d: Db, l: Layout)
    requires Ok(k) && MayChange(k, d, l)
    ensures Ok(Changed(k, d.slots)) && Coupled(Changed(k, d.slots), d, l)
  {
    var r := Changed(k, d.slots);
    LinkedBehindMasters(d, l);
    forall s | s in r.replies
      ensures ReplyOk(r, s)
    {
      assert WasThere(k, d.slots, s);
      var b :| b in k.replies && k.replies[b] == r.replies[s];
      assert ReplyOk(k, b);
    }
    forall t | t in r.sched.threads
      ensures CallerOk(r, t)
    {
      assert CallerOk(k, t) && StillSeated(k, d.slots, l, t);
      assert Started(k, t) || StateOf(k, t) == Inactive || t == k.sched.idle;
    }
    forall t
      ensures Seated(r, d.slots, l, t)
    {
      assert StillSeated(k, d.slots, l, t);
      assert Started(r, t) ==> Started(k, t);
    }
    assert RepliesAgree(r);
    TablesKept(k, r);
  }

  lemma TablesKept(k: Kernel, r: Kernel)
    requires Ok(k) && RepliesAgree(r) && r == k.(replies := r.replies, masters := r.masters)
    ensures Ok(r)
  {
    forall t | t in r.tcbs
      ensures Placed(r, t) && BindingOk(r, t) && ThreadOk(r, t)
    {
      assert Placed(k, t) && BindingOk(k, t) && ThreadOk(k, t);
    }
    forall o | o in r.objects
      ensures BoundThreadOk(r, o) && ObjectOk(r, o)
    {
      assert BoundThreadOk(k, o) && ObjectOk(k, o);
    }
  }

  lemma LeaveKeepsCoupled(k: Kernel, d: Db, l: Layout)
    requires Ok(k) && Coupled(k, d, l)
    ensures Ok(Leave(k)) && Coupled(Leave(k), d, l)
  {
    var r := Leave(k);
    StableIsMid(r.sched);
    ScheduleKeepsThreads(k.sched);
    forall t
      ensures Seated(r, d.slots, l, t)
    {
      assert Seated(k, d.slots, l, t);
    }
  }
}
