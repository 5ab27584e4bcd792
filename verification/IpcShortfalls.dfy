/** Runs from boot at which IPC falls short (kernel/src/syscall/invocation/invoke_tcb.rs,
    sel4_ipc/src/notification.rs): one after which two threads name the same notification, one after which a thread
    sleeps on a pending signal, and one after which a thread sends a fault that has been answered. */
module IpcShortfalls {
  import opened SchedulerSpec
  import opened IpcSpec
  import opened IpcInvariants
  import opened ReplySafety
  import opened KernelExit
  import opened IpcRuns
  import opened BootState
  import opened Bindings
  import opened Faults

  // The idle thread, the initial thread and one more; an endpoint and a notification.
  const IDLE := 1
  const INITIAL := 512
  const OTHER := 1536
  const ENDPOINT := 8192
  const NOTICE := 4096

  ghost function Booted(): (k: Kernel)
    ensures AtUserLevel(k)
  {
    BootKernelOk(IDLE, INITIAL, {OTHER}, {ENDPOINT}, {NOTICE});
    Leave(BootKernel(IDLE, INITIAL, {OTHER}, {ENDPOINT}, {NOTICE}))
  }

  // ---- entries of one operation ----

  lemma OneOp(k: Kernel, op: KernelOp)
    requires Ok(k)
    ensures MayAll(k, [op]) <==> May(k, op)
    ensures May(k, op) ==> Steps(k, [op]) == Step(k, op)
  {
    assert [op][1..] == [];
  }

  /** A run begins with an entry of one operation. */
  lemma RunOne(k: Kernel, op: KernelOp, rest: seq<seq<KernelOp>>)
    requires AtUserLevel(k) && Ok(k) && May(k, op) && RunMay(Leave(Step(k, op)), rest)
    ensures RunMay(k, [[op]] + rest) && Run(k, [[op]] + rest) == Run(Leave(Step(k, op)), rest)
  {
    var entries := [[op]] + rest;
    assert entries[0] == [op] && entries[1..] == rest;
    OneOp(k, op);
  }

  // ---- the threads of the runs ----

  ghost predicate Threads(k: Kernel) {
    && k.sched.threads.Keys == {IDLE, INITIAL, OTHER} && k.tcbs.Keys == {IDLE, INITIAL, OTHER} && k.sched.idle == IDLE
    && k.sched.threads[INITIAL].prio == NUM_PRIORITIES - 1 && k.sched.threads[OTHER].prio == 0
  }

  /** The initial thread outranks the other one, which outranks the idle thread. */
  lemma WhoRuns(k: Kernel)
    requires AtUserLevel(k) && Threads(k)
    ensures Runnable(k.sched, INITIAL) ==> k.sched.cur == INITIAL
    ensures !Runnable(k.sched, INITIAL) && Runnable(k.sched, OTHER) ==> k.sched.cur == OTHER
  {
    assert Settled(k.sched, INITIAL) && Settled(k.sched, OTHER);
  }

  lemma BootedIs()
    ensures Threads(Booted()) && Booted().sched.cur == INITIAL && Ok(Booted())
    ensures Booted().objects == map[ENDPOINT := Endpoint(EpIdle, []), NOTICE := Notification(NtfnIdle, [], {}, 0)]
    ensures forall t :: t in Booted().tcbs ==> Booted().tcbs[t].boundTo == 0
    ensures StateOf(Booted(), OTHER) == Inactive && Runnable(Booted().sched, INITIAL)
  {
    BootKernelOk(IDLE, INITIAL, {OTHER}, {ENDPOINT}, {NOTICE});
    var k := BootKernel(IDLE, INITIAL, {OTHER}, {ENDPOINT}, {NOTICE});
    LeaveKeeps(k);
    assert INITIAL in k.sched.threads && OTHER in k.sched.threads;
    WhoRuns(Booted());
  }

  // ---- two bindings to one notification ----

  const BIND_TWICE: seq<seq<KernelOp>> := [[BindNtfn(INITIAL, NOTICE)]] + ([[BindNtfn(OTHER, NOTICE)]] + [])

  /** A kernel entry of one operation. */
  ghost function After(k: Kernel, op: KernelOp): (r: Kernel)
    requires Ok(k) && May(k, op)
    ensures AtUserLevel(r) && Ok(r)
  {
    LeaveKeeps(Step(k, op));
    Leave(Step(k, op))
  }

  lemma AfterBind(k: Kernel, t: nat, n: nat)
    requires Ok(k) && BindAllowed(k, t, n)
    ensures After(k, BindNtfn(t, n)).objects == Bind(k, t, n).objects
    ensures After(k, BindNtfn(t, n)).tcbs == Bind(k, t, n).tcbs
  {
    LeaveKeeps(Step(k, BindNtfn(t, n)));
  }

  lemma BindTwiceRuns(k: Kernel)
    requires AtUserLevel(k) && Ok(k) && BindAllowed(k, INITIAL, NOTICE)
    requires BindAllowed(After(k, BindNtfn(INITIAL, NOTICE)), OTHER, NOTICE)
    ensures RunMay(k, BIND_TWICE)
    ensures Run(k, BIND_TWICE) == After(After(k, BindNtfn(INITIAL, NOTICE)), BindNtfn(OTHER, NOTICE))
  {
    RunOne(After(k, BindNtfn(INITIAL, NOTICE)), BindNtfn(OTHER, NOTICE), []);
    RunOne(k, BindNtfn(INITIAL, NOTICE), [[BindNtfn(OTHER, NOTICE)]] + []);
  }

  lemma AfterTwoBinds(k: Kernel)
    requires Ok(k) && BindAllowed(k, INITIAL, NOTICE) && OTHER in k.tcbs && k.tcbs[OTHER].boundTo == 0
    ensures BindAllowed(After(k, BindNtfn(INITIAL, NOTICE)), OTHER, NOTICE)
    ensures !OneToOne(After(After(k, BindNtfn(INITIAL, NOTICE)), BindNtfn(OTHER, NOTICE)))
  {
    AfterBind(k, INITIAL, NOTICE);
    var k1 := After(k, BindNtfn(INITIAL, NOTICE));
    AfterBind(k1, OTHER, NOTICE);
    NotOneToOne(After(k1, BindNtfn(OTHER, NOTICE)));
  }

  /** Binding a second thread is allowed, and leaves the first one naming a notification that names the second. */
  lemma SecondBindingReached()
    ensures RunMay(Booted(), BIND_TWICE) && !OneToOne(Run(Booted(), BIND_TWICE))
  {
    BootedIs();
    AfterTwoBinds(Booted());
    BindTwiceRuns(Booted());
  }

  lemma NotOneToOne(k: Kernel)
    requires INITIAL in k.tcbs && k.tcbs[INITIAL].boundTo == NOTICE && IsNotification(k, NOTICE)
    requires k.objects[NOTICE].boundTcb == OTHER
    ensures !OneToOne(k)
  {
    assert !Mutual(k, INITIAL, NOTICE);
  }

  // ---- a thread that sleeps on a pending signal ----

  const SLEEP: seq<seq<KernelOp>> :=
    [[ResumeTcb(OTHER)]] +
      ([[Receive(ENDPOINT, true, false)]] + ([[Signal(NOTICE, {0})]] + ([[BindNtfn(INITIAL, NOTICE)]] + [])))

  lemma ResumeEffect(k: Kernel)
    requires Ok(k) && Threads(k) && StateOf(k, OTHER) == Inactive && Runnable(k.sched, INITIAL)
    ensures May(k, ResumeTcb(OTHER))
    ensures var m := Step(k, ResumeTcb(OTHER)); Threads(m) && m.objects == k.objects && m.tcbs == k.tcbs
    ensures
      var m := Step(k, ResumeTcb(OTHER));
      StateOf(m, OTHER) == Restart && StateOf(m, INITIAL) == StateOf(k, INITIAL)
  {
    assert ThreadOk(k, OTHER);
  }

  /** The other thread is resumed. */
  lemma AfterResume(k: Kernel)
    requires Ok(k) && Threads(k) && StateOf(k, OTHER) == Inactive && Runnable(k.sched, INITIAL)
    ensures May(k, ResumeTcb(OTHER))
    ensures
      var r := After(k, ResumeTcb(OTHER));
      && Threads(r) && r.objects == k.objects && r.tcbs == k.tcbs
      && Runnable(r.sched, OTHER) && Runnable(r.sched, INITIAL) && r.sched.cur == INITIAL
  {
    ResumeEffect(k);
    LeaveKeeps(Step(k, ResumeTcb(OTHER)));
    WhoRuns(After(k, ResumeTcb(OTHER)));
  }

  lemma ReceiveEffect(k: Kernel)
    requires Ok(k) && AtUserLevel(k) && Threads(k) && k.sched.cur == INITIAL
    requires ENDPOINT in k.objects && k.objects[ENDPOINT] == Endpoint(EpIdle, []) && k.tcbs[INITIAL].boundTo == 0
    ensures May(k, Receive(ENDPOINT, true, false))
    ensures
      var m := Step(k, Receive(ENDPOINT, true, false));
      && Threads(m) && StateOf(m, INITIAL) == BlockedOnReceive && StateOf(m, OTHER) == StateOf(k, OTHER)
      && m.tcbs[INITIAL].boundTo == 0
      && (NOTICE in k.objects ==> NOTICE in m.objects && m.objects[NOTICE] == k.objects[NOTICE])
  {
    assert CurrentRuns(k);
  }

  /** The initial thread waits to receive, so the other one runs. */
  lemma AfterReceive(k: Kernel)
    requires Ok(k) && AtUserLevel(k) && Threads(k) && k.sched.cur == INITIAL && Runnable(k.sched, OTHER)
    requires ENDPOINT in k.objects && k.objects[ENDPOINT] == Endpoint(EpIdle, []) && k.tcbs[INITIAL].boundTo == 0
    requires NOTICE in k.objects
    ensures May(k, Receive(ENDPOINT, true, false))
    ensures
      var r := After(k, Receive(ENDPOINT, true, false));
      && Threads(r) && r.sched.cur == OTHER && StateOf(r, INITIAL) == BlockedOnReceive && r.tcbs[INITIAL].boundTo == 0
      && NOTICE in r.objects && r.objects[NOTICE] == k.objects[NOTICE]
  {
    ReceiveEffect(k);
    LeaveKeeps(Step(k, Receive(ENDPOINT, true, false)));
    WhoRuns(After(k, Receive(ENDPOINT, true, false)));
  }

  /** A signal to the unbound notification stays pending. */
  lemma AfterSignal(k: Kernel)
    requires Ok(k) && Threads(k) && StateOf(k, INITIAL) == BlockedOnReceive && k.tcbs[INITIAL].boundTo == 0
    requires NOTICE in k.objects && k.objects[NOTICE] == Notification(NtfnIdle, [], {}, 0)
    ensures May(k, Signal(NOTICE, {0}))
    ensures
      var r := After(k, Signal(NOTICE, {0}));
      && Threads(r) && StateOf(r, INITIAL) == BlockedOnReceive && r.tcbs[INITIAL].boundTo == 0
      && NOTICE in r.objects && r.objects[NOTICE] == Notification(NtfnActive, [], {0}, 0)
  {
    LeaveKeeps(Step(k, Signal(NOTICE, {0})));
  }

  lemma SleepRuns(k: Kernel)
    requires AtUserLevel(k) && Ok(k) && May(k, ResumeTcb(OTHER))
    requires May(After(k, ResumeTcb(OTHER)), Receive(ENDPOINT, true, false))
    requires
      var k2 := After(After(k, ResumeTcb(OTHER)), Receive(ENDPOINT, true, false));
      May(k2, Signal(NOTICE, {0})) && May(After(k2, Signal(NOTICE, {0})), BindNtfn(INITIAL, NOTICE))
    ensures
      var k2 := After(After(k, ResumeTcb(OTHER)), Receive(ENDPOINT, true, false));
      RunMay(k, SLEEP) && Run(k, SLEEP) == After(After(k2, Signal(NOTICE, {0})), BindNtfn(INITIAL, NOTICE))
  {
    var k1 := After(k, ResumeTcb(OTHER));
    var k2 := After(k1, Receive(ENDPOINT, true, false));
    var k3 := After(k2, Signal(NOTICE, {0}));
    var e4 := [[BindNtfn(INITIAL, NOTICE)]] + [];
    var e3 := [[Signal(NOTICE, {0})]] + e4;
    var e2 := [[Receive(ENDPOINT, true, false)]] + e3;
    RunOne(k3, BindNtfn(INITIAL, NOTICE), []);
    RunOne(k2, Signal(NOTICE, {0}), e4);
    RunOne(k1, Receive(ENDPOINT, true, false), e3);
    RunOne(k, ResumeTcb(OTHER), e2);
  }

  lemma AfterLateBind(k: Kernel)
    requires Ok(k) && Threads(k) && StateOf(k, INITIAL) == BlockedOnReceive && k.tcbs[INITIAL].boundTo == 0
    requires NOTICE in k.objects && k.objects[NOTICE] == Notification(NtfnActive, [], {0}, 0)
    ensures May(k, BindNtfn(INITIAL, NOTICE)) && !Heard(After(k, BindNtfn(INITIAL, NOTICE)), NOTICE)
  {
    LateBindEffect(k);
    var m := Step(k, BindNtfn(INITIAL, NOTICE));
    LeaveKeeps(m);
    StillAsleep(Leave(m));
  }

  lemma LateBindEffect(k: Kernel)
    requires Ok(k) && Threads(k) && k.tcbs[INITIAL].boundTo == 0 && NOTICE in k.objects
    requires k.objects[NOTICE] == Notification(NtfnActive, [], {0}, 0)
    ensures May(k, BindNtfn(INITIAL, NOTICE))
    ensures
      var m := Step(k, BindNtfn(INITIAL, NOTICE));
      m.sched == k.sched && Threads(m) && NOTICE in m.objects
        && m.objects[NOTICE] == Notification(NtfnActive, [], {0}, INITIAL)
      && m.tcbs[INITIAL].boundTo == NOTICE
  {}

  lemma StillAsleep(k: Kernel)
    requires Threads(k) && StateOf(k, INITIAL) == BlockedOnReceive && NOTICE in k.objects
    requires k.objects[NOTICE] == Notification(NtfnActive, [], {0}, INITIAL)
    requires k.tcbs[INITIAL].boundTo == NOTICE
    ensures !Heard(k, NOTICE)
  {}

  /** Binding a sleeping receiver to a notification with a pending signal is allowed, and the signal does not wake it.
      */
  lemma SleepingReceiverReached()
    ensures RunMay(Booted(), SLEEP) && !Heard(Run(Booted(), SLEEP), NOTICE)
  {
    var k := Booted();
    BootedIs();
    AfterResume(k);
    var k1 := After(k, ResumeTcb(OTHER));
    AfterReceive(k1);
    var k2 := After(k1, Receive(ENDPOINT, true, false));
    AfterSignal(k2);
    AfterLateBind(After(k2, Signal(NOTICE, {0})));
    SleepRuns(k);
  }

  // ---- a fault that is sent twice ----

  const FAULT_RUN: seq<seq<KernelOp>> :=
    [[ResumeTcb(OTHER)]] + ([[Receive(ENDPOINT, true, false)]] + ([[Fault(ENDPOINT, true, {})]]
    + ([[AnswerReply(CallerSlot(INITIAL), true)]] + ([[Receive(ENDPOINT, true, false)]] + []))))

  /** The initial thread runs, the other one could, and nobody uses the endpoint. */
  ghost predicate HandlerRuns(k: Kernel) {
    && AtUserLevel(k) && Ok(k) && Threads(k) && k.sched.cur == INITIAL && Runnable(k.sched, OTHER)
    && ENDPOINT in k.objects && k.objects[ENDPOINT] == Endpoint(EpIdle, []) && k.tcbs[INITIAL].boundTo == 0
  }

  /** The initial thread waits for a message, and the other one runs. */
  ghost predicate HandlerWaits(k: Kernel) {
    && AtUserLevel(k) && Ok(k) && Threads(k) && k.sched.cur == OTHER && Runnable(k.sched, OTHER)
    && k.tcbs[INITIAL].boundTo == 0
    && ENDPOINT in k.objects && k.objects[ENDPOINT] == Endpoint(EpRecv, [INITIAL])
  }

  /** The initial thread has the fault of the other one, which waits for the reply. */
  ghost predicate HandlerAnswers(k: Kernel) {
    && AtUserLevel(k) && Ok(k) && Threads(k) && k.sched.cur == INITIAL && Faulted(k, OTHER)
    && k.tcbs[INITIAL].boundTo == 0
    && Runnable(k.sched, INITIAL) && StateOf(k, OTHER) == BlockedOnReply && ENDPOINT in k.objects
    && k.objects[ENDPOINT] == Endpoint(EpIdle, []) && CallerSlot(INITIAL) in k.replies
    && k.replies[CallerSlot(INITIAL)].caller == OTHER
  }

  /** Leaving the kernel with these threads. */
  lemma Left(m: Kernel)
    requires Ok(m) && Threads(m)
    ensures
      var r := Leave(m);
      && AtUserLevel(r) && Ok(r) && Threads(r) && r.objects == m.objects && r.tcbs == m.tcbs && r.replies == m.replies
      && (Runnable(r.sched, INITIAL) <==> Runnable(m.sched, INITIAL))
      && (Runnable(r.sched, OTHER) <==> Runnable(m.sched, OTHER))
      && (!Runnable(m.sched, OTHER) ==> StateOf(r, OTHER) == StateOf(m, OTHER))
      && (Runnable(m.sched, INITIAL) ==> r.sched.cur == INITIAL)
      && (!Runnable(m.sched, INITIAL) && Runnable(m.sched, OTHER) ==> r.sched.cur == OTHER)
  {
    LeaveKeeps(m);
    assert INITIAL in m.sched.threads && OTHER in m.sched.threads;
    WhoRuns(Leave(m));
  }

  lemma HandlerReceives(k: Kernel)
    requires HandlerRuns(k)
    ensures May(k, Receive(ENDPOINT, true, false))
    ensures
      var m := Step(k, Receive(ENDPOINT, true, false));
      && Threads(m) && StateOf(m, INITIAL) == BlockedOnReceive && StateOf(m, OTHER) == StateOf(k, OTHER)
      && m.tcbs[INITIAL].boundTo == 0 && ENDPOINT in m.objects && m.objects[ENDPOINT] == Endpoint(EpRecv, [INITIAL])
      && (Faulted(m, OTHER) <==> Faulted(k, OTHER))
  {
    assert CurrentRuns(k);
  }

  lemma AfterHandlerReceives(k: Kernel)
    requires HandlerRuns(k)
    ensures May(k, Receive(ENDPOINT, true, false)) && HandlerWaits(After(k, Receive(ENDPOINT, true, false)))
    ensures Faulted(After(k, Receive(ENDPOINT, true, false)), OTHER) <==> Faulted(k, OTHER)
  {
    HandlerReceives(k);
    var m := Step(k, Receive(ENDPOINT, true, false));
    Left(m);
  }

  lemma OtherFaults(k: Kernel)
    requires HandlerWaits(k)
    ensures May(k, Fault(ENDPOINT, true, {}))
    ensures
      var m := Step(k, Fault(ENDPOINT, true, {}));
      && Threads(m) && StateOf(m, INITIAL) == Running && StateOf(m, OTHER) == BlockedOnReply
      && m.tcbs[INITIAL].boundTo == 0
      && ENDPOINT in m.objects && m.objects[ENDPOINT] == Endpoint(EpIdle, [])
      && CallerSlot(INITIAL) in m.replies && m.replies[CallerSlot(INITIAL)].caller == OTHER && Faulted(m, OTHER)
  {
    assert CurrentRuns(k);
    MarkFaultOk(k);
  }

  lemma AfterOtherFaults(k: Kernel)
    requires HandlerWaits(k)
    ensures May(k, Fault(ENDPOINT, true, {})) && HandlerAnswers(After(k, Fault(ENDPOINT, true, {})))
  {
    OtherFaults(k);
    var m := Step(k, Fault(ENDPOINT, true, {}));
    Left(m);
  }

  lemma HandlerReplies(k: Kernel)
    requires HandlerAnswers(k)
    ensures May(k, AnswerReply(CallerSlot(INITIAL), true))
    ensures
      var m := Step(k, AnswerReply(CallerSlot(INITIAL), true));
      && Threads(m) && StateOf(m, INITIAL) == StateOf(k, INITIAL) && StateOf(m, OTHER) == Restart
      && m.tcbs[INITIAL].boundTo == 0
      && ENDPOINT in m.objects && m.objects[ENDPOINT] == Endpoint(EpIdle, []) && Faulted(m, OTHER)
  {
    assert ReplyOk(k, CallerSlot(INITIAL));
  }

  lemma AfterHandlerReplies(k: Kernel)
    requires HandlerAnswers(k)
    ensures May(k, AnswerReply(CallerSlot(INITIAL), true))
    ensures HandlerRuns(After(k, AnswerReply(CallerSlot(INITIAL), true)))
    ensures Faulted(After(k, AnswerReply(CallerSlot(INITIAL), true)), OTHER)
  {
    HandlerReplies(k);
    var m := Step(k, AnswerReply(CallerSlot(INITIAL), true));
    Left(m);
  }

  lemma HandlerAnswered(k: Kernel)
    requires HandlerWaits(k)
    ensures May(k, Fault(ENDPOINT, true, {}))
    ensures
      var k3 := After(k, Fault(ENDPOINT, true, {}));
      && May(k3, AnswerReply(CallerSlot(INITIAL), true))
      && HandlerRuns(After(k3, AnswerReply(CallerSlot(INITIAL), true)))
      && Faulted(After(k3, AnswerReply(CallerSlot(INITIAL), true)), OTHER)
  {
    AfterOtherFaults(k);
    AfterHandlerReplies(After(k, Fault(ENDPOINT, true, {})));
  }

  lemma OtherSends(k: Kernel)
    requires HandlerWaits(k) && Faulted(k, OTHER)
    ensures
      var send := Send(ENDPOINT, true, false, false, {1}, false);
      May(k, send) && Carries(k, send) == Message(OTHER, INITIAL, {1}, FaultMessage)
  {
    assert CurrentRuns(k);
  }

  lemma BootedRuns()
    ensures May(Booted(), ResumeTcb(OTHER)) && HandlerRuns(After(Booted(), ResumeTcb(OTHER)))
  {
    BootedIs();
    AfterResume(Booted());
  }

  lemma FaultRunFrom(k: Kernel)
    requires AtUserLevel(k) && Ok(k) && May(k, ResumeTcb(OTHER)) && HandlerRuns(After(k, ResumeTcb(OTHER)))
    ensures RunMay(k, FAULT_RUN) && HandlerWaits(Run(k, FAULT_RUN)) && Faulted(Run(k, FAULT_RUN), OTHER)
  {
    var k1 := After(k, ResumeTcb(OTHER));
    AfterHandlerReceives(k1);
    var k2 := After(k1, Receive(ENDPOINT, true, false));
    HandlerAnswered(k2);
    var k3 := After(k2, Fault(ENDPOINT, true, {}));
    var k4 := After(k3, AnswerReply(CallerSlot(INITIAL), true));
    AfterHandlerReceives(k4);
    FaultRuns(k, k1, k2, k3, k4);
  }

  /** The fault has been answered, and the next message of the thread is the fault once more. */
  lemma FaultSentAgainReached()
    ensures RunMay(Booted(), FAULT_RUN) && Ok(Run(Booted(), FAULT_RUN))
    ensures
      var k := Run(Booted(), FAULT_RUN);
      var send := Send(ENDPOINT, true, false, false, {1}, false);
      May(k, send) && Carries(k, send) == Message(OTHER, INITIAL, {1}, FaultMessage)
  {
    BootedIs();
    BootedRuns();
    FaultRunFrom(Booted());
    OtherSends(Run(Booted(), FAULT_RUN));
  }

  lemma FaultRuns(k: Kernel, k1: Kernel, k2: Kernel, k3: Kernel, k4: Kernel)
    requires AtUserLevel(k) && Ok(k) && May(k, ResumeTcb(OTHER)) && k1 == After(k, ResumeTcb(OTHER))
    requires May(k1, Receive(ENDPOINT, true, false)) && k2 == After(k1, Receive(ENDPOINT, true, false))
    requires May(k2, Fault(ENDPOINT, true, {})) && k3 == After(k2, Fault(ENDPOINT, true, {}))
    requires May(k3, AnswerReply(CallerSlot(INITIAL), true)) && k4 == After(k3, AnswerReply(CallerSlot(INITIAL), true))
    requires May(k4, Receive(ENDPOINT, true, false))
    ensures RunMay(k, FAULT_RUN) && Run(k, FAULT_RUN) == After(k4, Receive(ENDPOINT, true, false))
  {
    var e5 := [[Receive(ENDPOINT, true, false)]] + [];
    var e4 := [[AnswerReply(CallerSlot(INITIAL), true)]] + e5;
    var e3 := [[Fault(ENDPOINT, true, {})]] + e4;
    RunOne(k4, Receive(ENDPOINT, true, false), []);
    RunOne(k3, AnswerReply(CallerSlot(INITIAL), true), e5);
    RunOne(k2, Fault(ENDPOINT, true, {}), e4);
    RunOne(k1, Receive(ENDPOINT, true, false), e3);
    RunOne(k, ResumeTcb(OTHER), [[Receive(ENDPOINT, true, false)]] + e3);
  }
}
