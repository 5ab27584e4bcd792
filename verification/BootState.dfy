/** The state the kernel boots into (kernel/src/boot/mod.rs, kernel/src/boot/root_server.rs,
    sel4_task/src/scheduler.rs): it meets the invariants that every operation keeps. */
module BootState {
  import opened Config
  import opened SchedulerSpec
  import opened IpcSpec
  import opened KernelExit
  import opened IpcRuns
  import Bindings

  /** create_idle_thread, create_initial_thread, and threads that retype has just created. */
  function BootThread(idle: nat, initial: nat, t: nat): (r: Thread) {
    if t == idle then Thread(IdleState, 0, 0)
    else if t == initial then Thread(Running, NUM_PRIORITIES - 1, TIME_SLICE)
    else Thread(Inactive, 0, TIME_SLICE)
  }

  /** init_core_state: the idle thread is current, the initial thread is to be switched to. */
  function BootSched(idle: nat, initial: nat, others: set<nat>): (s: Sched) {
    Sched(map t | t in others + {idle, initial} :: BootThread(idle, initial, t),
          seq(NUM_PRIORITIES, _ => []), idle, idle, SwitchTo(initial))
  }

  /** Only the initial thread has its master reply capability; every object is idle. */
  function BootKernel(idle: nat, initial: nat, others: set<nat>, endpoints: set<nat>,
      notifications: set<nat>): (k: Kernel)
  {
    Kernel(BootSched(idle, initial, others),
           map o | o in endpoints + notifications :: if o in endpoints then Endpoint(EpIdle, [])
             else Notification(NtfnIdle, [], {}, 0),
           map t | t in others + {idle, initial} :: Tcb(NO_BLOCKING, 0, {}, false),
           {initial}, map[])
  }

  /** Where retype and the boot code put TCBs. */
  predicate TcbPlace(t: nat) {
    t % TCB_SIZE == TCB_OFFSET
  }

  lemma BootSchedMid(idle: nat, initial: nat, others: set<nat>)
    requires idle != initial
    ensures Mid(BootSched(idle, initial, others))
  {
    var s := BootSched(idle, initial, others);
    assert forall p :: 0 <= p < |s.queues| ==> HeadKnown(s, p) && QueueOk(s, p);
    forall t | t in s.threads
      ensures Fine(s, t)
    {
    }
  }

  /** With any threads and objects just created, the booted kernel meets every invariant of IPC. */
  lemma BootKernelOk(idle: nat, initial: nat, others: set<nat>, endpoints: set<nat>, notifications: set<nat>)
    requires idle != initial && idle > 0 && TcbPlace(initial) && forall t :: t in others ==> TcbPlace(t)
    ensures
      var k := BootKernel(idle, initial, others, endpoints, notifications);
      Ok(k) && Bindings.OneToOne(k) && forall n :: Bindings.Heard(k, n)
  {
    BootSchedMid(idle, initial, others);
    var k := BootKernel(idle, initial, others, endpoints, notifications);
    assert Shape(k);
    forall o | o in k.objects
      ensures ObjectOk(k, o)
    {
    }
    assert QueuesAgree(k) && RepliesAgree(k);
  }

  /** The first schedule and activate of the kernel enter the initial thread, and every run from there
      on keeps queues and replies exact. */
  lemma EveryRunFromBoot(idle: nat, initial: nat, others: set<nat>, endpoints: set<nat>, notifications: set<nat>,
      entries: seq<seq<KernelOp>>)
    requires idle != initial && idle > 0 && TcbPlace(initial) && forall t :: t in others ==> TcbPlace(t)
    ensures
      var k := BootKernel(idle, initial, others, endpoints, notifications);
      && Ok(k) && Leave(k).sched.cur == initial
      && (RunMay(Leave(k), entries) ==>
            QueuesExact(Run(Leave(k), entries)) && RepliesExact(Run(Leave(k), entries))
              && Stable(Run(Leave(k), entries).sched))
  {
    BootKernelOk(idle, initial, others, endpoints, notifications);
    BootEnters(idle, initial, others, endpoints, notifications);
    RunsFrom(Leave(BootKernel(idle, initial, others, endpoints, notifications)), entries);
  }

  lemma BootEnters(idle: nat, initial: nat, others: set<nat>, endpoints: set<nat>, notifications: set<nat>)
    requires idle != initial && Ok(BootKernel(idle, initial, others, endpoints, notifications))
    ensures Leave(BootKernel(idle, initial, others, endpoints, notifications)).sched.cur == initial
  {}

  lemma RunsFrom(k: Kernel, entries: seq<seq<KernelOp>>)
    requires AtUserLevel(k)
    ensures RunMay(k, entries) ==>
      QueuesExact(Run(k, entries)) && RepliesExact(Run(k, entries)) && Stable(Run(k, entries).sched)
  {
    if RunMay(k, entries) { EveryRunKeepsIpcConsistent(k, entries); }
  }
}
