/** The whole system at boot (kernel/src/boot/mod.rs, kernel/src/boot/root_server.rs): threads, IPC and capability
    space start in step, so that every run from boot stays so. */
module BootSystem {
  import opened Config
  import opened Caps
  import opened Mdb
  import opened Containers
  import opened IpcSpec
  import opened IpcRuns
  import opened ReplySlots
  import opened ReplyEffects
  import opened ReplyRuns
  import opened SystemRuns
  import opened BootState
  import opened BootSpace

  /** With its own slots and master, the initial thread is coupled; the others are not started. */
  lemma BootCoupled(d: Db, l: Layout, root: nat, radix: nat, idle: nat, tcb: nat, others: set<nat>, endpoints: set<nat>,
      notifications: set<nat>)
    requires DbOk(d, l) && ThreadReady(d.slots, root, radix, tcb) && SoleMaster(d.slots, tcb) && tcb % TCB_SIZE == 0
    requires idle != tcb + TCB_OFFSET
    ensures Coupled(BootKernel(idle, tcb + TCB_OFFSET, others, endpoints, notifications), d, l)
  {
    var initial, slots := tcb + TCB_OFFSET, d.slots;
    var k := BootKernel(idle, initial, others, endpoints, notifications);
    var home, m := SlotAddr(root, TCB_INDEX), SlotAddr(tcb, TCB_REPLY_INDEX);
    TcbBase(tcb);
    assert m in slots && slots[m].cap.ReplyCap? && slots[m].cap.master && slots[m].cap.tcb == initial;
    assert MastersOf(slots) == {initial};
    assert RepliesOf(slots) == map[];
    assert home in slots && Houses(slots, TcbOf(initial), home);
    assert ThreadSlots(slots, l, initial);
    forall t
      ensures Seated(k, slots, l, t)
    {
      assert Started(k, t) ==> t == initial;
    }
  }

  /** Every run from boot, deletions and revocations included, keeps replies behind their masters. */
  lemma EveryRunFromBootLinksReplies(
      root: nat, radix: nat, idle: nat, tcb: nat, others: set<nat>, endpoints: set<nat>, notifications: set<nat>,
      run: seq<Sys>, events: seq<Event>, i: nat)
    requires tcb % TCB_SIZE == 0 && idle > 0 && idle != tcb + TCB_OFFSET && forall t :: t in others ==> TcbPlace(t)
    requires IsRun(run, events) && i < |run|
    requires run[0].k == BootKernel(idle, tcb + TCB_OFFSET, others, endpoints, notifications)
    requires DbOk(run[0].d, run[0].l) && ThreadReady(run[0].d.slots, root, radix, tcb)
    requires SoleMaster(run[0].d.slots, tcb)
    ensures QueuesExact(run[i].k) && RepliesExact(run[i].k) && DbOk(run[i].d, run[i].l)
    ensures run[i].k.replies == RepliesOf(run[i].d.slots) && RepliesLinked(run[i].d.slots, run[i].k.replies)
  {
    BootKernelOk(idle, tcb + TCB_OFFSET, others, endpoints, notifications);
    BootCoupled(run[0].d, run[0].l, root, radix, idle, tcb, others, endpoints, notifications);
    EveryRunLinksReplies(run, events, i);
  }

  /** Boot leaves a capability space from which such runs start. */
  method Start(root: nat, radix: nat, tcb: nat, untypeds: seq<Cap>, irqNode: nat,
               idle: nat, others: set<nat>, endpoints: set<nat>, notifications: set<nat>) returns (k: Kernel,
                 cs: CSpace, l: Layout)
    requires BootMemory(root, radix, tcb, untypeds) && idle > 0 && idle != tcb + TCB_OFFSET
    requires forall t :: t in others ==> TcbPlace(t)
    ensures fresh(cs) && Ok(k) && Coupled(k, View(cs), l)
    ensures k == BootKernel(idle, tcb + TCB_OFFSET, others, endpoints, notifications)
  {
    cs, l := Boot(root, radix, tcb, untypeds, irqNode);
    k := BootKernel(idle, tcb + TCB_OFFSET, others, endpoints, notifications);
    StartsCoupled(k, View(cs), l, root, radix, idle, tcb, others, endpoints, notifications);
  }

  lemma StartsCoupled(k: Kernel, d: Db, l: Layout, root: nat, radix: nat, idle: nat, tcb: nat, others: set<nat>,
      endpoints: set<nat>, notifications: set<nat>)
    requires DbOk(d, l) && ThreadReady(d.slots, root, radix, tcb) && SoleMaster(d.slots, tcb) && tcb % TCB_SIZE == 0
    requires idle > 0 && idle != tcb + TCB_OFFSET && forall t :: t in others ==> TcbPlace(t)
    requires k == BootKernel(idle, tcb + TCB_OFFSET, others, endpoints, notifications)
    ensures Ok(k) && Coupled(k, d, l)
  {
    BootKernelOk(idle, tcb + TCB_OFFSET, others, endpoints, notifications);
    BootCoupled(d, l, root, radix, idle, tcb, others, endpoints, notifications);
  }
}
