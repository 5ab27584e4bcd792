/** What a deletion may touch besides the slot it is asked to empty (sel4_cspace/src/cte.rs,
    kernel/src/interfaces_impl/cspace.rs): the slots of containers that died with it, the reply that a dead thread
    waited for, and the notification of an interrupt without a handler. */
module DeletionFrame {
  import opened Caps
  import opened Mdb
  import opened ReplyMdb
  import opened Containers
  import opened SwapSafety

  // ---- what becomes less ----

  predicate NamesAt(slots: Slots, c: Container, h: nat) {
    Houses(slots, c, h) && LooseAt(slots[h].cap, h)
  }

  /** The container's slots can be reached from elsewhere: through a capability, or a zombie not in its own first slot.
      */
  ghost predicate Named(slots: Slots, c: Container) {
    exists h :: NamesAt(slots, c, h)
  }

  /** What is in slot b now was somewhere before, unless it is a zombie. */
  predicate Came(slots: Slots, slots': Slots, b: nat)
    requires b in slots'
  {
    slots'[b].cap.NullCap? || slots'[b].cap.ZombieCap? || exists a :: a in slots && slots[a].cap == slots'[b].cap
  }

  /** A deletion makes no capability and names no container anew. */
  ghost predicate Wanes(slots: Slots, slots': Slots) {
    && slots'.Keys == slots.Keys
    && (forall b {:trigger Came(slots, slots', b)} :: b in slots' ==> Came(slots, slots', b))
    && forall c {:trigger Named(slots', c)} :: Named(slots', c) ==> Named(slots, c)
  }

  lemma WanesTrans(s0: Slots, s1: Slots, s2: Slots)
    requires Wanes(s0, s1) && Wanes(s1, s2)
    ensures Wanes(s0, s2)
  {
    forall b | b in s2
      ensures Came(s0, s2, b)
    {
      assert Came(s1, s2, b);
      if !s2[b].cap.NullCap? && !s2[b].cap.ZombieCap? {
        var a :| a in s1 && s1[a].cap == s2[b].cap;
        assert Came(s0, s1, a);
      }
    }
    forall c | Named(s2, c)
      ensures Named(s0, c)
    {
      assert Named(s1, c);
    }
  }

  /** No container comes to life. */
  lemma WanesLive(slots: Slots, slots': Slots, c: Container)
    requires Wanes(slots, slots') && Live(slots', c)
    ensures Live(slots, c)
  {
    var h :| h in slots' && Houses(slots', c, h) && !slots'[h].cap.ZombieCap?;
    assert Came(slots, slots', h);
    var a :| a in slots && slots[a].cap == slots'[h].cap;
    assert Houses(slots, c, a);
  }

  /** No thread gets a reply. */
  lemma WanesReplies(slots: Slots, slots': Slots, t: nat)
    requires Wanes(slots, slots') && NoReplies(slots, t)
    ensures NoReplies(slots', t)
  {
    forall b | b in slots'
      ensures !IsReply(slots'[b].cap, t)
    {
      assert Came(slots, slots', b);
      assert forall a :: a in slots ==> !IsReply(slots[a].cap, t);
    }
  }

  lemma WithoutWanes(slots: Slots, slots': Slots, a: nat)
    requires Without(slots, slots', a)
    ensures Wanes(slots, slots')
  {
    forall b | b in slots'
      ensures Came(slots, slots', b)
    {
      assert b != a ==> slots'[b].cap == slots[b].cap;
    }
    forall c | Named(slots', c)
      ensures Named(slots, c)
    {
      var h :| NamesAt(slots', c, h);
      assert NamesAt(slots, c, h);
    }
  }

  lemma RecontainWanes(slots: Slots, slots': Slots, a: nat, z: Cap)
    requires Recontained(slots, slots', a, z) && (slots[a].cap.ZombieCap? || LooseAt(slots[a].cap, a))
    ensures Wanes(slots, slots')
  {
    forall b | b in slots'
      ensures Came(slots, slots', b)
    {
      assert b != a ==> slots'[b].cap == slots[b].cap;
    }
    forall c | Named(slots', c)
      ensures Named(slots, c)
    {
      var h :| NamesAt(slots', c, h);
      assert NamesAt(slots, c, h);
    }
  }

  lemma SwapWanes(slots: Slots, l: Layout, slots': Slots, e: nat)
    requires CapsOk(slots, l) && e in slots && slots[e].cap.ZombieCap? && slots[e].cap.ptr != e
    requires ZombieSwap(slots, slots', e)
    ensures Wanes(slots, slots')
  {
    var f := slots[e].cap.ptr;
    FirstSlot(slots, l, e);
    forall b | b in slots'
      ensures Came(slots, slots', b)
    {
      assert slots'[b].cap == slots[Rename(e, f, b)].cap;
    }
    forall c | Named(slots', c)
      ensures Named(slots, c)
    {
      var h :| NamesAt(slots', c, h);
      assert NamesAt(slots, c, Rename(e, f, h));
    }
  }

  // ---- what is touched ----

  /** The containers that a capability stands for. */
  function Names(c: Cap): (ks: set<Container>) {
    if IsContainerCap(c) then {ContainerOf(c)} else {}
  }

  /** Slot c belongs to a container that nothing stands for any more: one of ks, or one that could be reached from
      elsewhere and cannot any more. */
  ghost predicate DeadAt(slots: Slots, slots': Slots, l: Layout, ks: set<Container>, c: nat) {
    && c in l.owner && !Live(slots', l.owner[c])
    && (l.owner[c] in ks || (Named(slots, l.owner[c]) && !Named(slots', l.owner[c])))
  }

  predicate HandlerAt(slots: Slots, irq: nat, h: nat) {
    h in slots && slots[h].cap == IrqHandlerCap(irq)
  }

  /** Slot c held the notification of an interrupt that had a handler, and has none outside x. */
  ghost predicate Unhandled(slots: Slots, slots': Slots, l: Layout, x: set<nat>, c: nat, irq: nat) {
    && c == SlotAddr(l.irqNode, irq) && c !in l.owner
    && (exists h :: HandlerAt(slots, irq, h)) && forall h :: HandlerAt(slots', irq, h) ==> h in x
  }

  /** Slot c held a reply capability for a thread that nothing stands for any more. */
  predicate Unawaited(slots: Slots, slots': Slots, c: nat)
    requires c in slots
  {
    slots[c].cap.ReplyCap? && !slots[c].cap.master && !Live(slots', TcbOf(slots[c].cap.tcb))
  }

  /** What a deletion leaves where it has been. */
  predicate Leftover(c: Cap) {
    c.NullCap? || c.ZombieCap?
  }

  /** Slot c keeps its capability; or it is empty, being one of x or emptied on the side; or it belonged to a dead
      container and is empty or holds a zombie, when all is done that of the container whose first slot it is. */
  ghost predicate TakenAt(slots: Slots, slots': Slots, l: Layout, ks: set<Container>, x: set<nat>, done: bool, c: nat) {
    c in slots && c in slots' ==>
      var was, now := slots[c].cap, slots'[c].cap;
      || now == was
      || (now.NullCap?
        && (c in x || Unawaited(slots, slots', c) || exists irq :: Unhandled(slots, slots', l, x, c, irq)))
      || ((now.NullCap? || (now.ZombieCap? && (done ==> now.ptr == c))) && DeadAt(slots, slots', l, ks, c))
  }

  /** Nothing else is touched, except for the slots in work. */
  ghost predicate Taken(slots: Slots, slots': Slots, l: Layout, ks: set<Container>, x: set<nat>, work: set<nat>,
      done: bool)
  {
    forall c {:trigger TakenAt(slots, slots', l, ks, x, done, c)} :: c !in work ==>
      TakenAt(slots, slots', l, ks, x, done, c)
  }

  lemma TakenSelf(slots: Slots, l: Layout, ks: set<Container>, x: set<nat>, work: set<nat>)
    ensures Taken(slots, slots, l, ks, x, work, true)
  {}

  /** If only slots in work change, nothing is taken. */
  lemma TakenWork(slots: Slots, slots': Slots, l: Layout, ks: set<Container>, x: set<nat>, work: set<nat>)
    requires forall b :: b in slots && b in slots' && b !in work ==> slots'[b].cap == slots[b].cap
    ensures Taken(slots, slots', l, ks, x, work, true)
  {}

  lemma DeadTrans(s0: Slots, s1: Slots, s2: Slots, l: Layout, ks: set<Container>, kr: set<Container>, c: nat)
    requires Wanes(s0, s1) && Wanes(s1, s2) && forall k :: k in kr ==> k in ks || (Named(s0, k) && !Named(s1, k))
    ensures DeadAt(s0, s1, l, ks, c) ==> DeadAt(s0, s2, l, ks, c)
    ensures DeadAt(s1, s2, l, kr, c) ==> DeadAt(s0, s2, l, ks, c)
  {
    if c in l.owner {
      var k := l.owner[c];
      if Live(s2, k) { WanesLive(s1, s2, k); }
      assert Named(s2, k) ==> Named(s1, k);
      assert Named(s1, k) ==> Named(s0, k);
    }
  }

  lemma UnhandledTrans(s0: Slots, s1: Slots, s2: Slots, l: Layout, kr: set<Container>, x: set<nat>, work: set<nat>,
      done: bool, c: nat, irq: nat)
    requires Wanes(s0, s1) && Wanes(s1, s2) && Taken(s1, s2, l, kr, x, work, done) && work <= x
    ensures Unhandled(s0, s1, l, x, c, irq) ==> Unhandled(s0, s2, l, x, c, irq)
    ensures Unhandled(s1, s2, l, x, c, irq) ==> Unhandled(s0, s2, l, x, c, irq)
  {
    forall h | HandlerAt(s2, irq, h)
      ensures h in x || HandlerAt(s1, irq, h)
    {
      assert h !in work ==> TakenAt(s1, s2, l, kr, x, done, h);
    }
    forall h | HandlerAt(s1, irq, h)
      ensures exists g :: HandlerAt(s0, irq, g)
    {
      assert Came(s0, s1, h);
      var a :| a in s0 && s0[a].cap == s1[h].cap;
      assert HandlerAt(s0, irq, a);
    }
  }

  lemma TakenAtTrans(s0: Slots, s1: Slots, s2: Slots, l: Layout, ks: set<Container>, kr: set<Container>, x: set<nat>,
                     work: set<nat>, done: bool, c: nat)
    requires Wanes(s0, s1) && Wanes(s1, s2) && forall k :: k in kr ==> k in ks || (Named(s0, k) && !Named(s1, k))
    requires Taken(s0, s1, l, ks, x, work, true) && Taken(s1, s2, l, kr, x, work, done) && work <= x && c !in work
    ensures TakenAt(s0, s2, l, ks, x, done, c)
  {
    assert TakenAt(s0, s1, l, ks, x, true, c) && TakenAt(s1, s2, l, kr, x, done, c);
    DeadTrans(s0, s1, s2, l, ks, kr, c);
    if c in s0 && c in s2 {
      if exists irq :: Unhandled(s0, s1, l, x, c, irq) {
        var irq :| Unhandled(s0, s1, l, x, c, irq);
        UnhandledTrans(s0, s1, s2, l, kr, x, work, done, c, irq);
      }
      if exists irq :: Unhandled(s1, s2, l, x, c, irq) {
        var irq :| Unhandled(s1, s2, l, x, c, irq);
        UnhandledTrans(s0, s1, s2, l, kr, x, work, done, c, irq);
      }
      if s0[c].cap.ReplyCap? && Live(s2, TcbOf(s0[c].cap.tcb)) { WanesLive(s1, s2, TcbOf(s0[c].cap.tcb)); }
    }
  }

  lemma TakenTrans(s0: Slots, s1: Slots, s2: Slots, l: Layout, ks: set<Container>, kr: set<Container>, x: set<nat>,
                   work: set<nat>, done: bool)
    requires Wanes(s0, s1) && Wanes(s1, s2) && forall k :: k in kr ==> k in ks || (Named(s0, k) && !Named(s1, k))
    requires Taken(s0, s1, l, ks, x, work, true) && Taken(s1, s2, l, kr, x, work, done) && work <= x
    ensures Taken(s0, s2, l, ks, x, work, done)
  {
    forall c | c !in work
      ensures TakenAt(s0, s2, l, ks, x, done, c)
    {
      TakenAtTrans(s0, s1, s2, l, ks, kr, x, work, done, c);
    }
  }

  /** A zombie that goes into its own first slot takes only that slot. */
  lemma SwapTaken(slots: Slots, l: Layout, slots': Slots, e: nat)
    requires CapsOk(slots, l) && e in slots && slots[e].cap.ZombieCap? && slots[e].cap.ptr != e
    requires ZombieSwap(slots, slots', e)
    ensures Taken(slots, slots', l, {}, {e}, {e}, true)
  {
    var f, k := slots[e].cap.ptr, ContainerOf(slots[e].cap);
    FirstSlot(slots, l, e);
    forall h | Houses(slots', k, h)
      ensures h == f
    {
      assert Houses(slots, k, Rename(e, f, h)) && Alone(slots, e, Rename(e, f, h));
    }
    assert NamesAt(slots, k, e);
    assert DeadAt(slots, slots', l, {}, f);
    forall c | c != e
      ensures TakenAt(slots, slots', l, {}, {e}, true, c)
    {}
  }

  // ---- while slot a is in work ----

  /** The container that is taken apart slot by slot: that of an exposed capability. */
  function Base(slots: Slots, a: nat, exposed: bool): (ks: set<Container>)
    requires a in slots
  {
    if exposed then Names(slots[a].cap) else {}
  }

  /** What stands in a for a container is what stood there, or was named elsewhere before. */
  ghost predicate Inherits(slots: Slots, slots': Slots, a: nat, exposed: bool)
    requires a in slots && a in slots'
  {
    IsContainerCap(slots'[a].cap) ==>
      var k := ContainerOf(slots'[a].cap);
      slots'[a].cap == slots[a].cap || k in Base(slots, a, exposed)
        || (Named(slots, k) && (exposed ==> !Named(slots', k)))
  }

  /** What has been touched while slot a is in work. An equation, so that the verifier carries it through the deletion
      as a whole. */
  ghost predicate Spares(slots: Slots, slots': Slots, l: Layout, a: nat, exposed: bool, done: bool) {
    && a in slots && a in slots'
    && (Taken(slots, slots', l, Base(slots, a, exposed), {a}, {a}, done)
      && (done ==> Inherits(slots, slots', a, exposed))) == true
  }

  lemma SparesSelf(slots: Slots, l: Layout, a: nat, exposed: bool)
    requires a in slots
    ensures Spares(slots, slots, l, a, exposed, true)
  {}

  lemma SparesTrans(s0: Slots, s1: Slots, s2: Slots, l: Layout, a: nat, exposed: bool, done: bool)
    requires Wanes(s0, s1) && Wanes(s1, s2) && Spares(s0, s1, l, a, exposed, true)
    requires Spares(s1, s2, l, a, exposed, done)
    ensures Spares(s0, s2, l, a, exposed, done)
  {
    TakenTrans(s0, s1, s2, l, Base(s0, a, exposed), Base(s1, a, exposed), {a}, {a}, done);
    if IsContainerCap(s2[a].cap) {
      var k := ContainerOf(s2[a].cap);
      assert Named(s2, k) ==> Named(s1, k);
      assert Named(s1, k) ==> Named(s0, k);
    }
  }

  /** New data in a: the zombie of the container that was there. */
  lemma RecapSpares(slots: Slots, slots': Slots, l: Layout, a: nat, exposed: bool)
    requires slots'.Keys == slots.Keys && a in slots
    requires forall b :: b in slots && b != a ==> slots'[b].cap == slots[b].cap
    requires IsContainerCap(slots'[a].cap) && slots'[a].cap != slots[a].cap ==>
      IsContainerCap(slots[a].cap) && ContainerOf(slots'[a].cap) == ContainerOf(slots[a].cap)
        && (exposed || LooseAt(slots[a].cap, a))
    ensures Spares(slots, slots', l, a, exposed, true)
  {
    TakenWork(slots, slots', l, Base(slots, a, exposed), {a}, {a});
    if IsContainerCap(slots'[a].cap) && slots'[a].cap != slots[a].cap && !exposed {
      assert NamesAt(slots, ContainerOf(slots[a].cap), a);
    }
  }

  lemma SwapSpares(slots: Slots, l: Layout, slots': Slots, e: nat)
    requires CapsOk(slots, l) && e in slots && slots[e].cap.ZombieCap? && slots[e].cap.ptr != e
    requires ZombieSwap(slots, slots', e)
    ensures Spares(slots, slots', l, e, false, true)
  {
    var f := slots[e].cap.ptr;
    SwapTaken(slots, l, slots', e);
    FirstSlot(slots, l, e);
    if IsContainerCap(slots'[e].cap) { assert NamesAt(slots, ContainerOf(slots'[e].cap), f); }
  }

  /** A zombie in its own first slot is all there is of its container. */
  lemma CyclicDead(slots: Slots, l: Layout, a: nat)
    requires CapsOk(slots, l) && a in slots && slots[a].cap.ZombieCap? && slots[a].cap.ptr == a
    ensures a in l.owner && l.owner[a] == ContainerOf(slots[a].cap) && !Live(slots, l.owner[a])
    ensures !Named(slots, l.owner[a])
  {
    FirstSlot(slots, l, a);
    forall h | Houses(slots, ContainerOf(slots[a].cap), h)
      ensures h == a
    {
      assert Alone(slots, a, h);
    }
  }

  /** The work on a is finished: it is empty, or holds the zombie whose first slot it is. */
  lemma WorkDone(slots: Slots, slots': Slots, l: Layout, a: nat, exposed: bool)
    requires CapsOk(slots', l) && Spares(slots, slots', l, a, exposed, true)
    requires slots'[a].cap.NullCap? || (!exposed && slots'[a].cap.ZombieCap? && slots'[a].cap.ptr == a)
    ensures Taken(slots, slots', l, Base(slots, a, exposed), {a}, {}, true)
  {
    if slots'[a].cap.ZombieCap? { CyclicDead(slots', l, a); }
    assert TakenAt(slots, slots', l, Base(slots, a, exposed), {a}, true, a);
    forall c
      ensures TakenAt(slots, slots', l, Base(slots, a, exposed), {a}, true, c)
    {}
  }

  /** Nothing but a zombie stands for the zombie's container, now or later. */
  lemma ZombieDead(slots: Slots, l: Layout, slots': Slots, a: nat)
    requires CapsOk(slots, l) && a in slots && slots[a].cap.ZombieCap? && Wanes(slots, slots')
    ensures !Live(slots', ContainerOf(slots[a].cap))
  {
    var k := ContainerOf(slots[a].cap);
    forall h | Houses(slots, k, h)
      ensures slots[h].cap.ZombieCap?
    {
      assert Alone(slots, a, h);
    }
    assert !Live(slots, k);
    if Live(slots', k) { WanesLive(slots, slots', k); }
  }

  /** Deleting slot end of the container whose zombie is in a, seen from a. */
  lemma EndTaken(slots: Slots, l: Layout, slots': Slots, a: nat, end: nat, done: bool)
    requires CapsOk(slots, l) && CapsOk(slots', l) && a in slots && end in slots && slots[a].cap.ZombieCap?
    requires Wanes(slots, slots')
    requires end in l.owner && l.owner[end] == ContainerOf(slots[a].cap)
    requires Taken(slots, slots', l, {}, {end}, if done then {} else {end}, done)
    requires Leftover(slots'[end].cap)
    ensures Spares(slots, slots', l, a, true, done) && Leftover(slots'[a].cap)
  {
    var k := ContainerOf(slots[a].cap);
    ZombieDead(slots, l, slots', a);
    forall c | c != a
      ensures TakenAt(slots, slots', l, {k}, {a}, done, c)
    {
      EndTakenAt(slots, l, slots', a, end, done, c);
    }
    assert done || a != end ==> TakenAt(slots, slots', l, {}, {end}, done, a);
    if done && IsContainerCap(slots'[a].cap) && slots'[a].cap != slots[a].cap { CyclicDead(slots', l, a); }
  }

  lemma EndTakenAt(slots: Slots, l: Layout, slots': Slots, a: nat, end: nat, done: bool, c: nat)
    requires a in slots && end in slots && slots[a].cap.ZombieCap? && slots'.Keys == slots.Keys
    requires end in l.owner && l.owner[end] == ContainerOf(slots[a].cap) && !Live(slots', l.owner[end])
    requires Taken(slots, slots', l, {}, {end}, if done then {} else {end}, done)
    requires Leftover(slots'[end].cap)
    ensures TakenAt(slots, slots', l, {ContainerOf(slots[a].cap)}, {a}, done, c)
  {
    var k := ContainerOf(slots[a].cap);
    assert DeadAt(slots, slots', l, {k}, end);
    if done || c != end { assert TakenAt(slots, slots', l, {}, {end}, done, c); }
    if exists irq :: Unhandled(slots, slots', l, {end}, c, irq) {
      var irq :| Unhandled(slots, slots', l, {end}, c, irq);
      assert Unhandled(slots, slots', l, {a}, c, irq);
    }
  }
}
