/** Endpoints and notifications as the kernel runs them: queue heads and tails in the objects, links in
    the TCBs, and the scheduler's own structures. Every method is proved to do to the abstract kernel
    state what IpcSpec says (sel4_ipc/src/endpoint.rs, sel4_ipc/src/notification.rs). */
module Ipc {
  import opened SchedulerSpec
  import opened SchedulerRuns
  import opened Queues
  import S = Scheduler
  import opened IpcSpec
  import Mdb
  import opened Containers
  import opened ReplySlots
  import opened ReplyEffects
  import opened ReplyRuns

  datatype Record =
    | EndpointRec(epState: EpState, head: nat, tail: nat)
    | NotificationRec(ntfnState: NtfnState, head: nat, tail: nat, word: Badge, boundTcb: nat)

  /** The object a record stands for, given the threads in its queue. */
  function Lift(r: Record, q: seq<nat>): (o: Object) {
    match r
    case EndpointRec(s, _, _) => Endpoint(s, q)
    case NotificationRec(s, _, _, w, b) => Notification(s, q, w, b)
  }

  function WithEnds(r: Record, head: nat, tail: nat): (r': Record) {
    match r
    case EndpointRec(s, _, _) => EndpointRec(s, head, tail)
    case NotificationRec(s, _, _, w, b) => NotificationRec(s, head, tail, w, b)
  }

  /** set_state(Idle) */
  function Idled(r: Record): (r': Record) {
    match r
    case EndpointRec(_, h, t) => EndpointRec(EpIdle, h, t)
    case NotificationRec(_, h, t, w, b) => NotificationRec(NtfnIdle, h, t, w, b)
  }

  /** The queue of object o is represented. */
  ghost predicate RepOf(records: map<nat, Record>, links: Links, queues: map<nat, seq<nat>>, o: nat)
    requires o in records && o in queues
  {
    Rep(links, records[o].head, records[o].tail, queues[o])
  }

  ghost predicate AllReps(records: map<nat, Record>, links: Links, queues: map<nat, seq<nat>>) {
    && records.Keys == queues.Keys
    && forall o {:trigger RepOf(records, links, queues, o)} :: o in records ==> RepOf(records, links, queues, o)
  }

  /** No thread of o's queue is in p's. */
  ghost predicate DisjointFrom(queues: map<nat, seq<nat>>, o: nat, p: nat)
    requires o in queues && p in queues
  {
    forall t :: t in queues[o] ==> t !in queues[p]
  }

  ghost predicate OthersDisjoint(queues: map<nat, seq<nat>>, o: nat)
    requires o in queues
  {
    forall p {:trigger DisjointFrom(queues, o, p)} :: p in queues && p != o ==> DisjointFrom(queues, o, p)
  }

  /** ep_append, seen on all queues. */
  lemma AppendReps(records: map<nat, Record>, links: Links, queues: map<nat, seq<nat>>, o: nat, t: nat, r: Record)
    requires AllReps(records, links, queues) && o in records && OthersDisjoint(queues, o)
    requires t != 0 && forall p :: p in queues ==> t !in queues[p]
    requires r.head == (if records[o].head == 0 then t else records[o].head) && r.tail == t
    ensures records[o].tail == 0 || records[o].tail in links
    ensures records[o].head == 0 <==> records[o].tail == 0
    ensures AllReps(records[o := r], Appended(links, records[o].tail, t), queues[o := queues[o] + [t]])
  {
    assert RepOf(records, links, queues, o);
    RepBasics(links, records[o].head, records[o].tail, queues[o]);
    AppendRep(links, records[o].head, records[o].tail, queues[o], t);
    var records', links', queues' := records[o := r], Appended(links, records[o].tail, t), queues[o := queues[o] + [t]];
    forall p | p in records'
      ensures RepOf(records', links', queues', p)
    {
      if p != o {
        assert RepOf(records, links, queues, p) && DisjointFrom(queues, o, p);
        RepBasics(links, records[p].head, records[p].tail, queues[p]);
        LinkedFrame(links, links', queues[p]);
      }
    }
  }

  /** ep_dequeue of the thread at position i, seen on all queues. */
  lemma RemoveReps(records: map<nat, Record>, links: Links, queues: map<nat, seq<nat>>, o: nat, t: nat, r: Record)
    requires AllReps(records, links, queues) && o in records && OthersDisjoint(queues, o) && t in queues[o]
    requires t in links && r.head == (if links[t].prev == 0 then links[t].next else records[o].head)
    requires r.tail == (if links[t].next == 0 then links[t].prev else records[o].tail)
    ensures (links[t].prev == 0 || links[t].prev in links) && (links[t].next == 0 || links[t].next in links)
    ensures AllReps(records[o := r], Unlinked(links, t), queues[o := Remove(queues[o], t)])
    ensures r.head == 0 <==> Remove(queues[o], t) == []
  {
    assert RepOf(records, links, queues, o);
    var i := Position(queues[o], t);
    RemoveRep(links, records[o].head, records[o].tail, queues[o], i);
    S.RemoveIsRemoveAt(links, queues[o], t);
    var records', links', queues' := records[o := r], Unlinked(links, t), queues[o := Remove(queues[o], t)];
    forall p | p in records'
      ensures RepOf(records', links', queues', p)
    {
      if p != o {
        assert RepOf(records, links, queues, p) && DisjointFrom(queues, o, p);
        RepBasics(links, records[p].head, records[p].tail, queues[p]);
        LinkedFrame(links, links', queues[p]);
      }
    }
    assert RepOf(records', links', queues', o);
    RepBasics(links', r.head, r.tail, queues'[o]);
  }

  function Objects(records: map<nat, Record>, queues: map<nat, seq<nat>>): (r: map<nat, Object>)
    requires records.Keys == queues.Keys
    ensures r.Keys == records.Keys
  {
    map o | o in records :: Lift(records[o], queues[o])
  }

  /** Changing one record and its queue changes one object. */
  lemma ObjectsUpdate(records: map<nat, Record>, queues: map<nat, seq<nat>>, o: nat, r: Record, q: seq<nat>)
    requires records.Keys == queues.Keys && o in records
    ensures Objects(records[o := r], queues[o := q]) == Objects(records, queues)[o := Lift(r, q)]
  {
  }

  /** Agreement of threads and queues keeps the queues apart. */
  lemma AgreementSeparates(k: Kernel, queues: map<nat, seq<nat>>, o: nat)
    requires QueuesAgree(k) && queues.Keys == k.objects.Keys && o in queues
    requires forall p :: p in queues ==> QueueOf(k.objects[p]) == queues[p]
    ensures OthersDisjoint(queues, o)
  {
    forall p | p in queues && p != o
      ensures DisjointFrom(queues, o, p)
    {
      forall t | t in queues[o]
        ensures t !in queues[p]
      {
        if t in queues[p] { OneQueueOnly(k, t, o, p); }
      }
    }
  }

  lemma NotWaitingNowhere(k: Kernel, queues: map<nat, seq<nat>>, t: nat)
    requires QueuesAgree(k) && queues.Keys == k.objects.Keys && t in k.sched.threads && !IsWaiting(StateOf(k, t))
    requires forall p :: p in queues ==> QueueOf(k.objects[p]) == queues[p]
    ensures forall p :: p in queues ==> t !in queues[p]
  {
    forall p | p in queues
      ensures t !in queues[p]
    {
      assert ObjectOk(k, p);
    }
  }

  lemma JustOne(d: Db, d': Db, e: Effect)
    requires Effected(d, d', e)
    ensures AllEffected(d, d', [e])
  {
    assert [e][1..] == [];
    assert AllEffected(d', d', []);
  }

  /** The receiver at the head may be called. */
  lemma HeadMayBeCalled(k: Kernel, d: Db, l: Layout, src: nat, ep: nat)
    requires Agree(k) && Coupled(k, d, l) && src in k.sched.threads && IsRunnableState(StateOf(k, src))
    requires ep in k.objects && k.objects[ep].Endpoint? && k.objects[ep].epState == EpRecv && SendAsserts(k, src, ep)
    ensures MayInsert(d, l, src, HeadOf(k, ep))
  {
    assert ObjectOk(k, ep);
    CallAllowed(k, d, l, src, HeadOf(k, ep));
  }

  /** The sender at the head may call. */
  lemma HeadMayCall(k: Kernel, d: Db, l: Layout, t: nat, ep: nat)
    requires Agree(k) && Coupled(k, d, l) && t in k.sched.threads && IsRunnableState(StateOf(k, t))
    requires ep in k.objects && k.objects[ep].Endpoint? && k.objects[ep].epState == EpSend && ReceiveAsserts(k, t, ep)
    ensures MayInsert(d, l, HeadOf(k, ep), t)
  {
    assert ObjectOk(k, ep);
    CallAllowed(k, d, l, HeadOf(k, ep), t);
  }

  /** A thread in no queue matters to none. */
  lemma AddedReps(records: map<nat, Record>, links: Links, queues: map<nat, seq<nat>>, t: nat)
    requires AllReps(records, links, queues) && t !in links
    ensures AllReps(records, links[t := Link(0, 0)], queues)
  {
    forall p | p in records
      ensures RepOf(records, links[t := Link(0, 0)], queues, p)
    {
      assert RepOf(records, links, queues, p);
      RepBasics(links, records[p].head, records[p].tail, queues[p]);
      LinkedFrame(links, links[t := Link(0, 0)], queues[p]);
    }
  }

  /** Object o may lose all its waiters q. */
  ghost predicate CanRestart(k: Kernel, o: nat, q: seq<nat>) {
    o in k.objects && AllKnown(k.sched, q) && (k.sched.action.SwitchTo? ==> k.sched.action.thread in k.sched.threads)
  }

  /** They are ready again, and the object is idle. */
  ghost function Restarted(k: Kernel, o: nat, q: seq<nat>): (r: Kernel)
    requires CanRestart(k, o, q)
  {
    k.(objects := k.objects[o := WithQueue(k.objects[o], [])], sched := RescheduleRequired(ReadyAll(k.sched, q)))
  }

  class IpcState {
    const sched: S.Scheduler
    var records: map<nat, Record>
    var links: Links
    var tcbs: map<nat, Tcb>
    const space: Mdb.CSpace
    ghost const layout: Layout
    ghost var queues: map<nat, seq<nat>>

    ghost predicate Valid()
      reads this, sched, space
    {
      sched.Valid() && AllReps(records, links, queues) && links.Keys == sched.threads.Keys && Inv(space, layout)
    }

    /** Masters and replies are whatever the slots hold. */
    ghost function Abs(): (k: Kernel)
      requires Valid()
      reads this, sched, space
    {
      Kernel(sched.Abs(), Objects(records, queues), tcbs, MastersOf(space.slots), RepliesOf(space.slots))
    }

    /** Every started thread has its TCB's slots. */
    ghost predicate InStep()
      requires Valid()
      reads this, sched, space
    {
      Coupled(Abs(), View(space), layout)
    }

    /** No objects yet: nobody waits. */
    constructor (s: S.Scheduler, fields: map<nat, Tcb>, cs: Mdb.CSpace, ghost l: Layout)
      requires s.Valid() && Inv(cs, l)
      ensures sched == s && space == cs && layout == l && Valid()
      ensures Abs() == Kernel(s.Abs(), map[], fields, MastersOf(cs.slots), RepliesOf(cs.slots))
    {
      sched, space, layout := s, cs, l;
      records, tcbs, queues := map[], fields, map[];
      links := map t | t in s.threads :: Link(0, 0);
    }

    /** An object that retype has just made. */
    method NewObject(o: nat, kind: NewKind)
      requires Valid() && MayCreate(Abs(), o, kind)
      modifies this, sched
      ensures Valid() && Abs() == Create(old(Abs()), o, kind)
    {
      match kind {
        case NewTcb =>
          sched.AddThread(o);
          AddedReps(records, links, queues, o);
          links := links[o := Link(0, 0)];
          tcbs := tcbs[o := Tcb(NO_BLOCKING, 0, {}, false)];
        case NewEndpoint => AddRecord(o, EndpointRec(EpIdle, 0, 0));
        case NewNotification => AddRecord(o, NotificationRec(NtfnIdle, 0, 0, {}, 0));
      }
    }

    method AddRecord(o: nat, r: Record)
      requires AllReps(records, links, queues) && o !in records && r.head == r.tail == 0
      modifies `records, `queues
      ensures AllReps(records, links, queues)
      ensures Objects(records, queues) == old(Objects(records, queues))[o := Lift(r, [])]
    {
      ghost var records0, queues0 := records, queues;
      records := records[o := r];
      queues := queues[o := []];
      forall p | p in records
        ensures RepOf(records, links, queues, p)
      {
        if p != o { assert RepOf(records0, links, queues0, p); }
      }
    }

    /** tcb_queue_t::ep_append on the queue of o, and set_queue. */
    method EpAppend(o: nat, t: nat)
      requires AllReps(records, links, queues) && o in records && OthersDisjoint(queues, o)
      requires t in links && t != 0 && forall p :: p in queues ==> t !in queues[p]
      modifies `records, `links, `queues
      ensures AllReps(records, links, queues) && links.Keys == old(links).Keys
      ensures o in records && records == old(records)[o := WithEnds(old(records)[o], records[o].head, records[o].tail)]
      ensures queues == old(queues)[o := old(queues)[o] + [t]]
    {
      var head, tail := records[o].head, records[o].tail;
      ghost var r := WithEnds(records[o], if head == 0 then t else head, t);
      AppendReps(records, links, queues, o, t, r);
      if head == 0 {
        head := t;
      } else {
        links := links[tail := Link(t, links[tail].prev)];
      }
      links := links[t := Link(0, tail)];
      records := records[o := WithEnds(records[o], head, t)];
      queues := queues[o := queues[o] + [t]];
    }

    /** tcb_queue_t::ep_dequeue on the queue of o, and set_queue. */
    method EpDequeue(o: nat, t: nat)
      requires AllReps(records, links, queues) && o in records && OthersDisjoint(queues, o) && t in queues[o]
      requires t in links
      modifies `records, `links, `queues
      ensures AllReps(records, links, queues) && links.Keys == old(links).Keys
      ensures o in records && records == old(records)[o := WithEnds(old(records)[o], records[o].head, records[o].tail)]
      ensures queues == old(queues)[o := Remove(old(queues)[o], t)]
      ensures records[o].head == 0 <==> queues[o] == []
    {
      var l := links[t];
      var head, tail := records[o].head, records[o].tail;
      ghost var r := WithEnds(records[o], if l.prev == 0 then l.next else head, if l.next == 0 then l.prev else tail);
      RemoveReps(records, links, queues, o, t, r);
      if l.prev != 0 {
        links := links[l.prev := Link(l.next, links[l.prev].prev)];
      } else {
        head := l.next;
      }
      if l.next != 0 {
        links := links[l.next := Link(links[l.next].next, l.prev)];
      } else {
        tail := l.prev;
      }
      records := records[o := WithEnds(records[o], head, tail)];
      queues := queues[o := Remove(queues[o], t)];
    }

    /** Taking t off o's queue; an object without waiters becomes idle. */
    method TakeOff(o: nat, t: nat)
      requires AllReps(records, links, queues) && o in records && OthersDisjoint(queues, o) && t in queues[o]
      requires t in links
      modifies `records, `links, `queues
      ensures AllReps(records, links, queues) && links.Keys == old(links).Keys
      ensures Objects(records, queues) ==
        old(Objects(records, queues))[o := WithQueue(old(Objects(records, queues))[o], Remove(old(queues)[o], t))]
      ensures queues == old(queues)[o := Remove(old(queues)[o], t)]
    {
      ghost var records0, queues0 := records, queues;
      EpDequeue(o, t);
      ghost var records1 := records;
      if records[o].head == 0 {
        records := records[o := Idled(records[o])];
        SameEndsReps(records1, links, queues, o, records[o]);
      }
      ObjectsUpdate(records0, queues0, o, records[o], queues[o]);
      assert records == records0[o := records[o]];
    }

    /** The first waiter of o is taken off the queue. */
    method PopHead(o: nat) returns (t: nat)
      requires Valid() && o in records && OthersDisjoint(queues, o) && queues[o] != []
      modifies `records, `links, `queues
      ensures Valid() && t == old(queues)[o][0] && t in sched.threads
      ensures Abs() == IpcSpec.PopHead(old(Abs()), o)
    {
      t := records[o].head;
      HeadIsFirst(records, links, queues, o);
      TakeOff(o, t);
    }

    /** The thread stops in state st at the tail of o's queue. */
    method BlockOn(t: nat, o: nat, b: Blocking, st: ThreadState, send: bool)
      requires Valid() && o in records && t in sched.threads && t in tcbs && OthersDisjoint(queues, o)
      requires forall p :: p in queues ==> t !in queues[p]
      modifies this, sched
      ensures Valid() && Abs() == IpcSpec.BlockOn(old(Abs()), t, o, b, st, send)
    {
      tcbs := tcbs[t := tcbs[t].(blocking := b)];
      sched.SetThreadState(t, st);
      PutOn(o, t, send);
    }

    /** Putting t on o's queue and o into the mode that is waited in. */
    method PutOn(o: nat, t: nat, send: bool)
      requires AllReps(records, links, queues) && o in records && OthersDisjoint(queues, o)
      requires t in links && t != 0 && forall p :: p in queues ==> t !in queues[p]
      modifies `records, `links, `queues
      ensures AllReps(records, links, queues) && links.Keys == old(links).Keys
      ensures Objects(records, queues) ==
        old(Objects(records, queues))[o := Joined(old(Objects(records, queues))[o], t, send)]
    {
      ghost var records0, queues0 := records, queues;
      EpAppend(o, t);
      ghost var records1 := records;
      records := records[o := Enlisted(records[o], send)];
      SameEndsReps(records1, links, queues, o, records[o]);
      ObjectsUpdate(records0, queues0, o, records[o], queues[o]);
      assert records == records0[o := records[o]];
    }

    /** The scheduler knows whom it is about to switch to. */
    lemma ActionKnown()
      requires Valid()
      ensures Abs().sched.action.SwitchTo? ==> Known(Abs().sched, Abs().sched.action.thread)
    {}

    /** set_thread_state and possible_switch_to. */
    method Wake(t: nat, st: ThreadState)
      requires Valid() && t in sched.threads && IsRunnableState(st)
      modifies sched
      ensures Valid() && Known(old(Abs()).sched, t) && Abs() == IpcSpec.Wake(old(Abs()), t, st)
    {
      sched.SetThreadState(t, st);
      sched.PossibleSwitchTo(t);
    }

    method SetBadge(t: nat, badge: Badge)
      requires Valid() && t in tcbs
      modifies `tcbs
      ensures Valid() && Abs() == IpcSpec.SetBadge(old(Abs()), t, badge)
    {
      tcbs := tcbs[t := tcbs[t].(badge := badge)];
    }

    method SetThreadState(t: nat, st: ThreadState)
      requires Valid() && t in sched.threads
      modifies sched
      ensures Valid() && Abs() == IpcSpec.SetThreadState(old(Abs()), t, st)
    {
      sched.SetThreadState(t, st);
    }

    /** setup_caller_cap: the sender waits, and a reply capability goes behind its master. */
    method SetupCallerCap(receiver: nat, sender: nat, canGrant: bool)
      requires Valid() && sender in sched.threads && receiver in tcbs
      requires MayInsert(View(space), layout, sender, receiver)
      modifies sched, space
      ensures Valid() && Abs() == IpcSpec.SetupCallerCap(old(Abs()), receiver, sender, canGrant)
      ensures Effected(old(View(space)), View(space), Insert(sender, receiver, canGrant))
    {
      sched.SetThreadState(sender, BlockedOnReply);
      InsertReply(space, layout, sender, receiver, canGrant);
    }

    /** The end of a call: the caller waits for a reply if it may be answered, and is stopped otherwise. */
    method LeaveCaller(receiver: nat, sender: nat, mayReply: bool, canGrant: bool)
      requires Valid() && sender in sched.threads && receiver in tcbs
      requires MayInsert(View(space), layout, sender, receiver)
      modifies sched, space
      ensures Valid()
      ensures Abs() == if mayReply then IpcSpec.SetupCallerCap(old(Abs()), receiver, sender, canGrant)
        else IpcSpec.SetThreadState(old(Abs()), sender, Inactive)
      ensures AllEffected(old(View(space)), View(space), if mayReply then [Insert(sender, receiver, canGrant)] else [])
    {
      if mayReply {
        SetupCallerCap(receiver, sender, canGrant);
        JustOne(old(View(space)), View(space), Insert(sender, receiver, canGrant));
      } else {
        SetThreadState(sender, Inactive);
      }
    }

    /** The end of send_ipc for the sender. */
    method EndCall(receiver: nat, sender: nat, call: bool, mayReply: bool, canGrant: bool)
      requires Valid() && sender in sched.threads && receiver in tcbs
      requires MayInsert(View(space), layout, sender, receiver)
      modifies sched, space
      ensures Valid()
      ensures Abs() ==
        if !call then old(Abs())
        else if mayReply then IpcSpec.SetupCallerCap(old(Abs()), receiver, sender, canGrant)
        else IpcSpec.SetThreadState(old(Abs()), sender, Inactive)
      ensures AllEffected(old(View(space)), View(space),
        if call && mayReply then [Insert(sender, receiver, canGrant)] else [])
    {
      if call { LeaveCaller(receiver, sender, mayReply, canGrant); }
    }

    /** The end of receive_ipc for the sender: a caller is left waiting, any other sender runs. */
    method Settle(t: nat, sender: nat, b: Blocking, grant: bool)
      requires Valid() && sender in sched.threads && t in tcbs && MayInsert(View(space), layout, sender, t)
      modifies sched, space
      ensures Valid() && Known(old(Abs()).sched, sender)
      ensures !b.isCall ==>
        && (old(Abs()).sched.action.SwitchTo? ==> Known(old(Abs()).sched, old(Abs()).sched.action.thread))
        && Abs() == IpcSpec.Wake(old(Abs()), sender, Running)
      ensures b.isCall && (b.canGrant || b.canGrantReply) ==>
        Abs() == IpcSpec.SetupCallerCap(old(Abs()), t, sender, grant)
      ensures b.isCall && !(b.canGrant || b.canGrantReply) ==>
        Abs() == IpcSpec.SetThreadState(old(Abs()), sender, Inactive)
      ensures AllEffected(old(View(space)), View(space),
        if b.isCall && (b.canGrant || b.canGrantReply) then [Insert(sender, t, grant)] else [])
    {
      ActionKnown();
      if b.isCall {
        LeaveCaller(t, sender, b.canGrant || b.canGrantReply, grant);
      } else {
        Wake(sender, Running);
      }
    }

    // ---- endpoint_t ----

    method SendIpc(src: nat, ep: nat, blocking: bool, doCall: bool, canGrant: bool, badge: Badge, canGrantReply: bool)
      requires Valid() && Agree(Abs()) && InStep() && src in sched.threads && IsRunnableState(StateOf(Abs(), src))
      requires ep in records && records[ep].EndpointRec? && SendAsserts(Abs(), src, ep)
      modifies this, sched, space
      ensures Valid() && Abs() == IpcSpec.SendIpc(old(Abs()), src, ep, blocking, doCall, canGrant, badge, canGrantReply)
      ensures AllEffected(old(View(space)), View(space),
        SendEffects(old(Abs()), src, ep, doCall, canGrant || canGrantReply))
    {
      AgreementSeparates(Abs(), queues, ep);
      if records[ep].epState == EpRecv { HeadMayBeCalled(Abs(), View(space), layout, src, ep); }
      if records[ep].epState != EpRecv {
        if blocking {
          NotWaitingNowhere(Abs(), queues, src);
          BlockOn(src, ep, Blocking(ep, badge, canGrant, canGrantReply, doCall), BlockedOnSend, true);
        }
      } else {
        Deliver(src, ep, doCall, canGrant, badge, canGrantReply);
      }
    }

    method Deliver(src: nat, ep: nat, doCall: bool, canGrant: bool, badge: Badge, canGrantReply: bool)
      requires Valid() && IpcSpec.Shape(Abs()) && src in sched.threads && ep in records && OthersDisjoint(queues, ep)
      requires records[ep].EndpointRec? && records[ep].epState == EpRecv && SendAsserts(Abs(), src, ep)
      requires MayInsert(View(space), layout, src, HeadOf(Abs(), ep))
      modifies this, sched, space
      ensures Valid() && Abs() == IpcSpec.Deliver(old(Abs()), src, ep, doCall, canGrant, badge, canGrantReply)
      ensures AllEffected(old(View(space)), View(space),
        SendEffects(old(Abs()), src, ep, doCall, canGrant || canGrantReply))
    {
      var dest, replyCanGrant := WakeReceiver(ep, badge);
      EndCall(dest, src, doCall, canGrant || canGrantReply, replyCanGrant);
    }

    /** The receiver at the head gets the message's badge and runs. */
    method WakeReceiver(ep: nat, badge: Badge) returns (dest: nat, replyCanGrant: bool)
      requires Valid() && IpcSpec.Shape(Abs()) && ep in records && OthersDisjoint(queues, ep)
      requires records[ep].EndpointRec? && HasHead(Abs(), ep)
      modifies this, sched
      ensures Valid() && dest == HeadOf(old(Abs()), ep) && dest in old(Abs()).tcbs
      ensures replyCanGrant == old(Abs()).tcbs[dest].blocking.canGrant
      ensures dest in tcbs && sched.threads.Keys == old(sched.threads.Keys)
      ensures Abs() == IpcSpec.Wake(IpcSpec.SetBadge(IpcSpec.PopHead(old(Abs()), ep), dest, badge), dest, Running)
    {
      assert queues[ep] != [];
      dest := PopHead(ep);
      SetBadge(dest, badge);
      replyCanGrant := tcbs[dest].blocking.canGrant;
      Wake(dest, Running);
    }

    /** complete_signal */
    method CompleteSignal(t: nat) returns (done: bool)
      requires Valid() && IpcSpec.Shape(Abs()) && t in tcbs
      modifies `tcbs, `records
      ensures Valid() && t in old(Abs()).tcbs && done == SignalPending(old(Abs()), t)
      ensures Abs() == if done then TakeSignal(old(Abs()), t, old(tcbs)[t].boundTo) else old(Abs())
    {
      var n := tcbs[t].boundTo;
      assert BindingOk(Abs(), t);
      done := false;
      if n != 0 && records[n].ntfnState == NtfnActive {
        TakeWord(t, n);
        done := true;
      }
    }

    /** The pending word goes to t, and the notification becomes idle. */
    method TakeWord(t: nat, n: nat)
      requires Valid() && t in tcbs && n in records && records[n].NotificationRec?
      modifies `tcbs, `records
      ensures Valid() && Abs() == TakeSignal(old(Abs()), t, n)
    {
      tcbs := tcbs[t := tcbs[t].(badge := records[n].word)];
      SameEndsReps(records, links, queues, n, Idled(records[n]));
      ObjectsUpdate(records, queues, n, Idled(records[n]), queues[n]);
      assert queues[n := queues[n]] == queues;
      records := records[n := Idled(records[n])];
    }

    method ReceiveIpc(t: nat, ep: nat, isBlocking: bool, grant: bool)
      requires Valid() && Agree(Abs()) && InStep() && t in sched.threads && IsRunnableState(StateOf(Abs(), t))
      requires ep in records && records[ep].EndpointRec? && ReceiveAsserts(Abs(), t, ep)
      modifies this, sched, space
      ensures Valid() && Abs() == IpcSpec.ReceiveIpc(old(Abs()), t, ep, isBlocking, grant)
      ensures AllEffected(old(View(space)), View(space), AcceptEffects(old(Abs()), t, ep, grant))
    {
      AgreementSeparates(Abs(), queues, ep);
      if records[ep].epState == EpSend { HeadMayCall(Abs(), View(space), layout, t, ep); }
      NotWaitingNowhere(Abs(), queues, t);
      var done := CompleteSignal(t);
      if done {
        return;
      }
      if records[ep].epState != EpSend {
        AwaitSender(t, ep, isBlocking, grant);
      } else {
        Accept(t, ep, grant);
      }
    }

    /** Without a sender the thread waits, or is told that there is none. */
    method AwaitSender(t: nat, ep: nat, isBlocking: bool, grant: bool)
      requires Valid() && t in sched.threads && t in tcbs && ep in records && OthersDisjoint(queues, ep)
      requires forall p :: p in queues ==> t !in queues[p]
      modifies this, sched
      ensures Valid() && Known(old(Abs()).sched, t)
      ensures
        var b := old(tcbs)[t].blocking;
        Abs() ==
          if isBlocking
            then IpcSpec.BlockOn(old(Abs()), t, ep, Blocking(ep, b.badge, grant, b.canGrantReply, b.isCall),
            BlockedOnReceive, false)
          else IpcSpec.SetBadge(old(Abs()), t, {})
    {
      if isBlocking {
        var b := tcbs[t].blocking;
        BlockOn(t, ep, Blocking(ep, b.badge, grant, b.canGrantReply, b.isCall), BlockedOnReceive, false);
      } else {
        SetBadge(t, {});
      }
    }

    method Accept(t: nat, ep: nat, grant: bool)
      requires Valid() && IpcSpec.Shape(Abs()) && t in sched.threads && ep in records && OthersDisjoint(queues, ep)
      requires records[ep].EndpointRec? && records[ep].epState == EpSend && ReceiveAsserts(Abs(), t, ep)
      requires MayInsert(View(space), layout, HeadOf(Abs(), ep), t) && !SignalPending(Abs(), t)
      modifies this, sched, space
      ensures Valid() && Abs() == IpcSpec.Accept(old(Abs()), t, ep, grant)
      ensures AllEffected(old(View(space)), View(space), AcceptEffects(old(Abs()), t, ep, grant))
    {
      var sender, b := TakeMessage(t, ep);
      Settle(t, sender, b, grant);
    }

    /** The sender at the head leaves the queue, and its badge goes to t. */
    method TakeMessage(t: nat, ep: nat) returns (sender: nat, b: Blocking)
      requires Valid() && IpcSpec.Shape(Abs()) && t in sched.threads && ep in records && OthersDisjoint(queues, ep)
      requires HasHead(Abs(), ep)
      modifies this
      ensures Valid() && sender == HeadOf(old(Abs()), ep) && sender in old(Abs()).tcbs
      ensures b == old(Abs()).tcbs[sender].blocking
      ensures sender in sched.threads && t in tcbs
      ensures Abs() == IpcSpec.SetBadge(IpcSpec.PopHead(old(Abs()), ep), t, b.badge)
    {
      assert queues[ep] != [];
      sender := PopHead(ep);
      b := tcbs[sender].blocking;
      SetBadge(t, b.badge);
    }

    // ---- notification_t ----

    /** endpoint_t::cancel_ipc and notification_t::cancel_signal */
    method LeaveQueue(t: nat)
      requires Valid() && WaitsSomewhere(Abs(), t) && OthersDisjoint(queues, tcbs[t].blocking.waitsOn)
      requires t in queues[tcbs[t].blocking.waitsOn]
      modifies this, sched
      ensures Valid() && Abs() == IpcSpec.LeaveQueue(old(Abs()), t)
    {
      TakeOff(tcbs[t].blocking.waitsOn, t);
      sched.SetThreadState(t, Inactive);
    }

    method SendSignal(n: nat, badge: Badge)
      requires Valid() && Agree(Abs()) && n in records && records[n].NotificationRec? && SignalAsserts(Abs(), n)
      modifies this, sched
      ensures Valid() && Abs() == IpcSpec.SendSignal(old(Abs()), n, badge)
    {
      match records[n].ntfnState {
        case NtfnIdle =>
          var t := records[n].boundTcb;
          if t != 0 && sched.threads[t].state == BlockedOnReceive {
            assert ThreadOk(Abs(), t);
            AgreementSeparates(Abs(), queues, tcbs[t].blocking.waitsOn);
            LeaveQueue(t);
            SetBadge(t, badge);
            Wake(t, Running);
          } else {
            SetWord(n, badge);
          }
        case NtfnWaiting =>
          AgreementSeparates(Abs(), queues, n);
          assert queues[n] != [];
          var dest := PopHead(n);
          SetBadge(dest, badge);
          Wake(dest, Running);
        case NtfnActive =>
          SetWord(n, records[n].word + badge);
      }
    }

    /** notification_t::active, and merging into a pending word. */
    method SetWord(n: nat, word: Badge)
      requires Valid() && n in records && records[n].NotificationRec?
      modifies `records
      ensures Valid()
      ensures
        var obj := old(Abs()).objects[n];
        Abs() == old(Abs()).(objects := old(Abs()).objects[n := Notification(NtfnActive, obj.ntfnQueue, word,
          obj.boundTcb)])
    {
      var r := records[n];
      var r' := NotificationRec(NtfnActive, r.head, r.tail, word, r.boundTcb);
      SameEndsReps(records, links, queues, n, r');
      ObjectsUpdate(records, queues, n, r', queues[n]);
      assert queues[n := queues[n]] == queues;
      records := records[n := r'];
    }

    method ReceiveSignal(t: nat, n: nat, isBlocking: bool)
      requires Valid() && Agree(Abs()) && t in sched.threads && !IsWaiting(StateOf(Abs(), t))
      requires n in records && records[n].NotificationRec?
      modifies this, sched
      ensures Valid() && Abs() == IpcSpec.ReceiveSignal(old(Abs()), t, n, isBlocking)
    {
      if records[n].ntfnState == NtfnActive {
        TakeWord(t, n);
      } else if isBlocking {
        AgreementSeparates(Abs(), queues, n);
        NotWaitingNowhere(Abs(), queues, t);
        var b := tcbs[t].blocking;
        BlockOn(t, n, Blocking(n, b.badge, b.canGrant, b.canGrantReply, b.isCall), BlockedOnNotification, false);
      } else {
        SetBadge(t, {});
      }
    }

    // ---- cancellation ----

    /** tcb_t::cancel_ipc */
    method CancelIpc(t: nat)
      requires Valid() && Agree(Abs()) && t in sched.threads
      requires (IsWaiting(StateOf(Abs(), t)) ==> WaitsSomewhere(Abs(), t))
      modifies this, sched, space
      ensures Valid() && Abs() == IpcSpec.CancelIpc(old(Abs()), t)
      ensures AllEffected(old(View(space)), View(space), CancelEffects(old(Abs()), t))
    {
      if IsWaiting(sched.threads[t].state) {
        assert ThreadOk(Abs(), t) && ObjectOk(Abs(), tcbs[t].blocking.waitsOn);
        assert sched.threads[t].state != BlockedOnNotification ==> records[tcbs[t].blocking.waitsOn].epState != EpIdle;
        AgreementSeparates(Abs(), queues, tcbs[t].blocking.waitsOn);
        LeaveQueue(t);
      } else if sched.threads[t].state == BlockedOnReply {
        assert CallerOk(Abs(), t);
        CancelReply(t);
      }
    }

    /** cancel_ipc of a thread that waits for a reply: the slot behind its master is deleted. */
    method CancelReply(t: nat)
      requires Valid() && t in tcbs && t in Abs().masters
      modifies `tcbs, space
      ensures Valid() && Abs() == DropReplyOf(old(Abs()).(tcbs := old(tcbs)[t := old(tcbs)[t].(faulted := false)]), t)
      ensures AllEffected(old(View(space)), View(space), [Cancel(t)])
    {
      DropNext(t);
      tcbs := tcbs[t := tcbs[t].(faulted := false)];
    }

    /** delete_one of the slot behind the master. */
    method DropNext(t: nat)
      requires Valid() && t in MastersOf(space.slots)
      modifies space
      ensures Valid() && Abs() == DropReplyOf(old(Abs()), t)
      ensures AllEffected(old(View(space)), View(space), [Cancel(t)])
    {
      RemoveNext(space, layout, t);
      JustOne(old(View(space)), View(space), Cancel(t));
    }

    /** do_reply through the reply capability in slot. */
    method DoReply(slot: nat, resume: bool)
      requires Valid() && IpcSpec.Shape(Abs()) && slot in Abs().replies && Abs().replies[slot].caller in sched.threads
      requires StateOf(Abs(), Abs().replies[slot].caller) == BlockedOnReply
      modifies this, sched, space
      ensures Valid() && Abs() == IpcSpec.DoReply(old(Abs()), slot, resume)
      ensures AllEffected(old(View(space)), View(space), [Delete(slot)])
    {
      var receiver := space.slots[slot].cap.tcb;
      DropReply(slot);
      Answer(receiver, resume);
    }

    /** delete_one of the reply capability. */
    method DropReply(slot: nat)
      requires Valid() && slot in RepliesOf(space.slots)
      modifies space
      ensures Valid() && Abs() == DeleteReply(old(Abs()), slot)
      ensures AllEffected(old(View(space)), View(space), [Delete(slot)])
    {
      RemoveReply(space, layout, slot);
      JustOne(old(View(space)), View(space), Delete(slot));
    }

    /** The answered thread runs, or stops if its fault was not resolved. */
    method Answer(receiver: nat, resume: bool)
      requires Valid() && receiver in sched.threads && receiver in tcbs
      modifies `tcbs, sched
      ensures Valid() && Known(old(Abs()).sched, receiver)
      ensures (old(Abs()).sched.action.SwitchTo? ==> Known(old(Abs()).sched, old(Abs()).sched.action.thread))
      ensures Abs() ==
        if !old(tcbs)[receiver].faulted then IpcSpec.Wake(IpcSpec.SetBadge(old(Abs()), receiver, {}), receiver, Running)
        else if resume then IpcSpec.Wake(old(Abs()), receiver, Restart)
        else IpcSpec.SetThreadState(old(Abs()), receiver, Inactive)
    {
      ActionKnown();
      if !tcbs[receiver].faulted {
        SetBadge(receiver, {});
        Wake(receiver, Running);
      } else if resume {
        Wake(receiver, Restart);
      } else {
        SetThreadState(receiver, Inactive);
      }
    }

    /** cancel_all_ipc and cancel_all_signal: the queue is emptied first, then walked. */
    method CancelAll(o: nat)
      requires Valid() && Ok(Abs()) && o in records
      modifies this, sched
      ensures Valid() && Abs() == IpcSpec.CancelAll(old(Abs()), o)
    {
      var idle := match records[o] case EndpointRec(s, _, _) => s ==
        EpIdle case NotificationRec(s, _, _, _, _) => s != NtfnWaiting;
      if !idle {
        assert ObjectOk(Abs(), o);
        RestartAll(o);
      }
    }

    /** The queue is emptied first, then walked. */
    method RestartAll(o: nat)
      requires Valid() && o in records && forall t :: t in queues[o] ==> t in sched.threads
      modifies this, sched
      ensures Valid() && CanRestart(old(Abs()), o, old(queues)[o]) && Abs() == Restarted(old(Abs()), o, old(queues)[o])
    {
      ghost var q := queues[o];
      var thread := records[o].head;
      CanRestartAll(o);
      assert RepOf(records, links, queues, o);
      EmptyQueue(o);
      ReadyFrom(thread, q);
    }

    /** The detached queue is walked, and a new thread is to be chosen. */
    method ReadyFrom(first: nat, ghost q: seq<nat>)
      requires sched.Valid() && links.Keys == sched.threads.Keys && Linked(links, q) && first == First(q)
      modifies sched
      ensures sched.Valid() && sched.threads.Keys == old(sched.threads).Keys && AllKnown(old(sched.Abs()), q)
      ensures old(sched.Abs()).action.SwitchTo? ==> old(sched.Abs()).action.thread in old(sched.threads)
      ensures sched.Abs() == RescheduleRequired(ReadyAll(old(sched.Abs()), q))
    {
      RestartFrom(first, q);
      sched.RescheduleRequired();
    }

    lemma CanRestartAll(o: nat)
      requires Valid() && o in records && forall t :: t in queues[o] ==> t in sched.threads
      ensures CanRestart(Abs(), o, queues[o])
    {}

    /** The object forgets its waiters and becomes idle. */
    method EmptyQueue(o: nat)
      requires AllReps(records, links, queues) && o in records
      modifies `records, `queues
      ensures AllReps(records, links, queues) && queues == old(queues)[o := []]
      ensures Objects(records, queues) ==
        old(Objects(records, queues))[o := WithQueue(old(Objects(records, queues))[o], [])]
      ensures records == old(records)[o := WithEnds(Idled(old(records)[o]), 0, 0)]
    {
      EmptyReps(records, links, queues, o);
      ObjectsUpdate(records, queues, o, WithEnds(Idled(records[o]), 0, 0), []);
      records := records[o := WithEnds(Idled(records[o]), 0, 0)];
      queues := queues[o := []];
    }

    /** cancel_badged_sends: the queue is detached, walked, and what is left is put back. */
    method CancelBadgedSends(ep: nat, badge: Badge)
      requires Valid() && Ok(Abs()) && ep in records && records[ep].EndpointRec?
      modifies this, sched
      ensures Valid() && Abs() == IpcSpec.CancelBadgedSends(old(Abs()), ep, badge)
    {
      if records[ep].epState == EpSend {
        assert ObjectOk(Abs(), ep);
        AgreementSeparates(Abs(), queues, ep);
        CancelMatching(ep, badge);
      }
    }

    method CancelMatching(ep: nat, badge: Badge)
      requires Valid() && ep in records && records[ep].EndpointRec? && records[ep].epState == EpSend
      requires OthersDisjoint(queues, ep) && forall t :: t in queues[ep] ==> t in tcbs
      modifies `records, `links, `queues, sched
      ensures Valid()
      ensures
        var q := old(queues)[ep];
        var victims := WithBadge(tcbs, q, badge, true);
        && (forall k :: 0 <= k < |victims| ==> victims[k] in old(sched.threads))
        && Abs() ==
          old(Abs()).(objects := old(Abs()).objects[ep := WithQueue(old(Abs()).objects[ep],
          WithBadge(tcbs, q, badge, false))],
                                sched := RescheduleRequired(ReadyAll(old(sched.Abs()), victims)))
    {
      DetachAndWalk(ep, badge);
      sched.RescheduleRequired();
    }

    method DetachAndWalk(ep: nat, badge: Badge)
      requires sched.Valid() && AllReps(records, links, queues) && links.Keys == sched.threads.Keys
      requires ep in records && records[ep].EndpointRec? && records[ep].epState == EpSend
      requires OthersDisjoint(queues, ep) && forall t :: t in queues[ep] ==> t in tcbs
      modifies `records, `links, `queues, sched
      ensures sched.Valid() && AllReps(records, links, queues) && links.Keys == sched.threads.Keys
      ensures
        var q := old(queues)[ep];
        var victims := WithBadge(tcbs, q, badge, true);
        && (forall k :: 0 <= k < |victims| ==> victims[k] in old(sched.threads))
        && sched.Abs() == ReadyAll(old(sched.Abs()), victims)
        && Objects(records, queues) ==
          old(Objects(records, queues))[ep := WithQueue(old(Objects(records, queues))[ep],
          WithBadge(tcbs, q, badge, false))]
    {
      ghost var q := queues[ep];
      ghost var records0, links0, queues0 := records, links, queues;
      var head, tail := records[ep].head, records[ep].tail;
      assert RepOf(records, links, queues, ep);
      EmptyQueue(ep);
      head, tail := RestartBadged(head, tail, badge, q);
      PutBack(ep, head, tail, records0, links0, queues0, WithBadge(tcbs, q, badge, false));
    }

    /** set_queue with the senders that are left; the endpoint is sending again if there are any. */
    method PutBack(ep: nat, head: nat, tail: nat, ghost records0: map<nat, Record>, ghost links0: Links,
                   ghost queues0: map<nat, seq<nat>>, ghost keep: seq<nat>)
      requires AllReps(records0, links0, queues0) && ep in records0 && records0[ep].EndpointRec?
      requires records0[ep].epState == EpSend
      requires OthersDisjoint(queues0, ep) && Rep(links, head, tail, keep) && links.Keys == links0.Keys
      requires forall x :: x in links0 && x !in queues0[ep] ==> links[x] == links0[x]
      requires records == records0[ep := WithEnds(Idled(records0[ep]), 0, 0)] && queues == queues0[ep := []]
      modifies `records, `queues
      ensures AllReps(records, links, queues)
      ensures Objects(records, queues) ==
        Objects(records0, queues0)[ep := WithQueue(Objects(records0, queues0)[ep], keep)]
    {
      RepBasics(links, head, tail, keep);
      var state := if head != 0 then EpSend else EpIdle;
      records := records[ep := EndpointRec(state, head, tail)];
      queues := queues[ep := keep];
      assert records == records0[ep := EndpointRec(state, head, tail)] && queues == queues0[ep := keep];
      ObjectsUpdate(records0, queues0, ep, EndpointRec(state, head, tail), keep);
      DetachedReps(records0, links0, queues0, ep, records, links, queues);
    }

    /** The walk: a sender with the badge is restarted, queued for the processor and unlinked. */
    method RestartBadged(first: nat, last: nat, badge: Badge, ghost q: seq<nat>) returns (head: nat, tail: nat)
      requires sched.Valid() && links.Keys == sched.threads.Keys && Rep(links, first, last, q)
      requires forall t :: t in q ==> t in tcbs
      modifies `links, sched
      ensures sched.Valid() && sched.threads.Keys == old(sched.threads).Keys && links.Keys == old(links).Keys
      ensures Rep(links, head, tail, WithBadge(tcbs, q, badge, false))
      ensures forall x :: x in old(links) && x !in q ==> links[x] == old(links)[x]
      ensures forall k :: 0 <= k < |WithBadge(tcbs, q, badge, true)| ==>
        WithBadge(tcbs, q, badge, true)[k] in old(sched.threads)
      ensures sched.Abs() == ReadyAll(old(sched.Abs()), WithBadge(tcbs, q, badge, true))
    {
      head, tail := first, last;
      var thread := first;
      ghost var i := 0;
      ghost var s0, links0 := sched.Abs(), links;
      MembersLinked(links, q);
      WalkStart(s0, links, head, tail, tcbs, q, badge);
      while thread != 0
        invariant sched.Valid() && links.Keys == links0.Keys == sched.threads.Keys
        invariant WalkLinks(links0, links, head, tail, thread, tcbs, q, i, badge)
        invariant WalkSched(s0, sched.Abs(), tcbs, q, i, badge)
        decreases |q| - i
      {
        WalkHere(links0, links, head, tail, thread, tcbs, q, i, badge);
        head, tail, thread := WalkTurn(thread, head, tail, badge, s0, links0, q, i);
        i := i + 1;
      }
      WalkEnd(s0, links0, sched.Abs(), links, head, tail, tcbs, q, i, badge);
    }

    method WalkTurn(t: nat, first: nat, last: nat, badge: Badge, ghost s0: Sched, ghost links0: Links,
        ghost q: seq<nat>, ghost i: nat)
      returns (head: nat, tail: nat, thread: nat)
      requires sched.Valid() && links.Keys == links0.Keys == sched.threads.Keys
      requires WalkLinks(links0, links, first, last, t, tcbs, q, i, badge)
      requires WalkSched(s0, sched.Abs(), tcbs, q, i, badge)
      requires i < |q| && t == q[i] && t in tcbs && t in links0
      modifies `links, sched
      ensures sched.Valid() && links.Keys == links0.Keys == sched.threads.Keys
      ensures WalkLinks(links0, links, head, tail, thread, tcbs, q, i + 1, badge)
      ensures WalkSched(s0, sched.Abs(), tcbs, q, i + 1, badge)
    {
      ghost var s1, links1 := sched.Abs(), links;
      head, tail, thread := BadgedTurn(t, first, last, badge, WithBadge(tcbs, q[..i], badge, false), q[i..]);
      WalkLinksStep(links0, links1, links, head, tail, thread, tcbs, q, i, badge);
      WalkSchedStep(s0, s1, sched.Abs(), tcbs, q, i, badge);
    }

    /** One turn of the walk; the next thread is read before this one is unlinked. */
    method BadgedTurn(t: nat, first: nat, last: nat, badge: Badge, ghost kept: seq<nat>, ghost rest: seq<nat>)
      returns (head: nat, tail: nat, thread: nat)
      requires sched.Valid() && links.Keys == sched.threads.Keys && Rep(links, first, last, kept + rest)
      requires rest != [] && t == rest[0] && t in sched.threads && t in tcbs
      modifies `links, sched
      ensures sched.Valid() && links.Keys == old(links).Keys && sched.threads.Keys == old(sched.threads).Keys
      ensures thread == First(rest[1..])
      ensures forall x :: x in old(links) && x !in kept + rest ==> links[x] == old(links)[x]
      ensures Known(old(sched.Abs()), t)
      ensures sched.Abs() == if tcbs[t].blocking.badge == badge then Enqueue(SetState(old(sched.Abs()), t, Restart), t)
        else old(sched.Abs())
      ensures Rep(links, head, tail, kept + (if tcbs[t].blocking.badge == badge then [] else [t]) + rest[1..])
    {
      ghost var c := kept + rest;
      assert LinkAt(links, c, |kept|);
      thread := links[t].next;
      head, tail := first, last;
      if tcbs[t].blocking.badge == badge {
        RestartOne(t);
        head, tail := Unlink(t, head, tail, c, |kept|);
        assert Queues.RemoveAt(c, |kept|) == kept + [] + rest[1..];
      } else {
        assert c == kept + [t] + rest[1..];
      }
    }

    /** ep_dequeue on a detached queue. */
    method Unlink(t: nat, first: nat, last: nat, ghost c: seq<nat>, ghost k: nat) returns (head: nat, tail: nat)
      requires Rep(links, first, last, c) && k < |c| && c[k] == t
      modifies `links
      ensures links.Keys == old(links).Keys && Rep(links, head, tail, Queues.RemoveAt(c, k))
      ensures forall x :: x in old(links) && x !in c ==> links[x] == old(links)[x]
    {
      RemoveRep(links, first, last, c, k);
      var l := links[t];
      head, tail := first, last;
      if l.prev != 0 {
        links := links[l.prev := Link(l.next, links[l.prev].prev)];
      } else {
        head := l.next;
      }
      if l.next != 0 {
        links := links[l.next := Link(links[l.next].next, l.prev)];
      } else {
        tail := l.prev;
      }
      assert links == Unlinked(old(links), t);
    }

    /** The walk along tcbEPNext: every thread is restarted and queued for the processor. */
    method RestartFrom(first: nat, ghost q: seq<nat>)
      requires sched.Valid() && links.Keys == sched.threads.Keys && Linked(links, q) && first == First(q)
      modifies sched
      ensures sched.Valid() && sched.threads.Keys == old(sched.threads).Keys
      ensures forall k :: 0 <= k < |q| ==> q[k] in old(sched.threads)
      ensures sched.Abs() == ReadyAll(old(sched.Abs()), q)
    {
      var thread := first;
      ghost var i := 0;
      ghost var s0 := sched.Abs();
      MembersLinked(links, q);
      assert q[0..] == q;
      while thread != 0
        invariant sched.Valid() && sched.threads.Keys == links.Keys
        invariant RestartState(s0, sched.Abs(), q, i) && thread == First(q[i..])
        decreases |q| - i
      {
        thread := RestartTurn(thread, s0, q, i);
        i := i + 1;
      }
      RestartEnd(links, s0, sched.Abs(), q, i);
    }

    method RestartTurn(t: nat, ghost s0: Sched, ghost q: seq<nat>, ghost i: nat) returns (next: nat)
      requires sched.Valid() && sched.threads.Keys == links.Keys && Linked(links, q)
      requires RestartState(s0, sched.Abs(), q, i) && t == First(q[i..]) && t != 0
      modifies sched
      ensures sched.Valid() && sched.threads.Keys == links.Keys
      ensures i < |q| && RestartState(s0, sched.Abs(), q, i + 1) && next == First(q[i + 1..])
    {
      assert LinkAt(links, q, i);
      ghost var s1 := sched.Abs();
      RestartOne(t);
      assert q[i..] == [q[i]] + q[i + 1..];
      ReadyStep(s1, sched.Abs(), t, q[i..], q[i + 1..], true);
      next := links[t].next;
    }

    method RestartOne(t: nat)
      requires sched.Valid() && t in sched.threads
      modifies sched
      ensures sched.Valid() && sched.threads.Keys == old(sched.threads).Keys
      ensures Known(old(sched.Abs()), t) && sched.Abs() == Enqueue(SetState(old(sched.Abs()), t, Restart), t)
    {
      sched.SetThreadState(t, Restart);
      sched.SchedEnqueue(t);
    }
  }

  /** What ReadyAll needs. */
  ghost predicate AllKnown(s: Sched, ts: seq<nat>) {
    && |s.queues| == NUM_PRIORITIES && (forall t :: t in s.threads ==> s.threads[t].prio < NUM_PRIORITIES)
    && forall k :: 0 <= k < |ts| ==> ts[k] in s.threads
  }

  /** Where cancel_badged_sends stands after i senders: those without the badge are still linked in
      front of the rest, and thread is the next to look at. */
  ghost predicate WalkLinks(links0: Links, links: Links, head: nat, tail: nat, thread: nat,
                            tcbs: map<nat, Tcb>, q: seq<nat>, i: nat, badge: Badge)
  {
    && i <= |q| && thread == First(q[i..]) && (forall t :: t in q ==> t in tcbs && t in links0)
    && Rep(links, head, tail, WithBadge(tcbs, q[..i], badge, false) + q[i..])
    && (forall x :: x in links0 && x !in q ==> x in links && links[x] == links0[x])
  }

  /** And those with the badge have been woken. */
  ghost predicate WalkSched(s0: Sched, s: Sched, tcbs: map<nat, Tcb>, q: seq<nat>, i: nat, badge: Badge) {
    && i <= |q| && (forall t :: t in q ==> t in tcbs)
    && AllKnown(s, WithBadge(tcbs, q[i..], badge, true)) && AllKnown(s0, WithBadge(tcbs, q, badge, true))
    && ReadyAll(s, WithBadge(tcbs, q[i..], badge, true)) == ReadyAll(s0, WithBadge(tcbs, q, badge, true))
  }

  lemma WalkStart(s0: Sched, links: Links, head: nat, tail: nat, tcbs: map<nat, Tcb>, q: seq<nat>, badge: Badge)
    requires Rep(links, head, tail, q) && links.Keys == s0.threads.Keys && AllKnown(s0, [])
    requires forall t :: t in q ==> t in tcbs
    ensures WalkLinks(links, links, head, tail, head, tcbs, q, 0, badge) && WalkSched(s0, s0, tcbs, q, 0, badge)
  {
    assert q[0..] == q && q[..0] == [] && [] + q == q;
    RepBasics(links, head, tail, q);
    MembersLinked(links, q);
    WithBadgeKnown(tcbs, q, badge, true, links.Keys);
  }

  lemma WalkHere(links0: Links, links: Links, head: nat, tail: nat, thread: nat, tcbs: map<nat, Tcb>, q: seq<nat>,
      i: nat, badge: Badge)
    requires WalkLinks(links0, links, head, tail, thread, tcbs, q, i, badge) && thread != 0
    ensures i < |q| && thread == q[i] && thread in tcbs && thread in links0
  {
    if i < |q| { assert q[i] in q; }
  }

  lemma WalkLinksStep(links0: Links, links: Links, links': Links, head: nat, tail: nat, thread: nat,
                      tcbs: map<nat, Tcb>, q: seq<nat>, i: nat, badge: Badge)
    requires i < |q| && (forall t :: t in q ==> t in tcbs && t in links0)
    requires forall x :: x in links0 && x !in q ==> x in links && links[x] == links0[x]
    requires thread == First(q[i..][1..]) && links'.Keys == links.Keys
    requires forall x :: x in links && x !in WithBadge(tcbs, q[..i], badge, false) + q[i..] ==> links'[x] == links[x]
    requires Rep(links', head, tail, WithBadge(tcbs, q[..i], badge, false)
                                     + (if tcbs[q[i]].blocking.badge == badge then [] else [q[i]]) + q[i..][1..])
    ensures WalkLinks(links0, links', head, tail, thread, tcbs, q, i + 1, badge)
  {
    BadgeStep(tcbs, q, i, badge);
    assert q[i..][1..] == q[i + 1..];
    forall x | x in links0 && x !in q
      ensures x in links' && links'[x] == links0[x]
    {
      assert x !in WithBadge(tcbs, q[..i], badge, false) + q[i..];
    }
  }

  lemma WalkSchedStep(s0: Sched, s: Sched, s': Sched, tcbs: map<nat, Tcb>, q: seq<nat>, i: nat, badge: Badge)
    requires WalkSched(s0, s, tcbs, q, i, badge) && i < |q| && Known(s, q[i])
    requires s' == if tcbs[q[i]].blocking.badge == badge then Enqueue(SetState(s, q[i], Restart), q[i]) else s
    ensures WalkSched(s0, s', tcbs, q, i + 1, badge)
  {
    BadgeStep(tcbs, q, i, badge);
    ReadyStep(s, s', q[i], WithBadge(tcbs, q[i..], badge, true), WithBadge(tcbs, q[i + 1..], badge, true),
      tcbs[q[i]].blocking.badge == badge);
  }

  lemma WalkEnd(s0: Sched, links0: Links, s: Sched, links: Links, head: nat, tail: nat,
                tcbs: map<nat, Tcb>, q: seq<nat>, i: nat, badge: Badge)
    requires WalkLinks(links0, links, head, tail, 0, tcbs, q, i, badge) && WalkSched(s0, s, tcbs, q, i, badge)
    requires 0 !in links0
    ensures Rep(links, head, tail, WithBadge(tcbs, q, badge, false))
    ensures s == ReadyAll(s0, WithBadge(tcbs, q, badge, true))
  {
    assert q[..i] == q && q[i..] == [];
    assert WithBadge(tcbs, q, badge, false) + [] == WithBadge(tcbs, q, badge, false);
  }

  /** Waking the first of ts leaves the rest to be woken. */
  lemma ReadyStep(s: Sched, s': Sched, t: nat, ts: seq<nat>, rest: seq<nat>, matches: bool)
    requires AllKnown(s, ts) && Known(s, t) && ts == (if matches then [t] else []) + rest
    requires s' == if matches then Enqueue(SetState(s, t, Restart), t) else s
    ensures AllKnown(s', rest) && ReadyAll(s', rest) == ReadyAll(s, ts)
  {
    if matches { assert ts[1..] == rest; } else { assert ts == rest; }
  }

  /** After the walk every other queue is as it was. */
  lemma DetachedReps(records0: map<nat, Record>, links0: Links, queues0: map<nat, seq<nat>>, ep: nat,
                     records: map<nat, Record>, links: Links, queues: map<nat, seq<nat>>)
    requires AllReps(records0, links0, queues0) && ep in records0 && OthersDisjoint(queues0, ep)
    requires links.Keys == links0.Keys
    requires forall x :: x in links0 && x !in queues0[ep] ==> links[x] == links0[x]
    requires ep in records && ep in queues && records == records0[ep := records[ep]]
    requires queues == queues0[ep := queues[ep]]
    requires RepOf(records, links, queues, ep)
    ensures AllReps(records, links, queues)
  {
    forall p | p in records
      ensures RepOf(records, links, queues, p)
    {
      if p != ep {
        assert RepOf(records0, links0, queues0, p) && DisjointFrom(queues0, ep, p);
        RepBasics(links0, records0[p].head, records0[p].tail, queues0[p]);
        LinkedFrame(links0, links, queues0[p]);
      }
    }
  }

  /** One more sender looked at. */
  lemma BadgeStep(tcbs: map<nat, Tcb>, q: seq<nat>, i: nat, badge: Badge)
    requires i < |q| && forall t :: t in q ==> t in tcbs
    ensures
      var matches := tcbs[q[i]].blocking.badge == badge;
      && WithBadge(tcbs, q[..i + 1], badge, false) ==
        WithBadge(tcbs, q[..i], badge, false) + (if matches then [] else [q[i]])
      && WithBadge(tcbs, q[i..], badge, true) ==
        (if matches then [q[i]] else []) + WithBadge(tcbs, q[i + 1..], badge, true)
  {
    assert q[..i + 1] == q[..i] + [q[i]];
    WithBadgeSnoc(tcbs, q[..i], q[i], badge, false);
    assert q[i..][1..] == q[i + 1..];
  }

  lemma {:induction false} WithBadgeSnoc(tcbs: map<nat, Tcb>, q: seq<nat>, t: nat, badge: Badge, matching: bool)
    requires t in tcbs && forall x :: x in q ==> x in tcbs
    ensures WithBadge(tcbs, q + [t], badge, matching) ==
              WithBadge(tcbs, q, badge, matching) + if (tcbs[t].blocking.badge == badge) == matching then [t] else []
  {
    if q != [] {
      assert (q + [t])[1..] == q[1..] + [t];
      WithBadgeSnoc(tcbs, q[1..], t, badge, matching);
    }
  }

  lemma WithBadgeKnown(tcbs: map<nat, Tcb>, q: seq<nat>, badge: Badge, matching: bool, known: set<nat>)
    requires (forall t :: t in q ==> t in tcbs) && forall k :: 0 <= k < |q| ==> q[k] in known
    ensures var r := WithBadge(tcbs, q, badge, matching); forall k :: 0 <= k < |r| ==> r[k] in known
  {
    var r := WithBadge(tcbs, q, badge, matching);
    forall k | 0 <= k < |r|
      ensures r[k] in known
    {
      assert r[k] in r;
    }
  }

  /** After i threads of q have been restarted. */
  ghost predicate RestartState(s0: Sched, s: Sched, q: seq<nat>, i: nat) {
    i <= |q| && AllKnown(s, q[i..]) && AllKnown(s0, q) && ReadyAll(s, q[i..]) == ReadyAll(s0, q)
  }

  lemma RestartEnd(links: Links, s0: Sched, s: Sched, q: seq<nat>, i: nat)
    requires RestartState(s0, s, q, i) && Linked(links, q) && First(q[i..]) == 0
    ensures s == ReadyAll(s0, q)
  {
    MembersLinked(links, q);
    assert q[i..] == [];
  }

  lemma MembersLinked(links: Links, q: seq<nat>)
    requires Linked(links, q)
    ensures forall k :: 0 <= k < |q| ==> q[k] in links && q[k] != 0
  {
    forall k | 0 <= k < |q|
      ensures q[k] in links && q[k] != 0
    {
      assert LinkAt(links, q, k);
    }
  }

  lemma EmptyReps(records: map<nat, Record>, links: Links, queues: map<nat, seq<nat>>, o: nat)
    requires AllReps(records, links, queues) && o in records
    ensures AllReps(records[o := WithEnds(Idled(records[o]), 0, 0)], links, queues[o := []])
  {
    var records', queues' := records[o := WithEnds(Idled(records[o]), 0, 0)], queues[o := []];
    forall p | p in records'
      ensures RepOf(records', links, queues', p)
    {
      assert RepOf(records, links, queues, p);
    }
  }

  lemma SameEndsReps(records: map<nat, Record>, links: Links, queues: map<nat, seq<nat>>, o: nat, r: Record)
    requires AllReps(records, links, queues) && o in records && r.head == records[o].head && r.tail == records[o].tail
    ensures AllReps(records[o := r], links, queues)
  {
    var records' := records[o := r];
    forall p | p in records'
      ensures RepOf(records', links, queues, p)
    {
      assert RepOf(records, links, queues, p);
    }
  }

  lemma HeadIsFirst(records: map<nat, Record>, links: Links, queues: map<nat, seq<nat>>, o: nat)
    requires AllReps(records, links, queues) && o in records && queues[o] != []
    ensures records[o].head == queues[o][0] && queues[o][0] in queues[o] && queues[o][0] in links
    ensures Remove(queues[o], queues[o][0]) == queues[o][1..]
  {
    assert RepOf(records, links, queues, o);
    RepBasics(links, records[o].head, records[o].tail, queues[o]);
  }

  /** set_state to the mode the operation waits in. */
  function Enlisted(r: Record, send: bool): (r': Record) {
    match r
    case EndpointRec(_, h, t) => EndpointRec(if send then EpSend else EpRecv, h, t)
    case NotificationRec(_, h, t, w, b) => NotificationRec(NtfnWaiting, h, t, w, b)
  }
}
