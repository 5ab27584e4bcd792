/** The scheduler as the kernel runs it: ready queues linked through the TCBs, a queued bit in each
    TCB, and the bitmap. Every method is proved to do to the abstract state what SchedulerSpec says. */
module Scheduler {
  import opened Config
  import opened SchedulerSpec
  import opened Queues
  import opened Bitmap

  const RESUME_CURRENT_THREAD := 0
  const CHOOSE_NEW_THREAD := 1

  /** The two small numbers are actions, every other one is the address of a thread. */
  function Decode(action: nat): (a: Action) {
    if action == RESUME_CURRENT_THREAD then Resume
    else if action == CHOOSE_NEW_THREAD then ChooseNew
    else SwitchTo(action)
  }

  /** Ready queue p: linked through the TCBs, holding queued threads of priority p only. */
  ghost predicate ReadyQueue(threads: map<nat, Thread>, queued: set<nat>, links: Links,
                             heads: seq<nat>, tails: seq<nat>, queues: seq<seq<nat>>, p: nat)
    requires p < |heads| == |tails| == |queues|
  {
    && Rep(links, heads[p], tails[p], queues[p])
    && forall t :: t in queues[p] ==> t in queued && t in threads && threads[t].prio == p
  }

  ghost predicate ReadyQueues(threads: map<nat, Thread>, queued: set<nat>, links: Links,
                              heads: seq<nat>, tails: seq<nat>, queues: seq<seq<nat>>)
  {
    && |heads| == |tails| == |queues| == NUM_PRIORITIES
    && links.Keys == threads.Keys
    && 0 !in threads && 1 !in threads
    && (forall t :: t in threads ==> threads[t].prio < NUM_PRIORITIES)
    && (forall t :: t in queued ==> t in threads && t in queues[threads[t].prio])
    && (forall p :: 0 <= p < |queues| ==> ReadyQueue(threads, queued, links, heads, tails, queues, p))
  }

  lemma NotQueuedNowhere(threads: map<nat, Thread>, queued: set<nat>, links: Links,
                         heads: seq<nat>, tails: seq<nat>, queues: seq<seq<nat>>, t: nat)
    requires ReadyQueues(threads, queued, links, heads, tails, queues) && t in threads
    ensures t in queued <==> t in queues[threads[t].prio]
    ensures forall p :: 0 <= p < |queues| && p != threads[t].prio ==> t !in queues[p]
  {
    forall p | 0 <= p < |queues|
      ensures t in queues[p] ==> t in queued && threads[t].prio == p
    {
      assert ReadyQueue(threads, queued, links, heads, tails, queues, p);
    }
  }

  /** What sched_enqueue writes to the links, the head and the tail, given that t is not queued. */
  lemma EnqueueRefines(threads: map<nat, Thread>, queued: set<nat>, links: Links,
                       heads: seq<nat>, tails: seq<nat>, queues: seq<seq<nat>>, t: nat)
    requires ReadyQueues(threads, queued, links, heads, tails, queues) && t in threads && t !in queued
    ensures
      var p := threads[t].prio;
      && (tails[p] in links || tails[p] == 0)
      && (heads[p] == 0 <==> queues[p] == []) && (tails[p] == 0 <==> queues[p] == [])
      && ReadyQueues(threads, queued + {t}, Appended(links, tails[p], t),
                     heads[p := if heads[p] == 0 then t else heads[p]], tails[p := t], queues[p := queues[p] + [t]])
  {
    var p := threads[t].prio;
    NotQueuedNowhere(threads, queued, links, heads, tails, queues, t);
    assert ReadyQueue(threads, queued, links, heads, tails, queues, p);
    AppendRep(links, heads[p], tails[p], queues[p], t);
    RepBasics(links, heads[p], tails[p], queues[p]);
    var links' := Appended(links, tails[p], t);
    var heads' := heads[p := if heads[p] == 0 then t else heads[p]];
    var queued', tails', queues' := queued + {t}, tails[p := t], queues[p := queues[p] + [t]];
    forall x | 0 <= x < |queues|
      ensures ReadyQueue(threads, queued', links', heads', tails', queues', x)
    {
      assert ReadyQueue(threads, queued, links, heads, tails, queues, x);
      if x != p {
        forall y | y in queues[x]
          ensures y in links' && (y in links ==> links'[y] == links[y])
        {
          assert y !in queues[p];
        }
        LinkedFrame(links, links', queues[x]);
      }
    }
  }

  /** What sched_dequeue writes, given that t is queued. */
  lemma DequeueRefines(threads: map<nat, Thread>, queued: set<nat>, links: Links,
                       heads: seq<nat>, tails: seq<nat>, queues: seq<seq<nat>>, t: nat)
    requires ReadyQueues(threads, queued, links, heads, tails, queues) && t in queued
    ensures t in links && (links[t].prev == 0 || links[t].prev in links)
    ensures (links[t].next == 0 || links[t].next in links)
    ensures
      var p := threads[t].prio;
      && t in queues[p] && Remove(queues[p], t) == RemoveAt(queues[p], Position(queues[p], t))
      && (links[t].prev == 0 && links[t].next == 0 <==> Remove(queues[p], t) == [])
      && ReadyQueues(threads, queued - {t}, Unlinked(links, t),
                     heads[p := if links[t].prev == 0 then links[t].next else heads[p]],
                     tails[p := if links[t].next == 0 then links[t].prev else tails[p]],
                     queues[p := Remove(queues[p], t)])
  {
    var p := threads[t].prio;
    assert ReadyQueue(threads, queued, links, heads, tails, queues, p);
    var q := queues[p];
    var i := Position(q, t);
    RemoveRep(links, heads[p], tails[p], q, i);
    Neighbours(links, q, i);
    RemoveIsRemoveAt(links, q, t);
    RemoveAtMembers(links, q, i);
    var links' := Unlinked(links, t);
    var heads' := heads[p := if links[t].prev == 0 then links[t].next else heads[p]];
    var tails' := tails[p := if links[t].next == 0 then links[t].prev else tails[p]];
    var queues' := queues[p := Remove(q, t)];
    forall x | 0 <= x < |queues|
      ensures ReadyQueue(threads, queued - {t}, links', heads', tails', queues', x)
    {
      assert ReadyQueue(threads, queued, links, heads, tails, queues, x);
      if x != p {
        forall y | y in queues[x]
          ensures y in links' && (y in links ==> links'[y] == links[y])
        {
          RepBasics(links, heads[x], tails[x], queues[x]);
          assert y !in q;
        }
        LinkedFrame(links, links', queues[x]);
      }
    }
  }

  lemma RemoveAtMembers(links: Links, q: seq<nat>, i: nat)
    requires Linked(links, q) && i < |q|
    ensures forall x :: x in RemoveAt(q, i) <==> x in q && x != q[i]
  {
    var r := RemoveAt(q, i);
    forall x
      ensures x in r <==> x in q && x != q[i]
    {
      if x in r {
        var k := Position(r, x);
        LinkedNoDupAt(links, q, i, if k < i then k else k + 1);
      }
      if x in q && x != q[i] {
        var k := Position(q, x);
        assert r[if k < i then k else k - 1] == x;
      }
    }
  }

  lemma {:induction false} RemoveFirst(q: seq<nat>, t: nat, i: nat)
    requires i < |q| && q[i] == t && t !in q[..i]
    ensures Remove(q, t) == RemoveAt(q, i)
  {
    if i > 0 {
      assert q[0] in q[..i];
      assert q[1..][..i - 1] == q[..i][1..];
      RemoveFirst(q[1..], t, i - 1);
    }
  }

  lemma RemoveIsRemoveAt(links: Links, q: seq<nat>, t: nat)
    requires Linked(links, q) && t in q
    ensures Remove(q, t) == RemoveAt(q, Position(q, t))
  {
    var i := Position(q, t);
    forall k | 0 <= k < i
      ensures q[k] != t
    {
      LinkedNoDupAt(links, q, i, k);
    }
    RemoveFirst(q, t, i);
  }

  lemma {:induction false} RemoveAbsent(q: seq<nat>, t: nat)
    requires t !in q
    ensures Remove(q, t) == q
  {
    if q != [] { RemoveAbsent(q[1..], t); }
  }

  lemma RewriteRefines(threads: map<nat, Thread>, queued: set<nat>, links: Links,
                       heads: seq<nat>, tails: seq<nat>, queues: seq<seq<nat>>, t: nat, th: Thread)
    requires ReadyQueues(threads, queued, links, heads, tails, queues) && t in threads && th.prio < NUM_PRIORITIES
    requires th.prio == threads[t].prio || t !in queued
    ensures ReadyQueues(threads[t := th], queued, links, heads, tails, queues)
  {
    var threads' := threads[t := th];
    forall p | 0 <= p < |queues|
      ensures ReadyQueue(threads', queued, links, heads, tails, queues, p)
    {
      assert ReadyQueue(threads, queued, links, heads, tails, queues, p);
    }
  }

  lemma AddedReady(threads: map<nat, Thread>, queued: set<nat>, links: Links, heads: seq<nat>, tails: seq<nat>,
      queues: seq<seq<nat>>, t: nat)
    requires ReadyQueues(threads, queued, links, heads, tails, queues) && t !in threads && t > 1
    ensures ReadyQueues(threads[t := Thread(Inactive, 0, TIME_SLICE)], queued, links[t := Link(0, 0)], heads, tails,
      queues)
  {
    var threads', links' := threads[t := Thread(Inactive, 0, TIME_SLICE)], links[t := Link(0, 0)];
    forall p | 0 <= p < |queues|
      ensures ReadyQueue(threads', queued, links', heads, tails, queues, p)
    {
      assert ReadyQueue(threads, queued, links, heads, tails, queues, p);
      RepBasics(links, heads[p], tails[p], queues[p]);
      LinkedFrame(links, links', queues[p]);
    }
  }

  class Scheduler {
    var threads: map<nat, Thread>
    var queued: set<nat>
    var links: Links
    var heads: seq<nat>
    var tails: seq<nat>
    var l1: Word
    var l2: seq<Word>
    var cur: nat
    var idle: nat
    var action: nat
    ghost var queues: seq<seq<nat>>

    ghost predicate Valid()
      reads this
    {
      && ReadyQueues(threads, queued, links, heads, tails, queues)
      && Tells(l1, l2, queues)
      && cur in threads && idle in threads
      && (Decode(action).SwitchTo? ==> action in threads)
    }

    ghost function Abs(): (s: Sched)
      reads this
    {
      Sched(threads, queues, cur, idle, Decode(action))
    }

    /** The scheduler after boot: nothing queued, the idle thread current, first about to run. */
    constructor (ts: map<nat, Thread>, idleThread: nat, first: nat)
      requires 0 !in ts && 1 !in ts && idleThread in ts && first in ts
      requires forall t :: t in ts ==> ts[t].prio < NUM_PRIORITIES
      ensures Valid() && Abs() == Sched(ts, seq(NUM_PRIORITIES, _ => []), idleThread, idleThread, SwitchTo(first))
    {
      threads, queued, links := ts, {}, map t | t in ts :: Link(0, 0);
      heads, tails := seq(NUM_PRIORITIES, _ => 0), seq(NUM_PRIORITIES, _ => 0);
      l1, l2 := ZERO, seq(L2_WORDS, _ => ZERO);
      cur, idle, action := idleThread, idleThread, first;
      queues := seq(NUM_PRIORITIES, _ => []);
      new;
      EmptyTells();
    }

    /** A TCB that retype has just made: stopped and in no queue. */
    method AddThread(t: nat)
      requires Valid() && t !in threads && t > 1
      modifies this
      ensures Valid() && Abs() == old(Abs()).(threads := old(threads)[t := Thread(Inactive, 0, TIME_SLICE)])
    {
      ghost var threads0, links0 := threads, links;
      threads := threads[t := Thread(Inactive, 0, TIME_SLICE)];
      links := links[t := Link(0, 0)];
      AddedReady(threads0, queued, links0, heads, tails, queues, t);
    }

    method AddToBitmap(prio: nat)
      requires Shape(l1, l2) && prio < NUM_PRIORITIES
      modifies `l1, `l2
      ensures (l1, l2) == Add(old(l1), old(l2), prio)
    {
      var l1index := L1Index(prio);
      l1 := l1[l1index := true];
      l2 := l2[Inverted(l1index) := l2[Inverted(l1index)][prio % WORD_BITS := true]];
    }

    method RemoveFromBitmap(prio: nat)
      requires Shape(l1, l2) && prio < NUM_PRIORITIES
      modifies `l1, `l2
      ensures (l1, l2) == Drop(old(l1), old(l2), prio)
    {
      var l1index := L1Index(prio);
      l2 := l2[Inverted(l1index) := l2[Inverted(l1index)][prio % WORD_BITS := false]];
      if IsZero(l2[Inverted(l1index)]) {
        l1 := l1[l1index := false];
      }
    }

    method SchedEnqueue(t: nat)
      requires Valid() && t in threads
      modifies `queued, `links, `heads, `tails, `l1, `l2, `queues
      ensures Valid() && Abs() == Enqueue(old(Abs()), t)
    {
      ghost var prio := threads[t].prio;
      NotQueuedNowhere(threads, queued, links, heads, tails, queues, t);
      if t !in queued {
        EnqueueRefines(threads, queued, links, heads, tails, queues, t);
        if tails[prio] == 0 { AddTells(l1, l2, queues, prio, queues[prio] + [t]); }
        else { SameTells(l1, l2, queues, prio, queues[prio] + [t]); }
        EnqueueWrites(t);
        queues := queues[prio := queues[prio] + [t]];
      }
    }

    method EnqueueWrites(t: nat)
      requires t in threads && threads[t].prio < |heads| == |tails| == NUM_PRIORITIES && Shape(l1, l2)
      requires tails[threads[t].prio] == 0 || tails[threads[t].prio] in links
      requires heads[threads[t].prio] == 0 <==> tails[threads[t].prio] == 0
      modifies `queued, `links, `heads, `tails, `l1, `l2
      ensures queued == old(queued) + {t}
      ensures links == Appended(old(links), old(tails)[threads[t].prio], t)
      ensures heads ==
        old(heads)[threads[t].prio := if old(heads)[threads[t].prio] == 0 then t else old(heads)[threads[t].prio]]
      ensures tails == old(tails)[threads[t].prio := t]
      ensures (l1, l2) == if old(tails)[threads[t].prio] == 0 then Add(old(l1), old(l2), threads[t].prio)
        else (old(l1), old(l2))
    {
      var prio := threads[t].prio;
      if tails[prio] == 0 {
        heads := heads[prio := t];
        AddToBitmap(prio);
      } else {
        links := links[tails[prio] := Link(t, links[tails[prio]].prev)];
      }
      links := links[t := Link(0, tails[prio])];
      tails := tails[prio := t];
      queued := queued + {t};
    }

    method SchedAppend(t: nat)
      requires Valid() && t in threads
      modifies `queued, `links, `heads, `tails, `l1, `l2, `queues
      ensures Valid() && Abs() == Enqueue(old(Abs()), t)
    {
      ghost var prio := threads[t].prio;
      NotQueuedNowhere(threads, queued, links, heads, tails, queues, t);
      if t !in queued {
        EnqueueRefines(threads, queued, links, heads, tails, queues, t);
        if tails[prio] == 0 { AddTells(l1, l2, queues, prio, queues[prio] + [t]); }
        else { SameTells(l1, l2, queues, prio, queues[prio] + [t]); }
        AppendWrites(t);
        queues := queues[prio := queues[prio] + [t]];
      }
    }

    method AppendWrites(t: nat)
      requires t in threads && threads[t].prio < |heads| == |tails| == NUM_PRIORITIES && Shape(l1, l2)
      requires tails[threads[t].prio] == 0 || tails[threads[t].prio] in links
      requires heads[threads[t].prio] == 0 <==> tails[threads[t].prio] == 0
      modifies `queued, `links, `heads, `tails, `l1, `l2
      ensures queued == old(queued) + {t}
      ensures links == Appended(old(links), old(tails)[threads[t].prio], t)
      ensures heads ==
        old(heads)[threads[t].prio := if old(heads)[threads[t].prio] == 0 then t else old(heads)[threads[t].prio]]
      ensures tails == old(tails)[threads[t].prio := t]
      ensures (l1, l2) == if old(tails)[threads[t].prio] == 0 then Add(old(l1), old(l2), threads[t].prio)
        else (old(l1), old(l2))
    {
      var prio := threads[t].prio;
      if heads[prio] == 0 {
        heads := heads[prio := t];
        AddToBitmap(prio);
      } else {
        var next := tails[prio];
        links := links[next := Link(t, links[next].prev)];
      }
      links := links[t := Link(0, tails[prio])];
      tails := tails[prio := t];
      queued := queued + {t};
    }

    method SchedDequeue(t: nat)
      requires Valid() && t in threads
      modifies `queued, `links, `heads, `tails, `l1, `l2, `queues
      ensures Valid() && Abs() == Dequeue(old(Abs()), t) && t !in queued
    {
      ghost var prio := threads[t].prio;
      NotQueuedNowhere(threads, queued, links, heads, tails, queues, t);
      if t in queued {
        DequeueRefines(threads, queued, links, heads, tails, queues, t);
        ghost var q := Remove(queues[prio], t);
        if links[t].prev == 0 && links[t].next == 0 { DropTells(l1, l2, queues, prio); }
        else { SameTells(l1, l2, queues, prio, q); }
        DequeueWrites(t);
        queues := queues[prio := q];
      } else {
        RemoveAbsent(queues[prio], t);
        assert queues[prio := queues[prio]] == queues;
      }
    }

    method DequeueWrites(t: nat)
      requires t in threads && threads[t].prio < |heads| == |tails| == NUM_PRIORITIES && Shape(l1, l2)
      requires t in links && (links[t].prev == 0 || links[t].prev in links)
      requires (links[t].next == 0 || links[t].next in links)
      modifies `queued, `links, `heads, `tails, `l1, `l2
      ensures queued == old(queued) - {t} && links == Unlinked(old(links), t)
      ensures heads ==
        old(heads)[threads[t].prio := if old(links)[t].prev == 0 then old(links)[t].next
        else old(heads)[threads[t].prio]]
      ensures tails ==
        old(tails)[threads[t].prio := if old(links)[t].next == 0 then old(links)[t].prev
        else old(tails)[threads[t].prio]]
      ensures (l1, l2) ==
        if old(links)[t].prev == 0 && old(links)[t].next == 0 then Drop(old(l1), old(l2), threads[t].prio)
        else (old(l1), old(l2))
    {
      var prio := threads[t].prio;
      var l := links[t];
      if l.prev != 0 {
        links := links[l.prev := Link(l.next, links[l.prev].prev)];
      } else {
        heads := heads[prio := l.next];
        if l.next == 0 {
          RemoveFromBitmap(prio);
        }
      }
      if l.next != 0 {
        links := links[l.next := Link(links[l.next].next, l.prev)];
      } else {
        tails := tails[prio := l.prev];
      }
      queued := queued - {t};
    }

    method RescheduleRequired()
      requires Valid()
      modifies `queued, `links, `heads, `tails, `l1, `l2, `queues, `action
      ensures Valid() && Abs() == SchedulerSpec.RescheduleRequired(old(Abs()))
    {
      if action != RESUME_CURRENT_THREAD && action != CHOOSE_NEW_THREAD {
        SchedEnqueue(action);
      }
      action := CHOOSE_NEW_THREAD;
    }

    method ScheduleTcb(t: nat)
      requires Valid() && t in threads
      modifies `queued, `links, `heads, `tails, `l1, `l2, `queues, `action
      ensures Valid() && Abs() == SchedulerSpec.ScheduleTcb(old(Abs()), t)
    {
      if t == cur && action == RESUME_CURRENT_THREAD && !IsRunnableState(threads[t].state) {
        RescheduleRequired();
      }
    }

    method SetThreadState(t: nat, st: ThreadState)
      requires Valid() && t in threads
      modifies this
      ensures Valid() && Abs() == SetState(old(Abs()), t, st)
    {
      RewriteRefines(threads, queued, links, heads, tails, queues, t, threads[t].(state := st));
      threads := threads[t := threads[t].(state := st)];
      ScheduleTcb(t);
    }

    method PossibleSwitchTo(t: nat)
      requires Valid() && t in threads
      modifies `queued, `links, `heads, `tails, `l1, `l2, `queues, `action
      ensures Valid() && Abs() == SchedulerSpec.PossibleSwitchTo(old(Abs()), t)
    {
      if action != RESUME_CURRENT_THREAD {
        RescheduleRequired();
        SchedEnqueue(t);
      } else {
        action := t;
      }
    }

    method SwitchToThis(t: nat)
      requires Valid() && t in threads
      modifies `queued, `links, `heads, `tails, `l1, `l2, `queues, `cur
      ensures Valid() && Abs() == SchedulerSpec.SwitchToThis(old(Abs()), t)
    {
      SchedDequeue(t);
      cur := t;
    }

    method IsHighestPrio(prio: nat) returns (r: bool)
      requires Valid()
      ensures r == SchedulerSpec.IsHighestPrio(Abs(), prio)
    {
      ZeroMeansNothingQueued(l1, l2, queues);
      if IsZero(l1) {
        r := true;
      } else {
        HighestPrioIsMaximum(l1, l2, queues);
        r := prio >= GetHighestPrio(l1, l2);
      }
    }

    /** Queue heads are threads, so chooseThread never meets an empty head. */
    lemma ValidHeads()
      requires Valid()
      ensures HeadsKnown(Abs())
    {
      forall p | 0 <= p < |queues|
        ensures HeadKnown(Abs(), p)
      {
        assert ReadyQueue(threads, queued, links, heads, tails, queues, p);
        if queues[p] != [] { assert queues[p][0] in queues[p]; }
      }
    }

    method ChooseThread()
      requires Valid()
      modifies `queued, `links, `heads, `tails, `l1, `l2, `queues, `cur
      ensures HeadsKnown(old(Abs())) && Valid() && Abs() == SchedulerSpec.ChooseThread(old(Abs()))
    {
      ValidHeads();
      ZeroMeansNothingQueued(l1, l2, queues);
      if !IsZero(l1) {
        HighestPrioIsMaximum(l1, l2, queues);
        var prio := GetHighestPrio(l1, l2);
        var thread := heads[prio];
        assert ReadyQueue(threads, queued, links, heads, tails, queues, prio);
        assert queues[prio][0] in queues[prio];
        assert thread != 0;
        SwitchToThis(thread);
      } else {
        SwitchToThis(idle);
      }
    }

    method Schedule()
      requires Valid()
      modifies `queued, `links, `heads, `tails, `l1, `l2, `queues, `cur, `action
      ensures HeadsKnown(old(Abs())) && Valid() && Abs() == SchedulerSpec.Schedule(old(Abs()))
    {
      ValidHeads();
      if action != RESUME_CURRENT_THREAD {
        var wasRunnable := IsRunnableState(threads[cur].state);
        if wasRunnable {
          SchedEnqueue(cur);
        }
        Dispatch(wasRunnable);
      }
    }

    method Dispatch(wasRunnable: bool)
      requires Valid() && action != RESUME_CURRENT_THREAD
      modifies `queued, `links, `heads, `tails, `l1, `l2, `queues, `cur, `action
      ensures HeadsKnown(old(Abs())) && Valid() && Abs() == SchedulerSpec.Dispatch(old(Abs()), wasRunnable)
    {
      if action == CHOOSE_NEW_THREAD {
        ChooseThread();
      } else {
        TryCandidate(wasRunnable);
      }
      action := RESUME_CURRENT_THREAD;
    }

    method TryCandidate(wasRunnable: bool)
      requires Valid() && Abs().action.SwitchTo?
      modifies `queued, `links, `heads, `tails, `l1, `l2, `queues, `cur, `action
      ensures Valid() && HeadsKnown(old(Abs())) && Known(old(Abs()), old(action))
      ensures Abs().(action := Resume) ==
        SchedulerSpec.TryCandidate(old(Abs()), old(action), wasRunnable).(action := Resume)
    {
      ValidHeads();
      var candidate := action;
      var fastFail := cur == idle || threads[candidate].prio < threads[cur].prio;
      var highest := true;
      if fastFail {
        highest := IsHighestPrio(threads[candidate].prio);
      }
      if fastFail && !highest {
        QueueAndChoose(candidate, false);
      } else if wasRunnable && threads[candidate].prio == threads[cur].prio {
        QueueAndChoose(candidate, true);
      } else {
        SwitchToThis(candidate);
      }
    }

    /** Both ways in which schedule() puts its candidate back before choosing anew. */
    method QueueAndChoose(candidate: nat, append: bool)
      requires Valid() && candidate in threads
      modifies `queued, `links, `heads, `tails, `l1, `l2, `queues, `cur, `action
      ensures Known(old(Abs()), candidate) && HeadsKnown(Enqueue(old(Abs()), candidate))
      ensures Valid() && Abs() == SchedulerSpec.ChooseThread(Enqueue(old(Abs()), candidate)).(action := ChooseNew)
    {
      if append {
        SchedAppend(candidate);
      } else {
        SchedEnqueue(candidate);
      }
      ValidHeads();
      action := CHOOSE_NEW_THREAD;
      ChooseThread();
    }

    method SetPriority(t: nat, priority: nat)
      requires Valid() && t in threads && priority < NUM_PRIORITIES
      modifies this
      ensures Valid() && Abs() == ChangePriority(old(Abs()), t, priority)
    {
      SchedDequeue(t);
      RewriteRefines(threads, queued, links, heads, tails, queues, t, threads[t].(prio := priority));
      threads := threads[t := threads[t].(prio := priority)];
      if IsRunnableState(threads[t].state) {
        if t == cur {
          RescheduleRequired();
        } else {
          PossibleSwitchTo(t);
        }
      }
    }

    method Suspend(t: nat)
      requires Valid() && t in threads
      modifies this
      ensures Valid() && Abs() == Dequeue(SetState(old(Abs()), t, Inactive), t)
    {
      SetThreadState(t, Inactive);
      SchedDequeue(t);
    }

    method Restart(t: nat)
      requires Valid() && t in threads
      modifies this
      ensures Valid() && Abs() == RestartIfStopped(old(Abs()), t)
    {
      if IsStoppedState(threads[t].state) {
        SetThreadState(t, ThreadState.Restart);
        SchedEnqueue(t);
        PossibleSwitchTo(t);
      }
    }

    method TimerTick()
      requires Valid()
      modifies this
      ensures Valid() && Abs() == Tick(old(Abs()))
    {
      var c := threads[cur];
      if c.state == Running {
        if c.timeSlice > 1 {
          RewriteRefines(threads, queued, links, heads, tails, queues, cur, c.(timeSlice := c.timeSlice - 1));
          threads := threads[cur := c.(timeSlice := c.timeSlice - 1)];
        } else {
          RewriteRefines(threads, queued, links, heads, tails, queues, cur, c.(timeSlice := TIME_SLICE));
          threads := threads[cur := c.(timeSlice := TIME_SLICE)];
          SchedAppend(cur);
          RescheduleRequired();
        }
      }
    }

    method HandleYield()
      requires Valid()
      modifies `queued, `links, `heads, `tails, `l1, `l2, `queues, `action
      ensures Valid() && Abs() == SchedulerSpec.RescheduleRequired(Enqueue(Dequeue(old(Abs()), cur), cur))
    {
      SchedDequeue(cur);
      SchedAppend(cur);
      RescheduleRequired();
    }
  }
}
