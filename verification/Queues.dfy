/** Doubly linked queues threaded through TCB fields: the ready queues (tcbSchedNext/Prev) and the
    endpoint queues (tcbEPNext/Prev) of sel4_task/src/tcb.rs and sel4_task/src/tcb_queue.rs. */
module Queues {

  datatype Link = Link(next: nat, prev: nat)

  type Links = map<nat, Link>

  ghost function Position(q: seq<nat>, t: nat): (i: nat)
    requires t in q
    ensures i < |q| && q[i] == t
  {
    var i :| 0 <= i < |q| && q[i] == t;
    i
  }

  function First(q: seq<nat>): (t: nat) {
    if q == [] then 0 else q[0]
  }

  function Last(q: seq<nat>): (t: nat) {
    if q == [] then 0 else q[|q| - 1]
  }

  /** The element at position k exists, is not null, occurs once, and points at its neighbours. */
  ghost predicate LinkAt(links: Links, q: seq<nat>, k: nat)
    requires k < |q|
  {
    && q[k] in links && q[k] != 0 && Position(q, q[k]) == k
    && links[q[k]] == Link(if k + 1 < |q| then q[k + 1] else 0, if k > 0 then q[k - 1] else 0)
  }

  ghost predicate Linked(links: Links, q: seq<nat>) {
    forall k :: 0 <= k < |q| ==> LinkAt(links, q, k)
  }

  /** The queue with this head and tail holds exactly the elements of q, in order. */
  ghost predicate Rep(links: Links, head: nat, tail: nat, q: seq<nat>) {
    head == First(q) && tail == Last(q) && Linked(links, q)
  }

  lemma RepBasics(links: Links, head: nat, tail: nat, q: seq<nat>)
    requires Rep(links, head, tail, q)
    ensures head == 0 <==> q == []
    ensures tail == 0 <==> q == []
    ensures forall t :: t in q ==> t in links && t != 0
  {
    forall t | t in q
      ensures t in links && t != 0
    {
      assert LinkAt(links, q, Position(q, t));
    }
    if q != [] { assert q[0] in q && q[|q| - 1] in q; }
  }

  /** Position k of a queue whose elements keep their links. */
  lemma LinkedFrame(links: Links, links': Links, q: seq<nat>)
    requires Linked(links, q)
    requires forall t :: t in q ==> t in links' && (t in links ==> links'[t] == links[t])
    ensures Linked(links', q)
  {
    forall k | 0 <= k < |q|
      ensures LinkAt(links', q, k)
    {
      assert LinkAt(links, q, k);
      assert q[k] in q;
    }
  }

  lemma LinkedNoDup(links: Links, q: seq<nat>, i: nat, j: nat)
    requires Linked(links, q) && i < |q| && j < |q| && q[i] == q[j]
    ensures i == j
  {
    assert LinkAt(links, q, i) && LinkAt(links, q, j);
  }

  // ---- append at the tail ----

  /** The fields ep_append, sched_enqueue and sched_append write. */
  function Appended(links: Links, tail: nat, t: nat): (r: Links)
    requires tail in links || tail == 0
    ensures r.Keys == links.Keys + {t}
  {
    (if tail == 0 then links else links[tail := Link(t, links[tail].prev)])[t := Link(0, tail)]
  }

  lemma AppendRep(links: Links, head: nat, tail: nat, q: seq<nat>, t: nat)
    requires Rep(links, head, tail, q) && t !in q && t != 0
    ensures tail in links || tail == 0
    ensures Rep(Appended(links, tail, t), if head == 0 then t else head, t, q + [t])
    ensures forall x :: x in links && x !in q && x != t ==> Appended(links, tail, t)[x] == links[x]
  {
    RepBasics(links, head, tail, q);
    if q != [] { assert q[|q| - 1] in q; }
    var r := q + [t];
    var links' := Appended(links, tail, t);
    forall k | 0 <= k < |r|
      ensures LinkAt(links', r, k)
    {
      var m := Position(r, r[k]);
      if k < |q| {
        assert LinkAt(links, q, k);
        assert q[k] in q;
        assert m < |q| && LinkAt(links, q, m);
        if k < |q| - 1 { assert LinkAt(links, q, |q| - 1); }
      }
    }
  }

  // ---- remove from anywhere ----

  /** Everything but the element at position i. */
  function RemoveAt(q: seq<nat>, i: nat): (r: seq<nat>)
    requires i < |q|
    ensures |r| == |q| - 1
  {
    seq(|q| - 1, k requires 0 <= k < |q| - 1 => if k < i then q[k] else q[k + 1])
  }

  /** The neighbours' fields ep_dequeue and sched_dequeue write; t's own links are left as they are. */
  function Unlinked(links: Links, t: nat): (r: Links)
    requires t in links && (links[t].prev == 0 || links[t].prev in links)
    requires (links[t].next == 0 || links[t].next in links)
    ensures r.Keys == links.Keys
  {
    var l := links[t];
    var a := if l.prev == 0 then links else links[l.prev := Link(l.next, links[l.prev].prev)];
    if l.next == 0 then a else a[l.next := Link(a[l.next].next, l.prev)]
  }

  lemma Neighbours(links: Links, q: seq<nat>, i: nat)
    requires Linked(links, q) && i < |q|
    ensures q[i] in links
    ensures links[q[i]].prev == (if i > 0 then q[i - 1] else 0)
    ensures links[q[i]].next == (if i + 1 < |q| then q[i + 1] else 0)
    ensures links[q[i]].prev == 0 <==> i == 0
    ensures links[q[i]].next == 0 <==> i + 1 == |q|
    ensures links[q[i]].prev == 0 || links[q[i]].prev in links
    ensures links[q[i]].next == 0 || links[q[i]].next in links
  {
    assert LinkAt(links, q, i);
    if i > 0 { assert LinkAt(links, q, i - 1); }
    if i + 1 < |q| { assert LinkAt(links, q, i + 1); }
  }

  lemma RemoveRep(links: Links, head: nat, tail: nat, q: seq<nat>, i: nat)
    requires Rep(links, head, tail, q) && i < |q|
    ensures q[i] in links && (links[q[i]].prev == 0 || links[q[i]].prev in links)
    ensures (links[q[i]].next == 0 || links[q[i]].next in links)
    ensures
      var l := links[q[i]];
      Rep(Unlinked(links, q[i]), if l.prev == 0 then l.next else head, if l.next == 0 then l.prev else tail,
        RemoveAt(q, i))
    ensures forall x :: x in links && x !in q ==> Unlinked(links, q[i])[x] == links[x]
    ensures Unlinked(links, q[i])[q[i]] == links[q[i]]
  {
    Neighbours(links, q, i);
    if i > 0 { assert q[i - 1] in q; LinkedNoDupAt(links, q, i, i - 1); }
    if i + 1 < |q| { assert q[i + 1] in q; LinkedNoDupAt(links, q, i, i + 1); }
    var r := RemoveAt(q, i);
    var links' := Unlinked(links, q[i]);
    forall k | 0 <= k < |r|
      ensures LinkAt(links', r, k)
    {
      RemoveLinkAt(links, q, i, k);
    }
  }

  lemma LinkedNoDupAt(links: Links, q: seq<nat>, i: nat, j: nat)
    requires Linked(links, q) && i < |q| && j < |q| && i != j
    ensures q[i] != q[j]
  {
    if q[i] == q[j] { LinkedNoDup(links, q, i, j); }
  }

  lemma RemoveLinkAt(links: Links, q: seq<nat>, i: nat, k: nat)
    requires Linked(links, q) && i < |q| && k < |q| - 1
    requires q[i] in links && (links[q[i]].prev == 0 || links[q[i]].prev in links)
    requires (links[q[i]].next == 0 || links[q[i]].next in links)
    ensures LinkAt(Unlinked(links, q[i]), RemoveAt(q, i), k)
  {
    var r := RemoveAt(q, i);
    var p := if k < i then k else k + 1;
    assert r[k] == q[p];
    Neighbours(links, q, i);
    Neighbours(links, q, p);
    assert LinkAt(links, q, p);
    if i > 0 { Neighbours(links, q, i - 1); if p != i - 1 { LinkedNoDupAt(links, q, p, i - 1); } }
    if i + 1 < |q| { Neighbours(links, q, i + 1); if p != i + 1 { LinkedNoDupAt(links, q, p, i + 1); } }
    var m := Position(r, r[k]);
    LinkedNoDup(links, q, p, if m < i then m else m + 1);
  }
}
