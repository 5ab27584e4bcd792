/** Slots in memory and the pointer code of the mapping database (sel4_cspace/src/cte.rs). */
module Mdb {
  import opened Config
  import opened Caps
  import opened MdbNodes
  import opened Memory
  import opened Descent

  /** A cte_t: a capability and its MDB node. Address 0 is the null pointer. */
  datatype Slot = Slot(cap: Cap, next: nat, prev: nat, revocable: bool, firstBadged: bool)

  const EMPTY := Slot(NullCap, 0, 0, false, false)

  type Slots = map<nat, Slot>

  ghost function Index(order: seq<nat>, a: nat): (i: nat)
    requires a in order
    ensures i < |order| && order[i] == a
  {
    var i :| 0 <= i < |order| && order[i] == a;
    i
  }

  /** What the slot at position k of the list must contain. */
  ghost function SlotFor(order: seq<nat>, ns: seq<Node>, k: nat): (s: Slot)
    requires k < |order| == |ns|
  {
    Slot(ns[k].cap,
         if ns[k].joined && k + 1 < |order| then order[k + 1] else 0,
         if k > 0 && ns[k - 1].joined then order[k - 1] else 0,
         ns[k].revocable, ns[k].firstBadged)
  }

  /** Position k of the list is represented: the address occurs only there and its slot holds
      the node and the links to its neighbours. */
  ghost predicate At(slots: Slots, order: seq<nat>, ns: seq<Node>, k: nat)
    requires k < |order| == |ns|
  {
    && Index(order, order[k]) == k
    && order[k] in slots && slots[order[k]] == SlotFor(order, ns, k)
    && ns[k].cap != NullCap
    && (ns[k].joined ==> k + 1 < |order|)
  }

  /** `order` lists every non-empty slot exactly once and `ns` its nodes; each MDB list is a run
      of consecutive elements, next and prev are mutual inverses, empty slots carry no links. */
  ghost predicate Rep(slots: Slots, order: seq<nat>, ns: seq<Node>) {
    && |order| == |ns| && 0 !in slots
    && (forall k :: 0 <= k < |order| ==> At(slots, order, ns, k))
    && (forall a :: a in slots && a !in order ==> slots[a] == EMPTY)
  }

  /** next and prev are mutual inverses and stay inside the slots. */
  lemma LinksAreInverse(slots: Slots, order: seq<nat>, ns: seq<Node>, a: nat)
    requires Rep(slots, order, ns) && a in slots
    ensures slots[a].cap != NullCap <==> a in order
    ensures slots[a].next != 0 ==> slots[a].next in slots && slots[slots[a].next].prev == a && slots[a].next != a
    ensures slots[a].prev != 0 ==> slots[a].prev in slots && slots[slots[a].prev].next == a && slots[a].prev != a
    ensures slots[a].prev != 0 ==> slots[a].prev != slots[a].next
  {
    if a in order {
      var i := Index(order, a);
      assert At(slots, order, ns, i);
      if i > 0 { assert At(slots, order, ns, i - 1); }
      if i + 1 < |order| { assert At(slots, order, ns, i + 1); }
    }
  }

  /** is_mdb_parent_of */
  predicate IsMdbParentOf(s: Slot, next: Slot) {
    if !s.revocable then false
    else if !SameRegionAs(s.cap, next.cap) then false
    else match s.cap
      case EndpointCap(_, badge, _, _, _, _) => badge == 0 || (badge == next.cap.badge && !next.firstBadged)
      case NotificationCap(_, badge, _, _) => badge == 0 || (badge == next.cap.badge && !next.firstBadged)
      case _ => true
  }

  predicate HasChild(slots: Slots, a: nat)
    requires a in slots
  {
    slots[a].next != 0 && slots[a].next in slots && IsMdbParentOf(slots[a], slots[slots[a].next])
  }

  ghost predicate UniqueObject(slots: Slots, a: nat)
    requires a in slots
  {
    forall b :: b in slots && b != a ==> !SameObjectAs(slots[a].cap, slots[b].cap)
  }

  predicate FinalTest(slots: Slots, a: nat)
    requires a in slots
  {
    && !(slots[a].prev != 0 && slots[a].prev in slots && SameObjectAs(slots[slots[a].prev].cap, slots[a].cap))
    && !(slots[a].next != 0 && slots[a].next in slots && SameObjectAs(slots[a].cap, slots[slots[a].next].cap))
  }

  /** The two-neighbour test agrees with a search of every slot. */
  lemma FinalIsUnique(slots: Slots, order: seq<nat>, ns: seq<Node>, a: nat)
    requires Rep(slots, order, ns) && Grouped(ns) && a in slots
    ensures FinalTest(slots, a) <==> UniqueObject(slots, a)
  {
    LinksAreInverse(slots, order, ns, a);
    if a !in order {
      assert slots[a].cap == NullCap;
    } else {
      var i := Index(order, a);
      assert At(slots, order, ns, i);
      if i > 0 { assert At(slots, order, ns, i - 1); }
      if i + 1 < |order| { assert At(slots, order, ns, i + 1); }
      FinalIsGlobal(ns, i);
      if FinalByNeighbours(ns, i) {
        forall b | b in slots && b != a
          ensures !SameObjectAs(slots[a].cap, slots[b].cap)
        {
          SameObjectIsSameId(slots[a].cap, slots[b].cap);
          LinksAreInverse(slots, order, ns, b);
          if b in order {
            var k := Index(order, b);
            assert At(slots, order, ns, k);
            assert !Same(ns, i, k);
          }
        }
      } else {
        var k :| 0 <= k < |ns| && k != i && Same(ns, i, k);
        assert At(slots, order, ns, k);
        SameObjectIsSameId(slots[a].cap, slots[order[k]].cap);
      }
    }
  }

  // ---- removal ----

  ghost function RemoveAt(order: seq<nat>, i: nat): (r: seq<nat>)
    requires i < |order|
  {
    seq(|order| - 1, k requires 0 <= k < |order| - 1 => if k < i then order[k] else order[k + 1])
  }

  /** set_empty's writes, slot by slot. */
  ghost function UnlinkedSlot(slots: Slots, a: nat, b: nat): (s: Slot)
    requires a in slots && b in slots
  {
    if b == a then EMPTY
    else if b == slots[a].prev then slots[b].(next := slots[a].next)
    else if b == slots[a].next
    then slots[b].(prev := slots[a].prev, firstBadged := slots[b].firstBadged || slots[a].firstBadged)
    else slots[b]
  }

  lemma RemoveAtPosition(slots: Slots, order: seq<nat>, ns: seq<Node>, i: nat, slots': Slots, k: nat)
    requires Rep(slots, order, ns) && i < |order| && k < |order| - 1
    requires slots'.Keys == slots.Keys && order[i] in slots
    requires forall b :: b in slots ==> slots'[b] == UnlinkedSlot(slots, order[i], b)
    ensures At(slots', RemoveAt(order, i), RemoveNode(ns, i), k)
  {
    var o := if k < i then k else k + 1;
    RemoveIndexed(slots, order, ns, i, k);
    assert At(slots, order, ns, i) && At(slots, order, ns, o);
    if i > 0 { assert At(slots, order, ns, i - 1); }
    if i + 1 < |order| { assert At(slots, order, ns, i + 1); }
  }

  lemma RemoveIndexed(slots: Slots, order: seq<nat>, ns: seq<Node>, i: nat, k: nat)
    requires Rep(slots, order, ns) && i < |order| && k < |order| - 1
    ensures Index(RemoveAt(order, i), RemoveAt(order, i)[k]) == k
  {
    var r := RemoveAt(order, i);
    var m := Index(r, r[k]);
    assert At(slots, order, ns, if k < i then k else k + 1) && At(slots, order, ns, if m < i then m else m + 1);
  }

  /** set_empty as a whole: an empty slot is left alone; otherwise the slot leaves the list, the
      rest keeps its order and capabilities, and the nodes change as RemoveNode says. */
  ghost predicate Emptied(slots: Slots, order: seq<nat>, ns: seq<Node>,
                          slots': Slots, order': seq<nat>, ns': seq<Node>, a: nat)
    requires Rep(slots, order, ns) && a in slots
  {
    && Rep(slots', order', ns') && slots'.Keys == slots.Keys && slots'[a] == EMPTY
    && (forall b :: b in slots && b != a ==> slots'[b].cap == slots[b].cap)
    && (slots[a].cap == NullCap ==> slots' == slots && order' == order && ns' == ns)
    && (slots[a].cap != NullCap ==>
          && a in order
          && order' == RemoveAt(order, Index(order, a))
          && ns' == RemoveNode(ns, Index(order, a)))
  }

  lemma UnlinkRefines(slots: Slots, order: seq<nat>, ns: seq<Node>, a: nat, slots': Slots)
    requires Rep(slots, order, ns) && a in slots && slots[a].cap != NullCap
    requires slots'.Keys == slots.Keys
    requires forall b :: b in slots ==> slots'[b] == UnlinkedSlot(slots, a, b)
    ensures a in order
    ensures Emptied(slots, order, ns, slots', RemoveAt(order, Index(order, a)), RemoveNode(ns, Index(order, a)), a)
  {
    LinksAreInverse(slots, order, ns, a);
    var i := Index(order, a);
    var r := RemoveAt(order, i);
    forall k | 0 <= k < |r|
      ensures At(slots', r, RemoveNode(ns, i), k)
    {
      RemoveAtPosition(slots, order, ns, i, slots', k);
    }
    forall b | b in slots' && b !in r
      ensures slots'[b] == EMPTY
    {
      assert forall j :: 0 <= j < |order| && j != i ==> order[j] == r[if j < i then j else j - 1];
      assert b in order ==> b == a;
      assert At(slots, order, ns, i);
    }
  }

  // ---- insertion ----

  ghost function InsertAt(order: seq<nat>, i: nat, a: nat): (r: seq<nat>)
    requires i <= |order|
  {
    seq(|order| + 1, k requires 0 <= k < |order| + 1 =>
      if k < i then order[k] else if k == i then a else order[k - 1])
  }

  /** The writes of cte_insert and insert_new_cap, slot by slot. */
  ghost function InsertedSlot(slots: Slots, src: nat, srcCap: Cap, dest: nat, n: Node, b: nat): (s: Slot)
    requires src in slots && b in slots
  {
    if b == dest then Slot(n.cap, slots[src].next, src, n.revocable, n.firstBadged)
    else if b == src then slots[src].(cap := srcCap, next := dest)
    else if b == slots[src].next then slots[b].(prev := dest)
    else slots[b]
  }

  lemma InsertUpTo(slots: Slots, order: seq<nat>, ns: seq<Node>, p: nat, srcCap: Cap,
                   dest: nat, n: Node, slots': Slots, k: nat)
    requires Rep(slots, order, ns) && p < |order| && dest in slots && dest !in order && k <= |order|
    requires srcCap != NullCap && n.cap != NullCap
    requires slots'.Keys == slots.Keys && order[p] in slots
    requires forall b :: b in slots ==> slots'[b] == InsertedSlot(slots, order[p], srcCap, dest, n, b)
    requires k <= p
    ensures At(slots', InsertAt(order, p + 1, dest), InsertNode(ns[p := ns[p].(cap := srcCap)], p, n), k)
  {
    InsertIndexed(slots, order, ns, p, dest, k);
    assert At(slots, order, ns, p) && At(slots, order, ns, k);
    if p + 1 < |order| { assert At(slots, order, ns, p + 1); }
  }

  lemma InsertHere(slots: Slots, order: seq<nat>, ns: seq<Node>, p: nat, srcCap: Cap,
                   dest: nat, n: Node, slots': Slots, k: nat)
    requires Rep(slots, order, ns) && p < |order| && dest in slots && dest !in order && k <= |order|
    requires srcCap != NullCap && n.cap != NullCap
    requires slots'.Keys == slots.Keys && order[p] in slots
    requires forall b :: b in slots ==> slots'[b] == InsertedSlot(slots, order[p], srcCap, dest, n, b)
    requires k == p + 1
    ensures At(slots', InsertAt(order, p + 1, dest), InsertNode(ns[p := ns[p].(cap := srcCap)], p, n), k)
  {
    InsertIndexed(slots, order, ns, p, dest, k);
    assert At(slots, order, ns, p);
    if p + 1 < |order| { assert At(slots, order, ns, p + 1); }
  }

  lemma InsertBehind(slots: Slots, order: seq<nat>, ns: seq<Node>, p: nat, srcCap: Cap,
                     dest: nat, n: Node, slots': Slots, k: nat)
    requires Rep(slots, order, ns) && p < |order| && dest in slots && dest !in order && k <= |order|
    requires srcCap != NullCap && n.cap != NullCap
    requires slots'.Keys == slots.Keys && order[p] in slots
    requires forall b :: b in slots ==> slots'[b] == InsertedSlot(slots, order[p], srcCap, dest, n, b)
    requires k > p + 1
    ensures At(slots', InsertAt(order, p + 1, dest), InsertNode(ns[p := ns[p].(cap := srcCap)], p, n), k)
  {
    InsertIndexed(slots, order, ns, p, dest, k);
    assert At(slots, order, ns, p) && At(slots, order, ns, k - 1) && At(slots, order, ns, p + 1);
    assert InsertAt(order, p + 1, dest)[k] == order[k - 1];
  }

  lemma InsertAtPosition(slots: Slots, order: seq<nat>, ns: seq<Node>, p: nat, srcCap: Cap,
                         dest: nat, n: Node, slots': Slots, k: nat)
    requires Rep(slots, order, ns) && p < |order| && dest in slots && dest !in order && k <= |order|
    requires srcCap != NullCap && n.cap != NullCap
    requires slots'.Keys == slots.Keys && order[p] in slots
    requires forall b :: b in slots ==> slots'[b] == InsertedSlot(slots, order[p], srcCap, dest, n, b)
    ensures At(slots', InsertAt(order, p + 1, dest), InsertNode(ns[p := ns[p].(cap := srcCap)], p, n), k)
  {
    if k <= p {
      InsertUpTo(slots, order, ns, p, srcCap, dest, n, slots', k);
    } else if k == p + 1 {
      InsertHere(slots, order, ns, p, srcCap, dest, n, slots', k);
    } else {
      InsertBehind(slots, order, ns, p, srcCap, dest, n, slots', k);
    }
  }

  lemma InsertIndexed(slots: Slots, order: seq<nat>, ns: seq<Node>, p: nat, dest: nat, k: nat)
    requires Rep(slots, order, ns) && p < |order| && dest !in order && k <= |order|
    ensures Index(InsertAt(order, p + 1, dest), InsertAt(order, p + 1, dest)[k]) == k
  {
    var r := InsertAt(order, p + 1, dest);
    var m := Index(r, r[k]);
    var o := if k <= p then k else k - 1;
    assert At(slots, order, ns, o);
    if m != p + 1 { assert At(slots, order, ns, if m <= p then m else m - 1); }
  }

  /** Insertion as a whole: dest joins the list directly after src. */
  ghost predicate Inserted(slots: Slots, order: seq<nat>, ns: seq<Node>,
                           slots': Slots, order': seq<nat>, ns': seq<Node>,
                           src: nat, srcCap: Cap, dest: nat, n: Node)
    requires Rep(slots, order, ns) && src in order && dest in slots
  {
    && Rep(slots', order', ns') && slots'.Keys == slots.Keys
    && slots'[dest].cap == n.cap
    && src in slots && slots'[src].cap == srcCap
    && (forall b :: b in slots && b != src && b != dest ==> slots'[b].cap == slots[b].cap)
    && var p := Index(order, src);
       order' == InsertAt(order, p + 1, dest) && ns' == InsertNode(ns[p := ns[p].(cap := srcCap)], p, n)
  }

  lemma InsertRefines(slots: Slots, order: seq<nat>, ns: seq<Node>, src: nat, srcCap: Cap,
                      dest: nat, n: Node, slots': Slots)
    requires Rep(slots, order, ns) && src in slots && src in order && dest in slots && slots[dest].cap == NullCap
    requires srcCap != NullCap && n.cap != NullCap
    requires slots'.Keys == slots.Keys
    requires forall b :: b in slots ==> slots'[b] == InsertedSlot(slots, src, srcCap, dest, n, b)
    ensures
      var p := Index(order, src);
      Inserted(slots, order, ns, slots', InsertAt(order, p + 1, dest),
               InsertNode(ns[p := ns[p].(cap := srcCap)], p, n), src, srcCap, dest, n)
  {
    var p := Index(order, src);
    var r := InsertAt(order, p + 1, dest);
    var ns' := InsertNode(ns[p := ns[p].(cap := srcCap)], p, n);
    LinksAreInverse(slots, order, ns, dest);
    LinksAreInverse(slots, order, ns, src);
    forall k | 0 <= k < |r|
      ensures At(slots', r, ns', k)
    {
      InsertAtPosition(slots, order, ns, p, srcCap, dest, n, slots', k);
    }
    forall b | b in slots' && b !in r
      ensures slots'[b] == EMPTY
    {
      assert r[p + 1] == dest;
      assert forall j :: 0 <= j < |order| ==> order[j] == r[if j <= p then j else j + 1];
      assert b !in order;
      LinksAreInverse(slots, order, ns, b);
    }
  }

  // ---- move ----

  /** The writes of cte_move, slot by slot. */
  ghost function MovedSlot(slots: Slots, c: Cap, src: nat, dest: nat, b: nat): (s: Slot)
    requires src in slots && b in slots
  {
    if b == dest then slots[src].(cap := c)
    else if b == src then EMPTY
    else if b == slots[src].prev then slots[b].(next := dest)
    else if b == slots[src].next then slots[b].(prev := dest)
    else slots[b]
  }

  lemma MoveAtPosition(slots: Slots, order: seq<nat>, ns: seq<Node>, p: nat, c: Cap, dest: nat, slots': Slots, k: nat)
    requires Rep(slots, order, ns) && p < |order| && dest in slots && dest !in order && k < |order| && c != NullCap
    requires slots'.Keys == slots.Keys && order[p] in slots
    requires forall b :: b in slots ==> slots'[b] == MovedSlot(slots, c, order[p], dest, b)
    ensures At(slots', order[p := dest], ns[p := ns[p].(cap := c)], k)
  {
    var r := order[p := dest];
    var m := Index(r, r[k]);
    assert At(slots, order, ns, m);
    assert At(slots, order, ns, p) && At(slots, order, ns, k);
    if p > 0 { assert At(slots, order, ns, p - 1); }
    if p + 1 < |order| { assert At(slots, order, ns, p + 1); }
  }

  /** cte_move as a whole: dest takes the place of src in the list. */
  ghost predicate Moved(slots: Slots, order: seq<nat>, ns: seq<Node>,
                        slots': Slots, order': seq<nat>, ns': seq<Node>, c: Cap, src: nat, dest: nat)
    requires Rep(slots, order, ns) && src in order && dest in slots
  {
    && Rep(slots', order', ns') && slots'.Keys == slots.Keys
    && slots'[dest].cap == c && src in slots && slots'[src] == EMPTY
    && (forall b :: b in slots && b != src && b != dest ==> slots'[b].cap == slots[b].cap)
    && var p := Index(order, src);
       order' == order[p := dest] && ns' == ns[p := ns[p].(cap := c)]
  }

  lemma MoveRefines(slots: Slots, order: seq<nat>, ns: seq<Node>, c: Cap, src: nat, dest: nat, slots': Slots)
    requires Rep(slots, order, ns) && src in slots && src in order && dest in slots
    requires slots[dest].cap == NullCap && c != NullCap
    requires slots'.Keys == slots.Keys
    requires forall b :: b in slots ==> slots'[b] == MovedSlot(slots, c, src, dest, b)
    ensures
      var p := Index(order, src);
      Moved(slots, order, ns, slots', order[p := dest], ns[p := ns[p].(cap := c)], c, src, dest)
  {
    var p := Index(order, src);
    var r := order[p := dest];
    var ns' := ns[p := ns[p].(cap := c)];
    LinksAreInverse(slots, order, ns, dest);
    LinksAreInverse(slots, order, ns, src);
    forall k | 0 <= k < |r|
      ensures At(slots', r, ns', k)
    {
      MoveAtPosition(slots, order, ns, p, c, dest, slots', k);
    }
    forall b | b in slots' && b !in r
      ensures slots'[b] == EMPTY
    {
      assert r[p] == dest;
      assert forall j :: 0 <= j < |order| && j != p ==> order[j] == r[j];
      assert b in order ==> b == src;
      LinksAreInverse(slots, order, ns, b);
    }
  }

  // ---- rewriting a capability in place ----

  ghost predicate Recapped(slots: Slots, order: seq<nat>, ns: seq<Node>,
                           slots': Slots, order': seq<nat>, ns': seq<Node>, a: nat, c: Cap)
    requires Rep(slots, order, ns) && a in order
  {
    && Rep(slots', order', ns') && order' == order
    && a in slots && slots' == slots[a := slots[a].(cap := c)]
    && ns' == ns[Index(order, a) := ns[Index(order, a)].(cap := c)]
  }

  lemma RecapRefines(slots: Slots, order: seq<nat>, ns: seq<Node>, a: nat, c: Cap)
    requires Rep(slots, order, ns) && a in order && c != NullCap && a in slots
    ensures Recapped(slots, order, ns, slots[a := slots[a].(cap := c)], order,
                     ns[Index(order, a) := ns[Index(order, a)].(cap := c)], a, c)
  {
    var i := Index(order, a);
    var slots', ns' := slots[a := slots[a].(cap := c)], ns[i := ns[i].(cap := c)];
    forall k | 0 <= k < |order|
      ensures At(slots', order, ns', k)
    {
      assert At(slots, order, ns, k) && At(slots, order, ns, i);
    }
  }

  // ---- swap ----

  /** The list with addresses a and b exchanged; either may be absent from it. */
  ghost function Exchange(order: seq<nat>, a: nat, b: nat): (r: seq<nat>)
    ensures |r| == |order|
  {
    seq(|order|, i requires 0 <= i < |order| =>
      if order[i] == a then b else if order[i] == b then a else order[i])
  }

  ghost function RecapTwo(order: seq<nat>, ns: seq<Node>, s1: nat, c1: Cap, s2: nat, c2: Cap): (r: seq<Node>)
    requires |order| == |ns|
    ensures |r| == |ns|
  {
    seq(|ns|, i requires 0 <= i < |ns| =>
      if order[i] == s1 then ns[i].(cap := c1) else if order[i] == s2 then ns[i].(cap := c2) else ns[i])
  }

  /** The writes of cte_swap, slot by slot, when the two slots are not neighbours. */
  ghost function SwappedSlot(slots: Slots, c1: Cap, s1: nat, c2: Cap, s2: nat, b: nat): (s: Slot)
    requires s1 in slots && s2 in slots && b in slots
  {
    if b == s1 then slots[s2].(cap := c2)
    else if b == s2 then slots[s1].(cap := c1)
    else slots[b].(
      next := if b == slots[s1].prev then s2 else if b == slots[s2].prev then s1 else slots[b].next,
      prev := if b == slots[s1].next then s2 else if b == slots[s2].next then s1 else slots[b].prev)
  }

  predicate Neighbours(slots: Slots, s1: nat, s2: nat)
    requires s1 in slots && s2 in slots
  {
    slots[s1].next == s2 || slots[s2].next == s1
  }

  function Rename(s1: nat, s2: nat, b: nat): (r: nat) {
    if b == s1 then s2 else if b == s2 then s1 else b
  }

  /** Off neighbours, the writes amount to renaming the two addresses everywhere. */
  lemma SwapRenames(slots: Slots, order: seq<nat>, ns: seq<Node>, c1: Cap, s1: nat, c2: Cap, s2: nat, b: nat)
    requires Rep(slots, order, ns) && s1 in slots && s2 in slots && s1 != s2 && !Neighbours(slots, s1, s2)
    requires b in slots
    ensures
      SwappedSlot(slots, c1, s1, c2, s2, Rename(s1, s2, b)) ==
      slots[b].(cap := if b == s1 then c1 else if b == s2 then c2 else slots[b].cap,
                next := Rename(s1, s2, slots[b].next), prev := Rename(s1, s2, slots[b].prev))
  {
    LinksAreInverse(slots, order, ns, s1);
    LinksAreInverse(slots, order, ns, s2);
    LinksAreInverse(slots, order, ns, b);
  }

  lemma SwapAtPosition(slots: Slots, order: seq<nat>, ns: seq<Node>, c1: Cap, s1: nat, c2: Cap, s2: nat,
                       slots': Slots, k: nat)
    requires Rep(slots, order, ns) && s1 in slots && s2 in slots && s1 != s2 && !Neighbours(slots, s1, s2)
    requires (c1 == NullCap <==> slots[s1].cap == NullCap) && (c2 == NullCap <==> slots[s2].cap == NullCap)
    requires slots'.Keys == slots.Keys && k < |order|
    requires forall b :: b in slots ==> slots'[b] == SwappedSlot(slots, c1, s1, c2, s2, b)
    ensures At(slots', Exchange(order, s1, s2), RecapTwo(order, ns, s1, c1, s2, c2), k)
  {
    var r := Exchange(order, s1, s2);
    SwapIndexed(slots, order, ns, s1, s2, k);
    assert At(slots, order, ns, k);
    SwapRenames(slots, order, ns, c1, s1, c2, s2, order[k]);
    assert r[k] == Rename(s1, s2, order[k]) && slots'[r[k]] == SwappedSlot(slots, c1, s1, c2, s2, r[k]);
  }

  lemma SwapIndexed(slots: Slots, order: seq<nat>, ns: seq<Node>, s1: nat, s2: nat, k: nat)
    requires Rep(slots, order, ns) && s1 != s2 && k < |order|
    ensures Index(Exchange(order, s1, s2), Exchange(order, s1, s2)[k]) == k
  {
    var r := Exchange(order, s1, s2);
    var m := Index(r, r[k]);
    assert At(slots, order, ns, m) && At(slots, order, ns, k);
  }

  /** cte_swap as a whole: the two addresses trade places in the list. */
  ghost predicate Swapped(slots: Slots, order: seq<nat>, ns: seq<Node>,
                          slots': Slots, order': seq<nat>, ns': seq<Node>, c1: Cap, s1: nat, c2: Cap, s2: nat)
    requires Rep(slots, order, ns) && s1 in slots && s2 in slots
  {
    && Rep(slots', order', ns') && slots'.Keys == slots.Keys
    && slots'[s1].cap == c2 && slots'[s2].cap == c1
    && (forall b :: b in slots && b != s1 && b != s2 ==> slots'[b].cap == slots[b].cap)
    && order' == Exchange(order, s1, s2) && ns' == RecapTwo(order, ns, s1, c1, s2, c2)
  }

  lemma SwapRefines(slots: Slots, order: seq<nat>, ns: seq<Node>, c1: Cap, s1: nat, c2: Cap, s2: nat, slots': Slots)
    requires Rep(slots, order, ns) && s1 in slots && s2 in slots && s1 != s2 && !Neighbours(slots, s1, s2)
    requires (c1 == NullCap <==> slots[s1].cap == NullCap) && (c2 == NullCap <==> slots[s2].cap == NullCap)
    requires slots'.Keys == slots.Keys
    requires forall b :: b in slots ==> slots'[b] == SwappedSlot(slots, c1, s1, c2, s2, b)
    ensures Swapped(slots, order, ns, slots', Exchange(order, s1, s2), RecapTwo(order, ns, s1, c1, s2, c2), c1, s1, c2,
      s2)
  {
    var r, ns' := Exchange(order, s1, s2), RecapTwo(order, ns, s1, c1, s2, c2);
    forall k | 0 <= k < |r|
      ensures At(slots', r, ns', k)
    {
      SwapAtPosition(slots, order, ns, c1, s1, c2, s2, slots', k);
    }
    LinksAreInverse(slots, order, ns, s1);
    LinksAreInverse(slots, order, ns, s2);
    forall b | b in slots' && b !in r
      ensures slots'[b] == EMPTY
    {
      var o := Rename(s1, s2, b);
      assert forall j :: 0 <= j < |order| ==> r[j] == Rename(s1, s2, order[j]);
      assert o !in order;
      SwapRenames(slots, order, ns, c1, s1, c2, s2, o);
    }
  }

  function SetNext(slots: Slots, a: nat, v: nat): (r: Slots) {
    if a in slots then slots[a := slots[a].(next := v)] else slots
  }

  function SetPrev(slots: Slots, a: nat, v: nat): (r: Slots) {
    if a in slots then slots[a := slots[a].(prev := v)] else slots
  }

  /** The assignments of cte_swap in their order; both nodes are copied before any write. */
  function SwapWrites(slots: Slots, c1: Cap, s1: nat, c2: Cap, s2: nat): (r: Slots)
    requires s1 in slots && s2 in slots
  {
    var mdb1, mdb2 := slots[s1], slots[s2];
    var w1 := SetPrev(SetNext(slots, mdb1.prev, s2), mdb1.next, s2);
    var w2 := w1[s1 := mdb2.(cap := c2)][s2 := mdb1.(cap := c1)];
    SetPrev(SetNext(w2, mdb2.prev, s1), mdb2.next, s1)
  }

  lemma SwapPointwise(slots: Slots, c1: Cap, s1: nat, c2: Cap, s2: nat, b: nat)
    requires 0 !in slots && s1 in slots && s2 in slots && s1 != s2 && b in slots
    requires slots[s1].next != s1 && slots[s1].prev != s1 && slots[s2].next != s2 && slots[s2].prev != s2
    requires slots[s1].next != s2 && slots[s1].prev != s2 && slots[s2].next != s1 && slots[s2].prev != s1
    requires slots[s1].prev == slots[s2].prev ==> slots[s1].prev !in slots
    requires slots[s1].next == slots[s2].next ==> slots[s1].next !in slots
    ensures SwapWrites(slots, c1, s1, c2, s2).Keys == slots.Keys
    ensures SwapWrites(slots, c1, s1, c2, s2)[b] == SwappedSlot(slots, c1, s1, c2, s2, b)
  {}

  lemma SwapSelfLinks(slots: Slots, c1: Cap, s1: nat, c2: Cap, s2: nat)
    requires 0 !in slots && s1 in slots && s2 in slots && s1 != s2
    requires (slots[s1].next == s2 && slots[s2].prev == s1) || (slots[s2].next == s1 && slots[s1].prev == s2)
    requires slots[s2].next != s2 && slots[s2].prev != s2
    ensures s1 in SwapWrites(slots, c1, s1, c2, s2) && SwapWrites(slots, c1, s1, c2, s2)[s1].next == s1
  {}

  /** Between neighbours both copied nodes are stale when they are written back: slot1 ends up
      pointing at itself, and no list whatever is represented any more. */
  lemma SelfLinkRefutesRep(slots: Slots, a: nat)
    requires a in slots && a != 0 && slots[a].next == a
    ensures forall order, ns :: !Rep(slots, order, ns)
  {
    forall order, ns
      ensures !Rep(slots, order, ns)
    {
      if Rep(slots, order, ns) { LinksAreInverse(slots, order, ns, a); }
    }
  }

  /** cte_swap leaves a list behind exactly when the two slots were not neighbours, and then it
      is the list with the two addresses exchanged. */
  lemma SwapIsListIff(slots: Slots, order: seq<nat>, ns: seq<Node>, c1: Cap, s1: nat, c2: Cap, s2: nat)
    requires Rep(slots, order, ns) && s1 in slots && s2 in slots && s1 != s2
    requires (c1 == NullCap <==> slots[s1].cap == NullCap) && (c2 == NullCap <==> slots[s2].cap == NullCap)
    ensures (exists o, n :: Rep(SwapWrites(slots, c1, s1, c2, s2), o, n)) <==> !Neighbours(slots, s1, s2)
    ensures !Neighbours(slots, s1, s2) ==>
      Swapped(slots, order, ns, SwapWrites(slots, c1, s1, c2, s2),
              Exchange(order, s1, s2), RecapTwo(order, ns, s1, c1, s2, c2), c1, s1, c2, s2)
  {
    LinksAreInverse(slots, order, ns, s1);
    LinksAreInverse(slots, order, ns, s2);
    var w := SwapWrites(slots, c1, s1, c2, s2);
    if Neighbours(slots, s1, s2) {
      SwapSelfLinks(slots, c1, s1, c2, s2);
      SelfLinkRefutesRep(w, s1);
    } else {
      forall b | b in slots
        ensures w.Keys == slots.Keys && w[b] == SwappedSlot(slots, c1, s1, c2, s2, b)
      {
        SwapPointwise(slots, c1, s1, c2, s2, b);
      }
      SwapRefines(slots, order, ns, c1, s1, c2, s2, w);
      assert Rep(w, Exchange(order, s1, s2), RecapTwo(order, ns, s1, c1, s2, c2));
    }
  }

  // ---- what having no child means ----

  lemma ChildMeansDescendant(slots: Slots, order: seq<nat>, ns: seq<Node>, a: nat)
    requires Rep(slots, order, ns) && NodesOk(ns) && a in slots && a in order
    ensures HasChild(slots, a) <==> !IsBare(ns, Index(order, a))
  {
    var i := Index(order, a);
    assert At(slots, order, ns, i);
    if i + 1 < |order| { assert At(slots, order, ns, i + 1); }
    NextTells(ns, i);
  }

  /** Slot b holds an object in the block of the untyped in a and is listed behind it. What lies in the block and
      is listed before is an untyped around the whole block (see EarlierIsAround). */
  ghost predicate AllocatedFrom(slots: Slots, order: seq<nat>, a: nat, b: nat) {
    && a in slots && b in slots && a in order && b in order && Index(order, a) < Index(order, b)
    && slots[a].cap.UntypedCap? && IsPhysical(slots[b].cap) && Inside(slots[b].cap, slots[a].cap)
  }

  lemma NoChildNothingAllocated(slots: Slots, order: seq<nat>, ns: seq<Node>, a: nat)
    requires Rep(slots, order, ns) && MemOk(ns) && a in slots && slots[a].cap.UntypedCap?
    ensures !HasChild(slots, a) <==> forall b :: !AllocatedFrom(slots, order, a, b)
  {
    LinksAreInverse(slots, order, ns, a);
    var i := Index(order, a);
    assert At(slots, order, ns, i);
    if i + 1 < |order| { assert At(slots, order, ns, i + 1); }
    NoChildMeansNothingAlive(ns, i);
    if HasChild(slots, a) {
      var j :| i < j < |ns| && Contains(ns, i, j);
      assert At(slots, order, ns, j);
      assert AllocatedFrom(slots, order, a, order[j]);
    } else {
      forall b
        ensures !AllocatedFrom(slots, order, a, b)
      {
        if b in order {
          assert At(slots, order, ns, Index(order, b));
          assert i < Index(order, b) ==> !Contains(ns, i, Index(order, b));
        }
      }
    }
  }

  /** Everything that lies in the block of an untyped and is not allocated from it is an untyped around it. */
  lemma EarlierIsAround(slots: Slots, order: seq<nat>, ns: seq<Node>, a: nat, b: nat)
    requires Rep(slots, order, ns) && MemOk(ns) && a in slots && b in slots && a != b && slots[a].cap.UntypedCap?
    requires IsPhysical(slots[b].cap) && Inside(slots[b].cap, slots[a].cap) && !AllocatedFrom(slots, order, a, b)
    ensures slots[b].cap.UntypedCap? && Inside(slots[a].cap, slots[b].cap)
  {
    LinksAreInverse(slots, order, ns, a);
    LinksAreInverse(slots, order, ns, b);
    var i, j := Index(order, a), Index(order, b);
    assert At(slots, order, ns, i) && At(slots, order, ns, j);
    assert Contains(ns, i, j);
  }

  // ---- new slots and new lists ----

  function Grown(slots: Slots, more: set<nat>): (r: Slots) {
    slots + map a | a in more :: EMPTY
  }

  lemma GrowKeepsRep(slots: Slots, order: seq<nat>, ns: seq<Node>, more: set<nat>)
    requires Rep(slots, order, ns) && 0 !in more && forall a :: a in more && a in slots ==> slots[a].cap == NullCap
    ensures Rep(Grown(slots, more), order, ns)
  {
    var s := Grown(slots, more);
    forall k | 0 <= k < |order|
      ensures At(s, order, ns, k)
    {
      assert At(slots, order, ns, k);
    }
  }

  lemma AppendKeepsRep(slots: Slots, order: seq<nat>, ns: seq<Node>, a: nat, c: Cap)
    requires Rep(slots, order, ns) && a in slots && slots[a].cap == NullCap && c != NullCap
    ensures Rep(slots[a := Slot(c, 0, 0, true, true)], order + [a], ns + [Node(c, true, true, false)])
  {
    var s, o, n := slots[a := Slot(c, 0, 0, true, true)], order + [a], ns + [Node(c, true, true, false)];
    LinksAreInverse(slots, order, ns, a);
    forall k | 0 <= k < |o|
      ensures At(s, o, n, k)
    {
      if k < |order| { assert At(slots, order, ns, k); }
      if k > 0 { assert At(slots, order, ns, k - 1); }
      AppendIndex(slots, order, ns, a, k);
    }
  }

  lemma AppendIndex(slots: Slots, order: seq<nat>, ns: seq<Node>, a: nat, k: nat)
    requires Rep(slots, order, ns) && a !in order && k <= |order|
    ensures Index(order + [a], (order + [a])[k]) == k
  {
    var o := order + [a];
    var i := Index(o, o[k]);
    if i < |order| { assert At(slots, order, ns, i); }
    if k < |order| { assert At(slots, order, ns, k); }
  }

  class CSpace {
    var slots: Slots
    ghost var order: seq<nat>
    ghost var nodes: seq<Node>

    ghost predicate Valid()
      reads this
    {
      Rep(slots, order, nodes)
    }

    constructor (slots: Slots, ghost order: seq<nat>, ghost nodes: seq<Node>)
      requires Rep(slots, order, nodes)
      ensures Valid() && this.slots == slots && this.order == order && this.nodes == nodes
    {
      this.slots, this.order, this.nodes := slots, order, nodes;
    }

    /** Memory becomes slots: those that are new, or were empty, are empty. */
    method AddSlots(more: set<nat>)
      requires Valid() && 0 !in more && forall a :: a in more && a in slots ==> slots[a].cap == NullCap
      modifies `slots
      ensures Valid() && slots == Grown(old(slots), more)
    {
      GrowKeepsRep(slots, order, nodes, more);
      slots := Grown(slots, more);
    }

    /** write_slot and setup_reply_master: the capability starts a list of its own. */
    method WriteSlot(a: nat, c: Cap)
      requires Valid() && a in slots && slots[a].cap == NullCap && c != NullCap
      modifies this
      ensures Valid() && slots == old(slots)[a := Slot(c, 0, 0, true, true)]
      ensures order == old(order) + [a] && nodes == old(nodes) + [Node(c, true, true, false)]
    {
      AppendKeepsRep(slots, order, nodes, a, c);
      slots := slots[a := Slot(c, 0, 0, true, true)];
      order, nodes := order + [a], nodes + [Node(c, true, true, false)];
    }

    /** set_empty */
    method SetEmpty(a: nat)
      requires Valid() && a in slots
      modifies this
      ensures Emptied(old(slots), old(order), old(nodes), slots, order, nodes, a)
    {
      LinksAreInverse(slots, order, nodes, a);
      if slots[a].cap != NullCap {
        ghost var s0 := slots;
        UnlinkWrites(a);
        UnlinkRefines(s0, order, nodes, a, slots);
        order, nodes := RemoveAt(order, Index(order, a)), RemoveNode(nodes, Index(order, a));
      }
    }

    /** The assignments of set_empty. */
    method UnlinkWrites(a: nat)
      requires a in slots && 0 !in slots
      requires slots[a].next == 0 || (slots[a].next in slots && slots[a].next != a)
      requires slots[a].prev == 0 || (slots[a].prev in slots && slots[a].prev != a)
      requires slots[a].prev != 0 ==> slots[a].prev != slots[a].next
      modifies `slots
      ensures slots.Keys == old(slots).Keys
      ensures forall b :: b in old(slots) ==> slots[b] == UnlinkedSlot(old(slots), a, b)
    {
      var node := slots[a];
      if node.prev != 0 {
        slots := slots[node.prev := slots[node.prev].(next := node.next)];
      }
      if node.next != 0 {
        var next := slots[node.next];
        slots := slots[node.next := next.(prev := node.prev, firstBadged := next.firstBadged || node.firstBadged)];
      }
      slots := slots[a := EMPTY];
    }

    /** cte_insert */
    method CteInsert(c: Cap, src: nat, dest: nat)
      requires Valid() && src in slots && dest in slots
      requires slots[src].cap != NullCap && slots[dest].cap == NullCap && c != NullCap
      requires slots[src].cap.UntypedCap? ==> slots[src].cap.blockSize >= MIN_UNTYPED_BITS
      requires c.EndpointCap? ==> slots[src].cap.EndpointCap?
      requires c.NotificationCap? ==> slots[src].cap.NotificationCap?
      modifies this
      ensures src in old(order)
      ensures
        var revocable := IsCapRevocable(c, old(slots[src].cap));
        Inserted(old(slots), old(order), old(nodes), slots, order, nodes, src,
                 UntypedAsFull(old(slots[src].cap), c), dest, Node(c, revocable, revocable, false))
    {
      LinksAreInverse(slots, order, nodes, src);
      LinksAreInverse(slots, order, nodes, dest);
      ghost var s0 := slots;
      var srcCap := slots[src].cap;
      var revocable := IsCapRevocable(c, srcCap);
      var full := UntypedAsFull(srcCap, c);
      ghost var n := Node(c, revocable, revocable, false);
      ghost var p := Index(order, src);
      InsertWrites(c, src, dest, full, revocable);
      InsertRefines(s0, order, nodes, src, full, dest, n, slots);
      order, nodes := InsertAt(order, p + 1, dest), InsertNode(nodes[p := nodes[p].(cap := full)], p, n);
    }

    /** The assignments of cte_insert. */
    method InsertWrites(c: Cap, src: nat, dest: nat, full: Cap, revocable: bool)
      requires src in slots && dest in slots && src != dest
      requires slots[src].next == 0 || (slots[src].next in slots && slots[src].next != src && slots[src].next != dest)
      requires 0 !in slots
      modifies `slots
      ensures slots.Keys == old(slots).Keys
      ensures forall b :: b in old(slots) ==>
        slots[b] == InsertedSlot(old(slots), src, full, dest, Node(c, revocable, revocable, false), b)
    {
      var newNext := slots[src].next;
      slots := slots[src := slots[src].(cap := full)];
      slots := slots[dest := Slot(c, newNext, src, revocable, revocable)];
      slots := slots[src := slots[src].(next := dest)];
      if newNext != 0 {
        slots := slots[newNext := slots[newNext].(prev := dest)];
      }
    }

    /** insert_new_cap: the new node is revocable and first-badged. */
    method InsertNewCap(parent: nat, slot: nat, c: Cap)
      requires Valid() && parent in slots && slot in slots
      requires slots[parent].cap != NullCap && slots[slot].cap == NullCap && c != NullCap
      modifies this
      ensures parent in old(order)
      ensures Inserted(old(slots), old(order), old(nodes), slots, order, nodes, parent, old(slots[parent].cap), slot,
                       Node(c, true, true, false))
    {
      LinksAreInverse(slots, order, nodes, parent);
      LinksAreInverse(slots, order, nodes, slot);
      ghost var s0 := slots;
      ghost var n := Node(c, true, true, false);
      ghost var p := Index(order, parent);
      NewCapWrites(parent, slot, c);
      InsertRefines(s0, order, nodes, parent, s0[parent].cap, slot, n, slots);
      order, nodes := InsertAt(order, p + 1, slot), InsertNode(nodes[p := nodes[p].(cap := s0[parent].cap)], p, n);
    }

    /** The assignments of insert_new_cap. */
    method NewCapWrites(parent: nat, slot: nat, c: Cap)
      requires parent in slots && slot in slots && parent != slot
      requires slots[parent].next == 0
        || (slots[parent].next in slots && slots[parent].next != parent && slots[parent].next != slot)
      requires 0 !in slots
      modifies `slots
      ensures slots.Keys == old(slots).Keys
      ensures forall b :: b in old(slots) ==>
        slots[b] == InsertedSlot(old(slots), parent, old(slots)[parent].cap, slot, Node(c, true, true, false), b)
    {
      var next := slots[parent].next;
      slots := slots[slot := Slot(c, next, parent, true, true)];
      if next != 0 {
        slots := slots[next := slots[next].(prev := slot)];
      }
      slots := slots[parent := slots[parent].(next := slot)];
    }

    /** cte_move */
    method CteMove(c: Cap, src: nat, dest: nat)
      requires Valid() && src in slots && dest in slots
      requires slots[src].cap != NullCap && slots[dest].cap == NullCap && c != NullCap
      modifies this
      ensures src in old(order)
      ensures Moved(old(slots), old(order), old(nodes), slots, order, nodes, c, src, dest)
    {
      LinksAreInverse(slots, order, nodes, src);
      LinksAreInverse(slots, order, nodes, dest);
      ghost var s0 := slots;
      ghost var p := Index(order, src);
      MoveWrites(c, src, dest);
      MoveRefines(s0, order, nodes, c, src, dest, slots);
      order, nodes := order[p := dest], nodes[p := nodes[p].(cap := c)];
    }

    /** The assignments of cte_move. */
    method MoveWrites(c: Cap, src: nat, dest: nat)
      requires src in slots && dest in slots && src != dest && 0 !in slots
      requires slots[src].next == 0 || (slots[src].next in slots && slots[src].next != src && slots[src].next != dest)
      requires slots[src].prev == 0 || (slots[src].prev in slots && slots[src].prev != src && slots[src].prev != dest)
      requires slots[src].prev != 0 ==> slots[src].prev != slots[src].next
      modifies `slots
      ensures slots.Keys == old(slots).Keys
      ensures forall b :: b in old(slots) ==> slots[b] == MovedSlot(old(slots), c, src, dest, b)
    {
      var mdb := slots[src];
      slots := slots[dest := mdb.(cap := c)];
      slots := slots[src := EMPTY];
      if mdb.prev != 0 {
        slots := slots[mdb.prev := slots[mdb.prev].(next := dest)];
      }
      if mdb.next != 0 {
        slots := slots[mdb.next := slots[mdb.next].(prev := dest)];
      }
    }

    /** Assigning the cap field of a slot that is in use. */
    method SetCap(a: nat, c: Cap)
      requires Valid() && a in slots && slots[a].cap != NullCap && c != NullCap
      modifies this
      ensures a in old(order)
      ensures Recapped(old(slots), old(order), old(nodes), slots, order, nodes, a, c)
    {
      LinksAreInverse(slots, order, nodes, a);
      RecapRefines(slots, order, nodes, a, c);
      slots := slots[a := slots[a].(cap := c)];
      nodes := nodes[Index(order, a) := nodes[Index(order, a)].(cap := c)];
    }

    /** cte_swap. The result is a list, the one with the two addresses exchanged, exactly when
        the slots were not neighbours. */
    method CteSwap(c1: Cap, s1: nat, c2: Cap, s2: nat)
      requires Valid() && s1 in slots && s2 in slots && s1 != s2
      requires (c1 == NullCap <==> slots[s1].cap == NullCap) && (c2 == NullCap <==> slots[s2].cap == NullCap)
      modifies this
      ensures (exists o, n :: Rep(slots, o, n)) <==> !old(Neighbours(slots, s1, s2))
      ensures !old(Neighbours(slots, s1, s2)) ==>
        Swapped(old(slots), old(order), old(nodes), slots, order, nodes, c1, s1, c2, s2)
    {
      LinksAreInverse(slots, order, nodes, s1);
      LinksAreInverse(slots, order, nodes, s2);
      ghost var s0 := slots;
      SwapAssignments(c1, s1, c2, s2);
      SwapIsListIff(s0, order, nodes, c1, s1, c2, s2);
      if !Neighbours(s0, s1, s2) {
        order, nodes := Exchange(order, s1, s2), RecapTwo(order, nodes, s1, c1, s2, c2);
        assert Rep(slots, order, nodes);
      }
    }

    /** The assignments of cte_swap. */
    method SwapAssignments(c1: Cap, s1: nat, c2: Cap, s2: nat)
      requires s1 in slots && s2 in slots && 0 !in slots
      requires slots[s1].next == 0 || slots[s1].next in slots
      requires slots[s1].prev == 0 || slots[s1].prev in slots
      requires slots[s2].next == 0 || slots[s2].next in slots
      requires slots[s2].prev == 0 || slots[s2].prev in slots
      modifies `slots
      ensures slots == SwapWrites(old(slots), c1, s1, c2, s2)
    {
      var mdb1, mdb2 := slots[s1], slots[s2];
      if mdb1.prev != 0 {
        slots := slots[mdb1.prev := slots[mdb1.prev].(next := s2)];
      }
      if mdb1.next != 0 {
        slots := slots[mdb1.next := slots[mdb1.next].(prev := s2)];
      }
      slots := slots[s1 := mdb2.(cap := c2)];
      slots := slots[s2 := mdb1.(cap := c1)];
      if mdb2.prev != 0 {
        slots := slots[mdb2.prev := slots[mdb2.prev].(next := s1)];
      }
      if mdb2.next != 0 {
        slots := slots[mdb2.next := slots[mdb2.next].(prev := s1)];
      }
    }

    /** is_final_cap answers whether any other slot names the same object. */
    method IsFinalCap(a: nat) returns (final: bool)
      requires Valid() && Grouped(nodes) && a in slots
      ensures final <==> forall b :: b in slots && b != a ==> !SameObjectAs(slots[a].cap, slots[b].cap)
    {
      LinksAreInverse(slots, order, nodes, a);
      var mdb := slots[a];
      var prevIsSame := mdb.prev != 0 && SameObjectAs(slots[mdb.prev].cap, mdb.cap);
      if prevIsSame {
        final := false;
      } else if mdb.next == 0 {
        final := true;
      } else {
        final := !SameObjectAs(mdb.cap, slots[mdb.next].cap);
      }
      FinalIsUnique(slots, order, nodes, a);
    }

    /** ensure_no_children: true is EXCEPTION_NONE. It tells whether anything at all descends from the capability; for
        an untyped, whether anything allocated from its block is still alive, anywhere in the system. */
    method EnsureNoChildren(a: nat) returns (none: bool)
      requires Valid() && a in slots
      ensures none <==> !HasChild(slots, a)
      ensures NodesOk(nodes) && a in order ==> (none <==> IsBare(nodes, Index(order, a)))
      ensures MemOk(nodes) && slots[a].cap.UntypedCap? ==>
        (none <==> forall b :: !AllocatedFrom(slots, order, a, b))
    {
      if NodesOk(nodes) && a in order { ChildMeansDescendant(slots, order, nodes, a); }
      if MemOk(nodes) && slots[a].cap.UntypedCap? { NoChildNothingAllocated(slots, order, nodes, a); }
      none := true;
      if slots[a].next != 0 {
        LinksAreInverse(slots, order, nodes, a);
        if IsMdbParentOf(slots[a], slots[slots[a].next]) {
          none := false;
        }
      }
    }
  }
}
