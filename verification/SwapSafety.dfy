/** When the deletion of nested containers never swaps two neighbours of a derivation list
    (sel4_cspace/src/cte.rs): a condition on the capability space that every step of a deletion keeps. */
module SwapSafety {
  import opened Caps
  import opened MdbNodes
  import opened Mdb
  import opened Containers

  /** A capability that still stands for undeleted slots somewhere else: a CNode or thread
      capability, or a zombie that is not stored in its own first slot. */
  predicate LooseAt(c: Cap, a: nat) {
    c.CNodeCap? || c.ThreadCap? || (c.ZombieCap? && c.ptr != a)
  }

  ghost function Loose(slots: Slots): (r: set<nat>) {
    set a | a in slots && LooseAt(slots[a].cap, a)
  }

  /** The slots whose zombies a deletion may swap away, and the slots it may empty. */
  datatype Zone = Zone(swapped: set<nat>, touched: set<nat>)

  /** Between positions i and j the list ends, or has a node that the deletion leaves alone. */
  predicate Divides(order: seq<nat>, ns: seq<Node>, touched: set<nat>, i: nat, k: nat)
    requires k < |order| == |ns|
  {
    !ns[k].joined || (k > i && order[k] !in touched && !ns[k].cap.ReplyCap?)
  }

  ghost predicate Divided(order: seq<nat>, ns: seq<Node>, touched: set<nat>, i: nat, j: nat)
    requires i <= j <= |order| == |ns|
  {
    exists k :: i <= k < j && Divides(order, ns, touched, i, k)
  }

  /** Slots a and b, wherever they are listed, are divided from each other. */
  predicate At2(order: seq<nat>, a: nat, b: nat, i: nat, j: nat)
    requires i < |order| && j < |order|
  {
    (order[i] == a && order[j] == b) || (order[i] == b && order[j] == a)
  }

  ghost predicate Separate(order: seq<nat>, ns: seq<Node>, touched: set<nat>, a: nat, b: nat)
    requires |order| == |ns|
  {
    forall i, j {:trigger At2(order, a, b, i, j)} :: 0 <= i < j < |order| && At2(order, a, b, i, j) ==>
      Divided(order, ns, touched, i, j)
  }

  predicate LooseIn(slots: Slots, z: Zone, b: nat) {
    b in z.swapped && b in slots && LooseAt(slots[b].cap, b)
  }

  function BaseOf(slots: Slots, b: nat): (f: nat)
    requires b in slots && LooseAt(slots[b].cap, b)
  {
    ContainerOf(slots[b].cap).base
  }

  /** The first slot of c's container is b itself or divided from b. */
  ghost predicate PairOk(d: Db, z: Zone, b: nat, c: nat)
    requires |d.order| == |d.nodes|
  {
    LooseIn(d.slots, z, b) && LooseIn(d.slots, z, c) ==>
      && BaseOf(d.slots, c) in z.swapped
      && (BaseOf(d.slots, c) == b || Separate(d.order, d.nodes, z.touched, BaseOf(d.slots, c), b))
  }

  predicate IrqTouched(d: Db, l: Layout, z: Zone, b: nat) {
    b in d.slots && d.slots[b].cap.IrqHandlerCap? ==> SlotAddr(l.irqNode, d.slots[b].cap.irq) in z.touched
  }

  /** No first slot of a container named in the zone lies in the reach of another capability of the zone that
      stands for slots elsewhere: the list ends between them, or a capability between them stays. */
  ghost predicate Clear(d: Db, l: Layout, z: Zone) {
    && |d.order| == |d.nodes| && z.swapped <= z.touched
    && (forall b, c {:trigger PairOk(d, z, b, c)} :: PairOk(d, z, b, c))
    && (forall b {:trigger IrqTouched(d, l, z, b)} :: IrqTouched(d, l, z, b))
  }

  /** In a clear space a zombie of the zone is no neighbour of its own first slot. */
  lemma ClearNoNeighbour(d: Db, l: Layout, z: Zone, e: nat)
    requires Rep(d.slots, d.order, d.nodes) && Clear(d, l, z) && LooseIn(d.slots, z, e)
    requires var f := BaseOf(d.slots, e); f != e && f in d.slots
    ensures !Neighbours(d.slots, BaseOf(d.slots, e), e)
  {
    var f := BaseOf(d.slots, e);
    assert PairOk(d, z, e, e);
    LinksAreInverse(d.slots, d.order, d.nodes, e);
    LinksAreInverse(d.slots, d.order, d.nodes, f);
    if Neighbours(d.slots, f, e) {
      var x := if d.slots[f].next == e then f else e;
      var i := Index(d.order, x);
      assert At(d.slots, d.order, d.nodes, i);
      assert At2(d.order, f, e, i, i + 1);
      var k :| i <= k < i + 1 && Divides(d.order, d.nodes, z.touched, i, k);
    }
  }

  // ---- removal ----

  lemma RemoveDivides(order: seq<nat>, ns: seq<Node>, touched: set<nat>, r: nat, i: nat, j: nat)
    requires |order| == |ns| && r < |order| && (order[r] in touched || ns[r].cap.ReplyCap?)
    requires i < j < |order| - 1
    requires var i0, j0 := if i < r then i else i + 1, if j < r then j else j + 1; Divided(order, ns, touched, i0, j0)
    ensures Divided(RemoveAt(order, r), RemoveNode(ns, r), touched, i, j)
  {
    var i0, j0 := if i < r then i else i + 1, if j < r then j else j + 1;
    var k0 :| i0 <= k0 < j0 && Divides(order, ns, touched, i0, k0);
    var k := if k0 < r then k0 else k0 - 1;
    var o, n := RemoveAt(order, r), RemoveNode(ns, r);
    if k0 == r {
      assert !n[k].joined;
      assert Divides(o, n, touched, i, k);
    } else {
      assert Divides(o, n, touched, i, k);
    }
  }

  lemma RemoveSeparate(order: seq<nat>, ns: seq<Node>, touched: set<nat>, r: nat, a: nat, b: nat)
    requires |order| == |ns| && r < |order| && (order[r] in touched || ns[r].cap.ReplyCap?)
    requires Separate(order, ns, touched, a, b)
    ensures Separate(RemoveAt(order, r), RemoveNode(ns, r), touched, a, b)
  {
    var o, n := RemoveAt(order, r), RemoveNode(ns, r);
    forall i, j | 0 <= i < j < |o| && At2(o, a, b, i, j)
      ensures Divided(o, n, touched, i, j)
    {
      assert At2(order, a, b, if i < r then i else i + 1, if j < r then j else j + 1);
      RemoveDivides(order, ns, touched, r, i, j);
    }
  }

  lemma RemoveKeepsClear(d: Db, l: Layout, z: Zone, a: nat, d': Db)
    requires Clear(d, l, z) && Rep(d.slots, d.order, d.nodes) && a in d.slots
    requires (a in z.touched || d.slots[a].cap.ReplyCap?)
    requires Emptied(d.slots, d.order, d.nodes, d'.slots, d'.order, d'.nodes, a)
    ensures Clear(d', l, z)
  {
    if d.slots[a].cap != NullCap {
      var r := Index(d.order, a);
      assert At(d.slots, d.order, d.nodes, r);
      forall b, c
        ensures PairOk(d', z, b, c)
      {
        assert PairOk(d, z, b, c);
        if LooseIn(d'.slots, z, b) && LooseIn(d'.slots, z, c) && BaseOf(d'.slots, c) != b {
          RemoveSeparate(d.order, d.nodes, z.touched, r, BaseOf(d.slots, c), b);
        }
      }
      forall b
        ensures IrqTouched(d', l, z, b)
      {
        assert IrqTouched(d, l, z, b);
      }
    }
  }

  // ---- a zombie instead of the capability, or with a smaller count ----

  lemma RecapSeparate(order: seq<nat>, ns: seq<Node>, touched: set<nat>, r: nat, c: Cap, a: nat, b: nat)
    requires |order| == |ns| && r < |order| && !ns[r].cap.ReplyCap? && !c.ReplyCap?
    requires Separate(order, ns, touched, a, b)
    ensures Separate(order, ns[r := ns[r].(cap := c)], touched, a, b)
  {
    var n := ns[r := ns[r].(cap := c)];
    forall i, j | 0 <= i < j < |order| && At2(order, a, b, i, j)
      ensures Divided(order, n, touched, i, j)
    {
      var k :| i <= k < j && Divides(order, ns, touched, i, k);
      assert Divides(order, n, touched, i, k);
    }
  }

  lemma RecapKeepsClear(d: Db, l: Layout, z: Zone, a: nat, c: Cap, d': Db)
    requires Clear(d, l, z) && Rep(d.slots, d.order, d.nodes) && a in d.slots && a in d.order && c.ZombieCap?
    requires IsContainerCap(d.slots[a].cap) && ContainerOf(d.slots[a].cap) == ContainerOf(c)
    requires d'.slots == d.slots[a := d.slots[a].(cap := c)] && d'.order == d.order
    requires var i := Index(d.order, a); d'.nodes == d.nodes[i := d.nodes[i].(cap := c)]
    ensures Clear(d', l, z)
  {
    var r := Index(d.order, a);
    assert At(d.slots, d.order, d.nodes, r);
    forall x, y
      ensures PairOk(d', z, x, y)
    {
      assert PairOk(d, z, x, y);
      if LooseIn(d'.slots, z, x) && LooseIn(d'.slots, z, y) && BaseOf(d'.slots, y) != x {
        RecapSeparate(d.order, d.nodes, z.touched, r, c, BaseOf(d.slots, y), x);
      }
    }
    forall b
      ensures IrqTouched(d', l, z, b)
    {
      assert IrqTouched(d, l, z, b);
    }
  }

  // ---- the swap ----

  lemma SwapSeparate(order: seq<nat>, ns: seq<Node>, touched: set<nat>, e: nat, f: nat, a: nat, b: nat)
    requires |order| == |ns| && e in touched && f in touched && e != f
    requires Separate(order, ns, touched, Rename(e, f, a), Rename(e, f, b))
    ensures Separate(Exchange(order, f, e), ns, touched, a, b)
  {
    var o := Exchange(order, f, e);
    forall i, j | 0 <= i < j < |o| && At2(o, a, b, i, j)
      ensures Divided(o, ns, touched, i, j)
    {
      assert At2(order, Rename(e, f, a), Rename(e, f, b), i, j);
      var k :| i <= k < j && Divides(order, ns, touched, i, k);
      assert Divides(o, ns, touched, i, k);
    }
  }

  /** After the swap a pair of the zone was a pair before it, under the names the slots then had. */
  lemma SwapPair(d: Db, l: Layout, z: Zone, e: nat, d': Db, b: nat, c: nat)
    requires Clear(d, l, z) && CapsOk(d.slots, l) && e in d.slots && d.slots[e].cap.ZombieCap? && LooseIn(d.slots, z, e)
    requires ZombieSwap(d.slots, d'.slots, e) && d'.order == Exchange(d.order, d.slots[e].cap.ptr, e)
    requires d'.nodes == d.nodes
    ensures PairOk(d', z, b, c)
  {
    var f := d.slots[e].cap.ptr;
    FirstSlot(d.slots, l, e);
    assert PairOk(d, z, e, e);
    if LooseIn(d'.slots, z, b) && LooseIn(d'.slots, z, c) {
      var b0, c0 := Rename(e, f, b), Rename(e, f, c);
      assert b != f && c != f;
      assert LooseIn(d.slots, z, b0) && LooseIn(d.slots, z, c0);
      assert PairOk(d, z, b0, c0) && PairOk(d, z, b0, e);
      var g := BaseOf(d'.slots, c);
      assert g == BaseOf(d.slots, c0);
      assert g != f by {
        assert Alone(d.slots, e, c0) && CapOk(d.slots, l, c0);
        assert SlotAddr(g, 0) == g;
      }
      if g != b { SwapSeparate(d.order, d.nodes, z.touched, e, f, g, b); }
    }
  }

  lemma SwapKeepsClear(d: Db, l: Layout, z: Zone, e: nat, d': Db)
    requires Clear(d, l, z) && CapsOk(d.slots, l) && e in d.slots && d.slots[e].cap.ZombieCap? && LooseIn(d.slots, z, e)
    requires ZombieSwap(d.slots, d'.slots, e) && d'.order == Exchange(d.order, d.slots[e].cap.ptr, e)
    requires d'.nodes == d.nodes
    ensures Clear(d', l, z)
  {
    forall b, c
      ensures PairOk(d', z, b, c)
    {
      SwapPair(d, l, z, e, d', b, c);
    }
    forall b
      ensures IrqTouched(d', l, z, b)
    {
      assert IrqTouched(d, l, z, Rename(e, d.slots[e].cap.ptr, b));
    }
  }
}
