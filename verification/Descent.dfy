/** Which capabilities were derived from another one, said by objects, memory, badges and marks: what revoke
    (sel4_cspace/src/cte.rs) is there to take back. The test that the code makes on the next slot decides it. */
module Descent {
  import opened Config
  import opened Caps
  import opened MdbNodes
  import opened Memory

  predicate IsIrqCap(c: Cap) {
    c.IrqControlCap? || c.IrqHandlerCap?
  }

  /** Node m is an interrupt capability that continues its list. */
  predicate IrqAt(ns: seq<Node>, m: nat) {
    0 < m < |ns| && ns[m - 1].joined && IsIrqCap(ns[m].cap)
  }

  /** Node m continues its list and passes the test of the code as a child of node i. */
  predicate ChildAt(ns: seq<Node>, i: nat, m: nat) {
    i < |ns| && 0 < m < |ns| && ns[m - 1].joined && IsParent(ns[i], ns[m])
  }

  /** From node i to node j the object's capabilities carry the badge of node i, and none starts a badge of its own. */
  ghost predicate BadgeRun(ns: seq<Node>, i: nat, j: nat)
    requires i < |ns| && j < |ns|
  {
    forall m :: i < m <= j ==> Badge(ns[m].cap) == Badge(ns[i].cap) && !ns[m].firstBadged
  }

  /** Node j descends from node i: it lies in an untyped's block; it is a later capability to the same object, which
      for a badged one lies in the run of its badge; or it is in the run of interrupt capabilities behind IRQ control.
      Frames have no descendants, and neither has a capability that is not revocable. */
  ghost predicate Descends(ns: seq<Node>, i: nat, j: nat) {
    && i < j < |ns| && ns[i].revocable
    && match ns[i].cap
       case UntypedCap(_, _, _, _) => Contains(ns, i, j)
       case IrqControlCap => forall m {:trigger IrqAt(ns, m)} :: i < m <= j ==> IrqAt(ns, m)
       case FrameCap(_, _, _, _, _, _) => false
       case _ => SameObject(ns[i], ns[j]) && (Badge(ns[i].cap) != 0 ==> BadgeRun(ns, i, j))
  }

  /** Nothing descends from node i. */
  ghost predicate IsBare(ns: seq<Node>, i: nat) {
    !exists j :: Descends(ns, i, j)
  }

  /** Between two capabilities to one object there are only others to it, in one list. */
  lemma {:induction false} SameBetween(ns: seq<Node>, i: nat, j: nat, m: nat)
    requires Grouped(ns) && i < m <= j < |ns| && Same(ns, i, j)
    ensures Same(ns, i, m) && ns[m - 1].joined
    decreases j - m
  {
    if m < j {
      assert Same(ns, j - 1, j);
      SameBetween(ns, i, j - 1, m);
    }
  }

  /** The contents of a block stand behind it without a gap. */
  lemma {:induction false} InsideBetween(ns: seq<Node>, i: nat, j: nat, m: nat)
    requires RunsBehind(ns) && i < m <= j < |ns| && Contains(ns, i, j)
    ensures Contains(ns, i, m) && ns[m - 1].joined
    decreases j - m
  {
    assert RunStep(ns, i, j);
    if m < j { InsideBetween(ns, i, j - 1, m); }
  }

  /** For two nodes the test of the code says whether the later one may descend. */
  lemma ParentTest(ns: seq<Node>, i: nat, m: nat)
    requires NodesOk(ns) && i < |ns| && m < |ns| && i != m
    ensures IsParent(ns[i], ns[m]) <==>
      && ns[i].revocable
      && match ns[i].cap
         case UntypedCap(_, _, _, _) => Contains(ns, i, m)
         case IrqControlCap => IsIrqCap(ns[m].cap)
         case FrameCap(_, _, _, _, _, _) => false
         case _ =>
           SameObject(ns[i], ns[m])
             && (Badge(ns[i].cap) != 0 ==> Badge(ns[m].cap) == Badge(ns[i].cap) && !ns[m].firstBadged)
  {
    if ns[i].cap.UntypedCap? { RegionTestIsContainment(ns, i, m); }
    SameObjectIsSameId(ns[i].cap, ns[m].cap);
  }

  /** Node j descends from node i exactly if the test lets everything up to it through. */
  lemma DescentIsRun(ns: seq<Node>, i: nat, j: nat)
    requires NodesOk(ns) && i < j < |ns|
    ensures Descends(ns, i, j) <==> forall m {:trigger ChildAt(ns, i, m)} :: i < m <= j ==> ChildAt(ns, i, m)
  {
    forall m | i < m <= j
      ensures Descends(ns, i, j) ==> ChildAt(ns, i, m)
    {
      ParentTest(ns, i, m);
      if Descends(ns, i, j) {
        if ns[i].cap.UntypedCap? {
          InsideBetween(ns, i, j, m);
        } else if ns[i].cap.IrqControlCap? {
          assert IrqAt(ns, m);
        } else {
          assert Same(ns, i, j);
          SameBetween(ns, i, j, m);
        }
      }
    }
    if forall m {:trigger ChildAt(ns, i, m)} :: i < m <= j ==> ChildAt(ns, i, m) { RunDescends(ns, i, j); }
  }

  lemma RunDescends(ns: seq<Node>, i: nat, j: nat)
    requires NodesOk(ns) && i < j < |ns|
    requires forall m {:trigger ChildAt(ns, i, m)} :: i < m <= j ==> ChildAt(ns, i, m)
    ensures Descends(ns, i, j)
  {
    assert ChildAt(ns, i, j);
    ParentTest(ns, i, j);
    forall m | i < m <= j
      ensures Badge(ns[i].cap) != 0 ==> Badge(ns[m].cap) == Badge(ns[i].cap) && !ns[m].firstBadged
      ensures ns[i].cap.IrqControlCap? ==> IrqAt(ns, m)
    {
      assert ChildAt(ns, i, m);
      ParentTest(ns, i, m);
    }
  }

  /** The next node tells whether there is any descendant at all. */
  lemma NextTells(ns: seq<Node>, i: nat)
    requires NodesOk(ns) && i < |ns|
    ensures ChildAt(ns, i, i + 1) <==> !IsBare(ns, i)
  {
    if ChildAt(ns, i, i + 1) { RunDescends(ns, i, i + 1); }
    if j :| Descends(ns, i, j) { DescentIsRun(ns, i, j); }
  }

  /** An original without descendants is the only capability to its object. */
  lemma OriginalIsSole(ns: seq<Node>, i: nat, k: nat)
    requires NodesOk(ns) && i < |ns| && ns[i].revocable && Badge(ns[i].cap) == 0
    requires !ns[i].cap.FrameCap? && !ns[i].cap.IrqControlCap? && IsBare(ns, i)
    requires k < |ns| && k != i
    ensures !Same(ns, i, k)
  {
    if i < k {
      assert Same(ns, i, k) ==> Descends(ns, i, k);
    } else {
      assert Same(ns, i, k) == Same(ns, k, i);
    }
  }

  /** A copy or mint descends from its source, if that is revocable and no frame, and starts without descendants. */
  lemma CopyDescends(ns: seq<Node>, p: nat, c: Cap)
    requires NodesOk(ns) && p < |ns| && DerivedFrom(c, ns[p].cap) && !c.IrqControlCap?
    requires ns[p].cap.UntypedCap? ==> ns[p].cap.blockSize >= MIN_UNTYPED_BITS && !HasChildAt(ns, p)
    ensures
      var r := CopyNodes(ns, p, c);
      && NodesOk(r)
      && (ns[p].revocable && !ns[p].cap.FrameCap? ==> Descends(r, p, p + 1))
      && IsBare(r, p + 1)
  {
    var r := CopyNodes(ns, p, c);
    CopyKeepsNodesOk(ns, p, c);
    NextTells(r, p + 1);
    if ChildAt(r, p + 1, p + 2) {
      ParentTest(r, p + 1, p + 2);
      CopyHasNoChild(ns, p, c);
    }
  }

  lemma CopyHasNoChild(ns: seq<Node>, p: nat, c: Cap)
    requires NodesOk(ns) && p + 1 < |ns| && DerivedFrom(c, ns[p].cap) && !c.IrqControlCap?
    requires ns[p].cap.UntypedCap? ==> ns[p].cap.blockSize >= MIN_UNTYPED_BITS && !HasChildAt(ns, p)
    ensures !ChildAt(CopyNodes(ns, p, c), p + 1, p + 2)
  {
    var r := CopyNodes(ns, p, c);
    CopyKeepsNodesOk(ns, p, c);
    ParentTest(r, p + 1, p + 2);
    if ns[p].cap.UntypedCap? {
      RegionTestIsContainment(ns, p, p + 1);
      assert RangeOk(ns[p].cap);
    } else {
      assert Same(r, p + 1, p + 2) ==> Same(ns, p, p + 1);
    }
  }
}
