/** The mapping database (MDB) as a sequence of nodes, independent of slot addresses.
    All MDB lists of the system are laid end to end; `joined` says that a node's list
    continues with the next element of the sequence. */
module MdbNodes {
  import opened Caps

  datatype Node = Node(cap: Cap, revocable: bool, firstBadged: bool, joined: bool)

  predicate SameObject(m: Node, n: Node) {
    ObjectOf(m.cap) == ObjectOf(n.cap) && ObjectOf(m.cap) != NoObject
  }

  predicate Same(ns: seq<Node>, i: nat, k: nat)
    requires i < |ns| && k < |ns|
  {
    SameObject(ns[i], ns[k])
  }

  /** Capabilities naming one object sit next to each other, in one list. Stated at the two ends:
      from any node, one step towards a later (earlier) capability to the same object stays in
      the same object and in the same list. */
  ghost predicate Grouped(ns: seq<Node>) {
    forall i, k {:trigger Same(ns, i, k)} :: 0 <= i < k < |ns| && Same(ns, i, k) ==>
      && Same(ns, i, i + 1) && ns[i].joined
      && Same(ns, k - 1, k) && ns[k - 1].joined
  }

  predicate Badgeable(c: Cap) {
    c.EndpointCap? || c.NotificationCap?
  }

  /** The badge of an endpoint or notification capability; other capabilities have none. */
  function Badge(c: Cap): (b: nat) {
    if Badgeable(c) then c.badge else 0
  }

  /** Where the badge changes inside one endpoint's or notification's group to another non-zero
      badge, the later node is marked first-badged. */
  ghost predicate BadgeMarked(ns: seq<Node>) {
    forall i :: 0 <= i < |ns| - 1 && Same(ns, i, i + 1)
      && Badge(ns[i].cap) != Badge(ns[i + 1].cap) && Badge(ns[i + 1].cap) != 0
      ==> ns[i + 1].firstBadged
  }

  /** A list that reaches a reply capability continues with reply capabilities only. */
  ghost predicate ReplyTail(ns: seq<Node>) {
    forall i :: 0 <= i < |ns| - 1 && ns[i].cap.ReplyCap? && ns[i].joined ==> ns[i + 1].cap.ReplyCap?
  }

  /** A revocable capability behind another one to its object carries a badge: the original comes first. */
  ghost predicate OriginalsFirst(ns: seq<Node>) {
    forall k :: 0 < k < |ns| && Same(ns, k - 1, k) && ns[k].revocable ==> Badge(ns[k].cap) != 0
  }

  ghost predicate MdbOk(ns: seq<Node>) {
    Grouped(ns) && BadgeMarked(ns) && ReplyTail(ns) && OriginalsFirst(ns)
  }

  /** The two-neighbour answer of is_final_cap. */
  predicate FinalByNeighbours(ns: seq<Node>, i: nat)
    requires i < |ns|
  {
    && !(i > 0 && ns[i - 1].joined && SameObjectAs(ns[i - 1].cap, ns[i].cap))
    && !(i + 1 < |ns| && ns[i].joined && SameObjectAs(ns[i].cap, ns[i + 1].cap))
  }

  /** is_final_cap looks at two neighbours and answers the global question. */
  lemma FinalIsGlobal(ns: seq<Node>, i: nat)
    requires Grouped(ns) && i < |ns|
    ensures FinalByNeighbours(ns, i) <==> forall k :: 0 <= k < |ns| && k != i ==> !Same(ns, i, k)
  {
    if i > 0 { SameObjectIsSameId(ns[i - 1].cap, ns[i].cap); }
    if i + 1 < |ns| { SameObjectIsSameId(ns[i].cap, ns[i + 1].cap); }
    if FinalByNeighbours(ns, i) {
      forall k | 0 <= k < |ns| && k != i
        ensures !Same(ns, i, k)
      {
        if k < i && Same(ns, k, i) { assert false; }
        if i < k && Same(ns, i, k) { assert false; }
      }
    } else if i > 0 && ns[i - 1].joined && SameObjectAs(ns[i - 1].cap, ns[i].cap) {
      assert Same(ns, i, i - 1);
    } else {
      assert Same(ns, i, i + 1);
    }
  }

  /** set_empty on the sequence: the predecessor's list continues where the removed node's did,
      and the successor inherits the first-badged mark. */
  function RemoveNode(ns: seq<Node>, i: nat): (r: seq<Node>)
    requires i < |ns|
  {
    seq(|ns| - 1, k requires 0 <= k < |ns| - 1 => NodeWithout(ns, i, k))
  }

  function NodeWithout(ns: seq<Node>, i: nat, k: nat): (n: Node)
    requires i < |ns| && k < |ns| - 1
  {
    if k + 1 == i then ns[k].(joined := ns[k].joined && ns[i].joined)
    else if k < i then ns[k]
    else if k == i && ns[i].joined then ns[k + 1].(firstBadged := ns[k + 1].firstBadged || ns[i].firstBadged)
    else ns[k + 1]
  }

  /** cte_insert and insert_new_cap on the sequence: directly after node p. */
  function InsertNode(ns: seq<Node>, p: nat, n: Node): (r: seq<Node>)
    requires p < |ns|
  {
    seq(|ns| + 1, k requires 0 <= k < |ns| + 1 =>
      if k < p then ns[k]
      else if k == p then ns[p].(joined := true)
      else if k == p + 1 then n.(joined := ns[p].joined)
      else ns[k - 1])
  }

  lemma RemoveGrouped(ns: seq<Node>, i: nat)
    requires i < |ns| && Grouped(ns)
    ensures Grouped(RemoveNode(ns, i))
  {
    var r := RemoveNode(ns, i);
    forall a, b | 0 <= a < b < |r| && Same(r, a, b)
      ensures Same(r, a, a + 1) && r[a].joined && Same(r, b - 1, b) && r[b - 1].joined
    {
      var oa := if a < i then a else a + 1;
      var ob := if b < i then b else b + 1;
      assert Same(ns, oa, ob);
      assert Same(ns, oa, oa + 1) && Same(ns, ob - 1, ob);
      if oa + 1 == i { assert Same(ns, i, ob); }
      if ob - 1 == i { assert Same(ns, oa, i); }
    }
  }

  lemma RemoveBadgeMarked(ns: seq<Node>, i: nat)
    requires i < |ns| && Grouped(ns) && BadgeMarked(ns)
    ensures BadgeMarked(RemoveNode(ns, i))
  {
    var r := RemoveNode(ns, i);
    forall a | 0 <= a < |r| - 1 && Same(r, a, a + 1)
      && Badge(r[a].cap) != Badge(r[a + 1].cap) && Badge(r[a + 1].cap) != 0
      ensures r[a + 1].firstBadged
    {
      if a + 1 == i {
        assert Same(ns, a, i + 1);
        assert Same(ns, a, i) && Same(ns, i, i + 1) && ns[i].joined;
      } else {
        var oa := if a < i then a else a + 1;
        assert Same(ns, oa, oa + 1);
        assert ns[oa + 1].firstBadged;
      }
    }
  }

  lemma RemoveReplyTail(ns: seq<Node>, i: nat)
    requires i < |ns| && ReplyTail(ns)
    ensures ReplyTail(RemoveNode(ns, i))
  {
    var r := RemoveNode(ns, i);
    forall a | 0 <= a < |r| - 1 && r[a].cap.ReplyCap? && r[a].joined
      ensures r[a + 1].cap.ReplyCap?
    {
      if a + 1 == i {
        assert ns[a].joined && ns[i].joined && ns[i].cap.ReplyCap?;
      } else {
        var oa := if a < i then a else a + 1;
        assert ns[oa].joined && ns[oa].cap.ReplyCap?;
      }
    }
  }

  lemma RemoveOriginalsFirst(ns: seq<Node>, i: nat)
    requires i < |ns| && Grouped(ns) && OriginalsFirst(ns)
    ensures OriginalsFirst(RemoveNode(ns, i))
  {
    var r := RemoveNode(ns, i);
    forall b | 0 < b < |r| && Same(r, b - 1, b) && r[b].revocable
      ensures Badge(r[b].cap) != 0
    {
      if b == i {
        assert Same(ns, b - 1, i + 1);
        assert Same(ns, i, i + 1);
      } else {
        var ob := if b < i then b else b + 1;
        assert Same(ns, ob - 1, ob);
      }
    }
  }

  lemma RemoveKeepsMdbOk(ns: seq<Node>, i: nat)
    requires i < |ns| && MdbOk(ns)
    ensures MdbOk(RemoveNode(ns, i))
  {
    RemoveGrouped(ns, i);
    RemoveBadgeMarked(ns, i);
    RemoveReplyTail(ns, i);
    RemoveOriginalsFirst(ns, i);
  }

  /** A node is inserted either as a copy of its predecessor's object or for an object that no
      node names yet, after a node that is alone with its own object. */
  ghost predicate InsertOk(ns: seq<Node>, p: nat, n: Node)
    requires p < |ns|
  {
    && (ns[p].cap.ReplyCap? <==> n.cap.ReplyCap?)
    && (SameObject(ns[p], n) ||
        ((forall k :: 0 <= k < |ns| ==> !SameObject(ns[k], n))
         && (forall k :: 0 <= k < |ns| && k != p ==> !Same(ns, p, k))))
    && (SameObject(ns[p], n) ==>
          && (Badge(n.cap) == Badge(ns[p].cap) || (Badge(ns[p].cap) == 0 && n.firstBadged))
          && (n.revocable ==> Badge(n.cap) != 0))
  }

  lemma InsertGrouped(ns: seq<Node>, p: nat, n: Node)
    requires p < |ns| && Grouped(ns) && InsertOk(ns, p, n)
    ensures Grouped(InsertNode(ns, p, n))
  {
    var r := InsertNode(ns, p, n);
    forall a, b | 0 <= a < b < |r| && Same(r, a, b)
      ensures Same(r, a, a + 1) && r[a].joined && Same(r, b - 1, b) && r[b - 1].joined
    {
      if a != p + 1 && b != p + 1 {
        var oa := if a <= p then a else a - 1;
        var ob := if b <= p then b else b - 1;
        assert Same(ns, oa, ob);
        assert Same(ns, oa, oa + 1) && Same(ns, ob - 1, ob);
        if ob == p + 1 { assert Same(ns, p, ob); }
      } else if a == p + 1 {
        assert SameObject(ns[b - 1], n);
        assert Same(ns, p, b - 1);
      } else {
        assert SameObject(ns[a], n);
        if a < p { assert Same(ns, a, p); }
      }
    }
  }

  lemma InsertOriginalsFirst(ns: seq<Node>, p: nat, n: Node)
    requires p < |ns| && OriginalsFirst(ns) && InsertOk(ns, p, n)
    ensures OriginalsFirst(InsertNode(ns, p, n))
  {
    var r := InsertNode(ns, p, n);
    forall b | 0 < b < |r| && Same(r, b - 1, b) && r[b].revocable
      ensures Badge(r[b].cap) != 0
    {
      if b == p + 2 {
        assert SameObject(n, ns[p + 1]) && SameObject(ns[p], n);
        assert Same(ns, p, p + 1);
      } else if b != p + 1 {
        var ob := if b <= p then b else b - 1;
        assert Same(ns, ob - 1, ob);
      }
    }
  }

  lemma InsertKeepsMdbOk(ns: seq<Node>, p: nat, n: Node)
    requires p < |ns| && MdbOk(ns) && InsertOk(ns, p, n)
    ensures MdbOk(InsertNode(ns, p, n))
  {
    InsertGrouped(ns, p, n);
    InsertOriginalsFirst(ns, p, n);
    var r := InsertNode(ns, p, n);
    forall a | 0 <= a < |r| - 1 && Same(r, a, a + 1)
      && Badge(r[a].cap) != Badge(r[a + 1].cap) && Badge(r[a + 1].cap) != 0
      ensures r[a + 1].firstBadged
    {
      if a == p {
      } else if a == p + 1 {
        assert SameObject(n, ns[p + 1]);
        assert SameObject(ns[p], n);
        assert Same(ns, p, p + 1);
      } else {
        var oa := if a < p then a else a - 1;
        assert Same(ns, oa, oa + 1);
      }
    }
    forall a | 0 <= a < |r| - 1 && r[a].cap.ReplyCap? && r[a].joined
      ensures r[a + 1].cap.ReplyCap?
    {
      if a == p + 1 {
        assert ns[p].joined;
      } else if a != p {
        var oa := if a < p then a else a - 1;
        assert ns[oa].joined;
      }
    }
  }

  /** Rewriting a capability in place without changing what it names. */
  lemma RewriteKeepsMdbOk(ns: seq<Node>, i: nat, c: Cap)
    requires i < |ns| && MdbOk(ns)
    requires ObjectOf(c) == ObjectOf(ns[i].cap)
    requires c.ReplyCap? <==> ns[i].cap.ReplyCap?
    requires Badge(c) == Badge(ns[i].cap)
    ensures MdbOk(ns[i := ns[i].(cap := c)])
  {
    var r := ns[i := ns[i].(cap := c)];
    forall a, b | 0 <= a < b < |r| && Same(r, a, b)
      ensures Same(r, a, a + 1) && r[a].joined && Same(r, b - 1, b) && r[b - 1].joined
    {
      assert Same(ns, a, b);
    }
    forall a | 0 <= a < |r| - 1 && Same(r, a, a + 1)
      && Badge(r[a].cap) != Badge(r[a + 1].cap) && Badge(r[a + 1].cap) != 0
      ensures r[a + 1].firstBadged
    {
      assert Same(ns, a, a + 1);
    }
    forall b | 0 < b < |r| && Same(r, b - 1, b) && r[b].revocable
      ensures Badge(r[b].cap) != 0
    {
      assert Same(ns, b - 1, b);
    }
  }

  /** A final capability may become one that names nothing (a zombie). */
  lemma RetireKeepsMdbOk(ns: seq<Node>, i: nat, c: Cap)
    requires i < |ns| && MdbOk(ns) && ObjectOf(c) == NoObject
    requires !c.ReplyCap? && !ns[i].cap.ReplyCap?
    requires forall k :: 0 <= k < |ns| && k != i ==> !Same(ns, i, k)
    ensures MdbOk(ns[i := ns[i].(cap := c)])
  {
    var r := ns[i := ns[i].(cap := c)];
    forall a, b | 0 <= a < b < |r| && Same(r, a, b)
      ensures Same(r, a, a + 1) && r[a].joined && Same(r, b - 1, b) && r[b - 1].joined
    {
      assert Same(ns, a, b);
      assert !Same(ns, i, a) && !Same(ns, i, b);
      assert Same(ns, a, a + 1) && Same(ns, b - 1, b);
    }
    forall a | 0 <= a < |r| - 1 && Same(r, a, a + 1)
      && Badge(r[a].cap) != Badge(r[a + 1].cap) && Badge(r[a + 1].cap) != 0
      ensures r[a + 1].firstBadged
    {
      assert Same(ns, a, a + 1);
    }
    forall b | 0 < b < |r| && Same(r, b - 1, b) && r[b].revocable
      ensures Badge(r[b].cap) != 0
    {
      assert Same(ns, b - 1, b);
    }
  }

  /** is_mdb_parent_of: whether node m is a parent of node n, given that n follows it. */
  predicate IsParent(m: Node, n: Node) {
    && m.revocable
    && SameRegionAs(m.cap, n.cap)
    && (Badgeable(m.cap) ==> m.cap.badge == 0 || (m.cap.badge == Badge(n.cap) && !n.firstBadged))
  }
}
