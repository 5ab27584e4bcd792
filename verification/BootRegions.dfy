/** Boot's table of reserved memory (kernel/src/boot/mm.rs): reserve_region and merge_regions add up addresses
    and keep a sorted table without touching neighbours. The fixed table with a count is a sequence. */
module BootRegions {

  const MAX_FREE := 16
  const NUM_RESERVED_REGIONS := 3
  const MAX_RESERVED := MAX_FREE + NUM_RESERVED_REGIONS

  datatype Region = Region(start: nat, end: nat)

  predicate InRegion(r: Region, x: nat) {
    r.start <= x < r.end
  }

  /** Some region of the list contains x. */
  predicate Has(rs: seq<Region>, x: nat) {
    exists i :: 0 <= i < |rs| && InRegion(rs[i], x)
  }

  /** Region i is not empty and ends below the next one, without touching it. */
  predicate GapAt(rs: seq<Region>, i: nat) {
    i < |rs| ==> rs[i].start < rs[i].end && (i + 1 < |rs| ==> rs[i].end < rs[i + 1].start)
  }

  /** The same, but the two may touch. */
  predicate OrderAt(rs: seq<Region>, i: nat) {
    i < |rs| ==> rs[i].start < rs[i].end && (i + 1 < |rs| ==> rs[i].end <= rs[i + 1].start)
  }

  /** Ascending, none empty, no two touching: the shortest list for its addresses. */
  ghost predicate Gapped(rs: seq<Region>) {
    forall i {:trigger GapAt(rs, i)} :: 0 <= i < |rs| ==> GapAt(rs, i)
  }

  ghost predicate Ordered(rs: seq<Region>) {
    forall i {:trigger OrderAt(rs, i)} :: 0 <= i < |rs| ==> OrderAt(rs, i)
  }

  /** No two regions before position k touch. */
  ghost predicate GappedTo(rs: seq<Region>, k: nat) {
    forall i {:trigger GapAt(rs, i)} :: 0 <= i && i + 1 < k ==> GapAt(rs, i)
  }

  lemma {:induction false} GappedPair(rs: seq<Region>, i: nat, j: nat)
    requires Gapped(rs) && i < j < |rs|
    ensures rs[i].start < rs[i].end < rs[j].start < rs[j].end
    decreases j - i
  {
    assert GapAt(rs, i) && GapAt(rs, j);
    if i + 1 < j { GappedPair(rs, i + 1, j); }
  }

  // ---- merge_regions ----

  /** The list with regions i - 1 and i replaced by one. */
  function Joined(rs: seq<Region>, i: nat): (r: seq<Region>)
    requires 1 <= i < |rs|
  {
    seq(|rs| - 1, k requires 0 <= k < |rs| - 1 =>
      if k < i - 1 then rs[k] else if k == i - 1 then Region(rs[i - 1].start, rs[i].end) else rs[k + 1])
  }

  lemma JoinKeeps(rs: seq<Region>, i: nat)
    requires 1 <= i < |rs| && Ordered(rs) && GappedTo(rs, i) && rs[i - 1].end == rs[i].start
    ensures Ordered(Joined(rs, i)) && GappedTo(Joined(rs, i), i)
  {
    var r := Joined(rs, i);
    forall k | 0 <= k < |r|
      ensures OrderAt(r, k)
    {
      assert OrderAt(rs, k) && OrderAt(rs, k + 1) && OrderAt(rs, i) && OrderAt(rs, i - 1);
    }
    forall k | 0 <= k && k + 1 < i
      ensures GapAt(r, k)
    {
      assert GapAt(rs, k) && OrderAt(rs, i) && OrderAt(rs, i - 1);
    }
  }

  lemma JoinHas(rs: seq<Region>, i: nat, x: nat)
    requires 1 <= i < |rs| && rs[i - 1].end == rs[i].start && rs[i - 1].start <= rs[i].start <= rs[i].end
    ensures Has(Joined(rs, i), x) <==> Has(rs, x)
  {
    var r := Joined(rs, i);
    if Has(r, x) {
      var k :| 0 <= k < |r| && InRegion(r[k], x);
      assert InRegion(rs[k], x) || InRegion(rs[k + 1], x);
    }
    if Has(rs, x) {
      var k :| 0 <= k < |rs| && InRegion(rs[k], x);
      assert InRegion(r[if k < i then k else k - 1], x);
    }
  }

  ghost predicate NonEmpty(rs: seq<Region>) {
    forall i :: 0 <= i < |rs| ==> rs[i].start < rs[i].end
  }

  predicate Meets(a: Region, b: Region) {
    a.start < b.end && b.start < a.end && a.start < a.end && b.start < b.end
  }

  ghost predicate Overlap(rs: seq<Region>, i: nat, j: nat) {
    i < |rs| && j < |rs| && i != j && Meets(rs[i], rs[j])
  }

  /** Two entries of the table share an address. */
  ghost predicate Overlapping(rs: seq<Region>) {
    exists i: nat, j: nat :: Overlap(rs, i, j)
  }

  ghost predicate MeetsTable(rs: seq<Region>, reg: Region) {
    exists i :: 0 <= i < |rs| && Meets(rs[i], reg)
  }

  lemma MeetsTableHas(rs: seq<Region>, reg: Region)
    requires NonEmpty(rs) && reg.start < reg.end
    ensures MeetsTable(rs, reg) <==> exists x: nat :: Has(rs, x) && InRegion(reg, x)
  {
    if MeetsTable(rs, reg) {
      var i :| 0 <= i < |rs| && Meets(rs[i], reg);
      var x := if rs[i].start < reg.start then reg.start else rs[i].start;
      assert InRegion(rs[i], x) && InRegion(reg, x);
    }
    if x: nat :| Has(rs, x) && InRegion(reg, x) {
      var i :| 0 <= i < |rs| && InRegion(rs[i], x);
      assert Meets(rs[i], reg);
    }
  }

  lemma GappedApart(rs: seq<Region>)
    requires Gapped(rs)
    ensures NonEmpty(rs) && !Overlapping(rs)
  {
    forall i | 0 <= i < |rs|
      ensures rs[i].start < rs[i].end
    {
      assert GapAt(rs, i);
    }
    if i: nat, j: nat :| Overlap(rs, i, j) {
      if i < j { GappedPair(rs, i, j); } else { GappedPair(rs, j, i); }
    }
  }

  /** Joining two regions that touch neither makes nor removes an overlap. */
  lemma JoinOverlap(rs: seq<Region>, i: nat)
    requires 1 <= i < |rs| && NonEmpty(rs) && rs[i - 1].end == rs[i].start
    ensures NonEmpty(Joined(rs, i)) && (Overlapping(Joined(rs, i)) <==> Overlapping(rs))
  {
    var r := Joined(rs, i);
    assert r[i - 1] == Region(rs[i - 1].start, rs[i].end);
    if k: nat, l: nat :| Overlap(r, k, l) { JoinedOverlap(rs, i, k, l); }
    if k: nat, l: nat :| Overlap(rs, k, l) {
      assert Overlap(r, if k < i then k else k - 1, if l < i then l else l - 1);
    }
  }

  lemma JoinedOverlap(rs: seq<Region>, i: nat, k: nat, l: nat)
    requires 1 <= i < |rs| && NonEmpty(rs) && rs[i - 1].end == rs[i].start && Overlap(Joined(rs, i), k, l)
    ensures Overlapping(rs)
  {
    var k0, l0 := if k < i then k else k + 1, if l < i then l else l + 1;
    if k == i - 1 {
      assert Overlap(rs, i - 1, l0) || Overlap(rs, i, l0);
    } else if l == i - 1 {
      assert Overlap(rs, k0, i - 1) || Overlap(rs, k0, i);
    } else {
      assert Overlap(rs, k0, l0);
    }
  }

  /** merge_regions, on any table: no address and no overlap comes or goes; an ascending table ends
      up without touching neighbours. */
  method MergeRegions(rs0: seq<Region>) returns (rs: seq<Region>)
    requires NonEmpty(rs0)
    ensures NonEmpty(rs) && |rs| <= |rs0| && (Overlapping(rs) <==> Overlapping(rs0))
    ensures forall x: nat :: Has(rs, x) <==> Has(rs0, x)
    ensures Ordered(rs0) ==> Gapped(rs)
  {
    rs := rs0;
    var i := 1;
    while i < |rs|
      invariant 1 <= i && NonEmpty(rs) && |rs| <= |rs0| && (Overlapping(rs) <==> Overlapping(rs0))
      invariant forall x: nat :: Has(rs, x) <==> Has(rs0, x)
      invariant Ordered(rs0) ==> Ordered(rs) && GappedTo(rs, i)
      decreases |rs| - i
    {
      if rs[i - 1].end == rs[i].start {
        JoinOverlap(rs, i);
        if Ordered(rs0) { JoinKeeps(rs, i); }
        forall x: nat
          ensures Has(Joined(rs, i), x) <==> Has(rs, x)
        {
          JoinHas(rs, i, x);
        }
        rs := Joined(rs, i);
      } else {
        if Ordered(rs0) { assert OrderAt(rs, i - 1) && GapAt(rs, i - 1); }
        i := i + 1;
      }
    }
    if Ordered(rs0) { AllGapped(rs); }
  }

  lemma AllGapped(rs: seq<Region>)
    requires Ordered(rs) && GappedTo(rs, |rs|)
    ensures Gapped(rs)
  {
    forall k | 0 <= k < |rs|
      ensures GapAt(rs, k)
    {
      assert OrderAt(rs, k);
    }
  }

  // ---- reserve_region ----

  predicate Touches(a: Region, b: Region) {
    a.start == b.end || a.end == b.start
  }

  function Inserted(rs: seq<Region>, i: nat, reg: Region): (r: seq<Region>)
    requires i <= |rs|
  {
    seq(|rs| + 1, k requires 0 <= k < |rs| + 1 => if k < i then rs[k] else if k == i then reg else rs[k - 1])
  }

  lemma InsertKeeps(rs: seq<Region>, i: nat, reg: Region)
    requires Gapped(rs) && i <= |rs| && reg.start < reg.end
    requires (i > 0 ==> rs[i - 1].start < reg.end && !Touches(rs[i - 1], reg)) && (i < |rs| ==> reg.end < rs[i].start)
    requires !MeetsTable(rs, reg)
    ensures Gapped(Inserted(rs, i, reg))
  {
    var r := Inserted(rs, i, reg);
    forall k | 0 <= k < |r|
      ensures GapAt(r, k)
    {
      if k < i { assert GapAt(rs, k) && !Meets(rs[k], reg); }
      else if k > i { assert GapAt(rs, k - 1); }
    }
  }

  lemma InsertHas(rs: seq<Region>, i: nat, reg: Region, x: nat)
    requires i <= |rs|
    ensures Has(Inserted(rs, i, reg), x) <==> Has(rs, x) || InRegion(reg, x)
  {
    var r := Inserted(rs, i, reg);
    if Has(r, x) {
      var k :| 0 <= k < |r| && InRegion(r[k], x);
      if k != i { assert InRegion(rs[if k < i then k else k - 1], x); }
    }
    if Has(rs, x) {
      var k :| 0 <= k < |rs| && InRegion(rs[k], x);
      assert InRegion(r[if k < i then k else k + 1], x);
    }
    if InRegion(reg, x) { assert InRegion(r[i], x); }
  }

  function Union(a: Region, reg: Region): (r: Region) {
    if a.start == reg.end then Region(reg.start, a.end) else Region(a.start, reg.end)
  }

  lemma GrowKeeps(rs: seq<Region>, i: nat, reg: Region)
    requires Gapped(rs) && i < |rs| && reg.start < reg.end && Touches(rs[i], reg)
    requires !MeetsTable(rs, reg)
    ensures Ordered(rs[i := Union(rs[i], reg)])
  {
    var r := rs[i := Union(rs[i], reg)];
    forall k | 0 <= k < |r|
      ensures OrderAt(r, k)
    {
      assert GapAt(rs, k) && GapAt(rs, i);
      if i > 0 { assert GapAt(rs, i - 1) && !Meets(rs[i - 1], reg); }
      if i + 1 < |rs| { assert GapAt(rs, i + 1) && !Meets(rs[i + 1], reg); }
    }
  }

  lemma GrowHas(rs: seq<Region>, i: nat, reg: Region, x: nat)
    requires i < |rs| && rs[i].start < rs[i].end && reg.start < reg.end && Touches(rs[i], reg)
    ensures Has(rs[i := Union(rs[i], reg)], x) <==> Has(rs, x) || InRegion(reg, x)
  {
    var r := rs[i := Union(rs[i], reg)];
    assert InRegion(r[i], x) <==> InRegion(rs[i], x) || InRegion(reg, x);
    if Has(r, x) {
      var k :| 0 <= k < |r| && InRegion(r[k], x);
      if k != i { assert InRegion(rs[k], x); }
    }
    if Has(rs, x) {
      var k :| 0 <= k < |rs| && InRegion(rs[k], x);
      if k != i { assert InRegion(r[k], x); }
    }
  }

  lemma GrowOverlap(rs: seq<Region>, i: nat, reg: Region)
    requires i < |rs| && NonEmpty(rs) && reg.start < reg.end && Touches(rs[i], reg)
    ensures NonEmpty(rs[i := Union(rs[i], reg)])
    ensures Overlapping(rs[i := Union(rs[i], reg)]) <==> Overlapping(rs) || MeetsTable(rs, reg)
  {
    var r := rs[i := Union(rs[i], reg)];
    if k: nat, l: nat :| Overlap(r, k, l) {
      assert Overlap(rs, k, l) || (k == i && Meets(rs[l], reg)) || (l == i && Meets(rs[k], reg));
    }
    if k: nat, l: nat :| Overlap(rs, k, l) {
      assert Overlap(r, k, l);
    }
    if MeetsTable(rs, reg) {
      var k: nat :| k < |rs| && Meets(rs[k], reg);
      assert Overlap(r, k, i);
    }
  }

  lemma InsertOverlap(rs: seq<Region>, i: nat, reg: Region)
    requires i <= |rs| && NonEmpty(rs) && reg.start < reg.end
    ensures NonEmpty(Inserted(rs, i, reg))
    ensures Overlapping(Inserted(rs, i, reg)) <==> Overlapping(rs) || MeetsTable(rs, reg)
  {
    var r := Inserted(rs, i, reg);
    if k: nat, l: nat :| Overlap(r, k, l) {
      var k0, l0 := if k < i then k else k - 1, if l < i then l else l - 1;
      assert (k != i && l != i && Overlap(rs, k0, l0)) || (k == i && Meets(rs[l0], reg))
        || (l == i && Meets(rs[k0], reg));
    }
    if k: nat, l: nat :| Overlap(rs, k, l) {
      assert Overlap(r, if k < i then k else k + 1, if l < i then l else l + 1);
    }
    if MeetsTable(rs, reg) {
      var k: nat :| k < |rs| && Meets(rs[k], reg);
      assert Overlap(r, if k < i then k else k + 1, i);
    }
  }

  /** Entry i is the first one at which the search stops, and it touches the region. */
  ghost predicate TouchedAt(rs: seq<Region>, reg: Region, i: nat) {
    i < |rs| && Touches(rs[i], reg) && forall j :: 0 <= j < i ==> rs[j].start <= reg.end
  }

  /** What reserving does to the table: the addresses are added, two entries overlap exactly if two did
      or the region meets one, and a gap-separated table stays one if the region is apart from it. */
  ghost predicate Reserved(rs: seq<Region>, reg: Region, out: seq<Region>) {
    && NonEmpty(out) && |out| <= |rs| + 1
    && (forall x: nat :: Has(out, x) <==> Has(rs, x) || InRegion(reg, x))
    && (Overlapping(out) <==> Overlapping(rs) || MeetsTable(rs, reg))
    && (Gapped(rs) && !MeetsTable(rs, reg) ==> Gapped(out))
  }

  /** reserve_region, on any table. It is refused exactly when the table is full and the search does
      not end at an entry that the region touches. */
  method ReserveRegion(rs: seq<Region>, reg: Region) returns (ok: bool, out: seq<Region>)
    requires |rs| < MAX_RESERVED && NonEmpty(rs) && reg.start <= reg.end
    ensures |out| < MAX_RESERVED
    ensures ok ==> Reserved(rs, reg, out)
    ensures !ok <==> reg.start < reg.end && |rs| == MAX_RESERVED - 1 && !exists i: nat :: TouchedAt(rs, reg, i)
    ensures !ok ==> out == rs
  {
    if reg.start == reg.end { return true, rs; }
    var i := 0;
    while i < |rs|
      invariant 0 <= i <= |rs|
      invariant forall j :: 0 <= j < i ==> rs[j].start < reg.end && !Touches(rs[j], reg)
    {
      if Touches(rs[i], reg) {
        assert TouchedAt(rs, reg, i);
        out := Grow(rs, i, reg);
        return true, out;
      }
      if rs[i].start > reg.end {
        if |rs| + 1 >= MAX_RESERVED {
          return false, rs;
        }
        out := PutIn(rs, i, reg);
        return true, out;
      }
      i := i + 1;
    }
    if i + 1 == MAX_RESERVED { return false, rs; }
    out := PutIn(rs, i, reg);
    return true, out;
  }

  /** The entry that touches the region takes it over, and then neighbours are merged. */
  method Grow(rs: seq<Region>, i: nat, reg: Region) returns (out: seq<Region>)
    requires NonEmpty(rs) && reg.start < reg.end && i < |rs| && Touches(rs[i], reg)
    ensures Reserved(rs, reg, out) && |out| <= |rs|
  {
    GrowOverlap(rs, i, reg);
    var grown := rs[i := Union(rs[i], reg)];
    if Gapped(rs) && !MeetsTable(rs, reg) { GrowKeeps(rs, i, reg); }
    out := MergeRegions(grown);
    forall x: nat
      ensures Has(out, x) <==> Has(rs, x) || InRegion(reg, x)
    {
      GrowHas(rs, i, reg, x);
    }
  }

  /** The shift of the table that makes room at position i. */
  method PutIn(rs: seq<Region>, i: nat, reg: Region) returns (out: seq<Region>)
    requires i <= |rs| && NonEmpty(rs) && reg.start < reg.end
    requires forall j :: 0 <= j < i ==> rs[j].start < reg.end && !Touches(rs[j], reg)
    requires i < |rs| ==> reg.end < rs[i].start
    ensures |out| == |rs| + 1 && Reserved(rs, reg, out)
  {
    InsertOverlap(rs, i, reg);
    if Gapped(rs) && !MeetsTable(rs, reg) { InsertKeeps(rs, i, reg); }
    forall x: nat
      ensures Has(Inserted(rs, i, reg), x) <==> Has(rs, x) || InRegion(reg, x)
    {
      InsertHas(rs, i, reg, x);
    }
    out := rs + [reg];
    var j := |rs|;
    while j > i
      invariant i <= j <= |rs| && |out| == |rs| + 1
      invariant forall k :: 0 <= k < j ==> out[k] == rs[k]
      invariant forall k :: j < k <= |rs| ==> out[k] == rs[k - 1]
    {
      out := out[j := out[j - 1]];
      j := j - 1;
    }
    out := out[i := reg];
    assert out == Inserted(rs, i, reg);
  }
}
