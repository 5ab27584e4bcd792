/** The untyped blocks of the booted system (kernel/src/boot/untyped.rs, kernel/src/boot/mm.rs,
    kernel/src/boot/root_server.rs): cut from the memory that is neither reserved nor the initial thread's, they lie
    apart from each other and from its objects. All addresses are those of the kernel window. */
module BootBlocks {
  import opened Config
  import opened Words
  import opened Caps
  import opened Memory
  import opened BootRegions
  import opened BootUntyped
  import opened BootSpace
  import R = RootServer

  const MAX_UNTYPEDS := 230

  // ---- provide_untyped_cap ----

  /** The capability for a block, which counts as used up until it is reset. */
  function BlockCap(b: Block, device: bool): (c: Cap)
    requires BlockOk(b)
  {
    UntypedCap(b.start, b.bits, MaxFreeIndex(b.bits), device)
  }

  lemma BlockCapOk(b: Block, device: bool)
    requires BlockOk(b)
    ensures var c := BlockCap(b, device); Base(c) == b.start && End(c) == b.end && RangeOk(c)
  {
    FullFreePtr(BlockCap(b, device));
  }

  predicate InWindow(window: Region, b: Block) {
    InRegion(window, b.start) && b.end >= 1 && InRegion(window, b.end - 1)
  }

  /** The capability lies in the region. */
  predicate Within(c: Cap, r: Region) {
    c.UntypedCap? && r.start <= c.ptr && c.ptr + Pow2(c.blockSize) <= r.end
  }

  /** Capabilities to untyped blocks, apart from each other, each in one of the regions. */
  ghost predicate Cut(us: seq<Cap>, rs: seq<Region>) {
    && (forall i :: 0 <= i < |us| ==> us[i].UntypedCap? && RangeOk(us[i]) && Held(us[i], rs))
    && (forall i, j :: 0 <= i < j < |us| ==> Disjoint(us[i], us[j]))
  }

  ghost predicate Held(c: Cap, rs: seq<Region>) {
    exists k :: 0 <= k < |rs| && Within(c, rs[k])
  }

  lemma HeldMore(c: Cap, rs: seq<Region>, r: Region)
    requires Held(c, rs) || Within(c, r)
    ensures Held(c, rs + [r])
  {
    if Held(c, rs) {
      var k :| 0 <= k < |rs| && Within(c, rs[k]);
      assert Within(c, (rs + [r])[k]);
    } else {
      assert Within(c, (rs + [r])[|rs|]);
    }
  }

  lemma CutMore(us: seq<Cap>, rs: seq<Region>, r: Region)
    requires Cut(us, rs)
    ensures Cut(us, rs + [r])
  {
    forall i | 0 <= i < |us|
      ensures Held(us[i], rs + [r])
    {
      HeldMore(us[i], rs, r);
    }
  }

  /** A region apart from those so far. */
  ghost predicate Fresh(rs: seq<Region>, r: Region) {
    forall k :: 0 <= k < |rs| ==> rs[k].end <= r.start || r.end <= rs[k].start
  }

  lemma FreshDisjoint(u: Cap, c: Cap, rs: seq<Region>, r: Region)
    requires Fresh(rs, r) && Held(u, rs) && Within(c, r)
    ensures Disjoint(u, c)
  {
    var k :| 0 <= k < |rs| && Within(u, rs[k]);
  }

  /** What has been provided of the first i blocks of region r, after the capabilities us0. */
  ghost predicate Provided(us0: seq<Cap>, us: seq<Cap>, rs: seq<Region>, r: Region, bs: seq<Block>, i: nat) {
    && Cut(us, rs + [r]) && |us| <= MAX_UNTYPEDS && us0 <= us && i <= |bs| && (i == 0 ==> us == us0)
    && forall k :: |us0| <= k < |us| ==>
      Within(us[k], r) && (i > 0 ==> us[k].ptr + Pow2(us[k].blockSize) <= bs[i - 1].end)
  }

  /** All of them, one capability each. */
  ghost predicate AllProvided(us0: seq<Cap>, us: seq<Cap>, bs: seq<Block>, device: bool, i: nat)
    requires i <= |bs| && forall k :: 0 <= k < |bs| ==> BlockOk(bs[k])
  {
    |us| == |us0| + i && forall k :: 0 <= k < i ==> us[|us0| + k] == BlockCap(bs[k], device)
  }

  lemma NextProvided(us0: seq<Cap>, us: seq<Cap>, bs: seq<Block>, device: bool, i: nat)
    requires i < |bs| && (forall k :: 0 <= k < |bs| ==> BlockOk(bs[k])) && AllProvided(us0, us, bs, device, i)
    ensures AllProvided(us0, us + [BlockCap(bs[i], device)], bs, device, i + 1)
  {}

  lemma NewBlock(us0: seq<Cap>, us: seq<Cap>, rs: seq<Region>, r: Region, bs: seq<Block>, i: nat, c: Cap)
    requires BlocksOk(bs, r.end) && i < |bs| && r.start <= bs[i].start && Fresh(rs, r) && Cut(us0, rs)
    requires Provided(us0, us, rs, r, bs, i) && |us| < MAX_UNTYPEDS
    requires c.UntypedCap? && c.ptr == bs[i].start && c.blockSize == bs[i].bits && RangeOk(c)
    ensures Provided(us0, us + [c], rs, r, bs, i + 1)
  {
    HeldMore(c, rs, r);
    forall k | 0 <= k < |us|
      ensures Disjoint(us[k], c)
    {
      if k < |us0| { FreshDisjoint(us[k], c, rs, r); } else { assert bs[i - 1].end <= bs[i].start; }
    }
    NewEnds(us0, us, bs, i);
  }

  lemma NewEnds(us0: seq<Cap>, us: seq<Cap>, bs: seq<Block>, i: nat)
    requires i < |bs| && (forall j, k :: 0 <= j < k < |bs| ==> bs[j].end <= bs[k].start) && BlockOk(bs[i]) && us0 <= us
    requires (i == 0 ==> us == us0)
    requires forall k :: |us0| <= k < |us| ==>
      us[k].UntypedCap? && (i > 0 ==> us[k].ptr + Pow2(us[k].blockSize) <= bs[i - 1].end)
    ensures forall k :: |us0| <= k < |us| ==> us[k].ptr + Pow2(us[k].blockSize) <= bs[i].end
  {}

  /** The blocks of one region, up to the first outside the window; without room in the boot information a block is left
      out. */
  method ProvideBlocks(bs: seq<Block>, device: bool, window: Region, us0: seq<Cap>, ghost rs: seq<Region>, r: Region)
    returns (ok: bool, us: seq<Cap>)
    requires BlocksOk(bs, r.end) && (forall i :: 0 <= i < |bs| ==> r.start <= bs[i].start) && Fresh(rs, r)
    requires Cut(us0, rs) && |us0| <= MAX_UNTYPEDS
    ensures Cut(us, rs + [r]) && |us| <= MAX_UNTYPEDS
    ensures ok <==> device || forall i :: 0 <= i < |bs| ==> InWindow(window, bs[i])
    ensures ok && |us0| + |bs| <= MAX_UNTYPEDS ==> us0 <= us && AllProvided(us0, us, bs, device, |bs|)
  {
    us := us0;
    CutMore(us, rs, r);
    for i := 0 to |bs|
      invariant Provided(us0, us, rs, r, bs, i)
      invariant device || forall k :: 0 <= k < i ==> InWindow(window, bs[k])
      invariant |us0| + |bs| <= MAX_UNTYPEDS ==> AllProvided(us0, us, bs, device, i)
    {
      if !device && !InWindow(window, bs[i]) { return false, us; }
      if |us| < MAX_UNTYPEDS {
        BlockCapOk(bs[i], device);
        NewBlock(us0, us, rs, r, bs, i, BlockCap(bs[i], device));
        if |us0| + |bs| <= MAX_UNTYPEDS { NextProvided(us0, us, bs, device, i); }
        us := us + [BlockCap(bs[i], device)];
      } else {
        NewEnds(us0, us, bs, i);
      }
    }
    return true, us;
  }

  /** create_untypeds_for_region keeps to the region. */
  lemma BlocksInside(bs: seq<Block>, start: nat, end: nat)
    requires BlocksOk(bs, end) && forall x: nat :: BootUntyped.Covered(bs, x) <==> WholeUnit(start, end, x)
    ensures forall i :: 0 <= i < |bs| ==> start <= bs[i].start
  {
    forall i | 0 <= i < |bs|
      ensures start <= bs[i].start
    {
      var b := bs[i];
      assert BlockOk(b) && InBlock(b, b.start);
      assert BootUntyped.Covered(bs, b.start);
      UnitsIn(b.start, b.bits);
      FloorUnique(b.start, b.start);
    }
  }

  method CutRegion(r: Region, device: bool, window: Region, us0: seq<Cap>, ghost rs: seq<Region>)
    returns (ok: bool, us: seq<Cap>)
    requires r.start <= r.end && Fresh(rs, r) && Cut(us0, rs) && |us0| <= MAX_UNTYPEDS
    ensures Cut(us, rs + [r]) && |us| <= MAX_UNTYPEDS
  {
    var bs := CreateUntypedsForRegion(r.start, r.end);
    BlocksInside(bs, r.start, r.end);
    ok, us := ProvideBlocks(bs, device, window, us0, rs, r);
  }

  // ---- create_untypeds ----

  predicate Avoids(r: Region, area: Region) {
    r.end <= area.start || area.end <= r.start
  }

  /** Regions that keep clear of every entry of the table. */
  ghost predicate Gaps(rs: seq<Region>, tab: seq<Region>) {
    forall k, q :: 0 <= k < |rs| && 0 <= q < |tab| ==> Avoids(rs[k], tab[q])
  }

  ghost predicate Above(rs: seq<Region>, low: nat) {
    forall k :: 0 <= k < |rs| ==> low <= rs[k].start
  }

  ghost predicate Below(rs: seq<Region>, high: nat) {
    forall k :: 0 <= k < |rs| ==> rs[k].end <= high
  }

  lemma GapAvoids(tab: seq<Region>, i: nat, start: nat)
    requires Gapped(tab) && i <= |tab| && (forall q :: 0 <= q < i ==> tab[q].end <= start)
    ensures i < |tab| ==> forall q :: 0 <= q < |tab| ==> Avoids(Region(start, tab[i].start), tab[q])
    ensures i < |tab| ==> forall q :: 0 <= q <= i ==> tab[q].end <= tab[i].end
  {
    if i < |tab| {
      forall q | 0 <= q < |tab|
        ensures Avoids(Region(start, tab[i].start), tab[q]) && (q <= i ==> tab[q].end <= tab[i].end)
      {
        if q > i { GappedPair(tab, i, q); } else if q < i { GappedPair(tab, q, i); }
      }
    }
  }

  /** The device memory: what lies between the regions of the table, and above it. */
  method DeviceBlocks(tab: seq<Region>, base: nat, top: nat, window: Region)
    returns (ok: bool, us: seq<Cap>, ghost rs: seq<Region>)
    requires Gapped(tab) && (tab != [] ==> base <= tab[0].start)
    ensures Cut(us, rs) && |us| <= MAX_UNTYPEDS && Gaps(rs, tab) && Above(rs, base)
  {
    us, rs := [], [];
    var start: nat := base;
    for i := 0 to |tab|
      invariant Cut(us, rs) && |us| <= MAX_UNTYPEDS && Gaps(rs, tab) && Above(rs, base) && Below(rs, start)
      invariant base <= start
      invariant forall q :: 0 <= q < i ==> tab[q].end <= start
      invariant i < |tab| ==> start <= tab[i].start
    {
      GapAvoids(tab, i, start);
      assert GapAt(tab, i);
      ok, us := CutRegion(Region(start, tab[i].start), true, window, us, rs);
      rs := rs + [Region(start, tab[i].start)];
      if !ok { return; }
      start := tab[i].end;
    }
    ok := true;
    if start < top {
      ok, us := CutRegion(Region(start, top), true, window, us, rs);
      rs := rs + [Region(start, top)];
    }
  }

  /** Each region of free memory lies in a region of the table, and apart from the others and from the reused memory. */
  ghost predicate FreeOk(free: seq<Region>, tab: seq<Region>, reuse: Region) {
    && (forall i :: 0 <= i < |free| ==> free[i].start <= free[i].end && Avoids(free[i], reuse) && InTable(free[i], tab))
    && forall i, j :: 0 <= i < j < |free| ==> Avoids(free[i], free[j])
  }

  ghost predicate InTable(r: Region, tab: seq<Region>) {
    r == Region(0, 0) || exists q :: 0 <= q < |tab| && tab[q].start <= r.start && r.end <= tab[q].end
  }

  lemma FreshInTable(rs: seq<Region>, tab: seq<Region>, r: Region)
    requires Gaps(rs, tab) && InTable(r, tab)
    ensures Fresh(rs, r)
  {
    if exists q :: 0 <= q < |tab| && tab[q].start <= r.start && r.end <= tab[q].end {
      var q :| 0 <= q < |tab| && tab[q].start <= r.start && r.end <= tab[q].end;
      forall k | 0 <= k < |rs|
        ensures rs[k].end <= r.start || r.end <= rs[k].start
      {
        assert Avoids(rs[k], tab[q]);
      }
    }
  }

  /** create_untypeds: device memory, the memory of the boot code, and the free memory. A failure in the free memory is
      ignored. */
  method CreateUntypeds(tab: seq<Region>, base: nat, top: nat, reuse: Region, free: seq<Region>, window: Region)
    returns (ok: bool, us: seq<Cap>, ghost rs: seq<Region>)
    requires Gapped(tab) && (tab != [] ==> base <= tab[0].start) && reuse.start < reuse.end && InTable(reuse, tab)
    requires FreeOk(free, tab, reuse)
    ensures Cut(us, rs) && |us| <= MAX_UNTYPEDS
    ensures forall k :: 0 <= k < |rs| ==>
      (forall q :: 0 <= q < |tab| ==> Avoids(rs[k], tab[q])) || rs[k] == reuse || rs[k] in free
    ensures forall k :: 0 <= k < |rs| ==> base <= rs[k].start || rs[k] == reuse || rs[k] in free
  {
    ok, us, rs := DeviceBlocks(tab, base, top, window);
    if !ok { return; }
    ghost var gaps := rs;
    FreshInTable(gaps, tab, reuse);
    ok, us := CutRegion(reuse, false, window, us, rs);
    rs := gaps + [reuse];
    if !ok { return; }
    for i := 0 to |free|
      invariant Cut(us, rs) && |us| <= MAX_UNTYPEDS && rs == gaps + [reuse] + free[..i]
    {
      FreeFresh(gaps, tab, reuse, free, i);
      var inside;
      inside, us := CutRegion(free[i], false, window, us, rs);
      rs := rs + [free[i]];
      assert gaps + [reuse] + free[..i] + [free[i]] == gaps + [reuse] + free[..i + 1];
    }
  }

  lemma FreeFresh(gaps: seq<Region>, tab: seq<Region>, reuse: Region, free: seq<Region>, i: nat)
    requires Gaps(gaps, tab) && FreeOk(free, tab, reuse) && i < |free|
    ensures Fresh(gaps + [reuse] + free[..i], free[i])
  {
    FreshInTable(gaps, tab, free[i]);
    var rs := gaps + [reuse] + free[..i];
    forall k | 0 <= k < |rs|
      ensures rs[k].end <= free[i].start || free[i].end <= rs[k].start
    {
      if k < |gaps| { assert rs[k] == gaps[k]; }
      else if k == |gaps| { assert rs[k] == reuse; }
      else { assert rs[k] == free[k - |gaps| - 1]; }
    }
  }

  // ---- the memory map that boot leaves ----

  /** Blocks that keep clear of the memory of the initial thread's objects. */
  lemma BlocksMeetBootMemory(us: seq<Cap>, rs: seq<Region>, area: Region, cnode: nat, tcb: nat)
    requires Cut(us, rs) && |us| <= MAX_UNTYPEDS
    requires forall k :: 0 <= k < |rs| ==> Avoids(rs[k], area) && (rs[k].start < rs[k].end ==> rs[k].start > 0)
    requires cnode > 0 && IsAligned(cnode, R.CNODE_BITS) && tcb > 0 && tcb % 1024 == 0
    requires area.start <= cnode && cnode + Pow2(R.CNODE_BITS) <= tcb && tcb + 1024 <= area.end
    ensures BootMemory(cnode, R.CNODE_BITS - SLOT_BITS, tcb, us)
  {
    var radix := R.CNODE_BITS - SLOT_BITS;
    Powers10();
    TcbBase(tcb);
    forall i | 0 <= i < |us|
      ensures UntypedOk(cnode, radix, tcb, us[i])
    {
      assert Held(us[i], rs);
      var k :| 0 <= k < |rs| && Within(us[i], rs[k]);
    }
  }

  lemma Powers10()
    ensures Pow2(10) == 1024 && Pow2(13) == 8192
  {
    assert Pow2(5) == 32;
    Pow2Add(5, 5);
    Pow2Add(10, 3);
  }

  /** A piece lies where the pieces lie, aligned, and before every later one. */
  lemma {:induction false} TilesMember(ps: seq<R.Piece>, start: nat, end: nat, i: nat)
    requires R.Tiles(ps, start, end) && i < |ps|
    ensures IsAligned(ps[i].base, ps[i].bits) && start <= ps[i].base && ps[i].base + ps[i].n * Pow2(ps[i].bits) <= end
    decreases |ps|
  {
    TilesGrow(ps[1..], start + ps[0].n * Pow2(ps[0].bits), end);
    if i > 0 { TilesMember(ps[1..], start + ps[0].n * Pow2(ps[0].bits), end, i - 1); }
  }

  lemma {:induction false} TilesGrow(ps: seq<R.Piece>, start: nat, end: nat)
    requires R.Tiles(ps, start, end)
    ensures start <= end
    decreases |ps|
  {
    if ps != [] { TilesGrow(ps[1..], start + ps[0].n * Pow2(ps[0].bits), end); }
  }

  lemma {:induction false} TilesOrder(ps: seq<R.Piece>, start: nat, end: nat, i: nat, j: nat)
    requires R.Tiles(ps, start, end) && i < j < |ps|
    ensures ps[i].base + ps[i].n * Pow2(ps[i].bits) <= ps[j].base
    decreases |ps|
  {
    var next := start + ps[0].n * Pow2(ps[0].bits);
    if i == 0 { TilesMember(ps[1..], next, end, j - 1); } else { TilesOrder(ps[1..], next, end, i - 1, j - 1); }
  }
}
