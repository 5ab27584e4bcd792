/** The memory map that boot leaves (kernel/src/boot/mm.rs, kernel/src/boot/root_server.rs,
    kernel/src/boot/untyped.rs): from the lists of available and reserved memory to the initial thread's objects and
    the untyped blocks, which all lie apart. */
module BootMap {
  import opened Config
  import opened Words
  import opened Caps
  import opened BootRegions
  import opened BootFreemem
  import opened BootSpace
  import opened BootBlocks
  import R = RootServer

  // ---- regions and the table of reserved memory ----

  /** A region without a gap lies in one entry of a table whose entries do not touch. */
  lemma InOneEntry(r: Region, tab: seq<Region>)
    requires Gapped(tab) && r.start < r.end && forall x: nat :: InRegion(r, x) ==> Has(tab, x)
    ensures InTable(r, tab)
  {
    assert Has(tab, r.start);
    var q :| 0 <= q < |tab| && InRegion(tab[q], r.start);
    if tab[q].end < r.end {
      assert Has(tab, tab[q].end);
      var p :| 0 <= p < |tab| && InRegion(tab[p], tab[q].end);
      if p < q { GappedPair(tab, p, q); } else if q < p { GappedPair(tab, q, p); }
    }
  }

  /** Regions without a common address keep clear of each other. */
  lemma NoCommonAddress(a: Region, b: Region)
    requires a.start < a.end && b.start < b.end && forall x: nat :: !(InRegion(a, x) && InRegion(b, x))
    ensures Avoids(a, b)
  {
    assert !(InRegion(a, a.start) && InRegion(b, a.start)) && !(InRegion(a, b.start) && InRegion(b, b.start));
  }

  lemma FreePair(rs: seq<Region>, i: nat, j: nat)
    requires NonEmpty(rs) && NoneMeet(rs) && i < |rs| && j < |rs| && i != j
    ensures Avoids(rs[i], rs[j])
  {
    assert !Meets(rs[if i < j then i else j], rs[if i < j then j else i]);
  }

  /** What is known of the free regions after rust_init_freemem. */
  ghost predicate FreeMap(free: seq<Region>, reserved: seq<Region>, tab: seq<Region>) {
    && NonEmpty(free) && NoneMeet(free) && Gapped(tab)
    && (forall x: nat :: Has(tab, x) <==> Has(free, x) || Has(reserved, x))
    && (forall x: nat :: Has(free, x) ==> !Has(reserved, x))
  }

  lemma FreeInTable(free: seq<Region>, reserved: seq<Region>, tab: seq<Region>, i: nat)
    requires FreeMap(free, reserved, tab) && i < |free|
    ensures free[i].start < free[i].end
    ensures exists q :: 0 <= q < |tab| && tab[q].start <= free[i].start && free[i].end <= tab[q].end
  {
    forall x: nat | InRegion(free[i], x)
      ensures Has(tab, x)
    {
      assert Has(free, x);
    }
    InOneEntry(free[i], tab);
  }

  lemma FreeAvoids(free: seq<Region>, reserved: seq<Region>, tab: seq<Region>, reuse: Region, i: nat)
    requires FreeMap(free, reserved, tab) && i < |free| && reuse.start < reuse.end
    requires forall x: nat :: InRegion(reuse, x) ==> Has(reserved, x)
    ensures Avoids(free[i], reuse)
  {
    forall x: nat
      ensures !(InRegion(free[i], x) && InRegion(reuse, x))
    {
      assert InRegion(free[i], x) ==> Has(free, x);
    }
    NoCommonAddress(free[i], reuse);
  }

  // ---- after the initial thread's memory has been taken ----

  /** Region k of the carved table comes from region Origin of the free ones. */
  function Origin(k: nat, j: nat): (o: nat) {
    if k <= j then k else k - 1
  }

  lemma CarvedPart(free: seq<Region>, j: nat, start: nat, size: nat, k: nat)
    requires NonEmpty(free) && NoneMeet(free) && j < |free| && free[j].start <= start && start + size <= free[j].end
    requires k <= |free|
    ensures
      var r, o := R.Carved(free, j, start, size)[k], free[Origin(k, j)];
      o.start <= r.start <= r.end <= o.end && Avoids(r, Region(start, start + size)) && o.start < o.end
  {
    if Origin(k, j) != j { FreePair(free, Origin(k, j), j); }
  }

  lemma CarvedApart(free: seq<Region>, j: nat, start: nat, size: nat, k: nat, m: nat)
    requires NonEmpty(free) && NoneMeet(free) && j < |free| && free[j].start <= start && start + size <= free[j].end
    requires k < m <= |free|
    ensures Avoids(R.Carved(free, j, start, size)[k], R.Carved(free, j, start, size)[m])
  {
    CarvedPart(free, j, start, size, k);
    CarvedPart(free, j, start, size, m);
    if Origin(k, j) < Origin(m, j) { FreePair(free, Origin(k, j), Origin(m, j)); }
  }

  lemma CarvedOk(free: seq<Region>, reserved: seq<Region>, tab: seq<Region>, reuse: Region, j: nat, start: nat,
      size: nat, table: seq<Region>)
    requires FreeMap(free, reserved, tab) && reuse.start < reuse.end
    requires forall x: nat :: InRegion(reuse, x) ==> Has(reserved, x)
    requires j < |free| && free[j].start <= start && start + size <= free[j].end
    requires R.Filled(table, R.Carved(free, j, start, size))
    ensures FreeOk(table, tab, reuse)
    ensures forall k :: 0 <= k < |table| ==> table[k] == Region(0, 0) || Avoids(table[k], Region(start, start + size))
  {
    forall k | 0 <= k < |table|
      ensures table[k].start <= table[k].end && Avoids(table[k], reuse) && InTable(table[k], tab)
      ensures table[k] == Region(0, 0) || Avoids(table[k], Region(start, start + size))
    {
      if k <= |free| {
        CarvedPart(free, j, start, size, k);
        FreeInTable(free, reserved, tab, Origin(k, j));
        FreeAvoids(free, reserved, tab, reuse, Origin(k, j));
      }
    }
    forall k, m | 0 <= k < m < |table|
      ensures Avoids(table[k], table[m])
    {
      if m <= |free| { CarvedApart(free, j, start, size, k, m); }
    }
  }

  /** The regions that untyped blocks are cut from keep clear of the initial thread's memory. */
  lemma RegionsClear(rs: seq<Region>, tab: seq<Region>, reuse: Region, table: seq<Region>, area: Region, base: nat)
    requires forall k :: 0 <= k < |rs| ==>
      (forall q :: 0 <= q < |tab| ==> Avoids(rs[k], tab[q])) || rs[k] == reuse || rs[k] in table
    requires forall k :: 0 <= k < |rs| ==> base <= rs[k].start || rs[k] == reuse || rs[k] in table
    requires exists q :: 0 <= q < |tab| && tab[q].start <= area.start && area.end <= tab[q].end
    requires Avoids(reuse, area) && base > 0 && reuse.start > 0 && area.start > 0
    requires forall k :: 0 <= k < |table| ==> table[k] == Region(0, 0) || (Avoids(table[k], area) && table[k].start > 0)
    ensures forall k :: 0 <= k < |rs| ==> Avoids(rs[k], area) && (rs[k].start < rs[k].end ==> rs[k].start > 0)
  {
    var q :| 0 <= q < |tab| && tab[q].start <= area.start && area.end <= tab[q].end;
    forall k | 0 <= k < |rs|
      ensures Avoids(rs[k], area) && (rs[k].start < rs[k].end ==> rs[k].start > 0)
    {
      if rs[k] != reuse && rs[k] !in table { assert Avoids(rs[k], tab[q]); }
    }
  }

  // ---- boot, from the lists of memory to the blocks ----

  /** Where the initial thread's CNode and TCB are in its memory. */
  lemma ServerPlaces(server: R.Server, n: nat, extraBits: nat, start: nat, end: nat)
    requires R.Tiles(server.Pieces(n, extraBits), start, end) && start > 0
    ensures IsAligned(server.cnode, R.CNODE_BITS) && server.tcb % 1024 == 0 && server.cnode > 0 && server.tcb > 0
    ensures start <= server.cnode && server.cnode + Pow2(R.CNODE_BITS) <= server.tcb && server.tcb + 1024 <= end
  {
    var ps := server.Pieces(n, extraBits);
    var i, j := if extraBits >= R.CNODE_BITS then 1 else 0, |ps| - 1;
    PiecePlaces(server, n, extraBits);
    TwoPieces(ps, start, end, i, j);
    Powers10();
  }

  lemma PiecePlaces(server: R.Server, n: nat, extraBits: nat)
    ensures
      var ps := server.Pieces(n, extraBits);
      var i, j := if extraBits >= R.CNODE_BITS then 1 else 0, |ps| - 1;
      i < j && ps[i] == R.Piece(server.cnode, R.CNODE_BITS, 1) && ps[j] == R.Piece(server.tcb, TCB_BITS, 1)
  {}

  /** Two single pieces of a tiling, one behind the other. */
  lemma TwoPieces(ps: seq<R.Piece>, start: nat, end: nat, i: nat, j: nat)
    requires R.Tiles(ps, start, end) && i < j < |ps| && ps[i].n == 1 && ps[j].n == 1
    ensures IsAligned(ps[i].base, ps[i].bits) && IsAligned(ps[j].base, ps[j].bits) && start <= ps[i].base
    ensures ps[i].base + Pow2(ps[i].bits) <= ps[j].base && ps[j].base + Pow2(ps[j].bits) <= end
  {
    TilesMember(ps, start, end, i);
    TilesMember(ps, start, end, j);
    TilesOrder(ps, start, end, i, j);
  }

  /** All addresses in the lists lie at or above base. */
  ghost predicate AllAbove(rs: seq<Region>, base: nat) {
    forall x: nat :: Has(rs, x) ==> x >= base
  }

  lemma FirstAbove(tab: seq<Region>, base: nat, i: nat)
    requires AllAbove(tab, base) && i < |tab| && tab[i].start < tab[i].end
    ensures base <= tab[i].start
  {
    assert InRegion(tab[i], tab[i].start);
    assert Has(tab, tab[i].start);
  }

  /** The initial thread's memory has been taken out of free region j. */
  ghost predicate Placed(free: seq<Region>, table: seq<Region>, j: nat, area: Region, cnode: nat, tcb: nat) {
    && j < |free| && free[j].start <= area.start <= area.end <= free[j].end
    && R.Filled(table, R.Carved(free, j, area.start, area.end - area.start))
    && IsAligned(cnode, R.CNODE_BITS) && tcb % 1024 == 0 && cnode > 0 && tcb > 0
    && area.start <= cnode && cnode + Pow2(R.CNODE_BITS) <= tcb && tcb + 1024 <= area.end
  }

  /** root_server_mem_init */
  method PlaceServer(free: seq<Region>, v: Region, extraSize: nat)
    returns (found: bool, server: R.Server, table: seq<Region>, ghost j: nat, ghost area: Region)
    requires |free| < MAX_FREE && NonEmpty(free) && v.start < v.end && forall k :: 0 <= k < |free| ==> free[k].start > 0
    ensures fresh(server) && (found ==> Placed(free, table, j, area, server.cnode, server.tcb))
  {
    server := new R.Server();
    var freemem := new Region[MAX_FREE](i requires 0 <= i => if i < |free| then free[i] else Region(0, 0));
    var start;
    found, start, j := server.MemInit(freemem, v, extraSize, free);
    table := freemem[..];
    area := Region(start, start + R.TotalSize(R.PagingTables(v), R.ExtraBiBits(extraSize)));
    if found { PlacedFrom(server, free, table, start, j, R.PagingTables(v), R.ExtraBiBits(extraSize)); }
  }

  lemma PlacedFrom(server: R.Server, free: seq<Region>, table: seq<Region>, start: nat, j: nat, n: nat, extraBits: nat)
    requires server.Initialised(free, table, true, start, j, n, extraBits)
    requires forall k :: 0 <= k < |free| ==> free[k].start > 0
    ensures Placed(free, table, j, Region(start, start + R.TotalSize(n, extraBits)), server.cnode, server.tcb)
  {
    R.CarvedStarts(free, table, j, start, R.TotalSize(n, extraBits), R.MaxBits(extraBits));
    ServerPlaces(server, n, extraBits, start, start + R.TotalSize(n, extraBits));
  }

  /** root_server_mem_init and create_untypeds on free memory that is as it should be. */
  method LayOut(free: seq<Region>, ghost reserved: seq<Region>, tab: seq<Region>, reuse: Region, v: Region,
      extraSize: nat, base: nat, deviceTop: nat, window: Region)
    returns (ok: bool, server: R.Server, us: seq<Cap>)
    requires FreeMap(free, reserved, tab) && |free| < MAX_FREE && (tab != [] ==> base <= tab[0].start)
    requires v.start < v.end
    requires AllAbove(reserved, base) && base > 0 && forall k :: 0 <= k < |free| ==> free[k].start >= base
    requires reuse.start < reuse.end && forall x: nat :: InRegion(reuse, x) ==> Has(reserved, x)
    ensures fresh(server) && (ok ==> BootMemory(server.cnode, R.CNODE_BITS - SLOT_BITS, server.tcb, us))
  {
    var table;
    ghost var j, area, rs;
    us := [];
    ok, server, table, j, area := PlaceServer(free, v, extraSize);
    if !ok { return; }
    CarvedOk(free, reserved, tab, reuse, j, area.start, area.end - area.start, table);
    ReuseInTable(free, reserved, tab, reuse);
    ok, us, rs := CreateUntypeds(tab, base, deviceTop, reuse, table, window);
    MapHolds(free, reserved, tab, reuse, j, area.start, area.end - area.start, table, rs, base);
    BlocksMeetBootMemory(us, rs, area, server.cnode, server.tcb);
  }

  lemma ReuseInTable(free: seq<Region>, reserved: seq<Region>, tab: seq<Region>, reuse: Region)
    requires FreeMap(free, reserved, tab) && reuse.start < reuse.end
    requires forall x: nat :: InRegion(reuse, x) ==> Has(reserved, x)
    ensures InTable(reuse, tab)
  {
    InOneEntry(reuse, tab);
  }

  /** rust_init_freemem, root_server_mem_init and create_untypeds: if all of them succeed, no reserved region spills and
      the available regions do not overlap, the CNode, the TCB and the untyped blocks are the memory that the booted
      capability space starts from. */
  method PrepareMemory(available: seq<Region>, memTop: nat, reserved: seq<Region>, reuse: Region, v: Region,
      extraSize: nat, base: nat, deviceTop: nat, window: Region)
    returns (ok: bool, server: R.Server, us: seq<Cap>)
    requires NoneMeet(available) && |reserved| <= NUM_RESERVED_REGIONS && NoBad(Clamped(available, memTop), reserved)
    requires base > 0 && AllAbove(available, base) && AllAbove(reserved, base) && v.start < v.end
    requires reuse.start < reuse.end && forall x: nat :: InRegion(reuse, x) ==> Has(reserved, x)
    ensures fresh(server) && (ok ==> BootMemory(server.cnode, R.CNODE_BITS - SLOT_BITS, server.tcb, us))
  {
    var outcome, free, tab := InitFreemem(available, memTop, reserved);
    if outcome != Ready {
      server := new R.Server();
      return false, server, [];
    }
    FreeAbove(free, available, memTop, reserved, tab, base);
    ok, server, us := LayOut(free, reserved, tab, reuse, v, extraSize, base, deviceTop, window);
  }

  lemma FreeAbove(free: seq<Region>, available: seq<Region>, memTop: nat, reserved: seq<Region>, tab: seq<Region>,
      base: nat)
    requires NonEmpty(free) && NoneMeet(free) && FreeExact(free, available, memTop, reserved) && Gapped(tab)
    requires forall x: nat :: Has(tab, x) <==> Has(free, x) || Has(reserved, x)
    requires AllAbove(available, base) && AllAbove(reserved, base)
    ensures FreeMap(free, reserved, tab) && (tab != [] ==> base <= tab[0].start)
    ensures forall k :: 0 <= k < |free| ==> free[k].start >= base
  {
    if tab != [] {
      assert GapAt(tab, 0);
      FirstAbove(tab, base, 0);
    }
    forall k | 0 <= k < |free|
      ensures free[k].start >= base
    {
      FirstAbove(free, base, k);
    }
  }

  lemma MapHolds(free: seq<Region>, reserved: seq<Region>, tab: seq<Region>, reuse: Region, j: nat, start: nat,
      size: nat, table: seq<Region>, rs: seq<Region>, base: nat)
    requires FreeMap(free, reserved, tab) && reuse.start < reuse.end
    requires (forall x: nat :: InRegion(reuse, x) ==> Has(reserved, x))
    requires AllAbove(reserved, base) && base > 0 && forall k :: 0 <= k < |free| ==> free[k].start >= base
    requires j < |free| && free[j].start <= start && start + size <= free[j].end
    requires R.Filled(table, R.Carved(free, j, start, size))
    requires forall k :: 0 <= k < |rs| ==>
      (forall q :: 0 <= q < |tab| ==> Avoids(rs[k], tab[q])) || rs[k] == reuse || rs[k] in table
    requires forall k :: 0 <= k < |rs| ==> base <= rs[k].start || rs[k] == reuse || rs[k] in table
    ensures forall k :: 0 <= k < |rs| ==>
      Avoids(rs[k], Region(start, start + size)) && (rs[k].start < rs[k].end ==> rs[k].start > 0)
    ensures start > 0
  {
    FreeInTable(free, reserved, tab, j);
    FreeAvoids(free, reserved, tab, reuse, j);
    CarvedOk(free, reserved, tab, reuse, j, start, size, table);
    assert InRegion(reuse, reuse.start);
    forall k | 0 <= k < |table|
      ensures table[k] == Region(0, 0) || (Avoids(table[k], Region(start, start + size)) && table[k].start > 0)
    {
      if k <= |free| { CarvedPart(free, j, start, size, k); }
    }
    RegionsClear(rs, tab, reuse, table, Region(start, start + size), base);
  }
}
