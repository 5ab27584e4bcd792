/** The memory of the root server (kernel/src/boot/root_server.rs, kernel/src/boot/mod.rs): where its objects go,
    and how the free memory is carved up for them. */
module RootServer {
  import opened Config
  import opened Words
  import opened BootUntyped
  import opened BootRegions

  const CNODE_BITS := 13 + 5
  const VSPACE_BITS := 12
  const BI_FRAME_BITS := 12

  function RoundDown(x: nat, bits: nat): (r: nat)
    ensures r <= x < r + Pow2(bits) && IsAligned(r, bits)
  {
    RoundedDown(x, Pow2(bits));
    Quot(x, Pow2(bits)) * Pow2(bits)
  }

  lemma RoundedDown(x: nat, p: nat)
    requires p > 0
    ensures Quot(x, p) * p <= x < Quot(x, p) * p + p && (Quot(x, p) * p) % p == 0
  {
    ModOfMultiple(Quot(x, p), p);
  }

  function RoundUp(x: nat, bits: nat): (r: nat)
    requires x > 0
    ensures x <= r && IsAligned(r, bits)
  {
    var p := Pow2(bits);
    RoundedDown(x - 1, p);
    ModOfMultiple(Quot(x - 1, p) + 1, p);
    assert (Quot(x - 1, p) + 1) * p == Quot(x - 1, p) * p + p;
    (Quot(x - 1, p) + 1) * p
  }

  /** calculate_extra_bi_size_bits: the least power of two that holds the extra boot information and at least a page. */
  function ExtraBiBits(size: nat): (bits: nat)
    ensures size == 0 <==> bits == 0
    ensures size > 0 ==> bits >= PAGE_BITS && size <= Pow2(bits) && (bits == PAGE_BITS || Pow2(bits - 1) < size)
  {
    if size == 0 then 0
    else
      var up := RoundUp(size, PAGE_BITS);
      var msb := Log2(up);
      LeastFit(size, PAGE_BITS);
      if size > Pow2(msb) then msb + 1 else msb
  }

  /** Rounding up to a multiple of 2^b first does not cost the least power of two. */
  lemma LeastFit(size: nat, b: nat)
    requires size > 0
    ensures
      var msb := Log2(RoundUp(size, b));
      var bits := if size > Pow2(msb) then msb + 1 else msb;
      bits >= b && size <= Pow2(bits) && (bits == b || Pow2(bits - 1) < size)
  {
    var up := RoundUp(size, b);
    var msb := Log2(up);
    NextMultiple(size, b);
    if msb < b {
      Pow2Monotone(msb + 1, b);
    } else if msb > b {
      Pow2Monotone(b, msb - 1);
    }
  }

  lemma NextMultiple(x: nat, bits: nat)
    requires x > 0
    ensures Pow2(bits) <= RoundUp(x, bits) < x + Pow2(bits)
  {
    var p := Pow2(bits);
    RoundedDown(x - 1, p);
    assert (Quot(x - 1, p) + 1) * p == Quot(x - 1, p) * p + p;
  }

  /** get_n_paging */
  function NPaging(start: nat, end: nat, bits: nat): (n: nat)
    requires start < end
  {
    (RoundUp(end, bits) - RoundDown(start, bits)) / Pow2(bits)
  }

  /** One table for each block of 2^bits bytes that the region touches. */
  lemma TablesNeeded(start: nat, end: nat, bits: nat, k: nat)
    requires start < end
    ensures
      var first := Quot(start, Pow2(bits));
      first <= k < first + NPaging(start, end, bits) <==> exists x: nat :: start <= x < end && Quot(x, Pow2(bits)) == k
  {
    var p := Pow2(bits);
    var a, b := Quot(start, p), Quot(end - 1, p);
    CountBlocks(start, end, bits);
    if exists x: nat :: start <= x < end && Quot(x, p) == k {
      var x: nat :| start <= x < end && Quot(x, p) == k;
      QuotMonotone(start, x, p);
      QuotMonotone(x, end - 1, p);
    }
    if a <= k <= b {
      var x := if k == a then start else k * p;
      if k > a { BlockStart(start, end, p, k); }
      assert start <= x < end && Quot(x, p) == k;
    }
  }

  lemma CountBlocks(start: nat, end: nat, bits: nat)
    requires start < end
    ensures NPaging(start, end, bits) == Quot(end - 1, Pow2(bits)) - Quot(start, Pow2(bits)) + 1
  {
    var p := Pow2(bits);
    var a, b := Quot(start, p), Quot(end - 1, p);
    QuotMonotone(start, end - 1, p);
    assert RoundUp(end, bits) == (b + 1) * p && RoundDown(start, bits) == a * p;
    CountMultiples(a, b + 1, p);
  }

  lemma CountMultiples(a: nat, b: nat, p: nat)
    requires a <= b && p > 0
    ensures (b * p - a * p) / p == b - a
  {
    assert b * p - a * p == (b - a) * p;
    DivModUnique((b - a) * p, p, b - a, 0);
  }

  lemma QuotMonotone(x: nat, y: nat, p: nat)
    requires p > 0 && x <= y
    ensures Quot(x, p) <= Quot(y, p)
  {
    RoundedDown(x, p);
    RoundedDown(y, p);
    MultipleBound(Quot(x, p), Quot(y, p), p);
  }

  lemma BlockStart(start: nat, end: nat, p: nat, k: nat)
    requires p > 0 && start < end && Quot(start, p) < k <= Quot(end - 1, p)
    ensures start <= k * p < end && Quot(k * p, p) == k
  {
    RoundedDown(start, p);
    RoundedDown(end - 1, p);
    MulMonotone(Quot(start, p) + 1, k, p);
    MulMonotone(k, Quot(end - 1, p), p);
    assert (Quot(start, p) + 1) * p == Quot(start, p) * p + p;
    DivModUnique(k * p, p, k, 0);
  }

  /** arch_get_n_paging: tables of the two lower levels for the initial thread's addresses. */
  function PagingTables(v: Region): (n: nat)
    requires v.start < v.end
  {
    NPaging(v.start, v.end, 30) + NPaging(v.start, v.end, 21)
  }

  /** calculate_rootserver_size */
  function TotalSize(n: nat, extraBits: nat): (s: nat) {
    Pow2(CNODE_BITS) + Pow2(TCB_BITS) + Pow2(PAGE_BITS) + Pow2(BI_FRAME_BITS) + Pow2(ASID_POOL_BITS)
    + (if extraBits > 0 then Pow2(extraBits) else 0) + Pow2(VSPACE_BITS) + n * Pow2(PAGE_TABLE_BITS)
  }

  /** rootserver_max_size_bits */
  function MaxBits(extraBits: nat): (b: nat) {
    var m := if CNODE_BITS > VSPACE_BITS then CNODE_BITS else VSPACE_BITS;
    if m > extraBits then m else extraBits
  }

  /** n objects of 2^bits bytes each, one after the other. */
  datatype Piece = Piece(base: nat, bits: nat, n: nat)

  /** The pieces lie one after the other from start to end, each aligned to its size. */
  ghost predicate Tiles(ps: seq<Piece>, start: nat, end: nat)
    decreases |ps|
  {
    if ps == [] then start == end
    else
      && ps[0].base == start && IsAligned(ps[0].base, ps[0].bits)
      && Tiles(ps[1..], start + ps[0].n * Pow2(ps[0].bits), end)
  }

  lemma TilesCons(p: Piece, rest: seq<Piece>, end: nat)
    requires IsAligned(p.base, p.bits) && Tiles(rest, p.base + p.n * Pow2(p.bits), end)
    ensures Tiles([p] + rest, p.base, end)
  {
    assert ([p] + rest)[1..] == rest;
  }

  lemma TilesTwo(p: Piece, q: Piece, rest: seq<Piece>, end: nat)
    requires p.n == 1 && q.n == 1 && IsAligned(p.base, p.bits) && IsAligned(q.base, q.bits)
    requires q.base == p.base + Pow2(p.bits) && Tiles(rest, q.base + Pow2(q.bits), end)
    ensures Tiles([p, q] + rest, p.base, end)
  {
    TilesCons(q, rest, end);
    TilesCons(p, [q] + rest, end);
    assert [p, q] + rest == [p] + ([q] + rest);
  }

  lemma TilesPage(base: nat, bits: nat, rest: seq<Piece>, end: nat)
    requires bits == 12 && base % 4096 == 0 && Tiles(rest, base + 4096, end)
    ensures Tiles([Piece(base, bits, 1)] + rest, base, end)
  {
    Constants();
    TilesCons(Piece(base, bits, 1), rest, end);
  }

  lemma Constants()
    ensures Pow2(10) == 1024 && Pow2(12) == 4096 && Pow2(18) == 262144
  {
    assert Pow2(6) == 64;
    Pow2Add(6, 4);
    Pow2Add(6, 6);
    Pow2Add(12, 6);
  }

  /** A multiple plus a multiple. */
  lemma AlignedSum(a: nat, b: nat, bits: nat)
    requires IsAligned(a, bits) && IsAligned(b, bits)
    ensures IsAligned(a + b, bits)
  {
    SumMultiple(a, b, Pow2(bits));
  }

  lemma SumMultiple(a: nat, b: nat, p: nat)
    requires p > 0 && a % p == 0 && b % p == 0
    ensures (a + b) % p == 0
  {
    assert a == Quot(a, p) * p && b == Quot(b, p) * p;
    assert (Quot(a, p) + Quot(b, p)) * p == a + b;
    ModOfMultiple(Quot(a, p) + Quot(b, p), p);
  }

  lemma Pow2Aligned(a: nat, b: nat)
    requires b <= a
    ensures IsAligned(Pow2(a), b)
  {
    Pow2Add(a - b, b);
    ModOfMultiple(Pow2(a - b), Pow2(b));
  }

  // ---- free memory ----

  /** The objects fit in the upper part of the region, from a start aligned to the largest of them. */
  predicate Fits(r: Region, size: nat, maxBits: nat) {
    r.end >= size && RoundDown(r.end - size, maxBits) >= r.start
  }

  /** The table holds the regions rs and empty entries behind them. */
  ghost predicate Filled(table: seq<Region>, rs: seq<Region>) {
    && |rs| <= |table| && (forall k :: 0 <= k < |rs| ==> table[k] == rs[k])
    && forall k :: |rs| <= k < |table| ==> table[k] == Region(0, 0)
  }

  /** Region j is cut into what lies below and what lies above the objects. */
  function Carved(rs: seq<Region>, j: nat, start: nat, size: nat): (r: seq<Region>)
    requires j < |rs|
  {
    seq(|rs| + 1, k requires 0 <= k < |rs| + 1 =>
      if k < j then rs[k] else if k == j then Region(rs[j].start, start)
      else if k == j + 1 then Region(start + size, rs[j].end) else rs[k - 1])
  }

  /** The shuffled table while region i is the candidate: everything above it has moved up by one. */
  ghost predicate Shuffled(table: seq<Region>, rs: seq<Region>, i: int) {
    && -1 <= i < |rs| < |table|
    && (forall k :: 0 <= k <= i ==> table[k] == rs[k])
    && table[i + 1] == Region(0, 0)
    && (forall k :: i + 1 < k <= |rs| ==> table[k] == rs[k - 1])
    && forall k :: |rs| < k < |table| ==> table[k] == Region(0, 0)
  }

  lemma {:induction false} OrderedPair(rs: seq<Region>, i: nat, j: nat)
    requires Ordered(rs) && i < j < |rs|
    ensures rs[i].start < rs[i].end <= rs[j].start < rs[j].end
    decreases j - i
  {
    assert OrderAt(rs, i) && OrderAt(rs, j);
    if i + 1 < j { OrderedPair(rs, i + 1, j); }
  }

  /** Carving conserves memory: the old free addresses are the objects' and the new free ones, with none in both. */
  lemma CarveConserves(rs: seq<Region>, j: nat, start: nat, size: nat, x: nat)
    requires Ordered(rs) && j < |rs| && rs[j].start <= start && start + size <= rs[j].end
    ensures Has(rs, x) <==> Has(Carved(rs, j, start, size), x) || start <= x < start + size
    ensures !(Has(Carved(rs, j, start, size), x) && start <= x < start + size)
  {
    var c := Carved(rs, j, start, size);
    if Has(rs, x) {
      var k: nat :| k < |rs| && InRegion(rs[k], x);
      if k == j { assert InRegion(c[j], x) || InRegion(c[j + 1], x) || start <= x < start + size; }
      else { assert InRegion(c[if k < j then k else k + 1], x); }
    }
    if Has(c, x) {
      var k: nat :| k < |c| && InRegion(c[k], x);
      var k0 := if k <= j then k else k - 1;
      assert InRegion(rs[k0], x);
      if k0 < j { OrderedPair(rs, k0, j); } else if k0 > j { OrderedPair(rs, j, k0); }
    }
    if start <= x < start + size { assert InRegion(rs[j], x); }
  }

  ghost predicate FoundIff(rs: seq<Region>, size: nat, maxBits: nat, found: bool) {
    found <==> exists k :: 0 <= k < |rs| && Fits(rs[k], size, maxBits)
  }

  /** The uppermost region that fits is cut at start; all others are as before and in order. */
  ghost predicate CarvedAt(rs: seq<Region>, table: seq<Region>, j: nat, start: nat, size: nat, maxBits: nat) {
    && j < |rs| && Fits(rs[j], size, maxBits) && (forall k :: j < k < |rs| ==> !Fits(rs[k], size, maxBits))
    && rs[j].start <= start && start + size <= rs[j].end
    && Filled(table, Carved(rs, j, start, size))
  }

  lemma CarvedStarts(rs: seq<Region>, table: seq<Region>, j: nat, start: nat, size: nat, maxBits: nat)
    requires CarvedAt(rs, table, j, start, size, maxBits) && forall k :: 0 <= k < |rs| ==> rs[k].start > 0
    ensures start > 0
  {
  }

  /** The loop of root_server_mem_init, up to the region where the objects go. Its assertions hold. */
  method CarveFree(freemem: array<Region>, size: nat, maxBits: nat, ghost rs: seq<Region>)
    returns (found: bool, start: nat, ghost j: nat)
    requires Filled(freemem[..], rs) && |rs| < freemem.Length && NonEmpty(rs)
    modifies freemem
    ensures FoundIff(rs, size, maxBits, found)
    ensures found ==> CarvedAt(rs, freemem[..], j, start, size, maxBits) && IsAligned(start, maxBits)
    ensures !found ==> Filled(freemem[..], [Region(0, 0)] + rs)
  {
    var i := freemem.Length - 1;
    while i >= 0 && freemem[i].start == freemem[i].end
      invariant |rs| - 1 <= i < freemem.Length
    {
      i := i - 1;
    }
    j, start := 0, 0;
    while 0 <= i < freemem.Length
      invariant Shuffled(freemem[..], rs, i)
      invariant forall k :: i < k < |rs| ==> !Fits(rs[k], size, maxBits)
      decreases i
    {
      assert i < freemem.Length - 1;
      assert freemem[i + 1] == Region(0, 0);
      if Fits(freemem[i], size, maxBits) {
        start := RoundDown(freemem[i].end - size, maxBits);
        freemem[i + 1] := Region(start + size, freemem[i].end);
        freemem[i] := Region(freemem[i].start, start);
        j := i;
        CarvedTable(freemem[..], rs, i, start, size);
        return true, start, j;
      }
      freemem[i + 1] := freemem[i];
      freemem[i] := Region(0, 0);
      i := i - 1;
    }
    found := false;
  }

  /** rootserver and rootserver_mem: the objects' addresses and the memory not yet given out. */
  class Server {
    var mem: Region
    var cnode: nat
    var vspace: nat
    var asidPool: nat
    var ipcBuf: nat
    var bootInfo: nat
    var extraBi: nat
    var tcb: nat
    var paging: Region

    /** Nothing allocated yet; address 0 means that there is no extra boot information. */
    constructor ()
      ensures extraBi == 0
    {
      mem, paging := Region(0, 0), Region(0, 0);
      cnode, vspace, asidPool, ipcBuf, bootInfo, extraBi, tcb := 0, 0, 0, 0, 0, 0, 0;
    }

    /** alloc_rootserver_obj; what it requires are its assertions. */
    method Alloc(bits: nat, n: nat) returns (a: nat)
      requires IsAligned(mem.start, bits) && mem.start + n * Pow2(bits) <= mem.end
      modifies `mem
      ensures a == old(mem.start) && mem == Region(old(mem.start) + n * Pow2(bits), old(mem.end))
    {
      a := mem.start;
      mem := Region(mem.start + n * Pow2(bits), mem.end);
    }

    /** maybe_alloc_extra_bi */
    method MaybeExtraBi(cmpBits: nat, extraBits: nat)
      requires extraBits >= cmpBits && extraBi == 0 ==>
        IsAligned(mem.start, extraBits) && mem.start + Pow2(extraBits) <= mem.end
      modifies `mem, `extraBi
      ensures
        if extraBits >= cmpBits && old(extraBi) == 0
        then extraBi == old(mem.start) && mem == Region(old(mem.start) + Pow2(extraBits), old(mem.end))
        else extraBi == old(extraBi) && mem == old(mem)
    {
      if extraBits >= cmpBits && extraBi == 0 {
        extraBi := Alloc(extraBits, 1);
      }
    }

    /** Every object in the order of its address. */
    ghost function Pieces(n: nat, extraBits: nat): (ps: seq<Piece>)
      reads this
    {
      Front(extraBits) + Frames(Tail(n))
    }

    /** The root CNode and extra boot information, the larger one first. */
    ghost function Front(extraBits: nat): (ps: seq<Piece>)
      reads this
    {
      var extra := Piece(extraBi, extraBits, 1);
      var root := Piece(cnode, CNODE_BITS, 1);
      if extraBits >= CNODE_BITS then [extra, root] else if extraBits >= VSPACE_BITS then [root, extra] else [root]
    }

    /** The four objects of one page, ahead of rest. */
    ghost function Frames(rest: seq<Piece>): (ps: seq<Piece>)
      reads this
    {
      [Piece(vspace, VSPACE_BITS, 1)] + ([Piece(asidPool, ASID_POOL_BITS, 1)]
        + ([Piece(ipcBuf, PAGE_BITS, 1)] + ([Piece(bootInfo, BI_FRAME_BITS, 1)] + rest)))
    }

    /** The page tables and the TCB. */
    ghost function Tail(n: nat): (ps: seq<Piece>)
      reads this
    {
      [Piece(paging.start, PAGE_TABLE_BITS, n)] + [Piece(tcb, TCB_BITS, 1)]
    }

    /** create_rootserver_objects: none of its assertions fails, and the objects tile the memory exactly. */
    method CreateObjects(start: nat, n: nat, extraBits: nat)
      requires start > 0 && IsAligned(start, MaxBits(extraBits)) && extraBi == 0
      requires extraBits == 0 || extraBits >= PAGE_BITS
      modifies this
      ensures Tiles(Pieces(n, extraBits), start, start + TotalSize(n, extraBits))
      ensures paging.end == paging.start + n * 4096 && (extraBits == 0 ==> extraBi == 0)
    {
      mem := Region(start, start + TotalSize(n, extraBits));
      TotalIs(start, n, extraBits);
      AllocFront(start, n, extraBits);
      VSpaceAligned(start, extraBits);
      AllocRest(n, extraBits);
      assert mem.start == mem.end;
      TilesRest(start, n, extraBits);
    }

    /** The root CNode and, before it, extra boot information that is larger. */
    method AllocCNode(start: nat, extraBits: nat)
      requires IsAligned(start, MaxBits(extraBits)) && extraBi == 0
      requires mem.start == start && CNodeAt(start, extraBits) + Pow2(CNODE_BITS) <= mem.end
      modifies `mem, `extraBi, `cnode
      ensures mem == Region(CNodeAt(start, extraBits) + Pow2(CNODE_BITS), old(mem.end))
      ensures cnode == CNodeAt(start, extraBits) && IsAligned(cnode, CNODE_BITS)
      ensures if extraBits >= CNODE_BITS then extraBi == start && IsAligned(start, extraBits) else extraBi == 0
    {
      StartAligned(start, extraBits);
      MaybeExtraBi(MaxBits(extraBits), extraBits);
      assert mem == Region(CNodeAt(start, extraBits), old(mem.end));
      cnode := Alloc(CNODE_BITS, 1);
    }

    /** The root CNode and, before or behind it, extra boot information of a page or more. */
    method AllocFront(start: nat, n: nat, extraBits: nat)
      requires start > 0 && IsAligned(start, MaxBits(extraBits)) && extraBi == 0
      requires extraBits == 0 || extraBits >= PAGE_BITS
      requires mem.start == start && VSpaceAt(start, extraBits) <= mem.end
      modifies `mem, `extraBi, `cnode
      ensures mem == Region(VSpaceAt(start, extraBits), old(mem.end))
      ensures cnode == CNodeAt(start, extraBits) && IsAligned(cnode, CNODE_BITS)
      ensures extraBits >= CNODE_BITS ==> extraBi == start && IsAligned(start, extraBits)
      ensures PAGE_BITS <= extraBits < CNODE_BITS ==>
        extraBi == cnode + Pow2(CNODE_BITS) && IsAligned(extraBi, extraBits)
      ensures extraBits == 0 ==> extraBi == 0
      ensures extraBi != 0 || extraBits < PAGE_BITS
      ensures IsAligned(CNodeAt(start, extraBits) + Pow2(CNODE_BITS), CNODE_BITS)
    {
      AllocCNode(start, extraBits);
      CNodeEndAligned(start, extraBits);
      MaybeExtraBi(VSPACE_BITS, extraBits);
    }

    /** The objects of one page, the page tables and the TCB. */
    method AllocRest(n: nat, extraBits: nat)
      requires extraBi != 0 || extraBits < PAGE_BITS
      requires mem.start % 4096 == 0 && mem.start + 4 * 4096 + n * 4096 + 1024 == mem.end
      modifies `mem, `extraBi, `vspace, `asidPool, `ipcBuf, `bootInfo, `paging, `tcb
      ensures extraBi == old(extraBi) && mem == Region(old(mem.end), old(mem.end))
      ensures vspace == old(mem.start) && asidPool == vspace + 4096 && ipcBuf == vspace + 8192
      ensures bootInfo == vspace + 12288
      ensures paging == Region(vspace + 16384, vspace + 16384 + n * 4096) && tcb == paging.end
    {
      AllocPages(n, extraBits);
      AllocTables(n);
    }

    method AllocPages(n: nat, extraBits: nat)
      requires extraBi != 0 || extraBits < PAGE_BITS
      requires mem.start % 4096 == 0 && mem.start + 4 * 4096 <= mem.end
      modifies `mem, `extraBi, `vspace, `asidPool, `ipcBuf, `bootInfo
      ensures extraBi == old(extraBi) && mem == Region(old(mem.start) + 16384, old(mem.end))
      ensures vspace == old(mem.start) && asidPool == vspace + 4096 && ipcBuf == vspace + 8192
      ensures bootInfo == vspace + 12288
    {
      vspace := AllocPage(VSPACE_BITS);
      MaybeExtraBi(PAGE_BITS, extraBits);
      asidPool := AllocPage(ASID_POOL_BITS);
      ipcBuf := AllocPage(PAGE_BITS);
      bootInfo := AllocPage(BI_FRAME_BITS);
    }

    method AllocPage(bits: nat) returns (a: nat)
      requires bits == 12 && mem.start % 4096 == 0 && mem.start + 4096 <= mem.end
      modifies `mem
      ensures a == old(mem.start) && mem == Region(old(mem.start) + 4096, old(mem.end)) && mem.start % 4096 == 0
    {
      Constants();
      a := Alloc(bits, 1);
    }

    method AllocTables(n: nat)
      requires mem.start % 4096 == 0 && mem.start + n * 4096 + 1024 == mem.end
      modifies `mem, `paging, `tcb
      ensures mem == Region(old(mem.end), old(mem.end))
      ensures paging == Region(old(mem.start), old(mem.start) + n * 4096) && tcb == paging.end
    {
      Constants();
      var tables := Alloc(PAGE_TABLE_BITS, n);
      paging := Region(tables, tables + n * Pow2(PAGE_TABLE_BITS));
      TcbAligned(tables, n);
      tcb := Alloc(TCB_BITS, 1);
    }

    /** What is true after root_server_mem_init of a table that held the regions rs. */
    ghost predicate Initialised(rs: seq<Region>, table: seq<Region>, found: bool, start: nat, j: nat, n: nat,
        extraBits: nat)
      reads this
    {
      var size, maxBits := TotalSize(n, extraBits), MaxBits(extraBits);
      && FoundIff(rs, size, maxBits, found)
      && (found ==> CarvedAt(rs, table, j, start, size, maxBits) && Tiles(Pieces(n, extraBits), start, start + size))
      && (!found ==> Filled(table, [Region(0, 0)] + rs))
    }

    /** root_server_mem_init for n page tables and extra boot information of the given size. */
    method Place(freemem: array<Region>, n: nat, extraBits: nat, ghost rs: seq<Region>)
      returns (found: bool, start: nat, ghost j: nat)
      requires extraBi == 0 && (extraBits == 0 || extraBits >= PAGE_BITS)
      requires Filled(freemem[..], rs) && |rs| < freemem.Length && NonEmpty(rs)
      requires forall k :: 0 <= k < |rs| ==> rs[k].start > 0
      modifies this, freemem
      ensures Initialised(rs, freemem[..], found, start, j, n, extraBits)
    {
      var size, maxBits := TotalSize(n, extraBits), MaxBits(extraBits);
      found, start, j := CarveFree(freemem, size, maxBits, rs);
      ghost var table := freemem[..];
      if found {
        CarvedStarts(rs, table, j, start, size, maxBits);
        CreateObjects(start, n, extraBits);
        assert freemem[..] == table;
      }
    }

    /** root_server_mem_init: the uppermost region that fits is carved up, whatever the extra boot information.
        The assertions of the loop and of the allocation hold. Nothing happens to the memory when no region fits. */
    method MemInit(freemem: array<Region>, v: Region, extraSize: nat, ghost rs: seq<Region>)
      returns (found: bool, start: nat, ghost j: nat)
      requires v.start < v.end && extraBi == 0
      requires Filled(freemem[..], rs) && |rs| < freemem.Length && NonEmpty(rs)
      requires forall k :: 0 <= k < |rs| ==> rs[k].start > 0
      modifies this, freemem
      ensures Initialised(rs, freemem[..], found, start, j, PagingTables(v), ExtraBiBits(extraSize))
    {
      var n, extraBits := PagingTables(v), ExtraBiBits(extraSize);
      found, start, j := Place(freemem, n, extraBits, rs);
    }

    lemma TilesRest(start: nat, n: nat, extraBits: nat)
      requires extraBits == 0 || extraBits >= PAGE_BITS
      requires extraBits >= CNODE_BITS ==> extraBi == start && IsAligned(start, extraBits)
      requires PAGE_BITS <= extraBits < CNODE_BITS ==>
        extraBi == cnode + Pow2(CNODE_BITS) && IsAligned(extraBi, extraBits)
      requires cnode == CNodeAt(start, extraBits) && IsAligned(cnode, CNODE_BITS)
      requires vspace == VSpaceAt(start, extraBits) && vspace % 4096 == 0
      requires asidPool == vspace + 4096 && ipcBuf == vspace + 8192 && bootInfo == vspace + 12288
      requires paging == Region(vspace + 16384, vspace + 16384 + n * 4096) && tcb == paging.end
      ensures Tiles(Pieces(n, extraBits), start, start + TotalSize(n, extraBits))
    {
      Constants();
      var end := start + TotalSize(n, extraBits);
      TotalIs(start, n, extraBits);
      TilesTail(n, end);
      TilesFrames(Tail(n), end);
      TilesFront(Frames(Tail(n)), start, extraBits, end);
    }

    lemma TilesFrames(rest: seq<Piece>, end: nat)
      requires vspace % 4096 == 0 && Tiles(rest, vspace + 16384, end)
      requires asidPool == vspace + 4096 && ipcBuf == vspace + 8192 && bootInfo == vspace + 12288
      ensures Tiles(Frames(rest), vspace, end)
    {
      TilesPage(bootInfo, BI_FRAME_BITS, rest, end);
      var p4 := [Piece(bootInfo, BI_FRAME_BITS, 1)] + rest;
      TilesPage(ipcBuf, PAGE_BITS, p4, end);
      var p3 := [Piece(ipcBuf, PAGE_BITS, 1)] + p4;
      TilesPage(asidPool, ASID_POOL_BITS, p3, end);
      TilesPage(vspace, VSPACE_BITS, [Piece(asidPool, ASID_POOL_BITS, 1)] + p3, end);
    }

    lemma TilesTail(n: nat, end: nat)
      requires paging.start % 4096 == 0 && paging.end == paging.start + n * 4096 && tcb == paging.end
      requires end == tcb + 1024
      ensures Tiles(Tail(n), paging.start, end)
    {
      Constants();
      TcbAligned(paging.start, n);
      TilesCons(Piece(tcb, TCB_BITS, 1), [], end);
      TilesCons(Piece(paging.start, PAGE_TABLE_BITS, n), [Piece(tcb, TCB_BITS, 1)], end);
    }

    lemma TilesFront(rest: seq<Piece>, start: nat, extraBits: nat, end: nat)
      requires extraBits == 0 || extraBits >= PAGE_BITS
      requires extraBits >= CNODE_BITS ==> extraBi == start && IsAligned(start, extraBits)
      requires PAGE_BITS <= extraBits < CNODE_BITS ==>
        extraBi == cnode + Pow2(CNODE_BITS) && IsAligned(extraBi, extraBits)
      requires cnode == CNodeAt(start, extraBits) && IsAligned(cnode, CNODE_BITS)
      requires vspace == VSpaceAt(start, extraBits) && Tiles(rest, vspace, end)
      ensures Tiles(Front(extraBits) + rest, start, end)
    {
      var extra, root := Piece(extraBi, extraBits, 1), Piece(cnode, CNODE_BITS, 1);
      if extraBits >= CNODE_BITS {
        TilesTwo(extra, root, rest, end);
      } else if extraBits >= VSPACE_BITS {
        TilesTwo(root, extra, rest, end);
      } else {
        TilesCons(root, rest, end);
      }
    }
  }

  lemma CarvedTable(table: seq<Region>, rs: seq<Region>, i: nat, start: nat, size: nat)
    requires i < |rs| < |table| && (forall k :: 0 <= k < i ==> table[k] == rs[k])
    requires table[i] == Region(rs[i].start, start) && table[i + 1] == Region(start + size, rs[i].end)
    requires (forall k :: i + 1 < k <= |rs| ==> table[k] == rs[k - 1])
    requires forall k :: |rs| < k < |table| ==> table[k] == Region(0, 0)
    ensures Filled(table, Carved(rs, i, start, size))
  {
  }

  function CNodeAt(start: nat, extraBits: nat): (a: nat) {
    start + if extraBits >= CNODE_BITS then Pow2(extraBits) else 0
  }

  function VSpaceAt(start: nat, extraBits: nat): (a: nat) {
    CNodeAt(start, extraBits) + Pow2(CNODE_BITS) + if VSPACE_BITS <= extraBits < CNODE_BITS then Pow2(extraBits) else 0
  }

  lemma TotalIs(start: nat, n: nat, extraBits: nat)
    requires extraBits == 0 || extraBits >= PAGE_BITS
    ensures VSpaceAt(start, extraBits) + 4 * 4096 + n * 4096 + 1024 == start + TotalSize(n, extraBits)
  {
    Constants();
  }

  lemma StartAligned(start: nat, extraBits: nat)
    requires IsAligned(start, MaxBits(extraBits))
    ensures IsAligned(CNodeAt(start, extraBits), CNODE_BITS)
    ensures extraBits >= CNODE_BITS ==> IsAligned(start, extraBits)
  {
    MultipleOfMultiple(start, MaxBits(extraBits), CNODE_BITS);
    if extraBits >= CNODE_BITS {
      Pow2Aligned(extraBits, CNODE_BITS);
      AlignedSum(start, Pow2(extraBits), CNODE_BITS);
    }
  }

  lemma CNodeEndAligned(start: nat, extraBits: nat)
    requires IsAligned(CNodeAt(start, extraBits), CNODE_BITS)
    ensures IsAligned(CNodeAt(start, extraBits) + Pow2(CNODE_BITS), CNODE_BITS)
    ensures extraBits < CNODE_BITS ==> IsAligned(CNodeAt(start, extraBits) + Pow2(CNODE_BITS), extraBits)
  {
    Pow2Aligned(CNODE_BITS, CNODE_BITS);
    AlignedSum(CNodeAt(start, extraBits), Pow2(CNODE_BITS), CNODE_BITS);
    if extraBits < CNODE_BITS {
      MultipleOfMultiple(CNodeAt(start, extraBits) + Pow2(CNODE_BITS), CNODE_BITS, extraBits);
    }
  }

  lemma VSpaceAligned(start: nat, extraBits: nat)
    requires IsAligned(CNodeAt(start, extraBits) + Pow2(CNODE_BITS), CNODE_BITS)
    ensures VSpaceAt(start, extraBits) % 4096 == 0
  {
    Constants();
    var a := CNodeAt(start, extraBits) + Pow2(CNODE_BITS);
    MultipleOfMultiple(a, CNODE_BITS, VSPACE_BITS);
    if VSPACE_BITS <= extraBits < CNODE_BITS {
      Pow2Aligned(extraBits, VSPACE_BITS);
      AlignedSum(a, Pow2(extraBits), VSPACE_BITS);
    }
  }

  lemma TcbAligned(tables: nat, n: nat)
    requires tables % 4096 == 0
    ensures (tables + n * 4096) % 1024 == 0
  {
    var q := Quot(tables, 4096);
    assert tables + n * 4096 == (4 * (q + n)) * 1024;
    ModOfMultiple(4 * (q + n), 1024);
  }
}
