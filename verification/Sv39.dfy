/** Three-level page tables (sel4_vspace/src/arch/riscv64/pte.rs, sel4_vspace/src/arch/riscv64/pagetable.rs,
    kernel/src/syscall/invocation/invoke_mmu_op.rs): mapping a page changes the translation of exactly the
    addresses in it, and unmapping it restores the translation there was. */
module Sv39 {
  import opened Config
  import opened Words
  import opened Caps

  const INDEX_BITS := 9
  const ENTRIES := 512
  const TOP_LEVEL := 2

  // ---- entries ----

  /** A 64-bit entry: flags in the low bits, the physical page number from bit 10 on. */
  type Pte = nat

  const INVALID: Pte := 0

  predicate IsValid(p: Pte) {
    p % 2 == 1
  }

  predicate IsReadable(p: Pte) {
    p / 2 % 2 == 1
  }

  predicate IsWritable(p: Pte) {
    p / 4 % 2 == 1
  }

  predicate IsExecutable(p: Pte) {
    p / 8 % 2 == 1
  }

  predicate IsUser(p: Pte) {
    p / 16 % 2 == 1
  }

  predicate IsAccessed(p: Pte) {
    p / 64 % 2 == 1
  }

  predicate IsDirty(p: Pte) {
    p / 128 % 2 == 1
  }

  /** get_ppn: 44 bits from bit 10 on. */
  function Ppn(p: Pte): (n: nat) {
    p / 1024 % 0x1000_0000_0000
  }

  /** is_pte_table */
  predicate IsTable(p: Pte) {
    IsValid(p) && !IsReadable(p) && !IsWritable(p) && !IsExecutable(p)
  }

  /** A valid entry that is not a table maps a page. */
  predicate IsLeaf(p: Pte) {
    IsValid(p) && !IsTable(p)
  }

  function Bit(b: bool, value: nat): (r: nat) {
    if b then value else 0
  }

  /** make_user_pte: valid, user, accessed and dirty, with the rights asked for; no rights, no entry. */
  function MakeUserPte(paddr: nat, executable: bool, read: bool, write: bool): (p: Pte) {
    if !executable && !read && !write then INVALID
    else paddr / 4096 * 1024 + (128 + 64 + 16 + 1) + Bit(executable, 8) + Bit(write, 4) + Bit(read, 2)
  }

  /** An entry made for a page says what it was made for. */
  lemma MadePteReads(paddr: nat, executable: bool, read: bool, write: bool)
    requires paddr % 4096 == 0 && paddr < 0x1000_0000_0000 * 4096 && (executable || read || write)
    ensures
      var p := MakeUserPte(paddr, executable, read, write);
      && IsLeaf(p) && Ppn(p) * 4096 == paddr
      && IsReadable(p) == read && IsWritable(p) == write && IsExecutable(p) == executable
      && IsUser(p) && IsAccessed(p) && IsDirty(p)
  {
    var flags := 209 + Bit(executable, 8) + Bit(write, 4) + Bit(read, 2);
    var n := Quot(paddr, 4096);
    FlagsRead(n, flags);
    FlagBits(executable, read, write);
  }

  lemma FlagBits(executable: bool, read: bool, write: bool)
    ensures
      var flags := 209 + Bit(executable, 8) + Bit(write, 4) + Bit(read, 2);
      && flags < 256 && flags % 2 == 1 && flags / 2 % 2 == Bit(read, 1) && flags / 4 % 2 == Bit(write, 1)
      && flags / 8 % 2 == Bit(executable, 1) && flags / 16 % 2 == 1 && flags / 64 % 2 == 1 && flags / 128 % 2 == 1
  {}

  /** The flags of an entry are read apart from its page number. */
  lemma FlagsRead(n: nat, flags: nat)
    requires flags < 256
    ensures
      var p := n * 1024 + flags;
      && p / 1024 == n && p % 2 == flags % 2 && p / 2 % 2 == flags / 2 % 2 && p / 4 % 2 == flags / 4 % 2
      && p / 8 % 2 == flags / 8 % 2 && p / 16 % 2 == flags / 16 % 2 && p / 64 % 2 == flags / 64 % 2
      && p / 128 % 2 == flags / 128 % 2
  {
    DivModUnique(n * 1024 + flags, 1024, n, flags);
    EvenPart(n * 512, flags);
    FlagRead(n, flags, 2, 512);
    FlagRead(n, flags, 4, 256);
    FlagRead(n, flags, 8, 128);
    FlagRead(n, flags, 16, 64);
    FlagRead(n, flags, 64, 16);
    FlagRead(n, flags, 128, 8);
  }

  lemma FlagRead(n: nat, flags: nat, p: nat, q: nat)
    requires p > 0 && q % 2 == 0 && p * q == 1024
    ensures (n * 1024 + flags) / p % 2 == flags / p % 2
  {
    var f, rest := flags / p, flags % p;
    assert flags == f * p + rest;
    assert n * 1024 == (n * q) * p;
    assert n * 1024 + flags == (n * q + f) * p + rest;
    DivModUnique(n * 1024 + flags, p, n * q + f, rest);
    assert n * q == 2 * (n * (q / 2));
    EvenPart(n * (q / 2), f);
  }

  lemma EvenPart(m: nat, f: nat)
    ensures (2 * m + f) % 2 == f % 2
  {
  }

  // ---- tables ----

  /** Tables by page number, 512 entries each. */
  type Tables = map<nat, seq<Pte>>

  datatype PtSlot = PtSlot(table: nat, index: nat, level: nat)

  /** The bits of the address that stay inside an entry of the level. */
  function BitsLeft(level: nat): (b: nat) {
    PAGE_BITS + INDEX_BITS * level
  }

  function IndexOf(vptr: nat, level: nat): (i: nat)
    ensures i < ENTRIES
  {
    Quot(vptr, Pow2(BitsLeft(level))) % ENTRIES
  }

  /** Entries that are tables lead to tables one level down. */
  ghost predicate EntryOk(tables: Tables, levels: map<nat, nat>, t: nat, i: nat)
    requires t in tables && t in levels && i < |tables[t]|
  {
    IsTable(tables[t][i]) && levels[t] > 0 ==>
      var c := Ppn(tables[t][i]);
      c in tables && c in levels && levels[c] == levels[t] - 1
  }

  ghost predicate Graded(tables: Tables, levels: map<nat, nat>) {
    && tables.Keys == levels.Keys
    && (forall t :: t in tables ==> |tables[t]| == ENTRIES && levels[t] <= TOP_LEVEL)
    && (forall t, i {:trigger EntryOk(tables, levels, t, i)} ::
          t in tables && 0 <= i < ENTRIES ==> EntryOk(tables, levels, t, i))
  }

  /** lookup_pt_slot from table t on. */
  function Walk(tables: Tables, levels: map<nat, nat>, t: nat, vptr: nat): (s: PtSlot)
    requires Graded(tables, levels) && t in tables
    ensures s.table in tables && s.index < ENTRIES && s.level == levels[s.table] <= levels[t]
    ensures !(IsTable(tables[s.table][s.index]) && s.level > 0)
    decreases levels[t]
  {
    var i := IndexOf(vptr, levels[t]);
    assert EntryOk(tables, levels, t, i);
    if IsTable(tables[t][i]) && levels[t] > 0 then Walk(tables, levels, Ppn(tables[t][i]), vptr)
    else PtSlot(t, i, levels[t])
  }

  // ---- which addresses share an entry ----

  /** Two addresses agree on the indices from the top level down to the given one. */
  predicate SameFrom(v: nat, w: nat, level: nat, top: nat)
    decreases top
  {
    level > top || (IndexOf(v, top) == IndexOf(w, top) && (top == 0 || SameFrom(v, w, level, top - 1)))
  }

  /** The walk looks at 39 bits. */
  const SPAN := 0x80_0000_0000

  /** The lower half of what it tells apart. */
  const HALF := 0x40_0000_0000

  /** Modulo 2^39 that means lying in the same page of the level's size. */
  lemma SameFromIsSamePage(v: nat, w: nat, level: nat)
    requires level <= TOP_LEVEL
    ensures SameFrom(v, w, level, TOP_LEVEL) <==> Quot(v % SPAN, PageSize(level)) == Quot(w % SPAN, PageSize(level))
  {
    PageSizes();
    IndexWraps(v);
    IndexWraps(w);
    SplitIndex(v % SPAN);
    SplitIndex(w % SPAN);
    assert SameFrom(v, w, level, 2) <==> level > 2 || (IndexOf(v, 2) == IndexOf(w, 2) && SameFrom(v, w, level, 1));
    assert SameFrom(v, w, level, 1) <==> level > 1 || (IndexOf(v, 1) == IndexOf(w, 1) && SameFrom(v, w, level, 0));
    assert SameFrom(v, w, level, 0) <==> level > 0 || IndexOf(v, 0) == IndexOf(w, 0);
  }

  /** Four kilobytes, two megabytes, one gigabyte. */
  function PageSize(level: nat): (s: nat)
    ensures s > 0
  {
    if level == 0 then 4096 else if level == 1 then 0x20_0000 else 0x4000_0000
  }

  /** Bits above the 39th do not matter to any index. */
  lemma IndexWraps(v: nat)
    ensures IndexOf(v, 0) == IndexOf(v % SPAN, 0) && IndexOf(v, 1) == IndexOf(v % SPAN, 1)
    ensures IndexOf(v, 2) == IndexOf(v % SPAN, 2)
  {
    PageSizes();
    WrapsAt(v, 4096, 0x4_0000);
    WrapsAt(v, 0x20_0000, 0x200);
    WrapsAt(v, 0x4000_0000, 1);
  }

  lemma WrapsAt(v: nat, size: nat, k: nat)
    requires size > 0 && size * 512 * k == SPAN
    ensures Quot(v, size) % 512 == Quot(v % SPAN, size) % 512
  {
    var a, b := Quot(v, SPAN), v % SPAN;
    var q, r := Quot(b, size), b % size;
    Regroup(a, 512 * k, q, size, r, SPAN);
    DivModUnique(v, size, a * (512 * k) + q, r);
    FactorOut(a, k, q);
  }

  lemma Regroup(a: nat, m: nat, q: nat, size: nat, r: nat, span: nat)
    requires m * size == span
    ensures a * span + q * size + r == (a * m + q) * size + r
  {
    MulSwap(a, m, size);
  }

  lemma FactorOut(a: nat, k: nat, q: nat)
    ensures (a * (512 * k) + q) % 512 == q % 512
  {
    assert a * (512 * k) == (a * k) * 512;
    MultipleAdds(a * k, q);
  }

  lemma MulSwap(a: nat, b: nat, c: nat)
    ensures a * (b * c) == a * b * c
  {
  }

  lemma MultipleAdds(m: nat, q: nat)
    ensures (m * 512 + q) % 512 == q % 512
  {
    var d := Quot(q, 512);
    DivModUnique(m * 512 + q, 512, m + d, q % 512);
  }

  lemma PageSizes()
    ensures Pow2(BitsLeft(0)) == 4096 && Pow2(BitsLeft(1)) == 0x20_0000 && Pow2(BitsLeft(2)) == 0x4000_0000
    ensures forall level :: 0 <= level <= TOP_LEVEL ==> Pow2(BitsLeft(level)) == PageSize(level)
  {
    assert Pow2(4) == 16;
    Pow2Add(4, 8);
    Pow2Add(4, 4);
    Pow2Add(4, 5);
    Pow2Add(12, 9);
    Pow2Add(21, 9);
  }

  /** The three indices put the page number together again. */
  lemma SplitIndex(v: nat)
    requires v < 0x80_0000_0000
    ensures IndexOf(v, 2) == v / 0x4000_0000
    ensures v / 0x20_0000 == v / 0x4000_0000 * 512 + IndexOf(v, 1)
    ensures v / 4096 == v / 0x20_0000 * 512 + IndexOf(v, 0)
  {
    PageSizes();
    assert v / 0x20_0000 / 512 == v / 0x4000_0000;
    assert v / 4096 / 512 == v / 0x20_0000;
  }

  /** Walks that agree from the top down to the entry's level end in the same entry. */
  lemma {:induction false} SamePageSameSlot(tables: Tables, levels: map<nat, nat>, t: nat, v: nat, w: nat)
    requires Graded(tables, levels) && t in tables && SameFrom(v, w, Walk(tables, levels, t, v).level, levels[t])
    ensures Walk(tables, levels, t, w) == Walk(tables, levels, t, v)
    decreases levels[t]
  {
    var i := IndexOf(v, levels[t]);
    assert EntryOk(tables, levels, t, i);
    if IsTable(tables[t][i]) && levels[t] > 0 {
      SamePageSameSlot(tables, levels, Ppn(tables[t][i]), v, w);
    }
  }

  // ---- which tables are the user's ----

  /** The root entries of the lower half. Those above it lead to the kernel's tables, which all address spaces share
      and of which two entries of one root share one. */
  const USER_ENTRIES := 256

  predicate UserEntry(levels: map<nat, nat>, t: nat, i: nat) {
    t in levels && levels[t] == TOP_LEVEL ==> i < USER_ENTRIES
  }

  /** An entry leads to a table of the user's exactly if it is one of theirs. */
  ghost predicate Kept(tables: Tables, levels: map<nat, nat>, user: set<nat>, t: nat, i: nat)
    requires t in tables && t in levels && i < |tables[t]|
  {
    IsTable(tables[t][i]) && levels[t] > 0 ==> (Ppn(tables[t][i]) in user <==> t in user && UserEntry(levels, t, i))
  }

  /** No two entries lead to the same table of the user's. */
  ghost predicate SoleParent(tables: Tables, levels: map<nat, nat>, user: set<nat>, t: nat, i: nat, u: nat, j: nat)
    requires t in tables && t in levels && i < |tables[t]| && u in tables && u in levels && j < |tables[u]|
  {
    && IsTable(tables[t][i]) && levels[t] > 0 && IsTable(tables[u][j]) && levels[u] > 0
    && Ppn(tables[t][i]) == Ppn(tables[u][j]) && Ppn(tables[t][i]) in user
    ==> t == u && i == j
  }

  ghost predicate Unshared(tables: Tables, levels: map<nat, nat>, user: set<nat>)
    requires Graded(tables, levels)
  {
    && user <= tables.Keys
    && (forall t, i {:trigger Kept(tables, levels, user, t, i)} ::
          t in tables && 0 <= i < ENTRIES ==> Kept(tables, levels, user, t, i))
    && (forall t, i, u, j {:trigger SoleParent(tables, levels, user, t, i, u, j)} ::
          t in tables && u in tables && 0 <= i < ENTRIES && 0 <= j < ENTRIES ==>
            SoleParent(tables, levels, user, t, i, u, j))
  }

  /** A walk that begins among the user's tables stays there. */
  lemma {:induction false} InsideStays(tables: Tables, levels: map<nat, nat>, user: set<nat>, t: nat, v: nat)
    requires Graded(tables, levels) && Unshared(tables, levels, user) && t in user
    requires UserEntry(levels, t, IndexOf(v, levels[t]))
    ensures var s := Walk(tables, levels, t, v); s.table in user && UserEntry(levels, s.table, s.index)
    decreases levels[t]
  {
    var i := IndexOf(v, levels[t]);
    assert EntryOk(tables, levels, t, i) && Kept(tables, levels, user, t, i);
    if IsTable(tables[t][i]) && levels[t] > 0 {
      InsideStays(tables, levels, user, Ppn(tables[t][i]), v);
    }
  }

  /** One that begins outside, or leaves through an upper entry, never gets in. */
  lemma {:induction false} OutsideStays(tables: Tables, levels: map<nat, nat>, user: set<nat>, t: nat, w: nat)
    requires Graded(tables, levels) && Unshared(tables, levels, user) && t in tables && t !in user
    ensures Walk(tables, levels, t, w).table !in user
    decreases levels[t]
  {
    var i := IndexOf(w, levels[t]);
    assert EntryOk(tables, levels, t, i) && Kept(tables, levels, user, t, i);
    if IsTable(tables[t][i]) && levels[t] > 0 {
      OutsideStays(tables, levels, user, Ppn(tables[t][i]), w);
    }
  }

  /** Walks from different tables of one level never meet among the user's. */
  lemma {:induction false} DifferentTablesApart(
      tables: Tables, levels: map<nat, nat>, user: set<nat>, t: nat, u: nat, v: nat, w: nat)
    requires Graded(tables, levels) && Unshared(tables, levels, user) && t in user && u in tables && t != u
    requires levels[t] == levels[u] < TOP_LEVEL
    ensures Walk(tables, levels, t, v).table != Walk(tables, levels, u, w).table
    decreases levels[t]
  {
    InsideStays(tables, levels, user, t, v);
    if u !in user {
      OutsideStays(tables, levels, user, u, w);
    } else {
      var i, j := IndexOf(v, levels[t]), IndexOf(w, levels[u]);
      assert EntryOk(tables, levels, t, i) && EntryOk(tables, levels, u, j);
      assert Kept(tables, levels, user, t, i) && SoleParent(tables, levels, user, t, i, u, j);
      if IsTable(tables[t][i]) && levels[t] > 0 && IsTable(tables[u][j]) {
        DifferentTablesApart(tables, levels, user, Ppn(tables[t][i]), Ppn(tables[u][j]), v, w);
      }
    }
  }

  /** And conversely: only addresses of the same page share an entry of the user's. */
  lemma {:induction false} SameSlotSamePage(
      tables: Tables, levels: map<nat, nat>, user: set<nat>, t: nat, v: nat, w: nat)
    requires Graded(tables, levels) && Unshared(tables, levels, user) && t in user
    requires UserEntry(levels, t, IndexOf(v, levels[t])) && Walk(tables, levels, t, w) == Walk(tables, levels, t, v)
    ensures SameFrom(v, w, Walk(tables, levels, t, v).level, levels[t])
    decreases levels[t]
  {
    var i, j := IndexOf(v, levels[t]), IndexOf(w, levels[t]);
    assert EntryOk(tables, levels, t, i) && EntryOk(tables, levels, t, j);
    assert Kept(tables, levels, user, t, i) && SoleParent(tables, levels, user, t, i, t, j);
    if IsTable(tables[t][i]) && levels[t] > 0 {
      if i != j && IsTable(tables[t][j]) {
        DifferentTablesApart(tables, levels, user, Ppn(tables[t][i]), Ppn(tables[t][j]), v, w);
      } else if i == j {
        SameSlotSamePage(tables, levels, user, Ppn(tables[t][i]), v, w);
      }
    }
  }

  /** Modulo 2^39 the lower half is the user's. */
  lemma UserAddress(levels: map<nat, nat>, root: nat, v: nat)
    requires root in levels && levels[root] == TOP_LEVEL
    ensures UserEntry(levels, root, IndexOf(v, levels[root])) <==> v % SPAN < HALF
  {
    IndexWraps(v);
    SplitIndex(v % SPAN);
  }

  // ---- translation, mapping and unmapping ----

  datatype Translation = NotMapped | Leaf(pte: Pte, level: nat)

  function EntryAt(tables: Tables, s: PtSlot): (p: Pte)
    requires s.table in tables && s.index < |tables[s.table]|
  {
    tables[s.table][s.index]
  }

  /** What the hardware walk makes of an address. */
  ghost function Translate(tables: Tables, levels: map<nat, nat>, root: nat, vptr: nat): (r: Translation)
    requires Graded(tables, levels) && root in tables
  {
    var s := Walk(tables, levels, root, vptr);
    if IsLeaf(EntryAt(tables, s)) then Leaf(EntryAt(tables, s), s.level) else NotMapped
  }

  function Written(tables: Tables, s: PtSlot, p: Pte): (r: Tables)
    requires s.table in tables && s.index < |tables[s.table]|
  {
    var row: seq<Pte> := tables[s.table][s.index := p];
    tables[s.table := row]
  }

  /** Writing an entry that is no table keeps the tables in order. */
  lemma WriteKeepsGraded(tables: Tables, levels: map<nat, nat>, s: PtSlot, p: Pte)
    requires Graded(tables, levels) && s.table in tables && s.index < ENTRIES && !IsTable(p)
    ensures Graded(Written(tables, s, p), levels)
  {
    var tables' := Written(tables, s, p);
    forall t, i | t in tables' && 0 <= i < ENTRIES
      ensures EntryOk(tables', levels, t, i)
    {
      assert EntryOk(tables, levels, t, i);
    }
  }

  lemma WriteKeepsUnshared(tables: Tables, levels: map<nat, nat>, user: set<nat>, s: PtSlot, p: Pte)
    requires Graded(tables, levels) && Unshared(tables, levels, user) && s.table in tables && s.index < ENTRIES
    requires !IsTable(p) && Graded(Written(tables, s, p), levels)
    ensures Unshared(Written(tables, s, p), levels, user)
  {
    var tables' := Written(tables, s, p);
    forall t, i | t in tables' && 0 <= i < ENTRIES
      ensures Kept(tables', levels, user, t, i)
    {
      assert Kept(tables, levels, user, t, i);
    }
    forall t, i, u, j | t in tables' && u in tables' && 0 <= i < ENTRIES && 0 <= j < ENTRIES
      ensures SoleParent(tables', levels, user, t, i, u, j)
    {
      assert SoleParent(tables, levels, user, t, i, u, j);
    }
  }

  lemma {:induction false} WriteKeepsWalk(
      tables: Tables, levels: map<nat, nat>, s: PtSlot, p: Pte, t: nat, w: nat)
    requires Graded(tables, levels) && s.table in tables && s.index < ENTRIES && s.level == levels[s.table]
    requires !IsTable(p) && !(IsTable(EntryAt(tables, s)) && s.level > 0) && t in tables
    requires Graded(Written(tables, s, p), levels)
    ensures Walk(Written(tables, s, p), levels, t, w) == Walk(tables, levels, t, w)
    decreases levels[t]
  {
    var i := IndexOf(w, levels[t]);
    assert EntryOk(tables, levels, t, i);
    if IsTable(tables[t][i]) && levels[t] > 0 {
      WriteKeepsWalk(tables, levels, s, p, Ppn(tables[t][i]), w);
    }
  }

  function Made(p: Pte, level: nat): (r: Translation) {
    if IsLeaf(p) then Leaf(p, level) else NotMapped
  }

  /** Writing the entry for v changes the translation of exactly the addresses that lead to it. */
  lemma WriteIsSlot(tables: Tables, levels: map<nat, nat>, root: nat, v: nat, p: Pte, w: nat)
    requires Graded(tables, levels) && root in tables && !IsTable(p)
    ensures
      var s := Walk(tables, levels, root, v);
      var tables' := Written(tables, s, p);
      && Graded(tables', levels)
      && Translate(tables', levels, root, w) ==
           if Walk(tables, levels, root, w) == s then Made(p, s.level) else Translate(tables, levels, root, w)
  {
    var s := Walk(tables, levels, root, v);
    WriteKeepsGraded(tables, levels, s, p);
    WriteKeepsWalk(tables, levels, s, p, root, w);
  }

  /** For an address of the lower half these are exactly the addresses in its page, whatever the kernel's tables share.
      */
  lemma WriteIsLocal(tables: Tables, levels: map<nat, nat>, user: set<nat>, root: nat, v: nat, p: Pte, w: nat)
    requires Graded(tables, levels) && Unshared(tables, levels, user) && root in user && levels[root] == TOP_LEVEL
    requires !IsTable(p)
    ensures
      var s := Walk(tables, levels, root, v);
      var tables' := Written(tables, s, p);
      && Graded(tables', levels) && Unshared(tables', levels, user)
      && (SameFrom(v, w, s.level, TOP_LEVEL) ==> Translate(tables', levels, root, w) == Made(p, s.level))
      && (v % SPAN < HALF && !SameFrom(v, w, s.level, TOP_LEVEL) ==>
            Translate(tables', levels, root, w) == Translate(tables, levels, root, w))
  {
    var s := Walk(tables, levels, root, v);
    WriteIsSlot(tables, levels, root, v, p, w);
    WriteKeepsUnshared(tables, levels, user, s, p);
    UserAddress(levels, root, v);
    if SameFrom(v, w, s.level, TOP_LEVEL) {
      SamePageSameSlot(tables, levels, root, v, w);
    } else if Walk(tables, levels, root, w) == s && v % SPAN < HALF {
      SameSlotSamePage(tables, levels, user, root, v, w);
    }
  }

  /** Addresses of v's page translate to r, all others as before. */
  ghost predicate Retranslated(before: Tables, after: Tables, levels: map<nat, nat>, root: nat, v: nat, level: nat,
      r: Translation)
    requires Graded(before, levels) && Graded(after, levels) && root in before && root in after
  {
    forall w: nat :: Translate(after, levels, root, w) ==
      if SameFrom(v, w, level, TOP_LEVEL) then r else Translate(before, levels, root, w)
  }

  // ---- physical addresses ----

  const WORD := 0x1_0000_0000_0000_0000

  /** The upper 25 bits of an address repeat bit 38; every other address faults. */
  predicate Canonical(w: nat) {
    w < HALF || WORD - HALF <= w < WORD
  }

  datatype Access = Fault | Access(address: nat, read: bool, write: bool, execute: bool)

  /** Where the entry of a page sends an access from user level to an address of the page. A large page that is not
      aligned faults, and so does one that is not for users or not marked accessed; one not marked dirty is not written.
      */
  function Target(t: Translation, w: nat): (a: Access) {
    match t
    case NotMapped => Fault
    case Leaf(p, level) =>
      if Ppn(p) * 4096 % PageSize(level) != 0 || !IsUser(p) || !IsAccessed(p) then Fault
      else Access(Ppn(p) * 4096 + w % PageSize(level), IsReadable(p), IsWritable(p) && IsDirty(p), IsExecutable(p))
  }

  /** Section 4.4 of the RISC-V privileged architecture: what an access from user level to address w reaches. */
  ghost function Physical(tables: Tables, levels: map<nat, nat>, root: nat, w: nat): (a: Access)
    requires Graded(tables, levels) && root in tables
  {
    if Canonical(w) then Target(Translate(tables, levels, root, w), w) else Fault
  }

  const USER_TOP := 0x7fff_ffff_ffff
  const PPTR_BASE := 0xFFFF_FFC0_0000_0000

  function Paddr(pptr: nat): (p: nat)
    requires pptr >= PPTR_BASE
  {
    pptr - PPTR_BASE
  }

  /** A frame capability names memory aligned to its size. */
  predicate FrameOk(cap: Cap) {
    cap.FrameCap? && PPTR_BASE <= cap.ptr < WORD && Paddr(cap.ptr) % PageSize(LevelOf(cap.size)) == 0
  }

  function LevelOf(size: FrameSize): (l: nat) {
    match size case SmallPage => 0 case MegaPage => 1 case GigaPage => 2
  }

  lemma FrameSizes(size: FrameSize)
    ensures PageBits(size) == BitsLeft(LevelOf(size)) && Pow2(PageBits(size)) == PageSize(LevelOf(size))
  {
    PageSizes();
  }

  /** The decoder's checks on the address. */
  predicate InUserRange(cap: Cap, vaddr: nat)
    requires cap.FrameCap?
  {
    vaddr + Pow2(PageBits(cap.size)) - 1 < USER_TOP && vaddr % Pow2(PageBits(cap.size)) == 0
  }

  /** The decoder's checks on the entry found: the size must fit what is left there. */
  predicate MayMap(cap: Cap, vaddr: nat, asid: nat, level: nat, entry: Pte)
    requires cap.FrameCap?
  {
    && BitsLeft(level) == PageBits(cap.size)
    && (if cap.mappedAsid != 0 then cap.mappedAsid == asid && cap.mappedAddress == vaddr && !IsTable(entry)
      else !IsValid(entry))
  }

  function Effective(cap: Cap, rights: Rights): (v: VmRights)
    requires cap.FrameCap?
  {
    MaskVmRights(cap.rights, rights)
  }

  /** The mapping is written down in the capability. */
  function Recorded(cap: Cap, asid: nat, vaddr: nat): (r: Cap)
    requires cap.FrameCap?
  {
    FrameCap(cap.ptr, cap.size, cap.isDevice, cap.rights, asid, vaddr)
  }

  datatype MapResult = Refused | Mapped(cap: Cap)

  /** Address w lies in the page of the given size at v. */
  predicate InPage(v: nat, size: nat, w: nat) {
    v <= w < v + size
  }

  /** Exactly the addresses of the page lead to the frame, at their offset and with the rights asked for. */
  ghost predicate PageMapped(before: Tables, after: Tables, levels: map<nat, nat>, root: nat, v: nat, cap: Cap,
      rights: Rights, executable: bool)
    requires Graded(before, levels) && Graded(after, levels) && root in before && root in after && FrameOk(cap)
  {
    var vm := Effective(cap, rights);
    forall w: nat {:trigger Physical(after, levels, root, w)} :: w < WORD ==>
      Physical(after, levels, root, w) ==
        if InPage(v, PageSize(LevelOf(cap.size)), w)
          then Access(Paddr(cap.ptr) + (w - v), vm != KernelOnly, vm == ReadWrite, executable)
        else Physical(before, levels, root, w)
  }

  /** Exactly the addresses of the page lead nowhere any more. */
  ghost predicate PageUnmapped(before: Tables, after: Tables, levels: map<nat, nat>, root: nat, v: nat, pageBits: nat)
    requires Graded(before, levels) && Graded(after, levels) && root in before && root in after
  {
    forall w: nat {:trigger Physical(after, levels, root, w)} :: w < WORD ==>
      Physical(after, levels, root, w) == if InPage(v, Pow2(pageBits), w) then Fault
        else Physical(before, levels, root, w)
  }

  /** No address of the page reaches anything. */
  ghost predicate PageFree(tables: Tables, levels: map<nat, nat>, root: nat, v: nat, size: nat)
    requires Graded(tables, levels) && root in tables
  {
    forall w: nat {:trigger Physical(tables, levels, root, w)} :: InPage(v, size, w) ==>
      Physical(tables, levels, root, w) == Fault
  }

  lemma InvalidIsFree(tables: Tables, levels: map<nat, nat>, root: nat, v: nat, level: nat)
    requires Graded(tables, levels) && root in tables && levels[root] == TOP_LEVEL
    requires
      var s := Walk(tables, levels, root, v);
      s.level == level && !IsValid(EntryAt(tables, s)) && v % PageSize(level) == 0 && v < HALF
    ensures PageFree(tables, levels, root, v, PageSize(level))
  {
    forall w: nat | InPage(v, PageSize(level), w)
      ensures Physical(tables, levels, root, w) == Fault
    {
      if Canonical(w) {
        PageIsRange(v, level, w);
        SamePageSameSlot(tables, levels, root, v, w);
      }
    }
  }

  /** An aligned page in the lower half holds exactly the canonical addresses that share its entry. */
  lemma PageIsRange(v: nat, level: nat, w: nat)
    requires level <= TOP_LEVEL && v < HALF && v % PageSize(level) == 0 && Canonical(w)
    ensures SameFrom(v, w, level, TOP_LEVEL) <==> InPage(v, PageSize(level), w)
    ensures InPage(v, PageSize(level), w) ==> w % PageSize(level) == w - v
  {
    SameFromIsSamePage(v, w, level);
    if w < HALF { LowRange(v, w, level); } else { HighApart(v, w, level); }
  }

  lemma LowRange(v: nat, w: nat, level: nat)
    requires v < HALF && w < HALF && v % PageSize(level) == 0
    ensures Quot(v % SPAN, PageSize(level)) == Quot(w % SPAN, PageSize(level)) <==> InPage(v, PageSize(level), w)
    ensures InPage(v, PageSize(level), w) ==> w % PageSize(level) == w - v
  {
    DivModUnique(v, SPAN, 0, v);
    DivModUnique(w, SPAN, 0, w);
    RangeAt(v, PageSize(level), w);
  }

  lemma RangeAt(v: nat, size: nat, w: nat)
    requires size > 0 && v % size == 0
    ensures Quot(w, size) == Quot(v, size) <==> v <= w < v + size
    ensures v <= w < v + size ==> w % size == w - v
  {
    var q := Quot(v, size);
    assert v == q * size;
    if v <= w < v + size { DivModUnique(w, size, q, w - v); }
    if Quot(w, size) == q { assert w == q * size + w % size; }
  }

  lemma HighApart(v: nat, w: nat, level: nat)
    requires v < HALF && WORD - HALF <= w < WORD && v % PageSize(level) == 0
    ensures Quot(v % SPAN, PageSize(level)) != Quot(w % SPAN, PageSize(level)) && !InPage(v, PageSize(level), w)
  {
    assert v % SPAN == v;
    assert w % SPAN == w - (WORD - SPAN) by { DivModUnique(w, SPAN, (WORD - SPAN) / SPAN, w - (WORD - SPAN)); }
    LowPage(v, level, w);
    LowPage(v, level, w % SPAN);
    RangeAt(v, PageSize(level), w % SPAN);
  }

  /** What mapping the frame at slot s does to accesses. */
  lemma MapEffect(before: Tables, after: Tables, levels: map<nat, nat>, user: set<nat>, root: nat, v: nat, s: PtSlot,
                  cap: Cap, rights: Rights, executable: bool)
    requires Graded(before, levels) && Unshared(before, levels, user) && root in user && levels[root] == TOP_LEVEL
    requires s == Walk(before, levels, root, v)
    requires FrameOk(cap) && InUserRange(cap, v) && BitsLeft(s.level) == PageBits(cap.size)
    requires var vm := Effective(cap, rights);
      && Graded(after, levels)
      && after == Written(before, s, MakeUserPte(Paddr(cap.ptr), executable, vm != KernelOnly, vm == ReadWrite))
    ensures executable || Effective(cap, rights) != KernelOnly ==>
        (PageMapped(before, after, levels, root, v, cap, rights, executable) <==> v < HALF)
    ensures !executable && Effective(cap, rights) == KernelOnly && v < HALF ==>
        PageUnmapped(before, after, levels, root, v, PageBits(cap.size))
  {
    var vm := Effective(cap, rights);
    var pte := MakeUserPte(Paddr(cap.ptr), executable, vm != KernelOnly, vm == ReadWrite);
    MadePteShape(cap, executable, vm);
    FrameSizes(cap.size);
    if v < HALF { WrittenTranslation(before, after, levels, user, root, v, s, pte); }
    if executable || vm != KernelOnly {
      MadePteReads(Paddr(cap.ptr), executable, vm != KernelOnly, vm == ReadWrite);
      MappedIff(before, after, levels, root, v, s.level, pte, cap, rights, executable);
    } else if v < HALF {
      UnmappedPage(before, after, levels, root, v, s.level, PageBits(cap.size));
    }
  }

  lemma MadePteShape(cap: Cap, executable: bool, vm: VmRights)
    requires FrameOk(cap)
    ensures !IsTable(MakeUserPte(Paddr(cap.ptr), executable, vm != KernelOnly, vm == ReadWrite))
    ensures Paddr(cap.ptr) % 4096 == 0 && Paddr(cap.ptr) < 0x1000_0000_0000 * 4096
    ensures !executable && vm == KernelOnly ==>
      MakeUserPte(Paddr(cap.ptr), executable, vm != KernelOnly, vm == ReadWrite) == INVALID
  {
    SmallAligned(Paddr(cap.ptr), LevelOf(cap.size));
    if executable || vm != KernelOnly { MadePteReads(Paddr(cap.ptr), executable, vm != KernelOnly, vm == ReadWrite); }
  }

  lemma SmallAligned(p: nat, level: nat)
    requires p % PageSize(level) == 0
    ensures p % 4096 == 0
  {
  }

  lemma WrittenTranslation(
      before: Tables, after: Tables, levels: map<nat, nat>, user: set<nat>, root: nat, v: nat, s: PtSlot, p: Pte)
    requires Graded(before, levels) && Unshared(before, levels, user) && root in user && levels[root] == TOP_LEVEL
    requires s == Walk(before, levels, root, v) && !IsTable(p) && v % SPAN < HALF
    requires Graded(after, levels) && after == Written(before, s, p)
    ensures Retranslated(before, after, levels, root, v, s.level, Made(p, s.level))
  {
    forall w: nat
      ensures Translate(after, levels, root, w) ==
        if SameFrom(v, w, s.level, TOP_LEVEL) then Made(p, s.level) else Translate(before, levels, root, w)
    {
      WriteIsLocal(before, levels, user, root, v, p, w);
    }
  }

  /** The frame shows exactly at the page if that lies in the lower half. Above it the addresses are not
      canonical, and the entry belongs to other addresses. */
  lemma MappedIff(before: Tables, after: Tables, levels: map<nat, nat>, root: nat, v: nat, level: nat, p: Pte, cap: Cap,
      rights: Rights, executable: bool)
    requires Graded(before, levels) && Graded(after, levels) && root in before && root in after
    requires levels[root] == TOP_LEVEL
    requires FrameOk(cap) && level == LevelOf(cap.size) && v % PageSize(level) == 0 && v < USER_TOP && IsLeaf(p)
    requires v < HALF ==> Retranslated(before, after, levels, root, v, level, Leaf(p, level))
    requires
      var vm := Effective(cap, rights);
      && Ppn(p) * 4096 == Paddr(cap.ptr)
      && IsReadable(p) == (vm != KernelOnly) && IsWritable(p) == (vm == ReadWrite) && IsExecutable(p) == executable
      && IsUser(p) && IsAccessed(p) && IsDirty(p)
    ensures PageMapped(before, after, levels, root, v, cap, rights, executable) <==> v < HALF
  {
    if v < HALF {
      forall w: nat | w < WORD
        ensures Physical(after, levels, root, w) ==
          if InPage(v, PageSize(level), w)
            then Access(Paddr(cap.ptr) + (w - v), IsReadable(p), IsWritable(p), executable)
          else Physical(before, levels, root, w)
      {
        if Canonical(w) { PageIsRange(v, level, w); } else { LowPage(v, level, w); }
        assert Translate(after, levels, root, w) ==
          if SameFrom(v, w, level, TOP_LEVEL) then Leaf(p, level) else Translate(before, levels, root, w);
      }
    } else {
      assert !Canonical(v) && Physical(after, levels, root, v) == Fault && InPage(v, PageSize(level), v);
    }
  }

  lemma LowPage(v: nat, level: nat, w: nat)
    requires v < HALF && v % PageSize(level) == 0 && w >= HALF
    ensures !InPage(v, PageSize(level), w)
  {
  }

  lemma UnmappedPage(before: Tables, after: Tables, levels: map<nat, nat>, root: nat, v: nat, level: nat, pageBits: nat)
    requires Graded(before, levels) && Graded(after, levels) && root in before && root in after
    requires levels[root] == TOP_LEVEL
    requires level <= TOP_LEVEL && pageBits == BitsLeft(level) && v % Pow2(pageBits) == 0 && v < HALF
    requires Retranslated(before, after, levels, root, v, level, NotMapped)
    ensures PageUnmapped(before, after, levels, root, v, pageBits)
  {
    PageSizes();
    assert Pow2(pageBits) == PageSize(level);
    forall w: nat | w < WORD
      ensures Physical(after, levels, root, w) == if InPage(v, Pow2(pageBits), w) then Fault
        else Physical(before, levels, root, w)
    {
      if Canonical(w) { PageIsRange(v, level, w); } else { LowPage(v, level, w); }
      assert Translate(after, levels, root, w) == if SameFrom(v, w, level, TOP_LEVEL) then NotMapped
        else Translate(before, levels, root, w);
    }
  }
}
