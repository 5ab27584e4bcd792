/** Address spaces as the kernel builds and changes them (sel4_vspace/src/arch/riscv64/pagetable.rs,
    sel4_vspace/src/arch/riscv64/pte.rs, kernel/src/syscall/invocation/decode/arch/riscv64.rs,
    kernel/src/syscall/invocation/invoke_mmu_op.rs): the kernel window, which every address space shares, page tables
    and frames. */
module VSpaces {
  import opened Words
  import opened Caps
  import opened Sv39

  /** A page of zeros. */
  function Zeros(): (row: seq<Pte>)
    ensures |row| == ENTRIES && forall i :: 0 <= i < ENTRIES ==> row[i] == INVALID
  {
    seq(ENTRIES, _ => INVALID)
  }

  // ---- the kernel window ----

  /** pte_next_table: valid and global; a leaf also readable, writable, executable, accessed and dirty. */
  function KernelPte(paddr: nat, leaf: bool): (p: Pte) {
    paddr / 4096 * 1024 + 33 + Bit(leaf, 206)
  }

  lemma KernelPteReads(paddr: nat, leaf: bool)
    requires paddr % 4096 == 0 && paddr < 0x1000_0000_0000 * 4096
    ensures
      var p := KernelPte(paddr, leaf);
      Ppn(p) * 4096 == paddr && (leaf ==> IsLeaf(p)) && (!leaf ==> IsTable(p))
  {
    var n, flags := Quot(paddr, 4096), 33 + Bit(leaf, 206);
    FlagsRead(n, flags);
    KernelFlags(leaf);
    assert paddr == n * 4096;
  }

  lemma KernelFlags(leaf: bool)
    ensures
      var flags := 33 + Bit(leaf, 206);
      && flags < 256 && flags % 2 == 1
      && flags / 2 % 2 == Bit(leaf, 1) && flags / 4 % 2 == Bit(leaf, 1) && flags / 8 % 2 == Bit(leaf, 1)
  {}

  const GIGA := 0x4000_0000
  const MEGA := 0x20_0000
  const KERNEL_ELF_PADDR := 0x8000_0000
  const ELF_ENTRY := 258
  const ELF_TOP_ENTRY := 510

  /** The root table of the kernel: memory as it is, and two entries for the table of the kernel image. */
  predicate RootEntry(row: seq<Pte>, image: nat, i: nat)
    requires |row| == ENTRIES && i < ENTRIES
  {
    if i == ELF_ENTRY || i == ELF_TOP_ENTRY then row[i] == KernelPte(image * 4096, false)
    else if USER_ENTRIES <= i < ELF_TOP_ENTRY then row[i] == KernelPte((i - USER_ENTRIES) * GIGA, true)
    else row[i] == INVALID
  }

  ghost predicate KernelWindow(tables: Tables, root: nat, image: nat) {
    && root != image && tables.Keys == {root, image} && |tables[root]| == ENTRIES && |tables[image]| == ENTRIES
    && (forall i {:trigger RootEntry(tables[root], image, i)} :: 0 <= i < ENTRIES ==> RootEntry(tables[root], image, i))
    && forall i :: 0 <= i < ENTRIES ==> tables[image][i] == KernelPte(KERNEL_ELF_PADDR + i * MEGA, true)
  }

  /** rust_map_kernel_window, with the page numbers of its two tables. */
  method MapKernelWindow(root: nat, image: nat) returns (tables: Tables)
    requires root != image
    ensures KernelWindow(tables, root, image)
  {
    var row := Zeros();
    for k := 0 to ELF_TOP_ENTRY - USER_ENTRIES
      invariant |row| == ENTRIES
      invariant forall i :: 0 <= i < ENTRIES ==>
        row[i] == if USER_ENTRIES <= i < USER_ENTRIES + k then KernelPte((i - USER_ENTRIES) * GIGA, true) else INVALID
    {
      row := row[USER_ENTRIES + k := KernelPte(k * GIGA, true)];
    }
    row := row[ELF_ENTRY := KernelPte(image * 4096, false)][ELF_TOP_ENTRY := KernelPte(image * 4096, false)];
    var row2 := Zeros();
    for k := 0 to ENTRIES
      invariant |row2| == ENTRIES
      invariant forall i :: 0 <= i < k ==> row2[i] == KernelPte(KERNEL_ELF_PADDR + i * MEGA, true)
    {
      row2 := row2[k := KernelPte(KERNEL_ELF_PADDR + k * MEGA, true)];
    }
    tables := map[root := row, image := row2];
  }

  /** What an address space asks of the kernel's tables: they are graded, and the lower half of the root is free. */
  ghost predicate KernelOk(kernel: Tables, levels: map<nat, nat>, root: nat) {
    && Graded(kernel, levels) && root in kernel && levels[root] == TOP_LEVEL
    && forall i :: 0 <= i < USER_ENTRIES ==> !IsValid(kernel[root][i])
  }

  lemma WindowEntries(row: seq<Pte>, image: nat, i: nat)
    requires |row| == ENTRIES && i < ENTRIES && RootEntry(row, image, i) && image < 0x1000_0000_0000
    ensures IsTable(row[i]) <==> i == ELF_ENTRY || i == ELF_TOP_ENTRY
    ensures IsTable(row[i]) ==> Ppn(row[i]) == image
    ensures i < USER_ENTRIES ==> !IsValid(row[i])
  {
    KernelPteReads(image * 4096, false);
    if USER_ENTRIES <= i < ELF_TOP_ENTRY { GigaReads(i - USER_ENTRIES); }
  }

  lemma GigaReads(k: nat)
    requires k < ENTRIES
    ensures IsLeaf(KernelPte(k * GIGA, true))
  {
    KernelPteReads(k * GIGA, true);
  }

  lemma MegaReads(k: nat)
    requires k < ENTRIES
    ensures IsLeaf(KernelPte(KERNEL_ELF_PADDR + k * MEGA, true))
  {
    KernelPteReads(KERNEL_ELF_PADDR + k * MEGA, true);
  }

  /** The window is such tables, although two of its root entries lead to the same one. */
  lemma WindowIsKernel(tables: Tables, root: nat, image: nat)
    requires KernelWindow(tables, root, image) && image < 0x1000_0000_0000
    ensures KernelOk(tables, map[root := TOP_LEVEL, image := 1], root)
    ensures IsTable(tables[root][ELF_ENTRY]) && IsTable(tables[root][ELF_TOP_ENTRY])
    ensures Ppn(tables[root][ELF_ENTRY]) == Ppn(tables[root][ELF_TOP_ENTRY]) == image
  {
    var levels := map[root := TOP_LEVEL, image := 1];
    forall t, i | t in tables && 0 <= i < ENTRIES
      ensures EntryOk(tables, levels, t, i)
    {
      if t == root {
        assert RootEntry(tables[root], image, i);
        WindowEntries(tables[root], image, i);
      } else {
        MegaReads(i);
      }
    }
    forall i | 0 <= i < USER_ENTRIES
      ensures !IsValid(tables[root][i])
    {
      assert RootEntry(tables[root], image, i);
      WindowEntries(tables[root], image, i);
    }
    assert RootEntry(tables[root], image, ELF_ENTRY) && RootEntry(tables[root], image, ELF_TOP_ENTRY);
    WindowEntries(tables[root], image, ELF_ENTRY);
    WindowEntries(tables[root], image, ELF_TOP_ENTRY);
  }

  /** The root of an address space after copyGlobalMappings. */
  ghost predicate Copied(kernel: Tables, kroot: nat, tables: Tables, root: nat) {
    && kroot in kernel && |kernel[kroot]| == ENTRIES && root !in kernel && tables.Keys == kernel.Keys + {root}
    && (forall t :: t in kernel ==> tables[t] == kernel[t]) && |tables[root]| == ENTRIES
    && forall i :: 0 <= i < ENTRIES ==> tables[root][i] == if i < 2 then INVALID else kernel[kroot][i]
  }

  lemma CopiedOk(kernel: Tables, levels: map<nat, nat>, kroot: nat, tables: Tables, root: nat)
    requires KernelOk(kernel, levels, kroot) && Copied(kernel, kroot, tables, root)
    ensures Graded(tables, levels[root := TOP_LEVEL]) && Unshared(tables, levels[root := TOP_LEVEL], {root})
  {
    var levels' := levels[root := TOP_LEVEL];
    forall t, i | t in tables && 0 <= i < ENTRIES
      ensures EntryOk(tables, levels', t, i) && Kept(tables, levels', {root}, t, i)
    {
      assert EntryOk(kernel, levels, if t == root then kroot else t, i);
    }
    forall t, i, u, j | t in tables && u in tables && 0 <= i < ENTRIES && 0 <= j < ENTRIES
      ensures SoleParent(tables, levels', {root}, t, i, u, j)
    {
      assert EntryOk(tables, levels', t, i);
    }
  }

  /** No entry of the kernel's window is for users. */
  ghost predicate ForKernelOnly(tables: Tables, levels: map<nat, nat>)
    requires Graded(tables, levels)
  {
    forall t, i {:trigger tables[t][i]} :: t in tables && 0 <= i < ENTRIES ==> !IsUser(tables[t][i])
  }

  lemma KernelPteHidden(paddr: nat, leaf: bool)
    requires paddr % 4096 == 0
    ensures !IsUser(KernelPte(paddr, leaf))
  {
    FlagsRead(Quot(paddr, 4096), 33 + Bit(leaf, 206));
  }

  lemma WindowForKernelOnly(tables: Tables, root: nat, image: nat)
    requires KernelWindow(tables, root, image) && image < 0x1000_0000_0000
    requires Graded(tables, map[root := TOP_LEVEL, image := 1])
    ensures ForKernelOnly(tables, map[root := TOP_LEVEL, image := 1])
  {
    forall t, i | t in tables && 0 <= i < ENTRIES
      ensures !IsUser(tables[t][i])
    {
      if t == root {
        assert RootEntry(tables[root], image, i);
        KernelPteHidden(image * 4096, false);
        if USER_ENTRIES <= i < ELF_TOP_ENTRY { KernelPteHidden((i - USER_ENTRIES) * GIGA, true); }
      } else {
        KernelPteHidden(KERNEL_ELF_PADDR + i * MEGA, true);
      }
    }
  }

  /** A fresh address space shows a user nothing at all: the kernel's window is there and out of reach. */
  lemma FreshShowsNothing(kernel: Tables, levels: map<nat, nat>, kroot: nat, tables: Tables, root: nat, w: nat)
    requires KernelOk(kernel, levels, kroot) && ForKernelOnly(kernel, levels) && Copied(kernel, kroot, tables, root)
    requires Graded(tables, levels[root := TOP_LEVEL])
    ensures Physical(tables, levels[root := TOP_LEVEL], root, w) == Fault
  {
    var s := Walk(tables, levels[root := TOP_LEVEL], root, w);
    assert !IsUser(tables[s.table][s.index]) by {
      if s.table == root { assert !IsUser(kernel[kroot][s.index]); } else { assert !IsUser(kernel[s.table][s.index]); }
    }
  }

  /** In a fresh address space nothing of the lower half is mapped. */
  lemma FreshIsFree(kernel: Tables, levels: map<nat, nat>, kroot: nat, tables: Tables, root: nat, v: nat)
    requires KernelOk(kernel, levels, kroot) && Copied(kernel, kroot, tables, root) && v % SPAN < HALF
    requires Graded(tables, levels[root := TOP_LEVEL])
    ensures
      var s := Walk(tables, levels[root := TOP_LEVEL], root, v);
      s == PtSlot(root, IndexOf(v, TOP_LEVEL), TOP_LEVEL) && !IsValid(EntryAt(tables, s))
  {
    UserAddress(levels[root := TOP_LEVEL], root, v);
  }

  // ---- page tables ----

  /** A page table capability names one page. */
  predicate TableOk(cap: Cap) {
    cap.PageTableCap? && PPTR_BASE <= cap.ptr < WORD && Paddr(cap.ptr) % 4096 == 0
  }

  function TablePage(cap: Cap): (n: nat)
    requires TableOk(cap)
    ensures n * 4096 == Paddr(cap.ptr) && n < 0x1000_0000_0000
  {
    Quot(Paddr(cap.ptr), 4096)
  }

  /** PTE::new with the valid flag alone. */
  function TablePte(page: nat): (p: Pte) {
    page * 1024 + 1
  }

  lemma TablePteReads(page: nat)
    requires page < 0x1000_0000_0000
    ensures IsTable(TablePte(page)) && Ppn(TablePte(page)) == page && IsValid(TablePte(page))
  {
    FlagsRead(page, 1);
  }

  /** The tables with an empty one linked in at slot s. */
  function WithTable(tables: Tables, s: PtSlot, page: nat): (r: Tables)
    requires s.table in tables && s.index < |tables[s.table]| && page !in tables
  {
    Written(tables[page := Zeros()], s, TablePte(page))
  }

  lemma LinkKeepsGraded(tables: Tables, levels: map<nat, nat>, s: PtSlot, page: nat)
    requires Graded(tables, levels) && s.table in tables && s.index < ENTRIES && s.level == levels[s.table] > 0
    requires page !in tables && page < 0x1000_0000_0000
    ensures Graded(WithTable(tables, s, page), levels[page := s.level - 1])
  {
    var tables', levels' := WithTable(tables, s, page), levels[page := s.level - 1];
    TablePteReads(page);
    forall t, i | t in tables' && 0 <= i < ENTRIES
      ensures EntryOk(tables', levels', t, i)
    {
      if t in tables { assert EntryOk(tables, levels, t, i); }
    }
  }

  function UsersWith(levels: map<nat, nat>, user: set<nat>, s: PtSlot, page: nat): (r: set<nat>) {
    if s.table in user && UserEntry(levels, s.table, s.index) then user + {page} else user
  }

  lemma LinkKeepsUnshared(tables: Tables, levels: map<nat, nat>, user: set<nat>, s: PtSlot, page: nat)
    requires Graded(tables, levels) && Unshared(tables, levels, user)
    requires s.table in tables && s.index < ENTRIES && s.level == levels[s.table] > 0
    requires page !in tables && page < 0x1000_0000_0000
    requires Graded(WithTable(tables, s, page), levels[page := s.level - 1])
    ensures Unshared(WithTable(tables, s, page), levels[page := s.level - 1], UsersWith(levels, user, s, page))
  {
    var tables', levels' := WithTable(tables, s, page), levels[page := s.level - 1];
    var user' := UsersWith(levels, user, s, page);
    TablePteReads(page);
    forall t, i | t in tables' && 0 <= i < ENTRIES
      ensures Kept(tables', levels', user', t, i)
    {
      if t in tables { assert Kept(tables, levels, user, t, i) && EntryOk(tables, levels, t, i); }
    }
    forall t, i, u, j | t in tables' && u in tables' && 0 <= i < ENTRIES && 0 <= j < ENTRIES
      ensures SoleParent(tables', levels', user', t, i, u, j)
    {
      if t in tables && u in tables {
        assert SoleParent(tables, levels, user, t, i, u, j);
        assert EntryOk(tables, levels, t, i);
        assert EntryOk(tables, levels, u, j);
      }
    }
  }

  /** Walks that ended at the slot go one table further, all others are the same. */
  lemma {:induction false} LinkedWalk(tables: Tables, levels: map<nat, nat>, s: PtSlot, page: nat, t: nat, w: nat)
    requires Graded(tables, levels) && s.table in tables && s.index < ENTRIES && s.level == levels[s.table] > 0
    requires page !in tables && page < 0x1000_0000_0000
    requires Graded(WithTable(tables, s, page), levels[page := s.level - 1])
    requires !IsValid(EntryAt(tables, s)) && t in tables
    ensures
      var was := Walk(tables, levels, t, w);
      Walk(WithTable(tables, s, page), levels[page := s.level - 1], t, w) ==
        if was == s then PtSlot(page, IndexOf(w, s.level - 1), s.level - 1) else was
    decreases levels[t]
  {
    TablePteReads(page);
    var i := IndexOf(w, levels[t]);
    assert EntryOk(tables, levels, t, i);
    if IsTable(tables[t][i]) && levels[t] > 0 {
      LinkedWalk(tables, levels, s, page, Ppn(tables[t][i]), w);
    }
  }

  /** The table is in, nothing translates differently, and the address leads into it. */
  ghost predicate Linked(
      was: Tables, levels: map<nat, nat>, now: Tables, levels': map<nat, nat>, root: nat, s: PtSlot, page: nat)
  {
    && Graded(was, levels) && Graded(now, levels') && root in was && root in now
    && s.table in was && s.level == levels[s.table] > 0 && page !in was && now.Keys == was.Keys + {page}
    && levels' == levels[page := s.level - 1]
    && s.index < ENTRIES && now == WithTable(was, s, page)
    && (forall w: nat :: Translate(now, levels', root, w) == Translate(was, levels, root, w))
    && (forall w: nat :: Walk(now, levels', root, w) == WalkInto(was, levels, root, s, page, w))
  }

  function WalkInto(tables: Tables, levels: map<nat, nat>, root: nat, s: PtSlot, page: nat, w: nat): (r: PtSlot)
    requires Graded(tables, levels) && root in tables && s.level > 0
  {
    var was := Walk(tables, levels, root, w);
    if was == s then PtSlot(page, IndexOf(w, s.level - 1), s.level - 1) else was
  }

  lemma LinkIsLinked(tables: Tables, levels: map<nat, nat>, root: nat, s: PtSlot, page: nat)
    requires Graded(tables, levels) && root in tables && s.table in tables && s.index < ENTRIES
    requires s.level == levels[s.table] > 0
    requires page !in tables && page < 0x1000_0000_0000 && !IsValid(EntryAt(tables, s))
    ensures Linked(tables, levels, WithTable(tables, s, page), levels[page := s.level - 1], root, s, page)
  {
    var now, levels' := WithTable(tables, s, page), levels[page := s.level - 1];
    LinkKeepsGraded(tables, levels, s, page);
    forall w: nat
      ensures Translate(now, levels', root, w) == Translate(tables, levels, root, w)
      ensures Walk(now, levels', root, w) == WalkInto(tables, levels, root, s, page, w)
    {
      LinkedWalk(tables, levels, s, page, root, w);
    }
  }

  /** The walk for v goes through table t. */
  ghost predicate Passes(tables: Tables, levels: map<nat, nat>, from: nat, v: nat, t: nat)
    requires Graded(tables, levels) && from in tables
    decreases levels[from]
  {
    var i := IndexOf(v, levels[from]);
    assert EntryOk(tables, levels, from, i);
    t == from || (IsTable(tables[from][i]) && levels[from] > 0 && Passes(tables, levels, Ppn(tables[from][i]), v, t))
  }

  /** The address without the bits that stay inside an entry of the level. */
  function RoundedDown(v: nat, level: nat): (r: nat)
    ensures r <= v
  {
    Quot(v, Pow2(BitsLeft(level))) * Pow2(BitsLeft(level))
  }

  // ---- one address space ----

  /** What translating w gives when slot s is read as m. */
  ghost function TranslateBut(tables: Tables, levels: map<nat, nat>, root: nat, s: PtSlot, m: Translation,
      w: nat): (r: Translation)
    requires Graded(tables, levels) && root in tables
  {
    if Walk(tables, levels, root, w) == s then m else Translate(tables, levels, root, w)
  }

  ghost predicate SlotWritten(was: Tables, now: Tables, levels: map<nat, nat>, root: nat, s: PtSlot, m: Translation)
    requires Graded(was, levels) && Graded(now, levels) && root in was && root in now
  {
    forall w: nat :: Translate(now, levels, root, w) == TranslateBut(was, levels, root, s, m, w)
  }

  datatype TableResult = TableRefused | TableMapped(cap: Cap)

  /** The entry maps this frame with this size. */
  predicate MapsFrame(tables: Tables, s: PtSlot, pageBits: nat, paddr: nat)
    requires s.table in tables && s.index < |tables[s.table]|
  {
    BitsLeft(s.level) == pageBits && IsLeaf(EntryAt(tables, s)) && Ppn(EntryAt(tables, s)) * 4096 == paddr
  }

  /** The addresses that led to the entry of v lead nowhere, all others where they did. For an address of the lower
      half these are the addresses of its page. */
  ghost predicate Cleared(was: Tables, now: Tables, levels: map<nat, nat>, root: nat, v: nat)
    requires Graded(was, levels) && Graded(now, levels) && root in was && root in now
  {
    var s := Walk(was, levels, root, v);
    && SlotWritten(was, now, levels, root, s, NotMapped)
    && (v % SPAN < HALF ==> Retranslated(was, now, levels, root, v, s.level, NotMapped))
    && (v < HALF && v % PageSize(s.level) == 0 ==> PageUnmapped(was, now, levels, root, v, BitsLeft(s.level)))
  }

  lemma ClearIsSlot(was: Tables, now: Tables, levels: map<nat, nat>, root: nat, v: nat, s: PtSlot)
    requires Graded(was, levels) && root in was && s == Walk(was, levels, root, v)
    requires Graded(now, levels) && now == Written(was, s, INVALID)
    ensures SlotWritten(was, now, levels, root, s, NotMapped)
  {
    forall w: nat
      ensures Translate(now, levels, root, w) == TranslateBut(was, levels, root, s, NotMapped, w)
    {
      WriteIsSlot(was, levels, root, v, INVALID, w);
    }
  }

  lemma ClearIsPage(was: Tables, now: Tables, levels: map<nat, nat>, root: nat, v: nat, level: nat)
    requires Graded(was, levels) && Graded(now, levels) && root in was && root in now && levels[root] == TOP_LEVEL
    requires level <= TOP_LEVEL && v < HALF && v % PageSize(level) == 0
    requires Retranslated(was, now, levels, root, v, level, NotMapped)
    ensures PageUnmapped(was, now, levels, root, v, BitsLeft(level))
  {
    PageSizes();
    UnmappedPage(was, now, levels, root, v, level, BitsLeft(level));
  }

  lemma LowAddress(v: nat)
    ensures v < HALF ==> v % SPAN < HALF
  {
    if v < HALF { DivModUnique(v, SPAN, 0, v); }
  }

  lemma ClearEffect(was: Tables, now: Tables, levels: map<nat, nat>, user: set<nat>, root: nat, v: nat, s: PtSlot)
    requires Graded(was, levels) && Unshared(was, levels, user) && root in user && levels[root] == TOP_LEVEL
    requires s == Walk(was, levels, root, v) && Graded(now, levels) && now == Written(was, s, INVALID)
    ensures Cleared(was, now, levels, root, v)
  {
    ClearIsSlot(was, now, levels, root, v, s);
    LowAddress(v);
    if v % SPAN < HALF { WrittenTranslation(was, now, levels, user, root, v, s, INVALID); }
    if v < HALF && v % PageSize(s.level) == 0 { ClearIsPage(was, now, levels, root, v, s.level); }
  }

  class VSpace {
    var tables: Tables
    ghost var levels: map<nat, nat>
    ghost var user: set<nat>
    const root: nat

    /** A page of zeros, into which copyGlobalMappings copies the kernel's entries. */
    constructor (r: nat, kernel: Tables, ghost klevels: map<nat, nat>, kroot: nat)
      requires KernelOk(kernel, klevels, kroot) && r !in kernel
      ensures root == r && Valid() && Copied(kernel, kroot, tables, root)
      ensures levels == klevels[r := TOP_LEVEL]
    {
      root := r;
      tables := kernel[r := Zeros()];
      levels := klevels[r := TOP_LEVEL];
      user := {r};
      new;
      CopyGlobalMappings(kroot);
      CopiedOk(kernel, klevels, kroot, tables, root);
    }

    ghost predicate Valid()
      reads this
    {
      Graded(tables, levels) && Unshared(tables, levels, user) && root in user && levels[root] == TOP_LEVEL
    }

    /** copyGlobalMappings, from the index of 0x80000000 on. */
    method CopyGlobalMappings(kroot: nat)
      requires root in tables && kroot in tables && kroot != root && |tables[root]| == |tables[kroot]| == ENTRIES
      modifies `tables
      ensures tables.Keys == old(tables).Keys && (forall t :: t in tables && t != root ==> tables[t] == old(tables)[t])
      ensures |tables[root]| == ENTRIES
      ensures forall i :: 0 <= i < ENTRIES ==> tables[root][i] == old(tables)[if i < 2 then root else kroot][i]
    {
      for i := 2 to ENTRIES
        invariant tables.Keys == old(tables).Keys && |tables[root]| == ENTRIES
        invariant forall t :: t in tables && t != root ==> tables[t] == old(tables)[t]
        invariant forall k :: 0 <= k < ENTRIES ==> tables[root][k] == old(tables)[if 2 <= k < i then kroot else root][k]
      {
        var row: seq<Pte> := tables[root][i := tables[kroot][i]];
        tables := tables[root := row];
      }
    }

    /** lookup_pt_slot: the loop down the levels. */
    method LookupPtSlot(vptr: nat) returns (s: PtSlot)
      requires Valid()
      ensures s == Walk(tables, levels, root, vptr)
    {
      var level, t := TOP_LEVEL, root;
      var i := IndexOf(vptr, level);
      while IsTable(tables[t][i]) && level > 0
        invariant t in tables && level == levels[t] && i == IndexOf(vptr, level)
        invariant Walk(tables, levels, t, vptr) == Walk(tables, levels, root, vptr)
        decreases level
      {
        assert EntryOk(tables, levels, t, i);
        t := Ppn(tables[t][i]);
        level := level - 1;
        i := IndexOf(vptr, level);
      }
      s := PtSlot(t, i, level);
    }

    /** decode_frame_map and invoke_page_map: a frame that is not mapped needs an invalid entry, one that is
        mapped may be mapped again at its address. */
    method MapFrame(cap: Cap, vaddr: nat, rights: Rights, executable: bool, asid: nat) returns (r: MapResult)
      requires Valid() && FrameOk(cap)
      modifies `tables
      ensures Valid()
      ensures
        var s := Walk(old(tables), levels, root, vaddr);
        var vm := Effective(cap, rights);
        && (r.Mapped? <==> InUserRange(cap, vaddr) && MayMap(cap, vaddr, asid, s.level, EntryAt(old(tables), s)))
        && (r.Refused? ==> tables == old(tables))
        && (r.Mapped? ==>
              && r.cap == Recorded(cap, asid, vaddr)
              && tables ==
                Written(old(tables), s, MakeUserPte(Paddr(cap.ptr), executable, vm != KernelOnly, vm == ReadWrite)))
      ensures r.Mapped? && (executable || Effective(cap, rights) != KernelOnly) ==>
        (PageMapped(old(tables), tables, levels, root, vaddr, cap, rights, executable) <==> vaddr < HALF)
      ensures r.Mapped? && !executable && Effective(cap, rights) == KernelOnly && vaddr < HALF ==>
        PageUnmapped(old(tables), tables, levels, root, vaddr, PageBits(cap.size))
      ensures r.Mapped? && cap.mappedAsid == 0 && vaddr < HALF ==>
        PageFree(old(tables), levels, root, vaddr, PageSize(LevelOf(cap.size)))
    {
      if !InUserRange(cap, vaddr) { return Refused; }
      var s := LookupPtSlot(vaddr);
      var entry := tables[s.table][s.index];
      if !MayMap(cap, vaddr, asid, s.level, entry) { return Refused; }
      var vm := Effective(cap, rights);
      var pte := MakeUserPte(Paddr(cap.ptr), executable, vm != KernelOnly, vm == ReadWrite);
      ghost var tables0 := tables;
      MadePteShape(cap, executable, vm);
      WriteKeepsGraded(tables, levels, s, pte);
      WriteKeepsUnshared(tables, levels, user, s, pte);
      tables := Written(tables, s, pte);
      MapEffect(tables0, tables, levels, user, root, vaddr, s, cap, rights, executable);
      FrameSizes(cap.size);
      if cap.mappedAsid == 0 && vaddr < HALF { InvalidIsFree(tables0, levels, root, vaddr, s.level); }
      return Mapped(Recorded(cap, asid, vaddr));
    }

    /** unmapPage: nothing happens unless the address is mapped, with this size, to this frame. */
    method UnmapPage(vptr: nat, pageBits: nat, paddr: nat) returns (done: bool)
      requires Valid()
      modifies `tables
      ensures Valid()
      ensures
        var s := Walk(old(tables), levels, root, vptr);
        && (done <==> MapsFrame(old(tables), s, pageBits, paddr))
        && (!done ==> tables == old(tables))
        && (done ==> Cleared(old(tables), tables, levels, root, vptr))
    {
      var s := LookupPtSlot(vptr);
      if BitsLeft(s.level) != pageBits { return false; }
      var slot := tables[s.table][s.index];
      if !IsValid(slot) || IsTable(slot) || Ppn(slot) * 4096 != paddr { return false; }
      ghost var tables0 := tables;
      WriteKeepsGraded(tables, levels, s, INVALID);
      WriteKeepsUnshared(tables, levels, user, s, INVALID);
      tables := Written(tables, s, INVALID);
      ClearEffect(tables0, tables, levels, user, root, vptr, s);
      return true;
    }

    /** decode_page_table_map and invoke_page_table_map. A table that is linked nowhere is a page of zeros, as it was
        created; nothing asks whether it is linked already. */
    method MapPageTable(cap: Cap, vaddr: nat, asid: nat) returns (r: TableResult)
      requires Valid() && TableOk(cap)
      modifies this
      ensures
        var s := Walk(old(tables), old(levels), root, vaddr);
        && (r.TableMapped? <==>
              !cap.isMapped && vaddr < USER_TOP && s.level > 0 && !IsValid(EntryAt(old(tables), s)))
        && (r.TableRefused? ==> tables == old(tables) && levels == old(levels) && Valid())
        && (r.TableMapped? ==>
              && r.cap == PageTableCap(cap.ptr, true, asid, RoundedDown(vaddr, s.level))
              && (if TablePage(cap) in old(tables)
                  then tables == Written(old(tables), s, TablePte(TablePage(cap))) && levels == old(levels)
                  else Linked(old(tables), old(levels), tables, levels, root, s, TablePage(cap)) && Valid()))
    {
      if cap.isMapped || vaddr >= USER_TOP { return TableRefused; }
      var s := LookupPtSlot(vaddr);
      if s.level == 0 || IsValid(tables[s.table][s.index]) { return TableRefused; }
      var page := TablePage(cap);
      if page in tables {
        tables := Written(tables, s, TablePte(page));
      } else {
        ghost var tables0, levels0 := tables, levels;
        tables := WithTable(tables, s, page);
        levels := levels[page := s.level - 1];
        user := UsersWith(levels0, user, s, page);
        LinkIsLinked(tables0, levels0, root, s, page);
        LinkKeepsUnshared(tables0, levels0, old(user), s, page);
      }
      return TableMapped(PageTableCap(cap.ptr, true, asid, RoundedDown(vaddr, s.level)));
    }

    /** unmap_page_table, with what memory outside the tables holds. The loop gives up at an entry that leads to a
        table. */
    method UnmapPageTable(vptr: nat, target: nat, outside: (nat, nat) -> Pte)
      requires Graded(tables, levels) && root in tables && levels[root] == TOP_LEVEL && target != root
      modifies `tables
      ensures Graded(tables, levels) && root in tables
      ensures IsTable(old(tables)[root][IndexOf(vptr, TOP_LEVEL)]) ==> tables == old(tables)
      ensures forall t :: t in tables && t != root ==>
        (Passes(tables, levels, root, vptr, t) <==> Passes(old(tables), levels, root, vptr, t))
    {
      var s := PtSlot(root, IndexOf(vptr, TOP_LEVEL), TOP_LEVEL);
      var pt, i := root, 0;
      while i < TOP_LEVEL && pt != target
        invariant i <= TOP_LEVEL && (i == 0 ==> pt == root && s.level == TOP_LEVEL)
        invariant i > 0 ==> !IsTable(tables[root][IndexOf(vptr, TOP_LEVEL)])
        invariant s.index < ENTRIES && (s.table == root ==> s.index == IndexOf(vptr, TOP_LEVEL) || i > 0)
      {
        s := PtSlot(pt, IndexOf(vptr, TOP_LEVEL - i), TOP_LEVEL - i);
        var entry := if pt in tables then tables[pt][s.index] else outside(pt, s.index);
        if IsTable(entry) { return; }
        pt := Ppn(entry);
        i := i + 1;
      }
      if pt != target { return; }
      if s.table in tables {
        WriteKeepsGraded(tables, levels, s, INVALID);
        tables := Written(tables, s, INVALID);
      }
    }
  }

  /** Mapping a page where nothing was and unmapping it again leaves every access as it was. */
  lemma UnmapUndoesMap(
      tables: Tables, levels: map<nat, nat>, root: nat, v: nat, paddr: nat, executable: bool, read: bool, write: bool,
        w: nat)
    requires Graded(tables, levels) && root in tables && !IsValid(EntryAt(tables, Walk(tables, levels, root, v)))
    requires paddr % 4096 == 0 && paddr < 0x1000_0000_0000 * 4096 && (executable || read || write)
    ensures
      var s := Walk(tables, levels, root, v);
      var mapped := Written(tables, s, MakeUserPte(paddr, executable, read, write));
      && Graded(mapped, levels) && Walk(mapped, levels, root, v) == s
      && IsLeaf(EntryAt(mapped, s)) && Ppn(EntryAt(mapped, s)) * 4096 == paddr
      && Graded(Written(mapped, s, INVALID), levels)
      && Physical(Written(mapped, s, INVALID), levels, root, w) == Physical(tables, levels, root, w)
  {
    var s := Walk(tables, levels, root, v);
    var p := MakeUserPte(paddr, executable, read, write);
    MadePteReads(paddr, executable, read, write);
    var mapped := Written(tables, s, p);
    WriteIsSlot(tables, levels, root, v, p, w);
    WriteKeepsWalk(tables, levels, s, p, root, v);
    WriteKeepsWalk(tables, levels, s, p, root, w);
    WriteIsSlot(mapped, levels, root, v, INVALID, w);
  }

  lemma SmallIndex(v: nat)
    requires v < SPAN
    ensures IndexOf(v, TOP_LEVEL) == v / GIGA
  {
    SplitIndex(v);
  }

  /** A walk that ended where the table was linked ends in the table now, at an invalid entry. */
  lemma LinkedAt(was: Tables, levels: map<nat, nat>, now: Tables, levels': map<nat, nat>, root: nat, s: PtSlot,
      page: nat, w: nat)
    requires Linked(was, levels, now, levels', root, s, page) && Walk(was, levels, root, w) == s
    ensures Walk(now, levels', root, w) == PtSlot(page, IndexOf(w, s.level - 1), s.level - 1)
    ensures EntryAt(now, Walk(now, levels', root, w)) == INVALID
  {
    assert Walk(now, levels', root, w) == WalkInto(was, levels, root, s, page, w);
  }

  lemma LinkedElsewhere(
      was: Tables, levels: map<nat, nat>, now: Tables, levels': map<nat, nat>, root: nat, s: PtSlot, page: nat, w: nat)
    requires Linked(was, levels, now, levels', root, s, page) && Walk(was, levels, root, w) != s
    ensures Walk(now, levels', root, w) == Walk(was, levels, root, w)
    ensures EntryAt(now, Walk(now, levels', root, w)) == EntryAt(was, Walk(was, levels, root, w))
  {
    assert Walk(now, levels', root, w) == WalkInto(was, levels, root, s, page, w);
  }

  lemma GigaFurther(v: nat)
    requires v < GIGA
    ensures IndexOf(v, 2) == 0 && IndexOf(v + GIGA, 2) == 1 && IndexOf(v + GIGA, 1) == IndexOf(v, 1)
  {
    SplitIndex(v);
    SplitIndex(v + GIGA);
    assert v / GIGA == 0 && (v + GIGA) / GIGA == 1;
    assert (v + GIGA) / MEGA == v / MEGA + 512;
  }

  /** An empty table under the first two entries of the root. */
  lemma LinkedTwice(tables: Tables, levels: map<nat, nat>, now: Tables, root: nat, page: nat)
    requires Graded(tables, levels) && root in tables && levels[root] == TOP_LEVEL && page in tables
    requires levels[page] == 1
    requires page < 0x1000_0000_0000 && tables[page] == Zeros() && tables[root][0] == TablePte(page)
    requires now == Written(tables, PtSlot(root, 1, 2), TablePte(page))
    ensures Graded(now, levels)
    ensures forall v: nat :: v < GIGA ==> Walk(now, levels, root, v + GIGA) == Walk(now, levels, root, v)
  {
    TablePteReads(page);
    forall t, i | t in now && 0 <= i < ENTRIES
      ensures EntryOk(now, levels, t, i)
    {
      assert EntryOk(tables, levels, t, i);
    }
    forall v: nat | v < GIGA
      ensures Walk(now, levels, root, v + GIGA) == Walk(now, levels, root, v)
    {
      GigaFurther(v);
      assert Walk(now, levels, root, v) == Walk(now, levels, page, v);
      assert Walk(now, levels, root, v + GIGA) == Walk(now, levels, page, v + GIGA);
    }
  }

  /** Address 0 and another end in the same entry, which is free, and will in every table below it. */
  ghost predicate FreeAtBoth(tables: Tables, levels: map<nat, nat>, root: nat, high: nat, s: PtSlot) {
    && Graded(tables, levels) && root in tables && SameIndices(high)
    && Walk(tables, levels, root, 0) == Walk(tables, levels, root, high) == s && !IsValid(EntryAt(tables, s))
  }

  ghost predicate SameIndices(high: nat) {
    forall level :: 0 <= level <= TOP_LEVEL ==> IndexOf(high, level) == IndexOf(0, level)
  }

  lemma FreshIsFreeAtBoth(kernel: Tables, levels: map<nat, nat>, kroot: nat, tables: Tables, root: nat, high: nat)
    requires KernelOk(kernel, levels, kroot) && Copied(kernel, kroot, tables, root) && high % SPAN == 0
    requires SameIndices(high)
    requires Graded(tables, levels[root := TOP_LEVEL])
    ensures FreeAtBoth(tables, levels[root := TOP_LEVEL], root, high, PtSlot(root, IndexOf(0, TOP_LEVEL), TOP_LEVEL))
  {
    FreshIsFree(kernel, levels, kroot, tables, root, 0);
    FreshIsFree(kernel, levels, kroot, tables, root, high);
  }

  lemma FreeBelow(was: Tables, levels: map<nat, nat>, now: Tables, levels': map<nat, nat>, root: nat, high: nat,
      s: PtSlot, page: nat)
    requires FreeAtBoth(was, levels, root, high, s) && s.level > 0
    requires Linked(was, levels, now, levels', root, s, page)
    ensures FreeAtBoth(now, levels', root, high, PtSlot(page, IndexOf(0, s.level - 1), s.level - 1))
  {
    LinkedAt(was, levels, now, levels', root, s, page, high);
    LinkedAt(was, levels, now, levels', root, s, page, 0);
    assert IndexOf(high, s.level - 1) == IndexOf(0, s.level - 1);
  }

  method TableAtBoth(vs: VSpace, cap: Cap, high: nat, asid: nat, ghost s: PtSlot) returns (r: TableResult)
    requires vs.Valid() && TableOk(cap) && !cap.isMapped && TablePage(cap) !in vs.tables && high < USER_TOP
    requires s.level > 0 && FreeAtBoth(vs.tables, vs.levels, vs.root, high, s)
    modifies vs
    ensures r.TableMapped? && vs.Valid() && vs.tables.Keys == old(vs.tables).Keys + {TablePage(cap)}
    ensures FreeAtBoth(vs.tables, vs.levels, vs.root, high,
      PtSlot(TablePage(cap), IndexOf(0, s.level - 1), s.level - 1))
  {
    ghost var tables, levels := vs.tables, vs.levels;
    r := vs.MapPageTable(cap, high, asid);
    FreeBelow(tables, levels, vs.tables, vs.levels, vs.root, high, s, TablePage(cap));
  }

  /** A frame mapped at the other address shows at 0. */
  method FrameAtBoth(vs: VSpace, frame: Cap, high: nat, asid: nat, ghost s: PtSlot) returns (m: MapResult)
    requires vs.Valid() && FreeAtBoth(vs.tables, vs.levels, vs.root, high, s) && s.level == 0
    requires FrameOk(frame) && frame.size == SmallPage && frame.mappedAsid == 0 && frame.rights == ReadWrite
    requires InUserRange(frame, high) && !Canonical(high)
    modifies vs
    ensures vs.Valid() && m.Mapped?
    ensures Physical(vs.tables, vs.levels, vs.root, 0) == Access(Paddr(frame.ptr), true, true, true)
    ensures Physical(vs.tables, vs.levels, vs.root, high) == Fault
  {
    ghost var tables := vs.tables;
    FrameSizes(SmallPage);
    m := vs.MapFrame(frame, high, Rights(true, true, true, true), true, asid);
    ghost var p := MakeUserPte(Paddr(frame.ptr), true, true, true);
    MadePteShape(frame, true, ReadWrite);
    MadePteReads(Paddr(frame.ptr), true, true, true);
    WriteIsSlot(tables, vs.levels, vs.root, high, p, 0);
  }

  lemma PageAtSpan(frame: Cap)
    requires FrameOk(frame) && frame.size == SmallPage
    ensures InUserRange(frame, SPAN) && SameIndices(SPAN)
  {
    FrameSizes(SmallPage);
    IndexWraps(SPAN);
  }

  /** 2^39 is a user address to the decoder. In a fresh address space two page tables and then a frame are accepted
      there, and what shows the frame is address 0; 2^39 itself faults. */
  method HighPageWraps(r: nat, kernel: Tables, ghost klevels: map<nat, nat>, kroot: nat,
                       first: Cap, second: Cap, frame: Cap, asid: nat) returns (vs: VSpace, m: MapResult)
    requires KernelOk(kernel, klevels, kroot) && r !in kernel
    requires TableOk(first) && TableOk(second) && !first.isMapped && !second.isMapped
    requires TablePage(first) !in kernel && TablePage(second) !in kernel && TablePage(first) != TablePage(second)
    requires TablePage(first) != r && TablePage(second) != r
    requires FrameOk(frame) && frame.size == SmallPage && frame.mappedAsid == 0 && frame.rights == ReadWrite
    ensures fresh(vs) && vs.Valid() && m.Mapped?
    ensures Physical(vs.tables, vs.levels, vs.root, 0) == Access(Paddr(frame.ptr), true, true, true)
    ensures Physical(vs.tables, vs.levels, vs.root, SPAN) == Fault
  {
    vs := new VSpace(r, kernel, klevels, kroot);
    PageAtSpan(frame);
    FreshIsFreeAtBoth(kernel, klevels, kroot, vs.tables, r, SPAN);
    var _ := TableAtBoth(vs, first, SPAN, asid, PtSlot(r, IndexOf(0, 2), 2));
    var _ := TableAtBoth(vs, second, SPAN, asid, PtSlot(TablePage(first), IndexOf(0, 1), 1));
    m := FrameAtBoth(vs, frame, SPAN, asid, PtSlot(TablePage(second), IndexOf(0, 0), 0));
  }

  method UnmapAndMapAgain(vs: VSpace, cap: Cap, asid: nat, outside: (nat, nat) -> Pte)
    requires vs.Valid() && TableOk(cap) && TablePage(cap) in vs.tables && TablePage(cap) != vs.root
    requires vs.tables[vs.root][0] == TablePte(TablePage(cap)) && vs.levels[TablePage(cap)] == 1
    requires vs.tables[TablePage(cap)] == Zeros()
    requires Walk(vs.tables, vs.levels, vs.root, GIGA) == PtSlot(vs.root, 1, 2) && !IsValid(vs.tables[vs.root][1])
    modifies vs
    ensures vs.levels == old(vs.levels) && Graded(vs.tables, vs.levels) && vs.root in vs.tables
    ensures forall v: nat :: v < GIGA ==>
      Walk(vs.tables, vs.levels, vs.root, v + GIGA) == Walk(vs.tables, vs.levels, vs.root, v)
  {
    ghost var tables := vs.tables;
    SmallIndex(0);
    TablePteReads(TablePage(cap));
    vs.UnmapPageTable(0, TablePage(cap), outside);
    var _ := vs.MapPageTable(PageTableCap(cap.ptr, false, 0, 0), GIGA, asid);
    LinkedTwice(tables, vs.levels, vs.tables, vs.root, TablePage(cap));
  }

  /** A table mapped at 0 and unmapped again is still linked there. Mapped once more at one gigabyte, it serves both:
      every address of the first gigabyte ends in the same entry as the one a gigabyte further. */
  method TableServesTwice(r: nat, kernel: Tables, ghost klevels: map<nat, nat>, kroot: nat, cap: Cap, asid: nat,
                          outside: (nat, nat) -> Pte) returns (vs: VSpace)
    requires KernelOk(kernel, klevels, kroot) && r !in kernel
    requires TableOk(cap) && !cap.isMapped && TablePage(cap) !in kernel && TablePage(cap) != r
    ensures fresh(vs) && Graded(vs.tables, vs.levels) && r == vs.root && r in vs.tables
    ensures forall v: nat :: v < GIGA ==> Walk(vs.tables, vs.levels, r, v + GIGA) == Walk(vs.tables, vs.levels, r, v)
  {
    vs := new VSpace(r, kernel, klevels, kroot);
    SmallIndex(0);
    SmallIndex(GIGA);
    FreshIsFree(kernel, klevels, kroot, vs.tables, r, 0);
    FreshIsFree(kernel, klevels, kroot, vs.tables, r, GIGA);
    ghost var tables0, levels0 := vs.tables, vs.levels;
    var f := vs.MapPageTable(cap, 0, asid);
    LinkedElsewhere(tables0, levels0, vs.tables, vs.levels, r, PtSlot(r, 0, 2), TablePage(cap), GIGA);
    UnmapAndMapAgain(vs, cap, asid, outside);
  }
}
