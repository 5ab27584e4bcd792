/** What a capability address means (sel4_cspace/src/cte.rs): it spells a path through CNodes, guard and index by guard
    and index, from the high bits down. Looking it up reads the path back. */
module LookupPaths {
  import opened Words
  import opened Caps
  import opened Lookup

  /** One step: into slot index of a CNode. */
  datatype Hop = Hop(node: Cap, index: nat)

  ghost predicate HopOk(h: Hop) {
    h.node.CNodeCap? && h.index < Pow2(h.node.radix)
  }

  function Target(h: Hop): (slot: nat)
    requires h.node.CNodeCap?
  {
    SlotAt(h.node.ptr, h.index)
  }

  /** The bits that a path takes up. */
  ghost function Width(path: seq<Hop>): (w: nat)
    requires forall i :: 0 <= i < |path| ==> path[i].node.CNodeCap?
  {
    if path == [] then 0 else path[0].node.guardSize + path[0].node.radix + Width(path[1..])
  }

  /** The path starts at c and leads to slot a; each slot on the way holds the next CNode. */
  ghost predicate Leads(mem: Memory, c: Cap, path: seq<Hop>, a: nat)
    decreases |path|
  {
    && path != [] && HopOk(path[0]) && path[0].node == c
    && if |path| == 1 then a == Target(path[0])
       else Target(path[0]) in mem && mem[Target(path[0])].CNodeCap? && Leads(mem, mem[Target(path[0])], path[1..], a)
  }

  lemma {:induction false} LeadsNodes(mem: Memory, c: Cap, path: seq<Hop>, a: nat)
    requires Leads(mem, c, path, a)
    ensures forall i :: 0 <= i < |path| ==> path[i].node.CNodeCap?
    decreases |path|
  {
    if |path| > 1 {
      LeadsNodes(mem, mem[Target(path[0])], path[1..], a);
      assert forall i :: 1 <= i < |path| ==> path[i] == path[1..][i - 1];
    }
  }

  /** The address that spells the path, with rest in the low bits that are left over. */
  ghost function Spell(path: seq<Hop>, rest: nat, left: nat): (cptr: nat)
    requires forall i :: 0 <= i < |path| ==> path[i].node.CNodeCap?
  {
    if path == [] then rest
    else
      var h := path[0];
      (h.node.guard * Pow2(h.node.radix) + h.index) * Pow2(Width(path[1..]) + left) + Spell(path[1..], rest, left)
  }

  /** Spelled addresses fit their width. */
  lemma {:induction false} SpellFits(mem: Memory, c: Cap, path: seq<Hop>, a: nat, rest: nat, left: nat)
    requires MemoryOk(mem) && c.CNodeCap? && CNodeOk(mem, c) && Leads(mem, c, path, a) && rest < Pow2(left)
    ensures forall i :: 0 <= i < |path| ==> path[i].node.CNodeCap?
    ensures Spell(path, rest, left) < Pow2(Width(path) + left)
    ensures Spell(path[1..], rest, left) < Pow2(Width(path[1..]) + left)
    decreases |path|
  {
    LeadsNodes(mem, c, path, a);
    var h, w := path[0], Width(path[1..]) + left;
    if |path| > 1 { SpellFits(mem, mem[Target(h)], path[1..], a, rest, left); }
    HopFits(h.node.guard, h.node.guardSize, h.index, h.node.radix, w, Spell(path[1..], rest, left));
  }

  lemma HopFits(guard: nat, g: nat, index: nat, r: nat, w: nat, tail: nat)
    requires guard < Pow2(g) && index < Pow2(r) && tail < Pow2(w)
    ensures (guard * Pow2(r) + index) * Pow2(w) + tail < Pow2(g + r + w)
  {
    HeadFits(guard, g, index, r);
    Pow2Add(g + r, w);
    TailFits(guard * Pow2(r) + index, Pow2(g + r), Pow2(w), tail);
  }

  lemma HeadFits(guard: nat, guardSize: nat, index: nat, radix: nat)
    requires guard < Pow2(guardSize) && index < Pow2(radix)
    ensures guard * Pow2(radix) + index < Pow2(guardSize + radix)
  {
    Pow2Add(guardSize, radix);
    TailFits(guard, Pow2(guardSize), Pow2(radix), index);
  }

  lemma TailFits(high: nat, a: nat, p: nat, low: nat)
    requires high < a && low < p
    ensures high * p + low < a * p
  {
    MulMonotone(high + 1, a, p);
    assert (high + 1) * p == high * p + p;
  }

  /** Reading the bits back: the address below bit n is head, then tail. */
  lemma ReadHead(cptr: nat, n: nat, head: nat, size: nat, tail: nat, w: nat)
    requires n == size + w && cptr % Pow2(n) == head * Pow2(w) + tail && head < Pow2(size) && tail < Pow2(w)
    ensures Field(cptr, w, size) == head && cptr % Pow2(w) == tail
  {
    Pow2Add(size, w);
    ReadParts(cptr, Pow2(size), Pow2(w), head, tail, Pow2(n));
  }

  lemma ReadParts(x: nat, a: nat, p: nat, head: nat, tail: nat, ap: nat)
    requires ap > 0 && ap == a * p && x % ap == head * p + tail && head < a && tail < p
    ensures Quot(x, p) % a == head && x % p == tail
  {
    var q := Quot(x, ap);
    Divided(x, ap);
    Regroup(q, a, p, head, tail);
    DivModUnique(x, p, q * a + head, tail);
    DivModUnique(q * a + head, a, q, head);
  }

  lemma Divided(x: nat, p: nat)
    requires p > 0
    ensures x == Quot(x, p) * p + x % p
  {}

  lemma Regroup(q: nat, a: nat, p: nat, head: nat, tail: nat)
    ensures q * (a * p) + (head * p + tail) == (q * a + head) * p + tail
  {
    assert q * (a * p) == q * a * p;
    assert (q * a + head) * p == q * a * p + head * p;
  }

  /** The guard and the index, read apart. */
  lemma ReadHop(cptr: nat, n: nat, h: Hop, tail: nat, w: nat)
    requires h.node.CNodeCap? && h.node.guard < Pow2(h.node.guardSize) && h.index < Pow2(h.node.radix) && tail < Pow2(w)
    requires n == h.node.guardSize + h.node.radix + w
    requires cptr % Pow2(n) == (h.node.guard * Pow2(h.node.radix) + h.index) * Pow2(w) + tail
    ensures Field(cptr, n - h.node.guardSize, h.node.guardSize) == h.node.guard
    ensures Field(cptr, w, h.node.radix) == h.index && cptr % Pow2(w) == tail
  {
    ReadGuardAndIndex(cptr, n, h.node.guard, h.node.guardSize, h.index, h.node.radix, tail, w);
  }

  lemma ReadGuardAndIndex(cptr: nat, n: nat, guard: nat, g: nat, index: nat, r: nat, tail: nat, w: nat)
    requires guard < Pow2(g) && index < Pow2(r) && tail < Pow2(w) && n == g + r + w
    requires cptr % Pow2(n) == (guard * Pow2(r) + index) * Pow2(w) + tail
    ensures Field(cptr, r + w, g) == guard && Field(cptr, w, r) == index && cptr % Pow2(w) == tail
  {
    var low := index * Pow2(w) + tail;
    LowFits(guard, index, r, tail, w);
    ReadHead(cptr, n, guard, g, low, r + w);
    ReadHead(cptr, r + w, index, r, tail, w);
  }

  lemma LowFits(guard: nat, index: nat, r: nat, tail: nat, w: nat)
    requires index < Pow2(r) && tail < Pow2(w)
    ensures index * Pow2(w) + tail < Pow2(r + w)
    ensures (guard * Pow2(r) + index) * Pow2(w) + tail == guard * Pow2(r + w) + (index * Pow2(w) + tail)
  {
    Pow2Add(r, w);
    Regroup(guard, Pow2(r), Pow2(w), index, tail);
    TailFits(index, Pow2(r), Pow2(w), tail);
  }

  lemma WidthPositive(mem: Memory, c: Cap, path: seq<Hop>, a: nat)
    requires MemoryOk(mem) && c.CNodeCap? && CNodeOk(mem, c) && Leads(mem, c, path, a)
    requires forall i :: 0 <= i < |path| ==> path[i].node.CNodeCap?
    ensures Width(path) > 0
  {}

  /** The address below bit n spells the path to slot a, with left bits over. */
  ghost predicate Spells(mem: Memory, c: Cap, path: seq<Hop>, a: nat, cptr: nat, left: nat, n: nat) {
    && Leads(mem, c, path, a) && (forall i :: 0 <= i < |path| ==> path[i].node.CNodeCap?)
    && n == Width(path) + left && cptr % Pow2(n) == Spell(path, cptr % Pow2(left), left)
  }

  lemma OneHop(mem: Memory, h: Hop, cptr: nat, left: nat, n: nat)
    requires HopOk(h) && n == h.node.guardSize + h.node.radix + left
    requires cptr % Pow2(n) == (h.node.guard * Pow2(h.node.radix) + h.index) * Pow2(left) + cptr % Pow2(left)
    ensures Spells(mem, h.node, [h], Target(h), cptr, left, n)
  {
    var path := [h];
    assert path[1..] == [];
  }

  lemma OneMoreHop(mem: Memory, h: Hop, rest: seq<Hop>, a: nat, cptr: nat, left: nat, w: nat, n: nat)
    requires HopOk(h) && n == h.node.guardSize + h.node.radix + w && Target(h) in mem && mem[Target(h)].CNodeCap?
    requires cptr % Pow2(n) == (h.node.guard * Pow2(h.node.radix) + h.index) * Pow2(w) + cptr % Pow2(w)
    requires Spells(mem, mem[Target(h)], rest, a, cptr, left, w)
    ensures Spells(mem, h.node, [h] + rest, a, cptr, left, n)
  {
    var path := [h] + rest;
    assert path[1..] == rest;
  }

  /** What the first step of a spelled path leaves. */
  lemma FirstHop(mem: Memory, c: Cap, path: seq<Hop>, a: nat, cptr: nat, left: nat, n: nat)
    requires MemoryOk(mem) && c.CNodeCap? && CNodeOk(mem, c) && Spells(mem, c, path, a, cptr, left, n)
    ensures c.guardSize + c.radix <= n
    ensures
      var w := n - (c.guardSize + c.radix);
      && Field(cptr, n - c.guardSize, c.guardSize) == c.guard && Field(cptr, w, c.radix) == path[0].index
      && (|path| == 1 ==> w == left)
      && (|path| > 1 ==> w > 0 && Spells(mem, mem[Target(path[0])], path[1..], a, cptr, left, w))
  {
    var h, w := path[0], Width(path[1..]) + left;
    SpellFits(mem, c, path, a, cptr % Pow2(left), left);
    ReadHop(cptr, n, h, Spell(path[1..], cptr % Pow2(left), left), w);
    if |path| > 1 { WidthPositive(mem, mem[Target(h)], path[1..], a); }
  }

  /** An address that spells a path is looked up as its end, with the bits that are left over; a path goes on for as
      long as there are bits and CNodes. */
  lemma {:induction false} SpelledIsFound(mem: Memory, c: Cap, path: seq<Hop>, a: nat, cptr: nat, left: nat, n: nat)
    requires MemoryOk(mem) && c.CNodeCap? && CNodeOk(mem, c) && Spells(mem, c, path, a, cptr, left, n)
    requires a in mem && (left == 0 || !mem[a].CNodeCap?)
    ensures Resolve(mem, c, cptr, n) == Slot(a, left)
    decreases |path|
  {
    FirstHop(mem, c, path, a, cptr, left, n);
    if |path| > 1 {
      SpelledIsFound(mem, mem[Target(path[0])], path[1..], a, cptr, left, n - (c.guardSize + c.radix));
    }
  }

  /** Every address that is found spells such a path. */
  lemma {:induction false} FoundIsSpelled(mem: Memory, c: Cap, cptr: nat, n: nat) returns (path: seq<Hop>)
    requires MemoryOk(mem) && c.CNodeCap? && CNodeOk(mem, c) && Resolve(mem, c, cptr, n).Slot?
    ensures
      var r := Resolve(mem, c, cptr, n);
      && Spells(mem, c, path, r.address, cptr, r.bitsRemaining, n)
      && (r.bitsRemaining == 0 || !mem[r.address].CNodeCap?)
    decreases n
  {
    var w := n - (c.radix + c.guardSize);
    var h := Hop(c, Field(cptr, w, c.radix));
    TakeHop(cptr, n, c, w);
    var r := Resolve(mem, c, cptr, n);
    if w == 0 || !mem[Target(h)].CNodeCap? {
      OneHop(mem, h, cptr, w, n);
      path := [h];
    } else {
      var rest := FoundIsSpelled(mem, mem[Target(h)], cptr, w);
      OneMoreHop(mem, h, rest, r.address, cptr, r.bitsRemaining, w, n);
      path := [h] + rest;
    }
  }

  /** Taking guard and index off the address. */
  lemma TakeHop(cptr: nat, n: nat, c: Cap, w: nat)
    requires c.CNodeCap? && n == c.guardSize + c.radix + w && Field(cptr, n - c.guardSize, c.guardSize) == c.guard
    ensures cptr % Pow2(n) == (c.guard * Pow2(c.radix) + Field(cptr, w, c.radix)) * Pow2(w) + cptr % Pow2(w)
  {
    SplitTwo(cptr, c.guardSize, c.radix, w);
    LowFits(c.guard, Field(cptr, w, c.radix), c.radix, cptr % Pow2(w), w);
  }

  lemma SplitTwo(x: nat, g: nat, r: nat, w: nat)
    ensures x % Pow2(g + r + w) == Field(x, r + w, g) * Pow2(r + w) + (Field(x, w, r) * Pow2(w) + x % Pow2(w))
  {
    SplitField(x, r + w, g);
    SplitField(x, w, r);
    assert r + w + g == g + r + w && w + r == r + w;
  }

  lemma SplitField(x: nat, low: nat, width: nat)
    ensures x % Pow2(low + width) == Field(x, low, width) * Pow2(low) + x % Pow2(low)
  {
    Pow2Add(width, low);
    SplitParts(x, Pow2(width), Pow2(low), Pow2(low + width));
  }

  lemma SplitParts(x: nat, a: nat, p: nat, ap: nat)
    requires ap > 0 && ap == a * p && a > 0 && p > 0
    ensures x % ap == Quot(x, p) % a * p + x % p
  {
    var y, z := Quot(x, p), x % p;
    var q, f := Quot(y, a), y % a;
    Divided(x, p);
    Divided(y, a);
    Regroup(q, a, p, f, z);
    TailFits(f, a, p, z);
    DivModUnique(x, ap, q, f * p + z);
  }
}
