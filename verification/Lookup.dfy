/** Capability lookup: the bit-by-bit walk of the fast path gives the same capability as the slow
    path's resolve_address_bits (kernel/src/kernel/fastpath.rs, sel4_cspace/src/cte.rs). */
module Lookup {
  import opened Config
  import opened Words
  import opened Caps

  /** What each slot holds. */
  type Memory = map<nat, Cap>

  function SlotAt(ptr: nat, index: nat): (a: nat) {
    ptr + index * SLOT_SIZE
  }

  /** A CNode capability has at least one bit of radix, a guard that fits its size, and leads to a
      table that is there. */
  ghost predicate CNodeOk(mem: Memory, c: Cap)
    requires c.CNodeCap?
  {
    && 1 <= c.radix < WORD_BITS && c.guardSize < WORD_BITS && c.guard < Pow2(c.guardSize)
    && forall i {:trigger SlotAt(c.ptr, i)} :: 0 <= i < Pow2(c.radix) ==> SlotAt(c.ptr, i) in mem
  }

  ghost predicate MemoryOk(mem: Memory) {
    forall a :: a in mem && mem[a].CNodeCap? ==> CNodeOk(mem, mem[a])
  }

  datatype Resolved = Fault | Slot(address: nat, bitsRemaining: nat)

  /** The bits of cptr from position low up, width of them. */
  function Field(cptr: nat, low: nat, width: nat): (f: nat)
    ensures f < Pow2(width)
  {
    Quot(cptr, Pow2(low)) % Pow2(width)
  }

  /** resolve_address_bits, with n bits of the address left. */
  ghost function Resolve(mem: Memory, c: Cap, cptr: nat, n: nat): (r: Resolved)
    requires MemoryOk(mem) && (c.CNodeCap? ==> CNodeOk(mem, c))
    ensures r.Slot? ==> r.address in mem
    decreases n
  {
    if !c.CNodeCap? then Fault
    else
      var level := c.radix + c.guardSize;
      if c.guardSize > n || Field(cptr, n - c.guardSize, c.guardSize) != c.guard || level > n then Fault
      else
        var slot := SlotAt(c.ptr, Field(cptr, n - level, c.radix));
        if n == level then Slot(slot, 0)
        else if !mem[slot].CNodeCap? then Slot(slot, n - level)
        else Resolve(mem, mem[slot], cptr, n - level)
  }

  /** The capability that lookup_cap would find; null when the lookup faults. */
  ghost function Found(mem: Memory, c: Cap, cptr: nat, n: nat): (r: Cap)
    requires MemoryOk(mem) && (c.CNodeCap? ==> CNodeOk(mem, c))
  {
    match Resolve(mem, c, cptr, n)
    case Fault => NullCap
    case Slot(a, _) => mem[a]
  }

  /** resolve_address_bits. A shift by a negative amount wraps and is masked to six bits; the
      comparison of sizes then decides. */
  method ResolveAddressBits(mem: Memory, nodeCap: Cap, cptr: nat, bits: nat) returns (r: Resolved)
    requires MemoryOk(mem) && (nodeCap.CNodeCap? ==> CNodeOk(mem, nodeCap)) && bits <= WORD_BITS
    ensures r == Resolve(mem, nodeCap, cptr, bits)
  {
    if !nodeCap.CNodeCap? { return Fault; }
    var cap := nodeCap;
    var n: nat := bits;
    while true
      invariant cap.CNodeCap? && CNodeOk(mem, cap) && n <= bits
      invariant Resolve(mem, nodeCap, cptr, bits) == Resolve(mem, cap, cptr, n)
      decreases n
    {
      var level := cap.radix + cap.guardSize;
      var guard := Quot(cptr, Pow2((n - cap.guardSize) % WORD_BITS)) % Pow2(cap.guardSize);
      GuardShift(cptr, n, cap.guardSize);
      if cap.guardSize > n || guard != cap.guard {
        return Fault;
      }
      if level > n {
        return Fault;
      }
      var slot := SlotAt(cap.ptr, Field(cptr, n - level, cap.radix));
      if n == level { return Slot(slot, 0); }
      n := n - level;
      cap := mem[slot];
      if !cap.CNodeCap? { return Slot(slot, n); }
    }
  }

  lemma GuardShift(cptr: nat, n: nat, g: nat)
    requires n <= WORD_BITS && g < WORD_BITS
    ensures g <= n ==> Quot(cptr, Pow2((n - g) % WORD_BITS)) % Pow2(g) == Field(cptr, n - g, g)
  {
    if n == WORD_BITS && g == 0 { assert Pow2(0) == 1; }
  }

  // ---- the fast path ----

  /** cptr << bits on a 64-bit word. */
  function Shl(x: nat, bits: nat): (r: nat)
    ensures r < Pow2(WORD_BITS)
  {
    x * Pow2(bits) % Pow2(WORD_BITS)
  }

  /** x >> bits */
  function Shr(x: nat, bits: nat): (r: nat) {
    Quot(x, Pow2(bits))
  }

  /** lookup_fp */
  method LookupFp(mem: Memory, root: Cap, cptr: nat) returns (r: Cap)
    requires MemoryOk(mem) && (root.CNodeCap? ==> CNodeOk(mem, root))
    ensures r == Found(mem, root, cptr, WORD_BITS)
  {
    if !root.CNodeCap? { return NullCap; }
    var cap, bits := root, 0;
    while true
      invariant cap.CNodeCap? && CNodeOk(mem, cap) && bits < WORD_BITS
      invariant Found(mem, root, cptr, WORD_BITS) == Found(mem, cap, cptr, WORD_BITS - bits)
      decreases WORD_BITS - bits
    {
      var g, radixBits := cap.guardSize, cap.radix;
      var cptr2 := Shl(cptr, bits);
      FastGuard(cptr, bits, g);
      if !FastGuardMatches(cap, cptr, bits) {
        return NullCap;
      }
      var radix := Shr(Shl(cptr2, g), WORD_BITS - radixBits);
      FastRadix(cptr, bits, g, radixBits);
      var slot := SlotAt(cap.ptr, radix);
      var next := mem[slot];
      LookupStep(mem, cap, cptr, WORD_BITS - bits, radix);
      bits := bits + g + radixBits;
      if !(bits < WORD_BITS && next.CNodeCap?) {
        return if bits > WORD_BITS then NullCap else next;
      }
      cap := next;
    }
  }

  /** One level of the slow lookup, once the guard has matched in the way the fast path compares it. */
  lemma LookupStep(mem: Memory, c: Cap, cptr: nat, n: nat, index: nat)
    requires MemoryOk(mem) && c.CNodeCap? && CNodeOk(mem, c) && index < Pow2(c.radix)
    requires c.guardSize <= n ==> Field(cptr, n - c.guardSize, c.guardSize) == c.guard
    requires c.radix + c.guardSize <= n ==> index == Field(cptr, n - (c.radix + c.guardSize), c.radix)
    ensures SlotAt(c.ptr, index) in mem
    ensures
      var level := c.radix + c.guardSize;
      var next := mem[SlotAt(c.ptr, index)];
      Found(mem, c, cptr, n) ==
        if level > n then NullCap else if n == level || !next.CNodeCap? then next else Found(mem, next, cptr, n - level)
  {
  }

  /** Shifting left by bits and back right by 64 - g cuts out the g bits below the first bits ones. */
  lemma ShiftsCutField(cptr: nat, bits: nat, g: nat)
    requires bits + g <= WORD_BITS
    ensures Shr(Shl(cptr, bits), WORD_BITS - g) == Field(cptr, WORD_BITS - bits - g, g)
  {
    var n := WORD_BITS - bits - g;
    Pow2Add(n, bits);
    Pow2Add(g, n + bits);
    CutField(cptr, Pow2(g), Pow2(n), Pow2(bits));
  }

  lemma CutField(c: nat, a: nat, b: nat, s: nat)
    requires a > 0 && b > 0 && s > 0
    ensures b * s > 0 && a * (b * s) > 0
    ensures Quot((c * s) % (a * (b * s)), b * s) == Quot(c, b) % a
  {
    MulPositive(b, s);
    MulPositive(a, b * s);
    CutFieldParts(Quot(Quot(c, b), a), a, Quot(c, b) % a, b, c % b, s, c);
  }

  /** The same for a number given by its three parts. */
  lemma CutFieldParts(high: nat, a: nat, mid: nat, b: nat, low: nat, s: nat, c: nat)
    requires a > 0 && b > 0 && s > 0 && b * s > 0 && a * (b * s) > 0 && mid < a && low < b
    requires c == (high * a + mid) * b + low
    ensures Quot((c * s) % (a * (b * s)), b * s) == mid
  {
    var bs := b * s;
    Expand(high, a, mid, b, low, s);
    LowPart(low, b, s);
    LowPart2(mid, a, bs, low * s);
    DivModUnique(c * s, a * bs, high, mid * bs + low * s);
    DivModUnique(mid * bs + low * s, bs, mid, low * s);
  }

  lemma MulPositive(x: nat, y: nat)
    requires x > 0 && y > 0
    ensures x * y > 0
  {}

  lemma Expand(high: nat, a: nat, mid: nat, b: nat, low: nat, s: nat)
    ensures ((high * a + mid) * b + low) * s == high * (a * (b * s)) + (mid * (b * s) + low * s)
  {
    assert (high * a + mid) * b == high * a * b + mid * b;
    assert (high * a * b + mid * b + low) * s == high * a * b * s + mid * b * s + low * s;
    assert high * a * b * s == high * (a * (b * s)) && mid * b * s == mid * (b * s);
  }

  lemma LowPart(low: nat, b: nat, s: nat)
    requires low < b && s > 0
    ensures low * s < b * s
  {
    MulMonotone(low + 1, b, s);
    assert (low + 1) * s == low * s + s;
  }

  lemma LowPart2(mid: nat, a: nat, bs: nat, rest: nat)
    requires mid < a && rest < bs
    ensures mid * bs + rest < a * bs
  {
    MulMonotone(mid + 1, a, bs);
    assert (mid + 1) * bs == mid * bs + bs;
  }

  lemma FastGuard(cptr: nat, bits: nat, g: nat)
    requires bits < WORD_BITS && g < WORD_BITS
    ensures g <= WORD_BITS - bits ==> Shr(Shl(cptr, bits), WORD_BITS - g) == Field(cptr, WORD_BITS - bits - g, g)
    ensures g == 0 ==> Field(cptr, WORD_BITS - bits - g, g) == 0
  {
    if g <= WORD_BITS - bits { ShiftsCutField(cptr, bits, g); }
  }

  /** The two left shifts add up, and what is read is always an index into the table. */
  lemma FastRadix(cptr: nat, bits: nat, g: nat, r: nat)
    requires bits < WORD_BITS && g < WORD_BITS && 1 <= r < WORD_BITS
    ensures Shr(Shl(Shl(cptr, bits), g), WORD_BITS - r) < Pow2(r)
    ensures bits + g + r <= WORD_BITS ==>
              Shr(Shl(Shl(cptr, bits), g), WORD_BITS - r) == Field(cptr, WORD_BITS - bits - g - r, r)
  {
    var x := Shl(Shl(cptr, bits), g);
    Pow2Add(r, WORD_BITS - r);
    QuotientBound(x, Pow2(r), Pow2(WORD_BITS - r));
    if bits + g + r <= WORD_BITS {
      ShlShl(cptr, bits, g);
      ShiftsCutField(cptr, bits + g, r);
    }
  }

  lemma QuotientBound(x: nat, a: nat, b: nat)
    requires a > 0 && b > 0 && x < a * b
    ensures x / b < a
  {
    assert x == x / b * b + x % b;
    if x / b >= a { MulMonotone(a, x / b, b); }
  }

  lemma ShlShl(x: nat, a: nat, b: nat)
    ensures Shl(Shl(x, a), b) == Shl(x, a + b)
  {
    var w := Pow2(WORD_BITS);
    var y := x * Pow2(a);
    Pow2Add(a, b);
    assert x * (Pow2(a) * Pow2(b)) == y * Pow2(b);
    ModMul(y, Pow2(b), w);
  }

  lemma ModMul(y: nat, p: nat, w: nat)
    requires w > 0
    ensures (y % w) * p % w == y * p % w
  {
    var k, m := y / w, y % w;
    assert y == k * w + m;
    Distribute(k, w, m, p);
    AddMultiple(m * p, k * p, w);
  }

  lemma Distribute(k: nat, w: nat, m: nat, p: nat)
    ensures (k * w + m) * p == k * p * w + m * p
  {
    assert (k * w + m) * p == k * w * p + m * p;
    assert k * w * p == k * p * w;
  }

  lemma AddMultiple(z: nat, j: nat, w: nat)
    requires w > 0
    ensures (j * w + z) % w == z % w
  {
    var q, m := z / w, z % w;
    assert (j + q) * w == j * w + q * w;
    DivModUnique(j * w + z, w, j + q, m);
  }

  // ---- why guards must fit ----

  /** The guard comparison of lookup_fp after bits bits of the address. */
  predicate FastGuardMatches(c: Cap, cptr: nat, bits: nat)
    requires c.CNodeCap? && c.guardSize < WORD_BITS
  {
    c.guardSize == 0 || Shr(Shl(cptr, bits), WORD_BITS - c.guardSize) == c.guard
  }

  /** The guard comparison of resolve_address_bits at the same place. */
  predicate SlowGuardMatches(c: Cap, cptr: nat, bits: nat)
    requires c.CNodeCap? && bits + c.guardSize <= WORD_BITS
  {
    Field(cptr, WORD_BITS - bits - c.guardSize, c.guardSize) == c.guard
  }

  /** The fast path skips a guard of size 0 that the slow path compares. So the two comparisons agree
      on every address exactly if such a guard is 0. */
  lemma GuardTestsAgreeIff(c: Cap)
    requires c.CNodeCap? && c.guardSize < WORD_BITS
    ensures (forall cptr: nat, bits: nat :: bits + c.guardSize <= WORD_BITS ==>
               (FastGuardMatches(c, cptr, bits) <==> SlowGuardMatches(c, cptr, bits)))
       <==> c.guardSize > 0 || c.guard == 0
  {
    assert Pow2(0) == 1;
    if c.guardSize > 0 || c.guard == 0 {
      forall cptr: nat, bits: nat | bits + c.guardSize <= WORD_BITS
        ensures FastGuardMatches(c, cptr, bits) <==> SlowGuardMatches(c, cptr, bits)
      {
        ShiftsCutField(cptr, bits, c.guardSize);
      }
    } else {
      assert FastGuardMatches(c, 0, 0) && !SlowGuardMatches(c, 0, 0);
    }
  }

  /** Guards always fit: a fresh CNode has none, and minting or mutating cuts the guard to its size. */
  lemma GuardsFit(c: Cap, preserve: bool, data: nat)
    requires c.CNodeCap?
    ensures
      var r := UpdateData(c, preserve, data);
      r.CNodeCap? ==> r.guard < Pow2(r.guardSize) && r.guardSize < WORD_BITS && r.radix == c.radix
  {
  }
}
