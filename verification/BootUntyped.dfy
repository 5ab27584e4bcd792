/** How boot cuts a memory region into untyped blocks (kernel/src/boot/untyped.rs): the blocks are
    aligned, of allowed sizes, and cover exactly the 16-byte units that lie inside the region. */
module BootUntyped {
  import opened Config
  import opened Words

  const UNIT := 16

  /** 2^bits bytes from start up to end. */
  datatype Block = Block(start: nat, bits: nat, end: nat)

  /** 63 - leading_zeros(x): the position of the highest one-bit. */
  function Log2(x: nat): (r: nat)
    requires x > 0
    ensures Pow2(r) <= x < 2 * Pow2(r)
  {
    if x == 1 then 0 else 1 + Log2(x / 2)
  }

  /** trailing_zeros(x): the largest power of two that divides x. */
  function TrailingZeros(x: nat): (r: nat)
    requires x > 0
    ensures IsAligned(x, r)
  {
    if x % 2 == 1 then 0 else (HalfAligned(x, TrailingZeros(x / 2)); 1 + TrailingZeros(x / 2))
  }

  lemma HalfAligned(x: nat, k: nat)
    requires x % 2 == 0 && IsAligned(x / 2, k)
    ensures IsAligned(x, k + 1)
  {
    Doubled(x / 2, Pow2(k));
  }

  lemma Doubled(y: nat, p: nat)
    requires p > 0 && y % p == 0
    ensures (2 * y) % (2 * p) == 0
  {
    var q := Quot(y, p);
    assert y == q * p;
    assert 2 * (q * p) == q * (2 * p);
    ModOfMultiple(q, 2 * p);
  }

  /** The size chosen for the next block of a region. */
  function NextBits(start: nat, end: nat): (b: nat)
    requires start < end
  {
    var fit := Log2(end - start);
    var capped := if fit > MAX_UNTYPED_BITS then MAX_UNTYPED_BITS else fit;
    if start != 0 && capped > TrailingZeros(start) then TrailingZeros(start) else capped
  }

  /** The next block fits and is aligned; it is smaller than a unit only near the end or inside a unit. */
  lemma NextBitsFit(start: nat, end: nat)
    requires start < end
    ensures
      var b := NextBits(start, end);
      && b <= MAX_UNTYPED_BITS && start + Pow2(b) <= end && IsAligned(start, b)
      && (b < MIN_UNTYPED_BITS ==> end - start < UNIT || start % UNIT != 0)
  {
    NextBitsRoom(start, end);
    NextBitsAligned(start, end);
    RoomForUnit(end - start);
    if start != 0 && start % UNIT == 0 { ZerosAtLeast4(start); }
  }

  /** No larger block fits, is aligned and is allowed. */
  lemma NextBitsMost(start: nat, end: nat, b: nat)
    requires start < end && MayStart(start, b, end)
    ensures b <= NextBits(start, end)
  {
    var fit := Log2(end - start);
    if b > fit { Pow2Monotone(fit + 1, b); }
    if start != 0 { ZerosMost(start, b); }
  }

  lemma {:induction false} ZerosMost(x: nat, k: nat)
    requires x > 0 && IsAligned(x, k)
    ensures k <= TrailingZeros(x)
    decreases k
  {
    if k > 0 {
      Halves(x, Pow2(k - 1));
      ZerosMost(x / 2, k - 1);
    }
  }

  lemma Halves(x: nat, p: nat)
    requires p > 0 && x % (2 * p) == 0
    ensures x % 2 == 0 && (x / 2) % p == 0
  {
    var q := Quot(x, 2 * p);
    assert x == q * (2 * p);
    assert x == 2 * (q * p);
    ModOfMultiple(q, p);
  }

  lemma NextBitsRoom(start: nat, end: nat)
    requires start < end
    ensures NextBits(start, end) <= MAX_UNTYPED_BITS && start + Pow2(NextBits(start, end)) <= end
  {
    var fit := Log2(end - start);
    Pow2Monotone(NextBits(start, end), fit);
  }

  lemma NextBitsAligned(start: nat, end: nat)
    requires start < end
    ensures IsAligned(start, NextBits(start, end))
  {
    if start == 0 {
      ZeroAligned(Pow2(NextBits(start, end)));
    } else {
      LowerAligned(start, TrailingZeros(start), NextBits(start, end));
    }
  }

  lemma ZeroAligned(p: nat)
    requires p > 0
    ensures 0 % p == 0
  {
    ModOfMultiple(0, p);
  }

  lemma RoomForUnit(room: nat)
    requires room > 0
    ensures Log2(room) < MIN_UNTYPED_BITS ==> room < UNIT
  {
    SmallPowers();
    if Log2(room) < MIN_UNTYPED_BITS { Pow2Monotone(Log2(room), 3); }
  }

  lemma SmallPowers()
    ensures Pow2(0) == 1 && Pow2(1) == 2 && Pow2(2) == 4 && Pow2(3) == 8 && Pow2(4) == 16
  {
    assert Pow2(2) == 2 * Pow2(1);
    assert Pow2(4) == 2 * Pow2(3);
  }

  lemma LowerAligned(x: nat, a: nat, b: nat)
    requires IsAligned(x, a)
    ensures b <= a ==> IsAligned(x, b)
  {
    if b <= a { MultipleOfMultiple(x, a, b); }
  }

  lemma ZerosDouble(y: nat)
    requires y > 0
    ensures TrailingZeros(2 * y) == 1 + TrailingZeros(y)
  {
    assert 2 * y / 2 == y;
  }

  lemma ZerosAtLeast4(x: nat)
    requires x > 0 && x % UNIT == 0
    ensures TrailingZeros(x) >= MIN_UNTYPED_BITS
  {
    var k := x / UNIT;
    ZerosDouble(k);
    ZerosDouble(2 * k);
    ZerosDouble(4 * k);
    ZerosDouble(8 * k);
    assert 2 * (8 * k) == x;
  }

  // ---- what the blocks cover ----

  predicate InBlock(b: Block, x: nat) {
    b.start <= x < b.end
  }

  /** The first address of the unit that holds x. */
  function Floor(x: nat): (u: nat)
    ensures u % UNIT == 0 && u <= x < u + UNIT
  {
    x - x % UNIT
  }

  lemma FloorUnique(x: nat, u: nat)
    requires u % UNIT == 0 && u <= x < u + UNIT
    ensures Floor(x) == u
  {
  }

  /** The unit that holds address x lies inside the region. */
  predicate WholeUnit(start: nat, end: nat, x: nat) {
    start <= Floor(x) && Floor(x) + UNIT <= end
  }

  predicate BlockOk(b: Block) {
    MIN_UNTYPED_BITS <= b.bits <= MAX_UNTYPED_BITS && IsAligned(b.start, b.bits) && b.end == b.start + Pow2(b.bits)
  }

  /** Allowed, aligned blocks, one after the other, that end at or below limit. */
  ghost predicate BlocksOk(bs: seq<Block>, limit: nat) {
    && (forall i :: 0 <= i < |bs| ==> BlockOk(bs[i]) && bs[i].end <= limit)
    && (forall i, j :: 0 <= i < j < |bs| ==> bs[i].end <= bs[j].start)
  }

  /** Each block is the largest that may start where it does. */
  ghost predicate AllLargest(bs: seq<Block>, end: nat) {
    forall i, b: nat :: 0 <= i < |bs| && MayStart(bs[i].start, b, end) ==> b <= bs[i].bits
  }

  /** A block of 2^b bytes may start there: it is allowed, aligned, and ends in time. */
  predicate MayStart(start: nat, b: nat, end: nat) {
    b <= MAX_UNTYPED_BITS && start + Pow2(b) <= end && IsAligned(start, b)
  }

  ghost predicate Covered(bs: seq<Block>, x: nat) {
    exists i :: 0 <= i < |bs| && InBlock(bs[i], x)
  }

  /** The address is covered exactly if its unit belongs to the region. */
  ghost predicate Decided(bs: seq<Block>, start: nat, end: nat, x: nat) {
    Covered(bs, x) <==> WholeUnit(start, end, x)
  }

  ghost predicate Exact(bs: seq<Block>, start: nat, end: nat, s: nat) {
    forall x: nat {:trigger Decided(bs, start, end, x)} :: x < s ==> Decided(bs, start, end, x)
  }

  /** Unless it starts a unit, s lies in a unit that does not belong to the region. */
  predicate AtUnit(start: nat, end: nat, s: nat) {
    s % UNIT == 0 || !WholeUnit(start, end, s)
  }

  /** create_untypeds_for_region */
  method CreateUntypedsForRegion(start: nat, end: nat) returns (bs: seq<Block>)
    requires start <= end
    ensures BlocksOk(bs, end) && AllLargest(bs, end)
    ensures forall x: nat :: Covered(bs, x) <==> WholeUnit(start, end, x)
  {
    bs := [];
    var s := start;
    while s != end
      invariant start <= s <= end && BlocksOk(bs, s) && Exact(bs, start, end, s) && AtUnit(start, end, s)
      invariant AllLargest(bs, end)
      decreases end - s
    {
      var b := NextBits(s, end);
      NextBitsFit(s, end);
      if b >= MIN_UNTYPED_BITS {
        UnitsIn(s, b);
        BlockStep(bs, start, end, Block(s, b, s + Pow2(b)));
        BlocksOkSnoc(bs, Block(s, b, s + Pow2(b)));
        LargestSnoc(bs, Block(s, b, s + Pow2(b)), end);
        bs := bs + [Block(s, b, s + Pow2(b))];
      } else {
        WithinUnit(s, b);
        SkipStep(bs, start, end, s, Pow2(b));
      }
      s := s + Pow2(b);
    }
    forall x: nat
      ensures Covered(bs, x) <==> WholeUnit(start, end, x)
    {
      if x < end { assert Decided(bs, start, end, x); } else { NothingAbove(bs, end, x); }
    }
  }

  lemma NothingAbove(bs: seq<Block>, end: nat, x: nat)
    requires BlocksOk(bs, end) && x >= end
    ensures !Covered(bs, x)
  {
  }

  lemma LargestSnoc(bs: seq<Block>, b: Block, end: nat)
    requires AllLargest(bs, end) && b.start < end && b.bits == NextBits(b.start, end)
    ensures AllLargest(bs + [b], end)
  {
    var bs' := bs + [b];
    forall i, k: nat | 0 <= i < |bs'| && MayStart(bs'[i].start, k, end)
      ensures k <= bs'[i].bits
    {
      if i == |bs| { NextBitsMost(b.start, end, k); } else { assert bs'[i] == bs[i]; }
    }
  }

  lemma BlocksOkSnoc(bs: seq<Block>, b: Block)
    requires BlocksOk(bs, b.start) && BlockOk(b) && b.start <= b.end
    ensures BlocksOk(bs + [b], b.end)
  {
  }

  /** A block of whole units that starts at a unit. */
  lemma BlockStep(bs: seq<Block>, start: nat, end: nat, b: Block)
    requires BlocksOk(bs, b.start) && start <= b.start && b.end <= end && b.start % UNIT == 0 && b.end % UNIT == 0
    requires Exact(bs, start, end, b.start)
    ensures Exact(bs + [b], start, end, b.end)
  {
    var bs' := bs + [b];
    forall x: nat | x < b.end
      ensures Decided(bs', start, end, x)
    {
      if x >= b.start {
        UnitInside(b.start, b.end, x);
        assert InBlock(bs'[|bs|], x);
      } else {
        assert Decided(bs, start, end, x);
        SnocCovers(bs, b, x);
      }
    }
  }

  /** Between two unit boundaries there are whole units only. */
  lemma UnitInside(s: nat, e: nat, x: nat)
    requires s % UNIT == 0 && e % UNIT == 0 && s <= x < e
    ensures s <= Floor(x) && Floor(x) + UNIT <= e
  {
    var i, j, u := s / UNIT, e / UNIT, Floor(x) / UNIT;
    assert s == UNIT * i && e == UNIT * j && Floor(x) == UNIT * u;
    assert UNIT * i < UNIT * u + UNIT && UNIT * u < UNIT * j;
  }

  lemma SnocCovers(bs: seq<Block>, b: Block, x: nat)
    requires !InBlock(b, x)
    ensures Covered(bs + [b], x) <==> Covered(bs, x)
  {
    var bs' := bs + [b];
    if Covered(bs, x) {
      var i :| 0 <= i < |bs| && InBlock(bs[i], x);
      assert InBlock(bs'[i], x);
    }
    if Covered(bs', x) {
      var i :| 0 <= i < |bs'| && InBlock(bs'[i], x);
      assert i < |bs|;
    }
  }

  lemma UnitsIn(s: nat, b: nat)
    requires IsAligned(s, b) && b >= MIN_UNTYPED_BITS
    ensures s % UNIT == 0 && (s + Pow2(b)) % UNIT == 0
  {
    SmallPowers();
    MultipleOfMultiple(s, b, 4);
    Pow2Add(b - 4, 4);
    ModOfMultiple(Pow2(b - 4), 16);
    SumOfMultiples(s, Pow2(b));
  }

  lemma SumOfMultiples(a: nat, b: nat)
    requires a % UNIT == 0 && b % UNIT == 0
    ensures (a + b) % UNIT == 0
  {
  }

  /** Fewer than 16 bytes are skipped only inside a unit that does not belong to the region. */
  lemma SkipStep(bs: seq<Block>, start: nat, end: nat, s: nat, p: nat)
    requires start <= s && 0 < p && s + p <= end && s + p <= Floor(s) + UNIT
    requires (end - s < UNIT || s % UNIT != 0) && AtUnit(start, end, s)
    requires BlocksOk(bs, s) && Exact(bs, start, end, s)
    ensures BlocksOk(bs, s + p) && Exact(bs, start, end, s + p) && AtUnit(start, end, s + p)
  {
    if s % UNIT == 0 { FloorUnique(s, s); }
    forall x: nat | x < s + p
      ensures Decided(bs, start, end, x)
    {
      if x >= s {
        NothingAbove(bs, s, x);
        FloorUnique(x, Floor(s));
      } else {
        assert Decided(bs, start, end, x);
      }
    }
    if s + p < Floor(s) + UNIT { FloorUnique(s + p, Floor(s)); }
  }

  /** An aligned chunk of less than a unit does not cross into the next unit. */
  lemma WithinUnit(s: nat, b: nat)
    requires b < MIN_UNTYPED_BITS && IsAligned(s, b)
    ensures s + Pow2(b) <= Floor(s) + UNIT
  {
    SmallPowers();
    match b
    case 3 => Within8(s);
    case 2 => Within4(s);
    case 1 => Within2(s);
    case _ =>
  }

  lemma Within8(s: nat)
    requires s % 8 == 0
    ensures s + 8 <= Floor(s) + UNIT
  {
  }

  lemma Within4(s: nat)
    requires s % 4 == 0
    ensures s + 4 <= Floor(s) + UNIT
  {
  }

  lemma Within2(s: nat)
    requires s % 2 == 0
    ensures s + 2 <= Floor(s) + UNIT
  {
  }
}
