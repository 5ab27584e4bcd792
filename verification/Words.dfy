/** Powers of two and the alignment arithmetic that the kernel writes with shifts and masks.
    Machine words are natural numbers here: `x >> k` is `x / Pow2(k)`, `x & MASK!(k)` is
    `x % Pow2(k)`, and `x & !MASK!(k)` is `x - x % Pow2(k)`. */
module Words {

  /** BIT!(k). */
  function Pow2(k: nat): (r: nat)
    ensures r >= 1
  {
    if k == 0 then 1 else 2 * Pow2(k - 1)
  }

  lemma {:induction false} Pow2Add(a: nat, b: nat)
    ensures Pow2(a + b) == Pow2(a) * Pow2(b)
  {
    if a == 0 {
    } else {
      Pow2Add(a - 1, b);
      assert Pow2(a + b) == 2 * Pow2(a + b - 1);
      assert (2 * Pow2(a - 1)) * Pow2(b) == 2 * (Pow2(a - 1) * Pow2(b));
    }
  }

  lemma Pow2Monotone(a: nat, b: nat)
    requires a <= b
    ensures Pow2(a) <= Pow2(b)
  {
    Pow2Add(a, b - a);
    assert Pow2(b) == Pow2(a) * Pow2(b - a);
    MulGrows(Pow2(a), Pow2(b - a));
  }

  lemma MulGrows(a: nat, b: nat)
    requires b >= 1
    ensures a <= a * b
  {
    assert a * b == a + a * (b - 1);
    MulNonNegative(a, b - 1);
  }

  lemma MulNonNegative(a: nat, b: nat)
    ensures 0 <= a * b
  {}

  /** IS_ALIGNED!(x, bits). */
  predicate IsAligned(x: nat, bits: nat) {
    x % Pow2(bits) == 0
  }

  /** alignUp: (x + BIT!(bits) - 1) & !MASK!(bits). */
  function AlignUp(x: nat, bits: nat): (r: nat) {
    var t := x + Pow2(bits) - 1;
    t - t % Pow2(bits)
  }

  /** x / p, for a word x. */
  function Quot(x: nat, p: nat): (r: nat)
    requires p > 0
  {
    x / p
  }

  lemma MultipleBound(m: nat, x: nat, p: nat)
    requires p > 0 && m * p < x * p + p
    ensures m <= x
  {
    assert (x + 1) * p == x * p + p;
    if m > x { MulMonotone(x + 1, m, p); }
  }

  lemma MulMonotone(a: nat, b: nat, p: nat)
    requires a <= b
    ensures a * p <= b * p
  {
    assert (b - a) * p == b * p - a * p;
    MulNonNegative(b - a, p);
  }

  /** Rounding up gives the least multiple that is not below x. */
  lemma AlignLeast(x: nat, p: nat, q: nat)
    requires p > 0 && x <= q * p
    ensures var t := x + p - 1; (t - t % p) % p == 0 && x <= t - t % p <= q * p
  {
    var t := x + p - 1;
    var m := Quot(t, p);
    assert t == m * p + t % p;
    ModOfMultiple(m, p);
    MultipleBound(m, q, p);
    MulMonotone(m, q, p);
  }

  lemma ModOfMultiple(m: nat, p: nat)
    requires p > 0
    ensures (m * p) % p == 0
  {
    DivModUnique(m * p, p, m, 0);
  }

  /** Euclidean division is unique. */
  lemma DivModUnique(x: nat, p: nat, q: nat, r: nat)
    requires p > 0 && x == q * p + r && r < p
    ensures x / p == q && x % p == r
  {
    var q', r' := x / p, x % p;
    assert x == q' * p + r';
    assert (q + 1) * p == q * p + p && (q' + 1) * p == q' * p + p;
    if q < q' { MulMonotone(q + 1, q', p); }
    if q' < q { MulMonotone(q' + 1, q, p); }
  }

  lemma MultipleOfMultiple(x: nat, a: nat, b: nat)
    requires b <= a && IsAligned(x, a)
    ensures IsAligned(x, b)
    ensures x == Quot(x, Pow2(a)) * Pow2(a - b) * Pow2(b)
  {
    Pow2Add(a - b, b);
    MultipleOfProduct(x, Pow2(a), Pow2(a - b), Pow2(b));
  }

  lemma MultipleOfProduct(x: nat, p: nat, d: nat, q: nat)
    requires p > 0 && q > 0 && p == d * q && x % p == 0
    ensures x % q == 0 && x == Quot(x, p) * d * q
  {
    var k := Quot(x, p);
    assert x == k * p;
    assert k * (d * q) == k * d * q;
    MulNonNegative(k, d);
    ModOfMultiple(k * d, q);
  }

  lemma {:induction false} Pow2Strict(a: nat, b: nat)
    requires a < b
    ensures Pow2(a) < Pow2(b)
  {
    Pow2Monotone(a, b - 1);
  }

  lemma Pow2Reflects(a: nat, b: nat)
    requires Pow2(a) <= Pow2(b)
    ensures a <= b
  {
    if b < a { Pow2Strict(b, a); }
  }
}
