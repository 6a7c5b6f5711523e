/** Integer stand-ins for the floating-point `math.log2` the generators call,
    and the round-up rule `((cursor + 2**shift) >> shift) << shift` that places
    a memory window. */
module Arith {

  function Pow2(k: nat): (p: nat)
    ensures p >= 1
  {
    if k == 0 then 1 else 2 * Pow2(k - 1)
  }

  lemma {:induction false} Pow2Add(a: nat, b: nat)
    ensures Pow2(a + b) == Pow2(a) * Pow2(b)
    decreases a
  {
    if a > 0 {
      Pow2Add(a - 1, b);
      assert Pow2(a + b) == 2 * Pow2(a - 1 + b);
    }
  }

  /** A larger exponent gives at least twice the power. */
  lemma {:induction false} Pow2Strict(a: nat, b: nat)
    requires a < b
    ensures 2 * Pow2(a) <= Pow2(b)
    decreases b
  {
    if a < b - 1 {
      Pow2Strict(a, b - 1);
    }
  }

  /** `ceil(log2(n))`: the least k with n <= 2^k. */
  function CeilLog2(n: int): (k: nat)
    requires n >= 1
    ensures n <= Pow2(k)
    ensures k == 0 || Pow2(k - 1) < n
    decreases n
  {
    if n == 1 then 0 else 1 + CeilLog2((n + 1) / 2)
  }

  /** `int(log2(n))` (truncation): the greatest k with 2^k <= n. */
  function FloorLog2(n: int): (k: nat)
    requires n >= 1
    ensures Pow2(k) <= n < 2 * Pow2(k)
    decreases n
  {
    if n == 1 then 0 else 1 + FloorLog2(n / 2)
  }

  predicate IsPow2(n: int)
    requires n >= 1
  {
    Pow2(FloorLog2(n)) == n
  }

  /** The truncated logarithm of 2^k is k. */
  lemma FloorLog2Exact(k: nat)
    ensures FloorLog2(Pow2(k)) == k
  {
    var f := FloorLog2(Pow2(k));
    if f < k {
      Pow2Strict(f, k);
    } else if f > k {
      Pow2Strict(k, f);
    }
  }

  lemma MulMonotone(a: nat, b: nat, c: nat)
    requires a <= b
    ensures a * c <= b * c
  {
  }

  lemma Pow2Monotone(a: nat, b: nat)
    requires a <= b
    ensures Pow2(a) <= Pow2(b)
  {
    if a < b { Pow2Strict(a, b); }
  }

  /** The bounds in CeilLog2's contract single out its result. */
  lemma CeilLog2Unique(n: int, k: nat)
    requires n >= 1 && n <= Pow2(k) && (k == 0 || Pow2(k - 1) < n)
    ensures CeilLog2(n) == k
  {
    var c := CeilLog2(n);
    if c < k { Pow2Monotone(c, k - 1); }
    if c > k { Pow2Monotone(k, c - 1); }
  }

  /** The two logarithms agree exactly on powers of two; on every other size
      the ceiling is one more than the truncation. */
  lemma CeilFloorLog2(n: int)
    requires n >= 1
    ensures IsPow2(n) ==> CeilLog2(n) == FloorLog2(n)
    ensures !IsPow2(n) ==> CeilLog2(n) == FloorLog2(n) + 1
  {
    var f := FloorLog2(n);
    if IsPow2(n) {
      CeilLog2Unique(n, f);
    } else {
      assert Pow2(f + 1) == 2 * Pow2(f);
      CeilLog2Unique(n, f + 1);
    }
  }

  /** `q * p` is a multiple of p, and dividing it by p gives q back. */
  lemma MultipleOf(q: nat, p: nat)
    requires p >= 1
    ensures (q * p) % p == 0 && (q * p) / p == q
  {
    var x := q * p;
    var d, r := x / p, x % p;
    assert x == d * p + r && 0 <= r < p;
    assert (q - d) * p == r;
    // Splitting on the sign of q - d lets the solver see that a non-zero
    // multiple of p cannot lie in [0, p).
    if q - d >= 1 {
    } else if q - d <= -1 {
    }
  }

  lemma DivisionBounds(x: nat, p: nat)
    requires p >= 1
    ensures (x / p) * p <= x < (x / p) * p + p
  {
  }

  /** `((cursor + 2**shift) >> shift) << shift`: the first multiple of 2^shift
      strictly above the cursor. */
  function AlignUp(cursor: nat, shift: nat): (base: nat)
    ensures base % Pow2(shift) == 0
    ensures cursor < base <= cursor + Pow2(shift)
  {
    var p := Pow2(shift);
    var q := (cursor + p) / p;
    DivisionBounds(cursor + p, p);
    MultipleOf(q, p);
    q * p
  }

  /** The rule rounds up even when the cursor is already aligned: it then moves
      a whole 2^shift further. */
  lemma AlignUpOfAligned(cursor: nat, shift: nat)
    requires cursor % Pow2(shift) == 0
    ensures AlignUp(cursor, shift) == cursor + Pow2(shift)
  {
    var p := Pow2(shift);
    var i := cursor / p;
    assert cursor == i * p;
    assert cursor + p == (i + 1) * p;
    MultipleOf(i + 1, p);
  }
}
