/** Unsigned integer bit arithmetic over `nat`: powers of two, bitwise AND and
    the 64-bit complement, as C++ computes them on `uint64_t`. */
module Bits {

  const U32_MAX: nat := 0xFFFF_FFFF
  const U64_MAX: nat := 0xFFFF_FFFF_FFFF_FFFF
  const TWO_64: nat := 0x1_0000_0000_0000_0000

  /** A `uint64_t` value. */
  type U64 = x: nat | x <= U64_MAX

  function Pow2(k: nat): (p: nat)
    ensures p >= 1
  {
    if k == 0 then 1 else 2 * Pow2(k - 1)
  }

  /** Bitwise AND of two naturals, one bit at a time from the low end. */
  function And(x: nat, y: nat): (r: nat)
    ensures r <= x
  {
    if x == 0 || y == 0 then 0 else 2 * And(x / 2, y / 2) + (x % 2) * (y % 2)
  }

  /** `x` with its low `k` bits cleared. */
  function ClearLow(x: nat, k: nat): nat
  {
    if k == 0 then x else 2 * ClearLow(x / 2, k - 1)
  }

  /** `~x` on a 64-bit unsigned value. */
  function Not64(x: nat): (r: nat)
    requires x <= U64_MAX
    ensures r <= U64_MAX && r + x == U64_MAX
  {
    U64_MAX - x
  }

  /** Unsigned 64-bit addition with C++ wrap-around. */
  function Add64(x: nat, y: nat): (r: nat)
    ensures r <= U64_MAX
    ensures x + y <= U64_MAX ==> r == x + y
    ensures x <= U64_MAX && y <= U64_MAX && x + y > U64_MAX ==> r == x + y - TWO_64
  {
    (x + y) % TWO_64
  }

  /** Unsigned 64-bit multiplication with C++ wrap-around. */
  function Mul64(x: nat, y: nat): (r: nat)
    ensures r <= U64_MAX
    ensures x * y <= U64_MAX ==> r == x * y
  {
    (x * y) % TWO_64
  }

  lemma {:induction false} Pow2Monotone(i: nat, j: nat)
    requires i <= j
    ensures Pow2(i) <= Pow2(j)
  {
    if i < j {
      Pow2Monotone(i, j - 1);
    }
  }

  lemma {:induction false} Pow2Add(i: nat, j: nat)
    ensures Pow2(i + j) == Pow2(i) * Pow2(j)
  {
    if j > 0 {
      Pow2Add(i, j - 1);
      assert Pow2(i + j) == 2 * Pow2(i + j - 1);
    }
  }

  lemma Pow2_64()
    ensures Pow2(64) == TWO_64
  {
    assert Pow2(2) == 4;
    Pow2Add(2, 2);
    assert Pow2(4) == 16;
    Pow2Add(4, 4);
    assert Pow2(8) == 256;
    Pow2Add(8, 8);
    assert Pow2(16) == 0x1_0000;
    Pow2Add(16, 16);
    assert Pow2(32) == 0x1_0000_0000;
    Pow2Add(32, 32);
  }

  lemma Pow2Below64(k: nat)
    requires k < 64
    ensures Pow2(k) <= U64_MAX
  {
    Pow2_64();
    Pow2Monotone(k, 63);
    assert Pow2(64) == 2 * Pow2(63);
  }

  /** The 64-bit instance of `AndMaskClearsLow`. */
  lemma AndMask64(y: nat, k: nat)
    requires k < 64 && y <= U64_MAX
    ensures Pow2(k) <= TWO_64
    ensures And(y, TWO_64 - Pow2(k)) == ClearLow(y, k)
  {
    Pow2_64();
    AndMaskClearsLow(y, 64, k);
  }

  /** AND with an all-ones mask of `w` bits leaves any `w`-bit value intact. */
  lemma {:induction false} AndAllOnes(x: nat, w: nat)
    requires x < Pow2(w)
    ensures And(x, Pow2(w) - 1) == x
  {
    if x != 0 {
      assert w > 0;
      AndAllOnes(x / 2, w - 1);
      assert (Pow2(w) - 1) / 2 == Pow2(w - 1) - 1;
      assert (Pow2(w) - 1) % 2 == 1;
    }
  }

  /** AND with the `w`-bit mask whose low `k` bits are zero clears exactly
      those bits. */
  lemma {:induction false} AndMaskClearsLow(x: nat, w: nat, k: nat)
    requires k <= w && x < Pow2(w)
    ensures Pow2(k) <= Pow2(w)
    ensures And(x, Pow2(w) - Pow2(k)) == ClearLow(x, k)
  {
    Pow2Monotone(k, w);
    if k == 0 {
      AndAllOnes(x, w);
    } else if x == 0 {
      ClearLowSmall(x, k);
    } else {
      var m := Pow2(w) - Pow2(k);
      assert m == 2 * (Pow2(w - 1) - Pow2(k - 1));
      assert m / 2 == Pow2(w - 1) - Pow2(k - 1) && m % 2 == 0;
      if m == 0 {
        ClearLowSmall(x, k);
        assert And(x, m) == 0;
      } else {
        AndMaskClearsLow(x / 2, w - 1, k - 1);
        assert And(x / 2, m / 2) == ClearLow(x / 2, k - 1);
        assert (x % 2) * (m % 2) == 0;
        assert And(x, m) == 2 * And(x / 2, m / 2);
        assert ClearLow(x, k) == 2 * ClearLow(x / 2, k - 1);
        assert And(x, m) == ClearLow(x, k);
      }
    }
  }

  /** Clearing the low `k` bits of a value below 2^k leaves zero. */
  lemma {:induction false} ClearLowSmall(x: nat, k: nat)
    requires x < Pow2(k)
    ensures ClearLow(x, k) == 0
  {
    if k > 0 {
      ClearLowSmall(x / 2, k - 1);
    }
  }

  /** Clearing the low `k` bits rounds down to a multiple of 2^k. */
  lemma {:induction false} ClearLowIsFloor(x: nat, k: nat)
    ensures ClearLow(x, k) == (x / Pow2(k)) * Pow2(k)
  {
    if k > 0 {
      var p := Pow2(k - 1);
      ClearLowIsFloor(x / 2, k - 1);
      HalveThenDivide(x, p);
      var q := x / (2 * p);
      assert ClearLow(x, k) == 2 * (q * p);
      assert 2 * (q * p) == q * (2 * p);
    }
  }

  /** Halving and then dividing by `p` is dividing by `2 * p`. */
  lemma HalveThenDivide(x: nat, p: nat)
    requires p > 0
    ensures (x / 2) / p == x / (2 * p)
  {
    var q := (x / 2) / p;
    var r := (x / 2) % p;
    assert x / 2 == q * p + r;
    assert x == 2 * (x / 2) + x % 2;
    assert x == q * (2 * p) + (2 * r + x % 2);
    DivUnique(x, 2 * p, q, 2 * r + x % 2);
  }

  /** Dividing by `p` and then halving is dividing by `2 * p`. */
  lemma DivideThenHalve(x: nat, p: nat)
    requires p > 0
    ensures (x / p) / 2 == x / (2 * p)
  {
    var q := (x / p) / 2;
    var s := (x / p) % 2;
    assert x == (x / p) * p + x % p;
    assert x / p == 2 * q + s;
    assert x == q * (2 * p) + (s * p + x % p);
    DivUnique(x, 2 * p, q, s * p + x % p);
  }

  lemma DivUnique(x: nat, d: int, q: int, r: int)
    requires d > 0 && x == q * d + r && 0 <= r < d
    ensures x / d == q
  {
    var q', r' := x / d, x % d;
    assert (q' - q) * d == r - r';
    assert -d < r - r' < d;
    MulBounds(q' - q, d);
  }

  lemma MulBounds(a: int, d: int)
    requires d > 0 && -d < a * d < d
    ensures a == 0
  {
  }
}
