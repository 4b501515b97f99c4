// Powers of two and the bit masks the program takes remainders with.
module Words {

  const WORD: nat := 0x1_0000_0000

  function Pow2(k: nat): (p: nat)
    ensures p > 0
  {
    if k == 0 then 1 else 2 * Pow2(k - 1)
  }

  ghost predicate PowerOfTwo(n: nat) {
    exists k: nat :: n == Pow2(k)
  }

  lemma Doubles(n: nat)
    requires PowerOfTwo(n)
    ensures PowerOfTwo(2 * n)
  {
    var k: nat :| n == Pow2(k);
    assert 2 * n == Pow2(k + 1);
  }

  lemma {:induction false} Pow2Adds(a: nat, b: nat)
    ensures Pow2(a + b) == Pow2(a) * Pow2(b)
  {
    if a > 0 {
      Pow2Adds(a - 1, b);
      assert 2 * Pow2(a - 1) * Pow2(b) == 2 * (Pow2(a - 1) * Pow2(b));
    }
  }

  lemma {:induction false} Pow2Grows(a: nat, b: nat)
    requires a < b
    ensures Pow2(a) < Pow2(b)
  {
    if a + 1 < b {
      Pow2Grows(a, b - 1);
    }
  }

  lemma Pow2Is32()
    ensures Pow2(32) == WORD
  {
    assert Pow2(8) == 0x100 by { assert Pow2(4) == 16; assert Pow2(6) == 64; }
    Pow2Adds(8, 8);
    Pow2Adds(16, 16);
  }

  lemma MulAtLeast(b: nat, d: nat)
    requires d >= 1
    ensures b * d >= b
  {
    assert b * d == b + b * (d - 1);
  }

  lemma DivModUnique(a: nat, b: nat, q: nat, r: nat)
    requires r < b && a == b * q + r
    ensures a / b == q && a % b == r
  {
    var d := a / b - q;
    assert a == b * (a / b) + a % b;
    assert b * d == b * (a / b) - b * q == r - a % b;
    assert b * (-d) == -(b * d);
    if d >= 1 {
      MulAtLeast(b, d);
    } else if d <= -1 {
      MulAtLeast(b, -d);
    }
  }

  /** `x & (cap - 1)`, which is the remainder when `cap` is a power of two. */
  function Mask(x: nat, cap: nat): (r: nat)
    requires cap > 0
    ensures r < cap
  {
    if x < cap then x else Mask(x - cap, cap)
  }

  lemma {:induction false} MaskIsRemainder(x: nat, cap: nat)
    requires cap > 0
    ensures Mask(x, cap) == x % cap
  {
    if x >= cap {
      MaskIsRemainder(x - cap, cap);
      var y := x - cap;
      assert y == cap * (y / cap) + y % cap;
      assert cap * (y / cap) + cap == cap * (y / cap + 1);
      DivModUnique(x, cap, y / cap + 1, y % cap);
    } else {
      DivModUnique(x, cap, 0, x);
    }
  }

  /** Adding before masking or masking first and then adding is the same. */
  lemma {:induction false} MaskAdds(x: nat, i: nat, cap: nat)
    requires cap > 0
    ensures Mask(x + i, cap) == Mask(Mask(x, cap) + i, cap)
  {
    if x >= cap {
      MaskAdds(x - cap, i, cap);
    }
  }

  lemma MaskNear(x: nat, cap: nat)
    requires 0 < cap && x < 2 * cap
    ensures Mask(x, cap) == if x < cap then x else x - cap
  {
  }

  lemma {:induction false} MaskOfMultiple(y: nat, cap: nat, m: nat)
    requires cap > 0
    ensures cap * m >= 0 && Mask(y + cap * m, cap) == Mask(y, cap)
  {
    if m > 0 {
      MaskOfMultiple(y, cap, m - 1);
      assert cap * m == cap * (m - 1) + cap;
    }
  }

  /** Unsigned 32-bit addition and subtraction. */
  function Add32(a: nat, b: nat): (r: nat)
    requires a < WORD && b < WORD
    ensures r < WORD
  {
    if a + b < WORD then a + b else a + b - WORD
  }

  function Sub32(a: nat, b: nat): (r: nat)
    requires a < WORD && b < WORD
    ensures r < WORD && Add32(b, r) == a
  {
    if a >= b then a - b else a + WORD - b
  }

  /** A 32-bit counter that wraps keeps its place in a power-of-two ring. */
  lemma MaskWraps(x: nat, cap: nat)
    requires PowerOfTwo(cap) && cap <= WORD
    ensures Mask(x + WORD, cap) == Mask(x, cap)
  {
    var k: nat :| cap == Pow2(k);
    Pow2Is32();
    if k > 32 {
      Pow2Grows(32, k);
      assert false;
    }
    Pow2Adds(k, 32 - k);
    MaskOfMultiple(x, cap, Pow2(32 - k));
  }
}
