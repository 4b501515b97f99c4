// The collector's parameters: percentages kept as floating-point bytes.
module GcParam {
  import opened Words

  const MAX_LMEM: nat := 0x7FFF_FFFF_FFFF_FFFF

  // ---------------------------------------------------------------- logarithms

  /** The table `log_2` of luaO_ceillog2, by its runs: the least n such that i + 1 <= 2^n. */
  function Log2Table(i: nat): nat
    requires i < 256
  {
    if i < 1 then 0 else if i < 2 then 1 else if i < 4 then 2 else if i < 8 then 3 else if i < 16 then 4
    else if i < 32 then 5 else if i < 64 then 6 else if i < 128 then 7 else 8
  }

  /** `n` is the least exponent with x <= 2^n. */
  ghost predicate IsCeilLog2(x: nat, n: nat) {
    x <= Pow2(n) && (n > 0 ==> Pow2(n - 1) < x)
  }

  lemma TableRight(i: nat)
    requires i < 256
    ensures IsCeilLog2(i + 1, Log2Table(i))
  {
    assert Pow2(0) == 1 && Pow2(1) == 2 && Pow2(2) == 4 && Pow2(3) == 8 && Pow2(4) == 16;
    assert Pow2(5) == 32 && Pow2(6) == 64 && Pow2(7) == 128 && Pow2(8) == 256;
  }

  /** The bounds of a logarithm, from those of its argument. */
  lemma LogRange(x: nat, n: nat, k: nat)
    requires IsCeilLog2(x, n)
    ensures x <= Pow2(k) <==> n <= k
  {
    if n > k {
      if n - 1 > k { Pow2Grows(k, n - 1); }
    } else {
      if n < k { Pow2Grows(n, k); }
    }
  }

  /** `k` is the logarithm of y + 1. */
  ghost predicate LogOf(y: nat, k: nat) { IsCeilLog2(y + 1, k) }

  /** Shifting by a byte takes 8 from the logarithm. */
  lemma LogStep(y: nat, n: nat)
    requires y >= 256 && LogOf(y / 256, n)
    ensures LogOf(y, n + 8)
  {
    Pow2Adds(n, 8);
    Pow2Is256();
    assert Pow2(0) == 1;
    Pow2Adds(n - 1, 8);
  }

  lemma Pow2Is256()
    ensures Pow2(8) == 256
  {
    assert Pow2(4) == 16;
    Pow2Adds(4, 4);
  }

  /** What `l` shifted bits add to a logarithm. */
  ghost predicate Carries(y: nat, y0: nat, l: nat) {
    forall k: nat :: LogOf(y, k) ==> LogOf(y0, k + l)
  }

  lemma CarriesOn(y: nat, y0: nat, l: nat)
    requires y >= 256 && Carries(y, y0, l)
    ensures Carries(y / 256, y0, l + 8)
  {
    forall k: nat | LogOf(y / 256, k)
      ensures LogOf(y0, k + (l + 8))
    {
      LogStep(y, k);
      assert LogOf(y0, (k + 8) + l);
      assert (k + 8) + l == k + (l + 8);
    }
  }

  /** luaO_ceillog2 */
  method CeilLog2(x: nat) returns (n: nat)
    requires x < WORD
    ensures x > 0 ==> IsCeilLog2(x, n)
    ensures x == 0 ==> n == 32
  {
    hide IsCeilLog2;
    var y: nat := (x + WORD - 1) % WORD;
    var l: nat := 0;
    ghost var y0 := y;
    assert Carries(y, y0, l);
    while y >= 256
      invariant Carries(y, y0, l)
    {
      CarriesOn(y, y0, l);
      l := l + 8;
      y := y / 256;
    }
    TableRight(y);
    assert LogOf(y, Log2Table(y));
    n := Log2Table(y) + l;
    assert LogOf(y0, n);
    if x == 0 {
      WordLog(n);
    }
  }

  lemma WordLog(n: nat)
    requires LogOf(WORD - 1, n)
    ensures n == 32
  {
    Pow2Is32();
    Pow2Grows(31, 32);
    LogRange(WORD, n, 32);
    LogRange(WORD, n, 31);
  }

  // ---------------------------------------------------------------- encoding

  /** 0x1F << 7, times 100: from here on a percentage has no code. */
  const CUTOFF: nat := 396_800

  /** What a byte stands for, in 128ths: (1xxxx) * 2^(eeee - 1), or (xxxx) when eeee is 0. */
  function Decoded(b: nat): nat {
    if b / 16 == 0 then b % 16 else (b % 16 + 16) * Pow2(b / 16 - 1)
  }

  /** A percentage in 128ths, rounded up. */
  function In128ths(p: nat): nat { (p * 128 + 99) / 100 }

  /** luaO_codeparam: what is encoded is at most the percentage in 128ths and above 15/16 of it,
      and exact for small values; from the cutoff on it is the greatest. */
  method CodeParam(p: nat) returns (b: nat)
    requires p < WORD
    ensures b < 256
    ensures p >= CUTOFF ==> b == 0xFF
    ensures p < CUTOFF ==> Decoded(b) <= In128ths(p) <= 16 * Decoded(b)
    ensures 0 < p < CUTOFF ==> 15 * In128ths(p) < 16 * Decoded(b)
    ensures p < CUTOFF && In128ths(p) < 32 ==> Decoded(b) == In128ths(p)
  {
    if p >= CUTOFF {
      return 0xFF;
    }
    var q := (p * 128 + 99) / 100;
    if q < 0x10 {
      return q;
    }
    var n := CeilLog2(q + 1);
    CodeBounds(q, n);
    var log := n - 5;
    var m := q / Pow2(log);
    b := (m - 0x10) + (log + 1) * 16;
    DecodedBack(m, log);
  }

  lemma DecodedBack(m: nat, log: nat)
    requires 16 <= m < 32 && log < 15
    ensures Decoded((m - 0x10) + (log + 1) * 16) == m * Pow2(log) && (m - 0x10) + (log + 1) * 16 < 256
  {
    hide Pow2;
    var b := (m - 0x10) + (log + 1) * 16;
    assert b / 16 == log + 1 && b % 16 == m - 16;
  }

  /** With n the logarithm of q + 1, q has n binary digits; five of them are kept. */
  lemma CodeBounds(q: nat, n: nat)
    requires 16 <= q < 524_288 && IsCeilLog2(q + 1, n)
    ensures 5 <= n <= 19 && (q < 32 ==> n == 5)
    ensures 16 <= q / Pow2(n - 5) < 32
    ensures var d := (q / Pow2(n - 5)) * Pow2(n - 5); d <= q < d + Pow2(n - 5) && 16 * Pow2(n - 5) <= q
  {
    assert Pow2(4) == 16 && Pow2(5) == 32;
    assert Pow2(19) == 524_288 by { assert Pow2(9) == 512; assert Pow2(10) == 1024; Pow2Adds(9, 10); }
    LogRange(q + 1, n, 4);
    LogRange(q + 1, n, 5);
    LogRange(q + 1, n, 19);
    Pow2Adds(n - 5, 5);
    Pow2Adds(n - 5, 4);
    Quotient(q, Pow2(n - 5));
  }

  lemma Quotient(q: nat, d: nat)
    requires d > 0 && 16 * d <= q < 32 * d
    ensures 16 <= q / d < 32 && (q / d) * d <= q < (q / d) * d + d
  {
    assert q == (q / d) * d + q % d;
    Scaled(q / d, 15, d);
    Scaled(32, q / d, d);
  }

  lemma Scaled(a: nat, b: nat, d: nat)
    ensures a <= b ==> a * d <= b * d
  {
  }

  // ---------------------------------------------------------------- application

  /** MAX_LMEM / 0x1F, rounded down. */
  const LIMIT: nat := 297_528_130_221_121_800

  /** x >> n */
  function Shr(x: nat, n: nat): (r: nat)
    ensures r * Pow2(n) <= x < r * Pow2(n) + Pow2(n)
  {
    Divides(x, Pow2(n));
    x / Pow2(n)
  }

  lemma Divides(x: nat, d: nat)
    requires d > 0
    ensures x / d >= 0 && (x / d) * d <= x < (x / d) * d + d
  {
    assert x == (x / d) * d + x % d;
  }

  /** The mantissa of a byte, with the extra 1 of a normalized one. */
  function Mantissa(b: nat): nat {
    if b / 16 > 0 then b % 16 + 0x10 else b % 16
  }

  /** The power of two to scale by, with the excess of 7 still in it. */
  function Power(b: nat): nat {
    if b / 16 > 0 then b / 16 - 1 else 0
  }

  /** luaO_applyparam, for amounts that are not negative. */
  function ApplyParam(b: nat, x: nat): nat {
    var m, e := Mantissa(b), Power(b);
    if e >= 7 then
      if x < Shr(LIMIT, e - 7) then x * m * Pow2(e - 7) else MAX_LMEM
    else if x < LIMIT then Shr(x * m, 7 - e)
    else if Shr(x, 7 - e) < LIMIT then Shr(x, 7 - e) * m
    else MAX_LMEM
  }

  /** The amounts for which the multiplication comes first and cannot overflow. */
  function Safe(b: nat): nat {
    if Power(b) >= 7 then Shr(LIMIT, Power(b) - 7) else LIMIT
  }

  /** The exact product of `x` and what the byte stands for, rounded down. */
  function Exact(b: nat, x: nat): nat { Shr(x * Decoded(b), 7) }

  lemma DecodedIs(b: nat)
    ensures Decoded(b) == Mantissa(b) * Pow2(Power(b)) && Mantissa(b) < 32
  {
  }

  lemma Unique(x: nat, d: nat, q: nat, r: nat)
    requires q * d <= x < q * d + d && r * d <= x < r * d + d
    ensures q == r
  {
    Scaled(q + 1, r, d);
    Scaled(r + 1, q, d);
  }

  /** The result never exceeds MAX_LMEM; below the bound it is the exact product, rounded down;
      above it, it is the greatest amount or at most the exact product. */
  lemma ApplyExact(b: nat, x: nat)
    ensures ApplyParam(b, x) <= MAX_LMEM
    ensures x < Safe(b) ==> ApplyParam(b, x) == Exact(b, x)
    ensures ApplyParam(b, x) == MAX_LMEM || ApplyParam(b, x) <= Exact(b, x)
  {
    hide Shr, Decoded, Mantissa, Power;
    DecodedIs(b);
    var m, e := Mantissa(b), Power(b);
    assert Pow2(7) == 128;
    if e >= 7 {
      Pow2Adds(7, e - 7);
      ShiftUp(x, m, e - 7);
    } else {
      Pow2Adds(e, 7 - e);
      ShiftDown(x, m, e, 7 - e);
    }
  }

  /** Scaling up, the order of multiplication and shift does not matter. */
  lemma ShiftUp(x: nat, m: nat, e: nat)
    requires m < 32
    ensures Shr(x * (m * (Pow2(7) * Pow2(e))), 7) == x * m * Pow2(e)
    ensures x < Shr(LIMIT, e) ==> x * m * Pow2(e) <= MAX_LMEM
  {
    hide *;
    ShiftExact(x, m, Pow2(e));
    if x < Shr(LIMIT, e) {
      UnderLimit(x, m, e);
    }
  }

  lemma ShiftExact(x: nat, m: nat, p: nat)
    ensures Shr(x * (m * (Pow2(7) * p)), 7) == x * m * p
  {
    hide Shr, Pow2;
    Regroup(x, m, Pow2(7), p);
    Unique(x * (m * (Pow2(7) * p)), Pow2(7), Shr(x * (m * (Pow2(7) * p)), 7), x * m * p);
  }

  lemma UnderLimit(x: nat, m: nat, e: nat)
    requires m < 32 && x < Shr(LIMIT, e)
    ensures x * m * Pow2(e) <= MAX_LMEM
  {
    hide Shr, Pow2;
    var p := Pow2(e);
    Scaled(x, Shr(LIMIT, e), p);
    Scaled(m, 31, x * p);
    Swap(x, m, p);
  }

  lemma Regroup(x: nat, m: nat, s: nat, p: nat)
    ensures x * (m * (s * p)) == (x * m * p) * s
  {
    assert x * (m * (s * p)) == (x * m) * (s * p);
    assert (x * m) * (s * p) == (x * m * p) * s;
  }

  lemma Swap(x: nat, m: nat, p: nat)
    ensures x * m * p == m * (x * p)
  {
    assert x * m * p == (m * x) * p;
  }

  /** Scaling down, multiplying first keeps all digits. */
  lemma ShiftDown(x: nat, m: nat, f: nat, e: nat)
    requires m < 32 && Pow2(f) * Pow2(e) == Pow2(7)
    ensures Shr(x * (m * Pow2(f)), 7) == Shr(x * m, e)
    ensures x < LIMIT ==> Shr(x * m, e) <= MAX_LMEM
    ensures Shr(x, e) < LIMIT ==> Shr(x, e) * m <= MAX_LMEM
    ensures Shr(x, e) * m <= Shr(x * m, e)
  {
    hide Shr, Pow2;
    var q, y := Shr(x * m, e), Shr(x, e);
    ProductShift(x * m, Pow2(f), Pow2(e), q);
    assert x * (m * Pow2(f)) == x * m * Pow2(f);
    Unique(x * m * Pow2(f), Pow2(7), Shr(x * (m * Pow2(f)), 7), q);
    if x < LIMIT {
      AtMost(x * m, Pow2(e), q);
      Scaled(m, 31, x);
    }
    if y < LIMIT {
      Scaled(m, 31, y);
    }
    ShiftFirst(x, m, Pow2(e), y, q);
  }

  lemma AtMost(n: nat, d: nat, q: nat)
    requires d > 0 && q * d <= n
    ensures q <= n
  {
    Scaled(1, d, q);
  }

  /** A quotient by `d` is the quotient of multiples by the multiple of `d`. */
  lemma ProductShift(n: nat, c: nat, d: nat, q: nat)
    requires q * d <= n < q * d + d && c > 0
    ensures q * (c * d) <= n * c < q * (c * d) + c * d
  {
    Scaled(q * d, n, c);
    Scaled(n + 1, q * d + d, c);
    assert (q * d) * c == q * (c * d);
    assert (q * d + d) * c == q * (c * d) + c * d;
    assert (n + 1) * c == n * c + c;
  }

  /** Shifting first loses digits. */
  lemma ShiftFirst(x: nat, m: nat, d: nat, y: nat, q: nat)
    requires y * d <= x && x * m < q * d + d && d > 0
    ensures y * m <= q
  {
    Scaled(y * d, x, m);
    assert (y * m) * d == (y * d) * m;
    Scaled(q + 1, y * m, d);
    assert (q + 1) * d == q * d + d;
  }
}
