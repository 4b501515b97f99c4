// Byte strings: little-endian integers, and lists of records laid end to end.
// Writers append; readers move a cursor over an immutable buffer.
module Bytes {
  import opened Words

  type byte = x: int | 0 <= x < 0x100
  type u16 = x: int | 0 <= x < 0x1_0000
  type u32 = x: int | 0 <= x < 0x1_0000_0000
  type u64 = x: int | 0 <= x < 0x1_0000_0000_0000_0000
  type i32 = x: int | -0x8000_0000 <= x < 0x8000_0000

  /** The outcome of reading at a cursor. The program never checks these reads
      against the end of the buffer, so running past it is undefined: `Oob`. */
  datatype Parsed<+T> = Oob | Got(value: T, next: nat) {
    predicate IsFailure() { Oob? }
    function PropagateFailure<U>(): Parsed<U>
      requires Oob?
    {
      Oob
    }
    function Extract(): (T, nat)
      requires Got?
    {
      (value, next)
    }
  }

  /** The bytes `b` stand in `data` from `pos` on. */
  ghost predicate At(data: seq<byte>, pos: nat, b: seq<byte>) {
    pos + |b| <= |data| && data[pos..pos + |b|] == b
  }

  lemma AtSplit(data: seq<byte>, pos: nat, a: seq<byte>, b: seq<byte>)
    ensures At(data, pos, a + b) <==> At(data, pos, a) && At(data, pos + |a|, b)
  {
    var n := |a| + |b|;
    if At(data, pos, a + b) {
      assert a == (a + b)[..|a|] == data[pos..pos + n][..|a|] == data[pos..pos + |a|];
      assert b == (a + b)[|a|..] == data[pos..pos + n][|a|..] == data[pos + |a|..pos + n];
    }
    if At(data, pos, a) && At(data, pos + |a|, b) {
      assert data[pos..pos + n] == data[pos..pos + |a|] + data[pos + |a|..pos + n];
    }
  }

  // ---------------------------------------------------------------- integers

  function Pow256(k: nat): (p: nat)
    ensures p > 0
  {
    if k == 0 then 1 else 0x100 * Pow256(k - 1)
  }

  /** The low `k` bytes of `v`, least significant first. */
  function Le(v: nat, k: nat): (b: seq<byte>)
    ensures |b| == k
  {
    if k == 0 then [] else [v % 0x100] + Le(v / 0x100, k - 1)
  }

  function UnLe(b: seq<byte>): (v: nat)
    ensures v < Pow256(|b|)
  {
    if b == [] then 0 else b[0] + 0x100 * UnLe(b[1..])
  }

  lemma {:induction false} LeTruncates(v: nat, k: nat)
    ensures UnLe(Le(v, k)) == v % Pow256(k)
  {
    if k > 0 {
      LeTruncates(v / 0x100, k - 1);
      assert Le(v, k)[1..] == Le(v / 0x100, k - 1);
      ModByDigits(v, Pow256(k - 1));
    }
  }

  lemma ModByDigits(v: nat, p: nat)
    requires p > 0
    ensures v % (0x100 * p) == v % 0x100 + 0x100 * ((v / 0x100) % p)
  {
    var q, r := (v / 0x100) / p, (v / 0x100) % p;
    assert v / 0x100 == q * p + r;
    assert v == (0x100 * p) * q + (v % 0x100 + 0x100 * r) by {
      assert 0x100 * (q * p) == (0x100 * p) * q;
    }
    DivModUnique(v, 0x100 * p, q, v % 0x100 + 0x100 * r);
  }

  lemma {:induction false} UnLeInjective(b: seq<byte>)
    ensures Le(UnLe(b), |b|) == b
  {
    if b != [] {
      UnLeInjective(b[1..]);
      var rest := UnLe(b[1..]);
      DivModUnique(UnLe(b), 0x100, rest, b[0]);
      assert Le(UnLe(b), |b|) == [b[0]] + Le(rest, |b| - 1);
    }
  }

  /** Writing a value in `k` bytes writes its remainder. */
  lemma LeOfRemainder(v: nat, k: nat)
    ensures Le(v % Pow256(k), k) == Le(v, k)
  {
    LeTruncates(v, k);
    UnLeInjective(Le(v, k));
  }

  function ToI32(v: u32): i32 {
    if v < 0x8000_0000 then v else v - 0x1_0000_0000
  }

  function FromI32(v: i32): u32 {
    if v >= 0 then v else v + 0x1_0000_0000
  }

  /** Read `k` bytes as an unsigned integer. */
  function ReadLe(data: seq<byte>, pos: nat, k: nat): (r: Parsed<nat>)
    ensures r.Got? ==> r.next == pos + k <= |data| && r.value < Pow256(k)
  {
    if pos + k <= |data| then Got(UnLe(data[pos..pos + k]), pos + k) else Oob
  }

  lemma Pow256Values()
    ensures Pow256(1) == 0x100 && Pow256(2) == 0x1_0000
    ensures Pow256(4) == 0x1_0000_0000 && Pow256(8) == 0x1_0000_0000_0000_0000
  {
    assert Pow256(2) == 0x100 * Pow256(1);
    assert Pow256(3) == 0x100 * Pow256(2);
    assert Pow256(4) == 0x100 * Pow256(3);
    assert Pow256(5) == 0x100 * Pow256(4);
    assert Pow256(6) == 0x100 * Pow256(5);
    assert Pow256(7) == 0x100 * Pow256(6);
  }

  function U8(data: seq<byte>, pos: nat): (r: Parsed<byte>)
    ensures r.Got? ==> r.next == pos + 1 <= |data|
  {
    if pos < |data| then Got(data[pos], pos + 1) else Oob
  }

  function U16(data: seq<byte>, pos: nat): (r: Parsed<u16>)
    ensures r.Got? ==> r.next == pos + 2 <= |data|
  {
    Pow256Values(); ReadLe(data, pos, 2)
  }

  function U32(data: seq<byte>, pos: nat): (r: Parsed<u32>)
    ensures r.Got? ==> r.next == pos + 4 <= |data|
  {
    Pow256Values(); ReadLe(data, pos, 4)
  }

  function U64(data: seq<byte>, pos: nat): (r: Parsed<u64>)
    ensures r.Got? ==> r.next == pos + 8 <= |data|
  {
    Pow256Values(); ReadLe(data, pos, 8)
  }

  function I32(data: seq<byte>, pos: nat): (r: Parsed<i32>)
    ensures r.Got? ==> r.next == pos + 4 <= |data|
  {
    var (v, p) :- U32(data, pos);
    Got(ToI32(v), p)
  }

  /** Copy `n` bytes. */
  function Blob(data: seq<byte>, pos: nat, n: nat): (r: Parsed<seq<byte>>)
    ensures r.Got? ==> r.next == pos + n <= |data| && |r.value| == n
  {
    if pos + n <= |data| then Got(data[pos..pos + n], pos + n) else Oob
  }

  lemma ReadsBack(data: seq<byte>, pos: nat, v: nat, k: nat)
    requires At(data, pos, Le(v, k))
    ensures ReadLe(data, pos, k) == Got(v % Pow256(k), pos + k)
  {
    LeTruncates(v, k);
  }

  lemma ReadsU16(data: seq<byte>, pos: nat, v: u16)
    requires At(data, pos, Le(v, 2))
    ensures U16(data, pos) == Got(v, pos + 2)
  {
    ReadsBack(data, pos, v, 2);
    Pow256Values();
  }

  lemma ReadsU32(data: seq<byte>, pos: nat, v: u32)
    requires At(data, pos, Le(v, 4))
    ensures U32(data, pos) == Got(v, pos + 4)
  {
    ReadsBack(data, pos, v, 4);
    Pow256Values();
  }

  lemma ReadsU64(data: seq<byte>, pos: nat, v: u64)
    requires At(data, pos, Le(v, 8))
    ensures U64(data, pos) == Got(v, pos + 8)
  {
    ReadsBack(data, pos, v, 8);
    Pow256Values();
  }

  lemma ReadsI32(data: seq<byte>, pos: nat, v: i32)
    requires At(data, pos, Le(FromI32(v), 4))
    ensures I32(data, pos) == Got(v, pos + 4)
  {
    ReadsU32(data, pos, FromI32(v));
  }

  // ------------------------------------------------------- lists of records

  /** The encodings of `xs`, one after the other. */
  ghost function EncAll<T>(xs: seq<T>, enc: T -> seq<byte>): seq<byte> {
    if xs == [] then [] else EncAll(xs[..|xs| - 1], enc) + enc(xs[|xs| - 1])
  }

  lemma EncAllSnoc<T>(xs: seq<T>, i: nat, enc: T -> seq<byte>)
    requires i < |xs|
    ensures EncAll(xs[..i + 1], enc) == EncAll(xs[..i], enc) + enc(xs[i])
  {
    assert xs[..i + 1][..i] == xs[..i];
  }

  /** `n` records read one after the other. */
  ghost function ReadAll<T>(data: seq<byte>, pos: nat, n: nat, read: (seq<byte>, nat) -> Parsed<T>): (r: Parsed<seq<T>>)
    ensures r.Got? ==> |r.value| == n
  {
    if n == 0 then Got([], pos) else
    var (xs, p) :- ReadAll(data, pos, n - 1, read);
    var (x, q) :- read(data, p);
    Got(xs + [x], q)
  }

  /** `read` undoes `enc` on every element of `xs`, wherever it stands. */
  ghost predicate Inverts<T(!new)>(xs: seq<T>, enc: T -> seq<byte>, read: (seq<byte>, nat) -> Parsed<T>) {
    forall x, data: seq<byte>, pos: nat {:trigger At(data, pos, enc(x))} ::
      x in xs && At(data, pos, enc(x)) ==> read(data, pos) == Got(x, pos + |enc(x)|)
  }

  lemma {:induction false} ReadAllInverts<T(!new)>(xs: seq<T>, data: seq<byte>, pos: nat,
                                                  enc: T -> seq<byte>, read: (seq<byte>, nat) -> Parsed<T>)
    requires Inverts(xs, enc, read)
    requires At(data, pos, EncAll(xs, enc))
    ensures ReadAll(data, pos, |xs|, read) == Got(xs, pos + |EncAll(xs, enc)|)
  {
    if xs != [] {
      var init, x := xs[..|xs| - 1], xs[|xs| - 1];
      AtSplit(data, pos, EncAll(init, enc), enc(x));
      ReadAllInverts(init, data, pos, enc, read);
      assert x in xs;
      assert init + [x] == xs;
    }
  }
}
