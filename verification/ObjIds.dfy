// Object identifiers of the deterministic build: a mix of a sequence number and the seed.
module ObjIds {
  import opened Words

  const C1: nat := 0xbf58476d1ce4e5b9
  const C2: nat := 0x94d049bb133111eb

  /** The inverses of the two multipliers modulo 2^64. */
  const D1: nat := 0x96de1b173f119089
  const D2: nat := 0x319642b2d24d8ec3

  /** 2^64: `uint64_t` and `size_t` count modulo it. */
  const WORD64: nat := 0x1_0000_0000_0000_0000

  // ---------------------------------------------------------------- exclusive or and shifts

  function Xor(a: nat, b: nat): nat {
    if a == 0 && b == 0 then 0 else (a + b) % 2 + 2 * Xor(a / 2, b / 2)
  }

  function Shr(x: nat, n: nat): nat {
    if n == 0 then x else Shr(x / 2, n - 1)
  }

  lemma XorStep(a: nat, b: nat)
    ensures Xor(a, b) == (a + b) % 2 + 2 * Xor(a / 2, b / 2)
    ensures Xor(0, 0) == 0
  {
  }

  lemma XorHalf(a: nat, b: nat)
    ensures Xor(a, b) / 2 == Xor(a / 2, b / 2) && Xor(a, b) % 2 == (a + b) % 2
  {
    XorStep(a, b);
  }

  lemma {:induction false} XorTwice(a: nat, b: nat)
    ensures Xor(Xor(a, b), b) == a
  {
    hide Xor;
    XorStep(a, b);
    XorStep(Xor(a, b), b);
    if a != 0 || b != 0 {
      XorHalf(a, b);
      XorTwice(a / 2, b / 2);
      SumTwice(a, b);
    }
  }

  lemma SumTwice(a: nat, b: nat)
    ensures ((a + b) % 2 + b) % 2 == a % 2
  {
  }

  lemma {:induction false} ShrXor(a: nat, b: nat, n: nat)
    ensures Shr(Xor(a, b), n) == Xor(Shr(a, n), Shr(b, n))
    decreases n
  {
    if n > 0 {
      XorHalf(a, b);
      ShrXor(a / 2, b / 2, n - 1);
    }
  }

  lemma {:induction false} XorBound(a: nat, b: nat, k: nat)
    requires a < Pow2(k) && b < Pow2(k)
    ensures Xor(a, b) < Pow2(k)
  {
    if k > 0 && (a != 0 || b != 0) {
      XorBound(a / 2, b / 2, k - 1);
    }
  }

  lemma {:induction false} ShrBelow(x: nat, n: nat)
    ensures Shr(x, n) <= x && (n > 0 && x > 0 ==> Shr(x, n) < x)
  {
    if n > 0 {
      ShrBelow(x / 2, n - 1);
    }
  }

  function Mix(x: nat, n: nat): nat {
    Xor(x, Shr(x, n))
  }

  /** Undoes `Mix`: y ^ (y >> n) ^ (y >> 2n) ^ ..., as far as bits are left. */
  function Unmix(y: nat, n: nat): nat
    requires n > 0
    decreases y
  {
    ShrBelow(y, n);
    if y == 0 then 0 else Xor(y, Unmix(Shr(y, n), n))
  }

  lemma {:induction false} XorZero(b: nat)
    ensures Xor(0, b) == b
  {
    if b != 0 {
      XorZero(b / 2);
    }
  }

  lemma {:induction false} UnmixMix(x: nat, n: nat)
    requires n > 0
    ensures Unmix(Mix(x, n), n) == x
    decreases x
  {
    var s := Shr(x, n);
    ShrBelow(x, n);
    XorTwice(x, s);
    if x == 0 {
    } else if Mix(x, n) == 0 {
      XorZero(s);
    } else {
      ShrXor(x, s, n);
      UnmixMix(s, n);
    }
  }

  lemma {:induction false} MixUnmix(y: nat, n: nat)
    requires n > 0
    ensures Mix(Unmix(y, n), n) == y
    decreases y
  {
    ShrBelow(y, n);
    ShrBelow(0, n);
    if y != 0 {
      var u := Unmix(Shr(y, n), n);
      MixUnmix(Shr(y, n), n);
      ShrXor(y, u, n);
      XorTwice(u, Shr(u, n));
      XorTwice(y, u);
    }
  }

  lemma {:induction false} UnmixBound(y: nat, n: nat)
    requires n > 0 && y < WORD64
    ensures Unmix(y, n) < WORD64
    decreases y
  {
    ShrBelow(y, n);
    if y != 0 {
      UnmixBound(Shr(y, n), n);
      Pow2Is64();
      XorBound(y, Unmix(Shr(y, n), n), 64);
    }
  }

  lemma MixBound(x: nat, n: nat)
    requires x < WORD64
    ensures Mix(x, n) < WORD64
  {
    Pow2Is64();
    ShrBelow(x, n);
    XorBound(x, Shr(x, n), 64);
  }

  lemma Pow2Is64()
    ensures Pow2(64) == WORD64
  {
    Pow2Is32();
    Pow2Adds(32, 32);
  }

  // ---------------------------------------------------------------- multiplication

  function Times(x: nat, c: nat): nat {
    (x * c) % WORD64
  }


  /** Multiplying by an odd number modulo 2^64 can be undone. */
  lemma TimesInverse(x: nat, c: nat, d: nat, k: nat)
    requires x < WORD64 && c * d == 1 + k * WORD64
    ensures Times(Times(x, c), d) == x
  {
    var q, r := x * c / WORD64, x * c % WORD64;
    var e := x * k - q * d;
    assert x * c == q * WORD64 + r;
    assert r * d == x + e * WORD64 by {
      assert (q * WORD64 + r) * d == x * (c * d) by { assert (x * c) * d == x * (c * d); }
      assert x * (1 + k * WORD64) == x + x * k * WORD64;
      assert (q * WORD64 + r) * d == q * d * WORD64 + r * d;
    }
    Remainder(r * d, x, e);
  }

  lemma Remainder(a: nat, x: nat, e: int)
    requires a == x + e * WORD64 && x < WORD64
    ensures a % WORD64 == x
  {
  }

  // ---------------------------------------------------------------- identifiers

  /** lstasis_make_objid */
  function MakeObjid(seqno: nat, seed: nat): nat {
    Mix(Times(Mix(Times(Mix(Xor(seqno, seed), 30), C1), 27), C2), 31)
  }

  /** The steps of `MakeObjid`, undone from the last to the first. */
  function Unmake(id: nat, seed: nat): nat {
    Xor(Unmix(Times(Unmix(Times(Unmix(id, 31), D2), 27), D1), 30), seed)
  }

  /** The sequence number can be read off the identifier and the seed. */
  lemma UnmakeMake(seqno: nat, seed: nat)
    requires seqno < WORD64 && seed < WORD
    ensures Unmake(MakeObjid(seqno, seed), seed) == seqno && MakeObjid(seqno, seed) < WORD64
  {
    hide Mix, Times, Xor, Unmix;
    Pow2Is64();
    XorBound(seqno, seed, 64);
    var a := Xor(seqno, seed);
    MixBound(a, 30);
    var b := Times(Mix(a, 30), C1);
    TimesBound(Mix(a, 30), C1);
    MixBound(b, 27);
    var c := Times(Mix(b, 27), C2);
    TimesBound(Mix(b, 27), C2);
    MixBound(c, 31);
    UnmixMix(c, 31);
    TimesInverse(Mix(b, 27), C2, D2, C2 * D2 / WORD64);
    UnmixMix(b, 27);
    TimesInverse(Mix(a, 30), C1, D1, C1 * D1 / WORD64);
    UnmixMix(a, 30);
    XorTwice(seqno, seed);
  }

  /** Every word is the identifier of a sequence number. */
  lemma MakeUnmake(id: nat, seed: nat)
    requires id < WORD64 && seed < WORD
    ensures MakeObjid(Unmake(id, seed), seed) == id && Unmake(id, seed) < WORD64
  {
    hide Mix, Times, Xor, Unmix;
    Pow2Is64();
    UnmixBound(id, 31);
    var a := Times(Unmix(id, 31), D2);
    TimesBound(Unmix(id, 31), D2);
    UnmixBound(a, 27);
    var b := Times(Unmix(a, 27), D1);
    TimesBound(Unmix(a, 27), D1);
    UnmixBound(b, 30);
    XorBound(Unmix(b, 30), seed, 64);
    XorTwice(Unmix(b, 30), seed);
    MixUnmix(b, 30);
    TimesInverse(Unmix(a, 27), D1, C1, D1 * C1 / WORD64);
    MixUnmix(a, 27);
    TimesInverse(Unmix(id, 31), D2, C2, D2 * C2 / WORD64);
    MixUnmix(id, 31);
  }

  /** For a fixed seed, different sequence numbers give different identifiers. */
  lemma ObjidInjective(s: nat, t: nat, seed: nat)
    requires s < WORD64 && t < WORD64 && seed < WORD && MakeObjid(s, seed) == MakeObjid(t, seed)
    ensures s == t
  {
    hide MakeObjid, Unmake;
    UnmakeMake(s, seed);
    UnmakeMake(t, seed);
  }

  lemma TimesBound(x: nat, c: nat)
    ensures Times(x, c) < WORD64
  {
  }

  // ---------------------------------------------------------------- allocation, save and load

  ghost predicate Distinct(ids: seq<nat>) {
    forall i, j :: 0 <= i < j < |ids| ==> ids[i] != ids[j]
  }

  /** The identifier of an object made while the counter was at most `next`. */
  ghost predicate Made(id: nat, next: nat, seed: nat) {
    exists k: nat :: 1 <= k <= next && SameId(id, k, seed)
  }

  ghost predicate SameId(id: nat, k: nat, seed: nat) {
    id == MakeObjid(k, seed)
  }

  ghost predicate Issued(ids: seq<nat>, next: nat, seed: nat) {
    forall i :: 0 <= i < |ids| ==> Made(ids[i], next, seed)
  }

  /** An identifier made from a larger sequence number is new. */
  lemma FreshObjid(ids: seq<nat>, next: nat, seqno: nat, seed: nat)
    requires Issued(ids, next, seed) && next < seqno < WORD64 && seed < WORD
    ensures MakeObjid(seqno, seed) !in ids
  {
    if MakeObjid(seqno, seed) in ids {
      var i :| 0 <= i < |ids| && ids[i] == MakeObjid(seqno, seed);
      assert Made(ids[i], next, seed);
      var k: nat :| 1 <= k <= next && SameId(ids[i], k, seed);
      ObjidInjective(k, seqno, seed);
    }
  }

  /** The part of the state that numbers objects: the counter and the identifiers of the objects
      there are. */
  class Objids {
    var next: nat
    var seed: nat
    var ids: seq<nat>

    ghost predicate Valid()
      reads this
    {
      next < WORD64 && seed < WORD && Distinct(ids) && Issued(ids, next, seed)
    }

    constructor (s: nat)
      requires s < WORD
      ensures Valid() && ids == [] && next == 0 && seed == s
    {
      next, seed, ids := 0, s, [];
    }

    /** luaC_newobj; the counter is a size_t. */
    method NewObject() returns (id: nat)
      requires Valid()
      modifies this
      ensures seed == old(seed) && next == (old(next) + 1) % WORD64 && id == MakeObjid(next, seed)
      ensures ids == old(ids) + [id]
      ensures old(next) + 1 < WORD64 ==> Valid() && id !in old(ids)
    {
      hide MakeObjid;
      next := (next + 1) % WORD64;
      id := MakeObjid(next, seed);
      if old(next) + 1 < WORD64 {
        FreshObjid(ids, next - 1, next, seed);
        IssuedMore(ids, next - 1, next, seed);
        assert SameId(id, next, seed);
      }
      ids := ids + [id];
    }

    /** Some objects are collected. */
    method Keep(kept: seq<nat>)
      requires Valid() && Distinct(kept) && forall i :: 0 <= i < |kept| ==> kept[i] in ids
      modifies this`ids
      ensures Valid() && ids == kept
    {
      forall i | 0 <= i < |kept|
        ensures Made(kept[i], next, seed)
      {
        var j :| 0 <= j < |ids| && ids[j] == kept[i];
      }
      ids := kept;
    }

    /** lstasis_load: the objects made for the records got identifiers of the new state; theirs are
        put back, and the counter resumes where the saved state left off. */
    method Load(saved: Objids, restored: seq<nat>)
      requires saved != this && saved.Valid() && seed == saved.seed
      requires Distinct(restored) && forall i :: 0 <= i < |restored| ==> restored[i] in saved.ids
      modifies this
      ensures Valid() && ids == restored && next == saved.next
    {
      forall i | 0 <= i < |restored|
        ensures Made(restored[i], saved.next, seed)
      {
        var j :| 0 <= j < |saved.ids| && saved.ids[j] == restored[i];
      }
      ids := restored;
      next := saved.next;
    }
  }

  lemma IssuedMore(ids: seq<nat>, n: nat, n': nat, seed: nat)
    requires Issued(ids, n, seed) && n <= n'
    ensures Issued(ids, n', seed)
  {
    forall i | 0 <= i < |ids|
      ensures Made(ids[i], n', seed)
    {
      assert Made(ids[i], n, seed);
    }
  }
}
