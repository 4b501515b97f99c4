// The quicksort behind table.sort: safe for any comparison function, and correct
// for a strict weak order.
module TableSort {
  import opened Bytes
  import opened Words

  // ------------------------------------------------------------------- orders

  /** The comparison function may answer differently at every call. */
  type Compare<!T> = (T, T, nat) -> bool

  ghost predicate StrictWeak<T(!new)>(lt: (T, T) -> bool) {
    && (forall x :: !lt(x, x))
    && (forall x, y :: lt(x, y) ==> !lt(y, x))
    && (forall x, y, z {:trigger lt(x, y), lt(y, z)} :: lt(x, z) ==> lt(x, y) || lt(y, z))
  }

  /** The comparison function always answers by the strict weak order `lt`. */
  ghost predicate Consistent<T(!new)>(less: Compare<T>, lt: (T, T) -> bool) {
    StrictWeak(lt) && forall x, y, k :: less(x, y, k) == lt(x, y)
  }

  /** Any two places of `[lo, up]` of which one is outside `[from, to]` are in order. */
  ghost predicate OrderedOutside<T>(s: seq<T>, lt: (T, T) -> bool, lo: nat, up: nat, from: int, to: int)
    requires up < |s|
  {
    forall x, y :: lo <= x < y <= up && (x < from || to < y) ==> !lt(s[y], s[x])
  }

  ghost predicate Ordered<T>(s: seq<T>, lt: (T, T) -> bool, lo: nat, up: nat)
    requires up < |s|
  {
    forall x, y :: lo <= x < y <= up ==> !lt(s[y], s[x])
  }

  /** `t` is `s` with the places from `lo` to `up` rearranged. */
  ghost predicate Rearranged<T>(s: seq<T>, t: seq<T>, lo: nat, up: int) {
    && |s| == |t| && lo <= up + 1 <= |s|
    && s[..lo] == t[..lo] && s[up + 1..] == t[up + 1..]
    && multiset(s[lo..up + 1]) == multiset(t[lo..up + 1])
  }

  lemma RearrangedRefl<T>(s: seq<T>, lo: nat, up: int)
    requires lo <= up + 1 <= |s|
    ensures Rearranged(s, s, lo, up)
  {
  }

  lemma RearrangedTrans<T>(s: seq<T>, t: seq<T>, u: seq<T>, lo: nat, up: int)
    requires Rearranged(s, t, lo, up) && Rearranged(t, u, lo, up)
    ensures Rearranged(s, u, lo, up)
  {
  }

  lemma SwapRearranges<T>(s: seq<T>, i: nat, j: nat, lo: nat, up: nat)
    requires lo <= i <= up < |s| && lo <= j <= up
    ensures Rearranged(s, s[i := s[j]][j := s[i]], lo, up)
  {
    var t := s[i := s[j]][j := s[i]];
    var a, b := s[lo..up + 1], t[lo..up + 1];
    assert b == a[i - lo := s[j]][j - lo := s[i]];
  }

  /** Rearranging a part rearranges the whole. */
  lemma Widen<T>(s: seq<T>, t: seq<T>, lo: nat, up: int, from: nat, to: int)
    requires Rearranged(s, t, from, to) && lo <= from && to <= up < |s|
    ensures Rearranged(s, t, lo, up)
  {
    assert s[lo..up + 1] == s[lo..from] + s[from..to + 1] + s[to + 1..up + 1];
    assert t[lo..up + 1] == t[lo..from] + t[from..to + 1] + t[to + 1..up + 1];
    assert s[lo..from] == s[..from][lo..] && t[lo..from] == t[..from][lo..];
    assert s[to + 1..up + 1] == s[to + 1..][..up - to] && t[to + 1..up + 1] == t[to + 1..][..up - to];
    assert s[..lo] == s[..from][..lo] && t[..lo] == t[..from][..lo];
    assert s[up + 1..] == s[to + 1..][up - to..] && t[up + 1..] == t[to + 1..][up - to..];
  }

  /** What stands at a place after a rearrangement stood somewhere in the part before. */
  lemma Origin<T>(s: seq<T>, t: seq<T>, lo: nat, up: int, y: nat)
    requires Rearranged(s, t, lo, up) && y < |t|
    ensures lo <= y <= up ==> exists x :: lo <= x <= up && s[x] == t[y]
    ensures y < lo || y > up ==> t[y] == s[y]
  {
    if lo <= y <= up {
      assert t[lo..up + 1][y - lo] == t[y];
      assert t[y] in multiset(t[lo..up + 1]);
      assert t[y] in s[lo..up + 1];
      var k :| 0 <= k < up + 1 - lo && s[lo..up + 1][k] == t[y];
      assert s[lo + k] == t[y];
    } else if y < lo {
      assert t[y] == t[..lo][y] && s[y] == s[..lo][y];
    } else {
      assert t[y] == t[up + 1..][y - up - 1] && s[y] == s[up + 1..][y - up - 1];
    }
  }

  // ------------------------------------------------------------ pivot indices

  const RANLIMIT: nat := 100
  const INT_MAX: nat := 0x7FFF_FFFF

  function Xor(a: u32, b: u32): u32 {
    ((a as bv32) ^ (b as bv32)) as u32
  }

  /** A place in the middle half of `[lo, up]`, whatever `rnd` is. */
  function ChoosePivot(lo: u32, up: u32, rnd: u32): (p: nat)
    requires lo <= up && RANLIMIT <= up - lo
    ensures var r4 := (up - lo) / 4; lo + r4 <= p <= up - r4
  {
    var r4 := (up - lo) / 4;
    Xor(Xor(rnd, lo), up) % (r4 * 2) + (lo + r4)
  }

  lemma OneWay<T(!new)>(less: Compare<T>, lt: (T, T) -> bool)
    ensures Consistent(less, lt) ==>
              && (forall x, y, k :: less(x, y, k) == lt(x, y))
              && (forall x :: !lt(x, x)) && (forall x, y :: lt(x, y) ==> !lt(y, x))
  {
  }

  /** Element `i`; only elements of the interval being sorted are looked at. */
  function Get<T>(a: array<T>, i: nat, ghost lo: nat, ghost up: nat): T
    requires lo <= i <= up < a.Length
    reads a
  {
    a[i]
  }

  /** Exchange two elements of the interval being sorted. */
  method Swap<T>(a: array<T>, i: nat, j: nat, ghost lo: nat, ghost up: nat)
    requires lo <= i <= up < a.Length && lo <= j <= up
    modifies a
    ensures a[..] == old(a[..])[i := old(a[j])][j := old(a[i])]
    ensures Rearranged(old(a[..]), a[..], lo, up)
  {
    SwapRearranges(a[..], i, j, lo, up);
    a[i], a[j] := a[j], a[i];
  }

  // ------------------------------------------------- what the answers vouch for

  /** One of the calls from number `t0` to `t1` has put `x` before `y`, or not `y` before `x`. */
  ghost predicate Vouched<T(!new)>(less: Compare<T>, x: T, y: T, t0: nat, t1: nat) {
    exists k :: t0 <= k < t1 && (less(x, y, k) || !less(y, x, k))
  }

  /** Neighbours are vouched for. */
  ghost predicate Chained<T(!new)>(s: seq<T>, less: Compare<T>, lo: nat, up: nat, t0: nat, t1: nat)
    requires up < |s|
  {
    forall x :: lo <= x < up ==> Vouched(less, s[x], s[x + 1], t0, t1)
  }

  /** Call `k` puts the element at `j` before the one at `i`: the same element, or one that an
      earlier call has put after it. */
  ghost predicate Denies<T(!new)>(s: seq<T>, less: Compare<T>, i: nat, j: nat, t0: nat, k: nat)
    requires i < |s| && j < |s|
  {
    less(s[j], s[i], k) && (i == j || Vouched(less, s[i], s[j], t0, k))
  }

  /** The comparison function has contradicted itself. */
  ghost predicate Caught<T(!new)>(s: seq<T>, less: Compare<T>, lo: nat, up: nat, t0: nat, t1: nat)
    requires up < |s|
  {
    exists i, j, k :: lo <= i <= up && lo <= j <= up && t0 <= k < t1 && Denies(s, less, i, j, t0, k)
  }

  lemma VouchedMore<T(!new)>(less: Compare<T>, x: T, y: T, t0: nat, t1: nat, u0: nat, u1: nat)
    requires Vouched(less, x, y, t0, t1) && u0 <= t0 && t1 <= u1
    ensures Vouched(less, x, y, u0, u1)
  {
  }

  lemma VouchedBy<T(!new)>(less: Compare<T>, x: T, y: T, k: nat, t0: nat, t1: nat)
    requires t0 <= k < t1 && (less(x, y, k) || !less(y, x, k))
    ensures Vouched(less, x, y, t0, t1)
  {
  }

  lemma CaughtMore<T(!new)>(s: seq<T>, less: Compare<T>, lo: nat, up: nat, t0: nat, t1: nat, lo0: nat, up0: nat,
        u0: nat, u1: nat)
    requires lo0 <= lo && up <= up0 < |s| && u0 <= t0 && t1 <= u1 && Caught(s, less, lo, up, t0, t1)
    ensures Caught(s, less, lo0, up0, u0, u1)
  {
    hide Vouched;
    var i, j, k :| lo <= i <= up && lo <= j <= up && t0 <= k < t1 && Denies(s, less, i, j, t0, k);
    if i != j {
      VouchedMore(less, s[i], s[j], t0, k, u0, k);
    }
    assert Denies(s, less, i, j, u0, k);
  }

  /** From `from` to `i` each element was found below the pivot, in turn. */
  ghost predicate RanUp<T(!new)>(s: seq<T>, less: Compare<T>, pivot: T, from: nat, i: nat, turn: nat, turn': nat) {
    && from < i < |s| && turn' == turn + (i - from)
    && forall x :: from < x < i ==> less(s[x], pivot, turn + (x - from - 1))
  }

  /** From `from` down to `j` each element was found above the pivot, in turn. */
  ghost predicate RanDown<T(!new)>(s: seq<T>, less: Compare<T>, pivot: T, from: nat, j: nat, turn: nat, turn': nat) {
    && j < from <= |s| && turn' == turn + (from - j)
    && forall x :: j < x < from ==> less(pivot, s[x], turn + (from - 1 - x))
  }

  /** Up to `i` the elements are vouched to be before the pivot, and from `j` on after it, but for
      the pivot itself at `up - 1`. */
  ghost predicate Sided<T(!new)>(s: seq<T>, less: Compare<T>, pivot: T, lo: nat, i: nat, j: nat, up: nat, t0: nat,
        t1: nat)
    requires i <= up < |s|
  {
    && (forall x :: lo <= x <= i ==> Vouched(less, s[x], pivot, t0, t1))
    && (forall x :: j <= x <= up && x != up - 1 ==> Vouched(less, pivot, s[x], t0, t1))
  }

  /** The element at `p` is vouched to be after those to its left and before those to its right. */
  ghost predicate Halved<T(!new)>(s: seq<T>, less: Compare<T>, lo: nat, p: nat, up: nat, t0: nat, t1: nat)
    requires lo <= p <= up < |s|
  {
    && (forall x :: lo <= x < p ==> Vouched(less, s[x], s[p], t0, t1))
    && (forall x :: p < x <= up ==> Vouched(less, s[p], s[x], t0, t1))
  }

  /** The scans widen both sides. */
  lemma ScansVouch<T(!new)>(s: seq<T>, less: Compare<T>, pivot: T, lo: nat, i0: nat, j0: nat, i: nat, j: nat,
        up: nat, t0: nat, t1: nat, t2: nat, t3: nat)
    requires i0 <= up < |s| && Sided(s, less, pivot, lo, i0, j0, up, t0, t1) && t0 <= t1
    requires RanUp(s, less, pivot, i0, i, t1, t2) && RanDown(s, less, pivot, j0, j, t2, t3)
    ensures forall x :: lo <= x < i ==> Vouched(less, s[x], pivot, t0, t3)
    ensures forall x :: j < x <= up && x != up - 1 ==> Vouched(less, pivot, s[x], t0, t3)
  {
    hide Vouched;
    forall x | lo <= x < i ensures Vouched(less, s[x], pivot, t0, t3) {
      if x <= i0 {
        VouchedMore(less, s[x], pivot, t0, t1, t0, t3);
      } else {
        VouchedBy(less, s[x], pivot, t1 + (x - i0 - 1), t0, t3);
      }
    }
    forall x | j < x <= up && x != up - 1 ensures Vouched(less, pivot, s[x], t0, t3) {
      if x >= j0 {
        VouchedMore(less, pivot, s[x], t0, t1, t0, t3);
      } else {
        VouchedBy(less, pivot, s[x], t2 + (j0 - 1 - x), t0, t3);
      }
    }
  }

  lemma StillSided<T(!new)>(s: seq<T>, less: Compare<T>, pivot: T, lo: nat, i0: nat, j0: nat, i: nat, j: nat,
        up: nat, t0: nat, t1: nat, t2: nat, t3: nat)
    requires lo <= i0 < i <= j < j0 <= up - 1 < up < |s| && t0 <= t1
    requires Sided(s, less, pivot, lo, i0, j0, up, t0, t1)
    requires RanUp(s, less, pivot, i0, i, t1, t2) && RanDown(s, less, pivot, j0, j, t2, t3)
    requires !less(s[i], pivot, t2 - 1) && !less(pivot, s[j], t3 - 1)
    ensures Sided(s[i := s[j]][j := s[i]], less, pivot, lo, i, j, up, t0, t3)
  {
    hide Vouched, RanUp, RanDown, Sided;
    assert t1 < t2 < t3 by { TurnsGrow(s, less, pivot, i0, j0, i, j, t1, t2, t3); }
    ScansVouch(s, less, pivot, lo, i0, j0, i, j, up, t0, t1, t2, t3);
    VouchedBy(less, pivot, s[i], t2 - 1, t0, t3);
    VouchedBy(less, s[j], pivot, t3 - 1, t0, t3);
    SidedIs(s[i := s[j]][j := s[i]], less, pivot, lo, i, j, up, t0, t3);
  }

  lemma TurnsGrow<T(!new)>(s: seq<T>, less: Compare<T>, pivot: T, i0: nat, j0: nat, i: nat, j: nat, t1: nat, t2: nat,
        t3: nat)
    requires RanUp(s, less, pivot, i0, i, t1, t2) && RanDown(s, less, pivot, j0, j, t2, t3)
    ensures t1 < t2 < t3
  {
  }

  lemma RanUpTurns<T(!new)>(s: seq<T>, less: Compare<T>, pivot: T, from: nat, i: nat, turn: nat, turn': nat)
    requires RanUp(s, less, pivot, from, i, turn, turn')
    ensures turn < turn' && from < i < |s|
  {
  }

  lemma SidedIs<T(!new)>(s: seq<T>, less: Compare<T>, pivot: T, lo: nat, i: nat, j: nat, up: nat, t0: nat, t1: nat)
    requires i <= up < |s|
    requires forall x :: lo <= x <= i ==> Vouched(less, s[x], pivot, t0, t1)
    requires forall x :: j <= x <= up && x != up - 1 ==> Vouched(less, pivot, s[x], t0, t1)
    ensures Sided(s, less, pivot, lo, i, j, up, t0, t1)
  {
  }

  lemma FinallyHalved<T(!new)>(s: seq<T>, less: Compare<T>, pivot: T, lo: nat, i0: nat, j0: nat, i: nat, j: nat,
        up: nat, t0: nat, t1: nat, t2: nat, t3: nat)
    requires lo <= i0 < i < up < |s| && j < i && j < j0 <= up - 1 && s[up - 1] == pivot && t0 <= t1
    requires Sided(s, less, pivot, lo, i0, j0, up, t0, t1)
    requires RanUp(s, less, pivot, i0, i, t1, t2) && RanDown(s, less, pivot, j0, j, t2, t3)
    requires !less(s[i], pivot, t2 - 1)
    ensures Halved(s[up - 1 := s[i]][i := s[up - 1]], less, lo, i, up, t0, t3)
  {
    hide Vouched, RanUp, RanDown, Sided;
    assert t1 < t2 < t3 by { TurnsGrow(s, less, pivot, i0, j0, i, j, t1, t2, t3); }
    ScansVouch(s, less, pivot, lo, i0, j0, i, j, up, t0, t1, t2, t3);
    VouchedBy(less, pivot, s[i], t2 - 1, t0, t3);
  }

  /** A scan past its limit has caught the function: at the pivot itself. */
  lemma CaughtUp<T(!new)>(s: seq<T>, less: Compare<T>, lo: nat, up: nat, t0: nat, k: nat)
    requires lo < up < |s| && t0 <= k && less(s[up - 1], s[up - 1], k)
    ensures Caught(s, less, lo, up, t0, k + 1)
  {
    assert Denies(s, less, up - 1, up - 1, t0, k);
  }

  /** A scan past its limit has caught the function: at an element that was put before the pivot. */
  lemma CaughtDown<T(!new)>(s: seq<T>, less: Compare<T>, lo: nat, i0: nat, j0: nat, i: nat, j: nat, up: nat, t0: nat,
        t1: nat, t2: nat, t3: nat)
    requires lo <= i0 < i < up < |s| && lo <= j < i && j < j0 && t0 <= t1
    requires Sided(s, less, s[up - 1], lo, i0, j0, up, t0, t1)
    requires RanUp(s, less, s[up - 1], i0, i, t1, t2) && RanDown(s, less, s[up - 1], j0, j, t2, t3)
    requires less(s[up - 1], s[j], t3 - 1)
    ensures Caught(s, less, lo, up, t0, t3)
  {
    hide Vouched;
    if j <= i0 {
      VouchedMore(less, s[j], s[up - 1], t0, t1, t0, t3 - 1);
    } else {
      VouchedBy(less, s[j], s[up - 1], t1 + (j - i0 - 1), t0, t3 - 1);
    }
    assert Denies(s, less, j, up - 1, t0, t3 - 1);
  }

  /** The element at `i` splits `[lo, up]`. */
  ghost predicate Split<T>(s: seq<T>, lt: (T, T) -> bool, lo: nat, i: int, up: nat)
    requires lo <= i <= up < |s|
  {
    && (forall x :: lo <= x < i ==> !lt(s[i], s[x]))
    && (forall x :: i < x <= up ==> !lt(s[x], s[i]))
  }

  /** Repeat `++i` while a[i] is below the pivot; an order that puts the pivot below
      itself is an error. */
  method ScanUp<T(!new)>(a: array<T>, less: Compare<T>, turn: nat, lo: nat, up: nat, from: nat, pivot: T,
        ghost lt: (T, T) -> bool)
    returns (ok: bool, i: nat, turn': nat)
    requires 1 <= lo <= from && from + 2 <= up < a.Length && a[up - 1] == pivot
    ensures from < i <= up - 1
    ensures RanUp(a[..], less, pivot, from, i, turn, turn') && less(a[i], pivot, turn' - 1) == !ok
    ensures !ok ==> i == up - 1
    ensures Consistent(less, lt) ==> ok && !lt(a[i], pivot) && forall x :: from < x < i ==> lt(a[x], pivot)
  {
    hide StrictWeak, Consistent;
    OneWay(less, lt);
    i := from + 1;
    var b := less(Get(a, i, lo, up), pivot, turn);
    turn' := turn + 1;
    while b
      invariant from < i <= up - 1 && (Consistent(less, lt) ==> b == lt(a[i], pivot))
      invariant RanUp(a[..], less, pivot, from, i, turn, turn') && b == less(a[i], pivot, turn' - 1)
      invariant Consistent(less, lt) ==> forall x :: from < x < i ==> lt(a[x], pivot)
      decreases up - i, b
    {
      if i == up - 1 {
        return false, i, turn';
      }
      i := i + 1;
      b := less(Get(a, i, lo, up), pivot, turn');
      turn' := turn' + 1;
    }
    ok := true;
  }

  /** Repeat `--j` while a[j] is above the pivot; running past `i` is an error, as all
      below `i` is known not to be above the pivot. */
  method ScanDown<T(!new)>(a: array<T>, less: Compare<T>, turn: nat, lo: nat, up: nat, from: nat, i: nat,
        pivot: T, ghost lt: (T, T) -> bool)
    returns (ok: bool, j: nat, turn': nat)
    requires 1 <= lo < i <= up && lo < from <= up < a.Length
    ensures lo <= j < from
    ensures RanDown(a[..], less, pivot, from, j, turn, turn') && less(pivot, a[j], turn' - 1) == !ok
    ensures !ok ==> j < i
    ensures Consistent(less, lt) && (forall x :: lo <= x < i ==> !lt(pivot, a[x])) ==>
              ok && !lt(pivot, a[j]) && forall x :: j < x < from ==> lt(pivot, a[x])
  {
    hide StrictWeak, Consistent;
    OneWay(less, lt);
    j := from - 1;
    var b := less(pivot, Get(a, j, lo, up), turn);
    turn' := turn + 1;
    while b
      invariant lo <= j < from && (Consistent(less, lt) ==> b == lt(pivot, a[j]))
      invariant RanDown(a[..], less, pivot, from, j, turn, turn') && b == less(pivot, a[j], turn' - 1)
      invariant Consistent(less, lt) ==> forall x :: j < x < from ==> lt(pivot, a[x])
      decreases j, b
    {
      if j < i {
        return false, j, turn';
      }
      j := j - 1;
      b := less(pivot, Get(a, j, lo, up), turn');
      turn' := turn' + 1;
    }
    ok := true;
  }

  /** Nothing up to `i` is above the pivot, and nothing from `j` on is below it. */
  ghost predicate Parted<T>(s: seq<T>, lt: (T, T) -> bool, pivot: T, lo: nat, i: nat, j: nat, up: nat)
    requires i <= up < |s|
  {
    && (forall x :: lo <= x <= i ==> !lt(pivot, s[x]))
    && (forall x :: j <= x <= up ==> !lt(s[x], pivot))
  }

  lemma StillParted<T(!new)>(s: seq<T>, less: Compare<T>, lt: (T, T) -> bool, pivot: T, lo: nat, i0: nat,
        j0: nat, i: nat, j: nat, up: nat)
    requires Consistent(less, lt) && lo <= i0 < i <= j < j0 <= up < |s|
    requires Parted(s, lt, pivot, lo, i0, j0, up)
    requires !lt(s[i], pivot) && (forall x :: i0 < x < i ==> lt(s[x], pivot))
    requires !lt(pivot, s[j]) && (forall x :: j < x < j0 ==> lt(pivot, s[x]))
    ensures Parted(s[i := s[j]][j := s[i]], lt, pivot, lo, i, j, up)
  {
  }

  lemma FinallySplit<T(!new)>(s: seq<T>, less: Compare<T>, lt: (T, T) -> bool, pivot: T, lo: nat, i0: nat,
        j0: nat, i: nat, j: nat, up: nat)
    requires Consistent(less, lt) && lo <= i0 < i < up < |s| && j < i && j < j0 <= up - 1 && s[up - 1] == pivot
    requires Parted(s, lt, pivot, lo, i0, j0, up)
    requires !lt(s[i], pivot) && (forall x :: i0 < x < i ==> lt(s[x], pivot))
    requires forall x :: j < x < j0 ==> lt(pivot, s[x])
    ensures Split(s[up - 1 := s[i]][i := s[up - 1]], lt, lo, i, up)
  {
  }

  lemma NoneAboveYet<T(!new)>(s: seq<T>, less: Compare<T>, lt: (T, T) -> bool, pivot: T, lo: nat, i0: nat,
        j0: nat, i: nat, up: nat)
    requires Consistent(less, lt) && lo <= i0 < i <= up < |s|
    requires Parted(s, lt, pivot, lo, i0, j0, up) && forall x :: i0 < x < i ==> lt(s[x], pivot)
    ensures forall x :: lo <= x < i ==> !lt(pivot, s[x])
  {
  }

  /** What is known between two rounds of the loop of `Partition`; `fine` says that the function
      answers by the strict weak order `lt`. */
  ghost predicate Parting<T(!new)>(s0: seq<T>, s: seq<T>, less: Compare<T>, lt: (T, T) -> bool, fine: bool, pivot: T,
        lo: nat, i: nat, j: nat, up: nat, t0: nat, t1: nat)
  {
    && up < |s| && lo <= i <= j <= up - 1 && i <= up - 2 && lo + 1 <= j && s[up - 1] == pivot && t0 <= t1
    && Rearranged(s0, s, lo, up) && Sided(s, less, pivot, lo, i, j, up, t0, t1)
    && (fine ==> Consistent(less, lt) && Parted(s, lt, pivot, lo, i, j, up))
  }

  lemma PartingStarts<T(!new)>(s: seq<T>, less: Compare<T>, lt: (T, T) -> bool, fine: bool, pivot: T, lo: nat, up: nat,
        t0: nat, t1: nat)
    requires lo + 3 <= up < |s| && s[up - 1] == pivot && t0 <= t1
    requires Vouched(less, s[lo], pivot, t0, t1) && Vouched(less, pivot, s[up], t0, t1)
    requires fine ==> Consistent(less, lt) && !lt(pivot, s[lo]) && !lt(s[up], pivot)
    ensures Parting(s, s, less, lt, fine, pivot, lo, lo, up - 1, up, t0, t1)
  {
    hide Rearranged, Sided, Vouched, Consistent;
    RearrangedRefl(s, lo, up);
    SidedIs(s, less, pivot, lo, lo, up - 1, up, t0, t1);
    PartedAtFirst(s, less, lt, pivot, lo, up);
  }

  /** After the scans, the two elements found are exchanged. */
  lemma PartingGoesOn<T(!new)>(s0: seq<T>, s: seq<T>, less: Compare<T>, lt: (T, T) -> bool, fine: bool, pivot: T,
        lo: nat, i0: nat, j0: nat, i: nat, j: nat, up: nat, t0: nat, t1: nat, t2: nat, t3: nat)
    requires Parting(s0, s, less, lt, fine, pivot, lo, i0, j0, up, t0, t1) && i0 < i <= j < j0
    requires RanUp(s, less, pivot, i0, i, t1, t2) && RanDown(s, less, pivot, j0, j, t2, t3)
    requires !less(s[i], pivot, t2 - 1) && !less(pivot, s[j], t3 - 1)
    requires fine ==> !lt(s[i], pivot) && forall x :: i0 < x < i ==> lt(s[x], pivot)
    requires fine ==> !lt(pivot, s[j]) && forall x :: j < x < j0 ==> lt(pivot, s[x])
    ensures Parting(s0, s[i := s[j]][j := s[i]], less, lt, fine, pivot, lo, i, j, up, t0, t3)
  {
    hide Rearranged, Sided, RanUp, RanDown, Consistent, Parted;
    TurnsGrow(s, less, pivot, i0, j0, i, j, t1, t2, t3);
    StillSided(s, less, pivot, lo, i0, j0, i, j, up, t0, t1, t2, t3);
    SwapRearranges(s, i, j, lo, up);
    RearrangedTrans(s0, s, s[i := s[j]][j := s[i]], lo, up);
    if fine {
      StillParted(s, less, lt, pivot, lo, i0, j0, i, j, up);
    }
  }

  /** After the scans have met, the pivot goes to its place. */
  lemma PartingEnds<T(!new)>(s0: seq<T>, s: seq<T>, less: Compare<T>, lt: (T, T) -> bool, fine: bool, pivot: T,
        lo: nat, i0: nat, j0: nat, i: nat, j: nat, up: nat, t0: nat, t1: nat, t2: nat, t3: nat)
    requires Parting(s0, s, less, lt, fine, pivot, lo, i0, j0, up, t0, t1) && i0 < i < up && j < i && j < j0
    requires RanUp(s, less, pivot, i0, i, t1, t2) && RanDown(s, less, pivot, j0, j, t2, t3)
    requires !less(s[i], pivot, t2 - 1)
    requires fine ==> !lt(s[i], pivot) && forall x :: i0 < x < i ==> lt(s[x], pivot)
    requires fine ==> forall x :: j < x < j0 ==> lt(pivot, s[x])
    ensures Halved(s[up - 1 := s[i]][i := s[up - 1]], less, lo, i, up, t0, t3)
    ensures Rearranged(s0, s[up - 1 := s[i]][i := s[up - 1]], lo, up)
    ensures fine ==> Split(s[up - 1 := s[i]][i := s[up - 1]], lt, lo, i, up)
  {
    hide Rearranged, Sided, RanUp, RanDown, Consistent, Parted, Halved, Split;
    FinallyHalved(s, less, pivot, lo, i0, j0, i, j, up, t0, t1, t2, t3);
    SwapRearranges(s, up - 1, i, lo, up);
    RearrangedTrans(s0, s, s[up - 1 := s[i]][i := s[up - 1]], lo, up);
    if fine {
      FinallySplit(s, less, lt, pivot, lo, i0, j0, i, j, up);
    }
  }

  /** Move what is below the pivot to the left and what is above it to the right.
      `ok` is false when the comparison function has contradicted itself. */
  method Partition<T(!new)>(a: array<T>, less: Compare<T>, turn: nat, lo: nat, up: nat, pivot: T,
        ghost lt: (T, T) -> bool, ghost t0: nat)
    returns (ok: bool, i: nat, turn': nat)
    requires 1 <= lo && lo + 3 <= up < a.Length && a[up - 1] == pivot && t0 <= turn
    requires Vouched(less, a[lo], pivot, t0, turn) && Vouched(less, pivot, a[up], t0, turn)
    modifies a
    ensures Rearranged(old(a[..]), a[..], lo, up) && turn <= turn'
    ensures ok ==> lo < i < up && Halved(a[..], less, lo, i, up, t0, turn')
    ensures !ok ==> Caught(a[..], less, lo, up, t0, turn')
    ensures (forall x, y, k :: less(x, y, k)) ==> !ok
    ensures Consistent(less, lt) && !lt(pivot, old(a[lo])) && !lt(old(a[up]), pivot) ==> ok && Split(a[..], lt, lo, i, up)
  {
    hide Rearranged, StrictWeak, Consistent, Parted, Split, Vouched, Sided, RanUp, RanDown, Halved, Caught;
    ghost var fine := Consistent(less, lt) && !lt(pivot, a[lo]) && !lt(a[up], pivot);
    i, turn' := lo, turn;
    var j := up - 1;
    PartingStarts(a[..], less, lt, fine, pivot, lo, up, t0, turn);
    while true
      invariant turn <= turn' && Parting(old(a[..]), a[..], less, lt, fine, pivot, lo, i, j, up, t0, turn')
      decreases j - i
    {
      ghost var i0, j0, s, t1 := i, j, a[..], turn';
      ok, i, turn' := ScanUp(a, less, turn', lo, up, i, pivot, lt);
      RanUpTurns(s, less, pivot, i0, i, t1, turn');
      if !ok {
        CaughtUp(s, less, lo, up, t0, turn' - 1);
        return;
      }
      ghost var t2 := turn';
      if fine {
        NoneAboveYet(s, less, lt, pivot, lo, i0, j0, i, up);
      }
      ok, j, turn' := ScanDown(a, less, turn', lo, up, j, i, pivot, lt);
      TurnsGrow(s, less, pivot, i0, j0, i, j, t1, t2, turn');
      if !ok {
        CaughtDown(s, less, lo, i0, j0, i, j, up, t0, t1, t2, turn');
        return;
      }
      if j < i {
        PartingEnds(old(a[..]), s, less, lt, fine, pivot, lo, i0, j0, i, j, up, t0, t1, t2, turn');
        Swap(a, up - 1, i, lo, up);
        return;
      }
      PartingGoesOn(old(a[..]), s, less, lt, fine, pivot, lo, i0, j0, i, j, up, t0, t1, t2, turn');
      Swap(a, i, j, lo, up);
    }
  }

  lemma PartedAtFirst<T(!new)>(s: seq<T>, less: Compare<T>, lt: (T, T) -> bool, pivot: T, lo: nat, up: nat)
    requires lo + 3 <= up < |s| && s[up - 1] == pivot
    ensures Consistent(less, lt) && !lt(pivot, s[lo]) && !lt(s[up], pivot) ==> Parted(s, lt, pivot, lo, lo, up - 1, up)
  {
  }

  // ---------------------------------------------------- median of three elements

  lemma NotAbove<T(!new)>(less: Compare<T>, lt: (T, T) -> bool, x: T, y: T, z: T)
    requires Consistent(less, lt) && !lt(y, x) && !lt(z, y)
    ensures !lt(z, x)
  {
    assert lt(z, x) ==> lt(z, y) || lt(y, x);
  }

  /** Put the ends of the interval in order. */
  method OrderEnds<T(!new)>(a: array<T>, less: Compare<T>, turn: nat, lo: nat, up: nat,
        ghost lt: (T, T) -> bool)
    returns (turn': nat)
    requires 1 <= lo < up < a.Length
    modifies a
    ensures Rearranged(old(a[..]), a[..], lo, up)
    ensures turn' == turn + 1 && Vouched(less, a[lo], a[up], turn, turn')
    ensures Consistent(less, lt) ==> !lt(a[up], a[lo])
  {
    hide Rearranged, StrictWeak, Consistent, Vouched;
    OneWay(less, lt);
    RearrangedRefl(a[..], lo, up);
    if less(Get(a, up, lo, up), Get(a, lo, lo, up), turn) {
      Swap(a, lo, up, lo, up);
    }
    turn' := turn + 1;
    VouchedBy(less, a[lo], a[up], turn, turn, turn');
  }

  /** Put the middle element between the ends. */
  method OrderMiddle<T(!new)>(a: array<T>, less: Compare<T>, turn: nat, lo: nat, p: nat, up: nat,
        ghost lt: (T, T) -> bool, ghost t0: nat)
    returns (turn': nat)
    requires 1 <= lo < p < up < a.Length && t0 <= turn && Vouched(less, a[lo], a[up], t0, turn)
    modifies a
    ensures Rearranged(old(a[..]), a[..], lo, up)
    ensures turn < turn' && Vouched(less, a[lo], a[p], t0, turn') && Vouched(less, a[p], a[up], t0, turn')
    ensures Consistent(less, lt) && !lt(old(a[up]), old(a[lo])) ==> !lt(a[p], a[lo]) && !lt(a[up], a[p]) && !lt(a[up], a[lo])
  {
    hide Rearranged, StrictWeak, Consistent, Vouched;
    OneWay(less, lt);
    RearrangedRefl(a[..], lo, up);
    VouchedMore(less, a[lo], a[up], t0, turn, t0, turn + 1);
    VouchedMore(less, a[lo], a[up], t0, turn, t0, turn + 2);
    turn' := turn;
    if less(Get(a, p, lo, up), Get(a, lo, lo, up), turn') {
      turn' := turn' + 1;
      VouchedBy(less, a[p], a[lo], turn, t0, turn');
      Swap(a, p, lo, lo, up);
    } else {
      turn' := turn' + 1;
      VouchedBy(less, a[lo], a[p], turn, t0, turn + 2);
      if less(Get(a, up, lo, up), Get(a, p, lo, up), turn') {
        VouchedBy(less, a[up], a[p], turn', t0, turn' + 1);
        Swap(a, p, up, lo, up);
      } else {
        VouchedBy(less, a[p], a[up], turn', t0, turn' + 1);
      }
      turn' := turn' + 1;
    }
    if Consistent(less, lt) && !lt(old(a[up]), old(a[lo])) {
      NotAbove(less, lt, a[lo], a[p], a[up]);
    }
  }

  // ------------------------------------------------------------- the intervals

  /** Rearranging the window keeps what is in order outside it. */
  lemma StillOutside<T>(s: seq<T>, t: seq<T>, lt: (T, T) -> bool, lo: nat, up: nat, from: nat, to: nat)
    requires lo <= from <= to <= up < |s| && Rearranged(s, t, from, to) && OrderedOutside(s, lt, lo, up, from, to)
    ensures OrderedOutside(t, lt, lo, up, from, to)
  {
    hide Rearranged;
    assert |s| == |t| by { SameSize(s, t, from, to); }
    forall x, y | lo <= x < y <= up && (x < from || to < y)
      ensures !lt(t[y], t[x])
    {
      Origin(s, t, from, to, x);
      Origin(s, t, from, to, y);
      if from <= x <= to {
        var x' :| from <= x' <= to && s[x'] == t[x];
        assert !lt(s[y], s[x']);
      } else if from <= y <= to {
        var y' :| from <= y' <= to && s[y'] == t[y];
        assert !lt(s[y'], s[x]);
      }
    }
  }

  lemma SameOutside<T>(s: seq<T>, t: seq<T>, lo: nat, up: int)
    requires Rearranged(s, t, lo, up)
    ensures |t| == |s| && forall y :: 0 <= y < |s| && (y < lo || y > up) ==> t[y] == s[y]
  {
    hide Rearranged;
    SameSize(s, t, lo, up);
    forall y | 0 <= y < |s| && (y < lo || y > up) ensures t[y] == s[y] {
      Origin(s, t, lo, up, y);
    }
  }

  lemma SameSize<T>(s: seq<T>, t: seq<T>, lo: nat, up: int)
    requires Rearranged(s, t, lo, up)
    ensures |s| == |t|
  {
  }

  /** Sorting what is left of the pivot leaves only what is right of it. */
  lemma LowerDone<T(!new)>(s: seq<T>, t: seq<T>, less: Compare<T>, lt: (T, T) -> bool, lo: nat, up: nat,
        from: nat, p: nat, to: nat)
    requires Consistent(less, lt) && lo <= from < p < to <= up < |s| && Rearranged(s, t, from, p - 1) && |t| == |s|
    requires OrderedOutside(s, lt, lo, up, from, to) && Split(s, lt, from, p, to) && Ordered(t, lt, from, p - 1)
    ensures OrderedOutside(t, lt, lo, up, p + 1, to)
  {
    hide Rearranged, Consistent;
    forall x, y | lo <= x < y <= up && (x < p + 1 || to < y)
      ensures !lt(t[y], t[x])
    {
      Origin(s, t, from, p - 1, x);
      Origin(s, t, from, p - 1, y);
      if from <= x < p && p <= y {
        var x' :| from <= x' <= p - 1 && s[x'] == t[x];
        if y <= to {
          assert !lt(s[p], s[x']);
          if y > p {
            NotAbove(less, lt, s[x'], s[p], s[y]);
          }
        }
      } else if from <= y < p && x < from {
        var y' :| from <= y' <= p - 1 && s[y'] == t[y];
        assert !lt(s[y'], s[x]);
      }
    }
  }

  /** Sorting what is right of the pivot leaves only what is left of it. */
  lemma UpperDone<T(!new)>(s: seq<T>, t: seq<T>, less: Compare<T>, lt: (T, T) -> bool, lo: nat, up: nat,
        from: nat, p: nat, to: nat)
    requires Consistent(less, lt) && lo <= from < p < to <= up < |s| && Rearranged(s, t, p + 1, to) && |t| == |s|
    requires OrderedOutside(s, lt, lo, up, from, to) && Split(s, lt, from, p, to) && Ordered(t, lt, p + 1, to)
    ensures OrderedOutside(t, lt, lo, up, from, p - 1)
  {
    hide Rearranged, Consistent;
    forall x, y | lo <= x < y <= up && (x < from || p - 1 < y)
      ensures !lt(t[y], t[x])
    {
      Origin(s, t, p + 1, to, x);
      Origin(s, t, p + 1, to, y);
      if p < y <= to && x <= p {
        var y' :| p + 1 <= y' <= to && s[y'] == t[y];
        if from <= x {
          assert !lt(s[y'], s[p]);
          if x < p {
            NotAbove(less, lt, s[x], s[p], s[y']);
          }
        }
      } else if p < x <= to && to < y {
        var x' :| p + 1 <= x' <= to && s[x'] == t[x];
        assert !lt(s[y], s[x']);
      }
    }
  }

  // -------------------------------------------------------------- the whole sort

  /** Where the pivot is taken from. */
  function PivotIndex(lo: nat, up: nat, rnd: u32): (p: nat)
    requires 1 <= lo && lo + 2 <= up < INT_MAX
    ensures lo < p < up
  {
    if up - lo < RANLIMIT || rnd == 0 then (lo + up) / 2 else ChoosePivot(lo, up, rnd)
  }

  /** One round: put three elements in order, then split around the middle one.
      `done` is set when the interval was too short to split. */
  method Round<T(!new)>(a: array<T>, less: Compare<T>, turn: nat, lo: nat, up: nat, rnd: u32, ghost lt: (T, T) -> bool)
    returns (ok: bool, done: bool, p: nat, turn': nat)
    requires 1 <= lo < up < a.Length <= INT_MAX
    modifies a
    ensures Rearranged(old(a[..]), a[..], lo, up)
    ensures turn <= turn' && (up - lo <= 2 ==> ok && done)
    ensures ok && !done ==> lo < p < up && Halved(a[..], less, lo, p, up, turn, turn')
    ensures ok && done ==> Chained(a[..], less, lo, up, turn, turn')
    ensures !ok ==> Caught(a[..], less, lo, up, turn, turn')
    ensures (forall x, y, k :: less(x, y, k)) && up - lo >= 3 ==> !ok
    ensures Consistent(less, lt) ==> ok && if done then Ordered(a[..], lt, lo, up) else Split(a[..], lt, lo, p, up)
  {
    hide Rearranged, StrictWeak, Consistent, Split, Vouched, Halved, Caught;
    ghost var s := a[..];
    turn' := OrderEnds(a, less, turn, lo, up, lt);
    if up - lo == 1 {
      return true, true, lo, turn';
    }
    p := PivotIndex(lo, up, rnd);
    ghost var t := a[..];
    turn' := OrderMiddle(a, less, turn', lo, p, up, lt, turn);
    RearrangedTrans(s, t, a[..], lo, up);
    if up - lo == 2 {
      return true, true, lo, turn';
    }
    var pivot := Get(a, p, lo, up);
    t := a[..];
    Swap(a, p, up - 1, lo, up);
    RearrangedTrans(s, t, a[..], lo, up);
    t := a[..];
    ok, p, turn' := Partition(a, less, turn', lo, up, pivot, lt, turn);
    RearrangedTrans(s, t, a[..], lo, up);
    done := false;
  }

  /** A pair of statements about depth that halving keeps. */
  lemma Halves(depth: nat, size: nat, total: nat)
    requires Pow2(depth) <= size && 2 * size <= total
    ensures Pow2(depth + 1) <= total
  {
  }

  /** What is known between the steps of the loop of `AuxSort`. */
  ghost predicate Going<T(!new)>(s0: seq<T>, s: seq<T>, less: Compare<T>, lt: (T, T) -> bool, lo0: nat,
        up0: nat, lo: nat, up: nat)
  {
    && up0 < |s| && Rearranged(s0, s, lo0, up0)
    && (Consistent(less, lt) ==> OrderedOutside(s, lt, lo0, up0, lo, up))
  }

  lemma AfterRound<T(!new)>(s0: seq<T>, s: seq<T>, t: seq<T>, less: Compare<T>, lt: (T, T) -> bool, lo0: nat,
        up0: nat, lo: nat, up: nat)
    requires Going(s0, s, less, lt, lo0, up0, lo, up) && lo0 <= lo <= up <= up0 && Rearranged(s, t, lo, up)
    ensures Going(s0, t, less, lt, lo0, up0, lo, up)
  {
    hide Rearranged, Consistent, OrderedOutside;
    SameSize(s, t, lo, up);
    Widen(s, t, lo0, up0, lo, up);
    RearrangedTrans(s0, s, t, lo0, up0);
    if Consistent(less, lt) {
      StillOutside(s, t, lt, lo0, up0, lo, up);
    }
  }

  lemma AfterLower<T(!new)>(s0: seq<T>, s: seq<T>, t: seq<T>, less: Compare<T>, lt: (T, T) -> bool, lo0: nat,
        up0: nat, lo: nat, p: nat, up: nat)
    requires Going(s0, s, less, lt, lo0, up0, lo, up) && lo0 <= lo < p < up <= up0
    requires Rearranged(s, t, lo, p - 1) && |t| == |s|
    requires Consistent(less, lt) ==> Split(s, lt, lo, p, up) && Ordered(t, lt, lo, p - 1)
    ensures Going(s0, t, less, lt, lo0, up0, p + 1, up)
  {
    hide Rearranged, Consistent, OrderedOutside, Split, Ordered;
    Widen(s, t, lo0, up0, lo, p - 1);
    RearrangedTrans(s0, s, t, lo0, up0);
    if Consistent(less, lt) {
      LowerDone(s, t, less, lt, lo0, up0, lo, p, up);
    }
  }

  lemma AfterUpper<T(!new)>(s0: seq<T>, s: seq<T>, t: seq<T>, less: Compare<T>, lt: (T, T) -> bool, lo0: nat,
        up0: nat, lo: nat, p: nat, up: nat)
    requires Going(s0, s, less, lt, lo0, up0, lo, up) && lo0 <= lo < p < up <= up0
    requires Rearranged(s, t, p + 1, up) && |t| == |s|
    requires Consistent(less, lt) ==> Split(s, lt, lo, p, up) && Ordered(t, lt, p + 1, up)
    ensures Going(s0, t, less, lt, lo0, up0, lo, p - 1)
  {
    hide Rearranged, Consistent, OrderedOutside, Split, Ordered;
    Widen(s, t, lo0, up0, p + 1, up);
    RearrangedTrans(s0, s, t, lo0, up0);
    if Consistent(less, lt) {
      UpperDone(s, t, less, lt, lo0, up0, lo, p, up);
    }
  }

  lemma GoingStarts<T(!new)>(s: seq<T>, less: Compare<T>, lt: (T, T) -> bool, lo: nat, up: nat)
    requires lo <= up < |s|
    ensures Going(s, s, less, lt, lo, up, lo, up)
  {
  }

  /** When the window is in order, or too small not to be, everything is. */
  lemma GoingEnds<T(!new)>(s0: seq<T>, s: seq<T>, less: Compare<T>, lt: (T, T) -> bool, lo0: nat, up0: nat,
        lo: nat, up: nat)
    requires Going(s0, s, less, lt, lo0, up0, lo, up)
    ensures Rearranged(s0, s, lo0, up0)
    ensures Consistent(less, lt) && up < |s| && (lo >= up || Ordered(s, lt, lo, up)) ==> up0 < |s| && Ordered(s, lt, lo0, up0)
  {
    hide Rearranged, Consistent;
  }

  /** Outside the window neighbours are vouched for, and so are those beside it, whatever of the
      window comes to stand there. */
  ghost predicate Linked<T(!new)>(s: seq<T>, less: Compare<T>, lo0: nat, up0: nat, lo: nat, up: nat, t0: nat,
        t1: nat)
  {
    && lo0 <= lo <= up <= up0 < |s| && t0 <= t1
    && (forall x :: lo0 <= x < up0 && (x + 1 < lo || up < x) ==> Vouched(less, s[x], s[x + 1], t0, t1))
    && (lo > lo0 ==> forall y :: lo <= y <= up ==> Vouched(less, s[lo - 1], s[y], t0, t1))
    && (up < up0 ==> forall y :: lo <= y <= up ==> Vouched(less, s[y], s[up + 1], t0, t1))
  }

  lemma LinkedLater<T(!new)>(s: seq<T>, less: Compare<T>, lo0: nat, up0: nat, lo: nat, up: nat, t0: nat, t1: nat,
        t2: nat)
    requires Linked(s, less, lo0, up0, lo, up, t0, t1) && t1 <= t2
    ensures Linked(s, less, lo0, up0, lo, up, t0, t2)
  {
    hide Vouched;
    forall x, y | Vouched(less, x, y, t0, t1) ensures Vouched(less, x, y, t0, t2) {
      VouchedMore(less, x, y, t0, t1, t0, t2);
    }
  }

  /** Rearranging the window. */
  lemma LinkedRound<T(!new)>(s: seq<T>, t: seq<T>, less: Compare<T>, lo0: nat, up0: nat, lo: nat, up: nat, t0: nat,
        t1: nat)
    requires Linked(s, less, lo0, up0, lo, up, t0, t1) && Rearranged(s, t, lo, up) && |t| == |s|
    ensures Linked(t, less, lo0, up0, lo, up, t0, t1)
  {
    hide Vouched, Rearranged;
    forall y: nat | y < |t| ensures lo <= y <= up ==> exists x :: lo <= x <= up && s[x] == t[y]
                                                     ensures y < lo || y > up ==> t[y] == s[y] {
      Origin(s, t, lo, up, y);
    }
  }

  lemma ChainedLater<T(!new)>(s: seq<T>, less: Compare<T>, lo: nat, up: nat, t1: nat, t2: nat, t0: nat, t3: nat)
    requires up < |s| && Chained(s, less, lo, up, t1, t2) && t0 <= t1 && t2 <= t3
    ensures Chained(s, less, lo, up, t0, t3)
  {
    hide Vouched;
    forall x | lo <= x < up ensures Vouched(less, s[x], s[x + 1], t0, t3) {
      VouchedMore(less, s[x], s[x + 1], t1, t2, t0, t3);
    }
  }

  lemma HalvedLater<T(!new)>(s: seq<T>, less: Compare<T>, lo: nat, p: nat, up: nat, t1: nat, t2: nat, t0: nat, t3: nat)
    requires lo <= p <= up < |s| && Halved(s, less, lo, p, up, t1, t2) && t0 <= t1 && t2 <= t3
    ensures Halved(s, less, lo, p, up, t0, t3)
  {
    hide Vouched;
    forall x | lo <= x < p ensures Vouched(less, s[x], s[p], t0, t3) {
      VouchedMore(less, s[x], s[p], t1, t2, t0, t3);
    }
    forall x | p < x <= up ensures Vouched(less, s[p], s[x], t0, t3) {
      VouchedMore(less, s[p], s[x], t1, t2, t0, t3);
    }
  }

  /** Sorting what is left of the pivot leaves only what is right of it. */
  lemma LinkedLower<T(!new)>(s: seq<T>, t: seq<T>, less: Compare<T>, lo0: nat, up0: nat, lo: nat, p: nat, up: nat,
        t0: nat, t1: nat)
    requires Linked(s, less, lo0, up0, lo, up, t0, t1) && lo < p < up && Halved(s, less, lo, p, up, t0, t1)
    requires Rearranged(s, t, lo, p - 1) && |t| == |s| && Chained(t, less, lo, p - 1, t0, t1)
    ensures Linked(t, less, lo0, up0, p + 1, up, t0, t1)
  {
    hide Vouched, Rearranged;
    SameOutside(s, t, lo, p - 1);
    Origin(s, t, lo, p - 1, lo);
    Origin(s, t, lo, p - 1, p - 1);
    forall x | lo0 <= x < up0 && (x + 1 < p + 1 || up < x)
      ensures Vouched(less, t[x], t[x + 1], t0, t1)
    {
      if x + 1 == lo {
        var y :| lo <= y <= p - 1 && s[y] == t[lo];
        assert Vouched(less, s[lo - 1], s[y], t0, t1);
      } else if x == p - 1 {
        var y :| lo <= y <= p - 1 && s[y] == t[p - 1];
        assert Vouched(less, s[y], s[p], t0, t1);
      }
    }
  }

  /** Sorting what is right of the pivot leaves only what is left of it. */
  lemma LinkedUpper<T(!new)>(s: seq<T>, t: seq<T>, less: Compare<T>, lo0: nat, up0: nat, lo: nat, p: nat, up: nat,
        t0: nat, t1: nat)
    requires Linked(s, less, lo0, up0, lo, up, t0, t1) && lo < p < up && Halved(s, less, lo, p, up, t0, t1)
    requires Rearranged(s, t, p + 1, up) && |t| == |s| && Chained(t, less, p + 1, up, t0, t1)
    ensures Linked(t, less, lo0, up0, lo, p - 1, t0, t1)
  {
    hide Vouched, Rearranged;
    SameOutside(s, t, p + 1, up);
    Origin(s, t, p + 1, up, p + 1);
    Origin(s, t, p + 1, up, up);
    forall x | lo0 <= x < up0 && (x + 1 < lo || p - 1 < x)
      ensures Vouched(less, t[x], t[x + 1], t0, t1)
    {
      if x == p {
        var y :| p + 1 <= y <= up && s[y] == t[p + 1];
        assert Vouched(less, s[p], s[y], t0, t1);
      } else if x == up {
        var y :| p + 1 <= y <= up && s[y] == t[up];
        assert Vouched(less, s[y], s[up + 1], t0, t1);
      }
    }
  }

  lemma LinkedStarts<T(!new)>(s: seq<T>, less: Compare<T>, lo0: nat, up0: nat, turn: nat)
    requires lo0 <= up0 < |s|
    ensures Linked(s, less, lo0, up0, lo0, up0, turn, turn)
  {
  }

  lemma LinkedEnds<T(!new)>(s: seq<T>, less: Compare<T>, lo0: nat, up0: nat, lo: nat, up: nat, t0: nat, t1: nat)
    requires Linked(s, less, lo0, up0, lo, up, t0, t1) && (lo == up || Chained(s, less, lo, up, t0, t1))
    ensures Chained(s, less, lo0, up0, t0, t1)
  {
    hide Vouched;
    forall x | lo0 <= x < up0 ensures Vouched(less, s[x], s[x + 1], t0, t1) {
      if x + 1 == lo {
        assert Vouched(less, s[lo - 1], s[lo], t0, t1);
      } else if x == up {
        assert Vouched(less, s[up], s[up + 1], t0, t1);
      }
    }
  }

  /** Sort the interval. The recursion depth is at most logarithmic in its length. A new
      random number is drawn for the interval at hand; no interval comes up twice. */
  method AuxSort<T(!new)>(a: array<T>, less: Compare<T>, turn: nat, lo0: nat, up0: nat, rnd0: u32,
        draw: (nat, nat) -> u32,
      ghost lt: (T, T) -> bool)
    returns (ok: bool, turn': nat, ghost depth: nat)
    requires 1 <= lo0 <= up0 < a.Length <= INT_MAX
    modifies a
    ensures Rearranged(old(a[..]), a[..], lo0, up0)
    ensures Consistent(less, lt) ==> ok && Ordered(a[..], lt, lo0, up0)
    ensures turn <= turn' && (ok ==> Chained(a[..], less, lo0, up0, turn, turn'))
    ensures !ok ==> up0 - lo0 >= 3 && Caught(a[..], less, lo0, up0, turn, turn')
    ensures (forall x, y, k :: less(x, y, k)) && up0 - lo0 >= 3 ==> !ok
    ensures Pow2(depth) <= up0 - lo0 + 1
    decreases up0 - lo0
  {
    hide Rearranged, StrictWeak, Consistent, Split, OrderedOutside, Ordered, Going, Vouched, Chained, Caught, Halved;
    hide Linked;
    var lo, up, rnd := lo0, up0, rnd0;
    turn', depth := turn, 0;
    ghost var s0 := a[..];
    GoingStarts(s0, less, lt, lo0, up0);
    LinkedStarts(s0, less, lo0, up0, turn);
    while lo < up
      invariant lo0 <= lo <= up <= up0
      invariant Going(s0, a[..], less, lt, lo0, up0, lo, up)
      invariant Pow2(depth) <= up0 - lo0 + 1
      invariant turn <= turn' && Linked(a[..], less, lo0, up0, lo, up, turn, turn')
      invariant (forall x, y, k :: less(x, y, k)) && up0 - lo0 >= 3 ==> lo == lo0 && up == up0
      decreases up - lo
    {
      ghost var s, t1 := a[..], turn';
      var done, p;
      ok, done, p, turn' := Round(a, less, turn', lo, up, rnd, lt);
      ghost var t := a[..];
      AfterRound(s0, s, t, less, lt, lo0, up0, lo, up);
      LinkedLater(s, less, lo0, up0, lo, up, turn, t1, turn');
      LinkedRound(s, t, less, lo0, up0, lo, up, turn, turn');
      if !ok || done {
        GoingEnds(s0, t, less, lt, lo0, up0, lo, up);
        if ok {
          ChainedLater(t, less, lo, up, t1, turn', turn, turn');
          LinkedEnds(t, less, lo0, up0, lo, up, turn, turn');
        } else {
          CaughtMore(t, less, lo, up, t1, turn', lo0, up0, turn, turn');
        }
        return;
      }
      ghost var t2, from, to := turn', if p - lo < up - p then lo else p + 1, if p - lo < up - p then p - 1 else up;
      var n;
      ghost var d;
      if p - lo < up - p {
        ok, turn', d := AuxSort(a, less, turn', lo, p - 1, rnd, draw, lt);
        n := p - lo;
        AfterLower(s0, t, a[..], less, lt, lo0, up0, lo, p, up);
        if ok {
          LinkedLater(t, less, lo0, up0, lo, up, turn, t2, turn');
          HalvedLater(t, less, lo, p, up, t1, t2, turn, turn');
          ChainedLater(a[..], less, lo, p - 1, t2, turn', turn, turn');
          LinkedLower(t, a[..], less, lo0, up0, lo, p, up, turn, turn');
        }
        lo := p + 1;
      } else {
        ok, turn', d := AuxSort(a, less, turn', p + 1, up, rnd, draw, lt);
        n := up - p;
        AfterUpper(s0, t, a[..], less, lt, lo0, up0, lo, p, up);
        if ok {
          LinkedLater(t, less, lo0, up0, lo, up, turn, t2, turn');
          HalvedLater(t, less, lo, p, up, t1, t2, turn, turn');
          ChainedLater(a[..], less, p + 1, up, t2, turn', turn, turn');
          LinkedUpper(t, a[..], less, lo0, up0, lo, p, up, turn, turn');
        }
        up := p - 1;
      }
      Halves(d, n, up0 - lo0 + 1);
      depth := if d + 1 > depth then d + 1 else depth;
      if !ok {
        GoingEnds(s0, a[..], less, lt, lo0, up0, lo, up);
        CaughtMore(a[..], less, from, to, t2, turn', lo0, up0, turn, turn');
        return;
      }
      if (up - lo) / 128 > n {
        rnd := draw(lo, up);
      }
    }
    ok := true;
    GoingEnds(s0, a[..], less, lt, lo0, up0, lo, up);
    LinkedEnds(a[..], less, lo0, up0, lo, up, turn, turn');
  }

  datatype SortResult = Done | TooBig | InvalidOrder

  /** table.sort on elements 1 to `n`; place 0 of the array is not an element. With any comparison
      function, even one that answers at will, the elements are only rearranged; if no error is
      raised, an answer vouches for every two neighbours; an error is raised only if two answers, or
      one about an element and itself, contradict each other. With a strict weak order the elements
      end up sorted and no error is raised; with a function that always answers true one is. */
  method Sort<T(!new)>(a: array<T>, n: int, less: Compare<T>, draw: (nat, nat) -> u32, ghost lt: (T, T) -> bool)
    returns (r: SortResult, ghost depth: nat, ghost calls: nat)
    requires a.Length == if n > 0 then n + 1 else 1
    modifies a
    ensures r == TooBig <==> n >= INT_MAX
    ensures r == TooBig ==> a[..] == old(a[..])
    ensures n >= 1 ==> Rearranged(old(a[..]), a[..], 1, n) && Pow2(depth) <= n
    ensures n < 1 ==> a[..] == old(a[..])
    ensures r == Done && n >= 1 ==> Chained(a[..], less, 1, n, 0, calls)
    ensures r == InvalidOrder ==> n >= 4 && Caught(a[..], less, 1, n, 0, calls)
    ensures Consistent(less, lt) && 1 <= n < INT_MAX ==> r == Done && Ordered(a[..], lt, 1, n)
    ensures (forall x, y, k :: less(x, y, k)) && 4 <= n < INT_MAX ==> r == InvalidOrder
  {
    depth, calls := 0, 0;
    if n > 1 {
      if n >= INT_MAX {
        return TooBig, 0, 0;
      }
      var ok, turn;
      ok, turn, depth := AuxSort(a, less, 0, 1, n, 0, draw, lt);
      return if ok then Done else InvalidOrder, depth, turn;
    }
    r := Done;
  }

  /** For a function of its two arguments alone, of any kind: where no error is raised, no element
      is put before its left neighbour, unless the function puts each before the other. */
  lemma PlainChained<T(!new)>(s: seq<T>, less: Compare<T>, lt: (T, T) -> bool, lo: nat, up: nat, calls: nat)
    requires up < |s| && Chained(s, less, lo, up, 0, calls) && forall x, y, k :: less(x, y, k) == lt(x, y)
    ensures forall x :: lo <= x < up ==> lt(s[x], s[x + 1]) || !lt(s[x + 1], s[x])
  {
    forall x | lo <= x < up ensures lt(s[x], s[x + 1]) || !lt(s[x + 1], s[x]) {
      assert Vouched(less, s[x], s[x + 1], 0, calls);
    }
  }

  /** For such a function an error means that it puts an element before itself, or each of two
      elements before the other. */
  lemma PlainCaught<T(!new)>(s: seq<T>, less: Compare<T>, lt: (T, T) -> bool, lo: nat, up: nat, calls: nat)
    requires up < |s| && Caught(s, less, lo, up, 0, calls) && forall x, y, k :: less(x, y, k) == lt(x, y)
    ensures exists i, j :: lo <= i <= up && lo <= j <= up && lt(s[i], s[j]) && lt(s[j], s[i])
  {
    var i, j, k :| lo <= i <= up && lo <= j <= up && 0 <= k < calls && Denies(s, less, i, j, 0, k);
    assert less(s[j], s[i], k) == lt(s[j], s[i]);
    if i == j {
    } else {
      assert lt(s[i], s[j]);
    }
  }
}
