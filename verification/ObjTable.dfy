// The snapshot's table from object pointers to ids: open addressing with linear
// probing over a power-of-two array, at most half full.
module ObjTable {
  import opened Words

  type Ptr = nat

  const NULL: Ptr := 0

  datatype Entry = Entry(ptr: Ptr, id: nat)

  /** The entry that is inserted next must keep the doubled capacity in 32 bits. */
  const MAX_ENTRIES: nat := 0x4000_0000

  function Hash(p: Ptr, cap: nat): (h: nat)
    requires cap > 0
    ensures h < cap
  {
    Mask((p * 2654435761) % WORD, cap)
  }

  /** The slot after `h`, cyclically. */
  function Next(h: nat, cap: nat): (n: nat)
    requires h < cap
    ensures n == if h + 1 == cap then 0 else h + 1
  {
    MaskNear(h + 1, cap); Mask(h + 1, cap)
  }

  /** How many steps a probe that starts at `from` takes to reach `to`. */
  function Steps(from: nat, to: nat, cap: nat): (d: nat)
    requires from < cap && to < cap
    ensures d < cap && (d == 0 <==> from == to)
  {
    if to >= from then to - from else to + cap - from
  }

  /** Slot `k` is passed by a probe from `h` before it reaches `to`. */
  predicate Passed(h: nat, k: nat, to: nat, cap: nat)
    requires h < cap && k < cap && to < cap
  {
    Steps(h, k, cap) < Steps(h, to, cap)
  }

  lemma OneComesFirst(h: nat, i: nat, j: nat, cap: nat)
    requires h < cap && i < cap && j < cap && i != j
    ensures Passed(h, i, j, cap) || Passed(h, j, i, cap)
  {
  }

  /** Every slot that a probe for `p` passes before slot `to` holds another pointer. */
  ghost predicate Clear(es: seq<Entry>, p: Ptr, to: nat)
    requires to < |es|
  {
    forall k :: 0 <= k < |es| && Passed(Hash(p, |es|), k, to, |es|) ==> es[k].ptr != NULL && es[k].ptr != p
  }

  ghost predicate Holds(es: seq<Entry>, p: Ptr) {
    exists k :: 0 <= k < |es| && es[k].ptr == p
  }

  /** A used slot holds what `view` says, where a probe finds it. */
  ghost predicate Kept(es: seq<Entry>, view: map<Ptr, nat>, k: nat)
    requires k < |es|
  {
    es[k].ptr != NULL ==>
      es[k].ptr in view && view[es[k].ptr] == es[k].id && Clear(es, es[k].ptr, k)
  }

  /** The array `es` stores exactly the finite map `view`, and every key can be
      found by probing. */
  ghost predicate Stores(es: seq<Entry>, view: map<Ptr, nat>) {
    && 0 < |es|
    && NULL !in view
    && (forall k :: 0 <= k < |es| ==> Kept(es, view, k))
    && (forall p {:trigger Holds(es, p)} :: p in view ==> Holds(es, p))
  }

  /** Fewer keys than slots: some slot is free. */
  lemma FreeSlot(es: seq<Entry>, view: map<Ptr, nat>)
    requires Stores(es, view) && |view| < |es|
    ensures Holds(es, NULL)
  {
    if !Holds(es, NULL) {
      forall i, j | 0 <= i < j < |es|
        ensures es[i].ptr != es[j].ptr
      {
        assert Kept(es, view, i) && Kept(es, view, j);
        OneComesFirst(Hash(es[i].ptr, |es|), i, j, |es|);
      }
      forall i | 0 <= i < |es|
        ensures es[i].ptr in view.Keys
      {
        assert Kept(es, view, i);
      }
      DistinctFit(es, view.Keys, |es|);
    }
  }

  lemma {:induction false} DistinctFit(es: seq<Entry>, keys: set<Ptr>, n: nat)
    requires n <= |es|
    requires forall i :: 0 <= i < n ==> es[i].ptr in keys
    requires forall i, j :: 0 <= i < j < n ==> es[i].ptr != es[j].ptr
    ensures n <= |keys|
  {
    if n > 0 {
      DistinctFit(es, keys - {es[n - 1].ptr}, n - 1);
    }
  }

  /** Filling the slot where a probe for `p` stops stores `p` and disturbs no other key. */
  lemma Fills(es: seq<Entry>, view: map<Ptr, nat>, p: Ptr, id: nat, h: nat)
    requires Stores(es, view) && p != NULL
    requires h < |es| && Clear(es, p, h)
    requires es[h].ptr == NULL || es[h].ptr == p
    ensures Stores(es[h := Entry(p, id)], view[p := id])
  {
    var fs, v := es[h := Entry(p, id)], view[p := id];
    forall k | 0 <= k < |fs|
      ensures Kept(fs, v, k)
    {
      if k != h {
        assert Kept(es, view, k);
        OneComesFirst(Hash(p, |es|), k, h, |es|);
      }
    }
    forall q | q in v
      ensures Holds(fs, q)
    {
      if q == p {
        assert fs[h].ptr == q;
      } else {
        assert Holds(es, q);
        var k :| 0 <= k < |es| && es[k].ptr == q;
        assert fs[k].ptr == q;
      }
    }
  }

  /** A probe that stops at a free slot has looked for a key that is not there. */
  lemma Misses(es: seq<Entry>, view: map<Ptr, nat>, p: Ptr, h: nat)
    requires Stores(es, view)
    requires p != NULL && h < |es| && Clear(es, p, h) && es[h].ptr == NULL
    ensures p !in view
  {
    forall k | 0 <= k < |es|
      ensures es[k].ptr != p
    {
      if k != h {
        assert Kept(es, view, k);
        OneComesFirst(Hash(p, |es|), k, h, |es|);
      }
    }
    assert !Holds(es, p);
  }

  class ObjMap {
    ghost var View: map<Ptr, nat>
    var ents: array<Entry>
    var cap: nat
    var count: nat

    ghost predicate Valid()
      reads this, ents
    {
      && cap < WORD && PowerOfTwo(cap) && ents.Length == cap
      && (cap == 2048 || cap <= 4 * count)
      && |View| <= count && count * 2 <= cap
      && Stores(ents[..], View)
    }

    constructor ()
      ensures Valid() && fresh(ents)
      ensures View == map[] && count == 0
    {
      cap, count := 2048, 0;
      ents := new Entry[2048](_ => Entry(NULL, 0));
      View := map[];
      new;
      Pow2Adds(8, 3);
      assert Pow2(8) == 256 by { assert Pow2(4) == 16; assert Pow2(6) == 64; }
      assert 2048 == Pow2(11);
    }

    /** The id stored for `p`, or 0. */
    method Find(p: Ptr) returns (id: nat)
      requires Valid() && p != NULL
      ensures id == if p in View then View[p] else 0
    {
      ghost var es := ents[..];
      FreeSlot(es, View);
      ghost var free :| 0 <= free < |es| && es[free].ptr == NULL;
      var h := Hash(p, cap);
      while true
        invariant 0 <= h < cap && Clear(es, p, h)
        invariant Steps(Hash(p, cap), h, cap) <= Steps(Hash(p, cap), free, cap)
        decreases cap - Steps(Hash(p, cap), h, cap)
      {
        assert Kept(es, View, h);
        if ents[h].ptr == p {
          return ents[h].id;
        }
        if ents[h].ptr == NULL {
          Misses(es, View, p, h);
          return 0;
        }
        StepOn(es, p, h, free);
        h := Next(h, cap);
      }
    }

    /** Store `id` for `p`, doubling the array first when it is half full. */
    method Insert(p: Ptr, id: nat)
      requires Valid() && p != NULL && count < MAX_ENTRIES
      modifies this, ents
      ensures Valid() && (ents == old(ents) || fresh(ents))
      ensures View == old(View)[p := id] && count == old(count) + 1
    {
      if count * 2 >= cap {
        var ne := Rehash(ents, cap, View);
        Doubles(cap);
        cap := cap * 2;
        ents := ne;
      }
      EvenCap(cap);
      ghost var was := View;
      OneMore(was, p, id);
      View := was[p := id];
      count := count + 1;
      InsertRaw(ents, p, id, was);
    }
  }

  lemma EvenCap(cap: nat)
    requires PowerOfTwo(cap)
    ensures cap == 1 || cap % 2 == 0
  {
  }

  lemma OneMore(view: map<Ptr, nat>, p: Ptr, id: nat)
    ensures |view[p := id]| <= |view| + 1
  {
    assert view[p := id].Keys == view.Keys + {p};
  }

  /** Copy every entry into an array twice as large. */
  method Rehash(ents: array<Entry>, cap: nat, ghost view: map<Ptr, nat>) returns (ne: array<Entry>)
    requires ents.Length == cap && |view| <= cap
    requires Stores(ents[..], view)
    ensures fresh(ne) && ne.Length == cap * 2
    ensures Stores(ne[..], view)
  {
    ne := new Entry[cap * 2](_ => Entry(NULL, 0));
    Empties(ne[..]);
    ghost var es := ents[..];
    ghost var part: map<Ptr, nat> := map[];
    for i := 0 to cap
      invariant ents[..] == es && fresh(ne)
      invariant Stores(ne[..], part) && Within(part, view)
      invariant forall k :: 0 <= k < i && es[k].ptr != NULL ==> es[k].ptr in part
    {
      var e := ents[i];
      assert e == es[i] && Kept(es, view, i);
      if e.ptr != NULL {
        SubsetSize(part.Keys, view.Keys);
        InsertRaw(ne, e.ptr, e.id, part);
        part := part[e.ptr := e.id];
      }
    }
    AllCopied(es, view, part);
  }

  lemma Empties(es: seq<Entry>)
    requires |es| > 0 && forall k :: 0 <= k < |es| ==> es[k].ptr == NULL
    ensures Stores(es, map[])
  {
  }

  ghost predicate Within(part: map<Ptr, nat>, view: map<Ptr, nat>) {
    part.Keys <= view.Keys && forall p :: p in part ==> part[p] == view[p]
  }

  lemma AllCopied(es: seq<Entry>, view: map<Ptr, nat>, part: map<Ptr, nat>)
    requires Stores(es, view) && Within(part, view)
    requires forall k :: 0 <= k < |es| && es[k].ptr != NULL ==> es[k].ptr in part
    ensures part == view
  {
    forall p | p in view
      ensures p in part
    {
      assert Holds(es, p);
    }
  }

  lemma SubsetSize(a: set<Ptr>, b: set<Ptr>)
    requires a <= b
    ensures |a| <= |b|
  {
    if a != {} {
      var x :| x in a;
      SubsetSize(a - {x}, b - {x});
    }
  }

  /** One probe step past an occupied slot stays short of the free slot. */
  lemma StepOn(es: seq<Entry>, p: Ptr, h: nat, free: nat)
    requires h < |es| && free < |es| && es[free].ptr == NULL
    requires Clear(es, p, h) && es[h].ptr != NULL && es[h].ptr != p
    requires Steps(Hash(p, |es|), h, |es|) <= Steps(Hash(p, |es|), free, |es|)
    ensures var n := Next(h, |es|); var g := Hash(p, |es|);
            && Steps(g, n, |es|) == Steps(g, h, |es|) + 1 <= Steps(g, free, |es|)
            && Clear(es, p, n)
  {
  }

  /** Probe from the hash of `p` to its slot or the first free one, and fill it. */
  method InsertRaw(ents: array<Entry>, p: Ptr, id: nat, ghost view: map<Ptr, nat>)
    requires p != NULL
    requires Stores(ents[..], view) && |view| < ents.Length
    modifies ents
    ensures Stores(ents[..], view[p := id])
  {
    ghost var es := ents[..];
    var cap := ents.Length;
    FreeSlot(es, view);
    ghost var free :| 0 <= free < |es| && es[free].ptr == NULL;
    var h := Hash(p, cap);
    while ents[h].ptr != NULL && ents[h].ptr != p
      invariant 0 <= h < cap && Clear(es, p, h)
      invariant ents[..] == es
      invariant Steps(Hash(p, cap), h, cap) <= Steps(Hash(p, cap), free, cap)
      decreases cap - Steps(Hash(p, cap), h, cap)
    {
      StepOn(es, p, h, free);
      h := Next(h, cap);
    }
    Fills(es, view, p, id, h);
    ents[h] := Entry(p, id);
    assert ents[..] == es[h := Entry(p, id)];
  }
}
