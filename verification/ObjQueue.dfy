// The work list of the snapshot's discovery pass: a ring of object pointers with
// free-running 32-bit head and tail counters.
module ObjQueue {
  import opened Words

  type Ptr = nat

  const NULL: Ptr := 0

  /** The ring has room for 2^31 slots; the program doubles `cap` in 32 bits. */
  const MAX_QUEUED: nat := 0x4000_0000

  /** The slot of the `i`th pointer of a ring whose head counter is `head`. */
  function Slot(head: nat, i: nat, cap: nat): (s: nat)
    requires head < WORD && i < WORD && 0 < cap
    ensures s < cap
  {
    Mask(Add32(head, i), cap)
  }

  lemma SlotIs(head: nat, i: nat, cap: nat)
    requires head < WORD && i < cap <= WORD && PowerOfTwo(cap)
    ensures Slot(head, i, cap) == (var h := Mask(head, cap); if h + i < cap then h + i else h + i - cap)
  {
    if head + i >= WORD {
      MaskWraps(head + i - WORD, cap);
    }
    assert Slot(head, i, cap) == Mask(head + i, cap);
    MaskAdds(head, i, cap);
  }

  /** The tail stands behind the pointers in the ring, on none of them. */
  lemma TailSlot(head: nat, tail: nat, cap: nat, n: nat)
    requires head < WORD && tail < WORD && cap < WORD && PowerOfTwo(cap) && n == Sub32(tail, head) < cap
    ensures Slot(head, n, cap) == Mask(tail, cap) && Mask(tail, cap) < cap
    ensures forall i :: 0 <= i < n ==> Slot(head, i, cap) != Mask(tail, cap)
    ensures Sub32(Add32(tail, 1), head) == n + 1
  {
    assert Add32(head, n) == tail;
    SlotIs(head, n, cap);
    forall i | 0 <= i < n
      ensures Slot(head, i, cap) != Mask(tail, cap)
    {
      SlotIs(head, i, cap);
    }
  }

  class ObjQ {
    ghost var Contents: seq<Ptr>
    var items: array<Ptr>
    var head: nat
    var tail: nat
    var cap: nat

    ghost predicate Valid()
      reads this, items
    {
      && head < WORD && tail < WORD && 0 < cap < WORD
      && PowerOfTwo(cap) && items.Length == cap
      && |Contents| == Sub32(tail, head) <= cap
      && (cap == 2048 || cap <= 2 * MAX_QUEUED)
      && forall i :: 0 <= i < |Contents| ==> items[Slot(head, i, cap)] == Contents[i]
    }

    constructor ()
      ensures Valid() && fresh(items)
      ensures Contents == []
    {
      items := new Ptr[2048];
      head, tail, cap := 0, 0, 2048;
      Contents := [];
      new;
      Pow2Adds(8, 3);
      assert Pow2(8) == 256 by { assert Pow2(4) == 16; assert Pow2(6) == 64; }
      assert 2048 == Pow2(11);
    }

    method Push(o: Ptr)
      requires Valid() && |Contents| < MAX_QUEUED
      modifies this, items
      ensures Valid() && (items == old(items) || fresh(items))
      ensures Contents == old(Contents) + [o]
    {
      if Sub32(tail, head) >= cap {
        Grow();
      }
      TailSlot(head, tail, cap, |Contents|);
      items[Mask(tail, cap)] := o;
      tail := Add32(tail, 1);
      Contents := Contents + [o];
    }

    /** Unroll a full ring into one twice as large. */
    method Grow()
      requires Valid() && Sub32(tail, head) == cap < MAX_QUEUED
      modifies this
      ensures Valid() && fresh(items) && |Contents| < cap
      ensures Contents == old(Contents)
    {
      var n := Sub32(tail, head);
      var nc := cap * 2;
      var ni := new Ptr[nc];
      for i := 0 to n
        modifies ni
        invariant forall j :: 0 <= j < i ==> ni[j] == Contents[j]
      {
        ni[i] := items[Slot(head, i, cap)];
      }
      Doubles(cap);
      items, cap, tail, head := ni, nc, n, 0;
      forall i | 0 <= i < |Contents|
        ensures Slot(0, i, nc) == i
      {
      }
    }

    /** The oldest pointer, or NULL when there is none. */
    method Pop() returns (o: Ptr)
      requires Valid()
      modifies this
      ensures Valid() && items == old(items)
      ensures old(Contents) == [] ==> o == NULL && Contents == []
      ensures old(Contents) != [] ==> [o] + Contents == old(Contents)
    {
      if head == tail {
        return NULL;
      }
      o := items[Mask(head, cap)];
      assert Add32(head, 0) == head;
      forall i | 0 <= i < |Contents| - 1
        ensures Slot(Add32(head, 1), i, cap) == Slot(head, i + 1, cap)
      {
      }
      head := Add32(head, 1);
      Contents := Contents[1..];
    }
  }
}
