// The passes of a load over a snapshot: blank objects first, then every object filled.
module LoadPasses {
  import opened Bytes
  import opened Heap
  import opened Wire
  import opened TableRecords
  import opened ProtoRecords
  import opened Records
  import opened Snapshot
  import opened NormalForm
  import opened LoadSpec
  import opened LoadFill

  /** The buffer's index entries lead to the records of the normal form `nh`. */
  ghost predicate Indexes(data: seq<byte>, env: Env, nh: seq<Cell>, es: seq<Entry>) {
    && 0 < |nh| < 0x4000_0000 && |es| == |nh| - 1
    && (forall i :: 0 < i < |nh| ==> FineAt(nh, env, i))
    && forall i {:trigger es[i - 1]} {:trigger nh[i]} :: 0 < i < |nh| ==> EntryFor(data, env, nh, es[i - 1], i)
  }

  ghost predicate EntryFor(data: seq<byte>, env: Env, nh: seq<Cell>, e: Entry, i: nat)
    requires i < |nh|
  {
    && e.tc == TypeCode(nh[i].obj) && e.objid == nh[i].objid
    && ReadObj(e.tc, data, e.off).Got? && ReadObj(e.tc, data, e.off).value == WireObj(nh, env, nh[i].obj)
  }

  /** A state fresh from its creation: the main thread has no open upvalues. */
  ghost predicate GoodBase(base: State) {
    && 0 < base.main < |base.heap|
    && base.heap[base.main].obj.Thread? && base.heap[base.main].obj.open == []
  }

  // ---------------------------------------------------------- the first pass

  lemma StringBlank(data: seq<byte>, nh: seq<Cell>, env: Env, h: seq<Cell>, e: Entry, i: nat)
    requires 0 < i < |nh| && nh[i].obj.Str? && EntryFor(data, env, nh, e, i)
    ensures var s := nh[i].obj.s;
            BlankFor(data, h, e)
            == if |s| <= MAXSHORTLEN && |h| > 0 && FindShort(h, s, 1) < |h| then Old(FindShort(h, s, 1)) else New(BlankOf(nh[i].obj))
  {
    hide ReadBlob;
  }

  lemma TableBlank(data: seq<byte>, nh: seq<Cell>, env: Env, h: seq<Cell>, e: Entry, i: nat)
    requires 0 < i < |nh| < 0x4000_0000 && nh[i].obj.Table? && FineAt(nh, env, i) && EntryFor(data, env, nh, e, i)
    ensures BlankFor(data, h, e) == New(BlankOf(nh[i].obj))
  {
    var o := nh[i].obj;
    WireTableValid(nh, env, o.arr, o.nodes, o.mt);
    FineTableSmall(nh, env, o.arr, o.nodes, o.mt);
    hide ReadTable, ScanTable, PlainTable, WireItems, WireSlots, FineAt;
    TablePassesAgree(data, e.off);
  }

  lemma CClosureBlank(data: seq<byte>, nh: seq<Cell>, env: Env, h: seq<Cell>, e: Entry, i: nat)
    requires 0 < i < |nh| < 0x4000_0000 && nh[i].obj.CClosure? && FineAt(nh, env, i) && EntryFor(data, env, nh, e, i)
    ensures BlankFor(data, h, e) == New(BlankOf(nh[i].obj))
  {
    WireTvsValid(nh, env, nh[i].obj.ups);
    hide ReadName, ReadAll, ReadTv, SkipTv, FineAt, WireTv;
    var p := ReadName(data, e.off).next;
    var n := U8(data, p);
    assert ReadAll(data, n.next, n.value, ReadTv).value == WireTvs(nh, env, nh[i].obj.ups);
    SkipAllAgrees(data, n.next, n.value);
  }

  lemma OtherBlank(data: seq<byte>, nh: seq<Cell>, env: Env, h: seq<Cell>, e: Entry, i: nat)
    requires 0 < i < |nh| && EntryFor(data, env, nh, e, i)
    requires !nh[i].obj.Str? && !nh[i].obj.Table? && !nh[i].obj.CClosure?
    ensures BlankFor(data, h, e) == New(BlankOf(nh[i].obj))
  {
    hide ScanProto, ReadProto, ReadAll, ReadThread, ReadTv, ReadBlob, WireProto, WireTv;
  }

  lemma BlankIs(data: seq<byte>, nh: seq<Cell>, env: Env, h: seq<Cell>, e: Entry, i: nat)
    requires 0 < i < |nh| < 0x4000_0000 && FineAt(nh, env, i) && EntryFor(data, env, nh, e, i)
    ensures var b := BlankFor(data, h, e);
            if b.Old? then nh[i].obj.Str? && 0 < b.r < |h| && h[b.r].obj == BlankOf(nh[i].obj)
            else b == New(BlankOf(nh[i].obj))
  {
    hide BlankFor, EntryFor, FineAt, BlankTable;
    match nh[i].obj
    case Str(_, _) => StringBlank(data, nh, env, h, e, i);
    case Table(_, _, _) => TableBlank(data, nh, env, h, e, i);
    case CClosure(_, _) => CClosureBlank(data, nh, env, h, e, i);
    case _ => OtherBlank(data, nh, env, h, e, i);
  }

  /** The blank of object `i`, where the first pass has put it. */
  ghost predicate BlankAt(base: State, nh: seq<Cell>, h: seq<Cell>, ptr: seq<Ref>, main: nat, i: nat)
    requires i < |ptr| && i < |nh|
  {
    && 0 < ptr[i] < |h|
    && (if i == main then ptr[i] == base.main else ptr[i] != base.main && h[ptr[i]].obj == BlankOf(nh[i].obj))
  }

  ghost predicate CreatedOk(base: State, nh: seq<Cell>, p: Created, main: nat, k: nat) {
    && k < |nh| && |p.ptr| == k + 1 && p.ptr[0] == NULL && !p.failed && !p.undefined
    && base.main < |base.heap| <= |p.heap|
    && p.heap[base.main] == base.heap[base.main]
    && (forall i {:trigger p.ptr[i]} :: 0 < i <= k ==> BlankAt(base, nh, p.heap, p.ptr, main, i))
    && (forall i, j {:trigger p.ptr[i], p.ptr[j]} :: 0 < i < j <= k && p.ptr[i] == p.ptr[j] ==> Twins(nh, i, j))
  }

  lemma BlankTwins(nh: seq<Cell>, i: nat, j: nat)
    requires i < |nh| && j < |nh| && nh[j].obj.Str? && |nh[j].obj.s| <= MAXSHORTLEN
    ensures BlankOf(nh[i].obj) == BlankOf(nh[j].obj) ==> Twins(nh, i, j)
  {
  }

  lemma Extends(base: State, nh: seq<Cell>, p: Created, h: seq<Cell>, r: Ref, main: nat, k: nat)
    requires 0 < k < |nh| && CreatedOk(base, nh, p, main, k - 1)
    requires p.heap <= h && 0 < r < |h|
    requires forall i {:trigger p.ptr[i]} :: 0 < i < k && p.ptr[i] == r ==> Twins(nh, i, k)
    requires if k == main then r == base.main else r != base.main && h[r].obj == BlankOf(nh[k].obj)
    ensures CreatedOk(base, nh, Created(h, p.ptr + [r], false, false), main, k)
  {
    var n := Created(h, p.ptr + [r], false, false);
    forall i | 0 < i <= k
      ensures BlankAt(base, nh, n.heap, n.ptr, main, i)
    {
      if i < k {
        assert n.ptr[i] == p.ptr[i] && BlankAt(base, nh, p.heap, p.ptr, main, i);
      }
    }
    forall i, j | 0 < i < j <= k && n.ptr[i] == n.ptr[j]
      ensures Twins(nh, i, j)
    {
      assert n.ptr[i] == p.ptr[i];
      assert j < k ==> n.ptr[j] == p.ptr[j];
    }
    assert h[base.main] == base.heap[base.main];
  }

  /** An interned string that exists already is the string of an earlier id only if that has the
      same contents. */
  lemma OldIsNew(data: seq<byte>, env: Env, base: State, nh: seq<Cell>, es: seq<Entry>, p: Created, main: nat, k: nat)
    requires GoodBase(base) && Indexes(data, env, nh, es) && 0 < k < |nh| && k != main
    requires CreatedOk(base, nh, p, main, k - 1) && BlankFor(data, p.heap, es[k - 1]).Old?
    ensures var r := BlankFor(data, p.heap, es[k - 1]).r;
            && 0 < r < |p.heap| && r != base.main && p.heap[r].obj == BlankOf(nh[k].obj)
            && forall i {:trigger p.ptr[i]} :: 0 < i < k && p.ptr[i] == r ==> Twins(nh, i, k)
  {
    assert EntryFor(data, env, nh, es[k - 1], k);
    OldIsShort(data, nh, env, p.heap, es[k - 1], k);
    BlankIs(data, nh, env, p.heap, es[k - 1], k);
    var r := BlankFor(data, p.heap, es[k - 1]).r;
    hide BlankFor, EntryFor, FindShort;
    forall i {:trigger p.ptr[i]} | 0 < i < k && p.ptr[i] == r
      ensures Twins(nh, i, k)
    {
      assert BlankAt(base, nh, p.heap, p.ptr, main, i);
      BlankTwins(nh, i, k);
    }
  }

  lemma CreateOne(data: seq<byte>, env: Env, base: State, nh: seq<Cell>, es: seq<Entry>, p: Created, main: nat, k: nat)
    requires GoodBase(base) && Indexes(data, env, nh, es) && 0 < k < |nh| && k != main
    requires CreatedOk(base, nh, p, main, k - 1)
    ensures match BlankFor(data, p.heap, es[k - 1])
            case Old(r) => CreatedOk(base, nh, p.(ptr := p.ptr + [r]), main, k)
            case New(o) => CreatedOk(base, nh, Created(p.heap + [Cell(0, o)], p.ptr + [|p.heap|], false, false), main, k)
            case _ => false
  {
    assert EntryFor(data, env, nh, es[k - 1], k) && FineAt(nh, env, k);
    BlankIs(data, nh, env, p.heap, es[k - 1], k);
    EarlierInside(base, nh, p, main, k);
    hide BlankFor, EntryFor, FineAt, Indexes, BlankOf, CreatedOk, GoodBase;
    match BlankFor(data, p.heap, es[k - 1])
    case Old(r) =>
      OldIsNew(data, env, base, nh, es, p, main, k);
      Extends(base, nh, p, p.heap, r, main, k);
    case New(o) =>
      Extends(base, nh, p, p.heap + [Cell(0, o)], |p.heap|, main, k);
    case _ =>
  }

  lemma EarlierInside(base: State, nh: seq<Cell>, p: Created, main: nat, k: nat)
    requires GoodBase(base) && 0 < k < |nh| && CreatedOk(base, nh, p, main, k - 1)
    ensures |p.ptr| == k && 0 < base.main < |p.heap| && !p.failed && !p.undefined
    ensures forall i {:trigger p.ptr[i]} :: 0 < i < k ==> p.ptr[i] < |p.heap|
    ensures k == main ==> forall i {:trigger p.ptr[i]} :: 0 < i < k ==> p.ptr[i] != base.main
  {
    hide BlankOf;
    forall i {:trigger p.ptr[i]} | 0 < i < k
      ensures p.ptr[i] < |p.heap| && (k == main ==> p.ptr[i] != base.main)
    {
      assert BlankAt(base, nh, p.heap, p.ptr, main, i);
    }
  }

  lemma OldIsShort(data: seq<byte>, nh: seq<Cell>, env: Env, h: seq<Cell>, e: Entry, i: nat)
    requires 0 < i < |nh| < 0x4000_0000 && FineAt(nh, env, i) && EntryFor(data, env, nh, e, i)
    requires BlankFor(data, h, e).Old?
    ensures nh[i].obj.Str? && |nh[i].obj.s| <= MAXSHORTLEN
  {
    BlankIs(data, nh, env, h, e, i);
    StringBlank(data, nh, env, h, e, i);
    hide BlankFor, EntryFor, FineAt;
  }

  lemma SizesOf(data: seq<byte>, env: Env, base: State, nh: seq<Cell>, es: seq<Entry>)
    requires GoodBase(base) && Indexes(data, env, nh, es)
    ensures |es| == |nh| - 1 && base.main < |base.heap|
  {
    hide FineAt, EntryFor;
  }

  lemma {:induction false} CreateAllOk(data: seq<byte>, env: Env, base: State, nh: seq<Cell>, es: seq<Entry>,
        main: nat, k: nat)
    requires GoodBase(base) && Indexes(data, env, nh, es) && k < |nh| && 0 < main < |nh|
    ensures CreatedOk(base, nh, CreateAll(data, base, es, main, k), main, k)
  {
    if k == 0 {
      hide BlankOf, Indexes;
    } else {
      hide BlankOf, Indexes, GoodBase, CreatedOk, BlankFor;
      SizesOf(data, env, base, nh, es);
      CreateAllOk(data, env, base, nh, es, main, k - 1);
      var p := CreateAll(data, base, es, main, k - 1);
      EarlierInside(base, nh, p, main, k);
      if k == main {
        Extends(base, nh, p, p.heap, base.main, main, k);
      } else {
        CreateOne(data, env, base, nh, es, p, main, k);
      }
    }
  }
}
