// Indexing a snapshot finds every record where the save put it.
module LoadIndex {
  import opened Bytes
  import opened Records
  import opened Snapshot
  import opened LoadSpec

  lemma {:induction false} EncAllAppend<T>(a: seq<T>, b: seq<T>, enc: T -> seq<byte>)
    ensures EncAll(a + b, enc) == EncAll(a, enc) + EncAll(b, enc)
  {
    if b == [] {
      assert a + b == a;
    } else {
      hide EncAll;
      var k := |b| - 1;
      EncAllAppend(a, b[..k], enc);
      EncAllSnoc(a + b, |a| + k, enc);
      EncAllSnoc(b, k, enc);
      assert b[..k + 1] == b && (a + b)[..|a| + k] == a + b[..k] && (a + b)[..|a| + k + 1] == a + b;
      assert EncAll(a, enc) + EncAll(b[..k], enc) + enc(b[k]) == EncAll(a, enc) + (EncAll(b[..k], enc) + enc(b[k]));
    }
  }

  /** Where record `k` starts. */
  ghost function StartOf(recs: seq<Rec>, k: nat): nat
    requires k <= |recs|
  {
    HEADER + |EncAll(recs[..k], EncRec)|
  }

  lemma RecordAt(data: seq<byte>, recs: seq<Rec>, k: nat)
    requires k < |recs| && At(data, HEADER, EncAll(recs, EncRec))
    ensures At(data, StartOf(recs, k), EncRec(recs[k]))
    ensures StartOf(recs, k + 1) == StartOf(recs, k) + |EncRec(recs[k])| <= HEADER + |EncAll(recs, EncRec)|
  {
    hide EncRec, At;
    var a, b := recs[..k], recs[k + 1..];
    assert recs == recs[..k + 1] + b;
    EncAllAppend(recs[..k + 1], b, EncRec);
    EncAllSnoc(recs, k, EncRec);
    var x, y, z := EncAll(a, EncRec), EncRec(recs[k]), EncAll(b, EncRec);
    assert EncAll(recs, EncRec) == x + (y + z);
    AtSplit(data, HEADER, x, y + z);
    AtSplit(data, HEADER + |x|, y, z);
  }

  lemma EntryOk(data: seq<byte>, pos: nat, end: nat, r: Rec)
    requires At(data, pos, EncRec(r)) && |EncObj(r.w)| < 0x1_0000_0000
    requires pos + |EncRec(r)| <= end <= |data|
    ensures EntryAt(data, pos, end) == Got(Entry(Code(r.w), r.objid, pos + OBJ_HEADER), pos + |EncRec(r)|)
    ensures At(data, pos + OBJ_HEADER, EncObj(r.w)) && 0 < |EncRec(r)| == OBJ_HEADER + |EncObj(r.w)|
  {
    var n := |EncObj(r.w)|;
    AtSplit(data, pos, [Code(r.w)], Le(r.objid, 8) + (Le(n, 4) + EncObj(r.w)));
    AtSplit(data, pos + 1, Le(r.objid, 8), Le(n, 4) + EncObj(r.w));
    AtSplit(data, pos + 9, Le(n, 4), EncObj(r.w));
    ReadsByte(data, pos, Code(r.w));
    ReadsU64(data, pos + 1, r.objid);
    ReadsU32(data, pos + 9, n);
    hide At, EncObj, U8, U64, U32;
  }

  /** The index entries of the first `k` records. */
  ghost function EntriesOf(recs: seq<Rec>, k: nat): (es: seq<Entry>)
    requires k <= |recs|
    ensures |es| == k
    ensures forall i :: 0 <= i < k ==> es[i] == Entry(Code(recs[i].w), recs[i].objid, StartOf(recs, i) + OBJ_HEADER)
  {
    seq(k, i requires 0 <= i < k => Entry(Code(recs[i].w), recs[i].objid, StartOf(recs, i) + OBJ_HEADER))
  }

  ghost predicate ShortRecords(recs: seq<Rec>) {
    forall i :: 0 <= i < |recs| ==> |EncObj(recs[i].w)| < 0x1_0000_0000
  }

  lemma IndexStep(data: seq<byte>, pos: nat, end: nat, es: seq<Entry>, e: Entry, next: nat)
    requires forall x :: x in es ==> OBJ_STRING <= x.tc <= OBJ_USERDATA
    requires pos < end && EntryAt(data, pos, end) == Got(e, next) && pos < next && OBJ_STRING <= e.tc <= OBJ_USERDATA
    ensures IndexFrom(data, pos, end, es) == IndexFrom(data, next, end, es + [e])
  {
    hide EntryAt;
  }

  lemma KindsInRange(recs: seq<Rec>, k: nat)
    requires k <= |recs|
    ensures forall e :: e in EntriesOf(recs, k) ==> OBJ_STRING <= e.tc <= OBJ_USERDATA
  {
  }

  lemma IndexStops(data: seq<byte>, recs: seq<Rec>)
    ensures forall e :: e in EntriesOf(recs, |recs|) ==> OBJ_STRING <= e.tc <= OBJ_USERDATA
    ensures var end := HEADER + |EncAll(recs, EncRec)|;
            IndexFrom(data, StartOf(recs, |recs|), end, EntriesOf(recs, |recs|)) == Indexed(EntriesOf(recs, |recs|), end)
  {
    hide EncAll, EncRec, EntryAt, EntriesOf;
    KindsInRange(recs, |recs|);
    assert recs[..|recs|] == recs;
  }

  lemma IndexOne(data: seq<byte>, recs: seq<Rec>, k: nat)
    requires k < |recs| && At(data, HEADER, EncAll(recs, EncRec)) && ShortRecords(recs)
    ensures forall e :: e in EntriesOf(recs, k) ==> OBJ_STRING <= e.tc <= OBJ_USERDATA
    ensures forall e :: e in EntriesOf(recs, k + 1) ==> OBJ_STRING <= e.tc <= OBJ_USERDATA
    ensures var end := HEADER + |EncAll(recs, EncRec)|;
            IndexFrom(data, StartOf(recs, k), end, EntriesOf(recs, k)) == IndexFrom(data, StartOf(recs, k + 1), end, EntriesOf(recs, k + 1))
  {
    hide *;
    var end := HEADER + |EncAll(recs, EncRec)|;
    KindsInRange(recs, k);
    KindsInRange(recs, k + 1);
    Bounds(data, recs, k);
    RecordAt(data, recs, k);
    EntryOk(data, StartOf(recs, k), end, recs[k]);
    EntriesGrow(recs, k);
    var e := EntriesOf(recs, k + 1)[k];
    assert e in EntriesOf(recs, k + 1);
    IndexStep(data, StartOf(recs, k), end, EntriesOf(recs, k), e, StartOf(recs, k + 1));
  }

  lemma Bounds(data: seq<byte>, recs: seq<Rec>, k: nat)
    requires k < |recs| && At(data, HEADER, EncAll(recs, EncRec)) && ShortRecords(recs)
    ensures HEADER + |EncAll(recs, EncRec)| <= |data| && |EncObj(recs[k].w)| < 0x1_0000_0000
  {
    hide EncAll, EncObj;
  }

  lemma EntriesGrow(recs: seq<Rec>, k: nat)
    requires k < |recs|
    ensures EntriesOf(recs, k + 1) == EntriesOf(recs, k) + [EntriesOf(recs, k + 1)[k]]
    ensures EntriesOf(recs, k + 1)[k] == Entry(Code(recs[k].w), recs[k].objid, StartOf(recs, k) + OBJ_HEADER)
  {
    hide StartOf, Code;
    var a, b := EntriesOf(recs, k + 1), EntriesOf(recs, k);
    forall i | 0 <= i < k
      ensures a[i] == b[i]
    {
    }
  }

  lemma {:induction false} IndexRest(data: seq<byte>, recs: seq<Rec>, k: nat)
    requires k <= |recs| && At(data, HEADER, EncAll(recs, EncRec)) && ShortRecords(recs)
    ensures forall e :: e in EntriesOf(recs, k) ==> OBJ_STRING <= e.tc <= OBJ_USERDATA
    ensures var end := HEADER + |EncAll(recs, EncRec)|;
            IndexFrom(data, StartOf(recs, k), end, EntriesOf(recs, k)) == Indexed(EntriesOf(recs, |recs|), end)
    decreases |recs| - k
  {
    hide *;
    if k == |recs| {
      IndexStops(data, recs);
    } else {
      IndexOne(data, recs, k);
      IndexRest(data, recs, k + 1);
    }
  }

  /** Indexing a buffer that holds the records between header and footer. */
  lemma IndexFinds(data: seq<byte>, recs: seq<Rec>)
    requires At(data, HEADER, EncAll(recs, EncRec)) && ShortRecords(recs)
    ensures var end := HEADER + |EncAll(recs, EncRec)|;
            IndexFrom(data, HEADER, end, []) == Indexed(EntriesOf(recs, |recs|), end)
    ensures forall i :: 0 <= i < |recs| ==> At(data, EntriesOf(recs, |recs|)[i].off, EncObj(recs[i].w))
  {
    assert HEADER + |EncAll(recs, EncRec)| <= |data|;
    hide EncRec, IndexFrom, At;
    IndexRest(data, recs, 0);
    assert StartOf(recs, 0) == HEADER;
    forall i | 0 <= i < |recs|
      ensures At(data, EntriesOf(recs, |recs|)[i].off, EncObj(recs[i].w))
    {
      RecordAt(data, recs, i);
      EntryOk(data, StartOf(recs, i), HEADER + |EncAll(recs, EncRec)|, recs[i]);
    }
  }
}
