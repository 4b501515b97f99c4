// Which buffers a load accepts: exactly those that are cut into records with known kinds, each
// read to its end and saying what it must, and whose roots name objects of the right kinds.
module LoadVerdict {
  import opened Bytes
  import opened Heap
  import opened Wire
  import opened TableRecords
  import opened ProtoRecords
  import opened Records
  import opened Snapshot
  import opened LoadSpec
  import opened LoadSafety
  import opened RecordVerdict

  // --------------------------------------------------------------- one record

  /** No value carries the tag of a dead key. */
  ghost predicate Plain(w: WObj) {
    match w
    case WTab(t) => PlainTable(t)
    case WPro(p) => WTag(TV_DEADKEY) !in p.k
    case WCCl(_, _, us) => WTag(TV_DEADKEY) !in us
    case _ => true
  }

  /** The record can be read to its end, and no dead key stands where a value belongs. */
  ghost predicate InPlace(data: seq<byte>, e: Entry) {
    OBJ_STRING <= e.tc <= OBJ_USERDATA && ReadObj(e.tc, data, e.off).Got? && Plain(ReadObj(e.tc, data, e.off).value)
  }

  /** The record can be read to its end, and says what it must. */
  ghost predicate Fine(data: seq<byte>, env: Env, types: seq<byte>, e: Entry) {
    && OBJ_STRING <= e.tc <= OBJ_USERDATA && ReadObj(e.tc, data, e.off).Got?
    && RecordOk(env, types, ReadObj(e.tc, data, e.off).value)
  }

  lemma FineInPlace(data: seq<byte>, env: Env, types: seq<byte>, e: Entry)
    requires Fine(data, env, types, e)
    ensures InPlace(data, e)
  {
    hide ReadObj;
  }

  // ---------------------------------------------------------------- table sizes

  /** The object is a table with the node array that the first pass made for the record. */
  ghost predicate TableFits(data: seq<byte>, e: Entry, h: seq<Cell>, r: Ref) {
    && r < |h| && h[r].obj.Table? && ScanTable(data, e.off).Got?
    && |h[r].obj.nodes| == NodeCount(ScanTable(data, e.off).value.hsize)
  }

  ghost predicate Sized(data: seq<byte>, es: seq<Entry>, ptr: seq<Ref>, h: seq<Cell>) {
    forall i :: 0 <= i < |es| < |ptr| && es[i].tc == OBJ_TABLE ==> TableFits(data, es[i], h, ptr[i + 1])
  }

  /** No two table records have the same object. */
  ghost predicate TablesApart(es: seq<Entry>, ptr: seq<Ref>) {
    forall i, j :: 0 <= i < j < |es| < |ptr| && es[i].tc == OBJ_TABLE && es[j].tc == OBJ_TABLE ==> ptr[i + 1] != ptr[j + 1]
  }

  lemma {:induction false} SlotsKeepSize(c: Ctx, env: Env, n: Nodes, hsize: nat, ws: seq<WSlot>)
    requires c.Valid()
    ensures |FillSlots(c, env, n, hsize, ws).nodes| == |n.nodes|
    ensures |ws| <= |n.nodes| && !n.wild ==> !FillSlots(c, env, n, hsize, ws).wild
  {
    if ws != [] {
      hide FillVal, FillKey, ChainInside;
      SlotsKeepSize(c, env, n, hsize, ws[..|ws| - 1]);
    }
  }

  /** A plain record has as many slots as were made for it. */
  lemma NeverWild(data: seq<byte>, c: Ctx, env: Env, e: Entry, h: seq<Cell>, r: Ref)
    requires c.Valid() && TableFits(data, e, h, r) && ReadTable(data, e.off).Got?
    requires PlainTable(ReadTable(data, e.off).value)
    ensures !FillTable(c, env, h[r].obj, ReadTable(data, e.off).value).wild
  {
    hide FillItems, FillSlots, Resolve, ScanTable, ReadTable, PlainTable;
    var t := ReadTable(data, e.off).value;
    TablePassesAgree(data, e.off);
    SlotsKeepSize(c, env, Nodes(h[r].obj.nodes, false, false), |t.slots|, t.slots);
  }

  lemma FillTableSize(c: Ctx, env: Env, blank: Obj, t: WTable)
    requires c.Valid() && blank.Table?
    ensures FillTable(c, env, blank, t).obj.Table? && |FillTable(c, env, blank, t).obj.nodes| == |blank.nodes|
  {
    hide FillItems, FillSlots, Resolve;
    SlotsKeepSize(c, env, Nodes(blank.nodes, false, false), |t.slots|, t.slots);
  }

  /** Relinking upvalues does not touch tables. */
  lemma {:induction false} LinksKeepTables(c: Ctx, h: seq<Cell>, th: Ref, l: Relink, ws: seq<WOpen>, r: Ref)
    requires Typed(c, h) && |l.heap| == |h| && r < |h| && h[r].obj.Table?
    ensures LinkAll(c, th, l, ws).heap[r] == l.heap[r]
  {
    if ws != [] {
      hide Place;
      var k := |ws| - 1;
      LinksKeepTables(c, h, th, l, ws[..k], r);
      ResolveSafe(c, h, ws[k].id);
    }
  }

  /** What holds of a load between two records. */
  ghost predicate Between(data: seq<byte>, es: seq<Entry>, c: Ctx, h: seq<Cell>) {
    && Matches(es, c, |h|) && Safe(c, h) && KindsInRange(c.types) && NoneNull(c)
    && Sized(data, es, c.ptr, h) && TablesApart(es, c.ptr)
  }

  lemma BetweenParts(data: seq<byte>, es: seq<Entry>, c: Ctx, h: seq<Cell>, id: nat)
    requires Between(data, es, c, h) && 0 < id <= |es|
    ensures Matches(es, c, |h|) && c.Valid() && |es| == |c.types| && KindsInRange(c.types) && NoneNull(c)
    ensures Safe(c, h) && Typed(c, h) && c.ptr[id] < |h| && OBJ_STRING <= es[id - 1].tc <= OBJ_USERDATA
    ensures es[id - 1].tc == OBJ_TABLE ==> TableFits(data, es[id - 1], h, c.ptr[id])
    ensures h[c.ptr[id]].obj.Table? <==> es[id - 1].tc == OBJ_TABLE
  {
    EntrySafe(c, h, id);
    hide SafeHeap, SafeObj, Typed, TableFits, KindsInRange, NoneNull;
  }

  /** Filling one record leaves the tables of the others alone. */
  lemma OthersKept(data: seq<byte>, env: Env, es: seq<Entry>, c: Ctx, l: Load, id: nat, r: Ref)
    requires Between(data, es, c, l.heap) && 0 < id <= |es| == |c.types| && c.Valid() && c.ptr[id] < |l.heap|
    requires OBJ_STRING <= es[id - 1].tc <= OBJ_USERDATA
    requires r < |l.heap| && l.heap[r].obj.Table? && r != c.ptr[id]
    ensures FillOne(data, env, es, c, l, id).heap[r] == l.heap[r]
  {
    hide ReadObj, FillObj, FillTvs, FillFrames, LinkAll, Between;
    BetweenParts(data, es, c, l.heap, id);
    hide Matches, Safe, Typed, KindsInRange, NoneNull, TableFits;
    var e := es[id - 1];
    var read := ReadObj(e.tc, data, e.off);
    if read.Got? && read.value.WThr? {
      LinksKeepTables(c, l.heap, c.ptr[id], Relink(l.heap, OldOpen(l.heap[c.ptr[id]].obj), false), read.value.th.open, r);
    }
  }

  /** The table of the record keeps the size of its node array. */
  lemma SelfKept(data: seq<byte>, env: Env, es: seq<Entry>, c: Ctx, l: Load, id: nat)
    requires Between(data, es, c, l.heap) && 0 < id <= |es| == |c.types| && c.Valid() && c.ptr[id] < |l.heap|
    requires es[id - 1].tc == OBJ_TABLE
    ensures TableFits(data, es[id - 1], FillOne(data, env, es, c, l, id).heap, c.ptr[id])
  {
    hide ReadTable, ScanTable, FillTable, Between;
    BetweenParts(data, es, c, l.heap, id);
    hide Matches, Safe, Typed, KindsInRange, NoneNull;
    var e := es[id - 1];
    if ReadTable(data, e.off).Got? {
      FillTableSize(c, env, l.heap[c.ptr[id]].obj, ReadTable(data, e.off).value);
    }
  }

  lemma TablesOf(data: seq<byte>, es: seq<Entry>, c: Ctx, h: seq<Cell>)
    requires Between(data, es, c, h)
    ensures TablesApart(es, c.ptr)
  {
    hide Matches, Safe, KindsInRange, NoneNull, Sized, TablesApart;
  }

  lemma PtrApart(data: seq<byte>, es: seq<Entry>, c: Ctx, h: seq<Cell>, i: nat, id: nat)
    requires Between(data, es, c, h) && i < |es| == |c.types| && 0 < id <= |es| && i + 1 != id && es[i].tc == OBJ_TABLE
    requires |c.ptr| == |es| + 1
    ensures c.ptr[i + 1] != c.ptr[id]
  {
    hide Between, Matches, Safe, Typed, KindsInRange, NoneNull, TableFits;
    BetweenParts(data, es, c, h, id);
    BetweenParts(data, es, c, h, i + 1);
    TablesOf(data, es, c, h);
    if es[id - 1].tc == OBJ_TABLE {
      var a, b := if i < id - 1 then i else id - 1, if i < id - 1 then id - 1 else i;
      assert a < b && c.ptr[a + 1] != c.ptr[b + 1];
    }
  }

  lemma StillBetween(data: seq<byte>, env: Env, es: seq<Entry>, c: Ctx, l: Load, id: nat)
    requires Between(data, es, c, l.heap) && 0 < id <= |es| == |c.types| && c.Valid() && c.ptr[id] < |l.heap|
    requires OBJ_STRING <= es[id - 1].tc <= OBJ_USERDATA
    ensures Between(data, es, c, FillOne(data, env, es, c, l, id).heap)
  {
    hide FillOne, Matches, Safe, TableFits, KindsInRange, NoneNull, TablesApart, Kept;
    BetweenParts(data, es, c, l.heap, id);
    FillOneSafe(data, env, es, c, l, id);
    var h := FillOne(data, env, es, c, l, id).heap;
    forall i | 0 <= i < |es| < |c.ptr| && es[i].tc == OBJ_TABLE
      ensures TableFits(data, es[i], h, c.ptr[i + 1])
    {
      BetweenParts(data, es, c, l.heap, i + 1);
      if i + 1 == id {
        SelfKept(data, env, es, c, l, id);
      } else {
        PtrApart(data, es, c, l.heap, i, id);
        OthersKept(data, env, es, c, l, id, c.ptr[i + 1]);
        FitsStill(data, es[i], l.heap, h, c.ptr[i + 1]);
      }
    }
  }

  lemma FitsStill(data: seq<byte>, e: Entry, h: seq<Cell>, g: seq<Cell>, r: Ref)
    requires TableFits(data, e, h, r) && r < |g| && g[r].obj == h[r].obj
    ensures TableFits(data, e, g, r)
  {
  }

  // ------------------------------------------------------------- filling one record

  /** Filling a record latches an error, or runs out of the buffer, exactly if the record is not
      fine; and never runs out of anything if the record is in its place. */
  lemma OneVerdict(data: seq<byte>, env: Env, es: seq<Entry>, c: Ctx, l: Load, id: nat)
    requires Between(data, es, c, l.heap) && 0 < id <= |es| == |c.types| && c.Valid() && c.ptr[id] < |l.heap|
    requires OBJ_STRING <= es[id - 1].tc <= OBJ_USERDATA
    ensures var l' := FillOne(data, env, es, c, l, id);
            && ((!l'.error && !l'.undefined) <==> (!l.error && !l.undefined && Fine(data, env, c.types, es[id - 1])))
            && (InPlace(data, es[id - 1]) ==> l'.undefined == l.undefined)
  {
    hide ReadObj, FillThread, FillObj, Between, RecordOk, Plain;
    BetweenParts(data, es, c, l.heap, id);
    hide Matches, Safe, Typed, KindsInRange, NoneNull, TableFits;
    var e, r := es[id - 1], c.ptr[id];
    var read := ReadObj(e.tc, data, e.off);
    if read.Got? {
      var w := read.value;
      ReadKind(e.tc, data, e.off);
      KindOfRecord(w);
      if w.WThr? {
        ThreadVerdict(c, env, l, r, w.th);
        ThreadFine(env, c.types, w);
      } else {
        FillVerdict(c, env, l.heap[r].obj, w);
        WildOnly(data, env, es, c, l, id);
      }
    }
  }

  lemma ThreadFine(env: Env, types: seq<byte>, w: WObj)
    requires w.WThr?
    ensures RecordOk(env, types, w) == ThreadOk(env, types, w.th)
  {
    hide ThreadOk;
  }

  lemma KindOfRecord(w: WObj)
    ensures w.WTab? <==> Code(w) == OBJ_TABLE
    ensures w.WThr? <==> Code(w) == OBJ_THREAD
  {
  }

  /** Only a table can store out of bounds, and no plain one does. */
  lemma WildOnly(data: seq<byte>, env: Env, es: seq<Entry>, c: Ctx, l: Load, id: nat)
    requires Between(data, es, c, l.heap) && 0 < id <= |es| == |c.types| && c.Valid() && c.ptr[id] < |l.heap|
    requires OBJ_STRING <= es[id - 1].tc <= OBJ_USERDATA && ReadObj(es[id - 1].tc, data, es[id - 1].off).Got?
    ensures var w := ReadObj(es[id - 1].tc, data, es[id - 1].off).value;
            && (Plain(w) ==> !FillObj(c, env, l.heap[c.ptr[id]].obj, w).wild)
            && (RecordOk(env, c.types, w) ==> Plain(w))
  {
    hide FillTable, FillUps, FillVars, FillTvs, FillTv, ResolveAll, Resolve, Between, ScanTable, ReadTable, ScanProto;
    hide ReadProto, ReadLClosure, ReadCClosure, ReadThread, ReadUd, ReadBlob, ReadTv;
    BetweenParts(data, es, c, l.heap, id);
    hide Matches, Safe, Typed, KindsInRange, NoneNull, TableFits;
    var e, r := es[id - 1], c.ptr[id];
    var w := ReadObj(e.tc, data, e.off).value;
    ReadKind(e.tc, data, e.off);
    KindOfRecord(w);
    if RecordOk(env, c.types, w) {
      FineInPlace(data, env, c.types, e);
    }
    hide PlainTable, RecordOk;
    if w.WTab? && PlainTable(w.t) {
      NeverWild(data, c, env, e, l.heap, r);
    }
  }

  // --------------------------------------------------------------------- the passes

  ghost predicate PassFine(data: seq<byte>, env: Env, types: seq<byte>, es: seq<Entry>, tc: byte, main: nat, k: nat) {
    forall i :: 0 <= i < k <= |es| && es[i].tc == tc && i + 1 != main ==> Fine(data, env, types, es[i])
  }

  ghost predicate AllInPlace(data: seq<byte>, es: seq<Entry>) {
    forall i :: 0 <= i < |es| ==> InPlace(data, es[i])
  }

  lemma {:induction false} PassVerdict(data: seq<byte>, env: Env, es: seq<Entry>, c: Ctx, l: Load, tc: byte, main: nat,
        k: nat)
    requires Between(data, es, c, l.heap) && Matches(es, c, |l.heap|) && c.Valid() && k <= |es| == |c.types|
    ensures var l' := FillPass(data, env, es, c, l, tc, main, k);
            && Between(data, es, c, l'.heap)
            && ((!l'.error && !l'.undefined) <==> (!l.error && !l.undefined && PassFine(data, env, c.types, es, tc, main, k)))
            && (AllInPlace(data, es) ==> l'.undefined == l.undefined)
  {
    hide FillOne, Between, Fine, InPlace;
    if k > 0 {
      PassVerdict(data, env, es, c, l, tc, main, k - 1);
      if es[k - 1].tc == tc && k != main {
        var p := FillPass(data, env, es, c, l, tc, main, k - 1);
        BetweenParts(data, es, c, p.heap, k);
        StillBetween(data, env, es, c, p, k);
        OneVerdict(data, env, es, c, p, k);
      }
    }
  }

  /** One pass more. */
  lemma NextPass(data: seq<byte>, env: Env, es: seq<Entry>, c: Ctx, l: Load, tc: byte, main: nat) returns (l': Load)
    requires Between(data, es, c, l.heap) && Matches(es, c, |l.heap|) && c.Valid() && |es| == |c.types|
    ensures l' == FillPass(data, env, es, c, l, tc, main, |es|) && |l'.heap| == |l.heap|
    ensures Between(data, es, c, l'.heap) && (AllInPlace(data, es) ==> l'.undefined == l.undefined)
    ensures (!l'.error && !l'.undefined) <==> (!l.error && !l.undefined && PassFine(data, env, c.types, es, tc, main, |es|))
  {
    hide Between, PassFine, AllInPlace;
    PassVerdict(data, env, es, c, l, tc, main, |es|);
    l' := FillPass(data, env, es, c, l, tc, main, |es|);
  }

  /** Strings and open upvalues are complete once they are made. */
  predicate IsFilled(tc: byte) {
    tc != OBJ_STRING && tc != OBJ_UPVAL_OPEN
  }

  ghost predicate FilledFine(data: seq<byte>, env: Env, types: seq<byte>, es: seq<Entry>) {
    forall i :: 0 <= i < |es| && IsFilled(es[i].tc) ==> Fine(data, env, types, es[i])
  }

  lemma PassesAreAll(data: seq<byte>, env: Env, types: seq<byte>, es: seq<Entry>, main: nat)
    requires main <= |es| && (main > 0 ==> es[main - 1].tc == OBJ_THREAD)
    requires forall i :: 0 <= i < |es| ==> OBJ_STRING <= es[i].tc <= OBJ_USERDATA
    ensures FilledFine(data, env, types, es) <==>
              && PassFine(data, env, types, es, OBJ_PROTO, 0, |es|) && PassFine(data, env, types, es, OBJ_UPVAL_CLOSED, 0, |es|)
              && PassFine(data, env, types, es, OBJ_LCLOSURE, 0, |es|) && PassFine(data, env, types, es, OBJ_CCLOSURE, 0, |es|)
              && PassFine(data, env, types, es, OBJ_TABLE, 0, |es|) && (main > 0 ==> Fine(data, env, types, es[main - 1]))
              && PassFine(data, env, types, es, OBJ_THREAD, main, |es|) && PassFine(data, env, types, es, OBJ_USERDATA, 0, |es|)
  {
    hide Fine;
  }

  lemma AllVerdict(data: seq<byte>, env: Env, es: seq<Entry>, c: Ctx, l: Load, main: nat)
    requires Between(data, es, c, l.heap) && Matches(es, c, |l.heap|) && c.Valid() && |es| == |c.types| && main <= |es|
    requires main > 0 ==> es[main - 1].tc == OBJ_THREAD
    ensures var l' := FillAll(data, env, es, c, l, main);
            && ((!l'.error && !l'.undefined) <==> (!l.error && !l.undefined && FilledFine(data, env, c.types, es)))
            && (AllInPlace(data, es) ==> l'.undefined == l.undefined)
  {
    hide FillOne, FillPass, Between, PassFine, FilledFine, Fine, InPlace;
    var a := NextPass(data, env, es, c, l, OBJ_PROTO, 0);
    var b := NextPass(data, env, es, c, a, OBJ_UPVAL_CLOSED, 0);
    var d := NextPass(data, env, es, c, b, OBJ_LCLOSURE, 0);
    var e := NextPass(data, env, es, c, d, OBJ_CCLOSURE, 0);
    var f := NextPass(data, env, es, c, e, OBJ_TABLE, 0);
    var g := f;
    if main != 0 {
      BetweenParts(data, es, c, f.heap, main);
      g := FillOne(data, env, es, c, f, main);
      StillBetween(data, env, es, c, f, main);
      OneVerdict(data, env, es, c, f, main);
    }
    var t := NextPass(data, env, es, c, g, OBJ_THREAD, main);
    var u := NextPass(data, env, es, c, t, OBJ_USERDATA, 0);
    PassesAreAll(data, env, c.types, es, main);
  }

  // ------------------------------------------------------------------ the first pass

  /** The first pass gets through the record. */
  ghost predicate Scans(data: seq<byte>, e: Entry) {
    if e.tc == OBJ_STRING then ReadBlob(data, e.off).Got?
    else if e.tc == OBJ_TABLE then ScanTable(data, e.off).Got?
    else if e.tc == OBJ_PROTO then ScanProto(data, e.off).Got?
    else if e.tc == OBJ_LCLOSURE then U32(data, e.off).Got? && U8(data, e.off + 4).Got?
    else if e.tc == OBJ_CCLOSURE then ScanCClosure(data, e.off).Got?
    else if e.tc == OBJ_USERDATA then ReadUd(data, e.off).Got?
    else true
  }

  ghost function ScanCClosure(data: seq<byte>, pos: nat): Parsed<()> {
    var (_, p) :- ReadName(data, pos);
    var (n, p) :- U8(data, p);
    var (_, p) :- ReadAll(data, p, n, SkipTv);
    Got((), p)
  }

  lemma BlankVerdict(data: seq<byte>, h: seq<Cell>, e: Entry)
    requires OBJ_STRING <= e.tc <= OBJ_USERDATA
    ensures Scans(data, e) <==> BlankFor(data, h, e).New? || BlankFor(data, h, e).Old?
    ensures e.tc == OBJ_TABLE && Scans(data, e) ==>
              && BlankFor(data, h, e).New? && BlankFor(data, h, e).obj.Table?
              && |BlankFor(data, h, e).obj.nodes| == NodeCount(ScanTable(data, e.off).value.hsize)
  {
    hide ReadAll, ScanTable, ScanProto, ReadUd, ReadName, NodeCount, FindShort;
  }

  lemma ReadableScans(data: seq<byte>, e: Entry)
    requires InPlace(data, e)
    ensures Scans(data, e)
  {
    hide ReadAll, ReadTable, ScanTable, ScanProto, ReadProto, ReadThread, ReadTv, ReadName, SkipTv, PlainTable;
    if e.tc == OBJ_TABLE {
      TablePassesAgree(data, e.off);
    } else if e.tc == OBJ_CCLOSURE {
      var p := ReadName(data, e.off).next;
      SkipAllAgrees(data, p + 1, U8(data, p).value);
    }
  }

  /** The tables made so far have the sizes of their records, and no two are the same. */
  ghost predicate MadeTables(data: seq<byte>, es: seq<Entry>, p: Created, k: nat)
    requires k <= |es|
  {
    && |p.ptr| == k + 1
    && (forall i :: 0 <= i < k && es[i].tc == OBJ_TABLE ==> TableFits(data, es[i], p.heap, p.ptr[i + 1]))
    && (forall i, j :: 0 <= i < j < k && es[i].tc == OBJ_TABLE && es[j].tc == OBJ_TABLE ==> p.ptr[i + 1] != p.ptr[j + 1])
  }

  lemma MadeTable(data: seq<byte>, es: seq<Entry>, p: Created, p': Created, k: nat)
    requires 0 < k <= |es| && MadeTables(data, es, p, k - 1) && |p'.ptr| == k + 1 && p'.ptr[..k] == p.ptr
    requires p.heap <= p'.heap && forall i :: 0 <= i < k ==> p.ptr[i] < |p.heap|
    requires es[k - 1].tc == OBJ_TABLE ==> p'.ptr[k] == |p.heap| && TableFits(data, es[k - 1], p'.heap, p'.ptr[k])
    ensures MadeTables(data, es, p', k)
  {
    hide TableFits;
    assert forall i :: 0 <= i < k ==> p'.ptr[i] == p.ptr[i];
    forall i | 0 <= i < k && es[i].tc == OBJ_TABLE
      ensures TableFits(data, es[i], p'.heap, p'.ptr[i + 1])
    {
      if i < k - 1 {
        FitsStill(data, es[i], p.heap, p'.heap, p.ptr[i + 1]);
      }
    }
  }

  lemma {:induction false} CreateVerdict(data: seq<byte>, base: State, es: seq<Entry>, main: nat, k: nat)
    requires k <= |es| && base.main < |base.heap| && (0 < main <= |es| ==> es[main - 1].tc == OBJ_THREAD)
    requires forall i :: 0 <= i < |es| ==> OBJ_STRING <= es[i].tc <= OBJ_USERDATA
    ensures var p := CreateAll(data, base, es, main, k);
            && ((!p.failed && !p.undefined) <==> (forall i :: 0 <= i < k && i + 1 != main ==> Scans(data, es[i])))
            && (!p.failed && !p.undefined ==> MadeTables(data, es, p, k))
  {
    hide BlankFor, Scans, MadeTables, ScanTable;
    if k == 0 {
      NoTables(data, es, CreateAll(data, base, es, main, 0));
    } else {
      CreateVerdict(data, base, es, main, k - 1);
      var p := CreateAll(data, base, es, main, k - 1);
      var p' := CreateAll(data, base, es, main, k);
      if !p.failed && !p.undefined {
        BlankVerdict(data, p.heap, es[k - 1]);
        if !p'.failed && !p'.undefined {
          assert p'.ptr[..k] == p.ptr;
          if es[k - 1].tc == OBJ_TABLE {
            NewFits(data, es[k - 1], p.heap);
          }
          MadeTable(data, es, p, p', k);
        }
      }
    }
  }

  lemma NoTables(data: seq<byte>, es: seq<Entry>, p: Created)
    requires |p.ptr| == 1
    ensures MadeTables(data, es, p, 0)
  {
  }

  lemma NewFits(data: seq<byte>, e: Entry, h: seq<Cell>)
    requires e.tc == OBJ_TABLE && Scans(data, e)
    ensures BlankFor(data, h, e).New?
    ensures TableFits(data, e, h + [Cell(0, BlankFor(data, h, e).obj)], |h|)
  {
    BlankVerdict(data, h, e);
    hide BlankFor, ScanTable, NodeCount;
  }

  // ------------------------------------------------------------------ cutting the buffer

  /** From `from` to `end` the bytes are the records of `es`: kind, object id, size, payload. */
  ghost predicate Tiled(data: seq<byte>, es: seq<Entry>, from: nat, end: nat)
    decreases |es|
  {
    if es == [] then from == end else
    && from + 13 <= |data| && es[0].tc == data[from] && 1 <= data[from] <= 9
    && U64(data, from + 1) == Got(es[0].objid, from + 9) && es[0].off == from + 13
    && U32(data, from + 9).Got? && Tiled(data, es[1..], from + 13 + U32(data, from + 9).value, end)
  }

  lemma {:induction false} TiledForward(data: seq<byte>, es: seq<Entry>, from: nat, end: nat)
    requires Tiled(data, es, from, end)
    ensures from <= end && (es != [] ==> from < end)
    decreases |es|
  {
    if es != [] {
      TiledForward(data, es[1..], from + 13 + U32(data, from + 9).value, end);
    }
  }

  lemma HeaderIs(data: seq<byte>, from: nat, end: nat)
    requires from < end && EntryAt(data, from, end).Got?
    ensures var e := EntryAt(data, from, end).value;
            && from + 13 <= |data| && e.tc == data[from] && 1 <= data[from] <= 9 && e.off == from + 13
            && U64(data, from + 1) == Got(e.objid, from + 9) && U32(data, from + 9).Got?
            && EntryAt(data, from, end).next == from + 13 + U32(data, from + 9).value
  {
    hide U64, U32;
  }

  lemma HeaderRead(data: seq<byte>, e: Entry, from: nat, end: nat)
    requires from + 13 <= |data| && e.tc == data[from] && 1 <= data[from] <= 9 && e.off == from + 13
    requires U64(data, from + 1) == Got(e.objid, from + 9) && U32(data, from + 9).Got?
    requires from + 13 + U32(data, from + 9).value <= end
    ensures EntryAt(data, from, end) == Got(e, from + 13 + U32(data, from + 9).value)
  {
    hide U64, U32;
  }

  lemma TiledCons(data: seq<byte>, e: Entry, rest: seq<Entry>, from: nat, end: nat)
    requires from < end && EntryAt(data, from, end).Got? && e == EntryAt(data, from, end).value
    requires Tiled(data, rest, EntryAt(data, from, end).next, end)
    ensures Tiled(data, [e] + rest, from, end)
  {
    hide U64, U32, EntryAt;
    HeaderIs(data, from, end);
    assert ([e] + rest)[1..] == rest;
  }

  /** The walk over the headers finds the records that the buffer is cut into. */
  lemma {:induction false} WalkFinds(data: seq<byte>, es: seq<Entry>, from: nat, end: nat, before: seq<Entry>)
    requires Tiled(data, es, from, end) && forall e :: e in before ==> OBJ_STRING <= e.tc <= OBJ_USERDATA
    ensures IndexFrom(data, from, end, before) == Indexed(before + es, end)
    decreases |es|
  {
    hide EntryAt, U64, U32;
    TiledForward(data, es, from, end);
    if es == [] {
      assert before + es == before;
    } else {
      var next := from + 13 + U32(data, from + 9).value;
      TiledForward(data, es[1..], next, end);
      HeaderRead(data, es[0], from, end);
      WalkFinds(data, es[1..], next, end, before + [es[0]]);
      assert before + [es[0]] + es[1..] == before + es;
    }
  }

  lemma NothingCut(data: seq<byte>, from: nat)
    ensures Tiled(data, [], from, from)
  {
  }

  /** And what it finds is such a cut, if it ends where the roots begin. */
  lemma {:induction false} WalkCuts(data: seq<byte>, from: nat, end: nat, before: seq<Entry>) returns (es: seq<Entry>)
    requires forall e :: e in before ==> OBJ_STRING <= e.tc <= OBJ_USERDATA
    requires from <= end && IndexFrom(data, from, end, before).Indexed? && IndexFrom(data, from, end, before).pos == end
    ensures IndexFrom(data, from, end, before).entries == before + es && Tiled(data, es, from, end)
    decreases end - from
  {
    hide EntryAt, Tiled;
    if from == end {
      es := [];
      assert before + es == before;
      NothingCut(data, from);
    } else {
      var e := EntryAt(data, from, end).value;
      var next := EntryAt(data, from, end).next;
      HeaderIs(data, from, end);
      WalkForward(data, next, end, before + [e]);
      var rest := WalkCuts(data, next, end, before + [e]);
      es := [e] + rest;
      TiledCons(data, e, rest, from, end);
      assert before + [e] + rest == before + es;
    }
  }

  lemma {:induction false} WalkForward(data: seq<byte>, from: nat, end: nat, before: seq<Entry>)
    requires forall e :: e in before ==> OBJ_STRING <= e.tc <= OBJ_USERDATA
    requires IndexFrom(data, from, end, before).Indexed?
    ensures IndexFrom(data, from, end, before).pos >= from && IndexFrom(data, from, end, before).pos >= end
    decreases end - from
  {
    if from < end {
      var e := EntryAt(data, from, end).value;
      WalkForward(data, EntryAt(data, from, end).next, end, before + [e]);
    }
  }

  /** There is room for the roots exactly at their place. */
  lemma RootsRoom(data: seq<byte>, pos: nat)
    requires |data| >= FOOTER && pos >= |data| - FOOTER
    ensures ReadRoots(data, pos).Got? <==> pos == |data| - FOOTER
  {
    hide ReadAll;
    if pos + 8 <= |data| {
      WordsRoom(data, pos + 8, NUMTYPES);
    }
  }

  lemma {:induction false} WordsRoom(data: seq<byte>, pos: nat, n: nat)
    requires pos <= |data|
    ensures ReadAll(data, pos, n, U32).Got? <==> pos + 4 * n <= |data|
    ensures ReadAll(data, pos, n, U32).Got? ==> ReadAll(data, pos, n, U32).next == pos + 4 * n
  {
    if n > 0 {
      WordsRoom(data, pos, n - 1);
    }
  }

  // --------------------------------------------------------------------------- the verdict

  predicate RootsFit(types: seq<byte>, roots: Roots) {
    && (roots.main == 0 || (roots.main <= |types| && types[roots.main - 1] == 7))
    && IdOk(types, roots.registry, {2}) && IdsOk(types, roots.mt, {2})
  }

  function KindsOf(es: seq<Entry>): (ts: seq<byte>)
    ensures |ts| == |es| && forall i :: 0 <= i < |es| ==> ts[i] == es[i].tc
  {
    seq(|es|, i requires 0 <= i < |es| => es[i].tc)
  }

  /** The records of the buffer and its roots are what they must be. */
  ghost predicate Sensible(data: seq<byte>, env: Env, es: seq<Entry>) {
    && |data| >= HEADER + FOOTER && Tiled(data, es, HEADER, |data| - FOOTER)
    && (forall i :: 0 <= i < |es| ==> Fine(data, env, KindsOf(es), es[i]))
    && ReadRoots(data, |data| - FOOTER).Got? && RootsFit(KindsOf(es), ReadRoots(data, |data| - FOOTER).value)
  }

  ghost predicate Acceptable(data: seq<byte>, env: Env) {
    exists es :: Sensible(data, env, es)
  }

  lemma StringsAndUpvals(data: seq<byte>, env: Env, types: seq<byte>, e: Entry)
    requires OBJ_STRING <= e.tc <= OBJ_USERDATA
    ensures !IsFilled(e.tc) ==> (Fine(data, env, types, e) <==> Scans(data, e))
    ensures Fine(data, env, types, e) ==> InPlace(data, e) && Scans(data, e)
  {
    if Fine(data, env, types, e) {
      FineInPlace(data, env, types, e);
      ReadableScans(data, e);
    }
    hide ReadTable, ScanTable, ScanProto, ReadProto, ReadThread, ReadLClosure, ReadCClosure, ReadTv, ReadUd,
         ScanCClosure;
  }

  lemma BetweenStarts(data: seq<byte>, base: State, es: seq<Entry>, p: Created, c: Ctx, h: seq<Cell>)
    requires Made(base, es, p, |es|) && MadeTables(data, es, p, |es|) && c.ptr == p.ptr && c.types == KindsOf(es)
    requires forall i :: 0 <= i < |es| ==> OBJ_STRING <= es[i].tc <= OBJ_USERDATA
    requires |h| == |p.heap| > 0 && forall r :: 0 <= r < |h| ==> h[r].obj == p.heap[r].obj
    ensures Between(data, es, c, h)
  {
    hide SafeHeap, KindOf, Kind, Kept, TableFits;
    MadeIsTyped(base, es, p, c);
    ObjidsKept(p.heap, h);
    TypedStays(c, p.heap, h);
    IndexMatches(es, c, h);
    forall i | 0 <= i < |es| < |c.ptr| && es[i].tc == OBJ_TABLE
      ensures TableFits(data, es[i], h, c.ptr[i + 1])
    {
      assert 0 < c.ptr[i + 1] < |p.heap|;
      FitsStill(data, es[i], p.heap, h, c.ptr[i + 1]);
    }
  }

  lemma RelinkedVerdict(data: seq<byte>, env: Env, base: State, es: seq<Entry>, roots: Roots)
    requires SafeState(base) && roots.main <= |es| && (roots.main > 0 ==> es[roots.main - 1].tc == OBJ_THREAD)
    requires forall e :: e in es ==> OBJ_STRING <= e.tc <= OBJ_USERDATA
    ensures base.main < |base.heap|
    ensures Relinked(data, env, base, es, roots).Loaded? <==>
              && (forall i :: 0 <= i < |es| ==> Fine(data, env, KindsOf(es), es[i]))
              && IdOk(KindsOf(es), roots.registry, {2}) && IdsOk(KindsOf(es), roots.mt, {2})
    ensures AllInPlace(data, es) ==> !Relinked(data, env, base, es, roots).Undefined?
  {
    hide SafeState, CreateAll, FillAll, SetObjids, Resolve, ResolveAll, Fine, InPlace, Scans, IdOk, IdsOk, Made,
         MadeTables;
    hide Between, Matches;
    CreateAllSafe(data, base, es, roots.main, |es|);
    CreateVerdict(data, base, es, roots.main, |es|);
    forall i | 0 <= i < |es|
      ensures !IsFilled(es[i].tc) ==> (Fine(data, env, KindsOf(es), es[i]) <==> Scans(data, es[i]))
      ensures Fine(data, env, KindsOf(es), es[i]) ==> InPlace(data, es[i]) && Scans(data, es[i])
      ensures InPlace(data, es[i]) ==> Scans(data, es[i])
    {
      StringsAndUpvals(data, env, KindsOf(es), es[i]);
      if InPlace(data, es[i]) {
        ReadableScans(data, es[i]);
      }
    }
    var p := CreateAll(data, base, es, roots.main, |es|);
    if !p.failed && !p.undefined {
      var c := Ctx(seq(|es|, i requires 0 <= i < |es| => es[i].tc), p.ptr);
      assert c.types == KindsOf(es);
      var h := SetObjids(p.heap, es, p.ptr, |es|);
      BetweenStarts(data, base, es, p, c, h);
      BetweenValid(data, es, c, h);
      AllVerdict(data, env, es, c, Load(h, false, false), roots.main);
      IdVerdict(c, roots.registry);
      IdsVerdict(c, roots.mt);
    }
  }

  lemma BetweenValid(data: seq<byte>, es: seq<Entry>, c: Ctx, h: seq<Cell>)
    requires Between(data, es, c, h)
    ensures Matches(es, c, |h|) && c.Valid() && |es| == |c.types| && KindsInRange(c.types)
    ensures forall i :: 0 <= i < |c.ptr| ==> c.ptr[i] < |h|
  {
    hide Safe, KindsInRange, NoneNull, Sized, TablesApart;
  }

  /** For any bytes at all: a load accepts them exactly if they are cut into records of known kinds,
      every record can be read to its end and says what it must, and the roots name objects of the
      right kinds. */
  lemma AcceptsExactly(data: seq<byte>, env: Env, base: State)
    requires SafeState(base)
    ensures base.main < |base.heap|
    ensures LoadState(data, env, base).Loaded? <==> Acceptable(data, env)
  {
    hide SafeHeap, Relinked, IndexFrom, ReadRoots, UnLe, Fine, Tiled, RootsFit, IdOk, IdsOk;
    if |data| >= HEADER + FOOTER {
      var end := |data| - FOOTER;
      var x := IndexFrom(data, HEADER, end, []);
      if x.Indexed? {
        WalkForward(data, HEADER, end, []);
        RootsRoom(data, x.pos);
        RootsRoom(data, end);
        if x.pos == end {
          CutVerdict(data, env, base);
        }
      }
      forall es | Tiled(data, es, HEADER, end)
        ensures x == Indexed(es, end)
      {
        WalkFinds(data, es, HEADER, end, []);
        assert [] + es == es;
      }
    }
  }

  lemma LoadIsRelinked(data: seq<byte>, env: Env, base: State, es: seq<Entry>, roots: Roots)
    requires base.main < |base.heap| && |data| >= HEADER + FOOTER
    requires IndexFrom(data, HEADER, |data| - FOOTER, []) == Indexed(es, |data| - FOOTER)
    requires ReadRoots(data, |data| - FOOTER).Got? && ReadRoots(data, |data| - FOOTER).value == roots
    requires forall e :: e in es ==> OBJ_STRING <= e.tc <= OBJ_USERDATA
    ensures var ok := roots.main == 0 || (roots.main <= |es| && es[roots.main - 1].tc == OBJ_THREAD);
            && (LoadState(data, env, base).Loaded? <==> ok && Relinked(data, env, base, es, roots).Loaded?)
            && (LoadState(data, env, base).Undefined? <==> ok && Relinked(data, env, base, es, roots).Undefined?)
  {
    hide IndexFrom, ReadRoots, Relinked, UnLe;
  }

  lemma SensibleIs(data: seq<byte>, env: Env, es: seq<Entry>, roots: Roots)
    requires |data| >= HEADER + FOOTER && Tiled(data, es, HEADER, |data| - FOOTER)
    requires ReadRoots(data, |data| - FOOTER).Got? && ReadRoots(data, |data| - FOOTER).value == roots
    ensures Sensible(data, env, es) <==>
              && (roots.main == 0 || (roots.main <= |es| && es[roots.main - 1].tc == OBJ_THREAD))
              && (forall i :: 0 <= i < |es| ==> Fine(data, env, KindsOf(es), es[i]))
              && IdOk(KindsOf(es), roots.registry, {2}) && IdsOk(KindsOf(es), roots.mt, {2})
  {
    hide Tiled, ReadRoots, Fine, IdOk, IdsOk;
  }

  lemma CutVerdict(data: seq<byte>, env: Env, base: State)
    requires SafeState(base) && |data| >= HEADER + FOOTER
    requires IndexFrom(data, HEADER, |data| - FOOTER, []).Indexed?
    requires IndexFrom(data, HEADER, |data| - FOOTER, []).pos == |data| - FOOTER
    ensures base.main < |base.heap|
    ensures var es := IndexFrom(data, HEADER, |data| - FOOTER, []).entries;
            && Tiled(data, es, HEADER, |data| - FOOTER)
            && (LoadState(data, env, base).Loaded? <==> Sensible(data, env, es))
            && (AllInPlace(data, es) ==> !LoadState(data, env, base).Undefined?)
  {
    hide SafeHeap, Relinked, IndexFrom, ReadRoots, UnLe, Fine, Tiled, IdOk, IdsOk, LoadState, Sensible, AllInPlace;
    var end := |data| - FOOTER;
    var es := WalkCuts(data, HEADER, end, []);
    assert [] + es == es;
    RootsRoom(data, end);
    var roots := ReadRoots(data, end).value;
    LoadIsRelinked(data, env, base, es, roots);
    SensibleIs(data, env, es, roots);
    if roots.main == 0 || (roots.main <= |es| && es[roots.main - 1].tc == OBJ_THREAD) {
      RelinkedVerdict(data, env, base, es, roots);
    }
  }

  /** If every record that the buffer is cut into stands in its place, a load that does not accept the
      buffer refuses it: it never looks outside a buffer or stores outside an array. */
  lemma NeverUndefined(data: seq<byte>, env: Env, base: State)
    requires SafeState(base)
    requires |data| >= HEADER + FOOTER ==>
               forall es :: Tiled(data, es, HEADER, |data| - FOOTER) ==> AllInPlace(data, es)
    ensures base.main < |base.heap|
    ensures LoadState(data, env, base) == Failed <==> !Acceptable(data, env)
  {
    hide SafeHeap, Relinked, IndexFrom, ReadRoots, UnLe, Fine, Tiled, IdOk, IdsOk, Acceptable, AllInPlace;
    AcceptsExactly(data, env, base);
    if |data| >= HEADER + FOOTER {
      var end := |data| - FOOTER;
      var x := IndexFrom(data, HEADER, end, []);
      if x.Indexed? {
        WalkForward(data, HEADER, end, []);
        RootsRoom(data, x.pos);
        if x.pos == end {
          CutVerdict(data, env, base);
        }
      }
    }
  }
}
