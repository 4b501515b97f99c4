// Loading the bytes of a normal form gives its objects back, with pointers for ids.
module Restore {
  import opened Bytes
  import opened Heap
  import opened Wire
  import opened Records
  import opened Snapshot
  import opened WellFormed
  import opened NormalForm
  import opened LoadIndex
  import opened LoadSpec
  import opened LoadFill
  import opened LoadPasses
  import opened LoadRelink

  // ------------------------------------------------- from creation to filling

  lemma {:induction false} SetObjidsOk(h: seq<Cell>, nh: seq<Cell>, es: seq<Entry>, ptr: seq<Ref>, k: nat)
    requires k <= |es| && |ptr| == |es| + 1 && Apart(nh, ptr, |h|)
    requires forall i {:trigger es[i - 1]} :: 0 < i <= |es| ==> es[i - 1].objid == nh[i].objid
    ensures var h' := SetObjids(h, es, ptr, k);
            forall i {:trigger ptr[i]} :: 0 < i <= k ==> h'[ptr[i]].objid == nh[i].objid || HasTwin(nh, i)
  {
    if k > 0 {
      SetObjidsOk(h, nh, es, ptr, k - 1);
      var g := SetObjids(h, es, ptr, k - 1);
      var h' := SetObjids(h, es, ptr, k);
      assert es[k - 1].objid == nh[k].objid;
      forall i {:trigger ptr[i]} | 0 < i <= k
        ensures h'[ptr[i]].objid == nh[i].objid || HasTwin(nh, i)
      {
        assert i < k && ptr[i] == ptr[k] ==> Twins(nh, i, k);
      }
    }
  }

  lemma CreatedIsApart(base: State, nh: seq<Cell>, p: Created, main: nat)
    requires 0 < |nh| && CreatedOk(base, nh, p, main, |nh| - 1)
    ensures Apart(nh, p.ptr, |p.heap|)
  {
    forall i | 0 < i < |p.ptr|
      ensures 0 < p.ptr[i] < |p.heap|
    {
      assert BlankAt(base, nh, p.heap, p.ptr, main, i);
    }
  }

  lemma BlankIsStage(base: State, nh: seq<Cell>, env: Env, c: Ctx, h: seq<Cell>, main: nat, i: nat)
    requires GoodBase(base) && 0 < i < |nh| == |c.ptr| && FineAt(nh, env, i) && base.main < |h|
    requires 0 < main < |nh| && nh[main].obj.Thread?
    requires BlankAt(base, nh, h, c.ptr, main, i) && h[base.main].obj == base.heap[base.main].obj
    requires h[c.ptr[i]].objid == nh[i].objid || HasTwin(nh, i)
    ensures StageAt(c, nh, h, {}, i)
  {
    hide PtrMap, BlankTable, FineTable, FineProto, FineTvs, FineArm, FineTv, AllPointTo, PointsTo, NameOk, GoodOpens;
  }

  lemma StartOfFill(data: seq<byte>, env: Env, base: State, nh: seq<Cell>, es: seq<Entry>, p: Created,
        main: nat, c: Ctx)
    requires GoodBase(base) && Indexes(data, env, nh, es) && 0 < main < |nh| && nh[main].obj.Thread?
    requires CreatedOk(base, nh, p, main, |nh| - 1) && c.ptr == p.ptr
    ensures |es| + 1 == |p.ptr| == |nh|
    ensures Stage(c, nh, Load(SetObjids(p.heap, es, p.ptr, |es|), false, false), {})
  {
    CreatedIsApart(base, nh, p, main);
    var h := SetObjids(p.heap, es, p.ptr, |es|);
    forall i {:trigger es[i - 1]} | 0 < i <= |es|
      ensures es[i - 1].objid == nh[i].objid
    {
      assert EntryFor(data, env, nh, es[i - 1], i);
    }
    SetObjidsOk(p.heap, nh, es, p.ptr, |es|);
    assert h[base.main].obj == base.heap[base.main].obj;
    hide StageAt, BlankOf, FineAt, SetObjids, GoodBase;
    forall i | 0 < i < |nh|
      ensures StageAt(c, nh, h, {}, i)
    {
      assert BlankAt(base, nh, p.heap, p.ptr, main, i);
      BlankMoves(base, nh, p.heap, h, p.ptr, main, i);
      assert EntryFor(data, env, nh, es[i - 1], i);
      assert FineAt(nh, env, i) && (h[p.ptr[i]].objid == nh[i].objid || HasTwin(nh, i));
      BlankIsStage(base, nh, env, c, h, main, i);
    }
  }

  lemma BlankMoves(base: State, nh: seq<Cell>, h: seq<Cell>, h': seq<Cell>, ptr: seq<Ref>, main: nat, i: nat)
    requires i < |ptr| && i < |nh| && BlankAt(base, nh, h, ptr, main, i)
    requires |h'| == |h| && forall r :: 0 <= r < |h| ==> h'[r].obj == h[r].obj
    ensures BlankAt(base, nh, h', ptr, main, i)
  {
    hide BlankOf;
  }

  // -------------------------------------------------------- the parts of a file

  /** The objects of the normal form, with pointers for ids. */
  ghost predicate Refilled(n: State, h: seq<Cell>, ptr: seq<Ref>) {
    && Apart(n.heap, ptr, |h|)
    && forall i {:trigger ptr[i]} :: 0 < i < |n.heap| ==> 0 < ptr[i] < |h| && PutBack(n.heap, h[ptr[i]], ptr, i)
  }

  /** What a load must make of the normal form `n`. */
  ghost predicate Restores(n: State, st: State, ptr: seq<Ref>) {
    && Refilled(n, st.heap, ptr) && n.registry < |ptr| && n.main < |ptr|
    && st.registry == ptr[n.registry] && st.main == ptr[n.main] && st.mt == MapRefs(n.mt, PtrMap(ptr))
    && st.seed == n.seed && st.nextSeq == n.nextSeq
  }

  lemma StateParts(n: State, env: Env)
    requires |n.mt| == NUMTYPES
    ensures var data := EncState(n, env); var body := EncAll(WireRecs(n.heap, env), EncRec);
            && At(data, 0, Le(n.nextSeq, 8)) && At(data, 8, Le(n.seed, 4))
            && At(data, HEADER, body) && |data| == HEADER + |body| + FOOTER
            && At(data, HEADER + |body|, EncFooter(n))
  {
    var data := EncState(n, env);
    var body := EncAll(WireRecs(n.heap, env), EncRec);
    MtLength(WireIds(n.mt));
    hide EncAll, WireRecs, EncRec;
    assert data == Le(n.nextSeq, 8) + (Le(n.seed, 4) + (body + EncFooter(n)));
    assert At(data, 0, data);
    AtSplit(data, 0, Le(n.nextSeq, 8), Le(n.seed, 4) + (body + EncFooter(n)));
    AtSplit(data, 8, Le(n.seed, 4), body + EncFooter(n));
    AtSplit(data, 12, body, EncFooter(n));
  }

  lemma {:induction false} MtLength(ids: seq<u32>)
    ensures |EncAll(ids, EncU32)| == 4 * |ids|
  {
    if ids != [] {
      MtLength(ids[..|ids| - 1]);
    }
  }

  lemma RootsOk(data: seq<byte>, pos: nat, n: State)
    requires |n.mt| == NUMTYPES && At(data, pos, EncFooter(n))
    ensures ReadRoots(data, pos).Got?
    ensures ReadRoots(data, pos).value == Roots(Cast32(n.registry), Cast32(n.main), WireIds(n.mt))
  {
    hide EncAll, ReadAll, Inverts, Le, At;
    var mt := EncAll(WireIds(n.mt), EncU32);
    AtSplit(data, pos, EncU32(Cast32(n.registry)), EncU32(Cast32(n.main)) + mt);
    AtSplit(data, pos + 4, EncU32(Cast32(n.main)), mt);
    ReadsU32(data, pos, Cast32(n.registry));
    ReadsU32(data, pos + 4, Cast32(n.main));
    U32Inverts(WireIds(n.mt));
    ReadAllInverts(WireIds(n.mt), data, pos + 8, EncU32, U32);
  }

  lemma EntryIsFor(data: seq<byte>, env: Env, nh: seq<Cell>, e: Entry, i: nat)
    requires 0 < i < |nh| < 0x4000_0000 && FineAt(nh, env, i)
    requires var w := WireObj(nh, env, nh[i].obj); e.tc == Code(w) && e.objid == nh[i].objid && At(data, e.off, EncObj(w))
    ensures EntryFor(data, env, nh, e, i)
  {
    WireObjValid(nh, env, i);
    CodeIs(nh, env, nh[i].obj);
    hide FineAt, At, EncObj, WireObj, ValidObj, PlainObj, ReadObj, TypeCode;
    ReadsObj(data, e.off, WireObj(nh, env, nh[i].obj));
  }

  lemma CodeIs(nh: seq<Cell>, env: Env, o: Obj)
    ensures Code(WireObj(nh, env, o)) == TypeCode(o)
  {
  }

  lemma EntriesAreFor(data: seq<byte>, env: Env, nh: seq<Cell>, recs: seq<Rec>, es: seq<Entry>)
    requires 0 < |nh| < 0x4000_0000 && recs == WireRecs(nh, env) && es == EntriesOf(recs, |recs|)
    requires forall i :: 0 < i < |nh| ==> FineAt(nh, env, i)
    requires forall i :: 0 <= i < |recs| ==> At(data, es[i].off, EncObj(recs[i].w))
    ensures Indexes(data, env, nh, es)
  {
    hide FineAt, WireObj, EncObj, EncAll, EncRec, At, StartOf, EntryFor, Code;
    forall i {:trigger es[i - 1]} {:trigger nh[i]} | 0 < i < |nh|
      ensures EntryFor(data, env, nh, es[i - 1], i)
    {
      var w := recs[i - 1];
      assert w == Rec(nh[i].objid, WireObj(nh, env, nh[i].obj));
      EntryIsFor(data, env, nh, es[i - 1], i);
    }
  }

  lemma IndexedOk(data: seq<byte>, n: State, env: Env)
    requires FineNormal(n, env) && ShortRecords(WireRecs(n.heap, env)) && data == EncState(n, env)
    ensures var recs := WireRecs(n.heap, env); var es := EntriesOf(recs, |recs|); var end := HEADER + |EncAll(recs, EncRec)|;
            && IndexFrom(data, HEADER, end, []) == Indexed(es, end)
            && Indexes(data, env, n.heap, es) && |data| == end + FOOTER
  {
    hide *;
    FineParts(n, env);
    StateParts(n, env);
    var recs := WireRecs(n.heap, env);
    IndexFinds(data, recs);
    EntriesAreFor(data, env, n.heap, recs, EntriesOf(recs, |recs|));
  }

  lemma FineParts(n: State, env: Env)
    requires FineNormal(n, env)
    ensures 0 < |n.heap| < 0x4000_0000 && |WireRecs(n.heap, env)| == |n.heap| - 1 && |n.mt| == NUMTYPES
    ensures forall i :: 0 < i < |n.heap| ==> FineAt(n.heap, env, i)
  {
    hide FineAt;
  }

  // ---------------------------------------------------------------- the load

  /** The kinds of the records, as the loader keeps them. */
  function Kinds(es: seq<Entry>): (ts: seq<byte>)
    ensures |ts| == |es| && forall i :: 0 <= i < |es| ==> ts[i] == es[i].tc
  {
    seq(|es|, i requires 0 <= i < |es| => es[i].tc)
  }

  lemma KindsAreFor(data: seq<byte>, env: Env, nh: seq<Cell>, es: seq<Entry>, ptr: seq<Ref>)
    requires Indexes(data, env, nh, es) && |ptr| == |nh| && ptr[0] == NULL
    ensures CtxFor(Ctx(Kinds(es), ptr), nh)
  {
    hide FineAt;
    forall i {:trigger Kinds(es)[i - 1]} {:trigger nh[i].obj} | 0 < i < |nh|
      ensures Kinds(es)[i - 1] == TypeCode(nh[i].obj)
    {
      assert EntryFor(data, env, nh, es[i - 1], i);
    }
  }

  lemma CreatedParts(base: State, nh: seq<Cell>, p: Created, main: nat)
    requires GoodBase(base) && 0 < main < |nh| && CreatedOk(base, nh, p, main, |nh| - 1)
    ensures |p.ptr| == |nh| && p.ptr[0] == NULL && !p.failed && !p.undefined && p.ptr[main] == base.main
  {
    hide BlankOf;
    assert BlankAt(base, nh, p.heap, p.ptr, main, main);
  }

  /** The fill passes over the blank objects of a snapshot. */
  lemma FilledOk(data: seq<byte>, env: Env, base: State, nh: seq<Cell>, es: seq<Entry>, p: Created, main: nat, c: Ctx)
    requires GoodBase(base) && Indexes(data, env, nh, es) && 0 < main < |nh| && nh[main].obj.Thread?
    requires CreatedOk(base, nh, p, main, |nh| - 1) && c.ptr == p.ptr && CtxFor(c, nh)
    ensures |es| + 1 == |p.ptr| == |nh|
    ensures var l := Load(SetObjids(p.heap, es, p.ptr, |es|), false, false);
            && Ready(nh, es, c, |l.heap|)
            && var l' := FillAll(data, env, es, c, l, main);
            && !l'.error && !l'.undefined && Apart(nh, p.ptr, |l'.heap|)
            && forall i {:trigger p.ptr[i]} :: 0 < i < |nh| ==>
                 0 < p.ptr[i] < |l'.heap| && PutBack(nh, l'.heap[p.ptr[i]], p.ptr, i)
  {
    hide *;
    StartOfFill(data, env, base, nh, es, p, main, c);
    var l := Load(SetObjids(p.heap, es, p.ptr, |es|), false, false);
    AllFine(data, env, nh, es);
    StageIsReady(data, env, nh, es, c, l, {});
    ReadyParts(nh, es, c, |l.heap|);
    var done := FillAllOk(data, env, nh, es, c, l, main);
    AllFilled(nh, env, c, FillAll(data, env, es, c, l, main), done);
  }

  /** The fill passes can run. */
  lemma ReadyParts(nh: seq<Cell>, es: seq<Entry>, c: Ctx, size: nat)
    requires Ready(nh, es, c, size)
    ensures c.Valid() && |es| == |c.types| == |nh| - 1
    ensures forall i :: 0 <= i < |c.ptr| ==> c.ptr[i] < size
    ensures forall i :: 0 <= i < |es| ==> OBJ_STRING <= es[i].tc <= OBJ_USERDATA
  {
  }

  lemma BaseParts(base: State)
    requires GoodBase(base)
    ensures 0 < base.main < |base.heap|
  {
  }

  lemma AllFine(data: seq<byte>, env: Env, nh: seq<Cell>, es: seq<Entry>)
    requires Indexes(data, env, nh, es)
    ensures forall i :: 0 < i < |nh| ==> FineAt(nh, env, i)
    ensures |es| == |nh| - 1 && 0 < |nh|
  {
    hide FineAt, EntryFor;
  }

  lemma FineRoots(n: State, env: Env)
    requires FineNormal(n, env)
    ensures 0 < n.registry < |n.heap| && n.heap[n.registry].obj.Table?
    ensures 0 < n.main < |n.heap| && n.heap[n.main].obj.Thread?
    ensures |n.mt| == NUMTYPES && AllPointTo(n.heap, n.mt, IsTable)
    ensures Cast32(n.registry) == n.registry && Cast32(n.main) == n.main
  {
    hide FineAt, AllPointTo;
  }

  lemma RelinkedIs(data: seq<byte>, env: Env, base: State, es: seq<Entry>, roots: Roots)
    requires forall e :: e in es ==> OBJ_STRING <= e.tc <= OBJ_USERDATA
    requires roots.main <= |es| && base.main < |base.heap|
    requires var p := CreateAll(data, base, es, roots.main, |es|); !p.undefined && !p.failed
    ensures var p := CreateAll(data, base, es, roots.main, |es|);
            var c := Ctx(Kinds(es), p.ptr);
            var l := FillAll(data, env, es, c, Load(SetObjids(p.heap, es, p.ptr, |es|), false, false), roots.main);
            var registry := Resolve(c, roots.registry, OBJ_TABLE);
            var mts := ResolveAll(c, roots.mt, OBJ_TABLE);
            !l.undefined && !l.error && !registry.err && !mts.err && registry.v != NULL ==>
              Relinked(data, env, base, es, roots) == Loaded(State(l.heap, registry.v, base.main, mts.v, 0, 0), p.ptr)
  {
    hide CreateAll, FillAll, SetObjids, Resolve, ResolveAll;
    assert Kinds(es) == seq(|es|, i requires 0 <= i < |es| => es[i].tc);
  }

  lemma LookRoot(c: Ctx, nh: seq<Cell>, r: Ref)
    requires CtxFor(c, nh) && 0 < r < |nh|
    ensures Look(PtrMap(c.ptr), r) == c.ptr[r]
  {
  }

  lemma RootsResolve(n: State, env: Env, c: Ctx, size: nat)
    requires FineNormal(n, env) && CtxFor(c, n.heap) && Apart(n.heap, c.ptr, size)
    ensures n.registry < |c.ptr| && c.ptr[n.registry] != NULL
    ensures Resolve(c, Cast32(n.registry), OBJ_TABLE) == Res(c.ptr[n.registry], false)
    ensures ResolveAll(c, WireIds(n.mt), OBJ_TABLE) == Res(MapRefs(n.mt, PtrMap(c.ptr)), false)
  {
    FineRoots(n, env);
    LookRoot(c, n.heap, n.registry);
    ResolveTables(c, n.heap, n.mt);
    hide FineNormal, ResolveAll, MapRefs, PtrMap;
    ResolveTable(c, n.heap, n.registry);
  }

  lemma IndexKinds(data: seq<byte>, env: Env, nh: seq<Cell>, es: seq<Entry>)
    requires Indexes(data, env, nh, es)
    ensures forall e :: e in es ==> OBJ_STRING <= e.tc <= OBJ_USERDATA
    ensures forall i {:trigger es[i - 1]} :: 0 < i < |nh| && nh[i].obj.Thread? ==> es[i - 1].tc == OBJ_THREAD
  {
    hide FineAt;
    forall i | 0 <= i < |es|
      ensures OBJ_STRING <= es[i].tc <= OBJ_USERDATA
    {
      assert EntryFor(data, env, nh, es[i + 1 - 1], i + 1);
      WireKind(nh, env, nh[i + 1].obj);
    }
    forall i {:trigger es[i - 1]} | 0 < i < |nh| && nh[i].obj.Thread?
      ensures es[i - 1].tc == OBJ_THREAD
    {
      assert EntryFor(data, env, nh, es[i - 1], i);
    }
  }

  lemma CreatesOk(data: seq<byte>, env: Env, base: State, n: State, es: seq<Entry>, p: Created)
    requires FineNormal(n, env) && GoodBase(base) && Indexes(data, env, n.heap, es) && |es| + 1 == |n.heap|
    requires n.main <= |es| && base.main < |base.heap| && p == CreateAll(data, base, es, n.main, |es|)
    ensures !p.undefined && !p.failed
    ensures CtxFor(Ctx(Kinds(es), p.ptr), n.heap) && CreatedOk(base, n.heap, p, n.main, |es|)
    ensures 0 < n.main < |p.ptr| == |n.heap| && p.ptr[n.main] == base.main
  {
    hide *;
    FineRoots(n, env);
    CreateAllOk(data, env, base, n.heap, es, n.main, |es|);
    CreatedParts(base, n.heap, p, n.main);
    KindsAreFor(data, env, n.heap, es, p.ptr);
  }

  /** What the passes over a snapshot come to. */
  lemma PassesOk(data: seq<byte>, env: Env, base: State, n: State, es: seq<Entry>, p: Created, c: Ctx)
    requires FineNormal(n, env) && GoodBase(base) && Indexes(data, env, n.heap, es) && |es| + 1 == |n.heap|
    requires n.main <= |es| && base.main < |base.heap|
    requires p == CreateAll(data, base, es, n.main, |es|) && c == Ctx(Kinds(es), p.ptr)
    ensures !p.undefined && !p.failed && CtxFor(c, n.heap)
    ensures 0 < n.main < |p.ptr| == |n.heap| && p.ptr[n.main] == base.main
    ensures Ready(n.heap, es, c, |SetObjids(p.heap, es, p.ptr, |es|)|)
    ensures var l := FillAll(data, env, es, c, Load(SetObjids(p.heap, es, p.ptr, |es|), false, false), n.main);
            !l.error && !l.undefined && Refilled(n, l.heap, p.ptr)
  {
    hide *;
    FineRoots(n, env);
    CreatesOk(data, env, base, n, es, p);
    FilledOk(data, env, base, n.heap, es, p, n.main, c);
    ReadyParts(n.heap, es, c, |SetObjids(p.heap, es, p.ptr, |es|)|);
    IsRefilled(n, FillAll(data, env, es, c, Load(SetObjids(p.heap, es, p.ptr, |es|), false, false), n.main).heap, p.ptr);
  }

  lemma IsRefilled(n: State, h: seq<Cell>, ptr: seq<Ref>)
    requires Apart(n.heap, ptr, |h|)
    requires forall i {:trigger ptr[i]} :: 0 < i < |n.heap| ==> 0 < ptr[i] < |h| && PutBack(n.heap, h[ptr[i]], ptr, i)
    ensures Refilled(n, h, ptr)
  {
  }

  lemma RestoredBy(n: State, h: seq<Cell>, ptr: seq<Ref>)
    requires Refilled(n, h, ptr) && n.registry < |ptr| && n.main < |ptr|
    ensures Restores(n, State(h, ptr[n.registry], ptr[n.main], MapRefs(n.mt, PtrMap(ptr)), n.seed, n.nextSeq), ptr)
    ensures Apart(n.heap, ptr, |h|)
  {
    hide Apart, PutBack, LoadedAs, MapRefs, PtrMap;
  }

  lemma RelinkedOk(data: seq<byte>, env: Env, base: State, n: State, es: seq<Entry>, roots: Roots)
    requires FineNormal(n, env) && GoodBase(base) && Indexes(data, env, n.heap, es)
    requires roots == Roots(Cast32(n.registry), Cast32(n.main), WireIds(n.mt))
    ensures roots.main <= |es| && base.main < |base.heap|
    ensures forall e :: e in es ==> OBJ_STRING <= e.tc <= OBJ_USERDATA
    ensures var r := Relinked(data, env, base, es, roots);
            r.Loaded? && Restores(n, r.state.(seed := n.seed, nextSeq := n.nextSeq), r.ptr)
  {
    hide *;
    FineRoots(n, env);
    IndexKinds(data, env, n.heap, es);
    AllFine(data, env, n.heap, es);
    BaseParts(base);
    var p := CreateAll(data, base, es, n.main, |es|);
    var c := Ctx(Kinds(es), p.ptr);
    PassesOk(data, env, base, n, es, p, c);
    ReadyParts(n.heap, es, c, |SetObjids(p.heap, es, p.ptr, |es|)|);
    var l := FillAll(data, env, es, c, Load(SetObjids(p.heap, es, p.ptr, |es|), false, false), n.main);
    RestoredBy(n, l.heap, p.ptr);
    RootsResolve(n, env, c, |l.heap|);
    RelinkedIs(data, env, base, es, roots);
  }

  lemma NumberOk(data: seq<byte>, pos: nat, v: nat, k: nat)
    requires At(data, pos, Le(v, k))
    ensures pos + k <= |data| && UnLe(data[pos..pos + k]) == v % Pow256(k)
  {
    LeTruncates(v, k);
    hide Le, UnLe, Pow256;
  }

  lemma SeedOk(data: seq<byte>, n: State)
    requires At(data, 0, Le(n.nextSeq, 8)) && At(data, 8, Le(n.seed, 4))
    ensures UnLe(data[8..12]) % 0x1_0000_0000 == n.seed && UnLe(data[..8]) % SIZE_MAX1 == n.nextSeq
  {
    hide Le, UnLe, Pow256, At;
    NumberOk(data, 0, n.nextSeq, 8);
    NumberOk(data, 8, n.seed, 4);
    Pow256Values();
    assert data[..8] == data[0..8];
  }

  lemma LoadIs(data: seq<byte>, env: Env, base: State, es: seq<Entry>, roots: Roots)
    requires base.main < |base.heap| && |data| >= HEADER + FOOTER
    requires IndexFrom(data, HEADER, |data| - FOOTER, []) == Indexed(es, |data| - FOOTER)
    requires ReadRoots(data, |data| - FOOTER).Got? && ReadRoots(data, |data| - FOOTER).value == roots
    requires 0 < roots.main <= |es| && es[roots.main - 1].tc == OBJ_THREAD
    requires forall e :: e in es ==> OBJ_STRING <= e.tc <= OBJ_USERDATA
    requires Relinked(data, env, base, es, roots).Loaded?
    ensures var r := Relinked(data, env, base, es, roots);
            LoadState(data, env, base)
            == Loaded(r.state.(seed := UnLe(data[8..12]) % 0x1_0000_0000, nextSeq := UnLe(data[..8]) % SIZE_MAX1), r.ptr)
  {
    hide IndexFrom, ReadRoots, Relinked, UnLe;
  }

  lemma SnapshotParses(data: seq<byte>, env: Env, n: State, es: seq<Entry>)
    requires FineNormal(n, env) && ShortRecords(WireRecs(n.heap, env)) && data == EncState(n, env)
    requires es == EntriesOf(WireRecs(n.heap, env), |WireRecs(n.heap, env)|)
    ensures |data| >= HEADER + FOOTER && Indexes(data, env, n.heap, es)
    ensures IndexFrom(data, HEADER, |data| - FOOTER, []) == Indexed(es, |data| - FOOTER)
    ensures ReadRoots(data, |data| - FOOTER).Got?
    ensures ReadRoots(data, |data| - FOOTER).value == Roots(Cast32(n.registry), Cast32(n.main), WireIds(n.mt))
  {
    hide *;
    FineRoots(n, env);
    StateParts(n, env);
    IndexedOk(data, n, env);
    RootsOk(data, |data| - FOOTER, n);
  }

  /** Loading what a save wrote restores every object of the normal form, the roots,
      the seed and the sequence counter. */
  lemma LoadRestores(n: State, env: Env, base: State)
    requires FineNormal(n, env) && ShortRecords(WireRecs(n.heap, env)) && GoodBase(base)
    ensures 0 < base.main < |base.heap|
    ensures var r := LoadState(EncState(n, env), env, base);
            r.Loaded? && Restores(n, r.state, r.ptr)
  {
    hide *;
    var data := EncState(n, env);
    BaseParts(base);
    FineRoots(n, env);
    StateParts(n, env);
    var es := EntriesOf(WireRecs(n.heap, env), |WireRecs(n.heap, env)|);
    SnapshotParses(data, env, n, es);
    var roots := Roots(Cast32(n.registry), Cast32(n.main), WireIds(n.mt));
    RelinkedOk(data, env, base, n, es, roots);
    IndexKinds(data, env, n.heap, es);
    assert es[n.main - 1].tc == OBJ_THREAD;
    LoadIs(data, env, base, es, roots);
    SeedOk(data, n);
  }
}
