// Filling an object from its record gives the object back, with pointers for ids.
module LoadFill {
  import opened Words
  import opened Bytes
  import opened Heap
  import opened Wire
  import opened TableRecords
  import opened Records
  import opened Snapshot
  import opened WellFormed
  import opened NormalForm
  import opened LoadSpec

  /** `c` describes the objects of the normal form `nh`. */
  ghost predicate CtxFor(c: Ctx, nh: seq<Cell>) {
    && c.Valid() && 0 < |nh| < 0x4000_0000 && |c.types| == |nh| - 1
    && forall i {:trigger c.types[i - 1]} {:trigger nh[i].obj} :: 0 < i < |nh| ==> c.types[i - 1] == TypeCode(nh[i].obj)
  }

  /** From ids to pointers. */
  function PtrMap(ptr: seq<Ref>): map<Ref, Ref> {
    map id: Ref | 0 < id < |ptr| :: ptr[id]
  }

  lemma LookPtr(c: Ctx, nh: seq<Cell>, id: Ref)
    requires CtxFor(c, nh) && id < |nh|
    ensures Look(PtrMap(c.ptr), id) == c.ptr[id]
  {
  }

  lemma ResolveTable(c: Ctx, nh: seq<Cell>, r: Ref)
    requires CtxFor(c, nh) && PointsTo(nh, r, IsTable)
    ensures Resolve(c, Cast32(r), OBJ_TABLE) == Res(Look(PtrMap(c.ptr), r), false)
  {
    LookPtr(c, nh, r);
  }

  lemma ResolveProto(c: Ctx, nh: seq<Cell>, r: Ref)
    requires CtxFor(c, nh) && PointsTo(nh, r, IsProto)
    ensures Resolve(c, Cast32(r), OBJ_PROTO) == Res(Look(PtrMap(c.ptr), r), false)
  {
    LookPtr(c, nh, r);
  }

  lemma ResolveStr(c: Ctx, nh: seq<Cell>, r: Ref)
    requires CtxFor(c, nh) && PointsTo(nh, r, IsStr)
    ensures Resolve(c, Cast32(r), OBJ_STRING) == Res(Look(PtrMap(c.ptr), r), false)
  {
    LookPtr(c, nh, r);
  }

  lemma ResolveUpval(c: Ctx, nh: seq<Cell>, r: Ref)
    requires CtxFor(c, nh) && PointsTo(nh, r, IsUpval)
    ensures Resolve(c, Cast32(r), RESOLVE_UPVAL) == Res(Look(PtrMap(c.ptr), r), false)
  {
    LookPtr(c, nh, r);
  }

  lemma ResolveAny(c: Ctx, nh: seq<Cell>, r: Ref)
    requires CtxFor(c, nh) && r < |nh|
    ensures Resolve(c, Cast32(r), RESOLVE_ANY) == Res(Look(PtrMap(c.ptr), r), false)
  {
    LookPtr(c, nh, r);
  }

  // ------------------------------------------------------------------- values

  lemma BaseTypes(o: Obj)
    ensures BaseType(TypeCode(o)) == TagOf(o) % 0x10
  {
  }

  lemma FillTvOk(c: Ctx, nh: seq<Cell>, env: Env, v: TValue)
    requires CtxFor(c, nh) && FineTv(nh, env, v)
    ensures FillTv(c, env, WireTv(nh, env, v)) == Res(MapTv(v, PtrMap(c.ptr)), false)
  {
    if v.Gc? {
      LookPtr(c, nh, v.ref);
      BaseTypes(nh[v.ref].obj);
      assert c.types[v.ref - 1] == TypeCode(nh[v.ref].obj);
    }
  }

  lemma {:induction false} FillTvsOk(c: Ctx, nh: seq<Cell>, env: Env, vs: seq<TValue>)
    requires CtxFor(c, nh) && FineTvs(nh, env, vs)
    ensures FillTvs(c, env, WireTvs(nh, env, vs)) == Res(MapTvs(vs, PtrMap(c.ptr)), false)
  {
    hide CtxFor, WireTv, FillTv, FineTv, PtrMap, MapTv;
    if vs != [] {
      var k := |vs| - 1;
      FillTvsOk(c, nh, env, vs[..k]);
      FillTvOk(c, nh, env, vs[k]);
      assert WireTvs(nh, env, vs)[..k] == WireTvs(nh, env, vs[..k]);
      assert MapTvs(vs, PtrMap(c.ptr)) == MapTvs(vs[..k], PtrMap(c.ptr)) + [MapTv(vs[k], PtrMap(c.ptr))];
    }
  }

  lemma {:induction false} ResolveProtos(c: Ctx, nh: seq<Cell>, rs: seq<Ref>)
    requires CtxFor(c, nh) && AllPointTo(nh, rs, IsProto)
    ensures ResolveAll(c, WireIds(rs), OBJ_PROTO) == Res(MapRefs(rs, PtrMap(c.ptr)), false)
  {
    hide CtxFor, Resolve, PtrMap, Look, PointsTo;
    if rs != [] {
      var k := |rs| - 1;
      ResolveProtos(c, nh, rs[..k]);
      ResolveProto(c, nh, rs[k]);
      assert WireIds(rs)[..k] == WireIds(rs[..k]);
      assert MapRefs(rs, PtrMap(c.ptr)) == MapRefs(rs[..k], PtrMap(c.ptr)) + [Look(PtrMap(c.ptr), rs[k])];
    }
  }

  lemma {:induction false} ResolveUpvals(c: Ctx, nh: seq<Cell>, rs: seq<Ref>)
    requires CtxFor(c, nh) && AllPointTo(nh, rs, IsUpval)
    ensures ResolveAll(c, WireIds(rs), RESOLVE_UPVAL) == Res(MapRefs(rs, PtrMap(c.ptr)), false)
  {
    hide CtxFor, Resolve, PtrMap, Look, PointsTo;
    if rs != [] {
      var k := |rs| - 1;
      ResolveUpvals(c, nh, rs[..k]);
      ResolveUpval(c, nh, rs[k]);
      assert WireIds(rs)[..k] == WireIds(rs[..k]);
      assert MapRefs(rs, PtrMap(c.ptr)) == MapRefs(rs[..k], PtrMap(c.ptr)) + [Look(PtrMap(c.ptr), rs[k])];
    }
  }

  lemma {:induction false} ResolveTables(c: Ctx, nh: seq<Cell>, rs: seq<Ref>)
    requires CtxFor(c, nh) && AllPointTo(nh, rs, IsTable)
    ensures ResolveAll(c, WireIds(rs), OBJ_TABLE) == Res(MapRefs(rs, PtrMap(c.ptr)), false)
  {
    hide CtxFor, Resolve, PtrMap, Look, PointsTo;
    if rs != [] {
      var k := |rs| - 1;
      ResolveTables(c, nh, rs[..k]);
      ResolveTable(c, nh, rs[k]);
      assert WireIds(rs)[..k] == WireIds(rs[..k]);
      assert MapRefs(rs, PtrMap(c.ptr)) == MapRefs(rs[..k], PtrMap(c.ptr)) + [Look(PtrMap(c.ptr), rs[k])];
    }
  }

  // ------------------------------------------------------------------- tables

  lemma {:induction false} PowerIsExact(n: nat)
    requires PowerOfTwo(n)
    ensures CeilPow2(n) == n
  {
    if n > 1 {
      var k: nat :| n == Pow2(k);
      assert n / 2 == Pow2(k - 1) && (n + 1) / 2 == n / 2;
      PowerIsExact(n / 2);
    }
  }

  function Empties(n: nat): (s: seq<TValue>)
    ensures |s| == n && forall i :: 0 <= i < n ==> s[i] == Empty
  {
    seq(n, i => Empty)
  }

  function Frees(n: nat): (s: seq<Node>)
    ensures |s| == n && forall i :: 0 <= i < n ==> s[i] == Free
  {
    seq(n, i => Free)
  }

  lemma ItemsSnoc(c: Ctx, env: Env, arr: seq<TValue>, ws: seq<WItem>, w: WItem)
    requires c.Valid()
    ensures var init := FillItems(c, env, arr, ws); var last := FillItem(c, env, init.v, w);
            FillItems(c, env, arr, ws + [w]) == Res(last.v, init.err || last.err)
  {
    hide FillItem;
    assert (ws + [w])[..|ws|] == ws;
  }

  lemma WireItemsSnoc(nh: seq<Cell>, env: Env, arr: seq<TValue>, k: nat)
    requires k < |arr|
    ensures var init := WireItems(nh, env, arr[..k]);
            WireItems(nh, env, arr[..k + 1])
            == if IsNil(arr[k]) then init else init + [WItem(Cast32(k), WireTv(nh, env, arr[k]))]
  {
    assert arr[..k + 1][..k] == arr[..k];
  }

  /** The array part when its first `k` slots have been filled. */
  ghost function Partly(arr: seq<TValue>, pm: map<Ref, Ref>, k: nat): (r: seq<TValue>)
    requires k <= |arr|
    ensures |r| == |arr|
  {
    MapTvs(arr[..k], pm) + Empties(|arr| - k)
  }

  lemma PartlyGrows(arr: seq<TValue>, pm: map<Ref, Ref>, k: nat)
    requires k < |arr|
    ensures Partly(arr, pm, k + 1) == Partly(arr, pm, k)[k := MapTv(arr[k], pm)]
    ensures arr[k] == Empty ==> Partly(arr, pm, k + 1) == Partly(arr, pm, k)
  {
  }

  lemma ItemStep(c: Ctx, nh: seq<Cell>, env: Env, arr: seq<TValue>, k: nat)
    requires CtxFor(c, nh) && |arr| < 0x8000_0000 && k < |arr| && FineTv(nh, env, arr[k])
    ensures var pm := PtrMap(c.ptr);
            FillItem(c, env, Partly(arr, pm, k), WItem(Cast32(k), WireTv(nh, env, arr[k]))) == Res(Partly(arr, pm, k + 1), false)
  {
    hide CtxFor, WireTv, FillTv, PtrMap, MapTv, Partly;
    FillTvOk(c, nh, env, arr[k]);
    PartlyGrows(arr, PtrMap(c.ptr), k);
  }

  lemma {:induction false} ItemsOk(c: Ctx, nh: seq<Cell>, env: Env, arr: seq<TValue>, k: nat)
    requires CtxFor(c, nh) && |arr| < 0x8000_0000 && k <= |arr|
    requires forall i :: 0 <= i < |arr| ==> FineSlot(nh, env, arr[i])
    ensures FillItems(c, env, Empties(|arr|), WireItems(nh, env, arr[..k])) == Res(Partly(arr, PtrMap(c.ptr), k), false)
  {
    assert c.Valid();
    hide CtxFor, WireTv, FillTv, FineTv, PtrMap, MapTv, WireItems, FillItems, FillItem, Partly, Cast32;
    var pm := PtrMap(c.ptr);
    if k == 0 {
      NoItemsYet(c, nh, env, arr, pm);
    } else {
      var init := WireItems(nh, env, arr[..k - 1]);
      ItemsOk(c, nh, env, arr, k - 1);
      WireItemsSnoc(nh, env, arr, k - 1);
      if IsNil(arr[k - 1]) {
        PartlyGrows(arr, pm, k - 1);
      } else {
        ItemStep(c, nh, env, arr, k - 1);
        ItemsSnoc(c, env, Empties(|arr|), init, WItem(Cast32(k - 1), WireTv(nh, env, arr[k - 1])));
      }
    }
  }

  lemma NoItemsYet(c: Ctx, nh: seq<Cell>, env: Env, arr: seq<TValue>, pm: map<Ref, Ref>)
    requires c.Valid()
    ensures FillItems(c, env, Empties(|arr|), WireItems(nh, env, arr[..0])) == Res(Partly(arr, pm, 0), false)
  {
    assert WireItems(nh, env, arr[..0]) == [];
    assert Partly(arr, pm, 0) == Empties(|arr|);
  }

  lemma FillSlotOk(c: Ctx, nh: seq<Cell>, env: Env, n: Nodes, e: nat, size: nat, node: Node)
    requires CtxFor(c, nh) && FineNode(nh, env, node, e, size) && e < |n.nodes|
    ensures FillSlot(c, env, n, e, size, WireSlot(nh, env, node))
         == if node.Free? then n else n.(nodes := n.nodes[e := MapNode(node, PtrMap(c.ptr))])
  {
    if node.Node? {
      FillValOk(c, nh, env, node.val);
      match node.key
      case Live(k) =>
        FillTvOk(c, nh, env, k);
        hide CtxFor, WireTv, FillVal, FillTv, FineTv, PtrMap, Look;
      case Dead(id) =>
        ResolveAny(c, nh, id);
        hide CtxFor, WireTv, FillVal, FillTv, FineTv, PtrMap, Look, Resolve;
    }
  }

  lemma FillValOk(c: Ctx, nh: seq<Cell>, env: Env, v: TValue)
    requires CtxFor(c, nh) && (IsNil(v) || FineTv(nh, env, v))
    ensures FillVal(c, env, WireTv(nh, env, v)) == Res(MapTv(v, PtrMap(c.ptr)), false)
  {
    if !IsNil(v) {
      FillTvOk(c, nh, env, v);
      WireTvValid(nh, env, v);
    }
  }

  lemma {:induction false} SlotsOk(c: Ctx, nh: seq<Cell>, env: Env, nodes: seq<Node>, k: nat)
    requires CtxFor(c, nh) && k <= |nodes|
    requires forall i :: 0 <= i < |nodes| ==> FineNode(nh, env, nodes[i], i, |nodes|)
    ensures FillSlots(c, env, Nodes(Frees(|nodes|), false, false), |nodes|, WireSlots(nh, env, nodes)[..k])
         == Nodes(MapNodes(nodes[..k], PtrMap(c.ptr)) + Frees(|nodes| - k), false, false)
  {
    hide CtxFor, FillSlot, WireSlot, MapNode, FineNode, PtrMap;
    var pm := PtrMap(c.ptr);
    var ws := WireSlots(nh, env, nodes);
    if k > 0 {
      SlotsOk(c, nh, env, nodes, k - 1);
      assert ws[..k][..k - 1] == ws[..k - 1];
      var before := MapNodes(nodes[..k - 1], pm) + Frees(|nodes| - k + 1);
      var after := MapNodes(nodes[..k], pm) + Frees(|nodes| - k);
      FillSlotOk(c, nh, env, Nodes(before, false, false), k - 1, |nodes|, nodes[k - 1]);
      if nodes[k - 1].Free? {
        MapFree(pm);
        assert before == after;
      } else {
        assert before[k - 1 := MapNode(nodes[k - 1], pm)] == after;
      }
    }
  }

  lemma MapFree(m: map<Ref, Ref>)
    ensures MapNode(Free, m) == Free
  {
  }

  /** A table's blank has the size of the table. */
  lemma BlankIsSized(nodes: seq<Node>, asize: nat)
    requires nodes == [] || PowerOfTwo(|nodes|)
    ensures BlankTable(TableSize(asize, |nodes|)) == Table(Empties(asize), Frees(|nodes|), NULL)
  {
    if nodes != [] {
      PowerIsExact(|nodes|);
    }
  }

  lemma FillTableOk(c: Ctx, nh: seq<Cell>, env: Env, arr: seq<TValue>, nodes: seq<Node>, mt: Ref)
    requires CtxFor(c, nh) && FineTable(nh, env, arr, nodes, mt)
    ensures var w := WTable(WireItems(nh, env, arr), WireSlots(nh, env, nodes), Cast32(mt), Cast32(|arr|));
            FillTable(c, env, BlankTable(TableSize(|arr|, |nodes|)), w)
            == Filled(MapObj(Table(arr, nodes, mt), PtrMap(c.ptr)), false, false)
  {
    BlankIsSized(nodes, |arr|);
    hide CtxFor, WireItems, WireSlot, FillItems, FillSlots, PtrMap, FineSlot, FineNode, Resolve, BlankTable;
    ItemsOk(c, nh, env, arr, |arr|);
    SlotsOk(c, nh, env, nodes, |nodes|);
    ResolveTable(c, nh, mt);
    assert arr[..|arr|] == arr && nodes[..|nodes|] == nodes;
    assert WireSlots(nh, env, nodes)[..|nodes|] == WireSlots(nh, env, nodes);
    var pm := PtrMap(c.ptr);
    assert Partly(arr, pm, |arr|) == MapTvs(arr, pm) && MapNodes(nodes, pm) + Frees(0) == MapNodes(nodes, pm);
  }

  // --------------------------------------------------------------- prototypes

  lemma {:induction false} UpsOk(c: Ctx, nh: seq<Cell>, us: seq<UpvalDesc>)
    requires CtxFor(c, nh) && forall i :: 0 <= i < |us| ==> PointsTo(nh, us[i].name, IsStr)
    ensures FillUps(c, WireUps(us)) == Res(MapUps(us, PtrMap(c.ptr)), false)
  {
    hide CtxFor, Resolve, PtrMap, Look, PointsTo;
    if us != [] {
      var k := |us| - 1;
      UpsOk(c, nh, us[..k]);
      ResolveStr(c, nh, us[k].name);
      assert WireUps(us)[..k] == WireUps(us[..k]);
      var pm := PtrMap(c.ptr);
      assert MapUps(us, pm) == MapUps(us[..k], pm) + [us[k].(name := Look(pm, us[k].name))];
    }
  }

  lemma {:induction false} VarsOk(c: Ctx, nh: seq<Cell>, ls: seq<LocVar>)
    requires CtxFor(c, nh) && forall i :: 0 <= i < |ls| ==> PointsTo(nh, ls[i].name, IsStr)
    ensures FillVars(c, WireVars(ls)) == Res(MapVars(ls, PtrMap(c.ptr)), false)
  {
    hide CtxFor, Resolve, PtrMap, Look, PointsTo;
    if ls != [] {
      var k := |ls| - 1;
      VarsOk(c, nh, ls[..k]);
      ResolveStr(c, nh, ls[k].name);
      assert WireVars(ls)[..k] == WireVars(ls[..k]);
      var pm := PtrMap(c.ptr);
      assert MapVars(ls, pm) == MapVars(ls[..k], pm) + [ls[k].(name := Look(pm, ls[k].name))];
    }
  }

  lemma FillProtoOk(c: Ctx, nh: seq<Cell>, env: Env, p: ProtoData)
    requires CtxFor(c, nh) && FineProto(nh, env, p)
    ensures FillProto(c, env, WireProto(nh, env, p)) == Filled(MapObj(Proto(p), PtrMap(c.ptr)), false, false)
  {
    hide CtxFor, Resolve, PtrMap, Look, PointsTo, FillTvs, WireTvs, MapTvs, FineTvs, AllPointTo, ResolveAll,
         FillUps, FillVars,
         WireIds, MapRefs, WireUps, WireVars, MapUps, MapVars;
    FillTvsOk(c, nh, env, p.k);
    ResolveProtos(c, nh, p.p);
    UpsOk(c, nh, p.upvalues);
    VarsOk(c, nh, p.locvars);
    ResolveStr(c, nh, p.source);
  }

  // ------------------------------------------------------ objects but threads

  /** What the first pass makes for an object of the normal form. */
  function BlankOf(o: Obj): Obj {
    match o
    case Str(_, s) => Str(|s| <= MAXSHORTLEN, s)
    case Table(arr, nodes, _) => BlankTable(TableSize(|arr|, |nodes|))
    case Proto(_) => Proto(ProtoData(0, 0, 0, [], [], [], [], [], [], [], NULL, 0, 0))
    case LClosure(_, _) => LClosure(NULL, [])
    case CClosure(_, _) => CClosure(0, [])
    case UpClosed(_) => UpClosed(TValue.Nil)
    case UpOpen(_, _) => UpClosed(TValue.Nil)
    case Thread(_, _, _, _) => Thread(0, [], [], [])
    case Udata(_, b, _) => Udata([], b, NULL)
  }

  lemma FillObjOk(c: Ctx, nh: seq<Cell>, env: Env, i: nat)
    requires CtxFor(c, nh) && 0 < i < |nh| && FineAt(nh, env, i)
    requires !nh[i].obj.Thread? && !nh[i].obj.UpOpen? && !nh[i].obj.Str?
    ensures FillObj(c, env, BlankOf(nh[i].obj), WireObj(nh, env, nh[i].obj))
         == Filled(MapObj(nh[i].obj, PtrMap(c.ptr)), false, false)
  {
    assert c.Valid();
    hide CtxFor, Resolve, PtrMap, Look, PointsTo, FillTvs, WireTvs, MapTvs, FineTvs, AllPointTo, ResolveAll,
         WireIds, MapRefs,
         FineTable, FineProto, FillTable, FillProto, MapProto, MapNodes, WireItems, WireSlots, WireProto, FillTv, MapTv, WireTv, FineTv;
    match nh[i].obj
    case Table(arr, nodes, mt) =>
      FillTableOk(c, nh, env, arr, nodes, mt);
      FineTableSmall(nh, env, arr, nodes, mt);
    case Proto(p) => FillProtoOk(c, nh, env, p);
    case LClosure(p, us) =>
      ResolveProto(c, nh, p);
      ResolveUpvals(c, nh, us);
    case CClosure(fn, us) => FillTvsOk(c, nh, env, us);
    case UpClosed(v) => FillTvOk(c, nh, env, v);
    case Udata(uvs, b, mt) =>
      ResolveTable(c, nh, mt);
      assert MapTvs(uvs, PtrMap(c.ptr)) == [];
  }

  lemma FineTableSmall(nh: seq<Cell>, env: Env, arr: seq<TValue>, nodes: seq<Node>, mt: Ref)
    requires FineTable(nh, env, arr, nodes, mt)
    ensures Cast32(|arr|) == |arr|
  {
  }

  // ------------------------------------------------------------------ threads

  lemma FillArmOk(c: Ctx, nh: seq<Cell>, env: Env, f: Frame)
    requires CtxFor(c, nh) && FineArm(nh, env, f.arm)
    requires forall id :: 0 < id < |c.ptr| ==> c.ptr[id] != NULL
    ensures FillArm(c, env, WireFrame(env, f).arm) == Res(MapFrame(f, PtrMap(c.ptr)).arm, false)
  {
    if f.arm.LuaArm? {
      ResolveProto(c, nh, f.arm.proto);
      LookPtr(c, nh, f.arm.proto);
    }
  }

  lemma {:induction false} FillFramesOk(c: Ctx, nh: seq<Cell>, env: Env, fs: seq<Frame>)
    requires CtxFor(c, nh) && forall j :: 0 <= j < |fs| ==> FineArm(nh, env, fs[j].arm)
    requires forall id :: 0 < id < |c.ptr| ==> c.ptr[id] != NULL
    ensures FillFrames(c, env, WireFrames(env, fs)) == Res(MapFrames(fs, PtrMap(c.ptr)), false)
  {
    hide CtxFor, FineArm, FillArm, PtrMap, Look;
    if fs != [] {
      var k := |fs| - 1;
      FillFramesOk(c, nh, env, fs[..k]);
      FillArmOk(c, nh, env, fs[k]);
      assert WireFrames(env, fs)[..k] == WireFrames(env, fs[..k]);
      assert MapFrames(fs, PtrMap(c.ptr)) == MapFrames(fs[..k], PtrMap(c.ptr)) + [MapFrame(fs[k], PtrMap(c.ptr))];
    }
  }

  /** The objects created for different ids are different, and none is NULL. */
  ghost predicate Distinct(ptr: seq<Ref>, size: nat) {
    && (forall i :: 0 < i < |ptr| ==> 0 < ptr[i] < size)
    && (forall i, j :: 0 < i < j < |ptr| ==> ptr[i] != ptr[j])
  }

  /** Two strings that a load makes one: interning goes by contents, for short ones. */
  predicate Twins(nh: seq<Cell>, i: nat, j: nat)
    requires i < |nh| && j < |nh|
  {
    nh[i].obj.Str? && nh[j].obj.Str? && nh[i].obj.s == nh[j].obj.s && |nh[i].obj.s| <= MAXSHORTLEN
  }

  /** The objects created for different ids are different, but for twins. */
  ghost predicate Apart(nh: seq<Cell>, ptr: seq<Ref>, size: nat) {
    && |ptr| == |nh|
    && (forall i :: 0 < i < |ptr| ==> 0 < ptr[i] < size)
    && (forall i, j :: 0 < i < j < |ptr| && ptr[i] == ptr[j] ==> Twins(nh, i, j))
  }

  ghost predicate NoTwins(nh: seq<Cell>) {
    forall i, j :: 0 < i < j < |nh| ==> !Twins(nh, i, j)
  }

  lemma ApartDistinct(nh: seq<Cell>, ptr: seq<Ref>, size: nat)
    requires Apart(nh, ptr, size) && NoTwins(nh)
    ensures Distinct(ptr, size)
  {
  }

  /** The heap after the first `k` open upvalues of a thread have been relinked. */
  ghost predicate Linked(c: Ctx, nh: seq<Cell>, self: nat, h0: seq<Cell>, l: Relink, open: seq<Ref>, k: nat)
    requires k <= |open| && self < |c.ptr|
  {
    && |l.heap| == |h0| && !l.err && |nh| == |c.ptr|
    && l.open == MapRefs(open[..k], PtrMap(c.ptr))
    && forall r :: 0 <= r < |h0| ==>
         && l.heap[r].objid == h0[r].objid
         && (forall j :: 0 <= j < k && 0 < open[j] < |nh| && r == c.ptr[open[j]] ==>
               l.heap[r].obj == UpOpen(c.ptr[self], SlotAt(nh, open[j])))
         && ((forall j :: 0 <= j < k && 0 < open[j] < |nh| ==> r != c.ptr[open[j]]) ==> l.heap[r].obj == h0[r].obj)
  }

  lemma {:induction false} PlacedLast(h: seq<Cell>, open: seq<Ref>, slot: i32, from: nat)
    requires from <= |open| && forall j :: from <= j < |open| ==> SlotOf(h, open[j]) > slot
    ensures Place(h, open, slot, from) == |open|
    decreases |open| - from
  {
    if from < |open| {
      PlacedLast(h, open, slot, from + 1);
    }
  }

  /** The next upvalue goes to the end of the list: the list comes from the top down. */
  lemma LinkOneIs(c: Ctx, nh: seq<Cell>, self: nat, h0: seq<Cell>, l: Relink, open: seq<Ref>, k: nat)
    requires CtxFor(c, nh) && Apart(nh, c.ptr, |h0|) && 0 < self < |nh|
    requires GoodOpens(nh, self, open) && k < |open| && Linked(c, nh, self, h0, l, open, k)
    ensures var u := open[k];
            && 0 < u < |nh| == |c.ptr| && c.ptr[u] < |l.heap|
            && LinkOne(c, c.ptr[self], l, WOpen(Cast32(u), SlotAt(nh, u)))
               == Relink(l.heap[c.ptr[u] := Cell(l.heap[c.ptr[u]].objid, UpOpen(c.ptr[self], SlotAt(nh, u)))],
                         l.open + [c.ptr[u]], l.err)
  {
    var u := open[k];
    LookPtr(c, nh, u);
    assert Resolve(c, Cast32(u), OBJ_UPVAL_OPEN) == Res(c.ptr[u], false) by {
      assert c.types[u - 1] == TypeCode(nh[u].obj);
    }
    var slot := SlotAt(nh, u);
    var h := l.heap[c.ptr[u] := Cell(l.heap[c.ptr[u]].objid, UpOpen(c.ptr[self], slot))];
    forall j | 0 <= j < |l.open|
      ensures SlotOf(h, l.open[j]) > slot
    {
      LookPtr(c, nh, open[j]);
      assert l.open[j] == c.ptr[open[j]] && open[j] != u;
      assert l.heap[c.ptr[open[j]]].obj == UpOpen(c.ptr[self], SlotAt(nh, open[j]));
    }
    PlacedLast(h, l.open, slot, 0);
    hide CtxFor, PtrMap, Resolve, Look, Linked, GoodOpens;
    assert l.open[..|l.open|] + [c.ptr[u]] + l.open[|l.open|..] == l.open + [c.ptr[u]];
  }

  lemma LinkedGrows(c: Ctx, nh: seq<Cell>, self: nat, h0: seq<Cell>, l: Relink, open: seq<Ref>, k: nat)
    requires CtxFor(c, nh) && Apart(nh, c.ptr, |h0|) && 0 < self < |nh| && k < |open| && 0 < open[k] < |nh|
    requires forall j :: 0 <= j < k ==> open[j] != open[k]
    requires Linked(c, nh, self, h0, l, open, k)
    ensures Linked(c, nh, self, h0,
                   Relink(l.heap[c.ptr[open[k]] := Cell(l.heap[c.ptr[open[k]]].objid, UpOpen(c.ptr[self], SlotAt(nh, open[k])))],
                          l.open + [c.ptr[open[k]]], l.err),
                   open, k + 1)
  {
    LookPtr(c, nh, open[k]);
    hide CtxFor, PtrMap, Look, SlotAt;
    assert MapRefs(open[..k + 1], PtrMap(c.ptr)) == l.open + [c.ptr[open[k]]];
  }

  lemma OpensDiffer(nh: seq<Cell>, self: nat, open: seq<Ref>, k: nat)
    requires GoodOpens(nh, self, open) && k < |open|
    ensures forall j :: 0 <= j < k ==> open[j] != open[k]
  {
  }

  lemma LinkOneOk(c: Ctx, nh: seq<Cell>, self: nat, h0: seq<Cell>, l: Relink, open: seq<Ref>, k: nat)
    requires CtxFor(c, nh) && Apart(nh, c.ptr, |h0|) && 0 < self < |nh|
    requires GoodOpens(nh, self, open) && k < |open| && Linked(c, nh, self, h0, l, open, k)
    ensures Linked(c, nh, self, h0, LinkOne(c, c.ptr[self], l, WOpen(Cast32(open[k]), SlotAt(nh, open[k]))), open, k + 1)
  {
    hide *;
    OpensDiffer(nh, self, open, k);
    LinkOneIs(c, nh, self, h0, l, open, k);
    LinkedGrows(c, nh, self, h0, l, open, k);
  }

  lemma NoneLinked(c: Ctx, nh: seq<Cell>, self: nat, h0: seq<Cell>, open: seq<Ref>)
    requires CtxFor(c, nh) && self < |nh|
    ensures Linked(c, nh, self, h0, Relink(h0, [], false), open, 0)
  {
  }

  lemma {:induction false} LinkAllOk(c: Ctx, nh: seq<Cell>, self: nat, h0: seq<Cell>, open: seq<Ref>, k: nat)
    requires CtxFor(c, nh) && Apart(nh, c.ptr, |h0|) && 0 < self < |nh|
    requires GoodOpens(nh, self, open) && k <= |open|
    ensures Linked(c, nh, self, h0, LinkAll(c, c.ptr[self], Relink(h0, [], false), WireOpens(nh, open)[..k]), open, k)
  {
    var ws := WireOpens(nh, open);
    assert self < |c.ptr| && c.Valid();
    hide CtxFor, Apart, GoodOpens, Linked, LinkOne, SlotAt;
    if k == 0 {
      NoneLinked(c, nh, self, h0, open);
    } else {
      assert ws[..k][..k - 1] == ws[..k - 1];
      LinkAllOk(c, nh, self, h0, open, k - 1);
      LinkOneOk(c, nh, self, h0, LinkAll(c, c.ptr[self], Relink(h0, [], false), ws[..k - 1]), open, k - 1);
    }
  }

  /** What filling thread `i` does to the cell at `r`. */
  ghost predicate CellAfterThread(c: Ctx, nh: seq<Cell>, i: nat, h: seq<Cell>, h': seq<Cell>, r: Ref)
    requires r < |h| == |h'| && 0 < i < |nh| == |c.ptr| && nh[i].obj.Thread?
  {
    && h'[r].objid == h[r].objid
    && (r == c.ptr[i] ==> h'[r].obj == MapObj(nh[i].obj, PtrMap(c.ptr)))
    && (forall u {:trigger c.ptr[u]} :: u in nh[i].obj.open && 0 < u < |nh| && r == c.ptr[u] ==>
          h'[r].obj == UpOpen(c.ptr[i], SlotAt(nh, u)))
    && (r != c.ptr[i] && (forall u {:trigger c.ptr[u]} :: u in nh[i].obj.open && 0 < u < |nh| ==> r != c.ptr[u]) ==>
          h'[r].obj == h[r].obj)
  }

  lemma CellLinked(c: Ctx, nh: seq<Cell>, i: nat, h: seq<Cell>, l: Relink, r: Ref)
    requires CtxFor(c, nh) && Apart(nh, c.ptr, |h|) && 0 < i < |nh| && nh[i].obj.Thread?
    requires GoodOpens(nh, i, nh[i].obj.open)
    requires Linked(c, nh, i, h, l, nh[i].obj.open, |nh[i].obj.open|)
    requires r < |h|
    ensures CellAfterThread(c, nh, i, h, SetObj(l.heap, c.ptr[i], MapObj(nh[i].obj, PtrMap(c.ptr))), r)
  {
    hide MapObj, PtrMap, SlotAt;
    var open := nh[i].obj.open;
    var h' := SetObj(l.heap, c.ptr[i], MapObj(nh[i].obj, PtrMap(c.ptr)));
    forall u {:trigger c.ptr[u]} | u in open && 0 < u < |nh| && r == c.ptr[u]
      ensures h'[r].obj == UpOpen(c.ptr[i], SlotAt(nh, u))
    {
      var j :| 0 <= j < |open| && open[j] == u;
      assert nh[open[j]].obj.UpOpen?;
    }
    if r != c.ptr[i] && (forall u {:trigger c.ptr[u]} :: u in open && 0 < u < |nh| ==> r != c.ptr[u]) {
      forall j | 0 <= j < |open| && 0 < open[j] < |nh|
        ensures r != c.ptr[open[j]]
      {
        assert open[j] in open;
      }
    }
  }

  lemma ThreadParts(c: Ctx, nh: seq<Cell>, env: Env, l: Load, i: nat, links: Relink)
    requires CtxFor(c, nh) && 0 < i < |nh| && nh[i].obj.Thread? && c.ptr[i] < |l.heap| == |links.heap|
    requires OldOpen(l.heap[c.ptr[i]].obj) == []
    requires var o := nh[i].obj;
             && FillTvs(c, env, WireTvs(nh, env, o.stack)) == Res(MapTvs(o.stack, PtrMap(c.ptr)), false)
             && FillFrames(c, env, WireFrames(env, o.frames)) == Res(MapFrames(o.frames, PtrMap(c.ptr)), false)
             && LinkAll(c, c.ptr[i], Relink(l.heap, [], false), WireOpens(nh, o.open)) == links
             && links.open == MapRefs(o.open, PtrMap(c.ptr)) && !links.err
    ensures FillThread(c, env, l, c.ptr[i], WireObj(nh, env, nh[i].obj).th)
         == Load(SetObj(links.heap, c.ptr[i], MapObj(nh[i].obj, PtrMap(c.ptr))), l.error, l.undefined)
  {
    hide CtxFor, FillTvs, FillFrames, WireTvs, WireFrames, MapTvs, MapFrames, LinkAll, PtrMap, MapRefs, WireOpens;
    CtxIsValid(c, nh);
  }

  lemma CtxIsValid(c: Ctx, nh: seq<Cell>)
    requires CtxFor(c, nh)
    ensures c.Valid()
  {
  }

  /** Filling a thread gives the thread back and opens its upvalues. */
  lemma FillThreadOk(c: Ctx, nh: seq<Cell>, env: Env, l: Load, i: nat)
    requires CtxFor(c, nh) && Apart(nh, c.ptr, |l.heap|) && 0 < i < |nh| && FineAt(nh, env, i) && nh[i].obj.Thread?
    requires OldOpen(l.heap[c.ptr[i]].obj) == []
    ensures var l' := FillThread(c, env, l, c.ptr[i], WireObj(nh, env, nh[i].obj).th);
            && l'.error == l.error && l'.undefined == l.undefined
            && forall r :: 0 <= r < |l.heap| ==> CellAfterThread(c, nh, i, l.heap, l'.heap, r)
  {
    var o := nh[i].obj;
    assert |c.ptr| == |nh| && c.Valid();
    hide CtxFor, FillTvs, FillFrames, WireTvs, WireFrames, MapTvs, MapFrames, FineTvs, FineArm, GoodOpens,
         LinkAll, PtrMap,
         CellAfterThread, FillThread, WireObj, MapObj;
    FillTvsOk(c, nh, env, o.stack);
    FillFramesOk(c, nh, env, o.frames);
    LinkAllOk(c, nh, i, l.heap, o.open, |o.open|);
    var ws := WireOpens(nh, o.open);
    assert ws[..|o.open|] == ws && o.open[..|o.open|] == o.open;
    var links := LinkAll(c, c.ptr[i], Relink(l.heap, [], false), ws);
    assert links.open == MapRefs(o.open, PtrMap(c.ptr)) && !links.err;
    hide Linked;
    ThreadParts(c, nh, env, l, i, links);
    forall r | 0 <= r < |l.heap|
      ensures CellAfterThread(c, nh, i, l.heap, SetObj(links.heap, c.ptr[i], MapObj(nh[i].obj, PtrMap(c.ptr))), r)
    {
      CellLinked(c, nh, i, l.heap, links, r);
    }
  }
}
