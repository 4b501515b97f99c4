// A load is type safe for any bytes at all: no id and no tag in the buffer makes an object be
// taken for one of another kind, or a pointer lead outside the heap.
module LoadSafety {
  import opened Bytes
  import opened Heap
  import opened Wire
  import opened TableRecords
  import opened ProtoRecords
  import opened Records
  import opened Snapshot
  import opened WellFormed
  import opened LoadSpec

  // ------------------------------------------------------------------- kinds

  /** Open and closed upvalues are one kind of object. */
  function Kind(tc: byte): byte {
    if tc == OBJ_UPVAL_OPEN then OBJ_UPVAL_CLOSED else tc
  }

  function KindOf(o: Obj): byte {
    Kind(TypeCode(o))
  }

  function IsThread(o: Obj): bool { o.Thread? }

  /** A value that refers to an object refers to one of the heap. */
  predicate SafeTv(h: seq<Cell>, v: TValue) {
    v.Gc? ==> 0 < v.ref < |h|
  }

  predicate SafeTvs(h: seq<Cell>, vs: seq<TValue>) {
    forall i :: 0 <= i < |vs| ==> SafeTv(h, vs[i])
  }

  predicate SafeNode(h: seq<Cell>, n: Node) {
    n.Node? ==> SafeTv(h, n.val) && match n.key case Live(v) => SafeTv(h, v) case Dead(r) => r == NULL || r < |h|
  }

  ghost predicate SafeProto(h: seq<Cell>, p: ProtoData) {
    && SafeTvs(h, p.k) && AllPointTo(h, p.p, IsProto) && PointsTo(h, p.source, IsStr)
    && (forall i :: 0 <= i < |p.upvalues| ==> PointsTo(h, p.upvalues[i].name, IsStr))
    && (forall i :: 0 <= i < |p.locvars| ==> PointsTo(h, p.locvars[i].name, IsStr))
  }

  ghost predicate SafeFrames(h: seq<Cell>, fs: seq<Frame>) {
    forall i :: 0 <= i < |fs| && fs[i].arm.LuaArm? ==> PointsTo(h, fs[i].arm.proto, IsProto)
  }

  /** Every pointer of the object is NULL or leads to an object of the kind its use demands. */
  ghost predicate SafeObj(h: seq<Cell>, o: Obj) {
    match o
    case Str(_, _) => true
    case Table(arr, nodes, mt) => SafeTvs(h, arr) && (forall i :: 0 <= i < |nodes| ==> SafeNode(h, nodes[i])) && PointsTo(h, mt, IsTable)
    case Proto(p) => SafeProto(h, p)
    case LClosure(p, us) => PointsTo(h, p, IsProto) && AllPointTo(h, us, IsUpval)
    case CClosure(_, us) => SafeTvs(h, us)
    case UpClosed(v) => SafeTv(h, v)
    case UpOpen(t, _) => PointsTo(h, t, IsThread)
    case Thread(_, stack, frames, open) => SafeTvs(h, stack) && SafeFrames(h, frames) && AllPointTo(h, open, IsUpval)
    case Udata(uvs, _, mt) => SafeTvs(h, uvs) && PointsTo(h, mt, IsTable)
  }

  ghost predicate SafeHeap(h: seq<Cell>) {
    forall r :: 0 <= r < |h| ==> SafeObj(h, h[r].obj)
  }

  ghost predicate SafeState(s: State) {
    && SafeHeap(s.heap)
    && 0 < s.registry < |s.heap| && s.heap[s.registry].obj.Table?
    && 0 < s.main < |s.heap| && s.heap[s.main].obj.Thread?
    && AllPointTo(s.heap, s.mt, IsTable)
  }

  /** `g` has all the objects of `h`, of the same kinds. */
  ghost predicate Kept(h: seq<Cell>, g: seq<Cell>) {
    |h| <= |g| && forall r :: 0 <= r < |h| ==> KindOf(g[r].obj) == KindOf(h[r].obj)
  }

  lemma KindsAre(a: Obj, b: Obj)
    requires KindOf(a) == KindOf(b)
    ensures IsTable(a) == IsTable(b) && IsProto(a) == IsProto(b) && IsStr(a) == IsStr(b) && IsUpval(a) == IsUpval(b)
    ensures IsThread(a) == IsThread(b)
  {
  }

  lemma PointersKept(h: seq<Cell>, g: seq<Cell>)
    requires Kept(h, g)
    ensures forall r {:trigger PointsTo(h, r, IsTable)} :: PointsTo(h, r, IsTable) ==> PointsTo(g, r, IsTable)
    ensures forall r {:trigger PointsTo(h, r, IsProto)} :: PointsTo(h, r, IsProto) ==> PointsTo(g, r, IsProto)
    ensures forall r {:trigger PointsTo(h, r, IsStr)} :: PointsTo(h, r, IsStr) ==> PointsTo(g, r, IsStr)
    ensures forall r {:trigger PointsTo(h, r, IsUpval)} :: PointsTo(h, r, IsUpval) ==> PointsTo(g, r, IsUpval)
    ensures forall r {:trigger PointsTo(h, r, IsThread)} :: PointsTo(h, r, IsThread) ==> PointsTo(g, r, IsThread)
  {
    hide KindOf, IsTable, IsProto, IsStr, IsUpval, IsThread;
    forall r | 0 <= r < |h|
      ensures IsTable(g[r].obj) == IsTable(h[r].obj) && IsProto(g[r].obj) == IsProto(h[r].obj)
      ensures IsStr(g[r].obj) == IsStr(h[r].obj)
      ensures IsUpval(g[r].obj) == IsUpval(h[r].obj) && IsThread(g[r].obj) == IsThread(h[r].obj)
    {
      KindsAre(g[r].obj, h[r].obj);
    }
  }

  lemma ListKept(h: seq<Cell>, g: seq<Cell>, rs: seq<Ref>)
    requires Kept(h, g)
    ensures AllPointTo(h, rs, IsTable) ==> AllPointTo(g, rs, IsTable)
    ensures AllPointTo(h, rs, IsProto) ==> AllPointTo(g, rs, IsProto)
    ensures AllPointTo(h, rs, IsUpval) ==> AllPointTo(g, rs, IsUpval)
  {
    PointersKept(h, g);
    hide Kept, PointsTo;
  }

  lemma ProtoKept(h: seq<Cell>, g: seq<Cell>, p: ProtoData)
    requires Kept(h, g) && SafeProto(h, p)
    ensures SafeProto(g, p)
  {
    PointersKept(h, g);
    ListKept(h, g, p.p);
    KeptSize(h, g);
    hide Kept, PointsTo, AllPointTo;
    assert PointsTo(h, p.source, IsStr);
    forall i | 0 <= i < |p.upvalues|
      ensures PointsTo(g, p.upvalues[i].name, IsStr)
    {
      assert PointsTo(h, p.upvalues[i].name, IsStr);
    }
    forall i | 0 <= i < |p.locvars|
      ensures PointsTo(g, p.locvars[i].name, IsStr)
    {
      assert PointsTo(h, p.locvars[i].name, IsStr);
    }
  }

  lemma KeptSize(h: seq<Cell>, g: seq<Cell>)
    requires Kept(h, g)
    ensures |h| <= |g|
  {
  }

  /** What was safe stays safe as long as the kinds of the objects do not change. */
  lemma SafeStays(h: seq<Cell>, g: seq<Cell>, o: Obj)
    requires Kept(h, g) && SafeObj(h, o)
    ensures SafeObj(g, o)
  {
    KeptSize(h, g);
    PointersKept(h, g);
    hide Kept, PointsTo, SafeProto, AllPointTo;
    match o
    case Table(_, _, mt) => assert PointsTo(h, mt, IsTable);
    case Proto(p) => ProtoKept(h, g, p);
    case LClosure(p, us) =>
      assert PointsTo(h, p, IsProto);
      ListKept(h, g, us);
    case UpOpen(t, _) => assert PointsTo(h, t, IsThread);
    case Thread(_, _, frames, open) =>
      ListKept(h, g, open);
      forall i | 0 <= i < |frames| && frames[i].arm.LuaArm?
        ensures PointsTo(g, frames[i].arm.proto, IsProto)
      {
        assert PointsTo(h, frames[i].arm.proto, IsProto);
      }
    case Udata(_, _, mt) => assert PointsTo(h, mt, IsTable);
    case _ =>
  }

  lemma SafeUpdate(h: seq<Cell>, r: Ref, c: Cell)
    requires SafeHeap(h) && r < |h| && SafeObj(h, c.obj) && KindOf(c.obj) == KindOf(h[r].obj)
    ensures SafeHeap(h[r := c]) && Kept(h, h[r := c])
  {
    hide SafeObj, KindOf;
    var g := h[r := c];
    forall q | 0 <= q < |g|
      ensures SafeObj(g, g[q].obj)
    {
      SafeStays(h, g, g[q].obj);
    }
  }

  lemma SafeAppend(h: seq<Cell>, c: Cell)
    requires SafeHeap(h) && SafeObj(h, c.obj)
    ensures SafeHeap(h + [c]) && Kept(h, h + [c])
  {
    hide SafeObj, KindOf;
    var g := h + [c];
    forall q | 0 <= q < |g|
      ensures SafeObj(g, g[q].obj)
    {
      SafeStays(h, g, g[q].obj);
    }
  }

  // ------------------------------------------------------------ resolving an id

  /** The pointers lead to objects of the kinds of their records. */
  ghost predicate Typed(c: Ctx, h: seq<Cell>) {
    && c.Valid()
    && forall i {:trigger c.ptr[i]} :: 0 < i < |c.ptr| ==> 0 < c.ptr[i] < |h| && KindOf(h[c.ptr[i]].obj) == Kind(c.types[i - 1])
  }

  lemma TypedStays(c: Ctx, h: seq<Cell>, g: seq<Cell>)
    requires Typed(c, h) && Kept(h, g)
    ensures Typed(c, g)
  {
    hide KindOf, Kind;
  }

  /** An id that resolves as a kind names an object of this kind. */
  lemma ResolveSafe(c: Ctx, h: seq<Cell>, id: nat)
    requires Typed(c, h)
    ensures PointsTo(h, Resolve(c, id, OBJ_TABLE).v, IsTable)
    ensures PointsTo(h, Resolve(c, id, OBJ_PROTO).v, IsProto)
    ensures PointsTo(h, Resolve(c, id, OBJ_STRING).v, IsStr)
    ensures PointsTo(h, Resolve(c, id, RESOLVE_UPVAL).v, IsUpval)
    ensures PointsTo(h, Resolve(c, id, OBJ_UPVAL_OPEN).v, IsUpval)
    ensures Resolve(c, id, RESOLVE_ANY).v == NULL || Resolve(c, id, RESOLVE_ANY).v < |h|
  {
    if 0 < id < |c.ptr| {
      var o := h[c.ptr[id]].obj;
      assert KindOf(o) == Kind(c.types[id - 1]);
    }
  }

  lemma {:induction false} ResolveAllSafe(c: Ctx, h: seq<Cell>, ids: seq<u32>)
    requires Typed(c, h)
    ensures AllPointTo(h, ResolveAll(c, ids, OBJ_TABLE).v, IsTable)
    ensures AllPointTo(h, ResolveAll(c, ids, OBJ_PROTO).v, IsProto)
    ensures AllPointTo(h, ResolveAll(c, ids, RESOLVE_UPVAL).v, IsUpval)
  {
    hide Resolve, PointsTo;
    if ids != [] {
      ResolveAllSafe(c, h, ids[..|ids| - 1]);
      ResolveSafe(c, h, ids[|ids| - 1]);
    }
  }

  lemma FillTvSafe(c: Ctx, h: seq<Cell>, env: Env, w: WTv)
    requires Typed(c, h)
    ensures SafeTv(h, FillTv(c, env, w).v)
  {
    hide KindOf, Kind;
    if w.WGc? && 0 < w.id < |c.ptr| {
      assert 0 < c.ptr[w.id] < |h|;
    }
  }

  lemma {:induction false} FillTvsSafe(c: Ctx, h: seq<Cell>, env: Env, ws: seq<WTv>)
    requires Typed(c, h)
    ensures SafeTvs(h, FillTvs(c, env, ws).v)
  {
    hide FillTv, SafeTv;
    if ws != [] {
      FillTvsSafe(c, h, env, ws[..|ws| - 1]);
      FillTvSafe(c, h, env, ws[|ws| - 1]);
    }
  }

  // -------------------------------------------------------------- filling objects

  lemma {:induction false} FillItemsSafe(c: Ctx, h: seq<Cell>, env: Env, arr: seq<TValue>, ws: seq<WItem>)
    requires Typed(c, h) && SafeTvs(h, arr)
    ensures SafeTvs(h, FillItems(c, env, arr, ws).v)
  {
    hide FillTv, SafeTv;
    if ws != [] {
      FillItemsSafe(c, h, env, arr, ws[..|ws| - 1]);
      FillTvSafe(c, h, env, ws[|ws| - 1].val);
    }
  }

  ghost predicate SafeNodes(h: seq<Cell>, ns: seq<Node>) {
    forall i :: 0 <= i < |ns| ==> SafeNode(h, ns[i])
  }

  lemma FillSlotSafe(c: Ctx, h: seq<Cell>, env: Env, n: Nodes, e: nat, hsize: nat, w: WSlot)
    requires Typed(c, h) && SafeNodes(h, n.nodes)
    ensures SafeNodes(h, FillSlot(c, env, n, e, hsize, w).nodes)
  {
    if w.WSlot? {
      FillTvSafe(c, h, env, w.val);
      match w.key {
        case WLive(v) => FillTvSafe(c, h, env, v);
        case WDead(id) => ResolveSafe(c, h, id);
      }
      hide FillTv, Resolve, IsNaN;
    }
  }

  lemma {:induction false} FillSlotsSafe(c: Ctx, h: seq<Cell>, env: Env, n: Nodes, hsize: nat, ws: seq<WSlot>)
    requires Typed(c, h) && SafeNodes(h, n.nodes)
    ensures SafeNodes(h, FillSlots(c, env, n, hsize, ws).nodes)
  {
    hide FillSlot, SafeNodes;
    if ws != [] {
      var k := |ws| - 1;
      FillSlotsSafe(c, h, env, n, hsize, ws[..k]);
      FillSlotSafe(c, h, env, FillSlots(c, env, n, hsize, ws[..k]), k, hsize, ws[k]);
    }
  }

  lemma {:induction false} FillUpsSafe(c: Ctx, h: seq<Cell>, ws: seq<UpvalDesc>)
    requires Typed(c, h)
    ensures forall i :: 0 <= i < |ws| ==> PointsTo(h, FillUps(c, ws).v[i].name, IsStr)
  {
    hide Resolve, PointsTo;
    if ws != [] {
      FillUpsSafe(c, h, ws[..|ws| - 1]);
      ResolveSafe(c, h, ws[|ws| - 1].name);
    }
  }

  lemma {:induction false} FillVarsSafe(c: Ctx, h: seq<Cell>, ws: seq<LocVar>)
    requires Typed(c, h)
    ensures forall i :: 0 <= i < |ws| ==> PointsTo(h, FillVars(c, ws).v[i].name, IsStr)
  {
    hide Resolve, PointsTo;
    if ws != [] {
      FillVarsSafe(c, h, ws[..|ws| - 1]);
      ResolveSafe(c, h, ws[|ws| - 1].name);
    }
  }

  lemma {:induction false} FillFramesSafe(c: Ctx, h: seq<Cell>, env: Env, ws: seq<WFrame>)
    requires Typed(c, h)
    ensures SafeFrames(h, FillFrames(c, env, ws).v)
  {
    hide Resolve, PointsTo;
    if ws != [] {
      FillFramesSafe(c, h, env, ws[..|ws| - 1]);
      if ws[|ws| - 1].arm.WLua? {
        ResolveSafe(c, h, ws[|ws| - 1].arm.proto);
      }
    }
  }

  lemma FillProtoSafe(c: Ctx, h: seq<Cell>, env: Env, p: WProto)
    requires Typed(c, h)
    ensures SafeObj(h, FillProto(c, env, p).obj) && FillProto(c, env, p).obj.Proto?
  {
    hide Typed, FillTvs, ResolveAll, FillUps, FillVars, Resolve, PointsTo, AllPointTo, SafeTvs;
    FillTvsSafe(c, h, env, p.k);
    ResolveAllSafe(c, h, p.p);
    FillUpsSafe(c, h, p.upvalues);
    FillVarsSafe(c, h, p.locvars);
    ResolveSafe(c, h, p.source);
  }

  /** Filling keeps the kind of the object and gives it safe pointers. */
  lemma FillObjSafe(c: Ctx, h: seq<Cell>, env: Env, blank: Obj, w: WObj)
    requires Typed(c, h) && SafeObj(h, blank) && KindOf(blank) == Kind(Code(w)) && !w.WThr?
    ensures SafeObj(h, FillObj(c, env, blank, w).obj) && KindOf(FillObj(c, env, blank, w).obj) == KindOf(blank)
  {
    hide Typed, FillTvs, FillTv, FillItems, FillSlots, FillProto, ResolveAll, Resolve, PointsTo, AllPointTo,
         SafeTvs, SafeTv, SafeProto;
    match w
    case WTab(t) =>
      FillItemsSafe(c, h, env, blank.arr, t.arr);
      FillSlotsSafe(c, h, env, Nodes(blank.nodes, false, false), |t.slots|, t.slots);
      ResolveSafe(c, h, t.mt);
    case WPro(p) => FillProtoSafe(c, h, env, p);
    case WLCl(p, us) =>
      ResolveSafe(c, h, p);
      ResolveAllSafe(c, h, us);
    case WCCl(_, _, us) => FillTvsSafe(c, h, env, us);
    case WUpClosed(v) => FillTvSafe(c, h, env, v);
    case WUd(_, mt) =>
      ResolveSafe(c, h, mt);
      NoValues(h);
    case _ =>
  }

  lemma NoValues(h: seq<Cell>)
    ensures SafeTvs(h, [])
  {
  }

  // --------------------------------------------------------------- filling threads

  ghost predicate SafeLinks(c: Ctx, h: seq<Cell>, th: Ref, l: Relink) {
    && Kept(h, l.heap) && |l.heap| == |h| && SafeHeap(l.heap) && Typed(c, l.heap) && AllPointTo(l.heap, l.open, IsUpval)
    && PointsTo(l.heap, th, IsThread)
  }

  lemma KeptTwice(a: seq<Cell>, b: seq<Cell>, d: seq<Cell>)
    requires Kept(a, b) && Kept(b, d)
    ensures Kept(a, d)
  {
    hide KindOf;
  }

  lemma OpenIsUpval(h: seq<Cell>, uv: Ref, th: Ref, slot: i32)
    requires PointsTo(h, uv, IsUpval) && uv != NULL && PointsTo(h, th, IsThread)
    ensures uv < |h| && KindOf(UpOpen(th, slot)) == KindOf(h[uv].obj) && SafeObj(h, UpOpen(th, slot))
  {
  }

  lemma InsertSafe(h: seq<Cell>, open: seq<Ref>, uv: Ref, i: nat)
    requires AllPointTo(h, open, IsUpval) && PointsTo(h, uv, IsUpval) && i <= |open|
    ensures AllPointTo(h, open[..i] + [uv] + open[i..], IsUpval)
  {
    hide PointsTo;
  }

  lemma LinkOneSafe(c: Ctx, h: seq<Cell>, th: Ref, l: Relink, w: WOpen)
    requires SafeLinks(c, h, th, l)
    ensures SafeLinks(c, h, th, LinkOne(c, th, l, w))
  {
    hide Kept, SafeHeap, Typed, AllPointTo, PointsTo, Resolve, KindOf, SafeObj, Place;
    assert c.Valid() by { Validity(c, l.heap); }
    ResolveSafe(c, l.heap, w.id);
    var uv := Resolve(c, w.id, OBJ_UPVAL_OPEN).v;
    if uv != NULL && uv < |l.heap| {
      OpenIsUpval(l.heap, uv, th, w.slot);
      var g := l.heap[uv := Cell(l.heap[uv].objid, UpOpen(th, w.slot))];
      SafeUpdate(l.heap, uv, Cell(l.heap[uv].objid, UpOpen(th, w.slot)));
      KeptTwice(h, l.heap, g);
      TypedStays(c, l.heap, g);
      ListKept(l.heap, g, l.open);
      PointersKept(l.heap, g);
      InsertSafe(g, l.open, uv, Place(g, l.open, w.slot, 0));
    }
  }

  lemma Validity(c: Ctx, h: seq<Cell>)
    requires Typed(c, h)
    ensures c.Valid()
  {
  }

  lemma {:induction false} LinkAllSafe(c: Ctx, h: seq<Cell>, th: Ref, l: Relink, ws: seq<WOpen>)
    requires c.Valid() && SafeLinks(c, h, th, l)
    ensures SafeLinks(c, h, th, LinkAll(c, th, l, ws))
  {
    hide LinkOne, SafeLinks;
    if ws != [] {
      var k := |ws| - 1;
      LinkAllSafe(c, h, th, l, ws[..k]);
      LinkOneSafe(c, h, th, LinkAll(c, th, l, ws[..k]), ws[k]);
    }
  }

  /** A load between two records: every object safe, every pointer of the right kind. */
  ghost predicate Safe(c: Ctx, h: seq<Cell>) {
    SafeHeap(h) && Typed(c, h)
  }

  lemma ThreadParts(h: seq<Cell>, r: Ref)
    requires SafeHeap(h) && 0 < r < |h| && KindOf(h[r].obj) == OBJ_THREAD
    ensures PointsTo(h, r, IsThread) && AllPointTo(h, OldOpen(h[r].obj), IsUpval)
  {
    assert SafeObj(h, h[r].obj);
    hide SafeTvs, SafeFrames;
  }

  lemma ThreadIsSafe(h: seq<Cell>, r: Ref, t: Obj)
    requires PointsTo(h, r, IsThread) && r != NULL && t.Thread?
    requires SafeTvs(h, t.stack) && SafeFrames(h, t.frames) && AllPointTo(h, t.open, IsUpval)
    ensures r < |h| && SafeObj(h, t) && KindOf(t) == KindOf(h[r].obj)
  {
  }

  lemma FillThreadSafe(c: Ctx, env: Env, l: Load, r: Ref, w: WThread)
    requires c.Valid() && Safe(c, l.heap) && 0 < r < |l.heap| && KindOf(l.heap[r].obj) == OBJ_THREAD
    ensures Safe(c, FillThread(c, env, l, r, w).heap) && Kept(l.heap, FillThread(c, env, l, r, w).heap)
  {
    hide SafeHeap, Typed, FillTvs, FillFrames, LinkAll, Kept, AllPointTo, PointsTo, SafeTvs, SafeFrames, KindOf,
         SafeObj, OldOpen;
    ThreadParts(l.heap, r);
    KeptSelf(l.heap);
    LinkAllSafe(c, l.heap, r, Relink(l.heap, OldOpen(l.heap[r].obj), false), w.open);
    var links := LinkAll(c, r, Relink(l.heap, OldOpen(l.heap[r].obj), false), w.open);
    FillTvsSafe(c, links.heap, env, w.stack);
    FillFramesSafe(c, links.heap, env, w.frames);
    var t := Thread(w.status, FillTvs(c, env, w.stack).v, FillFrames(c, env, w.frames).v, links.open);
    ThreadIsSafe(links.heap, r, t);
    SafeUpdate(links.heap, r, Cell(links.heap[r].objid, t));
    KeptTwice(l.heap, links.heap, SetObj(links.heap, r, t));
    TypedStays(c, links.heap, SetObj(links.heap, r, t));
  }

  lemma KeptSelf(h: seq<Cell>)
    ensures Kept(h, h)
  {
  }

  // ------------------------------------------------------------------- the passes

  /** A record is read as one of its own kind. */
  lemma ReadKind(tc: byte, data: seq<byte>, pos: nat)
    requires OBJ_STRING <= tc <= OBJ_USERDATA
    ensures ReadObj(tc, data, pos).Got? ==> Code(ReadObj(tc, data, pos).value) == tc
  {
    hide ReadAll, ReadTv;
  }

  lemma EntrySafe(c: Ctx, h: seq<Cell>, id: nat)
    requires Safe(c, h) && 0 < id < |c.ptr|
    ensures 0 < c.ptr[id] < |h| && SafeObj(h, h[c.ptr[id]].obj) && KindOf(h[c.ptr[id]].obj) == Kind(c.types[id - 1])
  {
    hide SafeObj, KindOf, Kind;
  }

  /** The index and the pointers go together. */
  ghost predicate Matches(es: seq<Entry>, c: Ctx, size: nat) {
    && c.Valid() && |es| == |c.types|
    && (forall i :: 0 <= i < |c.ptr| ==> c.ptr[i] < size)
    && (forall i :: 0 <= i < |es| ==> OBJ_STRING <= es[i].tc <= OBJ_USERDATA && es[i].tc == c.types[i])
  }

  lemma FillOneSafe(data: seq<byte>, env: Env, es: seq<Entry>, c: Ctx, l: Load, id: nat)
    requires Matches(es, c, |l.heap|) && Safe(c, l.heap) && 0 < id <= |es|
    ensures Safe(c, FillOne(data, env, es, c, l, id).heap) && Kept(l.heap, FillOne(data, env, es, c, l, id).heap)
  {
    hide ReadObj, SafeHeap, Typed, SafeObj, KindOf, Kind, FillObj, FillThread, Kept;
    KeptSelf(l.heap);
    var e, r := es[id - 1], c.ptr[id];
    ReadKind(e.tc, data, e.off);
    EntrySafe(c, l.heap, id);
    var read := ReadObj(e.tc, data, e.off);
    if read.Got? {
      var w := read.value;
      if w.WThr? {
        ThreadKind(w);
        FillThreadSafe(c, env, l, r, w.th);
      } else {
        FillObjSafe(c, l.heap, env, l.heap[r].obj, w);
        var o := FillObj(c, env, l.heap[r].obj, w).obj;
        SafeUpdate(l.heap, r, Cell(l.heap[r].objid, o));
        TypedStays(c, l.heap, SetObj(l.heap, r, o));
      }
    }
  }

  lemma ThreadKind(w: WObj)
    requires w.WThr?
    ensures Kind(Code(w)) == OBJ_THREAD
  {
  }

  lemma {:induction false} FillPassSafe(data: seq<byte>, env: Env, es: seq<Entry>, c: Ctx, l: Load, tc: byte,
        main: nat, k: nat)
    requires Matches(es, c, |l.heap|) && Safe(c, l.heap) && k <= |es|
    ensures Safe(c, FillPass(data, env, es, c, l, tc, main, k).heap)
    ensures Kept(l.heap, FillPass(data, env, es, c, l, tc, main, k).heap)
  {
    hide FillOne, Safe, Kept;
    KeptSelf(l.heap);
    if k > 0 {
      FillPassSafe(data, env, es, c, l, tc, main, k - 1);
      if es[k - 1].tc == tc && k != main {
        var p := FillPass(data, env, es, c, l, tc, main, k - 1);
        FillOneSafe(data, env, es, c, p, k);
        KeptTwice(l.heap, p.heap, FillOne(data, env, es, c, p, k).heap);
      }
    }
  }

  /** One pass more. */
  lemma PassSafe(data: seq<byte>, env: Env, es: seq<Entry>, c: Ctx, h: seq<Cell>, l: Load, tc: byte, main: nat)
    returns (l': Load)
    requires Matches(es, c, |l.heap|) && Safe(c, l.heap) && Kept(h, l.heap)
    ensures l' == FillPass(data, env, es, c, l, tc, main, |es|) && |l'.heap| == |l.heap| && Safe(c, l'.heap)
    ensures Kept(h, l'.heap)
  {
    hide FillPass, Safe, Kept;
    FillPassSafe(data, env, es, c, l, tc, main, |es|);
    l' := FillPass(data, env, es, c, l, tc, main, |es|);
    KeptTwice(h, l.heap, l'.heap);
  }

  lemma FillAllSafe(data: seq<byte>, env: Env, es: seq<Entry>, c: Ctx, l: Load, main: nat)
    requires Matches(es, c, |l.heap|) && Safe(c, l.heap) && main <= |es|
    ensures Safe(c, FillAll(data, env, es, c, l, main).heap) && Kept(l.heap, FillAll(data, env, es, c, l, main).heap)
  {
    hide FillOne, FillPass, Safe, Kept;
    KeptSelf(l.heap);
    var a := PassSafe(data, env, es, c, l.heap, l, OBJ_PROTO, 0);
    var b := PassSafe(data, env, es, c, l.heap, a, OBJ_UPVAL_CLOSED, 0);
    var d := PassSafe(data, env, es, c, l.heap, b, OBJ_LCLOSURE, 0);
    var e := PassSafe(data, env, es, c, l.heap, d, OBJ_CCLOSURE, 0);
    var f := PassSafe(data, env, es, c, l.heap, e, OBJ_TABLE, 0);
    var g := f;
    if main != 0 {
      FillOneSafe(data, env, es, c, f, main);
      g := FillOne(data, env, es, c, f, main);
      KeptTwice(l.heap, f.heap, g.heap);
    }
    var t := PassSafe(data, env, es, c, l.heap, g, OBJ_THREAD, main);
    var u := PassSafe(data, env, es, c, l.heap, t, OBJ_USERDATA, 0);
  }

  // --------------------------------------------------------------- the first pass

  /** A blank object has the kind of its record and points nowhere. */
  lemma BlankSafe(data: seq<byte>, h: seq<Cell>, e: Entry)
    requires OBJ_STRING <= e.tc <= OBJ_USERDATA
    ensures var b := BlankFor(data, h, e);
            && (b.New? ==> SafeObj(h, b.obj) && KindOf(b.obj) == Kind(e.tc))
            && (b.Old? ==> 0 < b.r < |h| && KindOf(h[b.r].obj) == Kind(e.tc))
  {
    hide ReadAll, ScanTable, ScanProto, ReadUd, ReadName, NodeCount;
  }

  ghost predicate Made(base: State, es: seq<Entry>, p: Created, k: nat)
    requires k <= |es|
  {
    && |p.ptr| == k + 1 && p.ptr[0] == NULL && SafeHeap(p.heap) && Kept(base.heap, p.heap)
    && forall i {:trigger p.ptr[i]} :: 0 < i <= k ==> 0 < p.ptr[i] < |p.heap| && KindOf(p.heap[p.ptr[i]].obj) == Kind(es[i - 1].tc)
  }

  lemma MadeMore(base: State, es: seq<Entry>, p: Created, p': Created, k: nat)
    requires 0 < k <= |es| && Made(base, es, p, k - 1) && SafeHeap(p'.heap) && Kept(p.heap, p'.heap)
    requires |p'.ptr| == k + 1 && p'.ptr[..k] == p.ptr
    requires 0 < p'.ptr[k] < |p'.heap| && KindOf(p'.heap[p'.ptr[k]].obj) == Kind(es[k - 1].tc)
    ensures Made(base, es, p', k)
  {
    hide SafeHeap, KindOf, Kind;
    KeptTwice(base.heap, p.heap, p'.heap);
    forall i {:trigger p'.ptr[i]} | 0 < i <= k
      ensures 0 < p'.ptr[i] < |p'.heap| && KindOf(p'.heap[p'.ptr[i]].obj) == Kind(es[i - 1].tc)
    {
      assert i < k ==> p'.ptr[i] == p.ptr[i];
    }
    assert p'.ptr[0] == p.ptr[0];
  }

  lemma {:induction false} CreateAllSafe(data: seq<byte>, base: State, es: seq<Entry>, main: nat, k: nat)
    requires k <= |es| && SafeState(base) && (0 < main <= |es| ==> es[main - 1].tc == OBJ_THREAD)
    requires forall i :: 0 <= i < |es| ==> OBJ_STRING <= es[i].tc <= OBJ_USERDATA
    ensures base.main < |base.heap|
    ensures var p := CreateAll(data, base, es, main, k); p.failed || p.undefined || Made(base, es, p, k)
  {
    hide SafeHeap, BlankFor, KindOf, SafeObj, Kept;
    if k == 0 {
      KeptSelf(base.heap);
    } else {
      CreateAllSafe(data, base, es, main, k - 1);
      var p := CreateAll(data, base, es, main, k - 1);
      var p' := CreateAll(data, base, es, main, k);
      if !p'.failed && !p'.undefined {
        assert p'.ptr[..k] == p.ptr;
        KeptSelf(p.heap);
        if k == main {
          MainKept(base, p.heap);
        } else {
          BlankSafe(data, p.heap, es[k - 1]);
          if BlankFor(data, p.heap, es[k - 1]).New? {
            SafeAppend(p.heap, Cell(0, BlankFor(data, p.heap, es[k - 1]).obj));
          }
        }
        MadeMore(base, es, p, p', k);
      }
    }
  }

  lemma MainKept(base: State, h: seq<Cell>)
    requires SafeState(base) && Kept(base.heap, h)
    ensures 0 < base.main < |h| && KindOf(h[base.main].obj) == Kind(OBJ_THREAD)
  {
    hide SafeHeap;
  }

  lemma ObjidsKept(h: seq<Cell>, g: seq<Cell>)
    requires |g| == |h| && (forall r :: 0 <= r < |h| ==> g[r].obj == h[r].obj) && SafeHeap(h)
    ensures SafeHeap(g) && Kept(h, g)
  {
    hide SafeObj, KindOf;
    forall r | 0 <= r < |g|
      ensures SafeObj(g, g[r].obj)
    {
      SafeStays(h, g, g[r].obj);
    }
  }

  // ------------------------------------------------------------------- the load

  lemma IndexMatches(es: seq<Entry>, c: Ctx, h: seq<Cell>)
    requires |es| == |c.types| && Typed(c, h) && |h| > 0
    requires forall i :: 0 <= i < |es| ==> OBJ_STRING <= es[i].tc <= OBJ_USERDATA && es[i].tc == c.types[i]
    ensures Matches(es, c, |h|)
  {
    hide KindOf, Kind;
    forall i | 0 <= i < |c.ptr|
      ensures c.ptr[i] < |h|
    {
      assert i > 0 ==> 0 < c.ptr[i] < |h|;
    }
  }

  lemma MadeIsTyped(base: State, es: seq<Entry>, p: Created, c: Ctx)
    requires Made(base, es, p, |es|) && c.ptr == p.ptr && |c.types| == |es| && forall i :: 0 <= i < |es| ==> c.types[i] == es[i].tc
    ensures Typed(c, p.heap) && SafeHeap(p.heap) && Kept(base.heap, p.heap)
  {
    hide SafeHeap, Kept, KindOf, Kind;
  }

  /** The heap as the fill passes leave it. */
  lemma FilledSafe(data: seq<byte>, env: Env, base: State, es: seq<Entry>, p: Created, c: Ctx, main: nat)
    requires SafeState(base) && Made(base, es, p, |es|) && c.ptr == p.ptr && |c.types| == |es| && main <= |es|
    requires forall i :: 0 <= i < |es| ==> OBJ_STRING <= es[i].tc <= OBJ_USERDATA && es[i].tc == c.types[i]
    ensures |p.ptr| == |es| + 1
    ensures var h := SetObjids(p.heap, es, p.ptr, |es|);
            && Matches(es, c, |h|) && |h| == |p.heap|
            && var g := FillAll(data, env, es, c, Load(h, false, false), main).heap;
            && Safe(c, g) && Kept(base.heap, g)
  {
    hide SafeHeap, KindOf, Kind, Kept, Typed, FillAll, SetObjids, Matches;
    MadeIsTyped(base, es, p, c);
    BaseKept(base, p.heap);
    var h := SetObjids(p.heap, es, p.ptr, |es|);
    ObjidsKept(p.heap, h);
    TypedStays(c, p.heap, h);
    IndexMatches(es, c, h);
    FillAllSafe(data, env, es, c, Load(h, false, false), main);
    KeptTwice(base.heap, p.heap, h);
    KeptTwice(base.heap, h, FillAll(data, env, es, c, Load(h, false, false), main).heap);
  }

  lemma BaseKept(base: State, h: seq<Cell>)
    requires SafeState(base) && Kept(base.heap, h)
    ensures 0 < base.main < |h| && h[base.main].obj.Thread?
    ensures 0 < base.registry < |h| && h[base.registry].obj.Table?
  {
    hide SafeHeap;
    assert KindOf(h[base.main].obj) == KindOf(base.heap[base.main].obj) && KindOf(h[base.registry].obj) == KindOf(base.heap[base.registry].obj);
  }

  lemma RootsSafe(base: State, c: Ctx, h: seq<Cell>, roots: Roots)
    requires SafeState(base) && Safe(c, h) && Kept(base.heap, h)
    ensures var registry := Resolve(c, roots.registry, OBJ_TABLE);
            var st := State(h, if registry.v == NULL then base.registry else registry.v, base.main, ResolveAll(c, roots.mt, OBJ_TABLE).v, 0, 0);
            SafeState(st)
  {
    BaseKept(base, h);
    hide SafeHeap, Kept, Typed, Resolve, ResolveAll, AllPointTo;
    ResolveSafe(c, h, roots.registry);
    ResolveAllSafe(c, h, roots.mt);
  }

  lemma RelinkedIsSafe(data: seq<byte>, env: Env, base: State, es: seq<Entry>, roots: Roots)
    requires SafeState(base) && roots.main <= |es| && (roots.main > 0 ==> es[roots.main - 1].tc == OBJ_THREAD)
    requires forall e :: e in es ==> OBJ_STRING <= e.tc <= OBJ_USERDATA
    ensures base.main < |base.heap|
    ensures var r := Relinked(data, env, base, es, roots); r.Loaded? ==> SafeState(r.state)
  {
    hide SafeState, Made, CreateAll, FillAll, SetObjids, Resolve, ResolveAll, Safe, Kept;
    CreateAllSafe(data, base, es, roots.main, |es|);
    var p := CreateAll(data, base, es, roots.main, |es|);
    if !p.failed && !p.undefined {
      var c := Ctx(seq(|es|, i requires 0 <= i < |es| => es[i].tc), p.ptr);
      FilledSafe(data, env, base, es, p, c, roots.main);
      RootsSafe(base, c, FillAll(data, env, es, c, Load(SetObjids(p.heap, es, p.ptr, |es|), false, false), roots.main).heap, roots);
    }
  }

  lemma IndexInRange(data: seq<byte>, pos: nat, end: nat, es: seq<Entry>)
    requires forall e :: e in es ==> OBJ_STRING <= e.tc <= OBJ_USERDATA
    ensures IndexFrom(data, pos, end, es).Indexed? ==>
              forall e :: e in IndexFrom(data, pos, end, es).entries ==> OBJ_STRING <= e.tc <= OBJ_USERDATA
  {
  }

  /** Whatever the bytes are: if the load does not refuse them, and does not run past the end
      of a record, every pointer of the resulting state is NULL or leads to an object of the
      kind that its use demands. */
  lemma LoadIsSafe(data: seq<byte>, env: Env, base: State)
    requires SafeState(base)
    ensures base.main < |base.heap|
    ensures var r := LoadState(data, env, base); r.Loaded? ==> SafeState(r.state)
  {
    hide SafeHeap, Relinked, IndexFrom, ReadRoots, UnLe;
    if |data| >= HEADER + FOOTER {
      IndexInRange(data, HEADER, |data| - FOOTER, []);
      var x := IndexFrom(data, HEADER, |data| - FOOTER, []);
      if x.Indexed? && ReadRoots(data, x.pos).Got? {
        var roots := ReadRoots(data, x.pos).value;
        if roots.main == 0 || (roots.main <= |x.entries| && x.entries[roots.main - 1].tc == OBJ_THREAD) {
          RelinkedIsSafe(data, env, base, x.entries, roots);
        }
      }
    }
  }
}
