// Saving a state and loading the bytes gives an isomorphic state.
module RoundTrip {
  import opened Words
  import opened Heap
  import opened Graph
  import opened Discovery
  import opened ObjTable
  import opened Snapshot
  import opened WellFormed
  import opened Saving
  import opened WholeSave
  import opened NormalForm
  import opened LoadIndex
  import opened LoadSpec
  import opened LoadFill

  /** The names that a load knows lead back to the functions that a save named. */
  ghost predicate Names(env: Env) {
    && (forall fn :: fn in env.cname ==> NameOk(env, fn))
    && (forall k :: k in env.kname ==> KontOk(env, k))
  }

  /** A string object that is not a short one although its contents would fit one: only
      the contents of such a string may lie outside the heap. */
  predicate External(o: Obj) {
    o.Str? && !o.short && |o.s| <= MAXSHORTLEN
  }

  /** The names that a prototype's debug information gives. */
  ghost predicate NamesInterned(h: seq<Cell>, p: ProtoData) {
    && NotExternal(h, p.source)
    && (forall i :: 0 <= i < |p.upvalues| ==> NotExternal(h, p.upvalues[i].name))
    && (forall i :: 0 <= i < |p.locvars| ==> NotExternal(h, p.locvars[i].name))
  }

  predicate IsShort(o: Obj) {
    o.Str? && o.short
  }

  predicate NotExternal(h: seq<Cell>, r: Ref) {
    r < |h| ==> !External(h[r].obj)
  }

  /** What the string table guarantees: no short string is long, there is one short string
      with given contents, and the compiler takes its names from the table. */
  ghost predicate StringsSane(s: State) {
    && (forall r :: r in Order(s) && s.heap[r].obj.Str? ==>
          |s.heap[r].obj.s| < 0x1_0000_0000 && (s.heap[r].obj.short ==> |s.heap[r].obj.s| <= MAXSHORTLEN))
    && (forall r, q :: r in Order(s) && q in Order(s) && r != q && IsShort(s.heap[r].obj) && IsShort(s.heap[q].obj) ==>
          s.heap[r].obj.s != s.heap[q].obj.s)
    && (forall r :: r in Order(s) && s.heap[r].obj.Proto? ==> NamesInterned(s.heap, s.heap[r].obj.p))
  }

  /** Every string of the snapshot that is short enough to be interned is. */
  ghost predicate StringsInterned(s: State) {
    forall r :: r in Order(s) ==> !External(s.heap[r].obj)
  }

  /** The normal form's cells are the objects that `ids` names. */
  ghost predicate Images(h: seq<Cell>, ids: map<Ref, Ref>, nh: seq<Cell>) {
    forall r {:trigger ids[r]} :: r in ids ==>
      && 0 < r < |h| && 0 < ids[r] < |nh|
      && nh[ids[r]].obj == MapObj(Canon(h, h[r].obj), ids)
  }

  lemma CellOf(s: State, i: nat)
    requires i < |Order(s)|
    ensures var r := Order(s)[i]; var nh := Normal(s).heap;
            && 0 < r < |s.heap| && |nh| == |Order(s)| + 1 && Ids(Order(s))[r] == i + 1
            && nh[i + 1] == Cell(s.heap[r].objid, MapObj(Canon(s.heap, s.heap[r].obj), Ids(Order(s))))
  {
    IdsAre(Order(s), |s.heap|, i);
    hide Order, Canon, MapObj, Ids;
  }

  lemma NormalIsImages(s: State)
    ensures Images(s.heap, Ids(Order(s)), Normal(s).heap)
  {
    hide Order, Canon, MapObj, Ids, Normal;
    var order := Order(s);
    var ids := Ids(order);
    var nh := Normal(s).heap;
    forall r {:trigger ids[r]} | r in ids
      ensures 0 < r < |s.heap| && 0 < ids[r] < |nh|
      ensures nh[ids[r]].obj == MapObj(Canon(s.heap, s.heap[r].obj), ids)
    {
      var i :| 0 <= i < |order| && order[i] == r;
      CellOf(s, i);
    }
  }

  // ----------------------------------------------- normal forms are loadable

  lemma KindKept(h: seq<Cell>, o: Obj, ids: map<Ref, Ref>)
    ensures var n := MapObj(Canon(h, o), ids);
            && (IsTable(n) <==> IsTable(o)) && (IsProto(n) <==> IsProto(o)) && (IsStr(n) <==> IsStr(o)) && (IsUpval(n) <==> IsUpval(o))
            && (n.Thread? <==> o.Thread?) && (n.UpOpen? <==> o.UpOpen?) && (n.LClosure? <==> o.LClosure?)
  {
  }

  lemma PointerKept(h: seq<Cell>, ids: map<Ref, Ref>, nh: seq<Cell>, r: Ref, ok: Obj -> bool)
    requires Images(h, ids, nh) && PointsTo(h, r, ok) && Heap.NULL !in ids
    requires forall o {:trigger ok(o)} :: ok(MapObj(Canon(h, o), ids)) == ok(o)
    ensures PointsTo(nh, Look(ids, r), ok)
  {
    hide MapObj, Canon;
    if r in ids {
      assert ok(nh[ids[r]].obj) == ok(h[r].obj);
    }
  }

  /** What the lemmas below share: names for functions, cells for ids, no id for NULL. */
  ghost predicate Setting(h: seq<Cell>, ids: map<Ref, Ref>, nh: seq<Cell>, env: Env) {
    Images(h, ids, nh) && Heap.NULL !in ids && Names(env)
  }

  lemma TvFine(h: seq<Cell>, ids: map<Ref, Ref>, nh: seq<Cell>, env: Env, v: TValue)
    requires Setting(h, ids, nh, env) && WritableTv(env, v) && (v.Gc? ==> v.ref in ids)
    ensures v != Empty ==> FineTv(nh, env, MapTv(v, ids))
    ensures FineSlot(nh, env, MapTv(if IsNil(v) then Empty else v, ids))
  {
    hide MapObj, Canon;
    if v.Gc? {
      assert 0 < ids[v.ref] < |nh|;
    }
  }

  lemma TvsFine(h: seq<Cell>, ids: map<Ref, Ref>, nh: seq<Cell>, env: Env, vs: seq<TValue>)
    requires Setting(h, ids, nh, env) && WritableTvs(env, vs) && Named(vs, ids) && Values(vs)
    ensures FineTvs(nh, env, MapTvs(vs, ids)) && Values(MapTvs(vs, ids))
  {
    hide Setting, FineTv, WritableTv, FineSlot;
    forall i | 0 <= i < |vs|
      ensures FineTv(nh, env, MapTv(vs[i], ids)) && MapTv(vs[i], ids) != Empty && MapTv(vs[i], ids) != Gc(Heap.NULL)
    {
      assert vs[i] in vs;
      TvFine(h, ids, nh, env, vs[i]);
      FineNotNull(nh, env, MapTv(vs[i], ids));
    }
  }

  lemma FineNotNull(nh: seq<Cell>, env: Env, v: TValue)
    requires FineTv(nh, env, v)
    ensures v != Empty && v != Gc(Heap.NULL)
  {
  }

  lemma ArrFine(h: seq<Cell>, ids: map<Ref, Ref>, nh: seq<Cell>, env: Env, arr: seq<TValue>)
    requires Setting(h, ids, nh, env) && WritableTvs(env, arr) && Named(arr, ids)
    ensures forall i :: 0 <= i < |arr| ==> FineSlot(nh, env, MapTvs(CanonArr(arr), ids)[i])
  {
    hide Setting, FineTv, WritableTv, FineSlot, IsNil;
    forall i | 0 <= i < |arr|
      ensures FineSlot(nh, env, MapTvs(CanonArr(arr), ids)[i])
    {
      assert arr[i] in arr;
      TvFine(h, ids, nh, env, arr[i]);
    }
  }

  lemma NodeFine(h: seq<Cell>, ids: map<Ref, Ref>, nh: seq<Cell>, env: Env, n: Node, i: nat, size: nat)
    requires Setting(h, ids, nh, env) && GoodNode(n, i, size) && |nh| > 0
    requires forall v :: v in LiveEdges(n) ==> WritableTv(env, v) && (v.Gc? ==> v.ref in ids)
    ensures FineNode(nh, env, MapNode(n, ids), i, size)
  {
    hide Setting, FineTv, WritableTv, FineSlot, IsNaN;
    if n.Node? && n.key.Live? {
      assert LiveEdges(n)[0] == n.key.value && LiveEdges(n)[1] == n.val;
      NaNKept(n.key.value, ids);
      TvFine(h, ids, nh, env, n.key.value);
      TvFine(h, ids, nh, env, n.val);
    } else if n.Node? {
      DeadIn(h, ids, nh, env, n.key.ref);
    }
  }

  lemma DeadIn(h: seq<Cell>, ids: map<Ref, Ref>, nh: seq<Cell>, env: Env, r: Ref)
    requires Setting(h, ids, nh, env)
    ensures |nh| > 0 ==> Look(ids, r) < |nh|
  {
    hide MapObj, Canon;
  }

  lemma NaNKept(v: TValue, m: map<Ref, Ref>)
    ensures IsNaN(MapTv(v, m)) == IsNaN(v)
  {
  }

  lemma OneNodeFine(h: seq<Cell>, ids: map<Ref, Ref>, nh: seq<Cell>, env: Env, nodes: seq<Node>, i: nat)
    requires Setting(h, ids, nh, env) && WritableTvs(env, NodeEdges(nodes)) && Named(NodeEdges(nodes), ids) && |nh| > 0
    requires i < |nodes| && GoodNode(nodes[i], i, |nodes|)
    ensures FineNode(nh, env, MapNode(nodes[i], ids), i, |nodes|)
  {
    hide Setting, WritableTv, FineNode, GoodNode, MapNode, NodeEdges, Named, LiveEdges;
    NodeEdgesGrow(nodes, i);
    forall v | v in LiveEdges(nodes[i])
      ensures WritableTv(env, v) && (v.Gc? ==> v.ref in ids)
    {
      if v.Gc? {
        NamedIn(NodeEdges(nodes), ids, v);
      }
    }
    NodeFine(h, ids, nh, env, nodes[i], i, |nodes|);
  }

  lemma NodesFine(h: seq<Cell>, ids: map<Ref, Ref>, nh: seq<Cell>, env: Env, nodes: seq<Node>)
    requires Setting(h, ids, nh, env) && WritableTvs(env, NodeEdges(nodes)) && Named(NodeEdges(nodes), ids) && |nh| > 0
    requires forall i :: 0 <= i < |nodes| ==> GoodNode(nodes[i], i, |nodes|)
    ensures forall i :: 0 <= i < |nodes| ==> FineNode(nh, env, MapNodes(nodes, ids)[i], i, |nodes|)
  {
    hide Setting, WritableTvs, FineNode, GoodNode, MapNode, NodeEdges, Named;
    forall i | 0 <= i < |nodes|
      ensures FineNode(nh, env, MapNodes(nodes, ids)[i], i, |nodes|)
    {
      OneNodeFine(h, ids, nh, env, nodes, i);
    }
  }

  lemma NamedIn(vs: seq<TValue>, ids: map<Ref, Ref>, v: TValue)
    requires Named(vs, ids) && v in vs && v.Gc?
    ensures v.ref in ids
  {
  }

  lemma PointersKept(h: seq<Cell>, ids: map<Ref, Ref>, nh: seq<Cell>, env: Env)
    requires Setting(h, ids, nh, env)
    ensures forall r {:trigger PointsTo(h, r, IsTable)} :: PointsTo(h, r, IsTable) ==> PointsTo(nh, Look(ids, r), IsTable)
    ensures forall r {:trigger PointsTo(h, r, IsProto)} :: PointsTo(h, r, IsProto) ==> PointsTo(nh, Look(ids, r), IsProto)
    ensures forall r {:trigger PointsTo(h, r, IsStr)} :: PointsTo(h, r, IsStr) ==> PointsTo(nh, Look(ids, r), IsStr)
    ensures forall r {:trigger PointsTo(h, r, IsUpval)} :: PointsTo(h, r, IsUpval) ==> PointsTo(nh, Look(ids, r), IsUpval)
  {
    hide MapObj, Canon, IsTable, IsProto, IsStr, IsUpval, PointsTo, Images, Look;
    forall o
      ensures IsTable(MapObj(Canon(h, o), ids)) == IsTable(o) && IsProto(MapObj(Canon(h, o), ids)) == IsProto(o)
      ensures IsStr(MapObj(Canon(h, o), ids)) == IsStr(o) && IsUpval(MapObj(Canon(h, o), ids)) == IsUpval(o)
    {
      KindKept(h, o, ids);
    }
    forall r | PointsTo(h, r, IsTable)
      ensures PointsTo(nh, Look(ids, r), IsTable)
    {
      PointerKept(h, ids, nh, r, IsTable);
    }
    forall r | PointsTo(h, r, IsProto)
      ensures PointsTo(nh, Look(ids, r), IsProto)
    {
      PointerKept(h, ids, nh, r, IsProto);
    }
    forall r | PointsTo(h, r, IsStr)
      ensures PointsTo(nh, Look(ids, r), IsStr)
    {
      PointerKept(h, ids, nh, r, IsStr);
    }
    forall r | PointsTo(h, r, IsUpval)
      ensures PointsTo(nh, Look(ids, r), IsUpval)
    {
      PointerKept(h, ids, nh, r, IsUpval);
    }
  }

  lemma TableFine(h: seq<Cell>, ids: map<Ref, Ref>, nh: seq<Cell>, env: Env, arr: seq<TValue>, nodes: seq<Node>,
        mt: Ref)
    requires Setting(h, ids, nh, env) && |nh| > 0 && GoodTable(h, arr, nodes, mt)
    requires WritableTvs(env, arr) && WritableTvs(env, NodeEdges(nodes)) && Named(arr, ids)
    requires Named(NodeEdges(nodes), ids)
    ensures FineTable(nh, env, MapTvs(CanonArr(arr), ids), MapNodes(nodes, ids), Look(ids, mt))
  {
    hide Setting, WritableTvs, Named, FineNode, GoodNode, MapNode, NodeEdges, FineSlot, PointsTo, NoNulls, Look,
         PowerOfTwo, MapTv, IsNil;
    ArrFine(h, ids, nh, env, arr);
    NodesFine(h, ids, nh, env, nodes);
    PointersKept(h, ids, nh, env);
    assert PointsTo(h, mt, IsTable);
  }

  lemma ProtoFine(h: seq<Cell>, ids: map<Ref, Ref>, nh: seq<Cell>, env: Env, p: ProtoData)
    requires Setting(h, ids, nh, env) && GoodProto(h, p) && WritableTvs(env, p.k) && Named(p.k, ids)
    ensures FineProto(nh, env, MapProto(p.(flag := StripFixed(p.flag)), ids))
  {
    hide Setting, WritableTvs, Named, FineTvs, PointsTo, Values, Look, StripFixed, MapTv;
    TvsFine(h, ids, nh, env, p.k);
    PointersKept(h, ids, nh, env);
    assert PointsTo(h, p.source, IsStr);
    forall i | 0 <= i < |p.p|
      ensures PointsTo(nh, MapRefs(p.p, ids)[i], IsProto)
    {
      assert PointsTo(h, p.p[i], IsProto);
    }
    forall i | 0 <= i < |p.upvalues|
      ensures PointsTo(nh, MapUps(p.upvalues, ids)[i].name, IsStr)
    {
      assert PointsTo(h, p.upvalues[i].name, IsStr);
    }
    forall i | 0 <= i < |p.locvars|
      ensures PointsTo(nh, MapVars(p.locvars, ids)[i].name, IsStr)
    {
      assert PointsTo(h, p.locvars[i].name, IsStr);
    }
  }

  lemma ClosureFine(h: seq<Cell>, ids: map<Ref, Ref>, nh: seq<Cell>, env: Env, us: seq<Ref>)
    requires Setting(h, ids, nh, env) && AllPointTo(h, us, IsUpval)
    ensures AllPointTo(nh, MapRefs(us, ids), IsUpval)
  {
    hide Setting, PointsTo, Look;
    PointersKept(h, ids, nh, env);
    forall i | 0 <= i < |us|
      ensures PointsTo(nh, MapRefs(us, ids)[i], IsUpval)
    {
      assert PointsTo(h, us[i], IsUpval);
    }
  }

  // ------------------------------------------------------------------ threads

  /** The prototypes that the Lua frames run have ids. */
  ghost predicate FramesNamed(h: seq<Cell>, frames: seq<Frame>, ids: map<Ref, Ref>) {
    forall i :: 0 <= i < |frames| && frames[i].arm.LuaArm? ==>
      frames[i].arm.proto in ids && frames[i].arm.proto < |h| && h[frames[i].arm.proto].obj.Proto?
  }

  lemma FrameNamed(s: State, stack: seq<TValue>, f: Frame)
    requires GoodState(s) && !Discover(GraphOf(s)).error && GoodFrame(s.heap, stack, f)
    requires Named(stack, Ids(Order(s))) && f.arm.LuaArm?
    ensures f.arm.proto in Ids(Order(s)) && f.arm.proto < |s.heap| && s.heap[f.arm.proto].obj.Proto?
  {
    var c := stack[f.func].ref;
    hide GoodState, Discover, GraphOf, Ids, Order, EdgesNamed;
    ClosedUnderEdges(s, c);
    EdgeNamed(s.heap[c].obj, Ids(Order(s)));
  }

  lemma EdgeNamed(o: Obj, ids: map<Ref, Ref>)
    requires EdgesNamed(o, ids) && o.LClosure? && o.proto != Heap.NULL
    ensures o.proto in ids
  {
    assert Edges(o)[0] == Gc(o.proto);
  }

  lemma FrameFine(h: seq<Cell>, ids: map<Ref, Ref>, nh: seq<Cell>, env: Env, f: Frame)
    requires Setting(h, ids, nh, env) && WritableFrame(env, f)
    requires f.arm.LuaArm? ==> f.arm.proto in ids && f.arm.proto < |h| && h[f.arm.proto].obj.Proto?
    ensures FineArm(nh, env, MapFrame(CanonFrame(h, f), ids).arm)
  {
    hide MapObj, Canon, Bit;
    if f.arm.LuaArm? {
      KindKept(h, h[f.arm.proto].obj, ids);
      assert nh[ids[f.arm.proto]].obj == MapObj(Canon(h, h[f.arm.proto].obj), ids);
    }
  }

  lemma FramesFine(h: seq<Cell>, ids: map<Ref, Ref>, nh: seq<Cell>, env: Env, fs: seq<Frame>)
    requires Setting(h, ids, nh, env) && FramesNamed(h, fs, ids) && forall f :: f in fs ==> WritableFrame(env, f)
    ensures forall j :: 0 <= j < |fs| ==> FineArm(nh, env, MapFrames(CanonFrames(h, fs), ids)[j].arm)
  {
    hide Setting, WritableFrame, CanonFrame, MapFrame, FineArm;
    forall j | 0 <= j < |fs|
      ensures FineArm(nh, env, MapFrames(CanonFrames(h, fs), ids)[j].arm)
    {
      assert fs[j] in fs;
      FrameFine(h, ids, nh, env, fs[j]);
    }
  }

  lemma OpensFine(h: seq<Cell>, ids: map<Ref, Ref>, nh: seq<Cell>, env: Env, self: Ref, open: seq<Ref>)
    requires Setting(h, ids, nh, env) && GoodOpens(h, self, open) && self in ids
    requires forall i :: 0 <= i < |open| ==> open[i] in ids
    ensures GoodOpens(nh, ids[self], MapRefs(open, ids))
  {
    var os := MapRefs(open, ids);
    forall i | 0 <= i < |open|
      ensures 0 < os[i] < |nh| && h[open[i]].obj.UpOpen? && nh[os[i]].obj == UpOpen(ids[self], h[open[i]].obj.slot)
    {
      var u := open[i];
      assert nh[ids[u]].obj == MapObj(Canon(h, h[u].obj), ids);
    }
  }

  // --------------------------------------------------------- the normal form

  /** A state that is saved, and what the virtual machine and the name maps guarantee. */
  ghost predicate Storable(s: State, env: Env) {
    && GoodState(s) && Savable(s, env) && Names(env) && StringsSane(s)
    && ShortRecords(WireRecs(Normal(s).heap, env))
  }

  /** What is known of one object of a storable state. */
  ghost predicate Stored(s: State, env: Env, r: Ref) {
    var ids := Ids(Order(s));
    && 0 < r < |s.heap| && r in ids && GoodAt(s.heap, r) && EdgesNamed(s.heap[r].obj, ids) && Writable(env, s.heap[r].obj)
  }

  lemma StorableParts(s: State, env: Env)
    requires Storable(s, env)
    ensures GoodState(s) && !Discover(GraphOf(s)).error && Names(env) && StringsSane(s) && Savable(s, env)
    ensures ShortRecords(WireRecs(Normal(s).heap, env))
  {
    hide GoodState, StringsSane, Names, Discover, GraphOf, Writable, ShortRecords;
  }

  lemma IsStored(s: State, env: Env, r: Ref)
    requires GoodState(s) && Savable(s, env) && r in Order(s)
    ensures Stored(s, env, r)
  {
    ClosedUnderEdges(s, r);
    hide Discover, GraphOf, Order, Ids, GoodAt, EdgesNamed, Writable;
  }

  lemma StoredFrames(s: State, env: Env, r: Ref)
    requires GoodState(s) && Savable(s, env) && Stored(s, env, r) && s.heap[r].obj.Thread?
    ensures FramesNamed(s.heap, s.heap[r].obj.frames, Ids(Order(s)))
  {
    assert !Discover(GraphOf(s)).error;
    PartsNamed(s.heap, r, Ids(Order(s)));
    var o := s.heap[r].obj;
    assert forall i :: 0 <= i < |o.frames| ==> GoodFrame(s.heap, o.stack, o.frames[i]);
    hide GoodState, Savable, Stored, Discover, GraphOf, Order, Ids, GoodAt, EdgesNamed, Named, GoodFrame;
    forall i | 0 <= i < |o.frames| && o.frames[i].arm.LuaArm?
      ensures o.frames[i].arm.proto in Ids(Order(s)) && o.frames[i].arm.proto < |s.heap|
      ensures s.heap[o.frames[i].arm.proto].obj.Proto?
    {
      FrameNamed(s, o.stack, o.frames[i]);
    }
  }

  lemma SettingOf(s: State, env: Env)
    requires Names(env)
    ensures Setting(s.heap, Ids(Order(s)), Normal(s).heap, env) && |Normal(s).heap| > 0
  {
    NormalIsImages(s);
    hide Order, Ids, Images, Names;
  }

  /** The image of an object of the state, with its id. */
  lemma ImageFine(h: seq<Cell>, ids: map<Ref, Ref>, nh: seq<Cell>, env: Env, r: Ref)
    requires Setting(h, ids, nh, env) && |nh| > 0 && 0 < r < |h| && r in ids && ids[r] < |nh|
    requires nh[ids[r]].obj == MapObj(Canon(h, h[r].obj), ids)
    requires GoodAt(h, r) && EdgesNamed(h[r].obj, ids) && Writable(env, h[r].obj)
    requires h[r].obj.Thread? ==> FramesNamed(h, h[r].obj.frames, ids)
    requires h[r].obj.Str? ==> |h[r].obj.s| < 0x1_0000_0000
    ensures FineAt(nh, env, ids[r])
  {
    PartsNamed(h, r, ids);
    var o := h[r].obj;
    hide Setting, EdgesNamed, WritableTvs, WritableFrame, FramesNamed, GoodTable, GoodProto, GoodOpens,
         GoodFrame, FineTable, FineProto,
         FineArm, Named, FineTvs, Values, NodeEdges, PointsTo, AllPointTo, StripFixed, FineTv, WritableTv, Bit;
    match o
    case Str(_, _) =>
    case Table(arr, nodes, mt) => TableFine(h, ids, nh, env, arr, nodes, mt);
    case Proto(p) => ProtoFine(h, ids, nh, env, p);
    case LClosure(p, us) =>
      PointersKept(h, ids, nh, env);
      assert PointsTo(h, p, IsProto);
      ClosureFine(h, ids, nh, env, us);
    case CClosure(fn, us) =>
      TvsFine(h, ids, nh, env, us);
      NamesHave(h, ids, nh, env, fn);
    case UpClosed(v) => ValueFine(h, ids, nh, env, v);
    case UpOpen(_, _) =>
    case Thread(_, stack, frames, open) =>
      TvsFine(h, ids, nh, env, stack);
      FramesFine(h, ids, nh, env, frames);
      OpensFine(h, ids, nh, env, r, open);
    case Udata(uvs, b, mt) =>
      PointersKept(h, ids, nh, env);
      assert PointsTo(h, mt, IsTable);
      assert MapTvs(uvs, ids) == [];
  }

  lemma NamesHave(h: seq<Cell>, ids: map<Ref, Ref>, nh: seq<Cell>, env: Env, fn: nat)
    requires Setting(h, ids, nh, env) && fn in env.cname
    ensures NameOk(env, fn)
  {
  }

  lemma ValueFine(h: seq<Cell>, ids: map<Ref, Ref>, nh: seq<Cell>, env: Env, v: TValue)
    requires Setting(h, ids, nh, env) && WritableTv(env, v) && Values([v]) && (v.Gc? ==> v.ref in ids)
    ensures FineTv(nh, env, MapTv(v, ids))
  {
    assert [v][0] == v;
    TvFine(h, ids, nh, env, v);
    hide Setting, FineTv, FineSlot;
  }

  lemma CellFine(s: State, env: Env, i: nat)
    requires Storable(s, env) && i < |Order(s)|
    ensures |Normal(s).heap| == |Order(s)| + 1 && FineAt(Normal(s).heap, env, i + 1)
  {
    hide *;
    var r := Order(s)[i];
    StorableParts(s, env);
    CellOf(s, i);
    IsStored(s, env, r);
    SettingOf(s, env);
    StoredIs(s, env, r);
    ImageFine(s.heap, Ids(Order(s)), Normal(s).heap, env, r);
  }

  lemma StoredIs(s: State, env: Env, r: Ref)
    requires GoodState(s) && Savable(s, env) && Stored(s, env, r) && StringsSane(s) && r in Order(s)
    ensures 0 < r < |s.heap| && r in Ids(Order(s)) && GoodAt(s.heap, r)
    ensures EdgesNamed(s.heap[r].obj, Ids(Order(s))) && Writable(env, s.heap[r].obj)
    ensures s.heap[r].obj.Thread? ==> FramesNamed(s.heap, s.heap[r].obj.frames, Ids(Order(s)))
    ensures s.heap[r].obj.Str? ==> |s.heap[r].obj.s| < 0x1_0000_0000
  {
    if s.heap[r].obj.Thread? {
      StoredFrames(s, env, r);
    }
    hide GoodState, Savable, Discover, GraphOf, Order, Ids, GoodAt, EdgesNamed, Writable, FramesNamed;
  }

  // ------------------------------------------------------------------ roots

  /** Whatever the roots refer to is numbered. */
  lemma RootNamed(s: State, i: nat)
    requires GoodState(s) && !Discover(GraphOf(s)).error && i < |RootEdges(s)|
    ensures var v := RootEdges(s)[i]; v.Gc? && v.ref != Heap.NULL ==> v.ref in Order(s)
  {
    hide Discover, Bfs, Serializable;
    var g := GraphOf(s);
    DiscoverScans(g);
    assert Absorbed(Discover(g), g.roots);
    assert g.roots[i] == MoveOf(s.heap, RootEdges(s)[i]) && g.roots[i] in g.roots;
    assert RootEdges(s)[i] in RootEdges(s);
  }

  lemma RootsNamed(s: State)
    requires GoodState(s) && !Discover(GraphOf(s)).error
    ensures s.registry in Order(s) && s.main in Order(s)
    ensures forall i :: 0 <= i < |s.mt| && s.mt[i] != Heap.NULL ==> s.mt[i] in Order(s)
  {
    RegistryAndMain(s);
    hide Discover, GraphOf, Order, GoodState;
    assert RootEdges(s)[0] == Gc(s.registry) && RootEdges(s)[1] == Gc(s.main);
    RootNamed(s, 0);
    RootNamed(s, 1);
    forall i | 0 <= i < |s.mt| && s.mt[i] != Heap.NULL
      ensures s.mt[i] in Order(s)
    {
      assert RootEdges(s)[i + 2] == Gc(s.mt[i]);
      RootNamed(s, i + 2);
    }
  }

  lemma RegistryAndMain(s: State)
    requires GoodState(s)
    ensures s.registry != Heap.NULL && s.main != Heap.NULL
    ensures s.registry < |s.heap| && s.heap[s.registry].obj.Table?
    ensures s.main < |s.heap| && s.heap[s.main].obj.Thread?
    ensures |s.mt| == NUMTYPES && AllPointTo(s.heap, s.mt, IsTable) && |s.heap| < MAX_ENTRIES
  {
    hide GoodAt, SaneAt, InRange;
  }

  lemma MtFine(h: seq<Cell>, ids: map<Ref, Ref>, nh: seq<Cell>, env: Env, rs: seq<Ref>)
    requires Setting(h, ids, nh, env) && AllPointTo(h, rs, IsTable)
    ensures AllPointTo(nh, MapRefs(rs, ids), IsTable)
  {
    hide Setting, PointsTo, Look;
    PointersKept(h, ids, nh, env);
    forall i | 0 <= i < |rs|
      ensures PointsTo(nh, MapRefs(rs, ids)[i], IsTable)
    {
      assert PointsTo(h, rs[i], IsTable);
    }
  }

  lemma RootFine(s: State, r: Ref)
    requires r in Order(s)
    ensures var id := Look(Ids(Order(s)), r); var nh := Normal(s).heap;
            && 0 < id < |nh| && r < |s.heap| && (nh[id].obj.Table? <==> s.heap[r].obj.Table?) && (nh[id].obj.Thread? <==> s.heap[r].obj.Thread?)
  {
    hide Order, Ids, Normal, MapObj, Canon;
    var i :| 0 <= i < |Order(s)| && Order(s)[i] == r;
    CellOf(s, i);
    KindKept(s.heap, s.heap[r].obj, Ids(Order(s)));
  }

  lemma NotTwice(s: State, i: nat, j: nat)
    requires i < j < |Order(s)|
    ensures Order(s)[i] != Order(s)[j]
  {
  }

  lemma StringKept(h: seq<Cell>, o: Obj, ids: map<Ref, Ref>)
    ensures MapObj(Canon(h, o), ids).Str? <==> o.Str?
    ensures o.Str? ==> MapObj(Canon(h, o), ids) == o
  {
  }

  /** A load tells the strings of these cells apart, and gets their variants right. */
  ghost predicate Exact(nh: seq<Cell>) {
    && NoTwins(nh)
    && forall i :: 0 < i < |nh| && nh[i].obj.Str? ==> (nh[i].obj.short <==> |nh[i].obj.s| <= MAXSHORTLEN)
  }

  lemma StringsDiffer(s: State, i: nat, j: nat)
    requires StringsSane(s) && StringsInterned(s) && i < j < |Order(s)|
    ensures |Normal(s).heap| == |Order(s)| + 1 && !Twins(Normal(s).heap, i + 1, j + 1)
  {
    hide Order, Ids, Normal;
    CellOf(s, i);
    CellOf(s, j);
    assert Order(s)[i] in Order(s) && Order(s)[j] in Order(s);
    NotTwice(s, i, j);
    StringKept(s.heap, s.heap[Order(s)[i]].obj, Ids(Order(s)));
    StringKept(s.heap, s.heap[Order(s)[j]].obj, Ids(Order(s)));
    hide MapObj, Canon, NamesInterned;
  }

  lemma StringExact(s: State, i: nat)
    requires StringsSane(s) && StringsInterned(s) && i < |Order(s)|
    ensures |Normal(s).heap| == |Order(s)| + 1
    ensures var o := Normal(s).heap[i + 1].obj; o.Str? ==> (o.short <==> |o.s| <= MAXSHORTLEN)
  {
    hide Order, Ids, Normal;
    CellOf(s, i);
    assert Order(s)[i] in Order(s);
    StringKept(s.heap, s.heap[Order(s)[i]].obj, Ids(Order(s)));
    hide MapObj, Canon, NamesInterned;
  }

  lemma NormalExact(s: State)
    requires StringsSane(s) && StringsInterned(s)
    ensures Exact(Normal(s).heap) && |Normal(s).heap| == |Order(s)| + 1
  {
    hide StringsSane, StringsInterned, Order, Ids, NormalCells, Twins;
    var nh := Normal(s).heap;
    forall i, j | 0 < i < j < |nh|
      ensures !Twins(nh, i, j)
    {
      StringsDiffer(s, i - 1, j - 1);
    }
    forall i | 0 < i < |nh| && nh[i].obj.Str?
      ensures nh[i].obj.short <==> |nh[i].obj.s| <= MAXSHORTLEN
    {
      StringExact(s, i - 1);
    }
  }

  lemma NormalSize(s: State)
    ensures |Normal(s).heap| == |Order(s)| + 1 && Normal(s).heap[0] == NO_CELL
  {
    hide Order, Ids;
  }

  lemma NormalRoots(s: State)
    ensures var n := Normal(s); var ids := Ids(Order(s));
            && n.registry == Look(ids, s.registry) && n.main == Look(ids, s.main) && n.mt == MapRefs(s.mt, ids)
            && n.seed == s.seed && n.nextSeq == s.nextSeq
    ensures |Order(s)| < |s.heap| || |s.heap| == 0
  {
    FitsIsShort(Order(s), |s.heap|);
    hide Order, Ids, NormalCells;
  }

  lemma FineBy(n: State, env: Env)
    requires 0 < |n.heap| < 0x4000_0000
    requires forall i :: 0 < i < |n.heap| ==> FineAt(n.heap, env, i)
    requires 0 < n.registry < |n.heap| && n.heap[n.registry].obj.Table?
    requires 0 < n.main < |n.heap| && n.heap[n.main].obj.Thread?
    requires |n.mt| == NUMTYPES && AllPointTo(n.heap, n.mt, IsTable)
    ensures FineNormal(n, env)
  {
    hide FineAt, AllPointTo;
  }

  lemma NormalIsFine(s: State, env: Env)
    requires Storable(s, env)
    ensures FineNormal(Normal(s), env) && ShortRecords(WireRecs(Normal(s).heap, env))
  {
    hide *;
    var n := Normal(s);
    StorableParts(s, env);
    NormalSize(s);
    SettingOf(s, env);
    NormalRoots(s);
    RootsNamed(s);
    RegistryAndMain(s);
    RootFine(s, s.registry);
    RootFine(s, s.main);
    MtFine(s.heap, Ids(Order(s)), n.heap, env, s.mt);
    forall i | 0 < i < |n.heap|
      ensures FineAt(n.heap, env, i)
    {
      CellFine(s, env, i - 1);
    }
    Limit();
    FineBy(n, env);
  }

  lemma Limit()
    ensures MAX_ENTRIES <= 0x4000_0000
  {
  }
}
