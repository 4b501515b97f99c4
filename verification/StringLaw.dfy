// A string that is short enough to be interned but is not: what a load makes of it shows in
// the bytes of the next save.
module StringLaw {
  import opened Heap
  import opened Graph
  import opened Discovery
  import opened Wire
  import opened Records
  import opened Snapshot
  import opened WellFormed
  import opened NormalForm
  import opened LoadSpec
  import opened LoadIndex
  import opened LoadFill
  import opened LoadRelink
  import opened Restore
  import opened RoundTrip
  import opened SaveLoad
  import opened SameBytes
  import opened SaveVerdict

  // ------------------------------------- what a loaded state reaches was loaded

  ghost predicate Within(vs: seq<TValue>, rs: set<Ref>) {
    forall v :: v in vs && v.Gc? && v.ref != Heap.NULL ==> v.ref in rs
  }

  lemma LoadedWithin(nh: seq<Cell>, i: nat, pm: map<Ref, Ref>)
    requires i < |nh|
    ensures Within(Edges(LoadedAs(nh, i, pm)), pm.Values)
  {
    if nh[i].obj.UpOpen? && !Owned(nh, i) {
    } else if nh[i].obj.Str? {
    } else {
      ImageClosed(nh[i].obj, pm);
    }
  }

  lemma RefsWithin(rs: seq<Ref>, pm: map<Ref, Ref>)
    ensures Within(Refs(MapRefs(rs, pm)), pm.Values)
  {
  }

  lemma MoveWithin(h: seq<Cell>, vs: seq<TValue>, rs: set<Ref>, r: Ref)
    requires Within(vs, rs) && To(r) in Moves(h, vs)
    ensures r in rs
  {
    var i :| 0 <= i < |vs| && Moves(h, vs)[i] == To(r);
    assert vs[i] in vs && vs[i] == Gc(r);
  }

  lemma RootsIn(n: State, st: State, ptr: seq<Ref>)
    requires Restores(n, st, ptr) && 0 < n.registry && 0 < n.main
    ensures st.registry in PtrMap(ptr).Values && st.main in PtrMap(ptr).Values && st.mt == MapRefs(n.mt, PtrMap(ptr))
  {
    hide Refilled, MapRefs;
    var pm := PtrMap(ptr);
    assert pm[n.registry] == st.registry && pm[n.main] == st.main;
  }

  lemma EdgesWithin(st: State, rs: set<Ref>)
    requires st.registry in rs && st.main in rs && Within(Refs(st.mt), rs)
    ensures Within(RootEdges(st), rs)
  {
  }

  lemma RootsWithin(n: State, st: State, ptr: seq<Ref>)
    requires Restores(n, st, ptr) && 0 < n.registry && 0 < n.main
    ensures Within(RootEdges(st), PtrMap(ptr).Values)
  {
    hide *;
    RootsIn(n, st, ptr);
    RefsWithin(n.mt, PtrMap(ptr));
    EdgesWithin(st, PtrMap(ptr).Values);
  }

  lemma LoadedObj(n: State, st: State, ptr: seq<Ref>, r: Ref) returns (i: nat)
    requires Restores(n, st, ptr) && r in PtrMap(ptr).Values
    ensures 0 < i < |n.heap| == |ptr| && r == ptr[i] && 0 < r < |st.heap|
    ensures st.heap[r].obj == LoadedAs(n.heap, i, PtrMap(ptr))
  {
    hide LoadedAs, HasTwin, Twins;
    i :| i in PtrMap(ptr) && PtrMap(ptr)[i] == r;
    assert ptr[i] == r;
  }

  lemma {:induction false} ChainWithin(n: State, st: State, ptr: seq<Ref>, p: seq<Vertex>, k: nat)
    requires Restores(n, st, ptr) && 0 < n.registry && 0 < n.main && Chain(GraphOf(st), p) && k < |p|
    ensures p[k] in PtrMap(ptr).Values
  {
    hide Restores, PtrMap, GraphOf, Within;
    var pm := PtrMap(ptr);
    GraphParts(st);
    if k == 0 {
      RootsWithin(n, st, ptr);
      MoveWithin(st.heap, RootEdges(st), pm.Values, p[0]);
    } else {
      ChainWithin(n, st, ptr, p, k - 1);
      var i := LoadedObj(n, st, ptr, p[k - 1]);
      LoadedWithin(n.heap, i, pm);
      MoveWithin(st.heap, Edges(st.heap[p[k - 1]].obj), pm.Values, p[k]);
    }
  }

  /** Everything that the loaded state leads to was made for an id. */
  lemma ReachedIsLoaded(n: State, st: State, ptr: seq<Ref>, r: Ref) returns (i: nat)
    requires Restores(n, st, ptr) && 0 < n.registry && 0 < n.main && r in Order(st)
    ensures 0 < i < |n.heap| == |ptr| && r == ptr[i] && 0 < r < |st.heap|
    ensures st.heap[r].obj == LoadedAs(n.heap, i, PtrMap(ptr))
  {
    DiscoveryIsExactClosure(GraphOf(st));
    assert r in Discover(GraphOf(st)).order;
    hide Restores, PtrMap, GraphOf, LoadedAs, Chain;
    var p :| ChainTo(GraphOf(st), p, r);
    ChainWithin(n, st, ptr, p, |p| - 1);
    i := LoadedObj(n, st, ptr, r);
  }

  // -------------------------------------- the records of the loaded state are sound

  lemma LoadedRecord(nh: seq<Cell>, nh': seq<Cell>, env: Env, h: seq<Cell>, i: nat, a: map<Ref, Ref>, b: map<Ref, Ref>)
    requires i < |nh| && Writes(WireObj(nh, env, nh[i].obj)) && |EncObj(WireObj(nh, env, nh[i].obj))| < 0x1_0000_0000
    ensures var w := WireObj(nh', env, MapObj(Canon(h, LoadedAs(nh, i, a)), b));
            Writes(w) && |EncObj(w)| < 0x1_0000_0000
  {
    if nh[i].obj.UpOpen? && !Owned(nh, i) {
      assert WireObj(nh', env, MapObj(Canon(h, UpClosed(TValue.Nil)), b)) == WUpClosed(WTag(TV_NIL));
    } else if nh[i].obj.Str? {
      assert WireObj(nh', env, MapObj(Canon(h, LoadedAs(nh, i, a)), b)) == WireObj(nh, env, nh[i].obj);
    } else {
      hide *;
      AsMapped(nh, i, a);
      WireLikeTwice(nh, nh', env, h, nh[i].obj, a, b);
    }
  }

  lemma AsMapped(nh: seq<Cell>, i: nat, a: map<Ref, Ref>)
    requires i < |nh|
    ensures (nh[i].obj.UpOpen? && !Owned(nh, i)) || nh[i].obj.Str? || LoadedAs(nh, i, a) == MapObj(nh[i].obj, a)
  {
    hide Owned, MapObj;
  }

  lemma FineRecord(n: State, env: Env, i: nat)
    requires FineNormal(n, env) && ShortRecords(WireRecs(n.heap, env)) && 0 < i < |n.heap|
    ensures Writes(WireObj(n.heap, env, n.heap[i].obj)) && |EncObj(WireObj(n.heap, env, n.heap[i].obj))| < 0x1_0000_0000
  {
    hide FineAt, WireObj, EncObj, ValidObj, PlainObj;
    WireObjValid(n.heap, env, i);
    assert WireRecs(n.heap, env)[i - 1].w == WireObj(n.heap, env, n.heap[i].obj);
  }

  lemma ReloadedRecord(n: State, st: State, env: Env, ptr: seq<Ref>, j: nat)
    requires FineNormal(n, env) && ShortRecords(WireRecs(n.heap, env)) && Restores(n, st, ptr) && j < |Order(st)|
    ensures |Normal(st).heap| == |Order(st)| + 1
    ensures var w := WireObj(Normal(st).heap, env, Normal(st).heap[j + 1].obj); Writes(w) && |EncObj(w)| < 0x1_0000_0000
  {
    hide *;
    FineRoots(n, env);
    CellOf(st, j);
    var i := ReachedIsLoaded(n, st, ptr, Order(st)[j]);
    FineRecord(n, env, i);
    LoadedRecord(n.heap, Normal(st).heap, env, st.heap, i, PtrMap(ptr), Ids(Order(st)));
  }

  lemma RecordsBy(nh: seq<Cell>, env: Env)
    requires forall j :: 0 < j < |nh| ==>
               Writes(WireObj(nh, env, nh[j].obj)) && |EncObj(WireObj(nh, env, nh[j].obj))| < 0x1_0000_0000
    ensures ShortRecords(WireRecs(nh, env)) && AllWrite(WireRecs(nh, env))
  {
    hide WireObj, Writes, EncObj;
    var recs := WireRecs(nh, env);
    forall i | 0 <= i < |recs|
      ensures |EncObj(recs[i].w)| < 0x1_0000_0000 && Writes(recs[i].w)
    {
      assert recs[i].w == WireObj(nh, env, nh[i + 1].obj);
    }
  }

  lemma ReloadedRecords(n: State, st: State, env: Env, ptr: seq<Ref>)
    requires FineNormal(n, env) && ShortRecords(WireRecs(n.heap, env)) && Restores(n, st, ptr)
    ensures AllWrite(WireRecs(n.heap, env))
    ensures ShortRecords(WireRecs(Normal(st).heap, env)) && AllWrite(WireRecs(Normal(st).heap, env))
    ensures |n.mt| == NUMTYPES && |Normal(st).mt| == NUMTYPES
  {
    hide *;
    NormalSize(st);
    MtSize(n, st, env, ptr);
    var nh, nh' := n.heap, Normal(st).heap;
    forall j | 0 < j < |nh'|
      ensures Writes(WireObj(nh', env, nh'[j].obj)) && |EncObj(WireObj(nh', env, nh'[j].obj))| < 0x1_0000_0000
    {
      ReloadedRecord(n, st, env, ptr, j - 1);
    }
    forall j | 0 < j < |nh|
      ensures Writes(WireObj(nh, env, nh[j].obj)) && |EncObj(WireObj(nh, env, nh[j].obj))| < 0x1_0000_0000
    {
      FineRecord(n, env, j);
    }
    RecordsBy(nh, env);
    RecordsBy(nh', env);
  }

  lemma MtSize(n: State, st: State, env: Env, ptr: seq<Ref>)
    requires FineNormal(n, env) && Restores(n, st, ptr)
    ensures |n.mt| == NUMTYPES && |Normal(st).mt| == NUMTYPES
  {
    NormalRoots(st);
    hide FineAt, Refilled, Normal;
  }

  /** If the loaded state is saved to the same bytes, object by object the records are
      the same. */
  lemma SameAgain(s: State, env: Env, st: State, ptr: seq<Ref>)
    requires Storable(s, env) && Restores(Normal(s), st, ptr) && Save(st, env) == Save(s, env)
    ensures WireRecs(Normal(st).heap, env) == WireRecs(Normal(s).heap, env)
  {
    hide *;
    NormalIsFine(s, env);
    StorableSaves(s, env);
    SavedIs(st, env);
    ReloadedRecords(Normal(s), st, env, ptr);
    SameRecords(Normal(st), Normal(s), env);
  }

  lemma SavedIs(s: State, env: Env)
    ensures Save(s, env).Snapshot? ==> Save(s, env).bytes == EncState(Normal(s), env)
  {
    hide Savable, EncState, Normal;
  }

  lemma StorableSaves(s: State, env: Env)
    requires Storable(s, env)
    ensures Save(s, env) == Saved.Snapshot(EncState(Normal(s), env))
  {
    hide Savable, GoodState, Names, StringsSane, ShortRecords, EncState, Normal;
  }

  // ----------------------------------------------- who refers to a saved string

  lemma MoveFrom(h: seq<Cell>, vs: seq<TValue>, r: Ref)
    requires To(r) in Moves(h, vs)
    ensures Gc(r) in vs && r != Heap.NULL
  {
    var i :| 0 <= i < |vs| && Moves(h, vs)[i] == To(r);
    assert vs[i] in vs && vs[i] == Gc(r);
  }

  lemma NoStringRoot(s: State, r: Ref)
    requires GoodState(s) && Gc(r) in RootEdges(s) && 0 < r < |s.heap|
    ensures !s.heap[r].obj.Str?
  {
    hide GoodAt, Sane, InRange;
    var i :| 0 <= i < |RootEdges(s)| && RootEdges(s)[i] == Gc(r);
    if i >= 2 {
      assert RootEdges(s)[i] == Refs(s.mt)[i - 2] && PointsTo(s.heap, s.mt[i - 2], IsTable);
    }
  }

  /** A vertex that is reached is a root's neighbour, or that of a vertex reached. */
  lemma ReachedFrom(g: Graph, r: Vertex) returns (root: bool, u: Vertex)
    requires Good(g) && r in Discover(g).order
    ensures if root then To(r) in g.roots else u in Discover(g).order && u < |g.adj| && To(r) in g.adj[u]
  {
    DiscoveryIsExactClosure(g);
    hide Discover;
    var p :| ChainTo(g, p, r);
    root, u := |p| == 1, 0;
    if !root {
      u := p[|p| - 2];
      assert ChainTo(g, p[..|p| - 1], u);
      assert p[|p| - 1] == r;
    }
  }

  /** A string of the snapshot is referred to by an object of the snapshot. */
  lemma Referrer(s: State, r: Ref) returns (u: Ref)
    requires GoodState(s) && r in Order(s) && 0 < r < |s.heap| && s.heap[r].obj.Str?
    ensures u in Order(s) && u < |s.heap| && Gc(r) in Edges(s.heap[u].obj)
  {
    GraphParts(s);
    assert Order(s) == Discover(GraphOf(s)).order && Good(GraphOf(s));
    hide *;
    var root: bool;
    root, u := ReachedFrom(GraphOf(s), r);
    if root {
      MoveFrom(s.heap, RootEdges(s), r);
      NoStringRoot(s, r);
      assert false;
    } else {
      MoveFrom(s.heap, Edges(s.heap[u].obj), r);
    }
  }

  /** The reference is written with its tag. */
  lemma IsTagged(h: seq<Cell>, env: Env, u: Ref, r: Ref)
    requires 0 < u < |h| && GoodAt(h, u) && Writable(env, h[u].obj) && Gc(r) in Edges(h[u].obj)
    requires 0 < r < |h| && External(h[r].obj) && (h[u].obj.Proto? ==> NamesInterned(h, h[u].obj.p))
    ensures Gc(r) in Tagged(h[u].obj)
  {
    hide NodeEdges, WritableTvs, Values, GoodFrame;
    match h[u].obj
    case Table(arr, nodes, mt) => assert PointsTo(h, mt, IsTable);
    case Proto(p) => ConstantOnly(h, p, r);
    case LClosure(p, us) => NoUpvalString(h, p, us, r);
    case Thread(_, stack, _, open) => NoOpenString(h, u, open, r);
    case Udata(_, _, mt) => assert PointsTo(h, mt, IsTable);
    case _ =>
  }

  lemma ConstantOnly(h: seq<Cell>, p: ProtoData, r: Ref)
    requires GoodProto(h, p) && NamesInterned(h, p) && 0 < r < |h| && External(h[r].obj) && Gc(r) in Edges(Proto(p))
    ensures Gc(r) in p.k
  {
    hide Values;
  }

  lemma NoUpvalString(h: seq<Cell>, p: Ref, us: seq<Ref>, r: Ref)
    requires PointsTo(h, p, IsProto) && AllPointTo(h, us, IsUpval) && 0 < r < |h| && h[r].obj.Str?
    ensures Gc(r) !in Edges(LClosure(p, us))
  {
  }

  lemma NoOpenString(h: seq<Cell>, u: Ref, open: seq<Ref>, r: Ref)
    requires GoodOpens(h, u, open) && 0 < r < |h| && h[r].obj.Str?
    ensures Gc(r) !in Refs(open)
  {
  }

  lemma TaggedIsMapped(h: seq<Cell>, o: Obj, ids: map<Ref, Ref>, r: Ref)
    requires Gc(r) in Tagged(o)
    ensures Gc(Look(ids, r)) in Tagged(MapObj(Canon(h, o), ids))
  {
    hide NodeEdges, MapNode, CanonFrames, MapFrames, StripFixed;
    match o
    case Table(arr, nodes, mt) =>
      MapNodeEdges(nodes, ids);
      if Gc(r) in arr {
        var i :| 0 <= i < |arr| && arr[i] == Gc(r);
        assert MapTvs(CanonArr(arr), ids)[i] == Gc(Look(ids, r));
      } else {
        MappedIn(NodeEdges(nodes), ids, r);
      }
    case Proto(p) => MappedIn(p.k, ids, r);
    case CClosure(_, us) => MappedIn(us, ids, r);
    case Thread(_, stack, _, _) => MappedIn(stack, ids, r);
    case _ =>
  }

  lemma MappedIn(vs: seq<TValue>, ids: map<Ref, Ref>, r: Ref)
    requires Gc(r) in vs
    ensures Gc(Look(ids, r)) in MapTvs(vs, ids)
  {
    var i :| 0 <= i < |vs| && vs[i] == Gc(r);
    assert MapTvs(vs, ids)[i] == Gc(Look(ids, r));
  }

  /** Some record of the snapshot refers to the `k`th string with the tag of long strings. */
  lemma TaggedSomewhere(s: State, env: Env, k: nat) returns (j: nat)
    requires Storable(s, env) && k < |Order(s)| && Order(s)[k] < |s.heap| && External(s.heap[Order(s)[k]].obj)
    ensures 0 < j < |Normal(s).heap| && Gc(k + 1) in Tagged(Normal(s).heap[j].obj)
  {
    hide *;
    var r := Order(s)[k];
    StorableParts(s, env);
    CellOf(s, k);
    ExternalIsStr(s.heap[r].obj);
    var u := Referrer(s, r);
    var i :| 0 <= i < |Order(s)| && Order(s)[i] == u;
    IsStored(s, env, u);
    StoredIs(s, env, u);
    NamesOf(s, u);
    IsTagged(s.heap, env, u, r);
    CellOf(s, i);
    TaggedIsMapped(s.heap, s.heap[u].obj, Ids(Order(s)), r);
    LookIs(Ids(Order(s)), r);
    j := i + 1;
  }

  lemma LookIs(m: map<Ref, Ref>, r: Ref)
    requires r in m
    ensures Look(m, r) == m[r]
  {
  }

  lemma ExternalIsStr(o: Obj)
    requires External(o)
    ensures o.Str? && TagOf(o) == 0x54 && |o.s| <= MAXSHORTLEN
  {
  }

  lemma NamesOf(s: State, u: Ref)
    requires StringsSane(s) && u in Order(s) && u < |s.heap|
    ensures s.heap[u].obj.Proto? ==> NamesInterned(s.heap, s.heap[u].obj.p)
  {
    hide Order, NamesInterned;
  }

  // ------------------------------------------------------------ the contradiction

  /** Only a long string bears the tag of long strings. */
  lemma BearsIsLong(nh: seq<Cell>, id: nat)
    requires Bears(nh, id, 0x54) && |nh| < 0x1_0000_0000 && id < 0x1_0000_0000
    ensures id < |nh| && nh[id].obj.Str? && !nh[id].obj.short
  {
  }

  /** No string that a load made is external. */
  lemma LoadedNotExternal(nh: seq<Cell>, i: nat, pm: map<Ref, Ref>)
    requires i < |nh|
    ensures !External(LoadedAs(nh, i, pm))
  {
  }

  lemma ReloadedNotExternal(n: State, st: State, env: Env, ptr: seq<Ref>, k: nat)
    requires FineNormal(n, env) && Restores(n, st, ptr) && 0 < k <= |Order(st)|
    ensures |Normal(st).heap| == |Order(st)| + 1 && !External(Normal(st).heap[k].obj)
  {
    hide *;
    FineRoots(n, env);
    CellOf(st, k - 1);
    var i := ReachedIsLoaded(n, st, ptr, Order(st)[k - 1]);
    LoadedNotExternal(n.heap, i, PtrMap(ptr));
    MappedExternal(st.heap, LoadedAs(n.heap, i, PtrMap(ptr)), Ids(Order(st)));
  }

  lemma MappedExternal(h: seq<Cell>, o: Obj, m: map<Ref, Ref>)
    ensures External(MapObj(Canon(h, o), m)) <==> External(o)
  {
    StringKept(h, o, m);
    hide MapObj, Canon;
  }

  lemma SameStrings(nh: seq<Cell>, nh': seq<Cell>, env: Env, k: nat)
    requires 0 < k < |nh| == |nh'| && WireRecs(nh, env) == WireRecs(nh', env) && nh[k].obj.Str? && nh'[k].obj.Str?
    ensures nh[k].obj.s == nh'[k].obj.s
  {
    assert WireRecs(nh, env)[k - 1] == WireRecs(nh', env)[k - 1];
  }

  lemma SameRecordAt(nh: seq<Cell>, nh': seq<Cell>, env: Env, j: nat)
    requires WireRecs(nh, env) == WireRecs(nh', env) && 0 < j < |nh| && 0 < |nh'|
    ensures |nh'| == |nh| && WireObj(nh, env, nh[j].obj) == WireObj(nh', env, nh'[j].obj)
  {
    hide WireObj;
    assert WireRecs(nh, env)[j - 1] == WireRecs(nh', env)[j - 1];
  }

  lemma TagIs(nh: seq<Cell>, k: nat)
    requires k < |nh|
    ensures TagAt(nh, k) == TagOf(nh[k].obj)
  {
  }

  lemma ExternalShows(s: State, env: Env, st: State, ptr: seq<Ref>, k: nat)
    requires Storable(s, env) && Restores(Normal(s), st, ptr) && Save(st, env) == Save(s, env) && k < |Order(s)|
    ensures Order(s)[k] < |s.heap| && !External(s.heap[Order(s)[k]].obj)
  {
    hide *;
    CellOf(s, k);
    if External(s.heap[Order(s)[k]].obj) {
      var nh, nh' := Normal(s).heap, Normal(st).heap;
      SameAgain(s, env, st, ptr);
      NormalIsFine(s, env);
      FineParts(Normal(s), env);
      NormalSize(st);
      MappedExternal(s.heap, s.heap[Order(s)[k]].obj, Ids(Order(s)));
      ExternalIsStr(nh[k + 1].obj);
      TagIs(nh, k + 1);
      var j := TaggedSomewhere(s, env, k);
      SameRecordAt(nh, nh', env, j);
      RecordBears(nh, nh', env, k + 1, nh[j].obj, nh'[j].obj);
      BearsIsLong(nh', k + 1);
      SameStrings(nh, nh', env, k + 1);
      ReloadedNotExternal(Normal(s), st, env, ptr, k + 1);
      LongIsExternal(nh'[k + 1].obj);
    }
  }

  lemma LongIsExternal(o: Obj)
    requires o.Str? && !o.short && |o.s| <= MAXSHORTLEN
    ensures External(o)
  {
  }

  /** If saving what a load gave yields the bytes that were loaded, then every string of the
      snapshot that is short enough to be interned was. */
  lemma SameBytesInterned(s: State, env: Env, st: State, ptr: seq<Ref>)
    requires Storable(s, env) && Restores(Normal(s), st, ptr) && Save(st, env) == Save(s, env)
    ensures StringsInterned(s)
  {
    hide Storable, Restores, Save, Order, Normal, External;
    forall r | r in Order(s)
      ensures !External(s.heap[r].obj)
    {
      var k :| 0 <= k < |Order(s)| && Order(s)[k] == r;
      ExternalShows(s, env, st, ptr, k);
    }
  }
}
