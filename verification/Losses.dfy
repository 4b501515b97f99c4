// Two states that do not survive the round trip: in one a closure outlives the thread of its
// upvalue, in the other a string that could be interned is not.
module Losses {
  import opened Bytes
  import opened Heap
  import opened Graph
  import opened Discovery
  import opened Wire
  import opened TableRecords
  import opened ProtoRecords
  import opened Records
  import opened Snapshot
  import opened WellFormed
  import opened Severance
  import opened LoadIndex
  import opened LoadSpec
  import opened LoadPasses
  import opened RoundTrip
  import opened RoundTripLaw
  import opened Likeness

  function NoNames(): Env { Env(map[], map[], map[], map[]) }

  /** The frame that every thread has, at the bottom of its stack. */
  function BottomFrame(): Frame { Frame(0, 21, CIST_C, 0, CArm(0, 0, 0)) }

  function RegistryOf(r: Ref): Cell { Cell(11, Table([Gc(r)], [], 0)) }

  function MainThread(): Cell { Cell(12, Thread(0, [TValue.Nil], [BottomFrame()], [])) }

  function NoMetatables(): seq<Ref> { [0, 0, 0, 0, 0, 0, 0, 0, 0] }

  /** A function with one instruction, the given upvalues and nested functions. */
  function SmallProto(ups: seq<UpvalDesc>, nested: seq<Ref>): ProtoData {
    ProtoData(0, 0, 2, [0x47], [], nested, ups, [], [], [], 0, 1, 3)
  }

  function CoroutineStack(): seq<TValue> { [TValue.Nil, Gc(7), True, LightC(1)] }

  function CoroutineFrames(): seq<Frame> {
    [BottomFrame(), Frame(1, 4, 0, 0, LuaArm(8, 1, 0)), Frame(3, 24, CIST_C, 0, CArm(0, 0, 0))]
  }

  /** A coroutine that has yielded. */
  function Coroutine(): Obj { Thread(1, CoroutineStack(), CoroutineFrames(), [4]) }

  /** The registry (1) holds a closure (3) of the function 6, whose upvalue (4) is open in a
      suspended coroutine (5) that nothing else refers to. The coroutine runs the closure 7
      of the function 8, in which 6 is nested; the value of the upvalue is `true`. */
  function LostThread(): State {
    State([
            Cell(0, UpClosed(TValue.Nil)),
            RegistryOf(3),
            MainThread(),
            Cell(13, LClosure(6, [4])),
            Cell(14, UpOpen(5, 2)),
            Cell(15, Coroutine()),
            Cell(16, Proto(SmallProto([UpvalDesc(0, 1, 0, 0)], []))),
            Cell(17, LClosure(8, [])),
            Cell(18, Proto(SmallProto([], [6])))],
          1, 2, NoMetatables(), 0, 8)
  }

  /** The registry holds a string of one byte that lies outside the heap. */
  function LostString(): State {
    State([Cell(0, UpClosed(TValue.Nil)), RegistryOf(3), MainThread(), Cell(13, Str(false, [0x61]))], 1, 2, NoMetatables(), 0, 3)
  }

  lemma ThreadShape()
    ensures var s := LostThread(); var h := s.heap;
            && s.registry == 1 && s.main == 2 && s.mt == NoMetatables() && |h| == 9
            && h[1] == RegistryOf(3) && h[2] == MainThread() && h[1].obj.Table? && h[2].obj.Thread?
            && h[3].obj == LClosure(6, [4]) && h[4].obj == UpOpen(5, 2) && h[5].obj == Coroutine()
            && h[6].obj == Proto(SmallProto([UpvalDesc(0, 1, 0, 0)], []))
            && h[7].obj == LClosure(8, []) && h[8].obj == Proto(SmallProto([], [6]))
  {
    hide SmallProto, Coroutine, NoMetatables;
  }

  lemma StringShape()
    ensures var s := LostString();
            && s.registry == 1 && s.main == 2 && s.mt == NoMetatables() && |s.heap| == 4
            && s.heap[1].obj.Table? && s.heap[2].obj.Thread? && External(s.heap[3].obj)
  {
  }

  // ------------------------------------------------------------ what is reached

  /** No edge from the roots or from a vertex of `vs` leads out of `vs` or is refused. */
  ghost predicate Encloses(g: Graph, vs: set<Vertex>) {
    && EnclosedBy(g.roots, vs)
    && forall u {:trigger g.adj[u]} :: u in vs && 0 <= u < |g.adj| ==> EnclosedBy(g.adj[u], vs)
  }

  ghost predicate EnclosedBy(ms: seq<Move>, vs: set<Vertex>) {
    forall m :: m in ms ==> m == Skip || (m.To? && m.v in vs)
  }

  lemma {:induction false} ChainEnclosed(g: Graph, vs: set<Vertex>, p: seq<Vertex>, i: nat)
    requires Chain(g, p) && Encloses(g, vs) && i < |p|
    ensures p[i] in vs
  {
    if i > 0 {
      ChainEnclosed(g, vs, p, i - 1);
      assert To(p[i]) in g.adj[p[i - 1]];
    }
  }

  lemma OrderEnclosed(g: Graph, vs: set<Vertex>)
    requires Good(g) && Encloses(g, vs)
    ensures !Discover(g).error && forall v :: v in Discover(g).order ==> v in vs
  {
    DiscoveryIsExactClosure(g);
    hide Discover;
    forall v | Reachable(g, v)
      ensures v in vs
    {
      var p :| ChainTo(g, p, v);
      ChainEnclosed(g, vs, p, |p| - 1);
    }
  }

  lemma OrderHas(s: State, p: seq<Vertex>, v: Vertex)
    requires ChainTo(GraphOf(s), p, v)
    ensures v in Order(s)
  {
    DiscoveryIsExactClosure(GraphOf(s));
    hide Discover, GraphOf, Chain;
  }

  lemma RootMoves(s: State)
    requires s.registry == 1 && s.main == 2 && s.mt == NoMetatables() && 2 < |s.heap|
    requires s.heap[1].obj.Table? && s.heap[2].obj.Thread?
    ensures GraphOf(s).roots == [To(1), To(2)] + seq(9, i => Skip)
  {
    var ms := Moves(s.heap, RootEdges(s));
    forall i | 0 <= i < 11
      ensures ms[i] == ([To(1), To(2)] + seq(9, i => Skip))[i]
    {
      if i >= 2 {
        assert RootEdges(s)[i] == Refs(s.mt)[i - 2] == Gc(0);
      }
    }
  }

  lemma AdjOf(s: State, u: Ref)
    requires u < |s.heap|
    ensures |GraphOf(s).adj| == |s.heap| && GraphOf(s).adj[u] == Moves(s.heap, Edges(s.heap[u].obj))
  {
    hide Edges, MoveOf;
  }

  lemma TableEdges(r: Ref)
    ensures Edges(RegistryOf(r).obj) == [Gc(r), Gc(0)]
  {
    assert NodeEdges([]) == [];
  }

  /** What the edges to plain objects, to NULL and to nil come to. */
  lemma PlainMoves(h: seq<Cell>)
    ensures forall r: Ref {:trigger MoveOf(h, Gc(r))} :: 0 < r < |h| && !h[r].obj.Udata? ==> MoveOf(h, Gc(r)) == To(r)
    ensures MoveOf(h, Gc(0)) == Skip && MoveOf(h, TValue.Nil) == Skip
  {
  }

  lemma AdjTwo(s: State, u: Ref, a: TValue, b: TValue)
    requires u < |s.heap| && Edges(s.heap[u].obj) == [a, b]
    ensures |GraphOf(s).adj| == |s.heap| && GraphOf(s).adj[u] == [MoveOf(s.heap, a), MoveOf(s.heap, b)]
  {
    hide Edges, MoveOf;
  }

  lemma EdgesOfPlain()
    ensures Edges(LClosure(6, [4])) == [Gc(6), Gc(4)] && Edges(LClosure(8, [])) == [Gc(8)]
    ensures Edges(UpOpen(5, 2)) == [] && Edges(MainThread().obj) == [TValue.Nil]
  {
  }

  lemma EdgesOfProtos()
    ensures Edges(Proto(SmallProto([UpvalDesc(0, 1, 0, 0)], []))) == [Gc(0), Gc(0)]
    ensures Edges(Proto(SmallProto([], [6]))) == [Gc(6), Gc(0)]
  {
  }

  lemma EdgesOfCoroutine()
    ensures Edges(Coroutine()) == CoroutineStack() + [Gc(4)]
  {
    hide CoroutineStack, CoroutineFrames;
  }

  lemma EdgesOfParts()
    ensures Edges(LClosure(6, [4])) == [Gc(6), Gc(4)] && Edges(LClosure(8, [])) == [Gc(8)]
    ensures Edges(UpOpen(5, 2)) == [] && Edges(MainThread().obj) == [TValue.Nil]
    ensures Edges(Proto(SmallProto([UpvalDesc(0, 1, 0, 0)], []))) == [Gc(0), Gc(0)]
    ensures Edges(Proto(SmallProto([], [6]))) == [Gc(6), Gc(0)]
    ensures Edges(Coroutine()) == CoroutineStack() + [Gc(4)]
  {
    hide *;
    EdgesOfPlain();
    EdgesOfProtos();
    EdgesOfCoroutine();
  }

  lemma ThreadEdges()
    ensures var h := LostThread().heap;
            && |h| == 9 && Edges(h[1].obj) == [Gc(3), Gc(0)] && Edges(h[3].obj) == [Gc(6), Gc(4)] && Edges(h[6].obj) == [Gc(0), Gc(0)]
            && Edges(h[2].obj) == [TValue.Nil] && Edges(h[4].obj) == []
            && !h[3].obj.Udata? && !h[4].obj.Udata? && !h[6].obj.Udata?
  {
    hide *;
    ThreadShape();
    TableEdges(3);
    EdgesOfParts();
  }

  lemma ThreadAdj()
    ensures var g := GraphOf(LostThread());
            && |g.adj| == 9 && g.adj[1] == [To(3), Skip] && g.adj[2] == [Skip] && g.adj[3] == [To(6), To(4)] && g.adj[4] == []
            && g.adj[6] == [Skip, Skip]
  {
    hide *;
    var s := LostThread();
    ThreadEdges();
    PlainMoves(s.heap);
    AdjTwo(s, 1, Gc(3), Gc(0));
    AdjTwo(s, 3, Gc(6), Gc(4));
    AdjTwo(s, 6, Gc(0), Gc(0));
    AdjOf(s, 2);
    AdjOf(s, 4);
  }

  lemma ThreadEnclosed(g: Graph)
    requires |g.adj| == 9 && g.roots == [To(1), To(2)] + seq(9, i => Skip)
    requires g.adj[1] == [To(3), Skip] && g.adj[2] == [Skip] && g.adj[3] == [To(6), To(4)] && g.adj[4] == []
    requires g.adj[6] == [Skip, Skip]
    ensures Encloses(g, {1, 2, 3, 4, 6}) && ChainTo(g, [1, 3, 4], 4)
  {
    assert g.roots[0] == To(1) && g.adj[1][0] == To(3) && g.adj[3][1] == To(4);
  }

  /** The upvalue is in the snapshot, its thread is not. */
  lemma ThreadOrder()
    ensures 4 in Order(LostThread()) && 5 !in Order(LostThread()) && !Discover(GraphOf(LostThread())).error
    ensures forall r :: r in Order(LostThread()) ==> r in {1, 2, 3, 4, 6}
  {
    hide *;
    var s := LostThread();
    ThreadShape();
    RootMoves(s);
    ThreadAdj();
    ThreadEnclosed(GraphOf(s));
    OrderHas(s, [1, 3, 4], 4);
    OrderWithin(s, {1, 2, 3, 4, 6});
  }

  lemma OrderWithin(s: State, vs: set<Vertex>)
    requires Encloses(GraphOf(s), vs)
    ensures !Discover(GraphOf(s)).error && forall r :: r in Order(s) ==> r in vs
  {
    OrderEnclosed(GraphOf(s), vs);
    hide Discover, GraphOf, Encloses;
  }

  lemma StringOrder()
    ensures 3 in Order(LostString()) && !Discover(GraphOf(LostString())).error
    ensures forall r :: r in Order(LostString()) ==> r in {1, 2, 3}
  {
    hide Discover;
    var s := LostString();
    RootMoves(s);
    TableEdges(3);
    AdjOf(s, 1);
    AdjOf(s, 2);
    AdjOf(s, 3);
    assert Edges(s.heap[2].obj) == [TValue.Nil];
    hide GraphOf;
    var g := GraphOf(s);
    assert Order(s) == Discover(g).order;
    assert g.adj[1] == [To(3), Skip] && g.adj[2] == [Skip] && g.adj[3] == [];
    OrderEnclosed(g, {1, 2, 3});
    assert g.roots[0] == To(1) && g.adj[1][0] == To(3);
    assert ChainTo(g, [1, 3], 3);
    OrderHas(s, [1, 3], 3);
  }

  // ------------------------------------------------------------ both can be saved

  lemma CoroutineFramesGood(h: seq<Cell>)
    requires |h| == 9 && h[7].obj == LClosure(8, []) && h[8].obj.Proto?
    ensures |CoroutineFrames()| == 3 && forall i :: 0 <= i < 3 ==> GoodFrame(h, CoroutineStack(), CoroutineFrames()[i])
  {
  }

  lemma CoroutineGood()
    ensures GoodAt(LostThread().heap, 5) && SaneAt(LostThread().heap, 5)
  {
    hide LostThread, SmallProto, RegistryOf, MainThread, Edges, GoodFrame, CoroutineFrames;
    ThreadShape();
    EdgesOfParts();
    CoroutineFramesGood(LostThread().heap);
  }

  lemma ProtosGood()
    ensures var h := LostThread().heap; |h| == 9 && GoodAt(h, 6) && SaneAt(h, 6) && GoodAt(h, 8) && SaneAt(h, 8)
  {
    hide LostThread, Coroutine, RegistryOf, MainThread, Edges;
    ThreadShape();
    EdgesOfParts();
  }

  lemma ThreadCells(r: Ref)
    requires 0 < r < |LostThread().heap|
    ensures GoodAt(LostThread().heap, r) && SaneAt(LostThread().heap, r)
  {
    hide GoodAt, SaneAt, LostThread;
    ThreadShape();
    if r == 5 {
      CoroutineGood();
    } else if r == 6 || r == 8 {
      ProtosGood();
    } else {
      PlainCells(r);
    }
  }

  /** The registry and the main thread, in a heap that is large enough. */
  lemma RootCells(h: seq<Cell>)
    requires 3 < |h| && h[1] == RegistryOf(3) && h[2] == MainThread()
    ensures GoodAt(h, 1) && SaneAt(h, 1) && GoodAt(h, 2) && SaneAt(h, 2)
  {
    TableEdges(3);
    assert NodeEdges([]) == [];
  }

  lemma ClosureCells()
    ensures var h := LostThread().heap;
            |h| == 9 && GoodAt(h, 3) && SaneAt(h, 3) && GoodAt(h, 4) && SaneAt(h, 4) && GoodAt(h, 7) && SaneAt(h, 7)
  {
    hide LostThread, SmallProto, CoroutineStack, CoroutineFrames, RegistryOf, MainThread, Edges;
    ThreadShape();
    EdgesOfParts();
  }

  lemma PlainCells(r: Ref)
    requires r in {1, 2, 3, 4, 7}
    ensures r < |LostThread().heap| && GoodAt(LostThread().heap, r) && SaneAt(LostThread().heap, r)
  {
    hide *;
    ThreadShape();
    RootCells(LostThread().heap);
    ClosureCells();
  }

  lemma StringCells(r: Ref)
    requires 0 < r < |LostString().heap|
    ensures GoodAt(LostString().heap, r) && SaneAt(LostString().heap, r)
  {
    TableEdges(3);
    assert NodeEdges([]) == [];
    assert r == 1 || r == 2 || r == 3;
  }

  lemma GoodBy(s: State)
    requires s.registry == 1 && s.main == 2 && s.mt == NoMetatables() && 2 < |s.heap| < 10
    requires s.heap[1].obj.Table? && s.heap[2].obj.Thread?
    requires forall r :: 0 < r < |s.heap| ==> GoodAt(s.heap, r) && SaneAt(s.heap, r)
    ensures GoodState(s) && Names(NoNames())
  {
    hide GoodAt, SaneAt;
    forall v | v in RootEdges(s) && v.Gc?
      ensures v.ref < |s.heap|
    {
      var i :| 0 <= i < |RootEdges(s)| && RootEdges(s)[i] == v;
      if i >= 2 {
        assert RootEdges(s)[i] == Refs(s.mt)[i - 2] == Gc(0);
      }
    }
  }

  lemma AtMostOne<T(!new)>(xs: seq<T>, enc: T -> seq<byte>, c: nat)
    requires |xs| <= 1 && (xs != [] ==> |enc(xs[0])| <= c)
    ensures |EncCounted(xs, enc)| <= 4 + c
  {
    if xs != [] {
      assert xs[..0] == [] && EncAll<T>([], enc) == [];
    }
  }

  /** Records with at most one element in each list are short. */
  predicate Small(w: WObj) {
    match w
    case WStr(s) => |s| <= 1
    case WTab(t) => |t.arr| <= 1 && t.slots == [] && forall a :: a in t.arr ==> !a.val.WCf?
    case WPro(p) =>
      |p.code| <= 1 && p.k == [] && |p.p| <= 1 && |p.upvalues| <= 1 && p.lineinfo == [] && p.abslineinfo == [] && p.locvars == []
    case WLCl(_, us) => |us| <= 1
    case WUpOpen => true
    case WThr(t) =>
      |t.stack| <= 1 && (forall v :: v in t.stack ==> !v.WCf?) && |t.frames| <= 1 && (forall f :: f in t.frames ==> f.arm == WC(WNoKont)) && t.open == []
    case _ => false
  }

  lemma SmallTv(v: WTv)
    requires !v.WCf?
    ensures |EncTv(v)| <= 9
  {
  }

  lemma SmallTable(t: WTable)
    requires Small(WTab(t))
    ensures |EncTable(t)| < 100
  {
    hide EncCounted, EncTv, Le;
    if t.arr != [] {
      assert t.arr[0] in t.arr;
      SmallTv(t.arr[0].val);
    }
    AtMostOne(t.arr, EncItem, 13);
    AtMostOne(t.slots, EncSlot, 0);
  }

  lemma SmallProtoRecord(p: WProto)
    requires Small(WPro(p))
    ensures |EncProto(p)| < 1000
  {
    hide EncCounted, EncTv, Le;
    AtMostOne(p.code, EncU32, 4);
    AtMostOne(p.k, EncTv, 0);
    AtMostOne(p.p, EncU32, 4);
    AtMostOne(p.upvalues, EncUp, 7);
    AtMostOne(p.lineinfo, EncByte, 0);
    AtMostOne(p.abslineinfo, EncAbs, 0);
    AtMostOne(p.locvars, EncVar, 0);
  }

  lemma SmallThread(t: WThread)
    requires Small(WThr(t))
    ensures |EncThread(t)| < 1000
  {
    hide EncCounted, EncTv, Le;
    if t.stack != [] {
      assert t.stack[0] in t.stack;
      SmallTv(t.stack[0]);
    }
    if t.frames != [] {
      assert t.frames[0] in t.frames;
    }
    AtMostOne(t.stack, EncTv, 9);
    AtMostOne(t.frames, EncFrame, 18);
    AtMostOne(t.open, EncOpen, 0);
  }

  lemma SmallClosure(p: u32, us: seq<u32>)
    requires |us| <= 1
    ensures |EncLClosure(p, us)| < 100
  {
    hide Le;
    AtMostOne(us, EncU32, 4);
  }

  lemma SmallIsShort(w: WObj)
    requires Small(w)
    ensures |EncObj(w)| < 0x1_0000_0000
  {
    hide EncTv, Le, EncTable, EncProto, EncThread, EncLClosure;
    match w
    case WTab(t) => SmallTable(t);
    case WPro(p) => SmallProtoRecord(p);
    case WLCl(p, us) => SmallClosure(p, us);
    case WThr(t) => SmallThread(t);
    case _ =>
  }

  lemma OneItem(nh: seq<Cell>, env: Env, id: Ref)
    ensures WireItems(nh, env, [Gc(id)]) == [WItem(0, WireTv(nh, env, Gc(id)))]
  {
    assert [Gc(id)][..0] == [] && WireItems(nh, env, []) == [];
  }

  lemma RegistrySmall(h: seq<Cell>, nh: seq<Cell>, ids: map<Ref, Ref>, r: Ref)
    ensures Small(WireObj(nh, NoNames(), MapObj(Canon(h, RegistryOf(r).obj), ids)))
  {
    hide WireItems;
    var o := MapObj(Canon(h, RegistryOf(r).obj), ids);
    assert o.arr == [Gc(Look(ids, r))] && WireSlots(nh, NoNames(), o.nodes) == [];
    OneItem(nh, NoNames(), Look(ids, r));
  }

  lemma MainSmall(h: seq<Cell>, nh: seq<Cell>, ids: map<Ref, Ref>)
    ensures Small(WireObj(nh, NoNames(), MapObj(Canon(h, MainThread().obj), ids)))
  {
    hide Bit;
    var o := MapObj(Canon(h, MainThread().obj), ids);
    assert o.stack == [TValue.Nil] && o.frames == [MapFrame(CanonFrame(h, BottomFrame()), ids)];
  }

  lemma PartsSmall(h: seq<Cell>, nh: seq<Cell>, ids: map<Ref, Ref>)
    ensures Small(WireObj(nh, NoNames(), MapObj(Canon(h, LClosure(6, [4])), ids)))
    ensures Small(WireObj(nh, NoNames(), MapObj(Canon(h, UpOpen(5, 2)), ids)))
    ensures Small(WireObj(nh, NoNames(), MapObj(Canon(h, Proto(SmallProto([UpvalDesc(0, 1, 0, 0)], []))), ids)))
  {
    hide StripFixed;
  }

  lemma ThreadRecord(nh: seq<Cell>, ids: map<Ref, Ref>, r: Ref)
    requires r in {1, 2, 3, 4, 6}
    ensures Small(WireObj(nh, NoNames(), MapObj(Canon(LostThread().heap, LostThread().heap[r].obj), ids)))
  {
    hide *;
    var h := LostThread().heap;
    ThreadShape();
    RegistrySmall(h, nh, ids, 3);
    MainSmall(h, nh, ids);
    PartsSmall(h, nh, ids);
  }

  lemma StringRecord(nh: seq<Cell>, ids: map<Ref, Ref>, r: Ref)
    requires r in {1, 2, 3}
    ensures Small(WireObj(nh, NoNames(), MapObj(Canon(LostString().heap, LostString().heap[r].obj), ids)))
  {
    RegistrySmall(LostString().heap, nh, ids, 3);
    MainSmall(LostString().heap, nh, ids);
    hide WireItems;
  }

  lemma ShortBy(s: State)
    requires forall i {:trigger Order(s)[i]} :: 0 <= i < |Order(s)| ==>
               Small(WireObj(Normal(s).heap, NoNames(), MapObj(Canon(s.heap, s.heap[Order(s)[i]].obj), Ids(Order(s)))))
    ensures ShortRecords(WireRecs(Normal(s).heap, NoNames()))
  {
    hide EncObj, WireObj, MapObj, Canon, Order, Small, Normal;
    var recs := WireRecs(Normal(s).heap, NoNames());
    NormalSize(s);
    forall i | 0 <= i < |recs|
      ensures |EncObj(recs[i].w)| < 0x1_0000_0000
    {
      CellOf(s, i);
      SmallIsShort(recs[i].w);
    }
  }

  lemma ThreadShort()
    ensures ShortRecords(WireRecs(Normal(LostThread()).heap, NoNames()))
  {
    hide *;
    var s := LostThread();
    ThreadOrder();
    forall i {:trigger Order(s)[i]} | 0 <= i < |Order(s)|
      ensures Order(s)[i] < |s.heap|
      ensures Small(WireObj(Normal(s).heap, NoNames(), MapObj(Canon(s.heap, s.heap[Order(s)[i]].obj), Ids(Order(s)))))
    {
      assert Order(s)[i] in Order(s);
      CellOf(s, i);
      ThreadRecord(Normal(s).heap, Ids(Order(s)), Order(s)[i]);
    }
    ShortBy(s);
  }

  lemma StringShort()
    ensures ShortRecords(WireRecs(Normal(LostString()).heap, NoNames()))
  {
    hide *;
    var s := LostString();
    StringOrder();
    forall i {:trigger Order(s)[i]} | 0 <= i < |Order(s)|
      ensures Order(s)[i] < |s.heap|
      ensures Small(WireObj(Normal(s).heap, NoNames(), MapObj(Canon(s.heap, s.heap[Order(s)[i]].obj), Ids(Order(s)))))
    {
      assert Order(s)[i] in Order(s);
      CellOf(s, i);
      StringRecord(Normal(s).heap, Ids(Order(s)), Order(s)[i]);
    }
    ShortBy(s);
  }

  lemma ThreadSaves()
    ensures Savable(LostThread(), NoNames()) && StringsSane(LostThread())
  {
    ThreadOrder();
    hide GraphOf, Discover;
    assert NodeEdges([]) == [];
    forall r | r in Order(LostThread())
      ensures Writable(NoNames(), LostThread().heap[r].obj) && !LostThread().heap[r].obj.Str?
      ensures LostThread().heap[r].obj.Proto? ==> NamesInterned(LostThread().heap, LostThread().heap[r].obj.p)
    {
      assert r == 1 || r == 2 || r == 3 || r == 4 || r == 6;
    }
  }

  lemma StringSaves()
    ensures Savable(LostString(), NoNames()) && StringsSane(LostString())
  {
    StringOrder();
    hide GraphOf, Discover;
    assert NodeEdges([]) == [];
    forall r | r in Order(LostString())
      ensures Writable(NoNames(), LostString().heap[r].obj) && !LostString().heap[r].obj.Proto?
      ensures LostString().heap[r].obj.Str? <==> r == 3
    {
      assert r == 1 || r == 2 || r == 3;
    }
  }

  lemma ThreadStorable()
    ensures Storable(LostThread(), NoNames())
  {
    hide *;
    forall r | 0 < r < |LostThread().heap|
      ensures GoodAt(LostThread().heap, r) && SaneAt(LostThread().heap, r)
    {
      ThreadCells(r);
    }
    ThreadShape();
    GoodBy(LostThread());
    ThreadSaves();
    ThreadShort();
    StorableBy(LostThread(), NoNames());
  }

  lemma StringStorable()
    ensures Storable(LostString(), NoNames())
  {
    hide *;
    forall r | 0 < r < |LostString().heap|
      ensures GoodAt(LostString().heap, r) && SaneAt(LostString().heap, r)
    {
      StringCells(r);
    }
    StringShape();
    GoodBy(LostString());
    StringSaves();
    StringShort();
    StorableBy(LostString(), NoNames());
  }

  // ------------------------------------------------------------ and are not restored

  lemma NotOwned()
    ensures !UpvaluesOwned(LostThread())
  {
    ThreadOrder();
    ThreadShape();
    hide Order, LostThread, Discover;
  }

  lemma NotInterned()
    ensures !StringsInterned(LostString())
  {
    StringOrder();
    StringShape();
    hide Order, LostString, Discover, External;
  }

  /** The save is accepted, the load succeeds, and by no correspondence at all is the result
      the state that was saved: saving it again gives other bytes. */
  lemma ThreadAfterReload(base: State)
    requires GoodBase(base)
    ensures Save(LostThread(), NoNames()).Snapshot? && base.main < |base.heap|
    ensures var r := Reloaded(LostThread(), NoNames(), base);
            && r.Loaded? && (forall m :: !Resembles(LostThread(), r.state, m))
            && Save(r.state, NoNames()) != Save(LostThread(), NoNames())
  {
    hide *;
    ThreadStorable();
    NotOwned();
    RoundTripIff(LostThread(), NoNames(), base);
    ResaveIff(LostThread(), NoNames(), base);
  }

  lemma StringAfterReload(base: State)
    requires GoodBase(base)
    ensures Save(LostString(), NoNames()).Snapshot? && base.main < |base.heap|
    ensures var r := Reloaded(LostString(), NoNames(), base);
            && r.Loaded? && (forall m :: !Resembles(LostString(), r.state, m))
            && Save(r.state, NoNames()) != Save(LostString(), NoNames())
  {
    hide *;
    StringStorable();
    NotInterned();
    RoundTripIff(LostString(), NoNames(), base);
    ResaveIff(LostString(), NoNames(), base);
  }
}
