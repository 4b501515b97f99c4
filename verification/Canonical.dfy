// A snapshot is canonical: it depends on the shape of the heap, not on addresses.
module Canonical {
  import opened Heap
  import opened Graph
  import opened Discovery
  import opened Snapshot
  import opened WellFormed

  function Ident(vs: set<Ref>): map<Ref, Ref> {
    map v | v in vs :: v
  }

  /** Every object that `o` refers to is among `rs`. */
  ghost predicate Closed(o: Obj, rs: set<Ref>) {
    forall v :: v in Edges(o) && v.Gc? && v.ref != Heap.NULL ==> v.ref in rs
  }

  /** `a` corresponds to `b`. */
  ghost predicate Carried(m: map<Ref, Ref>, a: Ref, b: Ref) {
    (a == Heap.NULL && b == Heap.NULL) || (a in m && m[a] == b)
  }

  /** `b` is `a` with its pointers carried along `m`, up to what a snapshot leaves out. */
  ghost predicate SameObj(h1: seq<Cell>, h2: seq<Cell>, a: Obj, b: Obj, m: map<Ref, Ref>) {
    && MapObj(Canon(h1, a), m) == MapObj(Canon(h2, b), Ident(m.Values))
    && Closed(a, m.Keys) && Closed(b, m.Values)
  }

  ghost predicate SameCell(h1: seq<Cell>, h2: seq<Cell>, r: Ref, m: map<Ref, Ref>)
    requires r in m
  {
    && 0 < r < |h1| && 0 < m[r] < |h2|
    && h1[r].objid == h2[m[r]].objid
    && SameObj(h1, h2, h1[r].obj, h2[m[r]].obj, m)
  }

  /** `m` carries all that is reachable in `s1` onto `s2`, keeping roots, object ids
      and the order of references. */
  ghost predicate Isomorphic(s1: State, s2: State, m: map<Ref, Ref>) {
    && Injective(m) && Heap.NULL !in m.Keys && Heap.NULL !in m.Values
    && Carried(m, s1.registry, s2.registry) && Carried(m, s1.main, s2.main)
    && |s1.mt| == |s2.mt| && (forall i :: 0 <= i < |s1.mt| ==> Carried(m, s1.mt[i], s2.mt[i]))
    && s1.seed == s2.seed && s1.nextSeq == s2.nextSeq
    && forall r {:trigger m[r]} :: r in m ==> SameCell(s1.heap, s2.heap, r, m)
  }

  // ------------------------------------------- the same values, seen pointwise

  ghost predicate Alike(a: TValue, b: TValue, m: map<Ref, Ref>) {
    if a.Gc? then b.Gc? && Carried(m, a.ref, b.ref)
    else a == b || (IsNil(a) && IsNil(b))
  }

  /** Canonicalising an object does not change what it refers to. */
  lemma CanonEdges(h: seq<Cell>, o: Obj)
    ensures |Edges(Canon(h, o))| == |Edges(o)|
    ensures forall i :: 0 <= i < |Edges(o)| ==>
              Edges(Canon(h, o))[i] == Edges(o)[i] || (IsNil(Edges(o)[i]) && IsNil(Edges(Canon(h, o))[i]))
  {
    match o
    case Table(arr, nodes, mt) =>
      hide NodeEdges;
      assert Edges(Canon(h, o)) == CanonArr(arr) + NodeEdges(nodes) + [Gc(mt)];
    case Proto(p) =>
      assert Edges(Canon(h, o)) == Edges(o);
    case Thread(st, stack, frames, open) =>
      assert Edges(Canon(h, o)) == Edges(o);
    case _ =>
  }

  lemma EdgesAlike(h1: seq<Cell>, h2: seq<Cell>, a: Obj, b: Obj, m: map<Ref, Ref>)
    requires SameObj(h1, h2, a, b, m) && Heap.NULL !in m.Keys && Heap.NULL !in m.Values
    ensures |Edges(a)| == |Edges(b)|
    ensures forall i :: 0 <= i < |Edges(a)| ==> Alike(Edges(a)[i], Edges(b)[i], m)
  {
    hide Edges, Canon;
    CanonEdges(h1, a);
    CanonEdges(h2, b);
    MapEdges(Canon(h1, a), m);
    MapEdges(Canon(h2, b), Ident(m.Values));
    forall i | 0 <= i < |Edges(a)|
      ensures Alike(Edges(a)[i], Edges(b)[i], m)
    {
      var x, y := Edges(Canon(h1, a))[i], Edges(Canon(h2, b))[i];
      assert MapTv(x, m) == MapTv(y, Ident(m.Values));
      assert Edges(a)[i] in Edges(a) && Edges(b)[i] in Edges(b);
    }
  }

  // ------------------------------------------------------ what can be persisted

  ghost predicate NodesAlike(ns: seq<Node>, ks: seq<Node>, m: map<Ref, Ref>) {
    && |ns| == |ks|
    && forall j {:trigger ns[j]} :: 0 <= j < |ns| ==> NodeAlike(ns[j], ks[j], m)
  }

  ghost predicate NodeAlike(n: Node, k: Node, m: map<Ref, Ref>) {
    && MapNode(n, m) == MapNode(k, Ident(m.Values))
    && (n.Node? && n.key.Live? && n.key.value.Gc? ==> n.key.value.ref in m)
  }

  lemma PersistKeyAlike(s1: State, s2: State, m: map<Ref, Ref>, n: Node, k: Node)
    requires Isomorphic(s1, s2, m) && NodeAlike(n, k, m)
    ensures IsPersistKey(s1.heap, n) == IsPersistKey(s2.heap, k)
    ensures IsPersistKey(s1.heap, n) ==> Truthy(n.val) == Truthy(k.val)
  {
    if n.Node? && n.key.Live? && n.key.value.Gc? {
      var r := n.key.value.ref;
      StrAlike(s1, s2, m, r);
      NotNull(s1, s2, m, r);
      hide Isomorphic;
      assert k.key.value.ref == m[r];
    }
  }

  lemma {:induction false} PersistAlike(s1: State, s2: State, m: map<Ref, Ref>, ns: seq<Node>, ks: seq<Node>, i: nat)
    requires Isomorphic(s1, s2, m) && NodesAlike(ns, ks, m) && i <= |ns|
    ensures PersistFrom(s1.heap, ns, i) == PersistFrom(s2.heap, ks, i)
    decreases |ns| - i
  {
    hide Isomorphic, NodeAlike, IsPersistKey, Truthy;
    if i < |ns| {
      PersistAlike(s1, s2, m, ns, ks, i + 1);
      PersistKeyAlike(s1, s2, m, ns[i], ks[i]);
    }
  }

  lemma StrAlike(s1: State, s2: State, m: map<Ref, Ref>, r: Ref)
    requires Isomorphic(s1, s2, m) && r in m
    ensures r < |s1.heap| && m[r] < |s2.heap|
    ensures s1.heap[r].obj.Str? <==> s2.heap[m[r]].obj.Str?
    ensures s1.heap[r].obj.Str? ==> s1.heap[r].obj.s == s2.heap[m[r]].obj.s
  {
    assert SameCell(s1.heap, s2.heap, r, m);
    var a, b := s1.heap[r].obj, s2.heap[m[r]].obj;
    hide Closed;
    assert MapObj(Canon(s1.heap, a), m).Str? <==> a.Str?;
    assert MapObj(Canon(s2.heap, b), Ident(m.Values)).Str? <==> b.Str?;
  }

  lemma SerializableAlike(s1: State, s2: State, m: map<Ref, Ref>, r: Ref)
    requires Isomorphic(s1, s2, m) && GoodState(s1) && r in m
    ensures r < |s1.heap| && m[r] < |s2.heap|
    ensures Serializable(s1.heap, s1.heap[r].obj) == Serializable(s2.heap, s2.heap[m[r]].obj)
  {
    assert SameCell(s1.heap, s2.heap, r, m);
    var a, b := s1.heap[r].obj, s2.heap[m[r]].obj;
    UdataAlike(s1.heap, s2.heap, a, b, m);
    if a.Udata? && a.meta != Heap.NULL {
      PersistsAlike(s1, s2, m, a.meta);
    }
  }

  lemma UdataAlike(h1: seq<Cell>, h2: seq<Cell>, a: Obj, b: Obj, m: map<Ref, Ref>)
    requires SameObj(h1, h2, a, b, m) && Heap.NULL !in m.Keys && Heap.NULL !in m.Values
    ensures a.Udata? <==> b.Udata?
    ensures a.Udata? ==> Carried(m, a.meta, b.meta)
  {
    if a.Udata? {
      assert Gc(a.meta) in Edges(a);
      assert b.Udata?;
      assert Gc(b.meta) in Edges(b);
    }
  }

  lemma PersistsAlike(s1: State, s2: State, m: map<Ref, Ref>, mt: Ref)
    requires Isomorphic(s1, s2, m) && GoodState(s1) && mt in m
    ensures Persists(s1.heap, mt) == Persists(s2.heap, m[mt])
  {
    assert SameCell(s1.heap, s2.heap, mt, m);
    var a, b := s1.heap[mt].obj, s2.heap[m[mt]].obj;
    TableAlike(s1.heap, s2.heap, a, b, m);
    if a.Table? {
      assert GoodAt(s1.heap, mt);
      LiveKeysNamed(s1.heap, a.arr, a.nodes, a.mt, m);
      PersistAlike(s1, s2, m, a.nodes, b.nodes, 0);
    }
  }

  lemma TableAlike(h1: seq<Cell>, h2: seq<Cell>, a: Obj, b: Obj, m: map<Ref, Ref>)
    requires SameObj(h1, h2, a, b, m)
    ensures a.Table? <==> b.Table?
    ensures a.Table? ==>
              && |a.nodes| == |b.nodes|
              && forall j {:trigger a.nodes[j]} :: 0 <= j < |a.nodes| ==> MapNode(a.nodes[j], m) == MapNode(b.nodes[j], Ident(m.Values))
  {
    hide Closed, MapNode;
    if a.Table? {
      assert b.Table?;
      assert MapNodes(a.nodes, m) == MapNodes(b.nodes, Ident(m.Values));
      forall j {:trigger a.nodes[j]} | 0 <= j < |a.nodes|
        ensures MapNode(a.nodes[j], m) == MapNode(b.nodes[j], Ident(m.Values))
      {
        assert MapNodes(a.nodes, m)[j] == MapNode(a.nodes[j], m);
      }
    }
  }

  lemma LiveKeysNamed(h: seq<Cell>, arr: seq<TValue>, nodes: seq<Node>, mt: Ref, m: map<Ref, Ref>)
    requires GoodTable(h, arr, nodes, mt) && Closed(Table(arr, nodes, mt), m.Keys)
    ensures forall j {:trigger nodes[j]} :: 0 <= j < |nodes| && nodes[j].Node? && nodes[j].key.Live? && nodes[j].key.value.Gc? ==>
              nodes[j].key.value.ref in m
  {
    hide Closed, GoodNode;
    forall j {:trigger nodes[j]} | 0 <= j < |nodes| && nodes[j].Node? && nodes[j].key.Live? && nodes[j].key.value.Gc?
      ensures nodes[j].key.value.ref in m
    {
      NodeEdgesGrow(nodes, j);
      var k := nodes[j].key.value;
      assert LiveEdges(nodes[j])[0] == k && k in NodeEdges(nodes);
      var i :| 0 <= i < |NodeEdges(nodes)| && NodeEdges(nodes)[i] == k;
      ClosedHas(Table(arr, nodes, mt), m.Keys, k);
    }
  }

  lemma ClosedHas(o: Obj, rs: set<Ref>, v: TValue)
    requires Closed(o, rs) && v in Edges(o) && v.Gc? && v.ref != Heap.NULL
    ensures v.ref in rs
  {
  }

  // ------------------------------------------------ the same graph, renumbered

  lemma MovesAlike(s1: State, s2: State, m: map<Ref, Ref>, a: seq<TValue>, b: seq<TValue>)
    requires Isomorphic(s1, s2, m) && GoodState(s1)
    requires |a| == |b| && forall i :: 0 <= i < |a| ==> Alike(a[i], b[i], m)
    ensures Renamed(Moves(s1.heap, a), Moves(s2.heap, b), m)
  {
    hide Serializable, GoodState, Isomorphic;
    forall i | 0 <= i < |a|
      ensures Moves(s2.heap, b)[i] == Rename(Moves(s1.heap, a)[i], m)
      ensures Moves(s1.heap, a)[i].To? ==> Moves(s1.heap, a)[i].v in m
    {
      assert Alike(a[i], b[i], m);
      NullStays(s1, s2, m);
      if a[i].Gc? && a[i].ref != Heap.NULL {
        SerializableAlike(s1, s2, m, a[i].ref);
        NotNull(s1, s2, m, a[i].ref);
      }
    }
  }

  lemma NullStays(s1: State, s2: State, m: map<Ref, Ref>)
    requires Isomorphic(s1, s2, m)
    ensures Heap.NULL !in m
  {
  }

  lemma NotNull(s1: State, s2: State, m: map<Ref, Ref>, r: Ref)
    requires Isomorphic(s1, s2, m) && r in m
    ensures m[r] != Heap.NULL
  {
  }

  lemma ShapeOfIsomorphic(s1: State, s2: State, m: map<Ref, Ref>)
    requires Isomorphic(s1, s2, m) && GoodState(s1)
    ensures SameShape(GraphOf(s1), GraphOf(s2), m)
  {
    RootsAlike(s1, s2, m);
    MovesAlike(s1, s2, m, RootEdges(s1), RootEdges(s2));
    var g, h := GraphOf(s1), GraphOf(s2);
    forall u {:trigger m[u]} | u in m
      ensures u < |g.adj| && m[u] < |h.adj| && Renamed(g.adj[u], h.adj[m[u]], m)
    {
      assert SameCell(s1.heap, s2.heap, u, m);
      hide Isomorphic, GoodState, Renamed, SameObj, Edges;
      EdgesAlikeAt(s1, s2, m, u);
      MovesAlike(s1, s2, m, Edges(s1.heap[u].obj), Edges(s2.heap[m[u]].obj));
    }
  }

  lemma EdgesAlikeAt(s1: State, s2: State, m: map<Ref, Ref>, u: Ref)
    requires Isomorphic(s1, s2, m) && u in m && SameCell(s1.heap, s2.heap, u, m)
    ensures var a, b := Edges(s1.heap[u].obj), Edges(s2.heap[m[u]].obj);
            |a| == |b| && forall i :: 0 <= i < |a| ==> Alike(a[i], b[i], m)
  {
    EdgesAlike(s1.heap, s2.heap, s1.heap[u].obj, s2.heap[m[u]].obj, m);
  }

  lemma RootsAlike(s1: State, s2: State, m: map<Ref, Ref>)
    requires Isomorphic(s1, s2, m)
    ensures var a, b := RootEdges(s1), RootEdges(s2);
            |a| == |b| && forall i :: 0 <= i < |a| ==> Alike(a[i], b[i], m)
  {
    var a, b := RootEdges(s1), RootEdges(s2);
    forall i | 0 <= i < |a|
      ensures Alike(a[i], b[i], m)
    {
      if i >= 2 {
        assert a[i] == Gc(s1.mt[i - 2]) && b[i] == Gc(s2.mt[i - 2]);
      }
    }
  }

  // ---------------------------------------------------- the same normal form

  /** Numbering after carrying is numbering. */
  lemma IdsCompose(o1: seq<Ref>, o2: seq<Ref>, n1: nat, n2: nat, m: map<Ref, Ref>)
    requires Injective(m) && Heap.NULL !in m.Keys && Heap.NULL !in m.Values
    requires Fits(o1, n1) && Fits(o2, n2) && RenamedOrder(o1, o2, m)
    ensures Composes(m, Ids(o2), Ids(o1))
    ensures Composes(Ident(m.Values), Ids(o2), Ids(o2))
    ensures forall a, b :: Carried(m, a, b) ==> Look(Ids(o1), a) == Look(Ids(o2), b)
  {
    hide Ids, Fits;
    forall r {:trigger Look(m, r)}
      ensures Look(Ids(o2), Look(m, r)) == Look(Ids(o1), r)
    {
      IdsCarry(o1, o2, n1, n2, m, r);
    }
    forall r {:trigger Look(Ident(m.Values), r)}
      ensures Look(Ids(o2), Look(Ident(m.Values), r)) == Look(Ids(o2), r)
    {
      IdsStay(o2, n2, o1, m, r);
    }
    NoIdForNull(o1, n1);
    NoIdForNull(o2, n2);
    forall a, b | Carried(m, a, b)
      ensures Look(Ids(o1), a) == Look(Ids(o2), b)
    {
      if a in m {
        assert b == Look(m, a);
      }
    }
  }

  lemma NoIdForNull(o: seq<Ref>, n: nat)
    requires Fits(o, n)
    ensures Look(Ids(o), Heap.NULL) == Heap.NULL
  {
  }

  lemma IdsCarry(o1: seq<Ref>, o2: seq<Ref>, n1: nat, n2: nat, m: map<Ref, Ref>, r: Ref)
    requires Injective(m) && Fits(o1, n1) && Fits(o2, n2) && RenamedOrder(o1, o2, m)
    ensures Look(Ids(o2), Look(m, r)) == Look(Ids(o1), r)
  {
    NoIdForNull(o2, n2);
    if r in o1 {
      var i :| 0 <= i < |o1| && o1[i] == r;
      IdsAre(o1, n1, i);
      IdsAre(o2, n2, i);
    } else if r in m {
      forall i | 0 <= i < |o2|
        ensures o2[i] != m[r]
      {
        assert o2[i] == m[o1[i]];
      }
    }
  }

  lemma IdsStay(o2: seq<Ref>, n2: nat, o1: seq<Ref>, m: map<Ref, Ref>, r: Ref)
    requires Fits(o2, n2) && RenamedOrder(o1, o2, m)
    ensures Look(Ids(o2), Look(Ident(m.Values), r)) == Look(Ids(o2), r)
  {
    NoIdForNull(o2, n2);
    if r !in m.Values {
      forall i | 0 <= i < |o2|
        ensures o2[i] != r
      {
        assert o1[i] in m && o2[i] == m[o1[i]];
      }
    }
  }

  lemma CellsAlike(h1: seq<Cell>, h2: seq<Cell>, r: Ref, m: map<Ref, Ref>, ids1: map<Ref, Ref>, ids2: map<Ref, Ref>)
    requires r in m && SameCell(h1, h2, r, m)
    requires Composes(m, ids2, ids1) && Composes(Ident(m.Values), ids2, ids2)
    ensures MapObj(Canon(h1, h1[r].obj), ids1) == MapObj(Canon(h2, h2[m[r]].obj), ids2)
  {
    hide MapObj, Canon, Composes, Closed;
    MapTwice(Canon(h1, h1[r].obj), m, ids2, ids1);
    MapTwice(Canon(h2, h2[m[r]].obj), Ident(m.Values), ids2, ids2);
  }

  lemma NormalCellsAlike(s1: State, s2: State, m: map<Ref, Ref>)
    requires Isomorphic(s1, s2, m) && RenamedOrder(Order(s1), Order(s2), m)
    requires Composes(m, Ids(Order(s2)), Ids(Order(s1))) && Composes(Ident(m.Values), Ids(Order(s2)), Ids(Order(s2)))
    ensures Normal(s1).heap == Normal(s2).heap
  {
    hide Order, Ids, Composes, MapObj, Canon, GoodState;
    var o1, o2 := Order(s1), Order(s2);
    forall i {:trigger o1[i]} | 0 <= i < |o1|
      ensures Normal(s1).heap[i + 1] == Normal(s2).heap[i + 1]
    {
      assert o2[i] == m[o1[i]] && SameCell(s1.heap, s2.heap, o1[i], m);
      CellsAlike(s1.heap, s2.heap, o1[i], m, Ids(o1), Ids(o2));
    }
    forall j | 0 <= j < |o1| + 1
      ensures Normal(s1).heap[j] == Normal(s2).heap[j]
    {
      if j > 0 {
        assert o1[j - 1] in m;
      }
    }
  }

  /** Isomorphic states are numbered alike. */
  lemma OrderIsCanonical(s1: State, s2: State, m: map<Ref, Ref>)
    requires Isomorphic(s1, s2, m) && GoodState(s1)
    ensures RenamedOrder(Order(s1), Order(s2), m)
    ensures Discover(GraphOf(s1)).error == Discover(GraphOf(s2)).error
  {
    ShapeOfIsomorphic(s1, s2, m);
    hide Isomorphic, GoodState, SameShape, GraphOf, Discover, RenamedOrder;
    DiscoverRenamed(GraphOf(s1), GraphOf(s2), m);
  }

  lemma NormalRootsAlike(s1: State, s2: State, m: map<Ref, Ref>, ids1: map<Ref, Ref>, ids2: map<Ref, Ref>)
    requires Isomorphic(s1, s2, m)
    requires forall a, b :: Carried(m, a, b) ==> Look(ids1, a) == Look(ids2, b)
    ensures Look(ids1, s1.registry) == Look(ids2, s2.registry) && Look(ids1, s1.main) == Look(ids2, s2.main)
    ensures MapRefs(s1.mt, ids1) == MapRefs(s2.mt, ids2)
    ensures s1.seed == s2.seed && s1.nextSeq == s2.nextSeq
  {
    hide SameCell, Look, Carried;
    forall i | 0 <= i < |s1.mt|
      ensures Look(ids1, s1.mt[i]) == Look(ids2, s2.mt[i])
    {
      assert Carried(m, s1.mt[i], s2.mt[i]);
    }
  }

  lemma OneToOne(s1: State, s2: State, m: map<Ref, Ref>)
    requires Isomorphic(s1, s2, m)
    ensures Injective(m) && Heap.NULL !in m.Keys && Heap.NULL !in m.Values
  {
  }

  /** Isomorphic states have one normal form. */
  lemma NormalIsCanonical(s1: State, s2: State, m: map<Ref, Ref>)
    requires Isomorphic(s1, s2, m) && GoodState(s1)
    ensures Normal(s1) == Normal(s2)
  {
    OrderIsCanonical(s1, s2, m);
    OneToOne(s1, s2, m);
    hide Isomorphic, GoodState, RenamedOrder, Injective, Composes, Ids, Order, Carried, Look, MapRefs,
         NormalCells, Fits;
    IdsCompose(Order(s1), Order(s2), |s1.heap|, |s2.heap|, m);
    NormalCellsAlike(s1, s2, m);
    NormalRootsAlike(s1, s2, m, Ids(Order(s1)), Ids(Order(s2)));
  }

  // ------------------------------------------------------ the same verdict

  lemma TvsWritable(env: Env, vs: seq<TValue>, m: map<Ref, Ref>)
    ensures WritableTvs(env, MapTvs(vs, m)) == WritableTvs(env, vs)
  {
    var ws := MapTvs(vs, m);
    forall i | 0 <= i < |vs|
      ensures WritableTv(env, ws[i]) == WritableTv(env, vs[i])
      ensures ws[i] in ws && vs[i] in vs
    {
    }
  }

  lemma ArrWritable(env: Env, vs: seq<TValue>)
    ensures WritableTvs(env, CanonArr(vs)) == WritableTvs(env, vs)
  {
    var ws := CanonArr(vs);
    forall i | 0 <= i < |vs|
      ensures WritableTv(env, ws[i]) == WritableTv(env, vs[i])
      ensures ws[i] in ws && vs[i] in vs
    {
    }
  }

  lemma FramesWritable(h: seq<Cell>, env: Env, fs: seq<Frame>, m: map<Ref, Ref>)
    ensures (forall f :: f in MapFrames(CanonFrames(h, fs), m) ==> WritableFrame(env, f)) == (forall f :: f in fs ==> WritableFrame(env, f))
  {
    var gs := MapFrames(CanonFrames(h, fs), m);
    forall i | 0 <= i < |fs|
      ensures WritableFrame(env, gs[i]) == WritableFrame(env, fs[i])
      ensures gs[i] in gs && fs[i] in fs
    {
      assert gs[i] == MapFrame(CanonFrame(h, fs[i]), m);
    }
  }

  lemma WritableMapped(h: seq<Cell>, env: Env, o: Obj, m: map<Ref, Ref>)
    ensures Writable(env, MapObj(Canon(h, o), m)) == Writable(env, o)
  {
    hide WritableTvs, WritableFrame, CanonArr, CanonFrames, MapTvs, MapNodes, NodeEdges, MapFrames, WritableTv;
    match o
    case Table(arr, nodes, mt) =>
      ArrWritable(env, arr);
      TvsWritable(env, CanonArr(arr), m);
      MapNodeEdges(nodes, m);
      TvsWritable(env, NodeEdges(nodes), m);
    case Proto(p) => TvsWritable(env, p.k, m);
    case CClosure(fn, us) => TvsWritable(env, us, m);
    case UpClosed(v) => OneWritable(env, v, m);
    case Thread(_, stack, frames, _) =>
      TvsWritable(env, stack, m);
      FramesWritable(h, env, frames, m);
    case Udata(uvs, _, _) => assert |MapTvs(uvs, m)| == |uvs|;
    case _ =>
  }

  lemma OneWritable(env: Env, v: TValue, m: map<Ref, Ref>)
    ensures WritableTv(env, MapTv(v, m)) == WritableTv(env, v)
  {
  }

  lemma WritableAlike(s1: State, s2: State, env: Env, m: map<Ref, Ref>, r: Ref)
    requires Isomorphic(s1, s2, m) && r in m
    ensures r < |s1.heap| && m[r] < |s2.heap|
    ensures Writable(env, s1.heap[r].obj) == Writable(env, s2.heap[m[r]].obj)
  {
    assert SameCell(s1.heap, s2.heap, r, m);
    hide Writable, MapObj, Canon, Closed;
    WritableMapped(s1.heap, env, s1.heap[r].obj, m);
    WritableMapped(s2.heap, env, s2.heap[m[r]].obj, Ident(m.Values));
  }

  lemma SavableAlike(s1: State, s2: State, env: Env, m: map<Ref, Ref>)
    requires Isomorphic(s1, s2, m) && GoodState(s1)
    ensures Savable(s1, env) == Savable(s2, env)
  {
    OrderIsCanonical(s1, s2, m);
    hide Isomorphic, GoodState, Order, Writable, Discover, GraphOf;
    var o1, o2 := Order(s1), Order(s2);
    forall i {:trigger o1[i]} | 0 <= i < |o1|
      ensures o1[i] in o1 && o2[i] in o2 && Writable(env, s1.heap[o1[i]].obj) == Writable(env, s2.heap[o2[i]].obj)
    {
      assert o1[i] in m && o2[i] == m[o1[i]];
      WritableAlike(s1, s2, env, m, o1[i]);
    }
    if Savable(s1, env) {
      forall r | r in o2
        ensures Writable(env, s2.heap[r].obj)
      {
        var i :| 0 <= i < |o2| && o2[i] == r;
        assert o1[i] in o1;
      }
    }
    if Savable(s2, env) {
      forall r | r in o1
        ensures Writable(env, s1.heap[r].obj)
      {
        var i :| 0 <= i < |o1| && o1[i] == r;
        assert o2[i] in o2;
      }
    }
  }

  /** Saving is a function of the shape: isomorphic states are saved to the same
      bytes, or both refused. */
  lemma SaveIsCanonical(s1: State, s2: State, env: Env, m: map<Ref, Ref>)
    requires Isomorphic(s1, s2, m) && GoodState(s1)
    ensures Save(s1, env) == Save(s2, env)
  {
    SavableAlike(s1, s2, env, m);
    NormalIsCanonical(s1, s2, m);
    hide Isomorphic, GoodState, Savable, Normal, EncState;
  }
}
