// The round trip: what a load makes of a saved state, exactly.
module SaveLoad {
  import opened Bytes
  import opened Heap
  import opened Graph
  import opened Discovery
  import opened Snapshot
  import opened WellFormed
  import opened Saving
  import opened Canonical
  import opened NormalForm
  import opened LoadSpec
  import opened LoadFill
  import opened LoadRelink
  import opened Restore
  import opened Severance
  import opened RoundTrip

  /** From an object to the one loaded for it: by way of its id. */
  function Through(ids: map<Ref, Ref>, ptr: seq<Ref>): map<Ref, Ref> {
    map r | r in ids && 0 < ids[r] < |ptr| :: ptr[ids[r]]
  }

  lemma ThroughComposes(order: seq<Ref>, n: nat, ptr: seq<Ref>)
    requires Fits(order, n) && |ptr| == |order| + 1
    ensures Composes(Ids(order), PtrMap(ptr), Through(Ids(order), ptr))
  {
    var ids, m := Ids(order), Through(Ids(order), ptr);
    hide Fits, Ids;
    forall r {:trigger Look(ids, r)}
      ensures Look(PtrMap(ptr), Look(ids, r)) == Look(m, r)
    {
      if r in ids {
        var i :| 0 <= i < |order| && order[i] == r;
        IdsAre(order, n, i);
      }
    }
  }

  /** The map is defined on the objects of the snapshot, and leads to objects. */
  lemma ThroughMaps(order: seq<Ref>, n: nat, ptr: seq<Ref>, size: nat)
    requires Fits(order, n) && |ptr| == |order| + 1 && forall i :: 0 < i < |ptr| ==> 0 < ptr[i] < size
    ensures var m := Through(Ids(order), ptr);
            && Heap.NULL !in m.Keys && Heap.NULL !in m.Values
            && (forall r :: r in m <==> r in order)
            && (forall i {:trigger order[i]} :: 0 <= i < |order| ==> order[i] in m && m[order[i]] == ptr[i + 1])
  {
    var m := Through(Ids(order), ptr);
    hide Ids;
    forall i {:trigger order[i]} | 0 <= i < |order|
      ensures order[i] in m && m[order[i]] == ptr[i + 1]
    {
      IdsAre(order, n, i);
    }
  }

  /** If different ids have different objects, the map is one to one. */
  lemma ThroughIsOneToOne(order: seq<Ref>, n: nat, ptr: seq<Ref>, size: nat)
    requires Fits(order, n) && |ptr| == |order| + 1 && Distinct(ptr, size)
    ensures Injective(Through(Ids(order), ptr))
  {
    ThroughMaps(order, n, ptr, size);
    hide Ids, Through;
    var m := Through(Ids(order), ptr);
    forall u, v | u in m && v in m && m[u] == m[v]
      ensures u == v
    {
      var i :| 0 <= i < |order| && order[i] == u;
      var j :| 0 <= j < |order| && order[j] == v;
      assert ptr[i + 1] == ptr[j + 1];
    }
  }

  // --------------------------------------------- canonical objects stay as they are

  lemma StripTwice(flag: byte)
    ensures StripFixed(StripFixed(flag)) == StripFixed(flag)
    ensures Bit(StripFixed(flag), PF_VAHID) == Bit(flag, PF_VAHID)
  {
  }

  /** Frames run prototypes that are loaded with the same kind of varargs. */
  ghost predicate SameVarargs(h: seq<Cell>, g: seq<Cell>, m: map<Ref, Ref>, frames: seq<Frame>) {
    forall i :: 0 <= i < |frames| && frames[i].arm.LuaArm? ==>
      HasHiddenVarargs(g, Look(m, frames[i].arm.proto)) == HasHiddenVarargs(h, frames[i].arm.proto)
  }

  lemma FrameStable(h: seq<Cell>, g: seq<Cell>, m: map<Ref, Ref>, f: Frame)
    requires f.arm.LuaArm? ==> HasHiddenVarargs(g, Look(m, f.arm.proto)) == HasHiddenVarargs(h, f.arm.proto)
    ensures var f' := MapFrame(CanonFrame(h, f), m); CanonFrame(g, f') == f'
  {
    hide HasHiddenVarargs, Bit;
  }

  lemma FramesStable(h: seq<Cell>, g: seq<Cell>, m: map<Ref, Ref>, fs: seq<Frame>)
    requires SameVarargs(h, g, m, fs)
    ensures var fs' := MapFrames(CanonFrames(h, fs), m); CanonFrames(g, fs') == fs'
  {
    hide HasHiddenVarargs, CanonFrame, MapFrame, Look;
    var fs' := MapFrames(CanonFrames(h, fs), m);
    forall i | 0 <= i < |fs|
      ensures CanonFrame(g, fs'[i]) == fs'[i]
    {
      FrameStable(h, g, m, fs[i]);
    }
  }

  lemma CanonStable(h: seq<Cell>, g: seq<Cell>, m: map<Ref, Ref>, o: Obj)
    requires o.Thread? ==> SameVarargs(h, g, m, o.frames)
    ensures var b := MapObj(Canon(h, o), m); Canon(g, b) == b
  {
    hide SameVarargs, CanonFrames, MapFrames, MapNodes, StripFixed, MapRefs;
    match o
    case Table(arr, nodes, mt) =>
      assert CanonArr(MapTvs(CanonArr(arr), m)) == MapTvs(CanonArr(arr), m);
    case Proto(p) => StripTwice(p.flag);
    case Thread(_, _, frames, _) => FramesStable(h, g, m, frames);
    case _ =>
  }

  /** Mapping once more with the identity on the image changes nothing. */
  lemma IdentAfter(o: Obj, m: map<Ref, Ref>)
    requires Heap.NULL !in m.Values
    ensures MapObj(MapObj(o, m), Ident(m.Values)) == MapObj(o, m)
  {
    assert Composes(m, Ident(m.Values), m);
    MapTwice(o, m, Ident(m.Values), m);
  }

  lemma ImageClosed(o: Obj, m: map<Ref, Ref>)
    ensures Closed(MapObj(o, m), m.Values)
  {
    MapEdges(o, m);
    hide Edges, MapObj;
  }

  lemma KeysClosed(o: Obj, ids: map<Ref, Ref>, keys: set<Ref>)
    requires EdgesNamed(o, ids) && forall r :: r in ids ==> r in keys
    ensures Closed(o, keys)
  {
    hide Edges;
  }

  /** A loaded object that is the carried canonical form of `a` is the same as `a`. */
  lemma SameBy(h: seq<Cell>, g: seq<Cell>, a: Obj, b: Obj, m: map<Ref, Ref>, ids: map<Ref, Ref>)
    requires b == MapObj(Canon(h, a), m) && Heap.NULL !in m.Values
    requires a.Thread? ==> SameVarargs(h, g, m, a.frames)
    requires EdgesNamed(a, ids) && forall r :: r in ids ==> r in m.Keys
    ensures SameObj(h, g, a, b, m)
  {
    CanonStable(h, g, m, a);
    hide Edges, MapObj, Canon, SameVarargs;
    IdentAfter(Canon(h, a), m);
    ImageClosed(Canon(h, a), m);
    KeysClosed(a, ids, m.Keys);
  }

  // -------------------------------------------------------- one loaded object

  lemma CanonSevered(h: seq<Cell>, order: seq<Ref>, o: Obj)
    ensures Canon(SeveredCells(h, order), o) == Canon(h, o)
  {
    var g := SeveredCells(h, order);
    if o.Thread? {
      forall i | 0 <= i < |o.frames|
        ensures CanonFrames(g, o.frames)[i] == CanonFrames(h, o.frames)[i]
      {
        if o.frames[i].arm.LuaArm? && o.frames[i].arm.proto < |h| {
          var p := o.frames[i].arm.proto;
          SeverKinds(h[p].obj, p in order, order);
        }
        hide Bit;
      }
      assert CanonFrames(g, o.frames) == CanonFrames(h, o.frames);
    }
  }

  /** An open upvalue of the snapshot is owned when its thread is numbered. */
  lemma OwnedIff(s: State, i: nat)
    requires GoodState(s) && i < |Order(s)| && s.heap[Order(s)[i]].obj.UpOpen?
    ensures |Normal(s).heap| == |Order(s)| + 1 && Normal(s).heap[i + 1].obj.UpOpen?
    ensures Owned(Normal(s).heap, i + 1) <==> s.heap[Order(s)[i]].obj.thread in Order(s)
  {
    hide Order, Ids, Normal, SaneAt, Canon;
    var order := Order(s);
    var ids := Ids(order);
    var nh := Normal(s).heap;
    var r := order[i];
    CellOf(s, i);
    assert GoodAt(s.heap, r);
    var t := s.heap[r].obj.thread;
    assert Canon(s.heap, s.heap[r].obj) == s.heap[r].obj by {
      CanonKeeps(s.heap, s.heap[r].obj);
    }
    assert nh[i + 1].obj.thread == Look(ids, t);
    if t in order {
      var j :| 0 <= j < |order| && order[j] == t;
      CellOf(s, j);
      ThreadImage(s.heap, s.heap[t].obj, ids, r);
    }
  }

  lemma ThreadImage(h: seq<Cell>, o: Obj, ids: map<Ref, Ref>, r: Ref)
    requires o.Thread? && r in o.open
    ensures var n := MapObj(Canon(h, o), ids); n.Thread? && Look(ids, r) in n.open
  {
    hide CanonFrames, MapFrames, MapTvs;
    var n := MapObj(Canon(h, o), ids);
    var j :| 0 <= j < |o.open| && o.open[j] == r;
    assert n.open[j] == Look(ids, r);
  }

  /** What comes of an object of the snapshot: a string of the variant that its length asks
      for, and otherwise the canonical object with its pointers led along `m`. */
  function Brought(s: State, m: map<Ref, Ref>, o: Obj, order: seq<Ref>): Obj {
    if o.Str? then Str(|o.s| <= MAXSHORTLEN, o.s) else MapObj(Canon(s.heap, Sever(o, true, order)), m)
  }

  lemma LoadedIs(s: State, ptr: seq<Ref>, i: nat)
    requires GoodState(s) && i < |Order(s)| && |ptr| == |Order(s)| + 1
    ensures |Normal(s).heap| == |Order(s)| + 1
    ensures var r := Order(s)[i];
            && r < |s.heap|
            && LoadedAs(Normal(s).heap, i + 1, PtrMap(ptr)) == Brought(s, Through(Ids(Order(s)), ptr), s.heap[r].obj, Order(s))
  {
    hide Order, Ids, Normal, Canon, MapObj, GoodState, PtrMap, Through, Owned;
    var r := Order(s)[i];
    var o := s.heap[r].obj;
    CellOf(s, i);
    OrderFits(s);
    ThroughComposes(Order(s), |s.heap|, ptr);
    MapTwice(Canon(s.heap, o), Ids(Order(s)), PtrMap(ptr), Through(Ids(Order(s)), ptr));
    OpenStays(s.heap, o, Ids(Order(s)));
    ClosedNil(s.heap, Through(Ids(Order(s)), ptr));
    if o.UpOpen? {
      OwnedIff(s, i);
    }
    StringKept(s.heap, o, Ids(Order(s)));
  }

  lemma ExactAt(nh: seq<Cell>, i: nat)
    requires Exact(nh) && 0 < i < |nh|
    ensures !HasTwin(nh, i)
    ensures nh[i].obj.Str? ==> nh[i].obj == Str(|nh[i].obj.s| <= MAXSHORTLEN, nh[i].obj.s)
  {
    if HasTwin(nh, i) {
      var j :| 0 < j < |nh| && j != i && Twins(nh, i, j);
      assert Twins(nh, j, i);
    }
  }

  lemma OrderFits(s: State)
    ensures Fits(Order(s), |s.heap|)
  {
  }

  lemma OpenStays(h: seq<Cell>, o: Obj, ids: map<Ref, Ref>)
    ensures MapObj(Canon(h, o), ids).UpOpen? <==> o.UpOpen?
  {
  }

  lemma ClosedNil(h: seq<Cell>, m: map<Ref, Ref>)
    ensures MapObj(Canon(h, UpClosed(TValue.Nil)), m) == UpClosed(TValue.Nil)
  {
  }

  /** Where a load puts the object with id `i + 1`, and what it puts there. */
  lemma LoadedAt(s: State, st: State, ptr: seq<Ref>, i: nat)
    requires GoodState(s) && i < |Order(s)| && Restores(Normal(s), st, ptr)
    ensures |Normal(s).heap| == |ptr| == |Order(s)| + 1
    ensures var r := Order(s)[i]; var m := Through(Ids(Order(s)), ptr);
            && 0 < r < |s.heap| && r in m && m[r] == ptr[i + 1] && 0 < m[r] < |st.heap|
            && Heap.NULL !in m.Keys && Heap.NULL !in m.Values && (forall q :: q in m <==> q in Order(s))
            && st.heap[m[r]].obj == Brought(s, m, s.heap[r].obj, Order(s))
            && (st.heap[m[r]].objid == s.heap[r].objid || HasTwin(Normal(s).heap, i + 1))
  {
    hide Order, Ids, Normal, Brought, GoodState, PtrMap, Through, LoadedAs, MapRefs, HasTwin, Twins, Canon, MapObj;
    CellOf(s, i);
    LoadedIs(s, ptr, i);
    OrderFits(s);
    ThroughMaps(Order(s), |s.heap|, ptr, |st.heap|);
    assert ptr[i + 1] == ptr[i + 1];
  }

  /** When a load tells the strings apart, it puts each cell back as it was. */
  lemma LoadedExactly(s: State, st: State, ptr: seq<Ref>, i: nat)
    requires GoodState(s) && i < |Order(s)| && Restores(Normal(s), st, ptr) && Exact(Normal(s).heap)
    ensures var r := Order(s)[i]; var m := Through(Ids(Order(s)), ptr);
            && 0 < r < |s.heap| && r in m && 0 < m[r] < |st.heap| && Injective(m)
            && st.heap[m[r]].objid == s.heap[r].objid && (s.heap[r].obj.Str? ==> st.heap[m[r]].obj == s.heap[r].obj)
  {
    hide Order, Ids, Normal, GoodState, Through, Refilled, Exact, HasTwin, Canon, MapObj, Sever;
    LoadedAt(s, st, ptr, i);
    CellOf(s, i);
    OrderFits(s);
    ExactAt(Normal(s).heap, i + 1);
    StringKept(s.heap, s.heap[Order(s)[i]].obj, Ids(Order(s)));
    RestoredApart(Normal(s), st, ptr);
    ExactDistinct(Normal(s).heap, ptr, |st.heap|);
    ThroughIsOneToOne(Order(s), |s.heap|, ptr, |st.heap|);
  }

  lemma RestoredApart(n: State, st: State, ptr: seq<Ref>)
    requires Restores(n, st, ptr)
    ensures Apart(n.heap, ptr, |st.heap|)
  {
    hide Apart, PutBack;
  }

  lemma ExactDistinct(nh: seq<Cell>, ptr: seq<Ref>, size: nat)
    requires Exact(nh) && Apart(nh, ptr, size)
    ensures Distinct(ptr, size) && |ptr| == |nh|
  {
    ApartDistinct(nh, ptr, size);
  }

  lemma VarargsImage(h: seq<Cell>, o: Obj, order: seq<Ref>, m: map<Ref, Ref>)
    requires o.Proto?
    ensures var n := MapObj(Canon(h, Sever(o, true, order)), m);
            n.Proto? && Bit(n.p.flag, PF_VAHID) == Bit(o.p.flag, PF_VAHID)
  {
    StripTwice(o.p.flag);
    hide Bit, StripFixed, MapTvs, MapRefs, MapUps, MapVars;
  }

  lemma VarargsKept(s: State, env: Env, st: State, ptr: seq<Ref>, frames: seq<Frame>)
    requires GoodState(s) && Restores(Normal(s), st, ptr)
    requires FramesNamed(s.heap, frames, Ids(Order(s)))
    ensures SameVarargs(Severed(s).heap, st.heap, Through(Ids(Order(s)), ptr), frames)
  {
    hide Order, Ids, Normal, Canon, MapObj, GoodState, Restores, Through, Sever, Bit;
    var m := Through(Ids(Order(s)), ptr);
    forall k | 0 <= k < |frames| && frames[k].arm.LuaArm?
      ensures HasHiddenVarargs(st.heap, Look(m, frames[k].arm.proto)) == HasHiddenVarargs(Severed(s).heap, frames[k].arm.proto)
    {
      var p := frames[k].arm.proto;
      var i :| 0 <= i < |Order(s)| && Order(s)[i] == p;
      LoadedAt(s, st, ptr, i);
      VarargsImage(s.heap, s.heap[p].obj, Order(s), m);
      SeverKinds(s.heap[p].obj, p in Order(s), Order(s));
    }
  }

  lemma SeverNamed(o: Obj, order: seq<Ref>, ids: map<Ref, Ref>)
    requires EdgesNamed(o, ids)
    ensures EdgesNamed(Sever(o, true, order), ids)
  {
    SeverEdges(o, order);
    hide Edges, Sever;
  }

  lemma SeveredAt(s: State, r: Ref)
    requires r in Order(s) && r < |s.heap|
    ensures Severed(s).heap[r] == Cell(s.heap[r].objid, Sever(s.heap[r].obj, true, Order(s)))
  {
    hide Order, Sever;
  }

  /** What is loaded for an object other than a string is the same, up to its lost thread. */
  lemma LoadedSame(s: State, env: Env, st: State, ptr: seq<Ref>, i: nat)
    requires GoodState(s) && Savable(s, env) && StringsSane(s) && i < |Order(s)| && Restores(Normal(s), st, ptr)
    ensures var m := Through(Ids(Order(s)), ptr); var r := Order(s)[i];
            && r in m && 0 < r < |s.heap| && 0 < m[r] < |st.heap|
            && (!s.heap[r].obj.Str? ==>
                  SameObj(Severed(s).heap, st.heap, Sever(s.heap[r].obj, true, Order(s)), st.heap[m[r]].obj, m))
  {
    hide Order, Ids, Normal, Canon, MapObj, GoodState, Restores, Through, Sever, Savable, StringsSane, Stored,
         Severed, SameObj, EdgesNamed, FramesNamed, SameVarargs, GoodAt, Writable, Injective, HasTwin;
    var r := Order(s)[i];
    var ids, m := Ids(Order(s)), Through(Ids(Order(s)), ptr);
    LoadedAt(s, st, ptr, i);
    IsStored(s, env, r);
    StoredIs(s, env, r);
    var a := Sever(s.heap[r].obj, true, Order(s));
    SeverNamed(s.heap[r].obj, Order(s), ids);
    CanonOfSevered(s, a);
    SeverThread(s.heap[r].obj, Order(s));
    if a.Thread? {
      VarargsKept(s, env, st, ptr, a.frames);
    }
    if !s.heap[r].obj.Str? {
      SameBy(Severed(s).heap, st.heap, a, st.heap[m[r]].obj, m, ids);
    }
  }

  lemma SameString(h: seq<Cell>, g: seq<Cell>, o: Obj, m: map<Ref, Ref>)
    requires o.Str?
    ensures SameObj(h, g, o, o, m)
  {
  }

  lemma LoadedCell(s: State, env: Env, st: State, ptr: seq<Ref>, i: nat)
    requires GoodState(s) && Savable(s, env) && StringsSane(s) && i < |Order(s)|
    requires Restores(Normal(s), st, ptr) && Exact(Normal(s).heap)
    ensures var m := Through(Ids(Order(s)), ptr);
            Order(s)[i] in m && SameCell(Severed(s).heap, st.heap, Order(s)[i], m)
  {
    hide Order, Ids, Normal, GoodState, Restores, Through, Sever, Savable, StringsSane, Severed, SameObj, Injective;
    var r := Order(s)[i];
    var m := Through(Ids(Order(s)), ptr);
    LoadedSame(s, env, st, ptr, i);
    LoadedExactly(s, st, ptr, i);
    SeveredAt(s, r);
    CanonOfSevered(s, s.heap[r].obj);
    SeverKinds(s.heap[r].obj, true, Order(s));
    if s.heap[r].obj.Str? {
      SameString(Severed(s).heap, st.heap, s.heap[r].obj, m);
    }
  }

  lemma CanonOfSevered(s: State, o: Obj)
    ensures |Severed(s).heap| == |s.heap| && Canon(Severed(s).heap, o) == Canon(s.heap, o)
  {
    hide Canon, Order;
    CanonSevered(s.heap, Order(s), o);
  }

  lemma SeverThread(o: Obj, order: seq<Ref>)
    ensures Sever(o, true, order).Thread? <==> o.Thread?
    ensures o.Thread? ==> Sever(o, true, order) == o
  {
  }

  lemma LoadedRoots(s: State, env: Env, st: State, ptr: seq<Ref>)
    requires GoodState(s) && !Discover(GraphOf(s)).error && Restores(Normal(s), st, ptr)
    ensures var m := Through(Ids(Order(s)), ptr);
            && Carried(m, s.registry, st.registry) && Carried(m, s.main, st.main)
            && |s.mt| == |st.mt| && (forall i :: 0 <= i < |s.mt| ==> Carried(m, s.mt[i], st.mt[i]))
            && s.seed == st.seed && s.nextSeq == st.nextSeq
  {
    hide Order, Ids, Normal, Canon, MapObj, GoodState, Through, Distinct, Refilled, Discover, GraphOf, PtrMap;
    var order, ids, m := Order(s), Ids(Order(s)), Through(Ids(Order(s)), ptr);
    NormalRoots(s);
    RootsNamed(s);
    RootCarried(s, st, ptr, s.registry);
    RootCarried(s, st, ptr, s.main);
    forall i | 0 <= i < |s.mt|
      ensures Carried(m, s.mt[i], st.mt[i])
    {
      if s.mt[i] == Heap.NULL {
        NullCarried(s, st, ptr);
      } else {
        RootCarried(s, st, ptr, s.mt[i]);
      }
    }
  }

  lemma NullCarried(s: State, st: State, ptr: seq<Ref>)
    ensures Look(PtrMap(ptr), Look(Ids(Order(s)), Heap.NULL)) == Heap.NULL
  {
    OrderFits(s);
    NoIdForNull(Order(s), |s.heap|);
  }

  lemma RootCarried(s: State, st: State, ptr: seq<Ref>, r: Ref)
    requires GoodState(s) && Restores(Normal(s), st, ptr) && r in Order(s)
    ensures var m := Through(Ids(Order(s)), ptr); var id := Look(Ids(Order(s)), r);
            r in m && 0 < id < |ptr| && m[r] == ptr[id] && Look(PtrMap(ptr), id) == ptr[id]
  {
    hide Order, Ids, Normal, Canon, MapObj, GoodState, Through, Refilled;
    var i :| 0 <= i < |Order(s)| && Order(s)[i] == r;
    LoadedAt(s, st, ptr, i);
    CellOf(s, i);
    RestoredSize(Normal(s), st, ptr);
  }

  lemma RestoredSize(n: State, st: State, ptr: seq<Ref>)
    requires Restores(n, st, ptr)
    ensures |ptr| == |n.heap|
  {
  }

  /** What a load gives is the saved state without the threads that it does not reach. */
  lemma LoadedIsIsomorphic(s: State, env: Env, st: State, ptr: seq<Ref>)
    requires GoodState(s) && Savable(s, env) && StringsSane(s) && Restores(Normal(s), st, ptr) && Exact(Normal(s).heap)
    ensures Isomorphic(Severed(s), st, Through(Ids(Order(s)), ptr))
  {
    hide Order, Ids, Normal, GoodState, Through, Restores, Savable, StringsSane, SameCell, SeveredCells,
         Carried, Injective;
    var order, m := Order(s), Through(Ids(Order(s)), ptr);
    RootsKnown(s, env);
    LoadedRoots(s, env, st, ptr);
    var k :| 0 <= k < |order| && order[k] == s.registry;
    LoadedAt(s, st, ptr, k);
    LoadedExactly(s, st, ptr, k);
    forall r {:trigger m[r]} | r in m
      ensures SameCell(Severed(s).heap, st.heap, r, m)
    {
      var i :| 0 <= i < |order| && order[i] == r;
      LoadedCell(s, env, st, ptr, i);
    }
  }

  lemma RootsKnown(s: State, env: Env)
    requires GoodState(s) && Savable(s, env)
    ensures !Discover(GraphOf(s)).error && s.registry in Order(s)
  {
    assert !Discover(GraphOf(s)).error;
    hide Discover, GraphOf, Order, GoodState;
    RootsNamed(s);
  }
}
