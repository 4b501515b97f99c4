// A whole save: discovery, then the header, one record per object, and the roots.
module WholeSave {
  import opened Bytes
  import opened Heap
  import opened Graph
  import opened Discovery
  import opened Wire
  import opened Snapshot
  import opened WellFormed
  import opened Saving
  import SaveVerdict

  /** When discovery refused nothing, everything that a numbered object refers to
      is numbered too. */
  lemma ClosedUnderEdges(s: State, r: Ref)
    requires GoodState(s) && !Discover(GraphOf(s)).error && r in Order(s)
    ensures 0 < r < |s.heap| && EdgesNamed(s.heap[r].obj, Ids(Order(s)))
  {
    hide Discover, Edges, MoveOf, Bfs, EdgesNamed;
    var g := GraphOf(s);
    var f := Discover(g);
    DiscoverScans(g);
    var k :| 0 <= k < |f.order| && f.order[k] == r;
    assert Absorbed(f, g.adj[f.order[k]]);
    assert SaneAt(s.heap, r);
    AbsorbedNames(s.heap, s.heap[r].obj, f);
  }

  lemma AbsorbedNames(h: seq<Cell>, o: Obj, f: Found)
    requires SaneObj(h, o) && Absorbed(f, Moves(h, Edges(o))) && !f.error
    ensures EdgesNamed(o, Ids(f.order))
  {
    hide Edges, Serializable;
    var es := Edges(o);
    forall v | v in es && v.Gc? && v.ref != Heap.NULL
      ensures v.ref in Ids(f.order)
    {
      var i :| 0 <= i < |es| && es[i] == v;
      assert Moves(h, es)[i] == MoveOf(h, v);
      assert MoveOf(h, v) in Moves(h, es);
    }
  }

  /** The normal form's cells carry the kinds of the objects they stand for. */
  lemma NormalIsLinked(s: State)
    requires GoodState(s)
    ensures Linked(s.heap, Ids(Order(s)), Normal(s).heap)
  {
    var order := Order(s);
    var ids := Ids(order);
    var nh := Normal(s).heap;
    FitsIsShort(order, |s.heap|);
    forall r {:trigger ids[r]} | r in ids
      ensures 0 < r < |s.heap| && 0 < ids[r] < |nh| <= ObjTable.MAX_ENTRIES
      ensures TagOf(nh[ids[r]].obj) == TagOf(s.heap[r].obj)
      ensures s.heap[r].obj.UpOpen? ==> nh[ids[r]].obj.UpOpen? && nh[ids[r]].obj.slot == s.heap[r].obj.slot
    {
      var i :| 0 <= i < |order| && order[i] == r;
      IdsAre(order, |s.heap|, i);
      CanonKeeps(s.heap, s.heap[r].obj);
      assert nh[i + 1].obj == MapObj(Canon(s.heap, s.heap[r].obj), ids);
      MapKeepsTag(Canon(s.heap, s.heap[r].obj), ids);
    }
  }

  lemma MapKeepsTag(o: Obj, m: map<Ref, Ref>)
    ensures TagOf(MapObj(o, m)) == TagOf(o)
    ensures o.UpOpen? ==> MapObj(o, m).UpOpen? && MapObj(o, m).slot == o.slot
  {
  }

  ghost predicate AllWritable(env: Env, h: seq<Cell>, rs: seq<Ref>) {
    forall i :: 0 <= i < |rs| ==> rs[i] < |h| && Writable(env, h[rs[i]].obj)
  }

  /** All records, in the order of the ids. */
  method WriteObjects(w: Writer, s: State, order: seq<Ref>)
    requires GoodState(s) && !Discover(GraphOf(s)).error
    requires w.Ready() && w.h == s.heap && w.nh == Normal(s).heap
    requires order == Order(s) && w.ids.View == Ids(order) && !w.error
    modifies w`data, w`error
    ensures w.error == !AllWritable(w.env, s.heap, order)
    ensures !w.error ==> w.data == old(w.data) + EncAll(WireRecs(w.nh, w.env), EncRec)
  {
    hide *;
    ghost var recs := WireRecs(w.nh, w.env);
    RecordCount(s, w.env);
    EncNone(recs, EncRec);
    NoneWritable(w.env, s.heap, order);
    for i := 0 to |order|
      invariant w.error == !AllWritable(w.env, s.heap, order[..i])
      invariant !w.error ==> w.data == old(w.data) + EncAll(recs[..i], EncRec)
    {
      OneMoreWritable(w.env, s.heap, order, i);
      if w.error {
        return;
      }
      RecordOf(s, w.env, i);
      EncAllSnoc(recs, i, EncRec);
      ClosedUnderEdges(s, order[i]);
      w.WriteObj(order[i]);
    }
    assert order[..|order|] == order && recs[..|order|] == recs;
  }

  lemma NoneWritable(env: Env, h: seq<Cell>, rs: seq<Ref>)
    ensures AllWritable(env, h, rs[..0])
  {
  }

  lemma OneMoreWritable(env: Env, h: seq<Cell>, rs: seq<Ref>, i: nat)
    requires i < |rs|
    ensures AllWritable(env, h, rs[..i + 1]) == (AllWritable(env, h, rs[..i]) && rs[i] < |h| && Writable(env, h[rs[i]].obj))
    ensures AllWritable(env, h, rs) ==> AllWritable(env, h, rs[..i])
  {
    hide Writable;
    forall k | 0 <= k < i
      ensures rs[..i][k] == rs[..i + 1][k] == rs[k]
    {
    }
    assert rs[..i + 1][i] == rs[i];
  }

  lemma RecordCount(s: State, env: Env)
    ensures |WireRecs(Normal(s).heap, env)| == |Order(s)|
  {
  }

  /** The `i`th record describes the `i`th object of the order. */
  lemma RecordOf(s: State, env: Env, i: nat)
    requires GoodState(s) && i < |Order(s)|
    ensures var r := Order(s)[i];
            && 0 < r < |s.heap| && GoodAt(s.heap, r) && i < |WireRecs(Normal(s).heap, env)|
            && WireRecs(Normal(s).heap, env)[i]
               == Rec(s.heap[r].objid, WireObj(Normal(s).heap, env, MapObj(Canon(s.heap, s.heap[r].obj), Ids(Order(s)))))
  {
    hide Order, WireObj, MapObj, Canon, Ids, GoodAt, SaneAt;
  }

  /** Registry, main thread and type metatables. */
  method WriteFooter(w: Writer, s: State)
    requires w.Ready()
    modifies w`data
    ensures w.data == old(w.data)
                      + (EncU32(Cast32(Look(w.ids.View, s.registry)))
                         + (EncU32(Cast32(Look(w.ids.View, s.main))) + EncAll(WireIds(MapRefs(s.mt, w.ids.View)), EncU32)))
  {
    hide *;
    w.WriteId(s.registry);
    w.WriteId(s.main);
    w.WriteIds(s.mt);
    FooterFlat(old(w.data), Cast32(Look(w.ids.View, s.registry)), Cast32(Look(w.ids.View, s.main)),
               EncAll(WireIds(MapRefs(s.mt, w.ids.View)), EncU32));
  }

  lemma FooterFlat(d: seq<byte>, a: u32, b: u32, c: seq<byte>)
    ensures d + Le(a, 4) + Le(b, 4) + c == d + (EncU32(a) + (EncU32(b) + c))
  {
  }

  /** Serialize a state, or say that it cannot be serialized. */
  method SaveState(s: State, env: Env) returns (r: Saved)
    requires GoodState(s)
    ensures r == Save(s, env)
    ensures r == SaveError <==> exists q :: SaveVerdict.ReachedRefused(s, env, q)
  {
    SaveIs(s, env);
    RootsInRange(s);
    SaveVerdict.SaveIsRefused(s, env);
    hide SaveVerdict.ReachedRefused, Save, Discover, Normal, GoodState, Bfs, SerState.Valid, AllWritable, GraphOf;
    var st := new SerState(s.heap);
    st.DiscoverAll(s);
    if st.error {
      return SaveError;
    }
    r := WriteState(s, env, st.ids, st.ordered);
  }

  method WriteState(s: State, env: Env, ids: ObjTable.ObjMap, order: seq<Ref>) returns (r: Saved)
    requires GoodState(s) && !Discover(GraphOf(s)).error
    requires order == Order(s) && ids.Valid() && ids.View == Ids(order)
    ensures r == if AllWritable(env, s.heap, order) then Saved.Snapshot(EncState(Normal(s), env)) else SaveError
  {
    NormalIsLinked(s);
    hide *;
    var w := new Writer(s.heap, env, ids, Normal(s).heap);
    w.IsReady();
    WriteParts(w, s, order);
    r := if w.error then SaveError else Saved.Snapshot(w.data);
  }

  method WriteParts(w: Writer, s: State, order: seq<Ref>)
    requires GoodState(s) && !Discover(GraphOf(s)).error
    requires w.Ready() && w.h == s.heap && w.nh == Normal(s).heap
    requires order == Order(s) && w.ids.View == Ids(order) && !w.error && w.data == []
    modifies w`data, w`error
    ensures w.error == !AllWritable(w.env, s.heap, order)
    ensures !w.error ==> w.data == EncState(Normal(s), w.env)
  {
    NormalParts(s);
    hide *;
    ghost var n := Normal(s);
    w.U64(s.nextSeq);
    w.U32(s.seed);
    ghost var d := w.data;
    assert d == [] + Le(n.nextSeq, 8) + Le(n.seed, 4);
    WriteObjects(w, s, order);
    ghost var e := w.data;
    WriteFooter(w, s);
    if !w.error {
      assert e == d + EncAll(WireRecs(n.heap, w.env), EncRec);
      assert w.data == e + EncFooter(n);
      StateFlat(n, w.env);
    }
  }

  lemma NormalParts(s: State)
    ensures var n := Normal(s); var ids := Ids(Order(s));
            && n.nextSeq == s.nextSeq && n.seed == s.seed
            && EncFooter(n) == EncU32(Cast32(Look(ids, s.registry)))
                               + (EncU32(Cast32(Look(ids, s.main))) + EncAll(WireIds(MapRefs(s.mt, ids)), EncU32))
  {
  }

  lemma SaveIs(s: State, env: Env)
    requires GoodState(s)
    ensures Save(s, env) == if !Discover(GraphOf(s)).error && AllWritable(env, s.heap, Order(s))
                            then Saved.Snapshot(EncState(Normal(s), env)) else SaveError
    ensures Order(s) == Discover(GraphOf(s)).order
  {
  }

  lemma RootsInRange(s: State)
    requires GoodState(s)
    ensures Sane(s.heap) && InRange(s.heap, RootEdges(s))
  {
  }

  lemma StateFlat(n: State, env: Env)
    ensures [] + Le(n.nextSeq, 8) + Le(n.seed, 4) + EncAll(WireRecs(n.heap, env), EncRec) + EncFooter(n) == EncState(n, env)
  {
    hide Le, EncAll, WireRecs, EncFooter;
  }
}
