// Which objects a snapshot covers and in which order: the breadth-first discovery
// pass over the heap, with its pointer table and its work list.
module Discovery {
  import opened Bytes
  import opened Heap
  import opened Graph
  import opened ObjTable
  import opened ObjQueue

  // ------------------------------------------------------ what can be saved

  /** "__persist" */
  const PERSIST: seq<byte> := [95, 95, 112, 101, 114, 115, 105, 115, 116]

  function Truthy(v: TValue): bool {
    v != TValue.Nil && v != Empty && v != False
  }

  function IsPersistKey(h: seq<Cell>, n: Node): bool {
    && n.Node? && n.key.Live? && n.key.value.Gc? && n.key.value.ref < |h|
    && var o := h[n.key.value.ref].obj;
       o.Str? && o.s == PERSIST
  }

  /** The first node from `i` on whose key is "__persist" holds a true value. */
  function PersistFrom(h: seq<Cell>, nodes: seq<Node>, i: nat): bool
    requires i <= |nodes|
    decreases |nodes| - i
  {
    if i == |nodes| then false
    else if IsPersistKey(h, nodes[i]) then Truthy(nodes[i].val)
    else PersistFrom(h, nodes, i + 1)
  }

  function Persists(h: seq<Cell>, mt: Ref): bool {
    mt != Heap.NULL && mt < |h| && h[mt].obj.Table? && PersistFrom(h, h[mt].obj.nodes, 0)
  }

  /** Only userdata can be refused, and only for want of a true `__persist`. */
  predicate Serializable(h: seq<Cell>, o: Obj) {
    o.Udata? ==> Persists(h, o.meta)
  }

  // ------------------------------------------------------ the heap as a graph

  /** What the discovery pass does with a value. */
  function MoveOf(h: seq<Cell>, v: TValue): Move {
    match v
    case Gc(r) =>
      if r == Heap.NULL || r >= |h| then Skip
      else if Serializable(h, h[r].obj) then To(r) else Refuse
    case LightUd(_) => Refuse
    case _ => Skip
  }

  function Moves(h: seq<Cell>, vs: seq<TValue>): (ms: seq<Move>)
    ensures |ms| == |vs| && forall i :: 0 <= i < |vs| ==> ms[i] == MoveOf(h, vs[i])
  {
    seq(|vs|, i requires 0 <= i < |vs| => MoveOf(h, vs[i]))
  }

  function RootEdges(s: State): seq<TValue> {
    [Gc(s.registry), Gc(s.main)] + Refs(s.mt)
  }

  function GraphOf(s: State): (g: Graph)
    ensures Good(g) && |g.adj| == |s.heap|
  {
    Graph(seq(|s.heap|, i requires 0 <= i < |s.heap| => Moves(s.heap, Edges(s.heap[i].obj))),
          Moves(s.heap, RootEdges(s)))
  }

  /** The objects of the snapshot, in the order of their ids. */
  ghost function Order(s: State): (order: seq<Ref>)
    ensures Fits(order, |s.heap|)
  {
    Discover(GraphOf(s)).order
  }

  /** The numbering: the `i`th object has id `i + 1`. */
  ghost function Ids(order: seq<Ref>): (ids: map<Ref, Ref>)
    ensures forall r :: r in ids <==> r in order
  {
    if order == [] then map[] else Ids(order[..|order| - 1])[order[|order| - 1] := |order|]
  }

  lemma {:induction false} IdsAre(order: seq<Ref>, n: nat, i: nat)
    requires Fits(order, n) && i < |order|
    ensures Ids(order)[order[i]] == i + 1
  {
    var k := |order| - 1;
    if i < k {
      IdsAre(order[..k], n, i);
      assert order[i] != order[k];
    }
  }

  lemma NextId(order: seq<Ref>, n: nat, o: Ref)
    requires Fits(order, n) && 0 < o < n && o !in order
    ensures |order| + 1 < n && Fits(order + [o], n)
    ensures Ids(order + [o]) == Ids(order)[o := |order| + 1]
  {
    hide Fits;
    FitsSnoc(order, n, o);
    FitsIsShort(order + [o], n);
    assert (order + [o])[..|order|] == order;
  }

  lemma FitsAt(order: seq<Ref>, n: nat, i: nat)
    requires Fits(order, n) && i < |order|
    ensures 0 < order[i] < n
  {
  }

  lemma FitsSnoc(order: seq<Ref>, n: nat, o: Ref)
    requires Fits(order, n) && 0 < o < n && o !in order
    ensures Fits(order + [o], n)
  {
  }

  lemma MovesAppend(h: seq<Cell>, a: seq<TValue>, b: seq<TValue>)
    ensures Moves(h, a + b) == Moves(h, a) + Moves(h, b)
  {
  }

  // ------------------------------------------------------------- the passes

  /** The node has a key in use, and the key reads "__persist". */
  ghost predicate ReadsPersist(h: seq<Cell>, n: Node) {
    && n.Node? && n.key.Live? && n.key.value.Gc? && n.key.value.ref < |h|
    && h[n.key.value.ref].obj.Str?
    && h[n.key.value.ref].obj.s == [0x5F, 0x5F, 0x70, 0x65, 0x72, 0x73, 0x69, 0x73, 0x74]
  }

  /** Node `i` is the first one that reads "__persist", and its value is neither nil nor false. */
  ghost predicate OptsInAt(h: seq<Cell>, nodes: seq<Node>, i: nat) {
    && i < |nodes| && ReadsPersist(h, nodes[i]) && (forall j :: 0 <= j < i ==> !ReadsPersist(h, nodes[j]))
    && nodes[i].val != TValue.Nil && nodes[i].val != Empty && nodes[i].val != False
  }

  /** There is a metatable, and it lets its userdata be saved. */
  ghost predicate OptsIn(h: seq<Cell>, mt: Ref) {
    mt != Heap.NULL && mt < |h| && h[mt].obj.Table? && exists i :: OptsInAt(h, h[mt].obj.nodes, i)
  }

  lemma {:induction false} PersistIsOpting(h: seq<Cell>, nodes: seq<Node>, i: nat)
    requires i <= |nodes| && forall j :: 0 <= j < i ==> !ReadsPersist(h, nodes[j])
    ensures PersistFrom(h, nodes, i) <==> exists k :: OptsInAt(h, nodes, k)
    decreases |nodes| - i
  {
    if i < |nodes| {
      if ReadsPersist(h, nodes[i]) {
        assert OptsInAt(h, nodes, i) <==> Truthy(nodes[i].val);
      } else {
        PersistIsOpting(h, nodes, i + 1);
      }
    }
  }

  lemma PersistsIsOptsIn(h: seq<Cell>, mt: Ref)
    ensures Persists(h, mt) <==> OptsIn(h, mt)
  {
    if mt != Heap.NULL && mt < |h| && h[mt].obj.Table? {
      PersistIsOpting(h, h[mt].obj.nodes, 0);
    }
  }

  /** Does the metatable opt its userdata in? */
  method MetatablePersists(h: seq<Cell>, mt: Ref) returns (b: bool)
    requires mt == Heap.NULL || (mt < |h| && h[mt].obj.Table?)
    ensures b == Persists(h, mt)
    ensures b <==> OptsIn(h, mt)
  {
    PersistsIsOptsIn(h, mt);
    if mt == Heap.NULL {
      return false;
    }
    var nodes := h[mt].obj.nodes;
    for i := 0 to |nodes|
      invariant PersistFrom(h, nodes, i) == PersistFrom(h, nodes, 0)
    {
      if IsPersistKey(h, nodes[i]) {
        return Truthy(nodes[i].val);
      }
    }
    return false;
  }

  /** What an object points at are cells, and a userdata's metatable is a table. */
  ghost predicate SaneObj(h: seq<Cell>, o: Obj) {
    && InRange(h, Edges(o))
    && (o.Udata? ==> o.meta == Heap.NULL || (o.meta < |h| && h[o.meta].obj.Table?))
  }

  ghost predicate SaneAt(h: seq<Cell>, r: Ref)
    requires r < |h|
  {
    SaneObj(h, h[r].obj)
  }

  ghost predicate Sane(h: seq<Cell>) {
    0 < |h| < MAX_ENTRIES && forall r :: 0 < r < |h| ==> SaneAt(h, r)
  }

  ghost predicate Accepted(h: seq<Cell>, order: seq<Ref>) {
    forall r :: r in order ==> r < |h| && Serializable(h, h[r].obj)
  }

  lemma AcceptedSnoc(h: seq<Cell>, order: seq<Ref>, o: Ref)
    requires Accepted(h, order) && o < |h| && Serializable(h, h[o].obj)
    ensures Accepted(h, order + [o])
  {
  }

  class SerState {
    const ids: ObjMap
    const queue: ObjQ
    var ordered: seq<Ref>
    var error: bool
    ghost var done: nat

    ghost function Repr(): set<object>
      reads this, ids, queue
    {
      {this, ids, ids.ents, queue, queue.items}
    }

    ghost predicate Valid(h: seq<Cell>)
      reads this, ids, ids.ents, queue, queue.items
      ensures Valid(h) ==> Fits(ordered, |h|) && done <= |ordered|
    {
      && ids.Valid() && queue.Valid()
      && Fits(ordered, |h|) && Accepted(h, ordered)
      && ids.View == Ids(ordered) && ids.count == |ordered|
      && done <= |ordered| && queue.Contents == ordered[done..]
    }

    ghost function Progress(): Found
      reads this
    {
      Found(ordered, error)
    }

    constructor (h: seq<Cell>)
      ensures Valid(h) && fresh(Repr())
      ensures ordered == [] && !error && done == 0
    {
      ids := new ObjMap();
      queue := new ObjQ();
      ordered, error, done := [], false, 0;
    }

    /** Number `o` if it is new, and put it on the work list. */
    method DiscoverObj(h: seq<Cell>, o: Ref)
      requires Valid(h) && Sane(h) && o < |h|
      modifies Repr()
      ensures Valid(h) && fresh(Repr() - old(Repr())) && done == old(done)
      ensures Progress() == Add(old(Progress()), MoveOf(h, Gc(o)))
    {
      hide Ids, Fits, Persists;
      if o == Heap.NULL {
        return;
      }
      var id := ids.Find(o);
      NumberedIds(ordered, |h|);
      if id != 0 {
        return;
      }
      var ok := true;
      if h[o].obj.Udata? {
        assert SaneAt(h, o);
        ok := MetatablePersists(h, h[o].obj.meta);
      }
      if !ok {
        error := true;
        return;
      }
      Number(h, o);
    }

    /** Give `o` the next id and put it on the work list. */
    method Number(h: seq<Cell>, o: Ref)
      requires Valid(h) && Sane(h) && 0 < o < |h| && o !in ordered && Serializable(h, h[o].obj)
      modifies Repr()
      ensures Valid(h) && fresh(Repr() - old(Repr())) && done == old(done)
      ensures ordered == old(ordered) + [o] && error == old(error)
    {
      hide Ids, Fits, Persists, Serializable, Accepted, Sane;
      SaneSize(h);
      AcceptedSnoc(h, ordered, o);
      NextId(ordered, |h|, o);
      assert (ordered + [o])[done..] == ordered[done..] + [o];
      ids.Insert(o, |ordered| + 1);
      queue.Push(o);
      ordered := ordered + [o];
    }

    method DiscoverTv(h: seq<Cell>, v: TValue)
      requires Valid(h) && Sane(h) && (v.Gc? ==> v.ref < |h|)
      modifies Repr()
      ensures Valid(h) && fresh(Repr() - old(Repr())) && done == old(done)
      ensures Progress() == Add(old(Progress()), MoveOf(h, v))
    {
      if v.Gc? {
        DiscoverObj(h, v.ref);
      } else if v.LightUd? {
        error := true;
      }
    }

    /** Discover the values of `vs` in turn. */
    method DiscoverTvs(h: seq<Cell>, vs: seq<TValue>)
      requires Valid(h) && Sane(h) && InRange(h, vs)
      modifies Repr()
      ensures Valid(h) && fresh(Repr() - old(Repr())) && done == old(done)
      ensures Progress() == AddAll(old(Progress()), Moves(h, vs))
    {
      hide Ids, Fits, Persists, Accepted, AddAll, SerState.Valid;
      AddNone(Progress());
      ghost var ms := Moves(h, vs);
      assert ms[..0] == [];
      for i := 0 to |vs|
        invariant Valid(h) && fresh(Repr() - old(Repr())) && done == old(done)
        invariant Progress() == AddAll(old(Progress()), ms[..i])
      {
        AddAllSnoc(old(Progress()), ms, i);
        assert vs[i] in vs;
        DiscoverTv(h, vs[i]);
      }
      assert ms[..|vs|] == ms;
    }

    /** The keys and values of the nodes whose key is present. */
    method DiscoverNodes(h: seq<Cell>, nodes: seq<Node>)
      requires Valid(h) && Sane(h) && InRange(h, NodeEdges(nodes))
      modifies Repr()
      ensures Valid(h) && fresh(Repr() - old(Repr())) && done == old(done)
      ensures Progress() == AddAll(old(Progress()), Moves(h, NodeEdges(nodes)))
    {
      hide Ids, Fits, Persists, Accepted, AddAll, SerState.Valid;
      AddNone(Progress());
      assert Moves(h, NodeEdges(nodes[..0])) == [];
      for i := 0 to |nodes|
        invariant Valid(h) && fresh(Repr() - old(Repr())) && done == old(done)
        invariant Progress() == AddAll(old(Progress()), Moves(h, NodeEdges(nodes[..i])))
      {
        NodeEdgesPrefix(h, nodes, i);
        if nodes[i].Node? && nodes[i].key.Live? {
          AddTwo(old(Progress()), h, NodeEdges(nodes[..i]), nodes[i].key.value, nodes[i].val);
          DiscoverTv(h, nodes[i].key.value);
          DiscoverTv(h, nodes[i].val);
        } else {
          assert NodeEdges(nodes[..i]) + [] == NodeEdges(nodes[..i]);
        }
      }
      assert nodes[..|nodes|] == nodes;
    }

    method ProcessTable(h: seq<Cell>, arr: seq<TValue>, nodes: seq<Node>, mt: Ref)
      requires Valid(h) && Sane(h) && InRange(h, Edges(Table(arr, nodes, mt)))
      modifies Repr()
      ensures Valid(h) && fresh(Repr() - old(Repr())) && done == old(done)
      ensures Progress() == AddAll(old(Progress()), Moves(h, Edges(Table(arr, nodes, mt))))
    {
      hide Ids, Fits, Persists, Accepted, AddAll, SerState.Valid;
      ThreeParts(old(Progress()), h, arr, NodeEdges(nodes), [Gc(mt)]);
      DiscoverTvs(h, arr);
      DiscoverNodes(h, nodes);
      DiscoverTvs(h, [Gc(mt)]);
    }

    method ProcessProto(h: seq<Cell>, p: ProtoData)
      requires Valid(h) && Sane(h) && InRange(h, Edges(Proto(p)))
      modifies Repr()
      ensures Valid(h) && fresh(Repr() - old(Repr())) && done == old(done)
      ensures Progress() == AddAll(old(Progress()), Moves(h, Edges(Proto(p))))
    {
      hide Ids, Fits, Persists, Accepted, AddAll, SerState.Valid;
      ThreeParts(old(Progress()), h, p.k, Refs(p.p), UpNames(p.upvalues));
      DiscoverTvs(h, p.k);
      DiscoverTvs(h, Refs(p.p));
      DiscoverTvs(h, UpNames(p.upvalues));
      ThreeParts(old(Progress()), h, p.k + Refs(p.p) + UpNames(p.upvalues), VarNames(p.locvars), [Gc(p.source)]);
      DiscoverTvs(h, VarNames(p.locvars));
      DiscoverTvs(h, [Gc(p.source)]);
    }

    /** Discover everything that `o` refers to. */
    method ProcessObj(h: seq<Cell>, o: Obj)
      requires Valid(h) && Sane(h) && InRange(h, Edges(o))
      modifies Repr()
      ensures Valid(h) && fresh(Repr() - old(Repr())) && done == old(done)
      ensures Progress() == AddAll(old(Progress()), Moves(h, Edges(o)))
    {
      hide Ids, Fits, Persists, Accepted, AddAll, SerState.Valid;
      match o {
        case Str(_, _) =>
          AddNone(Progress());
        case Table(arr, nodes, mt) =>
          ProcessTable(h, arr, nodes, mt);
        case Proto(p) =>
          ProcessProto(h, p);
        case LClosure(p, us) =>
          TwoParts(Progress(), h, [Gc(p)], Refs(us));
          DiscoverTvs(h, [Gc(p)]);
          DiscoverTvs(h, Refs(us));
        case CClosure(_, us) =>
          DiscoverTvs(h, us);
        case UpClosed(v) =>
          DiscoverTvs(h, [v]);
        case UpOpen(_, _) =>
          AddNone(Progress());
        case Thread(_, stack, _, open) =>
          TwoParts(Progress(), h, stack, Refs(open));
          DiscoverTvs(h, stack);
          DiscoverTvs(h, Refs(open));
        case Udata(uvs, _, mt) =>
          TwoParts(Progress(), h, uvs, [Gc(mt)]);
          DiscoverTvs(h, uvs);
          DiscoverTvs(h, [Gc(mt)]);
      }
    }

    /** Number everything that the roots lead to, breadth first. */
    method DiscoverAll(s: Heap.State)
      requires Valid(s.heap) && Sane(s.heap) && InRange(s.heap, RootEdges(s))
      requires ordered == [] && !error && done == 0
      modifies Repr()
      ensures Valid(s.heap) && fresh(Repr() - old(Repr()))
      ensures Progress() == Discover(GraphOf(s))
    {
      hide Ids, Persists, AddAll, Bfs, Fits, Accepted, SerState.Valid;
      TwoParts(Progress(), s.heap, [Gc(s.registry), Gc(s.main)], Refs(s.mt));
      assert RootEdges(s) == [Gc(s.registry), Gc(s.main)] + Refs(s.mt);
      DiscoverTvs(s.heap, [Gc(s.registry), Gc(s.main)]);
      DiscoverTvs(s.heap, Refs(s.mt));
      Drain(s);
    }

    method Drain(s: Heap.State)
      requires Valid(s.heap) && Sane(s.heap) && done == 0
      modifies Repr()
      ensures Valid(s.heap) && fresh(Repr() - old(Repr()))
      ensures Progress() == Bfs(GraphOf(s), old(Progress()), 0)
    {
      hide Ids, Persists, AddAll, Bfs, Fits, Accepted, SerState.Valid, GraphOf, Edges, Moves, InRange, SaneObj, Sane;
      SaneSize(s.heap);
      ghost var g := GraphOf(s);
      ghost var end := Bfs(g, Progress(), 0);
      var o := TakeNext(s.heap);
      while o != Heap.NULL
        invariant Valid(s.heap) && fresh(Repr() - old(Repr()))
        invariant o == Heap.NULL ==> done == |ordered| && Bfs(g, Progress(), done) == end
        invariant o < |s.heap|
        invariant o != Heap.NULL ==> 0 < done <= |ordered| && o == ordered[done - 1] && Bfs(g, Progress(), done - 1) == end
        decreases |s.heap| - done, o
      {
        Neighbours(s, o);
        BfsStep(g, Progress(), done - 1);
        ProcessObj(s.heap, s.heap[o].obj);
        o := TakeNext(s.heap);
      }
      BfsStep(g, Progress(), done);
    }

    /** Take the oldest object off the work list; NULL when all are done. */
    method TakeNext(h: seq<Cell>) returns (o: Ref)
      requires Valid(h)
      modifies Repr()
      ensures Valid(h) && fresh(Repr() - old(Repr())) && Progress() == old(Progress())
      ensures if old(done) == |ordered| then o == Heap.NULL && done == old(done)
              else done == old(done) + 1 && o == ordered[old(done)] && 0 < o < |h|
    {
      hide Ids, Fits;
      if done < |ordered| {
        FitsAt(ordered, |h|, done);
      }
      o := queue.Pop();
      if done < |ordered| {
        done := done + 1;
      }
    }
  }

  lemma SaneSize(h: seq<Cell>)
    requires Sane(h)
    ensures 0 < |h| < MAX_ENTRIES
  {
  }

  lemma Neighbours(s: State, o: Ref)
    requires Sane(s.heap) && 0 < o < |s.heap|
    ensures GraphOf(s).adj[o] == Moves(s.heap, Edges(s.heap[o].obj))
    ensures InRange(s.heap, Edges(s.heap[o].obj))
  {
    assert SaneAt(s.heap, o);
  }

  lemma BfsStep(g: Graph, f: Found, k: nat)
    requires Good(g) && Fits(f.order, |g.adj|) && k <= |f.order|
    ensures |f.order| <= |g.adj| && (k < |f.order| ==> 0 < f.order[k] < |g.adj|)
    ensures Bfs(g, f, k) == if k == |f.order| then f else Bfs(g, AddAll(f, g.adj[f.order[k]]), k + 1)
  {
    FitsIsShort(f.order, |g.adj|);
  }

  lemma TwoParts(f: Found, h: seq<Cell>, a: seq<TValue>, b: seq<TValue>)
    ensures AddAll(AddAll(f, Moves(h, a)), Moves(h, b)) == AddAll(f, Moves(h, a + b))
  {
    MovesAppend(h, a, b);
    AddAllAppend(f, Moves(h, a), Moves(h, b));
  }

  lemma ThreeParts(f: Found, h: seq<Cell>, a: seq<TValue>, b: seq<TValue>, c: seq<TValue>)
    ensures AddAll(AddAll(AddAll(f, Moves(h, a)), Moves(h, b)), Moves(h, c)) == AddAll(f, Moves(h, a + b + c))
  {
    TwoParts(f, h, a, b);
    TwoParts(f, h, a + b, c);
  }

  lemma NodeEdgesPrefix(h: seq<Cell>, nodes: seq<Node>, i: nat)
    requires i < |nodes| && InRange(h, NodeEdges(nodes))
    ensures NodeEdges(nodes[..i + 1]) == NodeEdges(nodes[..i]) + LiveEdges(nodes[i])
    ensures InRange(h, LiveEdges(nodes[i]))
  {
    assert nodes[..i + 1][..i] == nodes[..i];
    NodeEdgesGrow(nodes, i);
  }

  lemma {:induction false} NodeEdgesGrow(nodes: seq<Node>, i: nat)
    requires i < |nodes|
    ensures forall v :: v in LiveEdges(nodes[i]) ==> v in NodeEdges(nodes)
  {
    if i < |nodes| - 1 {
      NodeEdgesGrow(nodes[..|nodes| - 1], i);
    }
  }

  lemma AddNone(f: Found)
    ensures AddAll(f, []) == f
  {
  }

  lemma AddTwo(f: Found, h: seq<Cell>, vs: seq<TValue>, a: TValue, b: TValue)
    ensures AddAll(f, Moves(h, vs + [a, b])) == Add(Add(AddAll(f, Moves(h, vs)), MoveOf(h, a)), MoveOf(h, b))
  {
    var ms := Moves(h, vs + [a, b]);
    AddAllSnoc(f, ms, |vs|);
    AddAllSnoc(f, ms, |vs| + 1);
    assert ms[..|vs|] == Moves(h, vs);
    assert ms[..|vs| + 2] == ms;
  }

  /** Objects already numbered have a nonzero id; the others have none. */
  lemma {:induction false} NumberedIds(order: seq<Ref>, n: nat)
    requires Fits(order, n)
    ensures forall r :: r in Ids(order) ==> Ids(order)[r] != 0
  {
    if order != [] {
      NumberedIds(order[..|order| - 1], n);
    }
  }
}
