// What a snapshot cannot keep: open upvalues whose thread is not part of it.
module Severance {
  import opened Heap
  import opened Graph
  import opened Discovery
  import opened Snapshot
  import opened WellFormed

  /** Every open upvalue of the snapshot belongs to a thread of the snapshot. */
  ghost predicate UpvaluesOwned(s: State) {
    forall r :: r in Order(s) && s.heap[r].obj.UpOpen? ==> s.heap[r].obj.thread in Order(s)
  }

  /** The frame every thread has: that of the C code that runs it. */
  function BaseFrame(): Frame {
    Frame(0, 0, CIST_C, 0, CArm(0, 0, 0))
  }

  /** An open upvalue whose thread is lost becomes a closed one that holds nil. */
  function Sever(o: Obj, kept: bool, order: seq<Ref>): Obj {
    match o
    case UpOpen(t, _) => if t in order then o else UpClosed(TValue.Nil)
    case Thread(_, _, _, _) => if kept then o else Thread(0, [], [BaseFrame()], [])
    case _ => o
  }

  ghost function SeveredCells(h: seq<Cell>, order: seq<Ref>): (g: seq<Cell>)
    ensures |g| == |h|
    ensures forall r :: 0 <= r < |h| ==> g[r] == Cell(h[r].objid, Sever(h[r].obj, r in order, order))
  {
    seq(|h|, r requires 0 <= r < |h| => Cell(h[r].objid, Sever(h[r].obj, r in order, order)))
  }

  /** The state without the threads that a snapshot does not reach. */
  ghost function Severed(s: State): State {
    s.(heap := SeveredCells(s.heap, Order(s)))
  }

  lemma SeverKinds(o: Obj, kept: bool, order: seq<Ref>)
    ensures var p := Sever(o, kept, order);
            && (IsTable(p) <==> IsTable(o)) && (IsProto(p) <==> IsProto(o)) && (IsStr(p) <==> IsStr(o)) && (IsUpval(p) <==> IsUpval(o))
            && (p.LClosure? <==> o.LClosure?) && (p.Thread? <==> o.Thread?) && (p.Udata? <==> o.Udata?) && TagOf(p) == TagOf(o)
    ensures !o.UpOpen? && !o.Thread? ==> Sever(o, kept, order) == o
  {
  }

  lemma PointersStay(h: seq<Cell>, order: seq<Ref>)
    ensures var g := SeveredCells(h, order);
            && (forall r {:trigger PointsTo(h, r, IsTable)} :: PointsTo(h, r, IsTable) ==> PointsTo(g, r, IsTable))
            && (forall r {:trigger PointsTo(h, r, IsProto)} :: PointsTo(h, r, IsProto) ==> PointsTo(g, r, IsProto))
            && (forall r {:trigger PointsTo(h, r, IsStr)} :: PointsTo(h, r, IsStr) ==> PointsTo(g, r, IsStr))
            && (forall r {:trigger PointsTo(h, r, IsUpval)} :: PointsTo(h, r, IsUpval) ==> PointsTo(g, r, IsUpval))
  {
  }

  lemma PointerListStays(h: seq<Cell>, order: seq<Ref>, rs: seq<Ref>)
    ensures AllPointTo(h, rs, IsTable) ==> AllPointTo(SeveredCells(h, order), rs, IsTable)
    ensures AllPointTo(h, rs, IsProto) ==> AllPointTo(SeveredCells(h, order), rs, IsProto)
    ensures AllPointTo(h, rs, IsUpval) ==> AllPointTo(SeveredCells(h, order), rs, IsUpval)
  {
    PointersStay(h, order);
    hide SeveredCells, PointsTo;
  }

  lemma ProtoStays(h: seq<Cell>, order: seq<Ref>, p: ProtoData)
    requires GoodProto(h, p)
    ensures GoodProto(SeveredCells(h, order), p)
  {
    PointersStay(h, order);
    PointerListStays(h, order, p.p);
    hide SeveredCells, PointsTo, Values;
    forall i | 0 <= i < |p.upvalues|
      ensures PointsTo(SeveredCells(h, order), p.upvalues[i].name, IsStr)
    {
      assert PointsTo(h, p.upvalues[i].name, IsStr);
    }
    forall i | 0 <= i < |p.locvars|
      ensures PointsTo(SeveredCells(h, order), p.locvars[i].name, IsStr)
    {
      assert PointsTo(h, p.locvars[i].name, IsStr);
    }
  }

  lemma ThreadStays(h: seq<Cell>, order: seq<Ref>, r: Ref)
    requires 0 < r < |h| && h[r].obj.Thread? && GoodAt(h, r)
    ensures GoodAt(SeveredCells(h, order), r)
  {
    var g := SeveredCells(h, order);
    var o := h[r].obj;
    if r in order {
      forall i | 0 <= i < |o.frames|
        ensures GoodFrame(g, o.stack, o.frames[i])
      {
        assert GoodFrame(h, o.stack, o.frames[i]);
      }
      OpensStay(h, order, r, o.open);
    } else {
      assert Values([]) && GoodOpens(g, r, []);
    }
  }

  lemma OpensStay(h: seq<Cell>, order: seq<Ref>, self: Ref, open: seq<Ref>)
    requires GoodOpens(h, self, open) && self in order
    ensures GoodOpens(SeveredCells(h, order), self, open)
  {
  }

  /** A well-formed object is well-formed in the severed heap. */
  lemma GoodStays(h: seq<Cell>, order: seq<Ref>, r: Ref)
    requires 0 < r < |h| && GoodAt(h, r)
    ensures GoodAt(SeveredCells(h, order), r)
  {
    var g := SeveredCells(h, order);
    SeverKinds(h[r].obj, r in order, order);
    match h[r].obj
    case Thread(_, _, _, _) => ThreadStays(h, order, r);
    case UpOpen(t, _) => assert Values([TValue.Nil]);
    case Proto(p) => ProtoStays(h, order, p);
    case LClosure(p, us) =>
      PointersStay(h, order);
      PointerListStays(h, order, us);
      assert PointsTo(h, p, IsProto);
    case Table(_, _, mt) =>
      PointersStay(h, order);
      assert PointsTo(h, mt, IsTable);
    case Udata(_, _, mt) =>
      PointersStay(h, order);
      assert PointsTo(h, mt, IsTable);
    case _ =>
  }

  lemma SaneStays(h: seq<Cell>, order: seq<Ref>, r: Ref)
    requires 0 < r < |h| && SaneAt(h, r)
    ensures SaneAt(SeveredCells(h, order), r)
  {
    hide NodeEdges;
  }

  lemma SeveredIsGood(s: State)
    requires GoodState(s)
    ensures GoodState(Severed(s))
  {
    var g := Severed(s).heap;
    PointerListStays(s.heap, Order(s), s.mt);
    hide SeveredCells, GoodAt, SaneAt, Order, AllPointTo;
    assert RootEdges(Severed(s)) == RootEdges(s);
    forall r | 0 < r < |g|
      ensures GoodAt(g, r) && SaneAt(g, r)
    {
      GoodStays(s.heap, Order(s), r);
      SaneStays(s.heap, Order(s), r);
    }
    SeverKinds(s.heap[s.registry].obj, s.registry in Order(s), Order(s));
    SeverKinds(s.heap[s.main].obj, s.main in Order(s), Order(s));
  }

  // -------------------------------------------------------- the same numbering

  lemma {:induction false} PersistStays(h: seq<Cell>, order: seq<Ref>, nodes: seq<Node>, i: nat)
    requires i <= |nodes|
    ensures PersistFrom(SeveredCells(h, order), nodes, i) == PersistFrom(h, nodes, i)
    decreases |nodes| - i
  {
    if i < |nodes| {
      PersistStays(h, order, nodes, i + 1);
      if nodes[i].Node? && nodes[i].key.Live? && nodes[i].key.value.Gc? && nodes[i].key.value.ref < |h| {
        var r := nodes[i].key.value.ref;
        SeverKinds(h[r].obj, r in order, order);
      }
    }
  }

  lemma PersistsStays(h: seq<Cell>, order: seq<Ref>, mt: Ref)
    ensures Persists(SeveredCells(h, order), mt) == Persists(h, mt)
  {
    if mt < |h| {
      SeverKinds(h[mt].obj, mt in order, order);
      if h[mt].obj.Table? {
        PersistStays(h, order, h[mt].obj.nodes, 0);
      }
    }
  }

  lemma MoveStays(h: seq<Cell>, order: seq<Ref>, v: TValue)
    ensures MoveOf(SeveredCells(h, order), v) == MoveOf(h, v)
  {
    if v.Gc? && v.ref < |h| && h[v.ref].obj.Udata? {
      PersistsStays(h, order, h[v.ref].obj.meta);
    }
    hide Persists;
  }

  lemma MovesStay(h: seq<Cell>, order: seq<Ref>, vs: seq<TValue>)
    ensures Moves(SeveredCells(h, order), vs) == Moves(h, vs)
  {
    hide SeveredCells, MoveOf;
    forall i | 0 <= i < |vs|
      ensures MoveOf(SeveredCells(h, order), vs[i]) == MoveOf(h, vs[i])
    {
      MoveStays(h, order, vs[i]);
    }
  }

  /** Adjacency lists that lead to the same vertices in the same order. */
  predicate SameLead(a: seq<Move>, b: seq<Move>) {
    a == b || (a == [] && b == [Skip])
  }

  lemma SameAdd(f: Found, a: seq<Move>, b: seq<Move>)
    requires SameLead(a, b)
    ensures AddAll(f, a) == AddAll(f, b)
  {
    if a == [] && b == [Skip] {
      assert AddAll(f, b) == Add(AddAll(f, []), Skip);
    }
  }

  lemma {:induction false} BfsAgree(g: Graph, g': Graph, f: Found, k: nat)
    requires Good(g) && Good(g') && |g.adj| == |g'.adj| && Fits(f.order, |g.adj|) && k <= |f.order|
    requires forall u :: u in Bfs(g, f, k).order && u < |g.adj| ==> SameLead(g.adj[u], g'.adj[u])
    ensures Bfs(g', f, k) == Bfs(g, f, k)
    decreases |g.adj| - k
  {
    hide Fits, AddAll;
    BfsStep(g, f, k);
    BfsStep(g', f, k);
    if k < |f.order| {
      var u := f.order[k];
      assert Bfs(g, f, k).order[k] == u;
      SameAdd(f, g.adj[u], g'.adj[u]);
      BfsAgree(g, g', AddAll(f, g.adj[u]), k + 1);
    }
  }

  lemma SeverEdges(o: Obj, order: seq<Ref>)
    ensures Edges(Sever(o, true, order)) == Edges(o) || (Edges(o) == [] && Edges(Sever(o, true, order)) == [TValue.Nil])
  {
    hide NodeEdges;
  }

  lemma AdjOf(s: State, u: Ref)
    requires u < |s.heap|
    ensures GraphOf(s).adj[u] == Moves(s.heap, Edges(s.heap[u].obj))
  {
    hide Edges, MoveOf;
  }

  lemma LeadStays(s: State, u: Ref)
    requires u in Order(s) && u < |s.heap|
    ensures SameLead(GraphOf(s).adj[u], GraphOf(Severed(s)).adj[u])
  {
    hide Order, MoveOf, Edges, Sever, GraphOf, SeveredCells;
    var h := s.heap;
    AdjOf(s, u);
    AdjOf(Severed(s), u);
    assert Severed(s).heap[u].obj == Sever(h[u].obj, true, Order(s));
    SeverEdges(h[u].obj, Order(s));
    MovesStay(h, Order(s), Edges(Severed(s).heap[u].obj));
    NilIsSkipped(h);
  }

  lemma NilIsSkipped(h: seq<Cell>)
    ensures MoveOf(h, TValue.Nil) == Skip
  {
  }

  /** Severing changes neither which objects are reached nor their ids. */
  lemma SeveredOrder(s: State)
    ensures Discover(GraphOf(Severed(s))) == Discover(GraphOf(s)) && Order(Severed(s)) == Order(s)
  {
    var g, g' := GraphOf(s), GraphOf(Severed(s));
    MovesStay(s.heap, Order(s), RootEdges(s));
    assert Order(s) == Discover(g).order;
    hide Bfs, SeveredCells, Edges, MoveOf;
    forall u | u in Discover(g).order && u < |g.adj|
      ensures SameLead(g.adj[u], g'.adj[u])
    {
      LeadStays(s, u);
    }
    BfsAgree(g, g', AddAll(Found([], false), g.roots), 0);
  }

  /** If no upvalue is lost, severing changes nothing that is reached. */
  lemma OwnedStays(s: State, r: Ref)
    requires UpvaluesOwned(s) && r in Order(s) && r < |s.heap|
    ensures Severed(s).heap[r] == s.heap[r]
  {
    hide Order;
  }
}
