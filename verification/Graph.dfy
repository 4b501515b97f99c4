// Breadth-first numbering of a graph with ordered adjacency lists.
module Graph {

  type Vertex = nat

  /** What an edge asks of the traversal: nothing, to visit a vertex, or to give up. */
  datatype Move = Skip | To(v: Vertex) | Refuse

  /** Vertices are the indices of `adj`; vertex 0 stands for "no vertex". */
  datatype Graph = Graph(adj: seq<seq<Move>>, roots: seq<Move>)

  ghost predicate GoodMoves(ms: seq<Move>, n: nat) {
    forall m :: m in ms && m.To? ==> 0 < m.v < n
  }

  ghost predicate Good(g: Graph) {
    && GoodMoves(g.roots, |g.adj|)
    && forall i {:trigger g.adj[i]} :: 0 <= i < |g.adj| ==> GoodMoves(g.adj[i], |g.adj|)
  }

  /** The vertices numbered so far, and whether the traversal has to give up. */
  datatype Found = Found(order: seq<Vertex>, error: bool)

  ghost predicate Fits(order: seq<Vertex>, n: nat) {
    && (forall i :: 0 <= i < |order| ==> 0 < order[i] < n)
    && (forall i, j :: 0 <= i < j < |order| ==> order[i] != order[j])
  }

  function Add(f: Found, m: Move): Found {
    match m
    case Skip => f
    case Refuse => f.(error := true)
    case To(v) => if v in f.order then f else f.(order := f.order + [v])
  }

  ghost function AddAll(f: Found, ms: seq<Move>): (g: Found)
    ensures f.order <= g.order
    ensures forall n: nat :: Fits(f.order, n) && GoodMoves(ms, n) ==> Fits(g.order, n)
  {
    if ms == [] then f else Add(AddAll(f, ms[..|ms| - 1]), ms[|ms| - 1])
  }

  lemma AddAllSnoc(f: Found, ms: seq<Move>, i: nat)
    requires i < |ms|
    ensures AddAll(f, ms[..i + 1]) == Add(AddAll(f, ms[..i]), ms[i])
  {
    assert ms[..i + 1][..i] == ms[..i];
  }

  lemma {:induction false} AddAllAppend(f: Found, a: seq<Move>, b: seq<Move>)
    ensures AddAll(f, a + b) == AddAll(AddAll(f, a), b)
  {
    if b == [] {
      assert a + b == a;
    } else {
      var n := |b| - 1;
      AddAllAppend(f, a, b[..n]);
      assert (a + b)[..|a| + n] == a + b[..n];
    }
  }

  // ------------------------------------------------------------- pigeonhole

  ghost function Below(n: nat): (s: set<Vertex>)
    ensures forall v :: v in s <==> 0 < v < n
    ensures |s| == if n == 0 then 0 else n - 1
  {
    if n <= 1 then {} else Below(n - 1) + {n - 1}
  }

  lemma {:induction false} InjectInto(order: seq<Vertex>, all: set<Vertex>)
    requires forall i :: 0 <= i < |order| ==> order[i] in all
    requires forall i, j :: 0 <= i < j < |order| ==> order[i] != order[j]
    ensures |order| <= |all|
  {
    if order != [] {
      var k := |order| - 1;
      InjectInto(order[..k], all - {order[k]});
    }
  }

  lemma FitsIsShort(order: seq<Vertex>, n: nat)
    requires Fits(order, n)
    ensures |order| <= n && (n > 0 ==> |order| < n)
  {
    InjectInto(order, Below(n));
  }

  /** Take the vertices from the `k`th on in turn, adding what each leads to. */
  ghost function Bfs(g: Graph, f: Found, k: nat): (r: Found)
    requires Good(g) && Fits(f.order, |g.adj|) && k <= |f.order|
    ensures Fits(r.order, |g.adj|) && f.order <= r.order
    decreases |g.adj| - k
  {
    FitsIsShort(f.order, |g.adj|);
    if k == |f.order| then f
    else Bfs(g, AddAll(f, g.adj[f.order[k]]), k + 1)
  }

  ghost function Discover(g: Graph): (r: Found)
    requires Good(g)
    ensures Fits(r.order, |g.adj|)
  {
    Bfs(g, AddAll(Found([], false), g.roots), 0)
  }

  // --------------------------------------------------- numbering is exact closure

  /** A chain of edges from the roots. */
  ghost predicate Chain(g: Graph, p: seq<Vertex>) {
    && |p| > 0
    && To(p[0]) in g.roots
    && (forall i :: 0 <= i < |p| ==> p[i] < |g.adj|)
    && (forall i {:trigger p[i]} :: 0 < i < |p| ==> To(p[i]) in g.adj[p[i - 1]])
  }

  ghost predicate ChainTo(g: Graph, p: seq<Vertex>, v: Vertex) {
    Chain(g, p) && p[|p| - 1] == v
  }

  ghost predicate Reachable(g: Graph, v: Vertex) {
    exists p :: ChainTo(g, p, v)
  }

  ghost predicate OutOf(g: Graph, u: Vertex, m: Move) {
    Reachable(g, u) && u < |g.adj| && m in g.adj[u]
  }

  /** The edges met on the way: those of the roots and of reachable vertices. */
  ghost predicate Met(g: Graph, m: Move) {
    m in g.roots || exists u :: OutOf(g, u, m)
  }

  /** Every edge of `ms` has been dealt with. */
  ghost predicate Absorbed(f: Found, ms: seq<Move>) {
    forall m :: m in ms ==> (m.To? ==> m.v in f.order) && (m.Refuse? ==> f.error)
  }

  lemma {:induction false} AddAllAbsorbs(f: Found, ms: seq<Move>)
    ensures Absorbed(AddAll(f, ms), ms) && (f.error ==> AddAll(f, ms).error)
  {
    if ms != [] {
      AddAllAbsorbs(f, ms[..|ms| - 1]);
      assert ms == ms[..|ms| - 1] + [ms[|ms| - 1]];
    }
  }

  ghost predicate Justified(g: Graph, f: Found) {
    && (forall v :: v in f.order ==> Reachable(g, v))
    && (f.error ==> Met(g, Refuse))
  }

  lemma {:induction false} AddAllJustified(g: Graph, f: Found, ms: seq<Move>)
    requires Justified(g, f) && GoodMoves(ms, |g.adj|)
    requires forall m :: m in ms ==> Met(g, m)
    ensures Justified(g, AddAll(f, ms))
  {
    if ms != [] {
      var m := ms[|ms| - 1];
      AddAllJustified(g, f, ms[..|ms| - 1]);
      assert Met(g, m);
      if m.To? {
        MetIsReachable(g, m.v);
      }
    }
  }

  lemma MetIsReachable(g: Graph, v: Vertex)
    requires Met(g, To(v)) && v < |g.adj|
    ensures Reachable(g, v)
  {
    if To(v) in g.roots {
      assert ChainTo(g, [v], v);
    } else {
      var u :| OutOf(g, u, To(v));
      var p :| ChainTo(g, p, u);
      var q := p + [v];
      forall i | 0 < i < |q|
        ensures To(q[i]) in g.adj[q[i - 1]]
      {
        assert i < |p| ==> q[i] == p[i];
      }
      assert ChainTo(g, q, v);
    }
  }

  /** The first `k` vertices have had their edges added. */
  ghost predicate Scanned(g: Graph, f: Found, k: nat)
    requires Fits(f.order, |g.adj|)
  {
    && k <= |f.order|
    && Absorbed(f, g.roots)
    && forall i {:trigger f.order[i]} :: 0 <= i < k ==> Absorbed(f, g.adj[f.order[i]])
  }

  lemma ScanOne(g: Graph, f: Found, k: nat)
    requires Good(g) && Fits(f.order, |g.adj|) && k < |f.order|
    requires Scanned(g, f, k) && Justified(g, f)
    ensures var r := AddAll(f, g.adj[f.order[k]]);
            Fits(r.order, |g.adj|) && Scanned(g, r, k + 1) && Justified(g, r)
  {
    var u := f.order[k];
    var ms := g.adj[u];
    var r := AddAll(f, ms);
    AddAllAbsorbs(f, ms);
    forall m | m in ms
      ensures Met(g, m)
    {
      assert OutOf(g, u, m);
    }
    AddAllJustified(g, f, ms);
    forall i | 0 <= i < k + 1
      ensures Absorbed(r, g.adj[r.order[i]])
    {
      assert r.order[i] == f.order[i];
    }
  }

  lemma {:induction false} BfsScans(g: Graph, f: Found, k: nat)
    requires Good(g) && Fits(f.order, |g.adj|)
    requires Scanned(g, f, k) && Justified(g, f)
    ensures var r := Bfs(g, f, k);
            Scanned(g, r, |r.order|) && Justified(g, r)
    decreases |g.adj| - k
  {
    FitsIsShort(f.order, |g.adj|);
    if k < |f.order| {
      ScanOne(g, f, k);
      BfsScans(g, AddAll(f, g.adj[f.order[k]]), k + 1);
    }
  }

  lemma DiscoverScans(g: Graph)
    requires Good(g)
    ensures var r := Discover(g);
            Scanned(g, r, |r.order|) && Justified(g, r)
  {
    var f := Found([], false);
    AddAllAbsorbs(f, g.roots);
    AddAllJustified(g, f, g.roots);
    BfsScans(g, AddAll(f, g.roots), 0);
  }

  lemma {:induction false} ChainIsFound(g: Graph, p: seq<Vertex>)
    requires Good(g) && Chain(g, p)
    ensures p[|p| - 1] in Discover(g).order
  {
    DiscoverScans(g);
    var r := Discover(g);
    var n := |p| - 1;
    if n == 0 {
      assert To(p[0]) in g.roots;
    } else {
      assert Chain(g, p[..n]);
      ChainIsFound(g, p[..n]);
      var i :| 0 <= i < |r.order| && r.order[i] == p[n - 1];
      assert To(p[n]) in g.adj[r.order[i]];
    }
  }

  /** The numbering covers exactly the reachable vertices, each once, and gives up
      exactly when a refusing edge is met. */
  lemma DiscoveryIsExactClosure(g: Graph)
    requires Good(g)
    ensures var r := Discover(g);
            && (forall v :: v in r.order <==> Reachable(g, v))
            && (forall i, j :: 0 <= i < j < |r.order| ==> r.order[i] != r.order[j])
            && (r.error <==> Met(g, Refuse))
  {
    var r := Discover(g);
    DiscoverScans(g);
    forall v | Reachable(g, v)
      ensures v in r.order
    {
      var p :| ChainTo(g, p, v);
      ChainIsFound(g, p);
    }
    if Met(g, Refuse) && Refuse !in g.roots {
      var u :| OutOf(g, u, Refuse);
      var p :| ChainTo(g, p, u);
      ChainIsFound(g, p);
      var i :| 0 <= i < |r.order| && r.order[i] == u;
      assert Refuse in g.adj[r.order[i]];
    }
  }

  // ------------------------------------ numbering depends on the shape alone

  function Name(m: map<Vertex, Vertex>, v: Vertex): Vertex {
    if v in m then m[v] else 0
  }

  function Rename(e: Move, m: map<Vertex, Vertex>): Move {
    if e.To? then To(Name(m, e.v)) else e
  }

  ghost predicate Renamed(a: seq<Move>, b: seq<Move>, m: map<Vertex, Vertex>) {
    && |a| == |b|
    && forall i :: 0 <= i < |a| ==> b[i] == Rename(a[i], m) && (a[i].To? ==> a[i].v in m)
  }

  ghost predicate Injective(m: map<Vertex, Vertex>) {
    forall u, v :: u in m && v in m && m[u] == m[v] ==> u == v
  }

  /** `m` carries every part of `g` that a traversal can see onto `h`. */
  ghost predicate SameShape(g: Graph, h: Graph, m: map<Vertex, Vertex>) {
    && Injective(m)
    && Renamed(g.roots, h.roots, m)
    && forall u {:trigger m[u]} :: u in m ==> u < |g.adj| && m[u] < |h.adj| && Renamed(g.adj[u], h.adj[m[u]], m)
  }

  ghost predicate RenamedOrder(a: seq<Vertex>, b: seq<Vertex>, m: map<Vertex, Vertex>) {
    && |a| == |b|
    && forall i :: 0 <= i < |a| ==> a[i] in m && b[i] == m[a[i]]
  }

  lemma {:induction false} AddAllRenamed(f: Found, f': Found, a: seq<Move>, b: seq<Move>, m: map<Vertex, Vertex>)
    requires Injective(m) && Renamed(a, b, m)
    requires RenamedOrder(f.order, f'.order, m) && f.error == f'.error
    ensures RenamedOrder(AddAll(f, a).order, AddAll(f', b).order, m)
    ensures AddAll(f, a).error == AddAll(f', b).error
  {
    if a != [] {
      var n := |a| - 1;
      AddAllRenamed(f, f', a[..n], b[..n], m);
      assert b[n] == Rename(a[n], m);
    }
  }

  lemma {:induction false} BfsRenamed(g: Graph, h: Graph, f: Found, f': Found, k: nat, m: map<Vertex, Vertex>)
    requires Good(g) && Good(h) && SameShape(g, h, m)
    requires Fits(f.order, |g.adj|) && Fits(f'.order, |h.adj|) && k <= |f.order|
    requires RenamedOrder(f.order, f'.order, m) && f.error == f'.error
    ensures RenamedOrder(Bfs(g, f, k).order, Bfs(h, f', k).order, m)
    ensures Bfs(g, f, k).error == Bfs(h, f', k).error
    decreases |g.adj| - k
  {
    FitsIsShort(f.order, |g.adj|);
    FitsIsShort(f'.order, |h.adj|);
    if k < |f.order| {
      var u := f.order[k];
      assert f'.order[k] == m[u];
      AddAllRenamed(f, f', g.adj[u], h.adj[m[u]], m);
      BfsRenamed(g, h, AddAll(f, g.adj[u]), AddAll(f', h.adj[m[u]]), k + 1, m);
    }
  }

  /** Graphs of the same shape are numbered alike. */
  lemma DiscoverRenamed(g: Graph, h: Graph, m: map<Vertex, Vertex>)
    requires Good(g) && Good(h) && SameShape(g, h, m)
    ensures RenamedOrder(Discover(g).order, Discover(h).order, m)
    ensures Discover(g).error == Discover(h).error
  {
    var f := Found([], false);
    AddAllRenamed(f, f, g.roots, h.roots, m);
    BfsRenamed(g, h, AddAll(f, g.roots), AddAll(f, h.roots), 0, m);
  }
}
