// Which states a save refuses, told from what their objects refer to.
module SaveVerdict {
  import opened Heap
  import opened Graph
  import opened Discovery
  import opened Snapshot
  import opened WellFormed

  // ---------------------------------------------------- references and chains

  ghost predicate Holds(n: Node, v: TValue) {
    n.Node? && n.key.Live? && (n.key.value == v || n.val == v)
  }

  /** The object refers to the value `v`; removed keys and open upvalues refer to nothing. */
  ghost predicate Mentions(o: Obj, v: TValue) {
    match o
    case Str(_, _) => false
    case Table(arr, nodes, mt) => v in arr || v == Gc(mt) || exists i :: 0 <= i < |nodes| && Holds(nodes[i], v)
    case Proto(p) =>
      || v in p.k || v == Gc(p.source) || (exists i :: 0 <= i < |p.p| && v == Gc(p.p[i]))
      || (exists i :: 0 <= i < |p.upvalues| && v == Gc(p.upvalues[i].name))
      || (exists i :: 0 <= i < |p.locvars| && v == Gc(p.locvars[i].name))
    case LClosure(p, us) => v == Gc(p) || exists i :: 0 <= i < |us| && v == Gc(us[i])
    case CClosure(_, us) => v in us
    case UpClosed(x) => v == x
    case UpOpen(_, _) => false
    case Thread(_, stack, _, open) => v in stack || exists i :: 0 <= i < |open| && v == Gc(open[i])
    case Udata(uvs, _, mt) => v in uvs || v == Gc(mt)
  }

  ghost predicate IsRoot(s: State, r: Ref) {
    r == s.registry || r == s.main || r in s.mt
  }

  /** A chain of references from a root. */
  ghost predicate Leads(s: State, p: seq<Ref>) {
    && |p| > 0 && IsRoot(s, p[0])
    && (forall i :: 0 <= i < |p| ==> 0 < p[i] < |s.heap|)
    && forall i {:trigger p[i]} :: 0 < i < |p| ==> Mentions(s.heap[p[i - 1]].obj, Gc(p[i]))
  }

  ghost predicate LeadsTo(s: State, p: seq<Ref>, r: Ref) {
    Leads(s, p) && p[|p| - 1] == r
  }

  /** The roots lead to the object. */
  ghost predicate Reached(s: State, r: Ref) {
    exists p :: LeadsTo(s, p, r)
  }

  // ------------------------------------------------------- what cannot be saved

  /** A value that has no form in a snapshot: a light userdata, or a C function without a name. */
  ghost predicate Unspeakable(env: Env, v: TValue) {
    v.LightUd? || (v.LightC? && v.fn !in env.cname)
  }

  ghost predicate SomeUnspeakable(env: Env, o: Obj) {
    exists v :: Mentions(o, v) && Unspeakable(env, v)
  }

  ghost predicate NamelessFrame(env: Env, f: Frame) {
    f.arm.CArm? && f.arm.kont != 0 && f.arm.kont !in env.kname
  }

  /** The object cannot be saved: a userdata that is not opted in, has user values or is too
      long, a C function or a continuation without a name, or a value that has no form. */
  ghost predicate Refused(s: State, env: Env, r: Ref)
    requires r < |s.heap|
  {
    var o := s.heap[r].obj;
    || SomeUnspeakable(env, o)
    || (o.Udata? && (!OptsIn(s.heap, o.meta) || o.uvs != [] || |o.payload| >= 0x1_0000_0000))
    || (o.CClosure? && o.fn !in env.cname)
    || (o.Thread? && exists i :: 0 <= i < |o.frames| && NamelessFrame(env, o.frames[i]))
  }

  ghost predicate ReachedRefused(s: State, env: Env, r: Ref) {
    Reached(s, r) && r < |s.heap| && Refused(s, env, r)
  }

  // --------------------------------------------------- edges are what is mentioned

  lemma {:induction false} NodeEdgesHold(nodes: seq<Node>, v: TValue)
    ensures v in NodeEdges(nodes) <==> exists i :: 0 <= i < |nodes| && Holds(nodes[i], v)
  {
    if nodes != [] {
      var k := |nodes| - 1;
      NodeEdgesHold(nodes[..k], v);
      assert v in LiveEdges(nodes[k]) <==> Holds(nodes[k], v);
      if i :| 0 <= i < |nodes| && Holds(nodes[i], v) {
        assert i < k ==> nodes[..k][i] == nodes[i];
      }
    }
  }

  lemma RefsHave(rs: seq<Ref>, v: TValue)
    ensures v in Refs(rs) <==> exists i :: 0 <= i < |rs| && v == Gc(rs[i])
  {
    if i :| 0 <= i < |rs| && v == Gc(rs[i]) {
      assert Refs(rs)[i] == v;
    }
  }

  lemma UpNamesHave(us: seq<UpvalDesc>, v: TValue)
    ensures v in UpNames(us) <==> exists i :: 0 <= i < |us| && v == Gc(us[i].name)
  {
    if i :| 0 <= i < |us| && v == Gc(us[i].name) {
      assert UpNames(us)[i] == v;
    }
  }

  lemma VarNamesHave(ls: seq<LocVar>, v: TValue)
    ensures v in VarNames(ls) <==> exists i :: 0 <= i < |ls| && v == Gc(ls[i].name)
  {
    if i :| 0 <= i < |ls| && v == Gc(ls[i].name) {
      assert VarNames(ls)[i] == v;
    }
  }

  lemma EdgesMention(o: Obj, v: TValue)
    ensures v in Edges(o) <==> Mentions(o, v)
  {
    hide NodeEdges, Refs, UpNames, VarNames;
    match o
    case Table(_, nodes, _) => NodeEdgesHold(nodes, v);
    case Proto(p) =>
      RefsHave(p.p, v);
      UpNamesHave(p.upvalues, v);
      VarNamesHave(p.locvars, v);
    case LClosure(_, us) => RefsHave(us, v);
    case Thread(_, _, _, open) => RefsHave(open, v);
    case _ =>
  }

  lemma RootEdgesAre(s: State, r: Ref)
    ensures Gc(r) in RootEdges(s) <==> IsRoot(s, r)
    ensures forall v :: v in RootEdges(s) ==> v.Gc?
  {
    RefsHave(s.mt, Gc(r));
  }

  // ----------------------------------------------------- chains and the traversal

  lemma MoveIs(h: seq<Cell>, vs: seq<TValue>, m: Move)
    requires m in Moves(h, vs)
    ensures exists v :: v in vs && MoveOf(h, v) == m
  {
    hide MoveOf;
    var i :| 0 <= i < |vs| && Moves(h, vs)[i] == m;
    assert vs[i] in vs;
  }

  lemma MoveIn(h: seq<Cell>, vs: seq<TValue>, v: TValue)
    requires v in vs
    ensures MoveOf(h, v) in Moves(h, vs)
  {
    hide MoveOf;
    var i :| 0 <= i < |vs| && vs[i] == v;
    assert Moves(h, vs)[i] == MoveOf(h, v);
  }

  lemma GraphParts(s: State)
    ensures |GraphOf(s).adj| == |s.heap| && GraphOf(s).roots == Moves(s.heap, RootEdges(s))
    ensures forall u {:trigger GraphOf(s).adj[u]} :: 0 <= u < |s.heap| ==> GraphOf(s).adj[u] == Moves(s.heap, Edges(s.heap[u].obj))
  {
    hide Edges, MoveOf;
  }

  lemma MoveTo(h: seq<Cell>, v: TValue, r: Ref)
    requires MoveOf(h, v) == To(r)
    ensures v == Gc(r) && 0 < r < |h|
  {
  }

  lemma RootIs(s: State, r: Ref)
    requires To(r) in GraphOf(s).roots
    ensures IsRoot(s, r) && 0 < r < |s.heap|
  {
    hide GraphOf, MoveOf, Edges, IsRoot;
    GraphParts(s);
    MoveIs(s.heap, RootEdges(s), To(r));
    var v :| v in RootEdges(s) && MoveOf(s.heap, v) == To(r);
    MoveTo(s.heap, v, r);
    RootEdgesAre(s, r);
  }

  lemma StepIs(s: State, u: Ref, r: Ref)
    requires u < |s.heap| && To(r) in GraphOf(s).adj[u]
    ensures Mentions(s.heap[u].obj, Gc(r)) && 0 < r < |s.heap|
  {
    hide GraphOf, MoveOf, Edges, Mentions;
    GraphParts(s);
    MoveIs(s.heap, Edges(s.heap[u].obj), To(r));
    var v :| v in Edges(s.heap[u].obj) && MoveOf(s.heap, v) == To(r);
    MoveTo(s.heap, v, r);
    EdgesMention(s.heap[u].obj, v);
  }

  lemma LeadsMore(s: State, p: seq<Ref>, r: Ref)
    requires Leads(s, p) && Mentions(s.heap[p[|p| - 1]].obj, Gc(r)) && 0 < r < |s.heap|
    ensures Leads(s, p + [r])
  {
    hide Mentions, IsRoot;
    var q := p + [r];
    forall i {:trigger q[i]} | 0 < i < |q|
      ensures Mentions(s.heap[q[i - 1]].obj, Gc(q[i]))
    {
      assert i < |p| ==> q[i] == p[i] && q[i - 1] == p[i - 1];
    }
  }

  lemma ChainParts(g: Graph, p: seq<Vertex>)
    requires Chain(g, p)
    ensures |p| > 0 && p[|p| - 1] < |g.adj|
    ensures if |p| == 1 then To(p[0]) in g.roots
            else Chain(g, p[..|p| - 1]) && p[|p| - 2] < |g.adj| && To(p[|p| - 1]) in g.adj[p[|p| - 2]]
  {
  }

  /** A chain of the traversal is a chain of references. */
  lemma {:induction false} ChainLeads(s: State, p: seq<Vertex>)
    requires Chain(GraphOf(s), p)
    ensures Leads(s, p)
    decreases |p|
  {
    GraphParts(s);
    hide GraphOf, Edges, Mentions, IsRoot, Chain;
    ChainParts(GraphOf(s), p);
    if |p| == 1 {
      RootIs(s, p[0]);
    } else {
      var q, r := p[..|p| - 1], p[|p| - 1];
      ChainLeads(s, q);
      StepIs(s, p[|p| - 2], r);
      LeadsMore(s, q, r);
      assert q + [r] == p;
    }
  }

  lemma VertexIsReached(s: State, r: Ref)
    requires Reachable(GraphOf(s), r)
    ensures Reached(s, r)
  {
    hide GraphOf, Leads;
    var p :| ChainTo(GraphOf(s), p, r);
    ChainLeads(s, p);
    assert LeadsTo(s, p, r);
  }

  /** One reference more. */
  lemma LeadsOn(s: State, u: Ref, r: Ref)
    requires Reached(s, u) && u < |s.heap| && Mentions(s.heap[u].obj, Gc(r)) && 0 < r < |s.heap|
    ensures Reached(s, r)
  {
    hide Mentions, Leads;
    var p :| LeadsTo(s, p, u);
    NotEmpty(s, p);
    LeadsMore(s, p, r);
    assert LeadsTo(s, p + [r], r);
  }

  /** A root is no userdata. */
  lemma RootKept(s: State, r: Ref)
    requires GoodState(s) && IsRoot(s, r) && 0 < r < |s.heap|
    ensures !s.heap[r].obj.Udata?
  {
    hide GoodAt, Sane, InRange;
    if r in s.mt {
      var i :| 0 <= i < |s.mt| && s.mt[i] == r;
      assert PointsTo(s.heap, s.mt[i], IsTable);
    }
  }

  lemma PlainMove(h: seq<Cell>, r: Ref)
    requires 0 < r < |h| && (h[r].obj.Udata? ==> OptsIn(h, h[r].obj.meta))
    ensures MoveOf(h, Gc(r)) == To(r)
  {
    hide Persists, OptsIn;
    if h[r].obj.Udata? {
      PersistsIsOptsIn(h, h[r].obj.meta);
    }
  }

  lemma RefusedMove(h: seq<Cell>, r: Ref)
    requires 0 < r < |h| && h[r].obj.Udata? && !OptsIn(h, h[r].obj.meta)
    ensures MoveOf(h, Gc(r)) == Refuse
  {
    hide Persists, OptsIn;
    PersistsIsOptsIn(h, h[r].obj.meta);
  }

  /** Numbered, and if a userdata, opted in. */
  ghost predicate Taken(s: State, r: Ref) {
    r in Order(s) && r < |s.heap| && (s.heap[r].obj.Udata? ==> OptsIn(s.heap, s.heap[r].obj.meta))
  }

  lemma RootTaken(s: State, r: Ref)
    requires GoodState(s) && !Discover(GraphOf(s)).error && IsRoot(s, r) && 0 < r < |s.heap|
    ensures Taken(s, r)
  {
    var g := GraphOf(s);
    DiscoverScans(g);
    assert Absorbed(Discover(g), g.roots) && Order(s) == Discover(g).order;
    hide GraphOf, Discover, Order, GoodState, OptsIn, IsRoot, MoveOf, Edges;
    GraphParts(s);
    RootKept(s, r);
    PlainMove(s.heap, r);
    RootEdgesAre(s, r);
    MoveIn(s.heap, RootEdges(s), Gc(r));
  }

  lemma EdgesAbsorbed(g: Graph, u: Vertex)
    requires Good(g) && u in Discover(g).order
    ensures u < |g.adj| && Absorbed(Discover(g), g.adj[u])
  {
    DiscoverScans(g);
    hide Discover;
    var f := Discover(g);
    var i :| 0 <= i < |f.order| && f.order[i] == u;
    assert Absorbed(f, g.adj[f.order[i]]);
  }

  lemma StepTaken(s: State, u: Ref, r: Ref)
    requires !Discover(GraphOf(s)).error && u in Order(s) && u < |s.heap|
    requires Mentions(s.heap[u].obj, Gc(r)) && 0 < r < |s.heap|
    ensures Taken(s, r)
  {
    var g := GraphOf(s);
    assert Order(s) == Discover(g).order;
    hide GraphOf, Discover, Order, OptsIn, Mentions, MoveOf, Edges;
    GraphParts(s);
    EdgesAbsorbed(g, u);
    EdgesMention(s.heap[u].obj, Gc(r));
    MoveIn(s.heap, Edges(s.heap[u].obj), Gc(r));
    if s.heap[r].obj.Udata? && !OptsIn(s.heap, s.heap[r].obj.meta) {
      RefusedMove(s.heap, r);
    } else {
      PlainMove(s.heap, r);
    }
  }

  lemma LeadsParts(s: State, p: seq<Ref>)
    requires Leads(s, p)
    ensures 0 < p[|p| - 1] < |s.heap|
    ensures if |p| == 1 then IsRoot(s, p[0])
            else Leads(s, p[..|p| - 1]) && 0 < p[|p| - 2] < |s.heap| && Mentions(s.heap[p[|p| - 2]].obj, Gc(p[|p| - 1]))
  {
    hide Mentions, IsRoot;
    assert |p| > 1 ==> p[|p| - 1] == p[|p| - 1];
  }

  /** Without an error, all that a chain leads to is numbered. */
  lemma {:induction false} LeadsNumbered(s: State, p: seq<Ref>)
    requires GoodState(s) && Leads(s, p) && !Discover(GraphOf(s)).error
    ensures Taken(s, p[|p| - 1])
    decreases |p|
  {
    hide GraphOf, Discover, Order, GoodState, OptsIn, Mentions, IsRoot, Leads;
    NotEmpty(s, p);
    LeadsParts(s, p);
    if |p| == 1 {
      RootTaken(s, p[0]);
    } else {
      LeadsNumbered(s, p[..|p| - 1]);
      StepTaken(s, p[|p| - 2], p[|p| - 1]);
    }
  }

  /** The numbering covers exactly what the roots lead to. */
  lemma OrderIsReached(s: State)
    requires GoodState(s) && !Discover(GraphOf(s)).error
    ensures forall r :: r in Order(s) <==> Reached(s, r)
  {
    DiscoveryIsExactClosure(GraphOf(s));
    assert Order(s) == Discover(GraphOf(s)).order;
    hide GraphOf, Discover, Order, GoodState, Leads, Reachable;
    forall r
      ensures r in Order(s) ==> Reached(s, r)
      ensures Reached(s, r) ==> r in Order(s)
    {
      if r in Order(s) {
        VertexIsReached(s, r);
      }
      if Reached(s, r) {
        var p :| LeadsTo(s, p, r);
        NotEmpty(s, p);
        LeadsNumbered(s, p);
      }
    }
  }

  lemma NotEmpty(s: State, p: seq<Ref>)
    requires Leads(s, p)
    ensures |p| > 0
  {
    hide Mentions, IsRoot;
  }

  // ------------------------------------------------------------------ the verdict

  lemma AllSpeakable(env: Env, o: Obj, vs: seq<TValue>)
    requires !SomeUnspeakable(env, o) && forall v :: v in vs ==> Mentions(o, v)
    ensures WritableTvs(env, vs)
  {
    hide Mentions;
    forall v | v in vs
      ensures WritableTv(env, v)
    {
      assert Mentions(o, v);
    }
  }

  /** What is not refused can be written. */
  lemma NotRefusedWritable(s: State, env: Env, r: Ref)
    requires r < |s.heap| && !Refused(s, env, r)
    ensures Writable(env, s.heap[r].obj)
  {
    hide OptsIn;
    var o := s.heap[r].obj;
    match o
    case Table(arr, nodes, _) =>
      AllSpeakable(env, o, arr);
      forall v | v in NodeEdges(nodes)
        ensures Mentions(o, v)
      {
        NodeEdgesHold(nodes, v);
      }
      AllSpeakable(env, o, NodeEdges(nodes));
    case Proto(p) => AllSpeakable(env, o, p.k);
    case CClosure(_, us) => AllSpeakable(env, o, us);
    case UpClosed(v) => AllSpeakable(env, o, [v]);
    case Thread(_, stack, frames, _) =>
      AllSpeakable(env, o, stack);
      forall f | f in frames
        ensures WritableFrame(env, f)
      {
        var i :| 0 <= i < |frames| && frames[i] == f;
        assert !NamelessFrame(env, frames[i]);
      }
    case _ =>
  }

  lemma ListWritable(env: Env, vs: seq<TValue>, v: TValue)
    requires WritableTvs(env, vs) && v in vs
    ensures WritableTv(env, v)
  {
  }

  lemma WritableIs(env: Env, o: Obj, v: TValue)
    requires Writable(env, o) && Mentions(o, v) && !v.Gc?
    ensures !Unspeakable(env, v)
  {
    hide WritableTvs, NodeEdges;
    match o
    case Table(arr, nodes, _) =>
      if v in arr {
        ListWritable(env, arr, v);
      } else {
        NodeEdgesHold(nodes, v);
        ListWritable(env, NodeEdges(nodes), v);
      }
    case Proto(p) => ListWritable(env, p.k, v);
    case CClosure(_, us) => ListWritable(env, us, v);
    case Thread(_, stack, _, _) => ListWritable(env, stack, v);
    case _ =>
  }

  lemma FrameWritable(env: Env, frames: seq<Frame>)
    requires forall f :: f in frames ==> WritableFrame(env, f)
    ensures forall i :: 0 <= i < |frames| ==> !NamelessFrame(env, frames[i])
  {
    forall i | 0 <= i < |frames|
      ensures !NamelessFrame(env, frames[i])
    {
      assert frames[i] in frames && WritableFrame(env, frames[i]);
    }
  }

  /** A numbered object that is refused for something else than its metatable cannot be written. */
  lemma RefusedUnwritable(s: State, env: Env, r: Ref)
    requires r < |s.heap| && Refused(s, env, r) && (s.heap[r].obj.Udata? ==> OptsIn(s.heap, s.heap[r].obj.meta))
    ensures !Writable(env, s.heap[r].obj)
  {
    hide OptsIn, Mentions, WritableFrame, NamelessFrame, WritableTvs;
    var o := s.heap[r].obj;
    if Writable(env, o) {
      if SomeUnspeakable(env, o) {
        var v :| Mentions(o, v) && Unspeakable(env, v);
        WritableIs(env, o, v);
      }
      if o.Thread? {
        FrameWritable(env, o.frames);
      }
    }
  }

  /** If the traversal gives up, it has met something that is refused. */
  lemma ErrorIsRefused(s: State, env: Env)
    requires GoodState(s) && Discover(GraphOf(s)).error
    ensures exists r :: ReachedRefused(s, env, r)
  {
    var g := GraphOf(s);
    DiscoveryIsExactClosure(g);
    hide GraphOf, Discover, GoodState, Reachable, Reached, Refused;
    if Refuse in g.roots {
      NoRootRefused(s);
    } else {
      var u: Vertex :| OutOf(g, u, Refuse);
      GraphParts(s);
      VertexIsReached(s, u);
      VertexRefused(s, env, u);
    }
  }

  lemma NoRootRefused(s: State)
    requires GoodState(s)
    ensures Refuse !in GraphOf(s).roots
  {
    hide GraphOf, GoodState, OptsIn, MoveOf, Edges, IsRoot;
    GraphParts(s);
    if Refuse in GraphOf(s).roots {
      MoveIs(s.heap, RootEdges(s), Refuse);
      var v :| v in RootEdges(s) && MoveOf(s.heap, v) == Refuse;
      RootEdgesAre(s, 0);
      RootEdgesAre(s, v.ref);
      RefusalIs(s.heap, v);
      RootKept(s, v.ref);
    }
  }

  /** A refused edge leads to something refused, or is a light userdata. */
  lemma VertexRefused(s: State, env: Env, u: Ref)
    requires Reached(s, u) && u < |s.heap| && Refuse in GraphOf(s).adj[u]
    ensures exists r :: ReachedRefused(s, env, r)
  {
    hide GraphOf, OptsIn, MoveOf, Edges, Mentions, Reached;
    GraphParts(s);
    MoveIs(s.heap, Edges(s.heap[u].obj), Refuse);
    var v :| v in Edges(s.heap[u].obj) && MoveOf(s.heap, v) == Refuse;
    EdgesMention(s.heap[u].obj, v);
    RefusalIs(s.heap, v);
    if v.LightUd? {
      assert Unspeakable(env, v);
      assert ReachedRefused(s, env, u);
    } else {
      LeadsOn(s, u, v.ref);
      assert ReachedRefused(s, env, v.ref);
    }
  }

  lemma RefusalIs(h: seq<Cell>, v: TValue)
    requires MoveOf(h, v) == Refuse
    ensures v.LightUd? || (v.Gc? && 0 < v.ref < |h| && h[v.ref].obj.Udata? && !OptsIn(h, h[v.ref].obj.meta))
  {
    hide Persists, OptsIn;
    if v.Gc? {
      PersistsIsOptsIn(h, h[v.ref].obj.meta);
    }
  }

  lemma RefusedFails(s: State, env: Env, r: Ref)
    requires GoodState(s) && ReachedRefused(s, env, r)
    ensures !Savable(s, env)
  {
    hide GraphOf, Discover, Order, GoodState, Leads, Refused, Writable, OptsIn;
    if Savable(s, env) {
      var p :| LeadsTo(s, p, r);
      NotEmpty(s, p);
      LeadsNumbered(s, p);
      RefusedUnwritable(s, env, r);
    }
  }

  /** A save is refused exactly if the roots lead to something that cannot be saved. */
  lemma SaveIsRefused(s: State, env: Env)
    requires GoodState(s)
    ensures Save(s, env) == SaveError <==> exists r :: ReachedRefused(s, env, r)
  {
    hide GraphOf, Discover, Order, GoodState, Writable, Refused, Reached, EncState, Normal;
    if r :| ReachedRefused(s, env, r) {
      RefusedFails(s, env, r);
    }
    if !Savable(s, env) {
      if Discover(GraphOf(s)).error {
        ErrorIsRefused(s, env);
      } else {
        OrderIsReached(s);
        var r :| r in Order(s) && !Writable(env, s.heap[r].obj);
        if !Refused(s, env, r) {
          NotRefusedWritable(s, env, r);
        }
        assert ReachedRefused(s, env, r);
      }
    }
  }
}
