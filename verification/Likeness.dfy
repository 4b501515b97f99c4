// What it means for two states to be the same: a definition over their cells, field by field,
// and the proof that isomorphism is just that.
module Likeness {
  import opened Bytes
  import opened Heap
  import opened Discovery
  import opened SaveVerdict
  import opened Snapshot
  import opened WellFormed
  import opened Canonical

  // ------------------------------------------------------------- the definition

  /** NULL corresponds to NULL, an object to the one that `m` gives. */
  predicate SameRef(m: map<Ref, Ref>, a: Ref, b: Ref) {
    if a == 0 then b == 0 else a in m && b == m[a]
  }

  /** A pointer that need not be followed: what it leads to may be unknown on both sides. */
  ghost predicate SameName(m: map<Ref, Ref>, a: Ref, b: Ref) {
    if a in m then b == m[a] else b !in m.Values
  }

  predicate SameValue(m: map<Ref, Ref>, v: TValue, w: TValue) {
    if v.Gc? then w.Gc? && SameRef(m, v.ref, w.ref) else w == v
  }

  predicate SameValues(m: map<Ref, Ref>, vs: seq<TValue>, ws: seq<TValue>) {
    |vs| == |ws| && forall i :: 0 <= i < |vs| ==> SameValue(m, vs[i], ws[i])
  }

  predicate SameRefs(m: map<Ref, Ref>, rs: seq<Ref>, qs: seq<Ref>) {
    |rs| == |qs| && forall i :: 0 <= i < |rs| ==> SameRef(m, rs[i], qs[i])
  }

  /** In the array part of a table the two variants of nil are alike. */
  predicate SameSlot(m: map<Ref, Ref>, v: TValue, w: TValue) {
    if v == TValue.Nil || v == Empty then w == TValue.Nil || w == Empty else SameValue(m, v, w)
  }

  predicate SameSlots(m: map<Ref, Ref>, vs: seq<TValue>, ws: seq<TValue>) {
    |vs| == |ws| && forall i :: 0 <= i < |vs| ==> SameSlot(m, vs[i], ws[i])
  }

  /** A node keeps its place, its key, its value and its chain link. */
  ghost predicate SameNode(m: map<Ref, Ref>, n: Node, k: Node) {
    match n
    case Free => k == Free
    case Node(Live(v), x, next) => k.Node? && k.key.Live? && SameValue(m, v, k.key.value) && SameValue(m, x, k.val) && k.next == next
    case Node(Dead(r), x, next) => k.Node? && k.key.Dead? && SameName(m, r, k.key.ref) && k.val == x && k.next == next
  }

  ghost predicate SameNodes(m: map<Ref, Ref>, ns: seq<Node>, ks: seq<Node>) {
    |ns| == |ks| && forall i :: 0 <= i < |ns| ==> SameNode(m, ns[i], ks[i])
  }

  predicate SameUpvals(m: map<Ref, Ref>, us: seq<UpvalDesc>, vs: seq<UpvalDesc>) {
    |us| == |vs| && forall i :: 0 <= i < |us| ==>
      && SameRef(m, us[i].name, vs[i].name)
      && us[i].instack == vs[i].instack && us[i].idx == vs[i].idx && us[i].kind == vs[i].kind
  }

  predicate SameVars(m: map<Ref, Ref>, us: seq<LocVar>, vs: seq<LocVar>) {
    |us| == |vs| && forall i :: 0 <= i < |us| ==>
      SameRef(m, us[i].name, vs[i].name) && us[i].startpc == vs[i].startpc && us[i].endpc == vs[i].endpc
  }

  /** All of a prototype but the flag 4, which tells that its arrays lie in fixed memory. */
  predicate SameProto(m: map<Ref, Ref>, p: ProtoData, q: ProtoData) {
    && p.numparams == q.numparams && p.flag % 4 == q.flag % 4 && p.flag / 8 == q.flag / 8 && p.maxstack == q.maxstack
    && p.code == q.code && SameValues(m, p.k, q.k) && SameRefs(m, p.p, q.p) && SameUpvals(m, p.upvalues, q.upvalues)
    && p.lineinfo == q.lineinfo && p.abslineinfo == q.abslineinfo && SameVars(m, p.locvars, q.locvars)
    && SameRef(m, p.source, q.source) && p.linedefined == q.linedefined && p.lastlinedefined == q.lastlinedefined
  }

  predicate HasBit(v: nat, weight: nat)
    requires weight > 0
  {
    (v / weight) % 2 == 1
  }

  /** Does the prototype keep its extra arguments hidden below its frame? */
  predicate HidesArgs(h: seq<Cell>, r: Ref) {
    r < |h| && h[r].obj.Proto? && h[r].obj.p.flag % 2 == 1
  }

  /** A frame resumes at the same place. Its transient fields count where its status or its
      prototype gives them a meaning. */
  predicate SameFrame(h: seq<Cell>, m: map<Ref, Ref>, f: Frame, g: Frame) {
    && f.func == g.func && f.top == g.top && f.status == g.status
    && (HasBit(f.status, 0x2_0000) || HasBit(f.status, 0x20_0000) ==> f.u2 == g.u2)
    && match f.arm
       case LuaArm(p, pc, n) =>
         g.arm.LuaArm? && SameRef(m, p, g.arm.proto) && g.arm.pc == pc && (HidesArgs(h, p) ==> g.arm.nextra == n)
       case CArm(k, ctx, e) =>
         g.arm.CArm? && g.arm.kont == k && (k != 0 ==> g.arm.ctx == ctx && g.arm.oldErr == e)
  }

  predicate SameFrames(h: seq<Cell>, m: map<Ref, Ref>, fs: seq<Frame>, gs: seq<Frame>) {
    |fs| == |gs| && forall i :: 0 <= i < |fs| ==> SameFrame(h, m, fs[i], gs[i])
  }

  /** `b` is `a` with every pointer led along `m`. */
  ghost predicate SameThing(h: seq<Cell>, m: map<Ref, Ref>, a: Obj, b: Obj) {
    match a
    case Str(short, s) => b.Str? && b.short == short && b.s == s
    case Table(arr, nodes, mt) => b.Table? && SameSlots(m, arr, b.arr) && SameNodes(m, nodes, b.nodes) && SameRef(m, mt, b.mt)
    case Proto(p) => b.Proto? && SameProto(m, p, b.p)
    case LClosure(p, us) => b.LClosure? && SameRef(m, p, b.proto) && SameRefs(m, us, b.upvals)
    case CClosure(fn, us) => b.CClosure? && b.fn == fn && SameValues(m, us, b.ups)
    case UpClosed(v) => b.UpClosed? && SameValue(m, v, b.v)
    case UpOpen(t, slot) => b.UpOpen? && SameName(m, t, b.thread) && b.slot == slot
    case Thread(st, stack, frames, open) =>
      b.Thread? && b.status == st && SameValues(m, stack, b.stack) && SameFrames(h, m, frames, b.frames) && SameRefs(m, open, b.open)
    case Udata(uvs, payload, mt) => b.Udata? && SameValues(m, uvs, b.uvs) && b.payload == payload && SameRef(m, mt, b.meta)
  }

  ghost predicate SameAt(s1: State, s2: State, m: map<Ref, Ref>, r: Ref)
    requires r in m
  {
    && 0 < r < |s1.heap| && 0 < m[r] < |s2.heap|
    && s1.heap[r].objid == s2.heap[m[r]].objid
    && SameThing(s1.heap, m, s1.heap[r].obj, s2.heap[m[r]].obj)
  }

  /** The states are the same but for addresses: `m` leads the roots, and from them everything,
      to its counterpart, and different objects to different ones. */
  ghost predicate Resembles(s1: State, s2: State, m: map<Ref, Ref>) {
    && (forall a, b :: a in m && b in m && m[a] == m[b] ==> a == b)
    && s1.registry != 0 && SameRef(m, s1.registry, s2.registry) && s1.main != 0 && SameRef(m, s1.main, s2.main)
    && SameRefs(m, s1.mt, s2.mt) && s1.seed == s2.seed && s1.nextSeq == s2.nextSeq
    && forall r {:trigger m[r]} :: r in m ==> SameAt(s1, s2, m, r)
  }

  // ------------------------------------------------- values and lists, both ways

  ghost predicate NoNull(m: map<Ref, Ref>) {
    Heap.NULL !in m.Keys && Heap.NULL !in m.Values
  }

  predicate In(rs: set<Ref>, v: TValue) {
    v.Gc? && v.ref != Heap.NULL ==> v.ref in rs
  }

  predicate AllIn(rs: set<Ref>, vs: seq<TValue>) {
    forall v :: v in vs ==> In(rs, v)
  }

  predicate RefIn(rs: set<Ref>, r: Ref) {
    r != Heap.NULL ==> r in rs
  }

  lemma RefIff(m: map<Ref, Ref>, a: Ref, b: Ref)
    requires NoNull(m)
    ensures SameRef(m, a, b) <==> Look(m, a) == Look(Ident(m.Values), b) && RefIn(m.Keys, a) && RefIn(m.Values, b)
    ensures SameName(m, a, b) <==> Look(m, a) == Look(Ident(m.Values), b)
    ensures SameRef(m, a, b) <==> Carried(m, a, b)
  {
  }

  lemma ValueIff(m: map<Ref, Ref>, v: TValue, w: TValue)
    requires NoNull(m)
    ensures SameValue(m, v, w) <==> MapTv(v, m) == MapTv(w, Ident(m.Values)) && In(m.Keys, v) && In(m.Values, w)
  {
    if v.Gc? && w.Gc? {
      RefIff(m, v.ref, w.ref);
    }
  }

  lemma AllInAt(rs: set<Ref>, vs: seq<TValue>)
    ensures AllIn(rs, vs) <==> forall i :: 0 <= i < |vs| ==> In(rs, vs[i])
  {
    hide In;
    if AllIn(rs, vs) {
      forall i | 0 <= i < |vs|
        ensures In(rs, vs[i])
      {
        assert vs[i] in vs;
      }
    }
  }

  lemma ValuesIff(m: map<Ref, Ref>, vs: seq<TValue>, ws: seq<TValue>)
    requires NoNull(m)
    ensures SameValues(m, vs, ws) <==> MapTvs(vs, m) == MapTvs(ws, Ident(m.Values)) && AllIn(m.Keys, vs) && AllIn(m.Values, ws)
  {
    hide SameValue, MapTv, In, AllIn, NoNull;
    AllInAt(m.Keys, vs);
    AllInAt(m.Values, ws);
    forall i | 0 <= i < |vs| && i < |ws|
      ensures SameValue(m, vs[i], ws[i]) <==> MapTv(vs[i], m) == MapTv(ws[i], Ident(m.Values)) && In(m.Keys, vs[i]) && In(m.Values, ws[i])
    {
      ValueIff(m, vs[i], ws[i]);
    }
    var xs, ys := MapTvs(vs, m), MapTvs(ws, Ident(m.Values));
    if xs == ys {
      forall i | 0 <= i < |vs|
        ensures MapTv(vs[i], m) == MapTv(ws[i], Ident(m.Values))
      {
        assert xs[i] == ys[i];
      }
    }
  }

  lemma SlotIff(m: map<Ref, Ref>, v: TValue, w: TValue)
    requires NoNull(m)
    ensures var v', w' := if IsNil(v) then Empty else v, if IsNil(w) then Empty else w;
            SameSlot(m, v, w) <==> MapTv(v', m) == MapTv(w', Ident(m.Values)) && In(m.Keys, v) && In(m.Values, w)
  {
    ValueIff(m, v, w);
  }

  lemma SlotsIff(m: map<Ref, Ref>, vs: seq<TValue>, ws: seq<TValue>)
    requires NoNull(m)
    ensures SameSlots(m, vs, ws) <==>
              && MapTvs(CanonArr(vs), m) == MapTvs(CanonArr(ws), Ident(m.Values)) && AllIn(m.Keys, vs) && AllIn(m.Values, ws)
  {
    hide SameSlot, MapTv, In, AllIn, NoNull, IsNil;
    AllInAt(m.Keys, vs);
    AllInAt(m.Values, ws);
    var xs, ys := MapTvs(CanonArr(vs), m), MapTvs(CanonArr(ws), Ident(m.Values));
    forall i | 0 <= i < |vs| && i < |ws|
      ensures SameSlot(m, vs[i], ws[i]) <==> xs[i] == ys[i] && In(m.Keys, vs[i]) && In(m.Values, ws[i])
    {
      SlotIff(m, vs[i], ws[i]);
    }
    if xs == ys {
      forall i | 0 <= i < |vs|
        ensures xs[i] == ys[i]
      {
      }
    }
  }

  predicate RefsIn(rs: set<Ref>, qs: seq<Ref>) {
    forall i :: 0 <= i < |qs| ==> RefIn(rs, qs[i])
  }

  lemma RefsIff(m: map<Ref, Ref>, rs: seq<Ref>, qs: seq<Ref>)
    requires NoNull(m)
    ensures SameRefs(m, rs, qs) <==> MapRefs(rs, m) == MapRefs(qs, Ident(m.Values)) && RefsIn(m.Keys, rs) && RefsIn(m.Values, qs)
  {
    hide SameRef, Look, RefIn, NoNull;
    var xs, ys := MapRefs(rs, m), MapRefs(qs, Ident(m.Values));
    forall i | 0 <= i < |rs| && i < |qs|
      ensures SameRef(m, rs[i], qs[i]) <==> xs[i] == ys[i] && RefIn(m.Keys, rs[i]) && RefIn(m.Values, qs[i])
    {
      RefIff(m, rs[i], qs[i]);
    }
    if xs == ys {
      forall i | 0 <= i < |rs|
        ensures xs[i] == ys[i]
      {
      }
    }
  }

  predicate NodeIn(rs: set<Ref>, n: Node) {
    n.Node? && n.key.Live? ==> In(rs, n.key.value) && In(rs, n.val)
  }

  predicate NodesIn(rs: set<Ref>, ns: seq<Node>) {
    forall i :: 0 <= i < |ns| ==> NodeIn(rs, ns[i])
  }

  lemma NodeIff(m: map<Ref, Ref>, n: Node, k: Node)
    requires NoNull(m) && (n.Node? && n.key.Dead? ==> IsNil(n.val))
    ensures SameNode(m, n, k) <==> MapNode(n, m) == MapNode(k, Ident(m.Values)) && NodeIn(m.Keys, n) && NodeIn(m.Values, k)
  {
    if n.Node? && k.Node? {
      ValueIff(m, n.val, k.val);
      match (n.key, k.key)
      case (Live(v), Live(w)) => ValueIff(m, v, w);
      case (Dead(a), Dead(b)) => RefIff(m, a, b);
      case _ =>
    }
  }

  lemma NodesIff(m: map<Ref, Ref>, ns: seq<Node>, ks: seq<Node>)
    requires NoNull(m) && forall i :: 0 <= i < |ns| ==> GoodNode(ns[i], i, |ns|)
    ensures SameNodes(m, ns, ks) <==> MapNodes(ns, m) == MapNodes(ks, Ident(m.Values)) && NodesIn(m.Keys, ns) && NodesIn(m.Values, ks)
  {
    var xs, ys := MapNodes(ns, m), MapNodes(ks, Ident(m.Values));
    forall i | 0 <= i < |ns| && i < |ks|
      ensures SameNode(m, ns[i], ks[i]) <==> xs[i] == ys[i] && NodeIn(m.Keys, ns[i]) && NodeIn(m.Values, ks[i])
    {
      assert GoodNode(ns[i], i, |ns|);
      NodeIff(m, ns[i], ks[i]);
    }
    hide SameNode, MapNode, NodeIn, GoodNode, NoNull;
    if xs == ys {
      forall i | 0 <= i < |ns|
        ensures xs[i] == ys[i]
      {
      }
    }
  }

  // ------------------------------------------------------------ what is mentioned

  ghost predicate MentionsIn(rs: set<Ref>, o: Obj) {
    forall v :: Mentions(o, v) ==> In(rs, v)
  }

  lemma ClosedIff(o: Obj, rs: set<Ref>)
    ensures Closed(o, rs) <==> MentionsIn(rs, o)
  {
    hide Mentions, Edges;
    forall v: TValue
      ensures v in Edges(o) <==> Mentions(o, v)
    {
      EdgesMention(o, v);
    }
  }

  lemma TableIn(rs: set<Ref>, arr: seq<TValue>, nodes: seq<Node>, mt: Ref)
    ensures MentionsIn(rs, Table(arr, nodes, mt)) <==> AllIn(rs, arr) && NodesIn(rs, nodes) && RefIn(rs, mt)
  {
    var o := Table(arr, nodes, mt);
    if MentionsIn(rs, o) {
      assert Mentions(o, Gc(mt));
      forall v | v in arr
        ensures In(rs, v)
      {
        assert Mentions(o, v);
      }
      forall i | 0 <= i < |nodes|
        ensures NodeIn(rs, nodes[i])
      {
        if nodes[i].Node? && nodes[i].key.Live? {
          assert Holds(nodes[i], nodes[i].key.value) && Holds(nodes[i], nodes[i].val);
          assert Mentions(o, nodes[i].key.value) && Mentions(o, nodes[i].val);
        }
      }
    }
    if AllIn(rs, arr) && NodesIn(rs, nodes) && RefIn(rs, mt) {
      forall v | Mentions(o, v)
        ensures In(rs, v)
      {
        if v !in arr && v != Gc(mt) {
          var i :| 0 <= i < |nodes| && Holds(nodes[i], v);
          assert NodeIn(rs, nodes[i]);
        }
      }
    }
  }

  predicate UpsIn(rs: set<Ref>, us: seq<UpvalDesc>) {
    forall i :: 0 <= i < |us| ==> RefIn(rs, us[i].name)
  }

  predicate VarsIn(rs: set<Ref>, us: seq<LocVar>) {
    forall i :: 0 <= i < |us| ==> RefIn(rs, us[i].name)
  }

  lemma ProtoIn(rs: set<Ref>, p: ProtoData)
    ensures MentionsIn(rs, Proto(p)) <==>
              AllIn(rs, p.k) && RefsIn(rs, p.p) && UpsIn(rs, p.upvalues) && VarsIn(rs, p.locvars) && RefIn(rs, p.source)
  {
    var o := Proto(p);
    if MentionsIn(rs, o) {
      assert Mentions(o, Gc(p.source));
      forall v | v in p.k ensures In(rs, v) { assert Mentions(o, v); }
      forall i | 0 <= i < |p.p| ensures RefIn(rs, p.p[i]) { assert Mentions(o, Gc(p.p[i])); }
      forall i | 0 <= i < |p.upvalues| ensures RefIn(rs, p.upvalues[i].name) { assert Mentions(o, Gc(p.upvalues[i].name)); }
      forall i | 0 <= i < |p.locvars| ensures RefIn(rs, p.locvars[i].name) { assert Mentions(o, Gc(p.locvars[i].name)); }
    }
  }

  lemma ListIn(rs: set<Ref>, o: Obj, vs: seq<TValue>, qs: seq<Ref>)
    requires forall v :: Mentions(o, v) <==> v in vs || exists i :: 0 <= i < |qs| && v == Gc(qs[i])
    ensures MentionsIn(rs, o) <==> AllIn(rs, vs) && RefsIn(rs, qs)
  {
    hide Mentions;
    if MentionsIn(rs, o) {
      forall v | v in vs
        ensures In(rs, v)
      {
        assert Mentions(o, v);
      }
      forall i | 0 <= i < |qs|
        ensures RefIn(rs, qs[i])
      {
        assert Mentions(o, Gc(qs[i]));
      }
    }
  }

  // ------------------------------------------------------------ objects, both ways

  lemma UpsIff(m: map<Ref, Ref>, us: seq<UpvalDesc>, vs: seq<UpvalDesc>)
    requires NoNull(m)
    ensures SameUpvals(m, us, vs) <==> MapUps(us, m) == MapUps(vs, Ident(m.Values)) && UpsIn(m.Keys, us) && UpsIn(m.Values, vs)
  {
    hide SameRef, Look, RefIn, NoNull;
    var xs, ys := MapUps(us, m), MapUps(vs, Ident(m.Values));
    forall i | 0 <= i < |us| && i < |vs|
      ensures SameRef(m, us[i].name, vs[i].name) <==> xs[i].name == ys[i].name && RefIn(m.Keys, us[i].name) && RefIn(m.Values, vs[i].name)
    {
      RefIff(m, us[i].name, vs[i].name);
    }
    if xs == ys {
      forall i | 0 <= i < |us|
        ensures xs[i] == ys[i]
      {
      }
    }
  }

  lemma VarsIff(m: map<Ref, Ref>, us: seq<LocVar>, vs: seq<LocVar>)
    requires NoNull(m)
    ensures SameVars(m, us, vs) <==> MapVars(us, m) == MapVars(vs, Ident(m.Values)) && VarsIn(m.Keys, us) && VarsIn(m.Values, vs)
  {
    hide SameRef, Look, RefIn, NoNull;
    var xs, ys := MapVars(us, m), MapVars(vs, Ident(m.Values));
    forall i | 0 <= i < |us| && i < |vs|
      ensures SameRef(m, us[i].name, vs[i].name) <==> xs[i].name == ys[i].name && RefIn(m.Keys, us[i].name) && RefIn(m.Values, vs[i].name)
    {
      RefIff(m, us[i].name, vs[i].name);
    }
    if xs == ys {
      forall i | 0 <= i < |us|
        ensures xs[i] == ys[i]
      {
      }
    }
  }

  lemma FlagIff(a: byte, b: byte)
    ensures StripFixed(a) == StripFixed(b) <==> a % 4 == b % 4 && a / 8 == b / 8
  {
    FlagParts(a);
    FlagParts(b);
  }

  lemma FlagParts(a: byte)
    ensures StripFixed(a) == a % 4 + 8 * (a / 8)
  {
    assert a == 8 * (a / 8) + a % 8 && a / 4 == 2 * (a / 8) + (a % 8) / 4;
    assert (a / 4) % 2 == (a % 8) / 4;
  }

  lemma ProtoIff(h1: seq<Cell>, h2: seq<Cell>, m: map<Ref, Ref>, p: ProtoData, q: ProtoData)
    requires NoNull(m)
    ensures SameObj(h1, h2, Proto(p), Proto(q), m) <==> SameProto(m, p, q)
  {
    hide Mentions, Closed, MentionsIn, NoNull, AllIn, RefsIn, UpsIn, VarsIn, RefIn, SameValues, SameRefs,
         SameUpvals, SameVars, SameRef,
         StripFixed, Look;
    ClosedIff(Proto(p), m.Keys);
    ClosedIff(Proto(q), m.Values);
    ProtoIn(m.Keys, p);
    ProtoIn(m.Values, q);
    ValuesIff(m, p.k, q.k);
    RefsIff(m, p.p, q.p);
    UpsIff(m, p.upvalues, q.upvalues);
    VarsIff(m, p.locvars, q.locvars);
    RefIff(m, p.source, q.source);
    FlagIff(p.flag, q.flag);
  }

  lemma TableIff(h1: seq<Cell>, h2: seq<Cell>, m: map<Ref, Ref>, a: Obj, b: Obj)
    requires NoNull(m) && a.Table? && b.Table? && forall i :: 0 <= i < |a.nodes| ==> GoodNode(a.nodes[i], i, |a.nodes|)
    ensures SameObj(h1, h2, a, b, m) <==> SameThing(h1, m, a, b)
  {
    hide Mentions, Closed, MentionsIn, NoNull, AllIn, NodesIn, RefIn, SameSlots, SameNodes, SameRef, GoodNode,
         CanonArr, Look;
    ClosedIff(a, m.Keys);
    ClosedIff(b, m.Values);
    TableIn(m.Keys, a.arr, a.nodes, a.mt);
    TableIn(m.Values, b.arr, b.nodes, b.mt);
    SlotsIff(m, a.arr, b.arr);
    NodesIff(m, a.nodes, b.nodes);
    RefIff(m, a.mt, b.mt);
  }

  /** The Lua frames run prototypes that are known, and that hide their arguments on both
      sides or on neither. */
  ghost predicate FramesKnown(h1: seq<Cell>, h2: seq<Cell>, m: map<Ref, Ref>, fs: seq<Frame>) {
    forall i :: 0 <= i < |fs| && fs[i].arm.LuaArm? ==>
      && fs[i].arm.proto in m && fs[i].arm.proto != Heap.NULL
      && HidesArgs(h1, fs[i].arm.proto) == HidesArgs(h2, m[fs[i].arm.proto])
  }

  lemma HidesIs(h: seq<Cell>, r: Ref)
    ensures HidesArgs(h, r) == HasHiddenVarargs(h, r)
  {
  }

  lemma FrameIff(h1: seq<Cell>, h2: seq<Cell>, m: map<Ref, Ref>, f: Frame, g: Frame)
    requires NoNull(m)
    requires f.arm.LuaArm? ==>
               f.arm.proto in m && f.arm.proto != Heap.NULL && HidesArgs(h1, f.arm.proto) == HidesArgs(h2, m[f.arm.proto])
    ensures SameFrame(h1, m, f, g) <== MapFrame(CanonFrame(h1, f), m) == MapFrame(CanonFrame(h2, g), Ident(m.Values))
    ensures SameFrame(h1, m, f, g) ==> MapFrame(CanonFrame(h1, f), m) == MapFrame(CanonFrame(h2, g), Ident(m.Values))
  {
    assert HasBit(f.status, CIST_YPCALL) == Bit(f.status, CIST_YPCALL) && HasBit(f.status, CIST_CLSRET) == Bit(f.status, CIST_CLSRET);
    if f.arm.LuaArm? && g.arm.LuaArm? {
      RefIff(m, f.arm.proto, g.arm.proto);
      HidesIs(h1, f.arm.proto);
      HidesIs(h2, g.arm.proto);
    }
    hide HidesArgs, HasHiddenVarargs, HasBit, Bit;
  }

  lemma FramesIff(h1: seq<Cell>, h2: seq<Cell>, m: map<Ref, Ref>, fs: seq<Frame>, gs: seq<Frame>)
    requires NoNull(m) && FramesKnown(h1, h2, m, fs)
    ensures SameFrames(h1, m, fs, gs) <==> MapFrames(CanonFrames(h1, fs), m) == MapFrames(CanonFrames(h2, gs), Ident(m.Values))
  {
    hide SameFrame, MapFrame, CanonFrame, HidesArgs, NoNull;
    var xs, ys := MapFrames(CanonFrames(h1, fs), m), MapFrames(CanonFrames(h2, gs), Ident(m.Values));
    forall i | 0 <= i < |fs| && i < |gs|
      ensures SameFrame(h1, m, fs[i], gs[i]) <==> xs[i] == ys[i]
    {
      FrameIff(h1, h2, m, fs[i], gs[i]);
    }
    if xs == ys {
      forall i | 0 <= i < |fs|
        ensures xs[i] == ys[i]
      {
      }
    }
  }

  lemma ThreadIff(h1: seq<Cell>, h2: seq<Cell>, m: map<Ref, Ref>, a: Obj, b: Obj)
    requires NoNull(m) && a.Thread? && b.Thread? && FramesKnown(h1, h2, m, a.frames)
    ensures SameObj(h1, h2, a, b, m) <==> SameThing(h1, m, a, b)
  {
    ThreadMentions(a);
    ThreadMentions(b);
    hide Mentions, Closed, MentionsIn, NoNull, AllIn, RefsIn, SameValues, SameFrames, SameRefs, FramesKnown,
         Look, CanonFrames;
    ClosedIff(a, m.Keys);
    ClosedIff(b, m.Values);
    ListIn(m.Keys, a, a.stack, a.open);
    ListIn(m.Values, b, b.stack, b.open);
    ValuesIff(m, a.stack, b.stack);
    FramesIff(h1, h2, m, a.frames, b.frames);
    RefsIff(m, a.open, b.open);
  }

  lemma ThreadMentions(t: Obj)
    requires t.Thread?
    ensures forall v :: Mentions(t, v) <==> v in t.stack || exists i :: 0 <= i < |t.open| && v == Gc(t.open[i])
  {
  }

  lemma ClosureIff(h1: seq<Cell>, h2: seq<Cell>, m: map<Ref, Ref>, a: Obj, b: Obj)
    requires NoNull(m) && a.LClosure? && b.LClosure?
    ensures SameObj(h1, h2, a, b, m) <==> SameThing(h1, m, a, b)
  {
    ClosureMentions(a);
    ClosureMentions(b);
    hide Mentions, Closed, MentionsIn, NoNull, AllIn, SameRefs, Look;
    ClosedIff(a, m.Keys);
    ClosedIff(b, m.Values);
    ListIn(m.Keys, a, [Gc(a.proto)], a.upvals);
    ListIn(m.Values, b, [Gc(b.proto)], b.upvals);
    RefIff(m, a.proto, b.proto);
    RefsIff(m, a.upvals, b.upvals);
    OneIn(m.Keys, a.proto);
    OneIn(m.Values, b.proto);
  }

  lemma OneIn(rs: set<Ref>, r: Ref)
    ensures AllIn(rs, [Gc(r)]) <==> RefIn(rs, r)
  {
    AllInAt(rs, [Gc(r)]);
    assert [Gc(r)][0] == Gc(r);
  }

  lemma ClosureMentions(o: Obj)
    requires o.LClosure?
    ensures forall v :: Mentions(o, v) <==> v in [Gc(o.proto)] || exists i :: 0 <= i < |o.upvals| && v == Gc(o.upvals[i])
  {
  }

  lemma UdataIff(h1: seq<Cell>, h2: seq<Cell>, m: map<Ref, Ref>, a: Obj, b: Obj)
    requires NoNull(m) && a.Udata? && b.Udata?
    ensures SameObj(h1, h2, a, b, m) <==> SameThing(h1, m, a, b)
  {
    UdataMentions(a);
    UdataMentions(b);
    hide Mentions, Closed, MentionsIn, NoNull, AllIn, SameValues, Look;
    ClosedIff(a, m.Keys);
    ClosedIff(b, m.Values);
    ListIn(m.Keys, a, a.uvs, [a.meta]);
    ListIn(m.Values, b, b.uvs, [b.meta]);
    ValuesIff(m, a.uvs, b.uvs);
    RefIff(m, a.meta, b.meta);
    assert RefsIn(m.Keys, [a.meta]) <==> RefIn(m.Keys, [a.meta][0]);
    assert RefsIn(m.Values, [b.meta]) <==> RefIn(m.Values, [b.meta][0]);
  }

  lemma UdataMentions(o: Obj)
    requires o.Udata?
    ensures forall v :: Mentions(o, v) <==> v in o.uvs || exists i :: 0 <= i < |[o.meta]| && v == Gc([o.meta][i])
  {
    assert [o.meta][0] == o.meta;
  }

  lemma ListIff(h1: seq<Cell>, h2: seq<Cell>, m: map<Ref, Ref>, a: Obj, b: Obj)
    requires NoNull(m) && ((a.CClosure? && b.CClosure?) || (a.UpClosed? && b.UpClosed?))
    ensures SameObj(h1, h2, a, b, m) <==> SameThing(h1, m, a, b)
  {
    hide Closed, NoNull, AllIn, SameValues;
    ClosedIff(a, m.Keys);
    ClosedIff(b, m.Values);
    var vs, ws := if a.CClosure? then a.ups else [a.v], if b.CClosure? then b.ups else [b.v];
    ListIn(m.Keys, a, vs, []);
    ListIn(m.Values, b, ws, []);
    if a.CClosure? {
      ValuesIff(m, vs, ws);
    } else {
      ValueIff(m, a.v, b.v);
      AllInAt(m.Keys, [a.v]);
      AllInAt(m.Values, [b.v]);
      assert [a.v][0] == a.v && [b.v][0] == b.v;
    }
  }

  lemma KindsDiffer(h1: seq<Cell>, h2: seq<Cell>, m: map<Ref, Ref>, a: Obj, b: Obj)
    requires TypeCode(a) != TypeCode(b)
    ensures !SameObj(h1, h2, a, b, m) && !SameThing(h1, m, a, b)
  {
    hide Closed, SameNodes, SameSlots, SameValues, SameFrames, SameRefs, SameProto;
  }

  lemma NothingIff(h1: seq<Cell>, h2: seq<Cell>, m: map<Ref, Ref>, a: Obj, b: Obj)
    requires NoNull(m) && ((a.Str? && b.Str?) || (a.UpOpen? && b.UpOpen?))
    ensures SameObj(h1, h2, a, b, m) <==> SameThing(h1, m, a, b)
  {
    if a.UpOpen? {
      RefIff(m, a.thread, b.thread);
    }
  }

  lemma ThingIff(h1: seq<Cell>, h2: seq<Cell>, m: map<Ref, Ref>, a: Obj, b: Obj)
    requires NoNull(m) && (a.Table? ==> forall i :: 0 <= i < |a.nodes| ==> GoodNode(a.nodes[i], i, |a.nodes|))
    requires a.Thread? ==> FramesKnown(h1, h2, m, a.frames)
    ensures SameObj(h1, h2, a, b, m) <==> SameThing(h1, m, a, b)
  {
    hide NoNull, SameObj, SameThing, FramesKnown, GoodNode;
    if TypeCode(a) != TypeCode(b) {
      KindsDiffer(h1, h2, m, a, b);
    } else {
      match a
      case Table(_, _, _) => TableIff(h1, h2, m, a, b);
      case Proto(p) =>
        ProtoIff(h1, h2, m, p, b.p);
        ProtoThing(h1, m, p, b.p);
      case LClosure(_, _) => ClosureIff(h1, h2, m, a, b);
      case CClosure(_, _) => ListIff(h1, h2, m, a, b);
      case UpClosed(_) => ListIff(h1, h2, m, a, b);
      case Thread(_, _, _, _) => ThreadIff(h1, h2, m, a, b);
      case Udata(_, _, _) => UdataIff(h1, h2, m, a, b);
      case _ => NothingIff(h1, h2, m, a, b);
    }
  }

  lemma ProtoThing(h: seq<Cell>, m: map<Ref, Ref>, p: ProtoData, q: ProtoData)
    ensures SameThing(h, m, Proto(p), Proto(q)) <==> SameProto(m, p, q)
  {
    hide SameProto;
  }

  // ------------------------------------------------------------- states, both ways

  lemma NodesGood(s: State, r: Ref)
    requires GoodState(s) && 0 < r < |s.heap| && s.heap[r].obj.Table?
    ensures forall i :: 0 <= i < |s.heap[r].obj.nodes| ==> GoodNode(s.heap[r].obj.nodes[i], i, |s.heap[r].obj.nodes|)
  {
    assert GoodAt(s.heap, r);
    hide GoodNode, SaneAt, Sane, InRange;
  }

  ghost predicate Like(s1: State, s2: State, m: map<Ref, Ref>, r: Ref)
    requires r in m
  {
    && 0 < r < |s1.heap| && 0 < m[r] < |s2.heap|
    && (SameObj(s1.heap, s2.heap, s1.heap[r].obj, s2.heap[m[r]].obj, m) || SameThing(s1.heap, m, s1.heap[r].obj, s2.heap[m[r]].obj))
  }

  /** Seen either way, an object that is no thread is the same. */
  lemma PlainLike(s1: State, s2: State, m: map<Ref, Ref>, r: Ref)
    requires GoodState(s1) && NoNull(m) && r in m && Like(s1, s2, m, r) && !s1.heap[r].obj.Thread?
    ensures SameThing(s1.heap, m, s1.heap[r].obj, s2.heap[m[r]].obj)
    ensures SameObj(s1.heap, s2.heap, s1.heap[r].obj, s2.heap[m[r]].obj, m)
  {
    hide GoodState, NoNull, SameObj, SameThing, GoodNode;
    if s1.heap[r].obj.Table? {
      NodesGood(s1, r);
    }
    ThingIff(s1.heap, s2.heap, m, s1.heap[r].obj, s2.heap[m[r]].obj);
  }

  lemma StackKnown(h1: seq<Cell>, h2: seq<Cell>, m: map<Ref, Ref>, a: Obj, b: Obj, i: nat)
    requires SameObj(h1, h2, a, b, m) || SameThing(h1, m, a, b)
    requires a.Thread? && i < |a.stack| && a.stack[i].Gc? && a.stack[i].ref != Heap.NULL
    ensures a.stack[i].ref in m
  {
    if SameThing(h1, m, a, b) {
      hide SameFrames, SameRefs;
      assert SameValue(m, a.stack[i], b.stack[i]);
    } else {
      assert Mentions(a, a.stack[i]);
      ClosedIff(a, m.Keys);
      hide Mentions, Closed;
      assert In(m.Keys, a.stack[i]);
    }
  }

  lemma ClosureKnown(h: seq<Cell>, m: map<Ref, Ref>, a: Obj, b: Obj)
    requires SameThing(h, m, a, b) && a.LClosure? && a.proto != Heap.NULL
    ensures a.proto in m
  {
    hide SameRefs;
  }

  lemma HidesAlike(h: seq<Cell>, m: map<Ref, Ref>, g: seq<Cell>, r: Ref)
    requires r in m && r < |h| && m[r] < |g| && h[r].obj.Proto? && SameThing(h, m, h[r].obj, g[m[r]].obj)
    ensures HidesArgs(h, r) == HidesArgs(g, m[r])
  {
    hide SameValues, SameRefs, SameUpvals, SameVars, SameRef;
    var a, b := h[r].obj.p.flag, g[m[r]].obj.p.flag;
    assert a % 4 == b % 4 && a % 2 == (a % 4) % 2 && b % 2 == (b % 4) % 2;
  }

  lemma FrameIsGood(s: State, r: Ref, i: nat)
    requires GoodState(s) && 0 < r < |s.heap| && s.heap[r].obj.Thread? && i < |s.heap[r].obj.frames|
    ensures GoodFrame(s.heap, s.heap[r].obj.stack, s.heap[r].obj.frames[i])
  {
    assert GoodAt(s.heap, r);
    hide GoodFrame, GoodOpens, Values, Sane, InRange;
  }

  lemma FramesLike(s1: State, s2: State, m: map<Ref, Ref>, r: Ref)
    requires GoodState(s1) && NoNull(m) && r in m && (forall q {:trigger m[q]} :: q in m ==> Like(s1, s2, m, q))
    requires 0 < r < |s1.heap| && s1.heap[r].obj.Thread?
    ensures FramesKnown(s1.heap, s2.heap, m, s1.heap[r].obj.frames)
  {
    hide GoodState, NoNull, SameObj, SameThing, HidesArgs, Bit;
    var h, a := s1.heap, s1.heap[r].obj;
    forall i | 0 <= i < |a.frames| && a.frames[i].arm.LuaArm?
      ensures a.frames[i].arm.proto in m && a.frames[i].arm.proto != Heap.NULL
      ensures HidesArgs(s1.heap, a.frames[i].arm.proto) == HidesArgs(s2.heap, m[a.frames[i].arm.proto])
    {
      var f := a.frames[i];
      FrameIsGood(s1, r, i);
      assert Like(s1, s2, m, r) && m[r] == m[r];
      StackKnown(s1.heap, s2.heap, m, a, s2.heap[m[r]].obj, f.func);
      var c := a.stack[f.func].ref;
      assert m[c] == m[c] && Like(s1, s2, m, c);
      PlainLike(s1, s2, m, c);
      ClosureKnown(h, m, h[c].obj, s2.heap[m[c]].obj);
      var p := f.arm.proto;
      assert m[p] == m[p] && Like(s1, s2, m, p);
      PlainLike(s1, s2, m, p);
      HidesAlike(h, m, s2.heap, p);
    }
  }

  lemma ObjectsLike(s1: State, s2: State, m: map<Ref, Ref>, r: Ref)
    requires GoodState(s1) && NoNull(m) && r in m && forall q {:trigger m[q]} :: q in m ==> Like(s1, s2, m, q)
    ensures 0 < r < |s1.heap| && 0 < m[r] < |s2.heap|
    ensures SameThing(s1.heap, m, s1.heap[r].obj, s2.heap[m[r]].obj)
    ensures SameObj(s1.heap, s2.heap, s1.heap[r].obj, s2.heap[m[r]].obj, m)
  {
    hide GoodState, NoNull, SameObj, SameThing, FramesKnown;
    assert m[r] == m[r] && Like(s1, s2, m, r);
    if s1.heap[r].obj.Thread? {
      FramesLike(s1, s2, m, r);
      ThingIff(s1.heap, s2.heap, m, s1.heap[r].obj, s2.heap[m[r]].obj);
    } else {
      PlainLike(s1, s2, m, r);
    }
  }

  lemma RootsIff(s1: State, s2: State, m: map<Ref, Ref>)
    requires NoNull(m)
    ensures SameRef(m, s1.registry, s2.registry) <==> Carried(m, s1.registry, s2.registry)
    ensures SameRef(m, s1.main, s2.main) <==> Carried(m, s1.main, s2.main)
    ensures SameRefs(m, s1.mt, s2.mt) <==> |s1.mt| == |s2.mt| && forall i :: 0 <= i < |s1.mt| ==> Carried(m, s1.mt[i], s2.mt[i])
  {
    RefIff(m, s1.registry, s2.registry);
    RefIff(m, s1.main, s2.main);
    hide SameRef, Carried, NoNull;
    forall i | 0 <= i < |s1.mt| && i < |s2.mt|
      ensures SameRef(m, s1.mt[i], s2.mt[i]) <==> Carried(m, s1.mt[i], s2.mt[i])
    {
      RefIff(m, s1.mt[i], s2.mt[i]);
    }
  }

  lemma IsomorphicResembles(s1: State, s2: State, m: map<Ref, Ref>)
    requires Isomorphic(s1, s2, m) && GoodState(s1)
    ensures Resembles(s1, s2, m)
  {
    RootsNotNull(s1);
    hide GoodState, SameObj, SameThing, Carried, SameRef, SameRefs;
    RootsIff(s1, s2, m);
    forall r {:trigger m[r]} | r in m
      ensures Like(s1, s2, m, r) && SameCell(s1.heap, s2.heap, r, m)
    {
      assert SameCell(s1.heap, s2.heap, r, m);
    }
    forall r {:trigger m[r]} | r in m
      ensures SameAt(s1, s2, m, r)
    {
      assert SameCell(s1.heap, s2.heap, r, m);
      ObjectsLike(s1, s2, m, r);
    }
  }

  lemma RootsNotNull(s: State)
    requires GoodState(s)
    ensures s.registry != 0 && s.main != 0
  {
    hide GoodAt, Sane, InRange;
  }

  lemma ResemblesIsomorphic(s1: State, s2: State, m: map<Ref, Ref>)
    requires Resembles(s1, s2, m) && GoodState(s1)
    ensures Isomorphic(s1, s2, m)
  {
    hide GoodState, SameObj, SameThing, Carried, SameRef, SameRefs;
    forall r {:trigger m[r]} | r in m
      ensures Like(s1, s2, m, r) && r != 0 && m[r] != 0
    {
      assert SameAt(s1, s2, m, r);
    }
    assert NoNull(m);
    RootsIff(s1, s2, m);
    forall r {:trigger m[r]} | r in m
      ensures SameCell(s1.heap, s2.heap, r, m)
    {
      assert SameAt(s1, s2, m, r);
      ObjectsLike(s1, s2, m, r);
    }
  }

  /** Isomorphism, on which the laws of the snapshot rest, is sameness but for addresses. */
  lemma IsomorphicIff(s1: State, s2: State, m: map<Ref, Ref>)
    requires GoodState(s1)
    ensures Isomorphic(s1, s2, m) <==> Resembles(s1, s2, m)
  {
    hide *;
    if Isomorphic(s1, s2, m) {
      IsomorphicResembles(s1, s2, m);
    }
    if Resembles(s1, s2, m) {
      ResemblesIsomorphic(s1, s2, m);
    }
  }
}
