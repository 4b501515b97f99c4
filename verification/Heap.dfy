// The object graph of a Lua state, as the snapshot code sees it.
//
// An object pointer is the index of its cell; NULL is 0 and cell 0 is never used.
module Heap {
  import opened Bytes

  type Ref = nat

  const NULL: Ref := 0

  /** Integers and floats are kept as their 8-byte words. `Nil` and `Empty` are the
      two nil variants a table node can hold. The tag of `Gc(r)` is that of the
      object it refers to. */
  datatype TValue =
    | Nil | Empty | False | True
    | Int(i: u64)
    | Flt(bits: u64)
    | LightC(fn: nat)
    | LightUd(p: nat)
    | Gc(ref: Ref)

  /** A removed key keeps its pointer, which may dangle. */
  datatype Key = Live(value: TValue) | Dead(ref: Ref)

  datatype Node = Free | Node(key: Key, val: TValue, next: i32)

  datatype UpvalDesc = UpvalDesc(name: Ref, instack: byte, idx: byte, kind: byte)

  datatype AbsLine = AbsLine(pc: i32, line: i32)

  datatype LocVar = LocVar(name: Ref, startpc: i32, endpc: i32)

  datatype ProtoData = ProtoData(
    numparams: byte, flag: byte, maxstack: byte,
    code: seq<u32>, k: seq<TValue>, p: seq<Ref>, upvalues: seq<UpvalDesc>,
    lineinfo: seq<byte>, abslineinfo: seq<AbsLine>, locvars: seq<LocVar>,
    source: Ref, linedefined: i32, lastlinedefined: i32)

  /** The two arms of a call frame's union. A Lua frame's saved pc points `pc`
      instructions into the code of `proto`. */
  datatype Arm =
    | LuaArm(proto: Ref, pc: i32, nextra: i32)
    | CArm(kont: nat, ctx: u64, oldErr: u64)

  datatype Frame = Frame(func: i32, top: i32, status: u32, u2: i32, arm: Arm)

  datatype Obj =
    | Str(short: bool, s: seq<byte>)
    | Table(arr: seq<TValue>, nodes: seq<Node>, mt: Ref)
    | Proto(p: ProtoData)
    | LClosure(proto: Ref, upvals: seq<Ref>)
    | CClosure(fn: nat, ups: seq<TValue>)
    | UpClosed(v: TValue)
    | UpOpen(thread: Ref, slot: i32)
    | Thread(status: byte, stack: seq<TValue>, frames: seq<Frame>, open: seq<Ref>)
    | Udata(uvs: seq<TValue>, payload: seq<byte>, meta: Ref)

  datatype Cell = Cell(objid: u64, obj: Obj)

  const NUMTYPES: nat := 9

  /** The parts of the global state that a snapshot covers. */
  datatype State = State(
    heap: seq<Cell>, registry: Ref, main: Ref, mt: seq<Ref>, seed: u32, nextSeq: u64)

  // ------------------------------------------------------------- tag bytes

  /** The tag byte of a value that refers to `o`. */
  function TagOf(o: Obj): byte {
    match o
    case Str(short, _) => if short then 0x44 else 0x54
    case Table(_, _, _) => 0x45
    case LClosure(_, _) => 0x46
    case CClosure(_, _) => 0x66
    case Udata(_, _, _) => 0x47
    case Thread(_, _, _, _) => 0x48
    case UpClosed(_) => 0x49
    case UpOpen(_, _) => 0x49
    case Proto(_) => 0x4A
  }

  // --------------------------------------------------------- following edges

  function LiveEdges(n: Node): seq<TValue> {
    match n
    case Free => []
    case Node(Dead(_), _, _) => []
    case Node(Live(k), v, _) => [k, v]
  }

  function NodeEdges(nodes: seq<Node>): seq<TValue> {
    if nodes == [] then [] else NodeEdges(nodes[..|nodes| - 1]) + LiveEdges(nodes[|nodes| - 1])
  }

  function Refs(rs: seq<Ref>): (vs: seq<TValue>)
    ensures |vs| == |rs|
  {
    seq(|rs|, i requires 0 <= i < |rs| => Gc(rs[i]))
  }

  function UpNames(us: seq<UpvalDesc>): (vs: seq<TValue>)
    ensures |vs| == |us|
  {
    seq(|us|, i requires 0 <= i < |us| => Gc(us[i].name))
  }

  function VarNames(ls: seq<LocVar>): (vs: seq<TValue>)
    ensures |vs| == |ls|
  {
    seq(|ls|, i requires 0 <= i < |ls| => Gc(ls[i].name))
  }

  /** What an object refers to, in the order the snapshot code visits it. A NULL
      pointer shows as `Gc(NULL)`. */
  function Edges(o: Obj): seq<TValue> {
    match o
    case Str(_, _) => []
    case Table(arr, nodes, mt) => arr + NodeEdges(nodes) + [Gc(mt)]
    case Proto(p) => p.k + Refs(p.p) + UpNames(p.upvalues) + VarNames(p.locvars) + [Gc(p.source)]
    case LClosure(p, us) => [Gc(p)] + Refs(us)
    case CClosure(_, us) => us
    case UpClosed(v) => [v]
    case UpOpen(_, _) => []
    case Thread(_, stack, _, open) => stack + Refs(open)
    case Udata(uvs, _, mt) => uvs + [Gc(mt)]
  }

  /** Every pointer that can be followed points at a cell. */
  ghost predicate InRange(h: seq<Cell>, vs: seq<TValue>) {
    forall v :: v in vs && v.Gc? ==> v.ref < |h|
  }

  ghost predicate Sound(h: seq<Cell>) {
    forall r {:trigger Edges(h[r].obj)} :: 0 < r < |h| ==> InRange(h, Edges(h[r].obj))
  }

  // --------------------------------------------------------------- renaming

  /** The name of `r` under `m`; what `m` does not name is NULL. */
  function Look(m: map<Ref, Ref>, r: Ref): Ref {
    if r in m then m[r] else NULL
  }

  function MapTv(v: TValue, m: map<Ref, Ref>): TValue {
    if v.Gc? then Gc(Look(m, v.ref)) else v
  }

  function MapTvs(vs: seq<TValue>, m: map<Ref, Ref>): (r: seq<TValue>)
    ensures |r| == |vs| && forall i :: 0 <= i < |vs| ==> r[i] == MapTv(vs[i], m)
  {
    seq(|vs|, i requires 0 <= i < |vs| => MapTv(vs[i], m))
  }

  function MapRefs(rs: seq<Ref>, m: map<Ref, Ref>): (r: seq<Ref>)
    ensures |r| == |rs| && forall i :: 0 <= i < |rs| ==> r[i] == Look(m, rs[i])
  {
    seq(|rs|, i requires 0 <= i < |rs| => Look(m, rs[i]))
  }

  function MapNode(n: Node, m: map<Ref, Ref>): Node {
    match n
    case Free => Free
    case Node(Live(k), v, x) => Node(Live(MapTv(k, m)), MapTv(v, m), x)
    case Node(Dead(r), v, x) => Node(Dead(Look(m, r)), MapTv(v, m), x)
  }

  function MapNodes(ns: seq<Node>, m: map<Ref, Ref>): (r: seq<Node>)
    ensures |r| == |ns| && forall i :: 0 <= i < |ns| ==> r[i] == MapNode(ns[i], m)
  {
    seq(|ns|, i requires 0 <= i < |ns| => MapNode(ns[i], m))
  }

  function MapUps(us: seq<UpvalDesc>, m: map<Ref, Ref>): (r: seq<UpvalDesc>)
    ensures |r| == |us| && forall i :: 0 <= i < |us| ==> r[i] == us[i].(name := Look(m, us[i].name))
  {
    seq(|us|, i requires 0 <= i < |us| => us[i].(name := Look(m, us[i].name)))
  }

  function MapVars(ls: seq<LocVar>, m: map<Ref, Ref>): (r: seq<LocVar>)
    ensures |r| == |ls| && forall i :: 0 <= i < |ls| ==> r[i] == ls[i].(name := Look(m, ls[i].name))
  {
    seq(|ls|, i requires 0 <= i < |ls| => ls[i].(name := Look(m, ls[i].name)))
  }

  function MapFrame(f: Frame, m: map<Ref, Ref>): Frame {
    if f.arm.LuaArm? then f.(arm := f.arm.(proto := Look(m, f.arm.proto))) else f
  }

  function MapFrames(fs: seq<Frame>, m: map<Ref, Ref>): (r: seq<Frame>)
    ensures |r| == |fs| && forall i :: 0 <= i < |fs| ==> r[i] == MapFrame(fs[i], m)
  {
    seq(|fs|, i requires 0 <= i < |fs| => MapFrame(fs[i], m))
  }

  function MapProto(p: ProtoData, m: map<Ref, Ref>): ProtoData {
    p.(k := MapTvs(p.k, m), p := MapRefs(p.p, m), upvalues := MapUps(p.upvalues, m),
       locvars := MapVars(p.locvars, m), source := Look(m, p.source))
  }

  /** The same object with every pointer replaced by its name. */
  function MapObj(o: Obj, m: map<Ref, Ref>): Obj {
    match o
    case Str(_, _) => o
    case Table(arr, nodes, mt) => Table(MapTvs(arr, m), MapNodes(nodes, m), Look(m, mt))
    case Proto(p) => Proto(MapProto(p, m))
    case LClosure(p, us) => LClosure(Look(m, p), MapRefs(us, m))
    case CClosure(f, us) => CClosure(f, MapTvs(us, m))
    case UpClosed(v) => UpClosed(MapTv(v, m))
    case UpOpen(t, s) => UpOpen(Look(m, t), s)
    case Thread(st, stack, frames, open) => Thread(st, MapTvs(stack, m), MapFrames(frames, m), MapRefs(open, m))
    case Udata(uvs, b, mt) => Udata(MapTvs(uvs, m), b, Look(m, mt))
  }

  /** `c` is `b` after `a`. */
  ghost predicate Composes(a: map<Ref, Ref>, b: map<Ref, Ref>, c: map<Ref, Ref>) {
    forall r {:trigger Look(a, r)} :: Look(b, Look(a, r)) == Look(c, r)
  }

  lemma MapTvsTwice(vs: seq<TValue>, a: map<Ref, Ref>, b: map<Ref, Ref>, c: map<Ref, Ref>)
    requires Composes(a, b, c)
    ensures MapTvs(MapTvs(vs, a), b) == MapTvs(vs, c)
  {
  }

  lemma MapRefsTwice(rs: seq<Ref>, a: map<Ref, Ref>, b: map<Ref, Ref>, c: map<Ref, Ref>)
    requires Composes(a, b, c)
    ensures MapRefs(MapRefs(rs, a), b) == MapRefs(rs, c)
  {
  }

  lemma MapNodesTwice(ns: seq<Node>, a: map<Ref, Ref>, b: map<Ref, Ref>, c: map<Ref, Ref>)
    requires Composes(a, b, c)
    ensures MapNodes(MapNodes(ns, a), b) == MapNodes(ns, c)
  {
  }

  lemma MapFramesTwice(fs: seq<Frame>, a: map<Ref, Ref>, b: map<Ref, Ref>, c: map<Ref, Ref>)
    requires Composes(a, b, c)
    ensures MapFrames(MapFrames(fs, a), b) == MapFrames(fs, c)
  {
  }

  lemma MapProtoTwice(p: ProtoData, a: map<Ref, Ref>, b: map<Ref, Ref>, c: map<Ref, Ref>)
    requires Composes(a, b, c)
    ensures MapProto(MapProto(p, a), b) == MapProto(p, c)
  {
    MapTvsTwice(p.k, a, b, c);
    MapRefsTwice(p.p, a, b, c);
    assert MapUps(MapUps(p.upvalues, a), b) == MapUps(p.upvalues, c);
    assert MapVars(MapVars(p.locvars, a), b) == MapVars(p.locvars, c);
    assert Look(b, Look(a, p.source)) == Look(c, p.source);
  }

  lemma MapTwice(o: Obj, a: map<Ref, Ref>, b: map<Ref, Ref>, c: map<Ref, Ref>)
    requires Composes(a, b, c)
    ensures MapObj(MapObj(o, a), b) == MapObj(o, c)
  {
    match o
    case Str(_, _) =>
    case Table(arr, nodes, mt) =>
      MapTvsTwice(arr, a, b, c);
      MapNodesTwice(nodes, a, b, c);
    case Proto(p) =>
      MapProtoTwice(p, a, b, c);
    case LClosure(p, us) =>
      MapRefsTwice(us, a, b, c);
    case CClosure(f, us) =>
      MapTvsTwice(us, a, b, c);
    case UpClosed(v) =>
    case UpOpen(_, _) =>
    case Thread(st, stack, frames, open) =>
      MapTvsTwice(stack, a, b, c);
      MapFramesTwice(frames, a, b, c);
      MapRefsTwice(open, a, b, c);
    case Udata(uvs, y, mt) =>
      MapTvsTwice(uvs, a, b, c);
  }

  lemma MapTvsAppend(x: seq<TValue>, y: seq<TValue>, m: map<Ref, Ref>)
    ensures MapTvs(x + y, m) == MapTvs(x, m) + MapTvs(y, m)
  {
  }

  lemma RefsMap(rs: seq<Ref>, m: map<Ref, Ref>)
    ensures Refs(MapRefs(rs, m)) == MapTvs(Refs(rs), m)
  {
  }

  lemma ProtoEdges(p: ProtoData, m: map<Ref, Ref>)
    ensures Edges(Proto(MapProto(p, m))) == MapTvs(Edges(Proto(p)), m)
  {
    RefsMap(p.p, m);
    assert UpNames(MapUps(p.upvalues, m)) == MapTvs(UpNames(p.upvalues), m);
    assert VarNames(MapVars(p.locvars, m)) == MapTvs(VarNames(p.locvars), m);
    var a := p.k + Refs(p.p);
    var b := a + UpNames(p.upvalues);
    var c := b + VarNames(p.locvars);
    MapTvsAppend(p.k, Refs(p.p), m);
    MapTvsAppend(a, UpNames(p.upvalues), m);
    MapTvsAppend(b, VarNames(p.locvars), m);
    MapTvsAppend(c, [Gc(p.source)], m);
    assert MapTvs([Gc(p.source)], m) == [Gc(Look(m, p.source))];
  }

  /** Renaming commutes with following edges. */
  lemma MapEdges(o: Obj, m: map<Ref, Ref>)
    ensures Edges(MapObj(o, m)) == MapTvs(Edges(o), m)
  {
    match o
    case Str(_, _) =>
    case Table(arr, nodes, mt) =>
      MapNodeEdges(nodes, m);
      MapTvsAppend(arr, NodeEdges(nodes), m);
      MapTvsAppend(arr + NodeEdges(nodes), [Gc(mt)], m);
    case Proto(p) =>
      ProtoEdges(p, m);
    case LClosure(p, us) =>
      RefsMap(us, m);
      MapTvsAppend([Gc(p)], Refs(us), m);
    case CClosure(_, _) =>
    case UpClosed(v) =>
    case UpOpen(_, _) =>
    case Thread(st, stack, frames, open) =>
      RefsMap(open, m);
      MapTvsAppend(stack, Refs(open), m);
    case Udata(uvs, _, mt) =>
      MapTvsAppend(uvs, [Gc(mt)], m);
  }

  lemma {:induction false} MapNodeEdges(nodes: seq<Node>, m: map<Ref, Ref>)
    ensures NodeEdges(MapNodes(nodes, m)) == MapTvs(NodeEdges(nodes), m)
  {
    if nodes != [] {
      var init, n := nodes[..|nodes| - 1], nodes[|nodes| - 1];
      MapNodeEdges(init, m);
      assert MapNodes(nodes, m)[..|nodes| - 1] == MapNodes(init, m);
      assert MapTvs(NodeEdges(init) + LiveEdges(n), m) == MapTvs(NodeEdges(init), m) + MapTvs(LiveEdges(n), m);
      assert LiveEdges(MapNode(n, m)) == MapTvs(LiveEdges(n), m);
    }
  }
}
