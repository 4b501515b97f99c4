// What a snapshot says: the normal form of a state, with objects named by their
// ids, and the bytes that describe it.
module Snapshot {
  import opened Bytes
  import opened Heap
  import opened Graph
  import opened Discovery
  import opened Wire
  import opened Records

  /** The names of C functions and of built-in continuations, for saving and loading. */
  datatype Env = Env(
    cname: map<nat, seq<byte>>, cfn: map<seq<byte>, nat>,
    kname: map<nat, seq<byte>>, kfn: map<seq<byte>, nat>)

  function Lookup<K, V>(m: map<K, V>, k: K, d: V): V {
    if k in m then m[k] else d
  }

  // ------------------------------------------------- what a snapshot leaves out

  function Bit(v: nat, weight: nat): bool
    requires weight > 0
  {
    (v / weight) % 2 == 1
  }

  const PF_VAHID: nat := 1
  const PF_FIXED: nat := 4
  const CIST_C: nat := 0x8000
  const CIST_CLSRET: nat := 0x2_0000
  const CIST_YPCALL: nat := 0x20_0000

  predicate IsNil(v: TValue) {
    v == TValue.Nil || v == Empty
  }

  /** All empty array slots are alike. */
  function CanonArr(vs: seq<TValue>): (r: seq<TValue>)
    ensures |r| == |vs| && forall i :: 0 <= i < |vs| ==> r[i] == if IsNil(vs[i]) then Empty else vs[i]
  {
    seq(|vs|, i requires 0 <= i < |vs| => if IsNil(vs[i]) then Empty else vs[i])
  }

  function StripFixed(flag: byte): byte {
    if Bit(flag, PF_FIXED) then flag - PF_FIXED else flag
  }

  function HasHiddenVarargs(h: seq<Cell>, r: Ref): bool {
    r < |h| && h[r].obj.Proto? && Bit(h[r].obj.p.flag, PF_VAHID)
  }

  /** The transient fields of a frame count only where its status says they do. */
  function CanonFrame(h: seq<Cell>, f: Frame): Frame {
    var u2 := if Bit(f.status, CIST_YPCALL) || Bit(f.status, CIST_CLSRET) then f.u2 else 0;
    var arm :=
      match f.arm
      case LuaArm(p, pc, n) => LuaArm(p, pc, if HasHiddenVarargs(h, p) then n else 0)
      case CArm(k, ctx, e) => if k == 0 then CArm(0, 0, 0) else f.arm;
    Frame(f.func, f.top, f.status, u2, arm)
  }

  function CanonFrames(h: seq<Cell>, fs: seq<Frame>): (r: seq<Frame>)
    ensures |r| == |fs| && forall i :: 0 <= i < |fs| ==> r[i] == CanonFrame(h, fs[i])
  {
    seq(|fs|, i requires 0 <= i < |fs| => CanonFrame(h, fs[i]))
  }

  /** The object without what a snapshot does not carry. */
  function Canon(h: seq<Cell>, o: Obj): Obj {
    match o
    case Table(arr, nodes, mt) => Table(CanonArr(arr), nodes, mt)
    case Proto(p) => Proto(p.(flag := StripFixed(p.flag)))
    case Thread(st, stack, frames, open) => Thread(st, stack, CanonFrames(h, frames), open)
    case _ => o
  }

  lemma CanonKeeps(h: seq<Cell>, o: Obj)
    ensures TagOf(Canon(h, o)) == TagOf(o)
    ensures o.UpOpen? ==> Canon(h, o) == o
  {
  }

  // ------------------------------------------------------------- normal form

  const NO_CELL: Cell := Cell(0, Str(true, []))

  /** The cells of the objects of `order`, named by `ids`. */
  ghost function NormalCells(h: seq<Cell>, order: seq<Ref>, ids: map<Ref, Ref>): (c: seq<Cell>)
    requires forall i :: 0 <= i < |order| ==> order[i] < |h|
    ensures |c| == |order| + 1 && c[0] == NO_CELL
    ensures forall i :: 0 <= i < |order| ==>
              c[i + 1] == Cell(h[order[i]].objid, MapObj(Canon(h, h[order[i]].obj), ids))
  {
    [NO_CELL] + seq(|order|, i requires 0 <= i < |order| => Cell(h[order[i]].objid, MapObj(Canon(h, h[order[i]].obj), ids)))
  }

  /** The part of a state that a snapshot covers, with ids for pointers. */
  ghost function Normal(s: State): State {
    var order := Order(s);
    var ids := Ids(order);
    State(NormalCells(s.heap, order, ids), Look(ids, s.registry), Look(ids, s.main), MapRefs(s.mt, ids), s.seed, s.nextSeq)
  }

  // ----------------------------------------------------- from objects to records

  function Cast32(v: nat): u32 {
    v % 0x1_0000_0000
  }

  /** Tag byte of the object with id `id`. */
  function TagAt(nh: seq<Cell>, id: nat): byte {
    if id < |nh| then TagOf(nh[id].obj) else 0x44
  }

  function WireTv(nh: seq<Cell>, env: Env, v: TValue): WTv {
    match v
    case Nil => WTag(TV_NIL)
    case Empty => WTag(TV_EMPTY)
    case False => WTag(TV_FALSE)
    case True => WTag(TV_TRUE)
    case Int(i) => WInt(i)
    case Flt(n) => WFlt(n)
    case LightC(fn) => WCf(Lookup(env.cname, fn, []))
    case LightUd(_) => WTag(TV_NIL)
    case Gc(id) => WGc(TagAt(nh, id), Cast32(id))
  }

  function WireTvs(nh: seq<Cell>, env: Env, vs: seq<TValue>): (r: seq<WTv>)
    ensures |r| == |vs| && forall i :: 0 <= i < |vs| ==> r[i] == WireTv(nh, env, vs[i])
  {
    seq(|vs|, i requires 0 <= i < |vs| => WireTv(nh, env, vs[i]))
  }

  function WireIds(rs: seq<Ref>): (r: seq<u32>)
    ensures |r| == |rs| && forall i :: 0 <= i < |rs| ==> r[i] == Cast32(rs[i])
  {
    seq(|rs|, i requires 0 <= i < |rs| => Cast32(rs[i]))
  }

  /** The non-empty array slots, in order, with their indices. */
  function WireItems(nh: seq<Cell>, env: Env, arr: seq<TValue>): seq<WItem> {
    if arr == [] then [] else
    var k := |arr| - 1;
    var init := WireItems(nh, env, arr[..k]);
    if IsNil(arr[k]) then init else init + [WItem(Cast32(k), WireTv(nh, env, arr[k]))]
  }

  function WireSlot(nh: seq<Cell>, env: Env, n: Node): WSlot {
    match n
    case Free => WFree
    case Node(Live(k), v, x) => WSlot(WLive(WireTv(nh, env, k)), WireTv(nh, env, v), x)
    case Node(Dead(id), v, x) => WSlot(WDead(Cast32(id)), WireTv(nh, env, v), x)
  }

  function WireSlots(nh: seq<Cell>, env: Env, ns: seq<Node>): (r: seq<WSlot>)
    ensures |r| == |ns| && forall i :: 0 <= i < |ns| ==> r[i] == WireSlot(nh, env, ns[i])
  {
    seq(|ns|, i requires 0 <= i < |ns| => WireSlot(nh, env, ns[i]))
  }

  function WireUps(us: seq<UpvalDesc>): (r: seq<UpvalDesc>)
    ensures |r| == |us| && forall i :: 0 <= i < |us| ==> r[i] == us[i].(name := Cast32(us[i].name))
  {
    seq(|us|, i requires 0 <= i < |us| => us[i].(name := Cast32(us[i].name)))
  }

  function WireVars(ls: seq<LocVar>): (r: seq<LocVar>)
    ensures |r| == |ls| && forall i :: 0 <= i < |ls| ==> r[i] == ls[i].(name := Cast32(ls[i].name))
  {
    seq(|ls|, i requires 0 <= i < |ls| => ls[i].(name := Cast32(ls[i].name)))
  }

  function WireProto(nh: seq<Cell>, env: Env, p: ProtoData): WProto {
    WProto(p.numparams, p.flag, p.maxstack, p.code, WireTvs(nh, env, p.k), WireIds(p.p), WireUps(p.upvalues),
           p.lineinfo, p.abslineinfo, WireVars(p.locvars), Cast32(p.source), p.linedefined, p.lastlinedefined)
  }

  function WireFrame(env: Env, f: Frame): WFrame {
    var arm :=
      match f.arm
      case LuaArm(p, pc, n) => WLua(Cast32(p), pc, n)
      case CArm(k, ctx, e) => if k == 0 then WC(WNoKont) else WC(WKont(Lookup(env.kname, k, []), ctx, e));
    WFrame(f.func, f.top, f.status, f.u2, arm)
  }

  function WireFrames(env: Env, fs: seq<Frame>): (r: seq<WFrame>)
    ensures |r| == |fs| && forall i :: 0 <= i < |fs| ==> r[i] == WireFrame(env, fs[i])
  {
    seq(|fs|, i requires 0 <= i < |fs| => WireFrame(env, fs[i]))
  }

  function SlotAt(nh: seq<Cell>, id: nat): i32 {
    if id < |nh| && nh[id].obj.UpOpen? then nh[id].obj.slot else 0
  }

  function WireOpens(nh: seq<Cell>, open: seq<Ref>): (r: seq<WOpen>)
    ensures |r| == |open| && forall i :: 0 <= i < |open| ==> r[i] == WOpen(Cast32(open[i]), SlotAt(nh, open[i]))
  {
    seq(|open|, i requires 0 <= i < |open| => WOpen(Cast32(open[i]), SlotAt(nh, open[i])))
  }

  /** The record of an object of a normal form whose cells are `nh`. */
  function WireObj(nh: seq<Cell>, env: Env, o: Obj): WObj {
    match o
    case Str(_, s) => WStr(s)
    case Table(arr, nodes, mt) =>
      WTab(WTable(WireItems(nh, env, arr), WireSlots(nh, env, nodes), Cast32(mt), Cast32(|arr|)))
    case Proto(p) => WPro(WireProto(nh, env, p))
    case LClosure(p, us) => WLCl(Cast32(p), WireIds(us))
    case CClosure(fn, us) => WCCl(true, Lookup(env.cname, fn, []), WireTvs(nh, env, us))
    case UpClosed(v) => WUpClosed(WireTv(nh, env, v))
    case UpOpen(_, _) => WUpOpen
    case Thread(st, stack, frames, open) =>
      WThr(WThread(st, WireTvs(nh, env, stack), WireFrames(env, frames), WireOpens(nh, open)))
    case Udata(_, b, mt) => WUd(b, Cast32(mt))
  }

  /** The kind of record that an object gets. */
  function TypeCode(o: Obj): byte {
    match o
    case Str(_, _) => OBJ_STRING
    case Table(_, _, _) => OBJ_TABLE
    case Proto(_) => OBJ_PROTO
    case LClosure(_, _) => OBJ_LCLOSURE
    case CClosure(_, _) => OBJ_CCLOSURE
    case UpClosed(_) => OBJ_UPVAL_CLOSED
    case UpOpen(_, _) => OBJ_UPVAL_OPEN
    case Thread(_, _, _, _) => OBJ_THREAD
    case Udata(_, _, _) => OBJ_USERDATA
  }

  datatype Rec = Rec(objid: u64, w: WObj)

  ghost function EncRec(r: Rec): seq<byte> {
    [Code(r.w)] + (Le(r.objid, 8) + (Le(|EncObj(r.w)|, 4) + EncObj(r.w)))
  }

  ghost function WireRecs(nh: seq<Cell>, env: Env): (rs: seq<Rec>)
    ensures |rs| == if nh == [] then 0 else |nh| - 1
    ensures forall i :: 0 <= i < |rs| ==> rs[i] == Rec(nh[i + 1].objid, WireObj(nh, env, nh[i + 1].obj))
  {
    seq(if nh == [] then 0 else |nh| - 1, i requires 0 <= i < |nh| - 1 => Rec(nh[i + 1].objid, WireObj(nh, env, nh[i + 1].obj)))
  }

  ghost function EncHeader(n: State): seq<byte> {
    Le(n.nextSeq, 8) + Le(n.seed, 4)
  }

  ghost function EncFooter(n: State): seq<byte> {
    EncU32(Cast32(n.registry)) + (EncU32(Cast32(n.main)) + EncAll(WireIds(n.mt), EncU32))
  }

  /** The bytes of a normal form. */
  ghost function EncState(n: State, env: Env): seq<byte> {
    EncHeader(n) + (EncAll(WireRecs(n.heap, env), EncRec) + EncFooter(n))
  }

  // ------------------------------------------------------- what can be written

  predicate WritableTv(env: Env, v: TValue) {
    (v.LightC? ==> v.fn in env.cname) && !v.LightUd?
  }

  predicate WritableTvs(env: Env, vs: seq<TValue>) {
    forall v :: v in vs ==> WritableTv(env, v)
  }

  predicate WritableFrame(env: Env, f: Frame) {
    f.arm.CArm? ==> f.arm.kont == 0 || f.arm.kont in env.kname
  }

  /** The write pass has a name for every C function, and no userdata it must refuse. */
  predicate Writable(env: Env, o: Obj) {
    match o
    case Table(arr, nodes, _) => WritableTvs(env, arr) && WritableTvs(env, NodeEdges(nodes))
    case Proto(p) => WritableTvs(env, p.k)
    case CClosure(fn, us) => fn in env.cname && WritableTvs(env, us)
    case UpClosed(v) => WritableTv(env, v)
    case Thread(_, stack, frames, _) => WritableTvs(env, stack) && (forall f :: f in frames ==> WritableFrame(env, f))
    case Udata(uvs, b, _) => uvs == [] && |b| < 0x1_0000_0000
    case _ => true
  }

  ghost predicate Savable(s: State, env: Env) {
    && !Discover(GraphOf(s)).error
    && forall r :: r in Order(s) ==> Writable(env, s.heap[r].obj)
  }

  datatype Saved = Snapshot(bytes: seq<byte>) | SaveError

  ghost function Save(s: State, env: Env): Saved {
    if Savable(s, env) then Saved.Snapshot(EncState(Normal(s), env)) else SaveError
  }
}
