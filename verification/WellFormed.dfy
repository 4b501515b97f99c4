// What the virtual machine guarantees of the objects that the snapshot code meets.
module WellFormed {
  import opened Words
  import opened Heap
  import opened Discovery
  import opened Snapshot

  ghost predicate PointsTo(h: seq<Cell>, r: Ref, ok: Obj -> bool) {
    r == NULL || (r < |h| && ok(h[r].obj))
  }

  ghost predicate AllPointTo(h: seq<Cell>, rs: seq<Ref>, ok: Obj -> bool) {
    forall i :: 0 <= i < |rs| ==> PointsTo(h, rs[i], ok)
  }

  function IsTable(o: Obj): bool { o.Table? }

  function IsProto(o: Obj): bool { o.Proto? }

  function IsStr(o: Obj): bool { o.Str? }

  function IsUpval(o: Obj): bool { o.UpOpen? || o.UpClosed? }

  /** A value that refers to an object refers to one. */
  ghost predicate NoNulls(vs: seq<TValue>) {
    forall i :: 0 <= i < |vs| ==> vs[i] != Gc(NULL)
  }

  /** Outside tables the empty variant of nil is never stored. */
  ghost predicate Values(vs: seq<TValue>) {
    NoNulls(vs) && forall i :: 0 <= i < |vs| ==> vs[i] != Empty
  }

  predicate IsNaN(v: TValue) {
    v.Flt? && (v.bits / 0x10_0000_0000_0000) % 0x800 == 0x7FF && v.bits % 0x10_0000_0000_0000 != 0
  }

  /** A node's key is a real key, a removed key has no value, and its chain link
      stays inside the node array. */
  predicate GoodNode(n: Node, i: nat, size: nat) {
    n.Node? ==>
      && (n.key.Live? ==> !IsNil(n.key.value) && !IsNaN(n.key.value))
      && (n.key.Dead? ==> IsNil(n.val))
      && (n.next == 0 || 0 <= i + n.next < size)
  }

  ghost predicate GoodTable(h: seq<Cell>, arr: seq<TValue>, nodes: seq<Node>, mt: Ref) {
    && |arr| < 0x8000_0000 && |nodes| < 0x8000_0000
    && (nodes == [] || PowerOfTwo(|nodes|))
    && (forall i :: 0 <= i < |nodes| ==> GoodNode(nodes[i], i, |nodes|))
    && NoNulls(arr) && NoNulls(NodeEdges(nodes)) && PointsTo(h, mt, IsTable)
  }

  ghost predicate GoodProto(h: seq<Cell>, p: ProtoData) {
    && |p.code| < 0x8000_0000 && |p.k| < 0x8000_0000 && |p.p| < 0x8000_0000 && |p.upvalues| < 0x8000_0000
    && |p.lineinfo| < 0x8000_0000 && |p.abslineinfo| < 0x8000_0000 && |p.locvars| < 0x8000_0000
    && Values(p.k) && AllPointTo(h, p.p, IsProto) && PointsTo(h, p.source, IsStr)
    && (forall i :: 0 <= i < |p.upvalues| ==> PointsTo(h, p.upvalues[i].name, IsStr))
    && (forall i :: 0 <= i < |p.locvars| ==> PointsTo(h, p.locvars[i].name, IsStr))
  }

  /** A Lua frame runs the closure in its function slot. */
  ghost predicate GoodFrame(h: seq<Cell>, stack: seq<TValue>, f: Frame) {
    && (f.arm.LuaArm? <==> !Bit(f.status, CIST_C))
    && (f.arm.LuaArm? ==>
          && 0 <= f.func < |stack| && stack[f.func].Gc?
          && var c := stack[f.func].ref;
          && 0 < c < |h| && h[c].obj.LClosure?
          && h[c].obj.proto == f.arm.proto && 0 < f.arm.proto < |h| && h[f.arm.proto].obj.Proto?)
  }

  /** The open upvalues of a thread point into its stack, from the top down. */
  ghost predicate GoodOpens(h: seq<Cell>, self: Ref, open: seq<Ref>) {
    && (forall i :: 0 <= i < |open| ==>
          0 < open[i] < |h| && h[open[i]].obj.UpOpen? && h[open[i]].obj.thread == self)
    && (forall i, j :: 0 <= i < j < |open| ==>
          0 < open[i] < |h| && 0 < open[j] < |h| && h[open[i]].obj.UpOpen? && h[open[j]].obj.UpOpen?
          && h[open[i]].obj.slot > h[open[j]].obj.slot)
  }

  ghost predicate GoodAt(h: seq<Cell>, r: Ref)
    requires r < |h|
  {
    match h[r].obj
    case Str(_, _) => true
    case Table(arr, nodes, mt) => GoodTable(h, arr, nodes, mt)
    case Proto(p) => GoodProto(h, p)
    case LClosure(p, us) => PointsTo(h, p, IsProto) && AllPointTo(h, us, IsUpval) && |us| < 0x100
    case CClosure(_, us) => Values(us) && |us| < 0x100
    case UpClosed(v) => Values([v])
    case UpOpen(t, _) => 0 < t < |h| && h[t].obj.Thread? && r in h[t].obj.open
    case Thread(_, stack, frames, open) =>
      && Values(stack) && |stack| < 0x8000_0000 && 1 <= |frames| < 0x8000_0000 && |open| < 0x8000_0000
      && (forall i :: 0 <= i < |frames| ==> GoodFrame(h, stack, frames[i]))
      && GoodOpens(h, r, open)
    case Udata(_, _, mt) => PointsTo(h, mt, IsTable)
  }

  /** A state between two runs of Lua code. */
  ghost predicate GoodState(s: State) {
    && Sane(s.heap) && InRange(s.heap, RootEdges(s))
    && (forall r :: 0 < r < |s.heap| ==> GoodAt(s.heap, r))
    && 0 < s.registry < |s.heap| && s.heap[s.registry].obj.Table?
    && 0 < s.main < |s.heap| && s.heap[s.main].obj.Thread?
    && |s.mt| == NUMTYPES && AllPointTo(s.heap, s.mt, IsTable)
  }
}
