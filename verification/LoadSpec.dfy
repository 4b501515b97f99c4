// What a load computes from any byte string: the record index, the blank objects of
// the first pass, and the fill passes that relink ids to pointers.
module LoadSpec {
  import opened Bytes
  import opened Heap
  import opened Wire
  import opened TableRecords
  import opened ProtoRecords
  import opened Records
  import opened Snapshot
  import opened WellFormed

  // ------------------------------------------------------------ the record index

  const HEADER: nat := 12
  const FOOTER: nat := 44
  const OBJ_HEADER: nat := 13
  const SIZE_MAX1: nat := 0x1_0000_0000_0000_0000

  datatype Entry = Entry(tc: byte, objid: u64, off: nat)

  datatype Indexed = BadIndex | Indexed(entries: seq<Entry>, pos: nat)

  /** `end - off` in the unsigned arithmetic of sizes. */
  function Room(end: nat, off: nat): nat {
    if off <= end then end - off else end + SIZE_MAX1 - off % SIZE_MAX1
  }

  /** The header of one record: its entry, and where the next record starts. */
  function EntryAt(data: seq<byte>, pos: nat, end: nat): Parsed<Entry> {
    if pos + OBJ_HEADER > |data| then Oob else
    var (tc, p) :- U8(data, pos);
    var (objid, p) :- U64(data, p);
    var (size, p) :- U32(data, p);
    if tc < OBJ_STRING || tc > OBJ_USERDATA || size > Room(end, p) then Oob
    else Got(Entry(tc, objid, p), p + size)
  }

  /** Walk the records from `pos` on, after the entries `es`. */
  function IndexFrom(data: seq<byte>, pos: nat, end: nat, es: seq<Entry>): (r: Indexed)
    requires forall e :: e in es ==> OBJ_STRING <= e.tc <= OBJ_USERDATA
    ensures r.Indexed? ==> forall e :: e in r.entries ==> OBJ_STRING <= e.tc <= OBJ_USERDATA
    decreases end - pos
  {
    if pos >= end then Indexed(es, pos) else
    match EntryAt(data, pos, end)
    case Oob => BadIndex
    case Got(e, next) => if next <= pos then BadIndex else IndexFrom(data, next, end, es + [e])
  }

  // ------------------------------------------------------------ pointers for ids

  /** The kinds of the records, and the object created for each id; `ptr[0]` is NULL. */
  datatype Ctx = Ctx(types: seq<byte>, ptr: seq<Ref>) {
    ghost predicate Valid() {
      |ptr| == |types| + 1 && ptr[0] == NULL
    }
  }

  /** A result together with the error it may have latched. */
  datatype Res<+T> = Res(v: T, err: bool)

  const RESOLVE_ANY: nat := 0xFF
  const RESOLVE_UPVAL: nat := 0xFE

  function Resolve(c: Ctx, id: nat, expected: nat): Res<Ref>
    requires c.Valid()
  {
    if id == 0 then Res(NULL, false)
    else if id <= |c.types|
         && (c.types[id - 1] == expected || expected == RESOLVE_ANY
             || (expected == RESOLVE_UPVAL && (c.types[id - 1] == OBJ_UPVAL_OPEN || c.types[id - 1] == OBJ_UPVAL_CLOSED)))
    then Res(c.ptr[id], false)
    else Res(NULL, true)
  }

  /** The base type of the objects made for a record kind. */
  function BaseType(tc: byte): nat {
    if tc == OBJ_STRING then 4
    else if tc == OBJ_TABLE then 5
    else if tc == OBJ_LCLOSURE || tc == OBJ_CCLOSURE then 6
    else if tc == OBJ_USERDATA then 7
    else if tc == OBJ_THREAD then 8
    else if tc == OBJ_UPVAL_CLOSED || tc == OBJ_UPVAL_OPEN then 9
    else 10
  }

  /** A value of the stream. The tag must agree with the object it names. */
  function FillTv(c: Ctx, env: Env, w: WTv): Res<TValue>
    requires c.Valid()
  {
    match w
    case WInt(i) => Res(Int(i), false)
    case WFlt(n) => Res(Flt(n), false)
    case WCf(name) => if name in env.cfn then Res(LightC(env.cfn[name]), false) else Res(TValue.Nil, true)
    case WGc(tag, id) =>
      if id == 0 then Res(TValue.Nil, false)
      else if id > |c.types| || BaseType(c.types[id - 1]) != tag % 0x10 then Res(TValue.Nil, true)
      else Res(Gc(c.ptr[id]), false)
    case WTag(t) =>
      if t == TV_NIL then Res(TValue.Nil, false)
      else if t == TV_FALSE then Res(False, false)
      else if t == TV_TRUE then Res(True, false)
      else Res(TValue.Nil, true)
  }

  function FillTvs(c: Ctx, env: Env, ws: seq<WTv>): (r: Res<seq<TValue>>)
    requires c.Valid()
    ensures |r.v| == |ws|
  {
    if ws == [] then Res([], false) else
    var init := FillTvs(c, env, ws[..|ws| - 1]);
    var last := FillTv(c, env, ws[|ws| - 1]);
    Res(init.v + [last.v], init.err || last.err)
  }

  function ResolveAll(c: Ctx, ids: seq<u32>, expected: nat): (r: Res<seq<Ref>>)
    requires c.Valid()
    ensures |r.v| == |ids|
  {
    if ids == [] then Res([], false) else
    var init := ResolveAll(c, ids[..|ids| - 1], expected);
    var last := Resolve(c, ids[|ids| - 1], expected);
    Res(init.v + [last.v], init.err || last.err)
  }

  // ------------------------------------------------------------------- tables

  /** The smallest power of two that is at least `n`. */
  function CeilPow2(n: nat): (p: nat)
    ensures n <= p && p > 0
  {
    if n <= 1 then 1 else 2 * CeilPow2((n + 1) / 2)
  }

  /** The node array that a table gets when it is resized to `hsize` hash slots. */
  function NodeCount(hsize: nat): nat {
    if hsize == 0 then 0 else CeilPow2(hsize)
  }

  function BlankTable(z: TableSize): Obj {
    Table(seq(z.asize, i => Empty), seq(NodeCount(z.hsize), i => Free), NULL)
  }

  /** One array item: stored if its index is inside the array part. */
  function FillItem(c: Ctx, env: Env, arr: seq<TValue>, w: WItem): (r: Res<seq<TValue>>)
    requires c.Valid()
    ensures |r.v| == |arr|
  {
    var v := FillTv(c, env, w.val);
    Res(if w.idx < |arr| then arr[w.idx := v.v] else arr, v.err)
  }

  function FillItems(c: Ctx, env: Env, arr: seq<TValue>, ws: seq<WItem>): (r: Res<seq<TValue>>)
    requires c.Valid()
    ensures |r.v| == |arr|
  {
    if ws == [] then Res(arr, false) else
    var init := FillItems(c, env, arr, ws[..|ws| - 1]);
    var last := FillItem(c, env, init.v, ws[|ws| - 1]);
    Res(last.v, init.err || last.err)
  }

  /** The hash part being filled; `wild` is set by a store outside the node array. */
  datatype Nodes = Nodes(nodes: seq<Node>, err: bool, wild: bool)

  function FillVal(c: Ctx, env: Env, w: WTv): Res<TValue>
    requires c.Valid()
  {
    if w == WTag(TV_NIL) then Res(TValue.Nil, false)
    else if w == WTag(TV_EMPTY) then Res(Empty, false)
    else FillTv(c, env, w)
  }

  function FillKey(c: Ctx, env: Env, k: WKey): Res<Key>
    requires c.Valid()
  {
    match k
    case WDead(id) =>
      var r := Resolve(c, id, RESOLVE_ANY);
      Res(Dead(r.v), r.err)
    case WLive(w) =>
      var r := FillTv(c, env, w);
      Res(Live(r.v), r.err)
  }

  predicate ChainInside(e: nat, next: i32, hsize: nat) {
    next == 0 || 0 <= e + next < hsize
  }

  /** Slot `e` of `hsize`. A record that breaks a rule of its own latches an error
      and stores nothing. */
  function FillSlot(c: Ctx, env: Env, n: Nodes, e: nat, hsize: nat, w: WSlot): Nodes
    requires c.Valid()
  {
    match w
    case WFree => n
    case WSlot(wk, wv, next) =>
      var v := FillVal(c, env, wv);
      var k := FillKey(c, env, wk);
      if k.v.Dead? then
        if !IsNil(v.v) || !ChainInside(e, next, hsize) then n.(err := true)
        else Store(n, e, Node(k.v, v.v, next), k.err || v.err)
      else if IsNaN(k.v.value) || !ChainInside(e, next, hsize) then n.(err := true)
      else Store(n, e, Node(k.v, v.v, next), k.err || v.err)
  }

  function Store(n: Nodes, e: nat, node: Node, err: bool): Nodes {
    if e < |n.nodes| then Nodes(n.nodes[e := node], n.err || err, n.wild)
    else Nodes(n.nodes, n.err || err, true)
  }

  function FillSlots(c: Ctx, env: Env, n: Nodes, hsize: nat, ws: seq<WSlot>): (r: Nodes)
    requires c.Valid()
  {
    if ws == [] then n else
    var k := |ws| - 1;
    FillSlot(c, env, FillSlots(c, env, n, hsize, ws[..k]), k, hsize, ws[k])
  }

  /** The object of a record after its fill; `wild` marks a store out of bounds. */
  datatype Filled = Filled(obj: Obj, err: bool, wild: bool)

  function FillTable(c: Ctx, env: Env, blank: Obj, w: WTable): Filled
    requires c.Valid() && blank.Table?
  {
    var arr := FillItems(c, env, blank.arr, w.arr);
    var n := FillSlots(c, env, Nodes(blank.nodes, false, false), |w.slots|, w.slots);
    var mt := Resolve(c, w.mt, OBJ_TABLE);
    Filled(Table(arr.v, n.nodes, mt.v), arr.err || n.err || mt.err, n.wild)
  }

  // --------------------------------------------------------------- prototypes

  function FillUps(c: Ctx, ws: seq<UpvalDesc>): (r: Res<seq<UpvalDesc>>)
    requires c.Valid()
    ensures |r.v| == |ws|
  {
    if ws == [] then Res([], false) else
    var init := FillUps(c, ws[..|ws| - 1]);
    var w := ws[|ws| - 1];
    var name := Resolve(c, w.name, OBJ_STRING);
    Res(init.v + [w.(name := name.v)], init.err || name.err)
  }

  function FillVars(c: Ctx, ws: seq<LocVar>): (r: Res<seq<LocVar>>)
    requires c.Valid()
    ensures |r.v| == |ws|
  {
    if ws == [] then Res([], false) else
    var init := FillVars(c, ws[..|ws| - 1]);
    var w := ws[|ws| - 1];
    var name := Resolve(c, w.name, OBJ_STRING);
    Res(init.v + [w.(name := name.v)], init.err || name.err)
  }

  function FillProto(c: Ctx, env: Env, w: WProto): Filled
    requires c.Valid()
  {
    var k := FillTvs(c, env, w.k);
    var p := ResolveAll(c, w.p, OBJ_PROTO);
    var ups := FillUps(c, w.upvalues);
    var vars := FillVars(c, w.locvars);
    var source := Resolve(c, w.source, OBJ_STRING);
    Filled(Proto(ProtoData(w.numparams, w.flag, w.maxstack, w.code, k.v, p.v, ups.v, w.lineinfo, w.abslineinfo, vars.v,
                           source.v, w.linedefined, w.lastlinedefined)),
           k.err || p.err || ups.err || vars.err || source.err, false)
  }

  // ------------------------------------------------------------------ threads

  function FillArm(c: Ctx, env: Env, a: WArm): Res<Arm>
    requires c.Valid()
  {
    match a
    case WLua(id, pc, nextra) =>
      var p := Resolve(c, id, OBJ_PROTO);
      Res(LuaArm(p.v, if p.v == NULL then 0 else pc, nextra), p.err)
    case WC(WNoKont) => Res(CArm(0, 0, 0), false)
    case WC(WKont(name, ctx, oldErr)) =>
      if name in env.kfn then Res(CArm(env.kfn[name], ctx, oldErr), false) else Res(CArm(0, ctx, oldErr), true)
  }

  function FillFrames(c: Ctx, env: Env, ws: seq<WFrame>): (r: Res<seq<Frame>>)
    requires c.Valid()
    ensures |r.v| == |ws|
  {
    if ws == [] then Res([], false) else
    var init := FillFrames(c, env, ws[..|ws| - 1]);
    var w := ws[|ws| - 1];
    var arm := FillArm(c, env, w.arm);
    Res(init.v + [Frame(w.func, w.top, w.status, w.u2, arm.v)], init.err || arm.err)
  }

  /** The heap and a thread's list of open upvalues while it is being relinked. */
  datatype Relink = Relink(heap: seq<Cell>, open: seq<Ref>, err: bool)

  function SlotOf(h: seq<Cell>, uv: Ref): int {
    if uv < |h| && h[uv].obj.UpOpen? then h[uv].obj.slot else 0
  }

  /** Where an upvalue for `slot` goes: before the first one that is not above it. */
  function Place(h: seq<Cell>, open: seq<Ref>, slot: i32, from: nat): (i: nat)
    requires from <= |open|
    ensures from <= i <= |open|
    decreases |open| - from
  {
    if from < |open| && SlotOf(h, open[from]) > slot then Place(h, open, slot, from + 1) else from
  }

  /** Relink one upvalue. If it is in the list already, as only a forged record can ask for, it
      gets two places here, where the program's list would loop. */
  function LinkOne(c: Ctx, th: Ref, l: Relink, w: WOpen): Relink
    requires c.Valid()
  {
    var uv := Resolve(c, w.id, OBJ_UPVAL_OPEN);
    if uv.v == NULL || uv.v >= |l.heap| then l.(err := l.err || uv.err) else
    var h := l.heap[uv.v := Cell(l.heap[uv.v].objid, UpOpen(th, w.slot))];
    var i := Place(h, l.open, w.slot, 0);
    Relink(h, l.open[..i] + [uv.v] + l.open[i..], l.err)
  }

  function LinkAll(c: Ctx, th: Ref, l: Relink, ws: seq<WOpen>): (r: Relink)
    requires c.Valid()
    ensures |r.heap| == |l.heap|
  {
    if ws == [] then l else LinkOne(c, th, LinkAll(c, th, l, ws[..|ws| - 1]), ws[|ws| - 1])
  }

  // -------------------------------------------------------------- the fill passes

  /** The loader's state: the new heap, the latched error, and whether the program
      has read or written outside its buffers. */
  datatype Load = Load(heap: seq<Cell>, error: bool, undefined: bool)

  function SetObj(h: seq<Cell>, r: Ref, o: Obj): seq<Cell>
    requires r < |h|
  {
    h[r := Cell(h[r].objid, o)]
  }

  function OldOpen(o: Obj): seq<Ref> {
    if o.Thread? then o.open else []
  }

  function FillThread(c: Ctx, env: Env, l: Load, r: Ref, w: WThread): (l': Load)
    requires c.Valid() && r < |l.heap|
    ensures |l'.heap| == |l.heap|
  {
    var stack := FillTvs(c, env, w.stack);
    var frames := FillFrames(c, env, w.frames);
    var links := LinkAll(c, r, Relink(l.heap, OldOpen(l.heap[r].obj), false), w.open);
    Load(SetObj(links.heap, r, Thread(w.status, stack.v, frames.v, links.open)),
         l.error || stack.err || frames.err || links.err, l.undefined)
  }

  /** The object of a record that is neither a string, a thread nor an open upvalue. */
  function FillObj(c: Ctx, env: Env, blank: Obj, w: WObj): Filled
    requires c.Valid()
  {
    match w
    case WTab(t) => if blank.Table? then FillTable(c, env, blank, t) else Filled(blank, true, true)
    case WPro(p) => FillProto(c, env, p)
    case WLCl(p, us) =>
      var q := Resolve(c, p, OBJ_PROTO);
      var vs := ResolveAll(c, us, RESOLVE_UPVAL);
      Filled(LClosure(q.v, vs.v), q.err || vs.err, false)
    case WCCl(named, name, us) =>
      var vs := FillTvs(c, env, us);
      Filled(CClosure(Lookup(env.cfn, name, 0), vs.v), (named && name !in env.cfn) || vs.err, false)
    case WUpClosed(v) =>
      var r := FillTv(c, env, v);
      Filled(UpClosed(r.v), r.err, false)
    case WUd(payload, meta) =>
      var mt := Resolve(c, meta, OBJ_TABLE);
      Filled(Udata([], payload, mt.v), mt.err, false)
    case _ => Filled(blank, false, false)
  }

  /** Fill the object with id `id` from its record. */
  ghost function FillOne(data: seq<byte>, env: Env, es: seq<Entry>, c: Ctx, l: Load, id: nat): (l': Load)
    requires c.Valid() && 0 < id <= |es| == |c.types| && c.ptr[id] < |l.heap|
    requires OBJ_STRING <= es[id - 1].tc <= OBJ_USERDATA
    ensures |l'.heap| == |l.heap|
  {
    var e := es[id - 1];
    var r := c.ptr[id];
    match ReadObj(e.tc, data, e.off)
    case Oob => if e.tc == OBJ_USERDATA then l.(error := true) else l.(undefined := true)
    case Got(w, _) =>
      if w.WThr? then FillThread(c, env, l, r, w.th) else
      var f := FillObj(c, env, l.heap[r].obj, w);
      Load(SetObj(l.heap, r, f.obj), l.error || f.err, l.undefined || f.wild)
  }

  /** One pass over the first `k` records: those of kind `tc`, except the main thread. */
  ghost function FillPass(data: seq<byte>, env: Env, es: seq<Entry>, c: Ctx, l: Load, tc: byte, main: nat,
        k: nat): (l': Load)
    requires c.Valid() && k <= |es| == |c.types|
    requires forall i :: 0 <= i < |c.ptr| ==> c.ptr[i] < |l.heap|
    requires forall i :: 0 <= i < |es| ==> OBJ_STRING <= es[i].tc <= OBJ_USERDATA
    ensures |l'.heap| == |l.heap|
  {
    if k == 0 then l else
    var p := FillPass(data, env, es, c, l, tc, main, k - 1);
    if es[k - 1].tc == tc && k != main then FillOne(data, env, es, c, p, k) else p
  }

  /** Prototypes, closed upvalues, closures, tables, threads (the main one first)
      and userdata, in this order. */
  ghost function FillAll(data: seq<byte>, env: Env, es: seq<Entry>, c: Ctx, l: Load, main: nat): (l': Load)
    requires c.Valid() && |es| == |c.types| && main <= |es|
    requires forall i :: 0 <= i < |c.ptr| ==> c.ptr[i] < |l.heap|
    requires forall i :: 0 <= i < |es| ==> OBJ_STRING <= es[i].tc <= OBJ_USERDATA
    ensures |l'.heap| == |l.heap|
  {
    var n := |es|;
    var a := FillPass(data, env, es, c, l, OBJ_PROTO, 0, n);
    var b := FillPass(data, env, es, c, a, OBJ_UPVAL_CLOSED, 0, n);
    var d := FillPass(data, env, es, c, b, OBJ_LCLOSURE, 0, n);
    var e := FillPass(data, env, es, c, d, OBJ_CCLOSURE, 0, n);
    var f := FillPass(data, env, es, c, e, OBJ_TABLE, 0, n);
    var g := if main == 0 then f else FillOne(data, env, es, c, f, main);
    var t := FillPass(data, env, es, c, g, OBJ_THREAD, main, n);
    FillPass(data, env, es, c, t, OBJ_USERDATA, 0, n)
  }

  // ---------------------------------------------------------- the first pass

  const MAXSHORTLEN: nat := 40

  /** The address of the short string `s`, or the size of the heap. */
  function FindShort(h: seq<Cell>, s: seq<byte>, from: nat): (r: nat)
    requires from <= |h|
    ensures from <= r <= |h|
    ensures r < |h| ==> h[r].obj == Str(true, s)
    ensures r == |h| ==> forall i :: from <= i < |h| ==> h[i].obj != Str(true, s)
    decreases |h| - from
  {
    if from == |h| then from
    else if h[from].obj == Str(true, s) then from
    else FindShort(h, s, from + 1)
  }

  /** A blank object for a record. `Old(r)` is an object that exists already. */
  datatype Blank = Old(r: Ref) | New(obj: Obj) | Malformed | OutOfBounds

  /** Interned strings are shared with those already in the new state. */
  ghost function BlankFor(data: seq<byte>, h: seq<Cell>, e: Entry): (b: Blank)
    ensures b.Old? ==> b.r < |h|
  {
    if e.tc == OBJ_STRING then
      match ReadBlob(data, e.off)
      case Oob => OutOfBounds
      case Got(s, _) =>
        if |s| > MAXSHORTLEN then New(Str(false, s))
        else if |h| > 0 && FindShort(h, s, 1) < |h| then Old(FindShort(h, s, 1))
        else New(Str(true, s))
    else if e.tc == OBJ_TABLE then
      match ScanTable(data, e.off)
      case Oob => OutOfBounds
      case Got(z, _) => New(BlankTable(z))
    else if e.tc == OBJ_PROTO then
      match ScanProto(data, e.off)
      case Oob => OutOfBounds
      case Got(_, _) => New(Proto(ProtoData(0, 0, 0, [], [], [], [], [], [], [], NULL, 0, 0)))
    else if e.tc == OBJ_LCLOSURE then
      match U32(data, e.off)
      case Oob => OutOfBounds
      case Got(_, p) => if U8(data, p).Oob? then OutOfBounds else New(LClosure(NULL, []))
    else if e.tc == OBJ_CCLOSURE then
      match ReadName(data, e.off)
      case Oob => OutOfBounds
      case Got(_, p) =>
        match U8(data, p)
        case Oob => OutOfBounds
        case Got(n, p) => if ReadAll(data, p, n, SkipTv).Oob? then OutOfBounds else New(CClosure(0, []))
    else if e.tc == OBJ_USERDATA then
      match ReadUd(data, e.off)
      case Oob => Malformed
      case Got(w, _) => New(Udata([], if w.WUd? then w.payload else [], NULL))
    else if e.tc == OBJ_THREAD then New(Thread(0, [], [], []))
    else New(UpClosed(TValue.Nil))
  }

  /** The first pass: the heap, the pointers by id, and whether it stopped. */
  datatype Created = Created(heap: seq<Cell>, ptr: seq<Ref>, failed: bool, undefined: bool)

  /** The blank objects of the first `k` records. The main thread exists already. */
  ghost function CreateAll(data: seq<byte>, base: State, es: seq<Entry>, main: nat, k: nat): (p: Created)
    requires k <= |es| && base.main < |base.heap|
    ensures |p.ptr| == k + 1 && p.ptr[0] == NULL && |base.heap| <= |p.heap|
    ensures forall i :: 0 <= i <= k ==> p.ptr[i] < |p.heap|
  {
    if k == 0 then Created(base.heap, [NULL], false, false) else
    var p := CreateAll(data, base, es, main, k - 1);
    if p.failed || p.undefined then p.(ptr := p.ptr + [NULL])
    else if k == main then p.(ptr := p.ptr + [base.main])
    else
      match BlankFor(data, p.heap, es[k - 1])
      case Old(r) => p.(ptr := p.ptr + [r])
      case New(o) => Created(p.heap + [Cell(0, o)], p.ptr + [|p.heap|], false, false)
      case Malformed => Created(p.heap, p.ptr + [NULL], true, false)
      case OutOfBounds => Created(p.heap, p.ptr + [NULL], false, true)
  }

  /** Give the first `k` objects their saved object ids. */
  function SetObjids(h: seq<Cell>, es: seq<Entry>, ptr: seq<Ref>, k: nat): (h': seq<Cell>)
    requires k <= |es| && |ptr| == |es| + 1
    ensures |h'| == |h|
    ensures forall r :: 0 <= r < |h| ==> h'[r].obj == h[r].obj
  {
    if k == 0 then h else
    var g := SetObjids(h, es, ptr, k - 1);
    var r := ptr[k];
    if r == NULL || r >= |h| then g else g[r := Cell(es[k - 1].objid, g[r].obj)]
  }

  // ----------------------------------------------------------------- the load

  datatype Outcome =
    | Loaded(state: State, ptr: seq<Ref>)
    | Failed
    | Undefined

  datatype Roots = Roots(registry: nat, main: nat, mt: seq<u32>)

  ghost function ReadRoots(data: seq<byte>, pos: nat): (r: Parsed<Roots>)
    ensures r.Got? ==> |r.value.mt| == NUMTYPES
  {
    var (registry, p) :- U32(data, pos);
    var (main, p) :- U32(data, p);
    var (mt, p) :- ReadAll(data, p, NUMTYPES, U32);
    Got(Roots(registry, main, mt), p)
  }

  /** The objects of an indexed buffer, and then its roots. */
  ghost function Relinked(data: seq<byte>, env: Env, base: State, es: seq<Entry>, roots: Roots): Outcome
    requires forall e :: e in es ==> OBJ_STRING <= e.tc <= OBJ_USERDATA
    requires roots.main <= |es| && base.main < |base.heap|
  {
    var p := CreateAll(data, base, es, roots.main, |es|);
    if p.undefined then Undefined
    else if p.failed then Failed
    else
      var c := Ctx(seq(|es|, i requires 0 <= i < |es| => es[i].tc), p.ptr);
      var h := SetObjids(p.heap, es, p.ptr, |es|);
      var l := FillAll(data, env, es, c, Load(h, false, false), roots.main);
      var registry := Resolve(c, roots.registry, OBJ_TABLE);
      var mts := ResolveAll(c, roots.mt, OBJ_TABLE);
      if l.undefined then Undefined
      else if l.error || registry.err || mts.err then Failed
      else
        Loaded(State(l.heap, if registry.v == NULL then base.registry else registry.v, base.main, mts.v, 0, 0), p.ptr)
  }

  /** What a load makes of a buffer, given the base state it starts from. */
  ghost function LoadState(data: seq<byte>, env: Env, base: State): Outcome
    requires base.main < |base.heap|
  {
    if |data| < HEADER + FOOTER then Failed else
    match IndexFrom(data, HEADER, |data| - FOOTER, [])
    case BadIndex => Failed
    case Indexed(es, pos) =>
      match ReadRoots(data, pos)
      case Oob => Failed
      case Got(roots, _) =>
        if roots.main != 0 && (roots.main > |es| || es[roots.main - 1].tc != OBJ_THREAD) then Failed
        else
          match Relinked(data, env, base, es, roots)
          case Loaded(st, ptr) => Loaded(st.(seed := UnLe(data[8..12]) % 0x1_0000_0000, nextSeq := UnLe(data[..8]) % SIZE_MAX1), ptr)
          case other => other
  }
}
