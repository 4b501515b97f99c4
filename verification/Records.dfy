// All nine kinds of snapshot records, written and read back.
module Records {
  import opened Bytes
  import opened Heap
  import opened Wire
  import opened TableRecords
  import opened ProtoRecords

  datatype WObj =
    | WStr(s: seq<byte>)
    | WTab(t: WTable)
    | WPro(p: WProto)
    | WLCl(proto: u32, upvals: seq<u32>)
    | WCCl(named: bool, name: seq<byte>, ups: seq<WTv>)
    | WUpClosed(v: WTv)
    | WUpOpen
    | WThr(th: WThread)
    | WUd(payload: seq<byte>, meta: u32)


  // ------------------------------------------------- strings and userdata

  function EncBlob(b: seq<byte>): seq<byte> {
    Le(|b|, 4) + b
  }

  function ReadBlob(data: seq<byte>, pos: nat): Parsed<seq<byte>> {
    var (n, p) :- U32(data, pos);
    Blob(data, p, n)
  }

  lemma ReadsBlob(data: seq<byte>, pos: nat, b: seq<byte>)
    requires |b| < 0x1_0000_0000 && At(data, pos, EncBlob(b))
    ensures ReadBlob(data, pos) == Got(b, pos + 4 + |b|)
  {
    AtSplit(data, pos, Le(|b|, 4), b);
    ReadsU32(data, pos, |b|);
  }

  // ----------------------------------------------------------------- closures

  ghost function EncLClosure(proto: u32, ups: seq<u32>): seq<byte> {
    Le(proto, 4) + ([|ups| % 0x100] + EncAll(ups, EncU32))
  }

  ghost function ReadLClosure(data: seq<byte>, pos: nat): Parsed<WObj> {
    var (proto, p) :- U32(data, pos);
    var (n, p) :- U8(data, p);
    var (ups, p) :- ReadAll(data, p, n, U32);
    Got(WLCl(proto, ups), p)
  }

  lemma ReadsLClosure(data: seq<byte>, pos: nat, proto: u32, ups: seq<u32>)
    requires |ups| < 0x100 && At(data, pos, EncLClosure(proto, ups))
    ensures ReadLClosure(data, pos) == Got(WLCl(proto, ups), pos + |EncLClosure(proto, ups)|)
  {
    hide ReadAll, EncAll, Inverts, Le;
    AtSplit(data, pos, Le(proto, 4), [|ups|] + EncAll(ups, EncU32));
    AtSplit(data, pos + 4, [|ups|], EncAll(ups, EncU32));
    ReadsU32(data, pos, proto);
    assert data[pos + 4..pos + 5][0] == |ups|;
    U32Inverts(ups);
    ReadAllInverts(ups, data, pos + 5, EncU32, U32);
  }

  /** The name of a C function: the tag byte, then its length and its text. */
  function EncName(name: seq<byte>): seq<byte> {
    [CFUNC_TAG] + (Le(|name|, 2) + name)
  }

  ghost function EncCClosure(name: seq<byte>, ups: seq<WTv>): seq<byte> {
    EncName(name) + ([|ups| % 0x100] + EncAll(ups, EncTv))
  }

  datatype WName = WName(named: bool, name: seq<byte>)

  function ReadName(data: seq<byte>, pos: nat): Parsed<WName> {
    var (t, p) :- U8(data, pos);
    if t == CFUNC_TAG then
      var (n, p) :- U16(data, p);
      var (name, p) :- Blob(data, p, n);
      Got(WName(true, name), p)
    else
      Got(WName(false, []), p)
  }

  ghost function ReadCClosure(data: seq<byte>, pos: nat): Parsed<WObj> {
    var (nm, p) :- ReadName(data, pos);
    var (n, p) :- U8(data, p);
    var (ups, p) :- ReadAll(data, p, n, ReadTv);
    Got(WCCl(nm.named, nm.name, ups), p)
  }

  lemma ReadsName(data: seq<byte>, pos: nat, name: seq<byte>)
    requires |name| < 0x1_0000 && At(data, pos, EncName(name))
    ensures ReadName(data, pos) == Got(WName(true, name), pos + |EncName(name)|)
  {
    AtSplit(data, pos, [CFUNC_TAG], Le(|name|, 2) + name);
    AtSplit(data, pos + 1, Le(|name|, 2), name);
    assert data[pos..pos + 1][0] == CFUNC_TAG;
    ReadsU16(data, pos + 1, |name|);
  }

  lemma ReadsCClosure(data: seq<byte>, pos: nat, name: seq<byte>, ups: seq<WTv>)
    requires |name| < 0x1_0000 && |ups| < 0x100 && (forall v :: v in ups ==> ValidTv(v))
    requires At(data, pos, EncCClosure(name, ups))
    ensures ReadCClosure(data, pos) == Got(WCCl(true, name, ups), pos + |EncCClosure(name, ups)|)
  {
    hide ReadAll, EncAll, Inverts, EncName, ReadName, ReadTv, EncTv;
    var p := pos + |EncName(name)|;
    AtSplit(data, pos, EncName(name), [|ups|] + EncAll(ups, EncTv));
    AtSplit(data, p, [|ups|], EncAll(ups, EncTv));
    ReadsName(data, pos, name);
    assert data[p..p + 1][0] == |ups|;
    TvsInvert(ups);
    ReadAllInverts(ups, data, p + 1, EncTv, ReadTv);
  }

  // ------------------------------------------------------------------ threads

  function EncKont(k: WKont): seq<byte> {
    match k
    case WNoKont => [0]
    case WKont(name, ctx, oldErr) => [1] + (Le(|name|, 2) + (name + (Le(ctx, 8) + Le(oldErr, 8))))
  }

  function EncArm(a: WArm): seq<byte> {
    match a
    case WLua(proto, pc, nextra) => Le(proto, 4) + (EncI32(pc) + EncI32(nextra))
    case WC(k) => EncKont(k)
  }

  function EncFrame(f: WFrame): seq<byte> {
    [if f.arm.WLua? then 1 else 0] + (EncI32(f.func) + (EncI32(f.top) + (Le(f.status, 4) + (EncI32(f.u2) + EncArm(f.arm)))))
  }

  function EncOpen(o: WOpen): seq<byte> {
    Le(o.id, 4) + EncI32(o.slot)
  }

  ghost function EncThread(t: WThread): seq<byte> {
    [t.status] + (EncCounted(t.stack, EncTv) + (EncCounted(t.frames, EncFrame) + EncCounted(t.open, EncOpen)))
  }

  function ReadKont(data: seq<byte>, pos: nat): (r: Parsed<WKont>)
    ensures r.Got? ==> pos < r.next <= |data|
  {
    var (has, p) :- U8(data, pos);
    if has == 0 then Got(WNoKont, p) else
    var (n, p) :- U16(data, p);
    var (name, p) :- Blob(data, p, n);
    var (ctx, p) :- U64(data, p);
    var (oldErr, p) :- U64(data, p);
    Got(WKont(name, ctx, oldErr), p)
  }

  function ReadArm(data: seq<byte>, pos: nat, lua: bool): (r: Parsed<WArm>)
    ensures r.Got? ==> pos < r.next <= |data|
  {
    if lua then
      var (proto, p) :- U32(data, pos);
      var (pc, p) :- I32(data, p);
      var (nextra, p) :- I32(data, p);
      Got(WLua(proto, pc, nextra), p)
    else
      var (k, p) :- ReadKont(data, pos);
      Got(WC(k), p)
  }

  function ReadFrame(data: seq<byte>, pos: nat): (r: Parsed<WFrame>)
    ensures r.Got? ==> pos < r.next <= |data|
  {
    var (lua, p) :- U8(data, pos);
    var (func, p) :- I32(data, p);
    var (top, p) :- I32(data, p);
    var (status, p) :- U32(data, p);
    var (u2, p) :- I32(data, p);
    var (arm, p) :- ReadArm(data, p, lua != 0);
    Got(WFrame(func, top, status, u2, arm), p)
  }

  function ReadOpen(data: seq<byte>, pos: nat): (r: Parsed<WOpen>)
    ensures r.Got? ==> r.next == pos + 8 <= |data|
  {
    var (id, p) :- U32(data, pos);
    var (slot, p) :- I32(data, p);
    Got(WOpen(id, slot), p)
  }

  ghost function ReadThread(data: seq<byte>, pos: nat): Parsed<WThread> {
    var (status, p) :- U8(data, pos);
    var (stack, p) :- ReadCounted(data, p, ReadTv);
    var (frames, p) :- ReadCounted(data, p, ReadFrame);
    var (open, p) :- ReadCounted(data, p, ReadOpen);
    Got(WThread(status, stack, frames, open), p)
  }

  predicate ValidFrame(f: WFrame) {
    f.arm.WC? && f.arm.kont.WKont? ==> |f.arm.kont.name| < 0x1_0000
  }

  ghost predicate ValidThread(t: WThread) {
    && |t.stack| < 0x8000_0000 && |t.frames| < 0x8000_0000 && |t.open| < 0x8000_0000
    && (forall v :: v in t.stack ==> ValidTv(v))
    && (forall f :: f in t.frames ==> ValidFrame(f))
  }

  lemma ReadsKont(data: seq<byte>, pos: nat, k: WKont)
    requires k.WKont? ==> |k.name| < 0x1_0000
    requires At(data, pos, EncKont(k))
    ensures ReadKont(data, pos) == Got(k, pos + |EncKont(k)|)
  {
    match k
    case WNoKont =>
      assert data[pos..pos + 1][0] == 0;
    case WKont(name, ctx, oldErr) =>
      hide Le;
      var p := pos + 3 + |name|;
      AtSplit(data, pos, [1], Le(|name|, 2) + (name + (Le(ctx, 8) + Le(oldErr, 8))));
      AtSplit(data, pos + 1, Le(|name|, 2), name + (Le(ctx, 8) + Le(oldErr, 8)));
      AtSplit(data, pos + 3, name, Le(ctx, 8) + Le(oldErr, 8));
      AtSplit(data, p, Le(ctx, 8), Le(oldErr, 8));
      assert data[pos..pos + 1][0] == 1;
      ReadsU16(data, pos + 1, |name|);
      assert Blob(data, pos + 3, |name|) == Got(name, p);
      ReadsU64(data, p, ctx);
      ReadsU64(data, p + 8, oldErr);
  }

  lemma ReadsArm(data: seq<byte>, pos: nat, a: WArm)
    requires a.WC? && a.kont.WKont? ==> |a.kont.name| < 0x1_0000
    requires At(data, pos, EncArm(a))
    ensures ReadArm(data, pos, a.WLua?) == Got(a, pos + |EncArm(a)|)
  {
    match a
    case WLua(proto, pc, nextra) =>
      hide At, Le;
      AtSplit(data, pos, Le(proto, 4), EncI32(pc) + EncI32(nextra));
      AtSplit(data, pos + 4, EncI32(pc), EncI32(nextra));
      ReadsU32(data, pos, proto);
      ReadsI32(data, pos + 4, pc);
      ReadsI32(data, pos + 8, nextra);
    case WC(k) =>
      ReadsKont(data, pos, k);
  }

  lemma ReadsFrame(data: seq<byte>, pos: nat, f: WFrame)
    requires ValidFrame(f) && At(data, pos, EncFrame(f))
    ensures ReadFrame(data, pos) == Got(f, pos + |EncFrame(f)|)
  {
    var lua: byte := if f.arm.WLua? then 1 else 0;
    var e := EncArm(f.arm);
    AtSplit(data, pos, [lua], EncI32(f.func) + (EncI32(f.top) + (Le(f.status, 4) + (EncI32(f.u2) + e))));
    assert data[pos..pos + 1][0] == lua;
    hide At, Le, EncArm, ReadArm;
    AtSplit(data, pos + 1, EncI32(f.func), EncI32(f.top) + (Le(f.status, 4) + (EncI32(f.u2) + e)));
    AtSplit(data, pos + 5, EncI32(f.top), Le(f.status, 4) + (EncI32(f.u2) + e));
    AtSplit(data, pos + 9, Le(f.status, 4), EncI32(f.u2) + e);
    AtSplit(data, pos + 13, EncI32(f.u2), e);
    ReadsI32(data, pos + 1, f.func);
    ReadsI32(data, pos + 5, f.top);
    ReadsU32(data, pos + 9, f.status);
    ReadsI32(data, pos + 13, f.u2);
    ReadsArm(data, pos + 17, f.arm);
  }

  lemma FramesInvert(xs: seq<WFrame>)
    requires forall f :: f in xs ==> ValidFrame(f)
    ensures Inverts(xs, EncFrame, ReadFrame)
  {
    forall x, data: seq<byte>, pos: nat | x in xs && At(data, pos, EncFrame(x))
      ensures ReadFrame(data, pos) == Got(x, pos + |EncFrame(x)|)
    {
      ReadsFrame(data, pos, x);
    }
  }

  lemma OpensInvert(xs: seq<WOpen>)
    ensures Inverts(xs, EncOpen, ReadOpen)
  {
    forall x, data: seq<byte>, pos: nat | x in xs && At(data, pos, EncOpen(x))
      ensures ReadOpen(data, pos) == Got(x, pos + |EncOpen(x)|)
    {
      AtSplit(data, pos, Le(x.id, 4), EncI32(x.slot));
      ReadsU32(data, pos, x.id);
      ReadsI32(data, pos + 4, x.slot);
    }
  }

  lemma ThreadLists(data: seq<byte>, p: nat, t: WThread)
    requires ValidThread(t)
    requires At(data, p, EncCounted(t.stack, EncTv) + (EncCounted(t.frames, EncFrame) + EncCounted(t.open, EncOpen)))
    ensures var q := p + |EncCounted(t.stack, EncTv)|;
            var r := q + |EncCounted(t.frames, EncFrame)|;
            && ReadCounted(data, p, ReadTv) == Got(t.stack, q)
            && ReadCounted(data, q, ReadFrame) == Got(t.frames, r)
            && ReadCounted(data, r, ReadOpen) == Got(t.open, r + |EncCounted(t.open, EncOpen)|)
  {
    hide At, Inverts, EncCounted, ReadCounted, ValidTv, ValidFrame;
    hide EncTv, ReadTv, EncFrame, ReadFrame, EncOpen, ReadOpen;
    var a, b, c := EncCounted(t.stack, EncTv), EncCounted(t.frames, EncFrame), EncCounted(t.open, EncOpen);
    var q := p + |a|;
    var r := q + |b|;
    AtSplit(data, p, a, b + c);
    AtSplit(data, q, b, c);
    TvsInvert(t.stack);
    ReadsCounted(data, p, t.stack, EncTv, ReadTv);
    FramesInvert(t.frames);
    ReadsCounted(data, q, t.frames, EncFrame, ReadFrame);
    OpensInvert(t.open);
    ReadsCounted(data, r, t.open, EncOpen, ReadOpen);
  }

  lemma ReadsByte(data: seq<byte>, pos: nat, x: byte)
    requires At(data, pos, [x])
    ensures U8(data, pos) == Got(x, pos + 1)
  {
    assert data[pos..pos + 1][0] == x;
  }

  lemma ReadsThread(data: seq<byte>, pos: nat, t: WThread)
    requires ValidThread(t) && At(data, pos, EncThread(t))
    ensures ReadThread(data, pos) == Got(t, pos + |EncThread(t)|)
  {
    hide At, EncCounted, ReadCounted, ValidThread, U8;
    var lists := EncCounted(t.stack, EncTv) + (EncCounted(t.frames, EncFrame) + EncCounted(t.open, EncOpen));
    AtSplit(data, pos, [t.status], lists);
    ReadsByte(data, pos, t.status);
    ThreadLists(data, pos + 1, t);
    assert |EncThread(t)| == 1 + |lists|;
  }

  ghost function EncUd(payload: seq<byte>, meta: u32): seq<byte> {
    EncBlob(payload) + Le(meta, 4)
  }

  ghost function ReadUd(data: seq<byte>, pos: nat): Parsed<WObj> {
    var (payload, p) :- ReadBlob(data, pos);
    var (meta, p) :- U32(data, p);
    Got(WUd(payload, meta), p)
  }

  // ------------------------------------------------------------- any record

  const OBJ_STRING: byte := 1
  const OBJ_TABLE: byte := 2
  const OBJ_PROTO: byte := 3
  const OBJ_LCLOSURE: byte := 4
  const OBJ_UPVAL_CLOSED: byte := 5
  const OBJ_UPVAL_OPEN: byte := 6
  const OBJ_THREAD: byte := 7
  const OBJ_CCLOSURE: byte := 8
  const OBJ_USERDATA: byte := 9

  function Code(w: WObj): (c: byte)
    ensures OBJ_STRING <= c <= OBJ_USERDATA
  {
    match w
    case WStr(_) => OBJ_STRING
    case WTab(_) => OBJ_TABLE
    case WPro(_) => OBJ_PROTO
    case WLCl(_, _) => OBJ_LCLOSURE
    case WCCl(_, _, _) => OBJ_CCLOSURE
    case WUpClosed(_) => OBJ_UPVAL_CLOSED
    case WUpOpen => OBJ_UPVAL_OPEN
    case WThr(_) => OBJ_THREAD
    case WUd(_, _) => OBJ_USERDATA
  }

  ghost function EncObj(w: WObj): seq<byte> {
    match w
    case WStr(s) => EncBlob(s)
    case WTab(t) => EncTable(t)
    case WPro(p) => EncProto(p)
    case WLCl(p, us) => EncLClosure(p, us)
    case WCCl(_, name, us) => EncCClosure(name, us)
    case WUpClosed(v) => EncTv(v)
    case WUpOpen => []
    case WThr(t) => EncThread(t)
    case WUd(b, m) => EncUd(b, m)
  }

  /** What the save side can produce within the widths of its length fields. */
  ghost predicate ValidObj(w: WObj) {
    match w
    case WStr(s) => |s| < 0x1_0000_0000
    case WTab(t) => ValidTable(t)
    case WPro(p) => ValidProto(p)
    case WLCl(_, us) => |us| < 0x100
    case WCCl(named, name, us) => named && |name| < 0x1_0000 && |us| < 0x100 && (forall v :: v in us ==> ValidTv(v))
    case WUpClosed(v) => ValidTv(v)
    case WUpOpen => true
    case WThr(t) => ValidThread(t)
    case WUd(b, _) => |b| < 0x1_0000_0000
  }

  /** What the two passes together get out of a record of kind `tc`. */
  ghost function ReadObj(tc: byte, data: seq<byte>, pos: nat): Parsed<WObj>
    requires OBJ_STRING <= tc <= OBJ_USERDATA
  {
    if tc == OBJ_STRING then
      var (s, p) :- ReadBlob(data, pos);
      Got(WStr(s), p)
    else if tc == OBJ_TABLE then
      var (t, p) :- ReadTable(data, pos);
      Got(WTab(t), p)
    else if tc == OBJ_PROTO then
      var (scan, _) :- ScanProto(data, pos);
      var (w, p) :- ReadProto(data, pos, scan.size);
      Got(WPro(w), p)
    else if tc == OBJ_LCLOSURE then ReadLClosure(data, pos)
    else if tc == OBJ_CCLOSURE then ReadCClosure(data, pos)
    else if tc == OBJ_UPVAL_CLOSED then
      var (v, p) :- ReadTv(data, pos);
      Got(WUpClosed(v), p)
    else if tc == OBJ_UPVAL_OPEN then Got(WUpOpen, pos)
    else if tc == OBJ_THREAD then
      var (t, p) :- ReadThread(data, pos);
      Got(WThr(t), p)
    else ReadUd(data, pos)
  }

  /** A constant is never a removed key. */
  ghost predicate PlainObj(w: WObj) {
    match w
    case WTab(t) => PlainTable(t)
    case WPro(p) => WTag(TV_DEADKEY) !in p.k
    case _ => true
  }

  /** Every record that can be written is read back as it was, byte for byte. */
  lemma ReadsObj(data: seq<byte>, pos: nat, w: WObj)
    requires ValidObj(w) && PlainObj(w) && At(data, pos, EncObj(w))
    ensures ReadObj(Code(w), data, pos) == Got(w, pos + |EncObj(w)|)
  {
    hide At, EncTable, ReadTable, EncProto, ReadProto, ScanProto, EncTv, ReadTv, EncThread, ReadThread;
    hide ReadBlob, EncLClosure, ReadLClosure, EncCClosure, ReadCClosure, ValidTable, ValidProto, ValidThread;
    match w
    case WStr(s) => ReadsBlob(data, pos, s);
    case WTab(t) => ReadsTable(data, pos, t);
    case WPro(p) =>
      ReadsProto(data, pos, p);
      ProtoScans(data, pos, p);
    case WLCl(p, us) => ReadsLClosure(data, pos, p, us);
    case WCCl(_, name, us) => ReadsCClosure(data, pos, name, us);
    case WUpClosed(v) => ReadsTv(data, pos, v);
    case WUpOpen =>
    case WThr(t) => ReadsThread(data, pos, t);
    case WUd(b, m) =>
      AtSplit(data, pos, EncBlob(b), Le(m, 4));
      ReadsBlob(data, pos, b);
      ReadsU32(data, pos + |EncBlob(b)|, m);
      assert |EncBlob(b)| == 4 + |b|;
  }
}
