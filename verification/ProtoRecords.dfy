// Function prototype records, and the agreement of the two passes over them.
module ProtoRecords {
  import opened Bytes
  import opened Heap
  import opened Wire

  function EncUp(u: UpvalDesc): seq<byte> {
    Le(u.name, 4) + [u.instack, u.idx, u.kind]
  }

  function EncAbs(a: AbsLine): seq<byte> {
    EncI32(a.pc) + EncI32(a.line)
  }

  function EncVar(l: LocVar): seq<byte> {
    Le(l.name, 4) + (EncI32(l.startpc) + EncI32(l.endpc))
  }

  function ReadUp(data: seq<byte>, pos: nat): (r: Parsed<UpvalDesc>)
    ensures r.Got? ==> r.next == pos + 7 <= |data|
  {
    var (name, p) :- U32(data, pos);
    var (instack, p) :- U8(data, p);
    var (idx, p) :- U8(data, p);
    var (kind, p) :- U8(data, p);
    Got(UpvalDesc(name, instack, idx, kind), p)
  }

  function ReadAbs(data: seq<byte>, pos: nat): (r: Parsed<AbsLine>)
    ensures r.Got? ==> r.next == pos + 8 <= |data|
  {
    var (pc, p) :- I32(data, pos);
    var (line, p) :- I32(data, p);
    Got(AbsLine(pc, line), p)
  }

  function ReadVar(data: seq<byte>, pos: nat): (r: Parsed<LocVar>)
    ensures r.Got? ==> r.next == pos + 12 <= |data|
  {
    var (name, p) :- U32(data, pos);
    var (startpc, p) :- I32(data, p);
    var (endpc, p) :- I32(data, p);
    Got(LocVar(name, startpc, endpc), p)
  }

  lemma UpsInvert(xs: seq<UpvalDesc>)
    requires forall u :: u in xs ==> u.name < 0x1_0000_0000
    ensures Inverts(xs, EncUp, ReadUp)
  {
    forall x, data: seq<byte>, pos: nat | x in xs && At(data, pos, EncUp(x))
      ensures ReadUp(data, pos) == Got(x, pos + |EncUp(x)|)
    {
      var rest := [x.instack, x.idx, x.kind];
      AtSplit(data, pos, Le(x.name, 4), rest);
      ReadsU32(data, pos, x.name);
      assert data[pos + 4..pos + 7][0] == rest[0] && data[pos + 4..pos + 7][1] == rest[1] && data[pos + 4..pos + 7][2] == rest[2];
    }
  }

  lemma AbsInvert(xs: seq<AbsLine>)
    ensures Inverts(xs, EncAbs, ReadAbs)
  {
    forall x, data: seq<byte>, pos: nat | x in xs && At(data, pos, EncAbs(x))
      ensures ReadAbs(data, pos) == Got(x, pos + |EncAbs(x)|)
    {
      AtSplit(data, pos, EncI32(x.pc), EncI32(x.line));
      ReadsI32(data, pos, x.pc);
      ReadsI32(data, pos + 4, x.line);
    }
  }

  lemma VarsInvert(xs: seq<LocVar>)
    requires forall l :: l in xs ==> l.name < 0x1_0000_0000
    ensures Inverts(xs, EncVar, ReadVar)
  {
    forall x, data: seq<byte>, pos: nat | x in xs && At(data, pos, EncVar(x))
      ensures ReadVar(data, pos) == Got(x, pos + |EncVar(x)|)
    {
      AtSplit(data, pos, Le(x.name, 4), EncI32(x.startpc) + EncI32(x.endpc));
      AtSplit(data, pos + 4, EncI32(x.startpc), EncI32(x.endpc));
      ReadsU32(data, pos, x.name);
      ReadsI32(data, pos + 4, x.startpc);
      ReadsI32(data, pos + 8, x.endpc);
    }
  }

  /** Flag bytes, code, constants and nested prototypes. */
  ghost function EncFront(w: WProto): seq<byte> {
    [w.numparams, w.flag, w.maxstack] + (EncCounted(w.code, EncU32) + (EncCounted(w.k, EncTv) + EncCounted(w.p, EncU32)))
  }

  /** Upvalue descriptions and debug information. */
  ghost function EncBack(w: WProto): seq<byte> {
    EncCounted(w.upvalues, EncUp) + (EncCounted(w.lineinfo, EncByte) + (EncCounted(w.abslineinfo, EncAbs) + EncCounted(w.locvars, EncVar)))
  }

  function EncLast(w: WProto): seq<byte> {
    Le(w.source, 4) + (EncI32(w.linedefined) + EncI32(w.lastlinedefined))
  }

  ghost function EncProto(w: WProto): seq<byte> {
    EncFront(w) + (EncBack(w) + EncLast(w))
  }

  /** The sizes that the first pass takes from a prototype's record. */
  datatype ProtoSize = ProtoSize(code: nat, k: nat, p: nat, upvalues: nat, lineinfo: nat, abslineinfo: nat)

  function SizeOf(w: WProto): ProtoSize {
    ProtoSize(|w.code|, |w.k|, |w.p|, |w.upvalues|, |w.lineinfo|, |w.abslineinfo|)
  }

  datatype Front = Front(numparams: byte, flag: byte, maxstack: byte, code: seq<u32>, k: seq<WTv>, p: seq<u32>)

  datatype Back = Back(upvalues: seq<UpvalDesc>, lineinfo: seq<byte>, abslineinfo: seq<AbsLine>)

  datatype Last = Last(source: u32, linedefined: i32, lastlinedefined: i32)

  ghost function ReadFront(data: seq<byte>, pos: nat, z: ProtoSize): Parsed<Front> {
    var (numparams, q) :- U8(data, pos);
    var (flag, q) :- U8(data, q);
    var (maxstack, q) :- U8(data, q);
    var (code, q) :- ReadSized(data, q, z.code, U32);
    var (k, q) :- ReadSized(data, q, z.k, ReadTv);
    var (p, q) :- ReadSized(data, q, z.p, U32);
    Got(Front(numparams, flag, maxstack, code, k, p), q)
  }

  ghost function ReadBack(data: seq<byte>, pos: nat, z: ProtoSize): Parsed<Back> {
    var (ups, q) :- ReadSized(data, pos, z.upvalues, ReadUp);
    var (lineinfo, q) :- ReadSized(data, q, z.lineinfo, U8);
    var (abs, q) :- ReadSized(data, q, z.abslineinfo, ReadAbs);
    Got(Back(ups, lineinfo, abs), q)
  }

  function ReadLast(data: seq<byte>, pos: nat): Parsed<Last> {
    var (source, q) :- U32(data, pos);
    var (linedefined, q) :- I32(data, q);
    var (lastlinedefined, q) :- I32(data, q);
    Got(Last(source, linedefined, lastlinedefined), q)
  }

  function MakeProto(f: Front, b: Back, vars: seq<LocVar>, l: Last): WProto {
    WProto(f.numparams, f.flag, f.maxstack, f.code, f.k, f.p, b.upvalues, b.lineinfo, b.abslineinfo, vars,
           l.source, l.linedefined, l.lastlinedefined)
  }

  /** The fill pass reads a prototype whose arrays the first pass has sized. Only
      the number of local variables is taken from the record here. */
  ghost function ReadProto(data: seq<byte>, pos: nat, z: ProtoSize): Parsed<WProto> {
    var (f, q) :- ReadFront(data, pos, z);
    var (b, q) :- ReadBack(data, q, z);
    var (vars, q) :- ReadCounted(data, q, ReadVar);
    var (l, q) :- ReadLast(data, q);
    Got(MakeProto(f, b, vars, l), q)
  }

  ghost function ReadFrontAlone(data: seq<byte>, pos: nat): Parsed<Front> {
    var (numparams, q) :- U8(data, pos);
    var (flag, q) :- U8(data, q);
    var (maxstack, q) :- U8(data, q);
    var (code, q) :- ReadCounted(data, q, U32);
    var (k, q) :- ReadCounted(data, q, ReadTv);
    var (p, q) :- ReadCounted(data, q, U32);
    Got(Front(numparams, flag, maxstack, code, k, p), q)
  }

  ghost function ReadBackAlone(data: seq<byte>, pos: nat): Parsed<Back> {
    var (ups, q) :- ReadCounted(data, pos, ReadUp);
    var (lineinfo, q) :- ReadCounted(data, q, U8);
    var (abs, q) :- ReadCounted(data, q, ReadAbs);
    Got(Back(ups, lineinfo, abs), q)
  }

  /** The same record read with every list sized by its own count. */
  ghost function ReadProtoAlone(data: seq<byte>, pos: nat): Parsed<WProto> {
    var (f, q) :- ReadFrontAlone(data, pos);
    var (b, q) :- ReadBackAlone(data, q);
    var (vars, q) :- ReadCounted(data, q, ReadVar);
    var (l, q) :- ReadLast(data, q);
    Got(MakeProto(f, b, vars, l), q)
  }

  ghost predicate ValidProto(w: WProto) {
    && |w.code| < 0x8000_0000 && |w.k| < 0x8000_0000 && |w.p| < 0x8000_0000 && |w.upvalues| < 0x8000_0000
    && |w.lineinfo| < 0x8000_0000 && |w.abslineinfo| < 0x8000_0000 && |w.locvars| < 0x8000_0000
    && (forall v :: v in w.k ==> ValidTv(v))
    && (forall u :: u in w.upvalues ==> u.name < 0x1_0000_0000)
    && (forall l :: l in w.locvars ==> l.name < 0x1_0000_0000)
  }

  /** The three lists of the front part, whichever way they are sized. */
  lemma FrontLists(data: seq<byte>, p: nat, w: WProto)
    requires ValidProto(w)
    requires At(data, p, EncCounted(w.code, EncU32) + (EncCounted(w.k, EncTv) + EncCounted(w.p, EncU32)))
    ensures var q := p + |EncCounted(w.code, EncU32)|;
            var r := q + |EncCounted(w.k, EncTv)|;
            && ReadCounted(data, p, U32) == ReadSized(data, p, |w.code|, U32) == Got(w.code, q)
            && ReadCounted(data, q, ReadTv) == ReadSized(data, q, |w.k|, ReadTv) == Got(w.k, r)
            && ReadCounted(data, r, U32) == ReadSized(data, r, |w.p|, U32) == Got(w.p, r + |EncCounted(w.p, EncU32)|)
  {
    hide At, Inverts, EncCounted, ReadSized, ReadCounted, Le, U32;
    var a, b, c := EncCounted(w.code, EncU32), EncCounted(w.k, EncTv), EncCounted(w.p, EncU32);
    var q := p + |a|;
    var r := q + |b|;
    AtSplit(data, p, a, b + c);
    AtSplit(data, q, b, c);
    U32Inverts(w.code);
    ReadsCounted(data, p, w.code, EncU32, U32);
    TvsInvert(w.k);
    ReadsCounted(data, q, w.k, EncTv, ReadTv);
    U32Inverts(w.p);
    ReadsCounted(data, r, w.p, EncU32, U32);
  }

  lemma ReadsFront(data: seq<byte>, pos: nat, w: WProto)
    requires ValidProto(w) && At(data, pos, EncFront(w))
    ensures ReadFront(data, pos, SizeOf(w))
         == ReadFrontAlone(data, pos)
         == Got(Front(w.numparams, w.flag, w.maxstack, w.code, w.k, w.p), pos + |EncFront(w)|)
  {
    hide At, EncCounted, ReadSized, ReadCounted, ValidProto, U8;
    var lists := EncCounted(w.code, EncU32) + (EncCounted(w.k, EncTv) + EncCounted(w.p, EncU32));
    AtSplit(data, pos, [w.numparams, w.flag, w.maxstack], lists);
    ReadsThree(data, pos, w.numparams, w.flag, w.maxstack);
    FrontLists(data, pos + 3, w);
    assert |EncFront(w)| == 3 + |lists|;
  }

  lemma ReadsThree(data: seq<byte>, pos: nat, x: byte, y: byte, z: byte)
    requires At(data, pos, [x, y, z])
    ensures U8(data, pos) == Got(x, pos + 1) && U8(data, pos + 1) == Got(y, pos + 2)
    ensures U8(data, pos + 2) == Got(z, pos + 3)
  {
    var b := data[pos..pos + 3];
    assert b[0] == x && b[1] == y && b[2] == z;
  }

  lemma ReadsBack(data: seq<byte>, pos: nat, w: WProto)
    requires ValidProto(w) && At(data, pos, EncBack(w))
    ensures var d := EncCounted(w.locvars, EncVar);
            && ReadBack(data, pos, SizeOf(w)) == ReadBackAlone(data, pos) == Got(Back(w.upvalues, w.lineinfo, w.abslineinfo), pos + |EncBack(w)| - |d|)
            && ReadCounted(data, pos + |EncBack(w)| - |d|, ReadVar) == Got(w.locvars, pos + |EncBack(w)|)
  {
    hide At, Inverts, EncCounted, ReadSized, ReadCounted, Le;
    var a, b := EncCounted(w.upvalues, EncUp), EncCounted(w.lineinfo, EncByte);
    var c, d := EncCounted(w.abslineinfo, EncAbs), EncCounted(w.locvars, EncVar);
    var p := pos + |a|;
    var q := p + |b|;
    var r := q + |c|;
    AtSplit(data, pos, a, b + (c + d));
    AtSplit(data, p, b, c + d);
    AtSplit(data, q, c, d);
    assert |EncBack(w)| == |a| + |b| + |c| + |d|;
    assert ReadCounted(data, pos, ReadUp) == ReadSized(data, pos, |w.upvalues|, ReadUp) == Got(w.upvalues, p) by {
      UpsInvert(w.upvalues);
      ReadsCounted(data, pos, w.upvalues, EncUp, ReadUp);
    }
    assert ReadCounted(data, p, U8) == ReadSized(data, p, |w.lineinfo|, U8) == Got(w.lineinfo, q) by {
      BytesInvert(w.lineinfo);
      ReadsCounted(data, p, w.lineinfo, EncByte, U8);
    }
    assert ReadCounted(data, q, ReadAbs) == ReadSized(data, q, |w.abslineinfo|, ReadAbs) == Got(w.abslineinfo, r) by {
      AbsInvert(w.abslineinfo);
      ReadsCounted(data, q, w.abslineinfo, EncAbs, ReadAbs);
    }
    assert ReadCounted(data, r, ReadVar) == Got(w.locvars, r + |d|) by {
      VarsInvert(w.locvars);
      ReadsCounted(data, r, w.locvars, EncVar, ReadVar);
    }
  }

  lemma ReadsLast(data: seq<byte>, pos: nat, w: WProto)
    requires At(data, pos, EncLast(w))
    ensures ReadLast(data, pos) == Got(Last(w.source, w.linedefined, w.lastlinedefined), pos + 12)
  {
    AtSplit(data, pos, Le(w.source, 4), EncI32(w.linedefined) + EncI32(w.lastlinedefined));
    AtSplit(data, pos + 4, EncI32(w.linedefined), EncI32(w.lastlinedefined));
    ReadsU32(data, pos, w.source);
    ReadsI32(data, pos + 4, w.linedefined);
    ReadsI32(data, pos + 8, w.lastlinedefined);
  }

  lemma ReadsProto(data: seq<byte>, pos: nat, w: WProto)
    requires ValidProto(w) && At(data, pos, EncProto(w))
    ensures ReadProto(data, pos, SizeOf(w)) == ReadProtoAlone(data, pos) == Got(w, pos + |EncProto(w)|)
  {
    hide At, EncFront, EncBack, ReadFront, ReadBack, ReadFrontAlone, ReadBackAlone, ReadCounted, ReadLast,
         EncCounted, ValidProto;
    var p := pos + |EncFront(w)|;
    var q := p + |EncBack(w)|;
    AtSplit(data, pos, EncFront(w), EncBack(w) + EncLast(w));
    AtSplit(data, p, EncBack(w), EncLast(w));
    ReadsFront(data, pos, w);
    ReadsBack(data, p, w);
    ReadsLast(data, q, w);
    assert |EncProto(w)| == |EncFront(w)| + |EncBack(w)| + 12;
  }

  // ----------------------------------------- the first pass over a prototype

  /** Move the cursor over `n` elements of `width` bytes. */
  function Over(data: seq<byte>, pos: nat, n: nat, width: nat): (r: Parsed<()>)
    ensures r.Got? ==> n * width >= 0 && r.next == pos + n * width <= |data|
  {
    assert n * width >= 0;
    if pos + n * width <= |data| then Got((), pos + n * width) else Oob
  }

  datatype ProtoScan = ProtoScan(size: ProtoSize, nvars: nat)

  ghost function ScanFront(data: seq<byte>, pos: nat): Parsed<(nat, nat, nat)> {
    var (_, q) :- Over(data, pos, 3, 1);
    var (code, q) :- Count(data, q);
    var (_, q) :- Over(data, q, code, 4);
    var (k, q) :- Count(data, q);
    var (_, q) :- ReadAll(data, q, k, SkipTv);
    var (p, q) :- Count(data, q);
    var (_, q) :- Over(data, q, p, 4);
    Got((code, k, p), q)
  }

  ghost function ScanBack(data: seq<byte>, pos: nat): Parsed<(nat, nat, nat)> {
    var (ups, q) :- Count(data, pos);
    var (_, q) :- Over(data, q, ups, 7);
    var (li, q) :- Count(data, q);
    var (_, q) :- Over(data, q, li, 1);
    var (abs, q) :- Count(data, q);
    var (_, q) :- Over(data, q, abs, 8);
    Got((ups, li, abs), q)
  }

  /** The sizes of the prototype to create, up to and including the number of locals. */
  ghost function ScanProto(data: seq<byte>, pos: nat): Parsed<ProtoScan> {
    var (f, q) :- ScanFront(data, pos);
    var (b, q) :- ScanBack(data, q);
    var (nvars, q) :- Count(data, q);
    Got(ProtoScan(ProtoSize(f.0, f.1, f.2, b.0, b.1, b.2), nvars), q)
  }

  /** Records of a fixed width leave the cursor where skipping them does. */
  lemma {:induction false} FixedWidth<T(!new)>(data: seq<byte>, pos: nat, n: nat,
        read: (seq<byte>, nat) -> Parsed<T>, width: nat)
    requires forall p: nat {:trigger read(data, p)} :: read(data, p).Got? ==> read(data, p).next == p + width
    requires ReadAll(data, pos, n, read).Got?
    ensures n * width >= 0 && ReadAll(data, pos, n, read).next == pos + n * width
  {
    if n > 0 {
      FixedWidth(data, pos, n - 1, read, width);
      var p := ReadAll(data, pos, n - 1, read).next;
      assert read(data, p).Got?;
      assert n * width == (n - 1) * width + width;
    }
  }

  /** Reading a fixed-width list with the size that was counted at the same place. */
  lemma SizedIsCounted<T(!new)>(data: seq<byte>, pos: nat, read: (seq<byte>, nat) -> Parsed<T>, width: nat)
    requires forall p: nat {:trigger read(data, p)} :: read(data, p).Got? ==> read(data, p).next == p + width
    requires Count(data, pos).Got?
    requires ReadSized(data, pos, Count(data, pos).value, read).Got?
    ensures var n := Count(data, pos).value;
            && ReadCounted(data, pos, read) == ReadSized(data, pos, n, read)
            && n * width >= 0
            && ReadSized(data, pos, n, read).next == pos + 4 + n * width
  {
    FixedWidth(data, pos + 4, Count(data, pos).value, read, width);
  }

  lemma FrontAgrees(data: seq<byte>, pos: nat, z: ProtoSize)
    requires ScanFront(data, pos).Got? && ScanFront(data, pos).value == (z.code, z.k, z.p)
    requires ReadFront(data, pos, z).Got? && WTag(TV_DEADKEY) !in ReadFront(data, pos, z).value.k
    ensures ReadFrontAlone(data, pos) == ReadFront(data, pos, z)
    ensures ScanFront(data, pos).next == ReadFront(data, pos, z).next
  {
    hide ReadTv, SkipTv, ReadAll, U32, ReadCounted, ReadSized;
    var p := pos + 3;
    SizedIsCounted(data, p, U32, 4);
    var q := p + 4 + z.code * 4;
    KAgrees(data, q, z.k);
    var r := ReadSized(data, q, z.k, ReadTv).next;
    SizedIsCounted(data, r, U32, 4);
  }

  lemma KAgrees(data: seq<byte>, pos: nat, k: nat)
    requires Count(data, pos) == Got(k, pos + 4)
    requires ReadSized(data, pos, k, ReadTv).Got? && WTag(TV_DEADKEY) !in ReadSized(data, pos, k, ReadTv).value
    ensures ReadCounted(data, pos, ReadTv) == ReadSized(data, pos, k, ReadTv)
    ensures ReadAll(data, pos + 4, k, SkipTv).Got?
    ensures ReadAll(data, pos + 4, k, SkipTv).next == ReadSized(data, pos, k, ReadTv).next
  {
    SkipAllAgrees(data, pos + 4, k);
  }

  lemma BackAgrees(data: seq<byte>, pos: nat, z: ProtoSize)
    requires ScanBack(data, pos).Got? && ScanBack(data, pos).value == (z.upvalues, z.lineinfo, z.abslineinfo)
    requires ReadBack(data, pos, z).Got?
    ensures ReadBackAlone(data, pos) == ReadBack(data, pos, z)
    ensures ScanBack(data, pos).next == ReadBack(data, pos, z).next
  {
    hide ReadUp, ReadAbs, ReadAll, U8, ReadCounted, ReadSized;
    SizedIsCounted(data, pos, ReadUp, 7);
    var q := pos + 4 + z.upvalues * 7;
    SizedIsCounted(data, q, U8, 1);
    var r := q + 4 + z.lineinfo * 1;
    SizedIsCounted(data, r, ReadAbs, 8);
  }

  /** For any bytes at all: if the fill pass reads a prototype without meeting a
      dead-key tag among its constants, every count it passes over is the size the
      first pass allocated, and the two cursors agree up to the local variables. */
  lemma ProtoPassesAgree(data: seq<byte>, pos: nat)
    requires ScanProto(data, pos).Got?
    requires ReadProto(data, pos, ScanProto(data, pos).value.size).Got?
    requires WTag(TV_DEADKEY) !in ReadProto(data, pos, ScanProto(data, pos).value.size).value.k
    ensures var scan := ScanProto(data, pos).value;
            var r := ReadProto(data, pos, scan.size);
            && ReadProtoAlone(data, pos) == r
            && |r.value.locvars| == scan.nvars
            && ScanProto(data, pos).next + 12 * scan.nvars + 12 == r.next
  {
    hide ScanFront, ScanBack, ReadFront, ReadBack, ReadFrontAlone, ReadBackAlone, ReadAll;
    var z := ScanProto(data, pos).value.size;
    var f := ReadFront(data, pos, z);
    var b := ReadBack(data, f.next, z);
    FrontAgrees(data, pos, z);
    BackAgrees(data, f.next, z);
    FixedWidth(data, b.next + 4, Count(data, b.next).value, ReadVar, 12);
  }

  // --------------------------------- the first pass succeeds on what was written

  lemma {:induction false} StaysInside<T(!new)>(data: seq<byte>, pos: nat, n: nat, read: (seq<byte>, nat) -> Parsed<T>)
    requires forall p: nat {:trigger read(data, p)} :: read(data, p).Got? ==> read(data, p).next <= |data|
    requires pos <= |data| && ReadAll(data, pos, n, read).Got?
    ensures ReadAll(data, pos, n, read).next <= |data|
  {
    if n > 0 {
      StaysInside(data, pos, n - 1, read);
    }
  }

  /** A fixed-width list that can be read can be skipped. */
  lemma OverCounted<T(!new)>(data: seq<byte>, pos: nat, read: (seq<byte>, nat) -> Parsed<T>, width: nat)
    requires forall p: nat {:trigger read(data, p)} :: read(data, p).Got? ==> read(data, p).next == p + width <= |data|
    requires ReadCounted(data, pos, read).Got?
    ensures var n := |ReadCounted(data, pos, read).value|;
            && Count(data, pos) == Got(n, pos + 4)
            && Over(data, pos + 4, n, width) == Got((), ReadCounted(data, pos, read).next)
  {
    var n := Count(data, pos).value;
    FixedWidth(data, pos + 4, n, read, width);
    StaysInside(data, pos + 4, n, read);
  }

  lemma FrontScans(data: seq<byte>, pos: nat)
    requires ReadFrontAlone(data, pos).Got? && WTag(TV_DEADKEY) !in ReadFrontAlone(data, pos).value.k
    ensures var f := ReadFrontAlone(data, pos);
            ScanFront(data, pos) == Got((|f.value.code|, |f.value.k|, |f.value.p|), f.next)
  {
    hide ReadTv, SkipTv, ReadAll, U32, ReadCounted;
    var p := pos + 3;
    OverCounted(data, p, U32, 4);
    var q := ReadCounted(data, p, U32).next;
    KScans(data, q);
    var r := ReadCounted(data, q, ReadTv).next;
    OverCounted(data, r, U32, 4);
  }

  lemma KScans(data: seq<byte>, pos: nat)
    requires ReadCounted(data, pos, ReadTv).Got? && WTag(TV_DEADKEY) !in ReadCounted(data, pos, ReadTv).value
    ensures var ks := ReadCounted(data, pos, ReadTv);
            && Count(data, pos) == Got(|ks.value|, pos + 4)
            && ReadAll(data, pos + 4, |ks.value|, SkipTv).Got?
            && ReadAll(data, pos + 4, |ks.value|, SkipTv).next == ks.next
  {
    SkipAllAgrees(data, pos + 4, Count(data, pos).value);
  }

  lemma BackScans(data: seq<byte>, pos: nat)
    requires ReadBackAlone(data, pos).Got?
    ensures var b := ReadBackAlone(data, pos);
            ScanBack(data, pos) == Got((|b.value.upvalues|, |b.value.lineinfo|, |b.value.abslineinfo|), b.next)
  {
    hide ReadUp, ReadAbs, U8, ReadAll, ReadCounted;
    OverCounted(data, pos, ReadUp, 7);
    var q := ReadCounted(data, pos, ReadUp).next;
    OverCounted(data, q, U8, 1);
    var r := ReadCounted(data, q, U8).next;
    OverCounted(data, r, ReadAbs, 8);
  }

  lemma ProtoScans(data: seq<byte>, pos: nat, w: WProto)
    requires ValidProto(w) && WTag(TV_DEADKEY) !in w.k && At(data, pos, EncProto(w))
    ensures ScanProto(data, pos).Got? && ScanProto(data, pos).value == ProtoScan(SizeOf(w), |w.locvars|)
  {
    hide EncProto, At, ReadFrontAlone, ReadBackAlone, ScanFront, ScanBack, ReadAll, ReadVar, ReadLast;
    ReadsProto(data, pos, w);
    var f := ReadFrontAlone(data, pos);
    FrontScans(data, pos);
    BackScans(data, f.next);
  }
}
