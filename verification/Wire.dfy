// The snapshot's record formats: how each kind of record is laid out, how the fill
// pass reads it back, and how the first pass, which only needs sizes, skips over it.
module Wire {
  import opened Bytes
  import opened Heap

  const TV_NIL: byte := 0x00
  const TV_EMPTY: byte := 0x10
  const TV_FALSE: byte := 0x01
  const TV_TRUE: byte := 0x11
  const TV_INT: byte := 0x03
  const TV_FLOAT: byte := 0x13
  const TV_DEADKEY: byte := 0x0B
  const CFUNC_TAG: byte := 0x80

  predicate Collectable(tag: byte) {
    (tag / 0x40) % 2 == 1
  }

  /** A value in the stream. Tags that carry nothing else, valid or not, are `WTag`. */
  datatype WTv =
    | WTag(tag: byte)
    | WInt(i: u64)
    | WFlt(bits: u64)
    | WCf(name: seq<byte>)
    | WGc(tag: byte, id: u32)

  datatype WKey = WLive(value: WTv) | WDead(id: u32)

  datatype WSlot = WFree | WSlot(key: WKey, val: WTv, next: i32)

  datatype WItem = WItem(idx: u32, val: WTv)

  datatype WTable = WTable(arr: seq<WItem>, slots: seq<WSlot>, mt: u32, asize: u32)

  datatype WProto = WProto(
    numparams: byte, flag: byte, maxstack: byte,
    code: seq<u32>, k: seq<WTv>, p: seq<u32>, upvalues: seq<UpvalDesc>,
    lineinfo: seq<byte>, abslineinfo: seq<AbsLine>, locvars: seq<LocVar>,
    source: u32, linedefined: i32, lastlinedefined: i32)

  datatype WKont = WNoKont | WKont(name: seq<byte>, ctx: u64, oldErr: u64)

  datatype WArm = WLua(proto: u32, pc: i32, nextra: i32) | WC(kont: WKont)

  datatype WFrame = WFrame(func: i32, top: i32, status: u32, u2: i32, arm: WArm)

  datatype WOpen = WOpen(id: u32, slot: i32)

  datatype WThread = WThread(status: byte, stack: seq<WTv>, frames: seq<WFrame>, open: seq<WOpen>)

  // ---------------------------------------------------------------- one value

  function EncTv(w: WTv): seq<byte> {
    match w
    case WTag(t) => [t]
    case WInt(i) => [TV_INT] + Le(i, 8)
    case WFlt(n) => [TV_FLOAT] + Le(n, 8)
    case WCf(name) => [CFUNC_TAG] + (Le(|name|, 2) + name)
    case WGc(t, id) => [t] + Le(id, 4)
  }

  /** What the save side can produce. */
  predicate ValidTv(w: WTv) {
    match w
    case WTag(t) => t != TV_INT && t != TV_FLOAT && t != CFUNC_TAG && !Collectable(t)
    case WCf(name) => |name| < 0x1_0000
    case WGc(t, _) => Collectable(t) && t != CFUNC_TAG
    case _ => true
  }

  /** The fill pass reads a value. */
  function ReadTv(data: seq<byte>, pos: nat): (r: Parsed<WTv>)
    ensures r.Got? ==> pos < r.next <= |data|
  {
    var (t, p) :- U8(data, pos);
    if t == CFUNC_TAG then
      var (n, p) :- U16(data, p);
      var (name, p) :- Blob(data, p, n);
      Got(WCf(name), p)
    else if t == TV_INT then
      var (i, p) :- U64(data, p);
      Got(WInt(i), p)
    else if t == TV_FLOAT then
      var (n, p) :- U64(data, p);
      Got(WFlt(n), p)
    else if Collectable(t) then
      var (id, p) :- U32(data, p);
      Got(WGc(t, id), p)
    else
      Got(WTag(t), p)
  }

  /** The first pass skips a value. */
  function SkipTv(data: seq<byte>, pos: nat): (r: Parsed<()>)
    ensures r.Got? ==> pos < r.next <= |data|
  {
    var (t, p) :- U8(data, pos);
    if t == TV_INT || t == TV_FLOAT then
      var (_, p) :- Blob(data, p, 8);
      Got((), p)
    else if Collectable(t) then
      var (_, p) :- Blob(data, p, 4);
      Got((), p)
    else if t == CFUNC_TAG then
      var (n, p) :- U16(data, p);
      var (_, p) :- Blob(data, p, n);
      Got((), p)
    else if t == TV_DEADKEY then
      var (_, p) :- Blob(data, p, 4);
      Got((), p)
    else
      Got((), p)
  }

  lemma ReadsTv(data: seq<byte>, pos: nat, w: WTv)
    requires ValidTv(w) && At(data, pos, EncTv(w))
    ensures ReadTv(data, pos) == Got(w, pos + |EncTv(w)|)
  {
    match w
    case WTag(t) =>
      assert data[pos..pos + 1][0] == t;
    case WInt(i) =>
      AtSplit(data, pos, [TV_INT], Le(i, 8));
      assert data[pos..pos + 1][0] == TV_INT;
      ReadsU64(data, pos + 1, i);
    case WFlt(n) =>
      AtSplit(data, pos, [TV_FLOAT], Le(n, 8));
      assert data[pos..pos + 1][0] == TV_FLOAT;
      ReadsU64(data, pos + 1, n);
    case WCf(name) =>
      AtSplit(data, pos, [CFUNC_TAG], Le(|name|, 2) + name);
      AtSplit(data, pos + 1, Le(|name|, 2), name);
      assert data[pos..pos + 1][0] == CFUNC_TAG;
      ReadsU16(data, pos + 1, |name|);
    case WGc(t, id) =>
      AtSplit(data, pos, [t], Le(id, 4));
      assert data[pos..pos + 1][0] == t;
      ReadsU32(data, pos + 1, id);
  }

  /** The two parsers part ways only on a dead-key tag. */
  lemma SkipAgrees(data: seq<byte>, pos: nat)
    requires ReadTv(data, pos).Got? && ReadTv(data, pos).value != WTag(TV_DEADKEY)
    ensures SkipTv(data, pos) == Got((), ReadTv(data, pos).next)
  {
  }

  // ------------------------------------------------------------- counted lists

  ghost function EncCounted<T>(xs: seq<T>, enc: T -> seq<byte>): seq<byte> {
    Le(|xs|, 4) + EncAll(xs, enc)
  }

  /** Counts of 2^31 and more, which do not fit the program's `int`, are not modelled. */
  function Count(data: seq<byte>, pos: nat): (r: Parsed<nat>)
    ensures r.Got? ==> r.next == pos + 4 <= |data| && r.value < 0x8000_0000
  {
    var (n, p) :- U32(data, pos);
    if n < 0x8000_0000 then Got(n, p) else Oob
  }

  ghost function ReadCounted<T>(data: seq<byte>, pos: nat, read: (seq<byte>, nat) -> Parsed<T>): Parsed<seq<T>> {
    var (n, p) :- Count(data, pos);
    ReadAll(data, p, n, read)
  }

  /** The count field is passed over: the number of elements is known already. */
  ghost function ReadSized<T>(data: seq<byte>, pos: nat, n: nat,
        read: (seq<byte>, nat) -> Parsed<T>): (r: Parsed<seq<T>>)
    ensures r.Got? ==> |r.value| == n
  {
    var (_, p) :- U32(data, pos);
    ReadAll(data, p, n, read)
  }

  lemma ReadsCounted<T(!new)>(data: seq<byte>, pos: nat, xs: seq<T>, enc: T -> seq<byte>,
        read: (seq<byte>, nat) -> Parsed<T>)
    requires Inverts(xs, enc, read) && |xs| < 0x8000_0000
    requires At(data, pos, EncCounted(xs, enc))
    ensures Count(data, pos) == Got(|xs|, pos + 4)
    ensures ReadCounted(data, pos, read) == Got(xs, pos + |EncCounted(xs, enc)|)
    ensures ReadSized(data, pos, |xs|, read) == Got(xs, pos + |EncCounted(xs, enc)|)
  {
    AtSplit(data, pos, Le(|xs|, 4), EncAll(xs, enc));
    ReadsU32(data, pos, |xs|);
    ReadAllInverts(xs, data, pos + 4, enc, read);
  }

  function EncU32(v: u32): seq<byte> { Le(v, 4) }

  function EncI32(v: i32): seq<byte> { Le(FromI32(v), 4) }

  function EncByte(v: byte): seq<byte> { [v] }

  lemma U32Inverts(xs: seq<u32>)
    ensures Inverts(xs, EncU32, U32)
  {
    forall x, data: seq<byte>, pos: nat | x in xs && At(data, pos, EncU32(x))
      ensures U32(data, pos) == Got(x, pos + 4)
    {
      ReadsU32(data, pos, x);
    }
  }

  lemma BytesInvert(xs: seq<byte>)
    ensures Inverts(xs, EncByte, U8)
  {
    forall x, data: seq<byte>, pos: nat | x in xs && At(data, pos, EncByte(x))
      ensures U8(data, pos) == Got(x, pos + 1)
    {
      assert data[pos..pos + 1][0] == x;
    }
  }

  lemma TvsInvert(xs: seq<WTv>)
    requires forall w :: w in xs ==> ValidTv(w)
    ensures Inverts(xs, EncTv, ReadTv)
  {
    forall x, data: seq<byte>, pos: nat | x in xs && At(data, pos, EncTv(x))
      ensures ReadTv(data, pos) == Got(x, pos + |EncTv(x)|)
    {
      ReadsTv(data, pos, x);
    }
  }

  /** Skipping a run of values lands where reading them does, unless one of them
      carries a dead-key tag. */
  lemma {:induction false} SkipAllAgrees(data: seq<byte>, pos: nat, n: nat)
    requires ReadAll(data, pos, n, ReadTv).Got?
    requires WTag(TV_DEADKEY) !in ReadAll(data, pos, n, ReadTv).value
    ensures ReadAll(data, pos, n, SkipTv).Got?
    ensures ReadAll(data, pos, n, SkipTv).next == ReadAll(data, pos, n, ReadTv).next
  {
    if n > 0 {
      SkipAllAgrees(data, pos, n - 1);
      SkipAgrees(data, ReadAll(data, pos, n - 1, ReadTv).next);
    }
  }
}
