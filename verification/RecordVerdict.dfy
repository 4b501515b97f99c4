// What a record must say to be accepted: every tag, name, id and chain link, for each kind of
// record; and that the fill passes latch an error on a record exactly if it does not.
module RecordVerdict {
  import opened Bytes
  import opened Heap
  import opened Wire
  import opened Records
  import opened Snapshot
  import opened WellFormed
  import opened LoadSpec

  // --------------------------------------------------------------- what a record must say

  /** The base type of the objects of each kind of record, in the order of the kinds. */
  const BASES: seq<nat> := [4, 5, 10, 6, 9, 9, 8, 6, 7]

  predicate KindsInRange(types: seq<byte>) {
    forall i :: 0 <= i < |types| ==> 1 <= types[i] <= 9
  }

  /** NULL, or the id of a record of one of these kinds. */
  predicate IdOk(types: seq<byte>, id: nat, kinds: set<byte>) {
    id == 0 || (id <= |types| && types[id - 1] in kinds)
  }

  /** A value: a nil, a boolean, a number, a C function by a known name, or NULL or an object of the
      base type that the tag says. */
  predicate ValueOk(env: Env, types: seq<byte>, w: WTv) {
    match w
    case WTag(tag) => tag == 0x00 || tag == 0x01 || tag == 0x11
    case WInt(_) => true
    case WFlt(_) => true
    case WCf(name) => name in env.cfn
    case WGc(tag, id) => id == 0 || (id <= |types| && 1 <= types[id - 1] <= 9 && BASES[types[id - 1] - 1] == tag % 16)
  }

  predicate ValuesOk(env: Env, types: seq<byte>, ws: seq<WTv>) {
    forall i :: 0 <= i < |ws| ==> ValueOk(env, types, ws[i])
  }

  predicate IdsOk(types: seq<byte>, ids: seq<u32>, kinds: set<byte>) {
    forall i :: 0 <= i < |ids| ==> IdOk(types, ids[i], kinds)
  }

  /** A float that is no number: all exponent bits set, and a mantissa. */
  predicate NoNumber(w: WTv) {
    w.WFlt? && w.bits % 0x8000_0000_0000_0000 > 0x7FF0_0000_0000_0000
  }

  /** A slot of a node array of `hsize` slots. Its value may also be the empty nil; a dead key has no
      value; no key is a NaN; the chain link stays inside. */
  predicate SlotOk(env: Env, types: seq<byte>, e: nat, hsize: nat, w: WSlot) {
    w.WSlot? ==>
      && (w.val == WTag(0x10) || ValueOk(env, types, w.val))
      && (w.next == 0 || 0 <= e + w.next < hsize)
      && (match w.key
          case WLive(k) => ValueOk(env, types, k) && !NoNumber(k)
          case WDead(id) =>
            && id <= |types|
            && (w.val == WTag(0x10) || w.val == WTag(0x00) || (w.val.WGc? && w.val.id == 0)))
  }

  predicate TableOk(env: Env, types: seq<byte>, t: WTable) {
    && (forall i :: 0 <= i < |t.arr| ==> ValueOk(env, types, t.arr[i].val))
    && (forall e :: 0 <= e < |t.slots| ==> SlotOk(env, types, e, |t.slots|, t.slots[e]))
    && IdOk(types, t.mt, {2})
  }

  predicate ProtoOk(env: Env, types: seq<byte>, p: WProto) {
    && ValuesOk(env, types, p.k) && IdsOk(types, p.p, {3}) && IdOk(types, p.source, {1})
    && (forall i :: 0 <= i < |p.upvalues| ==> IdOk(types, p.upvalues[i].name, {1}))
    && (forall i :: 0 <= i < |p.locvars| ==> IdOk(types, p.locvars[i].name, {1}))
  }

  predicate FrameOk(env: Env, types: seq<byte>, f: WFrame) {
    match f.arm
    case WLua(p, _, _) => IdOk(types, p, {3})
    case WC(WNoKont) => true
    case WC(WKont(name, _, _)) => name in env.kfn
  }

  predicate ThreadOk(env: Env, types: seq<byte>, t: WThread) {
    && ValuesOk(env, types, t.stack)
    && (forall i :: 0 <= i < |t.frames| ==> FrameOk(env, types, t.frames[i]))
    && (forall i :: 0 <= i < |t.open| ==> IdOk(types, t.open[i].id, {6}))
  }

  predicate RecordOk(env: Env, types: seq<byte>, w: WObj) {
    match w
    case WStr(_) => true
    case WTab(t) => TableOk(env, types, t)
    case WPro(p) => ProtoOk(env, types, p)
    case WLCl(p, us) => IdOk(types, p, {3}) && IdsOk(types, us, {5, 6})
    case WCCl(named, name, us) => (named ==> name in env.cfn) && ValuesOk(env, types, us)
    case WUpClosed(v) => ValueOk(env, types, v)
    case WUpOpen => true
    case WThr(t) => ThreadOk(env, types, t)
    case WUd(_, mt) => IdOk(types, mt, {2})
  }

  // ------------------------------------------------------------------- one value, one id

  lemma BasesAre(tc: byte)
    requires 1 <= tc <= 9
    ensures BaseType(tc) == BASES[tc - 1]
  {
  }

  lemma ValueVerdict(c: Ctx, env: Env, w: WTv)
    requires c.Valid() && KindsInRange(c.types)
    ensures !FillTv(c, env, w).err <==> ValueOk(env, c.types, w)
  {
    if w.WGc? && 0 < w.id <= |c.types| {
      BasesAre(c.types[w.id - 1]);
    }
  }

  lemma {:induction false} ValuesVerdict(c: Ctx, env: Env, ws: seq<WTv>)
    requires c.Valid() && KindsInRange(c.types)
    ensures !FillTvs(c, env, ws).err <==> ValuesOk(env, c.types, ws)
  {
    hide FillTv, ValueOk, KindsInRange;
    if ws != [] {
      var k := |ws| - 1;
      ValuesVerdict(c, env, ws[..k]);
      ValueVerdict(c, env, ws[k]);
    }
  }

  lemma IdVerdict(c: Ctx, id: nat)
    requires c.Valid() && KindsInRange(c.types)
    ensures !Resolve(c, id, OBJ_TABLE).err <==> IdOk(c.types, id, {2})
    ensures !Resolve(c, id, OBJ_PROTO).err <==> IdOk(c.types, id, {3})
    ensures !Resolve(c, id, OBJ_STRING).err <==> IdOk(c.types, id, {1})
    ensures !Resolve(c, id, OBJ_UPVAL_OPEN).err <==> IdOk(c.types, id, {6})
    ensures !Resolve(c, id, RESOLVE_UPVAL).err <==> IdOk(c.types, id, {5, 6})
    ensures !Resolve(c, id, RESOLVE_ANY).err <==> id <= |c.types|
  {
  }

  lemma {:induction false} IdsVerdict(c: Ctx, ids: seq<u32>)
    requires c.Valid() && KindsInRange(c.types)
    ensures !ResolveAll(c, ids, OBJ_TABLE).err <==> IdsOk(c.types, ids, {2})
    ensures !ResolveAll(c, ids, OBJ_PROTO).err <==> IdsOk(c.types, ids, {3})
    ensures !ResolveAll(c, ids, RESOLVE_UPVAL).err <==> IdsOk(c.types, ids, {5, 6})
  {
    hide Resolve, IdOk, KindsInRange;
    if ids != [] {
      var k := |ids| - 1;
      IdsVerdict(c, ids[..k]);
      IdVerdict(c, ids[k]);
    }
  }

  // --------------------------------------------------------------------------- tables

  lemma {:induction false} ItemsVerdict(c: Ctx, env: Env, arr: seq<TValue>, ws: seq<WItem>)
    requires c.Valid() && KindsInRange(c.types)
    ensures !FillItems(c, env, arr, ws).err <==> forall i :: 0 <= i < |ws| ==> ValueOk(env, c.types, ws[i].val)
  {
    hide FillTv, ValueOk, KindsInRange;
    if ws != [] {
      var k := |ws| - 1;
      ItemsVerdict(c, env, arr, ws[..k]);
      ValueVerdict(c, env, ws[k].val);
    }
  }

  /** A value of a node comes out as a nil exactly if it is one of the two, or NULL, or an error. */
  lemma NodeValue(c: Ctx, env: Env, w: WTv)
    requires c.Valid() && KindsInRange(c.types)
    ensures !FillVal(c, env, w).err <==> w == WTag(0x10) || ValueOk(env, c.types, w)
    ensures !FillVal(c, env, w).err ==>
              (IsNil(FillVal(c, env, w).v) <==> w == WTag(0x10) || w == WTag(0x00) || (w.WGc? && w.id == 0))
  {
    ValueVerdict(c, env, w);
  }

  lemma KeyNumber(c: Ctx, env: Env, k: WTv)
    requires c.Valid() && !FillTv(c, env, k).err
    ensures IsNaN(FillTv(c, env, k).v) <==> NoNumber(k)
  {
  }

  lemma SlotVerdict(c: Ctx, env: Env, n: Nodes, e: nat, hsize: nat, w: WSlot)
    requires c.Valid() && KindsInRange(c.types)
    ensures !FillSlot(c, env, n, e, hsize, w).err <==> !n.err && SlotOk(env, c.types, e, hsize, w)
  {
    if w.WSlot? {
      NodeValue(c, env, w.val);
      match w.key {
        case WDead(id) =>
          IdVerdict(c, id);
          hide FillVal, FillTv, ValueOk, Resolve;
        case WLive(k) =>
          ValueVerdict(c, env, k);
          if !FillTv(c, env, k).err {
            KeyNumber(c, env, k);
          }
          hide FillVal, FillTv, ValueOk, IsNaN, NoNumber;
      }
    }
  }

  lemma {:induction false} SlotsVerdict(c: Ctx, env: Env, n: Nodes, hsize: nat, ws: seq<WSlot>)
    requires c.Valid() && KindsInRange(c.types)
    ensures !FillSlots(c, env, n, hsize, ws).err <==>
              !n.err && forall e :: 0 <= e < |ws| ==> SlotOk(env, c.types, e, hsize, ws[e])
  {
    hide FillSlot, SlotOk, KindsInRange;
    if ws != [] {
      var k := |ws| - 1;
      SlotsVerdict(c, env, n, hsize, ws[..k]);
      SlotVerdict(c, env, FillSlots(c, env, n, hsize, ws[..k]), k, hsize, ws[k]);
    }
  }

  lemma TableVerdict(c: Ctx, env: Env, blank: Obj, t: WTable)
    requires c.Valid() && KindsInRange(c.types) && blank.Table?
    ensures !FillTable(c, env, blank, t).err <==> TableOk(env, c.types, t)
  {
    hide FillItems, FillSlots, Resolve, ValueOk, SlotOk, IdOk, KindsInRange;
    ItemsVerdict(c, env, blank.arr, t.arr);
    SlotsVerdict(c, env, Nodes(blank.nodes, false, false), |t.slots|, t.slots);
    IdVerdict(c, t.mt);
  }

  // ------------------------------------------------------------ prototypes and threads

  lemma {:induction false} UpsVerdict(c: Ctx, ws: seq<UpvalDesc>)
    requires c.Valid() && KindsInRange(c.types)
    ensures !FillUps(c, ws).err <==> forall i :: 0 <= i < |ws| ==> IdOk(c.types, ws[i].name, {1})
  {
    hide Resolve, IdOk, KindsInRange;
    if ws != [] {
      var k := |ws| - 1;
      UpsVerdict(c, ws[..k]);
      IdVerdict(c, ws[k].name);
    }
  }

  lemma {:induction false} VarsVerdict(c: Ctx, ws: seq<LocVar>)
    requires c.Valid() && KindsInRange(c.types)
    ensures !FillVars(c, ws).err <==> forall i :: 0 <= i < |ws| ==> IdOk(c.types, ws[i].name, {1})
  {
    hide Resolve, IdOk, KindsInRange;
    if ws != [] {
      var k := |ws| - 1;
      VarsVerdict(c, ws[..k]);
      IdVerdict(c, ws[k].name);
    }
  }

  lemma ProtoVerdict(c: Ctx, env: Env, p: WProto)
    requires c.Valid() && KindsInRange(c.types)
    ensures !FillProto(c, env, p).err <==> ProtoOk(env, c.types, p)
  {
    hide FillTvs, ResolveAll, FillUps, FillVars, Resolve, ValuesOk, IdsOk, IdOk, KindsInRange;
    ValuesVerdict(c, env, p.k);
    IdsVerdict(c, p.p);
    UpsVerdict(c, p.upvalues);
    VarsVerdict(c, p.locvars);
    IdVerdict(c, p.source);
  }

  lemma {:induction false} FramesVerdict(c: Ctx, env: Env, ws: seq<WFrame>)
    requires c.Valid() && KindsInRange(c.types)
    ensures !FillFrames(c, env, ws).err <==> forall i :: 0 <= i < |ws| ==> FrameOk(env, c.types, ws[i])
  {
    hide Resolve, IdOk, KindsInRange;
    if ws != [] {
      var k := |ws| - 1;
      FramesVerdict(c, env, ws[..k]);
      if ws[k].arm.WLua? {
        IdVerdict(c, ws[k].arm.proto);
      }
    }
  }

  /** The pointers that ids resolve to are not NULL. */
  ghost predicate NoneNull(c: Ctx) {
    forall i :: 0 < i < |c.ptr| ==> c.ptr[i] != NULL
  }

  lemma LinkVerdict(c: Ctx, th: Ref, l: Relink, w: WOpen)
    requires c.Valid() && KindsInRange(c.types) && NoneNull(c)
    ensures !LinkOne(c, th, l, w).err <==> !l.err && IdOk(c.types, w.id, {6})
  {
    IdVerdict(c, w.id);
    hide Place;
  }

  lemma {:induction false} LinksVerdict(c: Ctx, th: Ref, l: Relink, ws: seq<WOpen>)
    requires c.Valid() && KindsInRange(c.types) && NoneNull(c)
    ensures !LinkAll(c, th, l, ws).err <==> !l.err && forall i :: 0 <= i < |ws| ==> IdOk(c.types, ws[i].id, {6})
  {
    hide LinkOne, IdOk, KindsInRange, NoneNull;
    if ws != [] {
      var k := |ws| - 1;
      LinksVerdict(c, th, l, ws[..k]);
      LinkVerdict(c, th, LinkAll(c, th, l, ws[..k]), ws[k]);
    }
  }

  lemma ThreadVerdict(c: Ctx, env: Env, l: Load, r: Ref, t: WThread)
    requires c.Valid() && KindsInRange(c.types) && NoneNull(c) && r < |l.heap|
    ensures !FillThread(c, env, l, r, t).error <==> !l.error && ThreadOk(env, c.types, t)
    ensures FillThread(c, env, l, r, t).undefined == l.undefined
  {
    hide FillTvs, FillFrames, LinkAll, ValuesOk, FrameOk, IdOk, KindsInRange, NoneNull;
    ValuesVerdict(c, env, t.stack);
    FramesVerdict(c, env, t.frames);
    LinksVerdict(c, r, Relink(l.heap, OldOpen(l.heap[r].obj), false), t.open);
  }

  // ---------------------------------------------------------------------- any record

  /** The fill of a record latches an error exactly if the record is not as it must be. */
  lemma FillVerdict(c: Ctx, env: Env, blank: Obj, w: WObj)
    requires c.Valid() && KindsInRange(c.types) && !w.WThr? && (w.WTab? ==> blank.Table?)
    ensures !FillObj(c, env, blank, w).err <==> RecordOk(env, c.types, w)
  {
    hide FillTable, FillProto, FillTvs, FillTv, ResolveAll, Resolve, TableOk, ProtoOk, ThreadOk, ValueOk, ValuesOk;
    hide IdOk, IdsOk, KindsInRange;
    match w
    case WTab(t) => TableVerdict(c, env, blank, t);
    case WPro(p) => ProtoVerdict(c, env, p);
    case WLCl(p, us) =>
      IdVerdict(c, p);
      IdsVerdict(c, us);
    case WCCl(_, _, us) => ValuesVerdict(c, env, us);
    case WUpClosed(v) => ValueVerdict(c, env, v);
    case WUd(_, mt) => IdVerdict(c, mt);
    case _ =>
  }
}
