// Normal forms that a load can restore, and the validity of their records.
module NormalForm {
  import opened Words
  import opened Heap
  import opened Wire
  import opened TableRecords
  import opened ProtoRecords
  import opened Records
  import opened Snapshot
  import opened WellFormed
  import opened LoadSpec

  /** The function has a name, and the name leads back to it. */
  predicate NameOk(env: Env, fn: nat) {
    && fn in env.cname && |env.cname[fn]| < 0x1_0000
    && env.cname[fn] in env.cfn && env.cfn[env.cname[fn]] == fn
  }

  predicate KontOk(env: Env, k: nat) {
    && k in env.kname && |env.kname[k]| < 0x1_0000
    && env.kname[k] in env.kfn && env.kfn[env.kname[k]] == k
  }

  predicate FineTv(nh: seq<Cell>, env: Env, v: TValue) {
    match v
    case Empty => false
    case LightUd(_) => false
    case LightC(fn) => NameOk(env, fn)
    case Gc(id) => 0 < id < |nh|
    case _ => true
  }

  ghost predicate FineTvs(nh: seq<Cell>, env: Env, vs: seq<TValue>) {
    forall i :: 0 <= i < |vs| ==> FineTv(nh, env, vs[i])
  }

  predicate FineSlot(nh: seq<Cell>, env: Env, v: TValue) {
    v == Empty || (v != TValue.Nil && FineTv(nh, env, v))
  }

  predicate FineNode(nh: seq<Cell>, env: Env, n: Node, i: nat, size: nat) {
    && GoodNode(n, i, size)
    && (n.Node? ==>
          && (IsNil(n.val) || FineTv(nh, env, n.val))
          && (n.key.Live? ==> FineTv(nh, env, n.key.value))
          && (n.key.Dead? ==> n.key.ref < |nh|))
  }

  ghost predicate FineTable(nh: seq<Cell>, env: Env, arr: seq<TValue>, nodes: seq<Node>, mt: Ref) {
    && |arr| < 0x8000_0000 && |nodes| < 0x8000_0000 && (nodes == [] || PowerOfTwo(|nodes|))
    && (forall i :: 0 <= i < |arr| ==> FineSlot(nh, env, arr[i]))
    && (forall i :: 0 <= i < |nodes| ==> FineNode(nh, env, nodes[i], i, |nodes|))
    && PointsTo(nh, mt, IsTable)
  }

  ghost predicate FineProto(nh: seq<Cell>, env: Env, p: ProtoData) {
    GoodProto(nh, p) && FineTvs(nh, env, p.k)
  }

  predicate FineArm(nh: seq<Cell>, env: Env, a: Arm) {
    match a
    case LuaArm(p, _, _) => 0 < p < |nh| && nh[p].obj.Proto?
    case CArm(k, ctx, e) => if k == 0 then ctx == 0 && e == 0 else KontOk(env, k)
  }

  ghost predicate FineAt(nh: seq<Cell>, env: Env, i: nat)
    requires i < |nh|
  {
    match nh[i].obj
    case Str(_, s) => |s| < 0x1_0000_0000
    case Table(arr, nodes, mt) => FineTable(nh, env, arr, nodes, mt)
    case Proto(p) => FineProto(nh, env, p)
    case LClosure(p, us) => PointsTo(nh, p, IsProto) && AllPointTo(nh, us, IsUpval) && |us| < 0x100
    case CClosure(fn, us) => NameOk(env, fn) && FineTvs(nh, env, us) && |us| < 0x100
    case UpClosed(v) => FineTv(nh, env, v)
    case UpOpen(_, _) => true
    case Thread(_, stack, frames, open) =>
      && FineTvs(nh, env, stack) && |stack| < 0x8000_0000 && |frames| < 0x8000_0000 && |open| < 0x8000_0000
      && (forall j :: 0 <= j < |frames| ==> FineArm(nh, env, frames[j].arm))
      && GoodOpens(nh, i, open)
    case Udata(uvs, b, mt) => uvs == [] && |b| < 0x1_0000_0000 && PointsTo(nh, mt, IsTable)
  }

  /** The open upvalue `i` is in the list of a thread of the snapshot. */
  predicate Owned(nh: seq<Cell>, i: nat)
    requires i < |nh| && nh[i].obj.UpOpen?
  {
    var t := nh[i].obj.thread;
    0 < t < |nh| && nh[t].obj.Thread? && i in nh[t].obj.open
  }

  /** What a load makes of the object with id `i`, given pointers for the ids. The
      record of an open upvalue says nothing; without its thread it stays as created. The
      record of a string does not say whether it is a short one: its length decides. */
  function LoadedAs(nh: seq<Cell>, i: nat, pm: map<Ref, Ref>): Obj
    requires i < |nh|
  {
    if nh[i].obj.UpOpen? && !Owned(nh, i) then UpClosed(TValue.Nil)
    else if nh[i].obj.Str? then Str(|nh[i].obj.s| <= MAXSHORTLEN, nh[i].obj.s)
    else MapObj(nh[i].obj, pm)
  }

  ghost predicate FineNormal(n: State, env: Env) {
    && 0 < |n.heap| < 0x4000_0000
    && (forall i :: 0 < i < |n.heap| ==> FineAt(n.heap, env, i))
    && 0 < n.registry < |n.heap| && n.heap[n.registry].obj.Table?
    && 0 < n.main < |n.heap| && n.heap[n.main].obj.Thread?
    && |n.mt| == NUMTYPES && AllPointTo(n.heap, n.mt, IsTable)
  }

  // ----------------------------------------------------- records of fine objects

  lemma WireTvValid(nh: seq<Cell>, env: Env, v: TValue)
    requires FineTv(nh, env, v) && |nh| < 0x4000_0000
    ensures ValidTv(WireTv(nh, env, v)) && WireTv(nh, env, v) != WTag(TV_DEADKEY)
    ensures WireTv(nh, env, v) != WTag(TV_EMPTY)
    ensures v != TValue.Nil ==> WireTv(nh, env, v) != WTag(TV_NIL)
  {
  }

  lemma WireTvsValid(nh: seq<Cell>, env: Env, vs: seq<TValue>)
    requires FineTvs(nh, env, vs) && |nh| < 0x4000_0000
    ensures forall w :: w in WireTvs(nh, env, vs) ==> ValidTv(w) && w != WTag(TV_DEADKEY)
  {
    hide WireTv, ValidTv, FineTv;
    var ws := WireTvs(nh, env, vs);
    forall i | 0 <= i < |ws|
      ensures ValidTv(ws[i]) && ws[i] != WTag(TV_DEADKEY)
    {
      WireTvValid(nh, env, vs[i]);
    }
  }

  lemma {:induction false} WireItemsValid(nh: seq<Cell>, env: Env, arr: seq<TValue>)
    requires |nh| < 0x4000_0000 && |arr| < 0x8000_0000
    requires forall i :: 0 <= i < |arr| ==> FineSlot(nh, env, arr[i])
    ensures |WireItems(nh, env, arr)| <= |arr|
    ensures forall a :: a in WireItems(nh, env, arr) ==> ValidItem(a) && PlainItem(a)
  {
    if arr != [] {
      var k := |arr| - 1;
      WireItemsValid(nh, env, arr[..k]);
      if !IsNil(arr[k]) {
        WireTvValid(nh, env, arr[k]);
      }
    }
  }

  lemma WireSlotValid(nh: seq<Cell>, env: Env, n: Node, i: nat, size: nat)
    requires FineNode(nh, env, n, i, size) && |nh| < 0x4000_0000
    ensures ValidSlot(WireSlot(nh, env, n)) && PlainSlot(WireSlot(nh, env, n))
  {
    if n.Node? {
      if !IsNil(n.val) {
        WireTvValid(nh, env, n.val);
      }
      if n.key.Live? {
        WireTvValid(nh, env, n.key.value);
      }
    }
  }

  lemma WireTableValid(nh: seq<Cell>, env: Env, arr: seq<TValue>, nodes: seq<Node>, mt: Ref)
    requires FineTable(nh, env, arr, nodes, mt) && |nh| < 0x4000_0000
    ensures var t := WTable(WireItems(nh, env, arr), WireSlots(nh, env, nodes), Cast32(mt), Cast32(|arr|));
            ValidTable(t) && PlainTable(t)
  {
    hide WireSlot, ValidSlot, PlainSlot, FineNode, ValidItem, PlainItem, WireItems;
    WireItemsValid(nh, env, arr);
    var ws := WireSlots(nh, env, nodes);
    forall i | 0 <= i < |ws|
      ensures ValidSlot(ws[i]) && PlainSlot(ws[i])
    {
      WireSlotValid(nh, env, nodes[i], i, |nodes|);
    }
  }

  lemma WireProtoValid(nh: seq<Cell>, env: Env, p: ProtoData)
    requires FineProto(nh, env, p) && |nh| < 0x4000_0000
    ensures ValidProto(WireProto(nh, env, p)) && WTag(TV_DEADKEY) !in WireProto(nh, env, p).k
  {
    hide ValidTv, FineTvs, PointsTo, AllPointTo;
    WireTvsValid(nh, env, p.k);
  }

  lemma WireThreadValid(nh: seq<Cell>, env: Env, t: Obj)
    requires t.Thread? && |nh| < 0x4000_0000
    requires FineTvs(nh, env, t.stack) && |t.stack| < 0x8000_0000 && |t.frames| < 0x8000_0000 && |t.open| < 0x8000_0000
    requires forall j :: 0 <= j < |t.frames| ==> FineArm(nh, env, t.frames[j].arm)
    ensures ValidThread(WThread(t.status, WireTvs(nh, env, t.stack), WireFrames(env, t.frames), WireOpens(nh, t.open)))
  {
    hide ValidTv, FineTvs;
    WireTvsValid(nh, env, t.stack);
    var ws := WireFrames(env, t.frames);
    forall i | 0 <= i < |ws|
      ensures ValidFrame(ws[i])
    {
      assert FineArm(nh, env, t.frames[i].arm);
    }
  }

  /** The records of a fine normal form are within the limits of the format. */
  lemma WireObjValid(nh: seq<Cell>, env: Env, i: nat)
    requires 0 < i < |nh| < 0x4000_0000 && FineAt(nh, env, i)
    ensures ValidObj(WireObj(nh, env, nh[i].obj)) && PlainObj(WireObj(nh, env, nh[i].obj))
  {
    hide ValidTable, PlainTable, ValidProto, ValidThread, FineTable, FineProto, FineTvs, GoodOpens, FineArm,
         ValidTv, WireTv,
         WireItems, FineTv;
    match nh[i].obj
    case Str(_, _) =>
    case Table(arr, nodes, mt) => WireTableValid(nh, env, arr, nodes, mt);
    case Proto(p) => WireProtoValid(nh, env, p);
    case LClosure(_, _) =>
    case CClosure(fn, us) => WireTvsValid(nh, env, us);
    case UpClosed(v) => WireTvValid(nh, env, v);
    case UpOpen(_, _) =>
    case Thread(_, _, _, _) => WireThreadValid(nh, env, nh[i].obj);
    case Udata(_, _, _) =>
  }
}
