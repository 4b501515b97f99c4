// What follows when two normal forms have the same bytes: they have the same records.
module SameBytes {
  import opened Bytes
  import opened Heap
  import opened Wire
  import opened TableRecords
  import opened ProtoRecords
  import opened Records
  import opened Snapshot
  import opened LoadSpec
  import opened LoadIndex
  import opened Restore

  // ------------------------------------- records that differ in pointers alone

  predicate LikeTv(a: WTv, b: WTv) {
    a == b || (a.WGc? && b.WGc? && Collectable(b.tag) && b.tag != CFUNC_TAG)
  }

  predicate LikeTvs(a: seq<WTv>, b: seq<WTv>) {
    |a| == |b| && forall i :: 0 <= i < |a| ==> LikeTv(a[i], b[i])
  }

  predicate LikeKey(a: WKey, b: WKey) {
    if a.WLive? then b.WLive? && LikeTv(a.value, b.value) else b.WDead?
  }

  predicate LikeSlot(a: WSlot, b: WSlot) {
    if a.WSlot? then b.WSlot? && LikeKey(a.key, b.key) && LikeTv(a.val, b.val) else b.WFree?
  }

  predicate LikeFrame(a: WFrame, b: WFrame) {
    if a.arm.WLua? then b.arm.WLua? else b.arm == a.arm
  }

  predicate LikeItems(a: seq<WItem>, b: seq<WItem>) {
    |a| == |b| && forall i :: 0 <= i < |a| ==> LikeTv(a[i].val, b[i].val)
  }

  predicate LikeTable(a: WTable, b: WTable) {
    && LikeItems(a.arr, b.arr)
    && |a.slots| == |b.slots| && forall i :: 0 <= i < |a.slots| ==> LikeSlot(a.slots[i], b.slots[i])
  }

  predicate LikeProto(a: WProto, b: WProto) {
    && |a.code| == |b.code| && LikeTvs(a.k, b.k) && |a.p| == |b.p| && |a.upvalues| == |b.upvalues|
    && |a.lineinfo| == |b.lineinfo| && |a.abslineinfo| == |b.abslineinfo| && |a.locvars| == |b.locvars|
    && (forall u :: u in b.upvalues ==> u.name < 0x1_0000_0000)
    && (forall l :: l in b.locvars ==> l.name < 0x1_0000_0000)
  }

  predicate LikeThread(a: WThread, b: WThread) {
    && LikeTvs(a.stack, b.stack) && |a.open| == |b.open|
    && |a.frames| == |b.frames| && forall i :: 0 <= i < |a.frames| ==> LikeFrame(a.frames[i], b.frames[i])
  }

  /** Records of objects of the same kind and size. */
  predicate LikeObj(a: WObj, b: WObj) {
    match a
    case WTab(t) => b.WTab? && LikeTable(t, b.t)
    case WPro(p) => b.WPro? && LikeProto(p, b.p)
    case WLCl(_, us) => b.WLCl? && |us| == |b.upvals|
    case WCCl(named, name, us) => b.WCCl? && named == b.named && name == b.name && LikeTvs(us, b.ups)
    case WUpClosed(v) => b.WUpClosed? && LikeTv(v, b.v)
    case WThr(t) => b.WThr? && LikeThread(t, b.th)
    case WUd(s, _) => b.WUd? && s == b.payload
    case _ => b == a
  }

  ghost predicate SameSizes<T(!new)>(a: seq<T>, b: seq<T>, enc: T -> seq<byte>) {
    |a| == |b| && forall i :: 0 <= i < |a| ==> |enc(a[i])| == |enc(b[i])|
  }

  lemma {:induction false} SameLength<T(!new)>(a: seq<T>, b: seq<T>, enc: T -> seq<byte>)
    requires SameSizes(a, b, enc)
    ensures |EncAll(a, enc)| == |EncAll(b, enc)|
  {
    if a != [] {
      SameLength(a[..|a| - 1], b[..|b| - 1], enc);
    }
  }

  lemma LikeTvLength(a: WTv, b: WTv)
    requires LikeTv(a, b)
    ensures |EncTv(a)| == |EncTv(b)|
  {
  }

  lemma LikeTvsLength(a: seq<WTv>, b: seq<WTv>)
    requires LikeTvs(a, b)
    ensures |EncAll(a, EncTv)| == |EncAll(b, EncTv)|
  {
    hide EncTv, LikeTv;
    forall i | 0 <= i < |a|
      ensures |EncTv(a[i])| == |EncTv(b[i])|
    {
      LikeTvLength(a[i], b[i]);
    }
    SameLength(a, b, EncTv);
  }

  lemma LikeTableLength(a: WTable, b: WTable)
    requires LikeTable(a, b)
    ensures |EncTable(a)| == |EncTable(b)|
  {
    hide EncTv, LikeTv, EncAll, Le;
    forall i | 0 <= i < |a.arr|
      ensures |EncItem(a.arr[i])| == |EncItem(b.arr[i])|
    {
      LikeTvLength(a.arr[i].val, b.arr[i].val);
    }
    forall i | 0 <= i < |a.slots|
      ensures |EncSlot(a.slots[i])| == |EncSlot(b.slots[i])|
    {
      LikeSlotLength(a.slots[i], b.slots[i]);
    }
    SameLength(a.arr, b.arr, EncItem);
    SameLength(a.slots, b.slots, EncSlot);
  }

  lemma LikeSlotLength(a: WSlot, b: WSlot)
    requires LikeSlot(a, b)
    ensures |EncSlot(a)| == |EncSlot(b)|
  {
    hide EncTv, LikeTv, Le;
    if a.WSlot? {
      LikeTvLength(a.val, b.val);
      if a.key.WLive? {
        LikeTvLength(a.key.value, b.key.value);
      }
    }
  }

  lemma LikeProtoLength(a: WProto, b: WProto)
    requires LikeProto(a, b)
    ensures |EncProto(a)| == |EncProto(b)|
  {
    hide EncTv, LikeTv, EncAll, Le, LikeTvs;
    LikeTvsLength(a.k, b.k);
    SameLength(a.code, b.code, EncU32);
    SameLength(a.p, b.p, EncU32);
    SameLength(a.upvalues, b.upvalues, EncUp);
    SameLength(a.lineinfo, b.lineinfo, EncByte);
    SameLength(a.abslineinfo, b.abslineinfo, EncAbs);
    SameLength(a.locvars, b.locvars, EncVar);
  }

  lemma LikeThreadLength(a: WThread, b: WThread)
    requires LikeThread(a, b)
    ensures |EncThread(a)| == |EncThread(b)|
  {
    hide EncTv, LikeTv, EncAll, Le, LikeTvs;
    LikeTvsLength(a.stack, b.stack);
    SameLength(a.frames, b.frames, EncFrame);
    SameLength(a.open, b.open, EncOpen);
  }

  lemma LikeLength(a: WObj, b: WObj)
    requires LikeObj(a, b)
    ensures |EncObj(a)| == |EncObj(b)|
  {
    hide EncTv, LikeTv, EncAll, Le, LikeTvs, LikeTable, LikeProto, LikeThread, EncTable, EncProto, EncThread;
    match a
    case WTab(t) => LikeTableLength(t, b.t);
    case WPro(p) => LikeProtoLength(p, b.p);
    case WLCl(_, us) => SameLength(us, b.upvals, EncU32);
    case WCCl(_, name, us) => LikeTvsLength(us, b.ups);
    case WUpClosed(v) => LikeTvLength(v, b.v);
    case WThr(t) => LikeThreadLength(t, b.th);
    case _ =>
  }

  lemma LikeTvsValid(a: seq<WTv>, b: seq<WTv>)
    requires LikeTvs(a, b) && forall v :: v in a ==> ValidTv(v)
    ensures forall v :: v in b ==> ValidTv(v)
    ensures WTag(TV_DEADKEY) in b ==> WTag(TV_DEADKEY) in a
  {
    forall i | 0 <= i < |b|
      ensures ValidTv(b[i]) && (b[i] == WTag(TV_DEADKEY) ==> a[i] == b[i])
    {
      assert a[i] in a;
    }
  }

  lemma LikeTableValid(a: WTable, b: WTable)
    requires LikeTable(a, b) && ValidTable(a) && PlainTable(a)
    ensures ValidTable(b) && PlainTable(b)
  {
    forall i | 0 <= i < |b.arr|
      ensures ValidItem(b.arr[i]) && PlainItem(b.arr[i])
    {
      assert a.arr[i] in a.arr;
    }
    forall i | 0 <= i < |b.slots|
      ensures ValidSlot(b.slots[i]) && PlainSlot(b.slots[i])
    {
      assert a.slots[i] in a.slots;
    }
  }

  lemma LikeThreadValid(a: WThread, b: WThread)
    requires LikeThread(a, b) && ValidThread(a)
    ensures ValidThread(b)
  {
    hide ValidTv, LikeTv;
    LikeTvsValid(a.stack, b.stack);
    forall i | 0 <= i < |b.frames|
      ensures ValidFrame(b.frames[i])
    {
      assert a.frames[i] in a.frames;
    }
  }

  ghost predicate Writes(w: WObj) {
    ValidObj(w) && PlainObj(w)
  }

  lemma LikeValid(a: WObj, b: WObj)
    requires LikeObj(a, b) && Writes(a)
    ensures Writes(b)
  {
    hide ValidTv, LikeTv, LikeTvs, LikeTable, LikeThread, ValidTable, PlainTable, ValidThread;
    match a
    case WTab(t) => LikeTableValid(t, b.t);
    case WPro(p) =>
      LikeTvsValid(p.k, b.p.k);
      LikeTvsSize(p.k, b.p.k);
    case WCCl(_, _, us) =>
      LikeTvsValid(us, b.ups);
      LikeTvsSize(us, b.ups);
    case WUpClosed(v) => LikeTvsValidOne(v, b.v);
    case WThr(t) => LikeThreadValid(t, b.th);
    case _ =>
  }

  lemma LikeTvsSize(a: seq<WTv>, b: seq<WTv>)
    requires LikeTvs(a, b)
    ensures |a| == |b|
  {
  }

  lemma LikeTvsValidOne(a: WTv, b: WTv)
    requires LikeTv(a, b) && ValidTv(a)
    ensures ValidTv(b)
  {
  }

  // ---------------------------------------------- mapped objects have like records

  lemma TvLike(nh: seq<Cell>, nh': seq<Cell>, env: Env, v: TValue, m: map<Ref, Ref>)
    ensures LikeTv(WireTv(nh, env, v), WireTv(nh', env, MapTv(v, m)))
  {
  }

  lemma TvsLike(nh: seq<Cell>, nh': seq<Cell>, env: Env, vs: seq<TValue>, m: map<Ref, Ref>)
    ensures LikeTvs(WireTvs(nh, env, vs), WireTvs(nh', env, MapTvs(vs, m)))
  {
    hide LikeTv, WireTv, MapTv;
    forall i | 0 <= i < |vs|
      ensures LikeTv(WireTv(nh, env, vs[i]), WireTv(nh', env, MapTv(vs[i], m)))
    {
      TvLike(nh, nh', env, vs[i], m);
    }
  }

  /** The array slots correspond, up to the variant of nil in the empty ones. */
  predicate SameItems(a: seq<TValue>, b: seq<TValue>, m: map<Ref, Ref>) {
    && |a| == |b|
    && forall i :: 0 <= i < |a| ==> (IsNil(b[i]) <==> IsNil(a[i])) && (IsNil(a[i]) || b[i] == MapTv(a[i], m))
  }

  lemma {:induction false} ItemsLike(nh: seq<Cell>, nh': seq<Cell>, env: Env, a: seq<TValue>, b: seq<TValue>,
        m: map<Ref, Ref>)
    requires SameItems(a, b, m)
    ensures LikeItems(WireItems(nh, env, a), WireItems(nh', env, b))
  {
    hide LikeTv, WireTv, MapTv, IsNil;
    if a != [] {
      var k := |a| - 1;
      ItemsLike(nh, nh', env, a[..k], b[..k], m);
      TvLike(nh, nh', env, a[k], m);
    }
  }

  lemma SlotsLike(nh: seq<Cell>, nh': seq<Cell>, env: Env, ns: seq<Node>, m: map<Ref, Ref>)
    ensures var a, b := WireSlots(nh, env, ns), WireSlots(nh', env, MapNodes(ns, m));
            |a| == |b| && forall i :: 0 <= i < |a| ==> LikeSlot(a[i], b[i])
  {
    hide LikeTv, WireTv, MapTv;
    forall i | 0 <= i < |ns|
      ensures LikeSlot(WireSlot(nh, env, ns[i]), WireSlot(nh', env, MapNode(ns[i], m)))
    {
      if ns[i].Node? {
        TvLike(nh, nh', env, ns[i].val, m);
        if ns[i].key.Live? {
          TvLike(nh, nh', env, ns[i].key.value, m);
        }
      }
    }
  }

  lemma FramesLike(env: Env, fs: seq<Frame>, h: seq<Cell>, m: map<Ref, Ref>)
    ensures var a, b := WireFrames(env, fs), WireFrames(env, MapFrames(CanonFrames(h, fs), m));
            |a| == |b| && forall i :: 0 <= i < |a| ==> LikeFrame(a[i], b[i])
  {
    hide Bit, HasHiddenVarargs, Look;
  }

  lemma ProtoLike(nh: seq<Cell>, nh': seq<Cell>, env: Env, p: ProtoData, flag: byte, m: map<Ref, Ref>)
    ensures LikeProto(WireProto(nh, env, p), WireProto(nh', env, MapProto(p.(flag := flag), m)))
  {
    hide LikeTvs, MapTv, WireTv, Look;
    TvsLike(nh, nh', env, p.k, m);
  }

  /** Renaming pointers and leaving out what a snapshot leaves out changes neither the
      kind nor the size of the record. */
  lemma WireLike(nh: seq<Cell>, nh': seq<Cell>, env: Env, h: seq<Cell>, o: Obj, m: map<Ref, Ref>)
    ensures LikeObj(WireObj(nh, env, o), WireObj(nh', env, MapObj(Canon(h, o), m)))
  {
    hide LikeTv, LikeTvs, LikeProto, LikeSlot, LikeFrame, LikeItems, WireTv, WireProto, MapProto, WireItems,
         WireSlot, WireFrame,
         MapTv, MapNode, MapFrame, CanonFrame, StripFixed, SlotAt, Look, IsNil;
    match o
    case Table(arr, nodes, mt) =>
      CanonItems(arr, m);
      ItemsLike(nh, nh', env, arr, MapTvs(CanonArr(arr), m), m);
      SlotsLike(nh, nh', env, nodes, m);
    case Proto(p) => ProtoLike(nh, nh', env, p, StripFixed(p.flag), m);
    case CClosure(_, us) => TvsLike(nh, nh', env, us, m);
    case UpClosed(v) => TvLike(nh, nh', env, v, m);
    case Thread(_, stack, frames, _) =>
      TvsLike(nh, nh', env, stack, m);
      FramesLike(env, frames, h, m);
    case _ =>
  }

  lemma CanonItems(arr: seq<TValue>, m: map<Ref, Ref>)
    ensures SameItems(arr, MapTvs(CanonArr(arr), m), m)
  {
  }

  /** The same when the pointers are renamed twice. */
  lemma WireLikeTwice(nh: seq<Cell>, nh': seq<Cell>, env: Env, h: seq<Cell>, o: Obj, a: map<Ref, Ref>, b: map<Ref, Ref>)
    ensures var w, w' := WireObj(nh, env, o), WireObj(nh', env, MapObj(Canon(h, MapObj(o, a)), b));
            |EncObj(w')| == |EncObj(w)| && (Writes(w) ==> Writes(w'))
  {
    hide *;
    var x := MapObj(o, a);
    var w, v, w' := WireObj(nh, env, o), WireObj(nh, env, x), WireObj(nh', env, MapObj(Canon(h, x), b));
    MapLike(nh, nh, env, o, a);
    WireLike(nh, nh', env, h, x, b);
    LikeLength(w, v);
    LikeLength(v, w');
    if Writes(w) {
      LikeValid(w, v);
      LikeValid(v, w');
    }
  }

  lemma MapLike(nh: seq<Cell>, nh': seq<Cell>, env: Env, o: Obj, m: map<Ref, Ref>)
    ensures LikeObj(WireObj(nh, env, o), WireObj(nh', env, MapObj(o, m)))
  {
    hide LikeTv, LikeTvs, LikeProto, LikeSlot, LikeItems, WireTv, WireProto, MapProto, WireItems, WireSlot,
         MapTv, MapNode, SlotAt, Look;
    match o
    case Table(arr, nodes, mt) =>
      MapItems(arr, m);
      ItemsLike(nh, nh', env, arr, MapTvs(arr, m), m);
      SlotsLike(nh, nh', env, nodes, m);
    case Proto(p) =>
      ProtoLike(nh, nh', env, p, p.flag, m);
    case CClosure(_, us) => TvsLike(nh, nh', env, us, m);
    case UpClosed(v) => TvLike(nh, nh', env, v, m);
    case Thread(_, stack, frames, _) => TvsLike(nh, nh', env, stack, m);
    case _ =>
  }

  lemma MapItems(arr: seq<TValue>, m: map<Ref, Ref>)
    ensures SameItems(arr, MapTvs(arr, m), m)
  {
  }

  // ---------------------------------------------------- the bytes tell the records

  ghost predicate AllWrite(recs: seq<Rec>) {
    forall i :: 0 <= i < |recs| ==> Writes(recs[i].w)
  }

  lemma EntriesTell(data: seq<byte>, recs: seq<Rec>, es: seq<Entry>, i: nat)
    requires AllWrite(recs) && es == EntriesOf(recs, |recs|) && i < |recs|
    requires At(data, es[i].off, EncObj(recs[i].w))
    ensures recs[i].objid == es[i].objid && OBJ_STRING <= es[i].tc <= OBJ_USERDATA
    ensures ReadObj(es[i].tc, data, es[i].off).Got? && ReadObj(es[i].tc, data, es[i].off).value == recs[i].w
  {
    hide At, EncObj, ReadObj, ValidObj, PlainObj, StartOf;
    ReadsObj(data, es[i].off, recs[i].w);
  }

  lemma IndexTells(data: seq<byte>, n: State, env: Env)
    requires |n.mt| == NUMTYPES && data == EncState(n, env) && ShortRecords(WireRecs(n.heap, env))
    ensures var recs := WireRecs(n.heap, env); var es := EntriesOf(recs, |recs|);
            && |data| >= FOOTER && IndexFrom(data, HEADER, |data| - FOOTER, []) == Indexed(es, |data| - FOOTER)
            && forall i :: 0 <= i < |recs| ==> At(data, es[i].off, EncObj(recs[i].w))
  {
    hide *;
    StateParts(n, env);
    IndexFinds(data, WireRecs(n.heap, env));
  }

  /** Normal forms with the same bytes have the same records. */
  lemma SameRecords(n: State, k: State, env: Env)
    requires |n.mt| == NUMTYPES && ShortRecords(WireRecs(n.heap, env)) && AllWrite(WireRecs(n.heap, env))
    requires |k.mt| == NUMTYPES && ShortRecords(WireRecs(k.heap, env)) && AllWrite(WireRecs(k.heap, env))
    requires EncState(n, env) == EncState(k, env)
    ensures WireRecs(n.heap, env) == WireRecs(k.heap, env)
  {
    hide *;
    var data := EncState(n, env);
    var a, b := WireRecs(n.heap, env), WireRecs(k.heap, env);
    IndexTells(data, n, env);
    IndexTells(data, k, env);
    var es := EntriesOf(a, |a|);
    assert es == EntriesOf(b, |b|);
    forall i | 0 <= i < |a|
      ensures a[i] == b[i]
    {
      EntriesTell(data, a, es, i);
      EntriesTell(data, b, es, i);
    }
  }

  // -------------------------------------------- the tag that a reference carries

  /** The values of an object that are written with their tag bytes. */
  function Tagged(o: Obj): seq<TValue> {
    match o
    case Table(arr, nodes, _) => arr + NodeEdges(nodes)
    case Proto(p) => p.k
    case CClosure(_, us) => us
    case UpClosed(v) => [v]
    case Thread(_, stack, _, _) => stack
    case _ => []
  }

  /** Some reference to `id`, as the stream names it, bears the tag `tag`. */
  ghost predicate Bears(nh: seq<Cell>, id: nat, tag: byte) {
    exists x: nat :: Cast32(x) == Cast32(id) && TagAt(nh, x) == tag
  }

  lemma TvBears(nh: seq<Cell>, nh': seq<Cell>, env: Env, id: Ref, v: TValue)
    requires WireTv(nh', env, v) == WireTv(nh, env, Gc(id))
    ensures Bears(nh', id, TagAt(nh, id))
  {
    assert v.Gc?;
    assert Cast32(v.ref) == Cast32(id) && TagAt(nh', v.ref) == TagAt(nh, id);
  }

  lemma TvsBear(nh: seq<Cell>, nh': seq<Cell>, env: Env, id: Ref, vs: seq<TValue>, vs': seq<TValue>)
    requires WireTvs(nh, env, vs) == WireTvs(nh', env, vs') && Gc(id) in vs
    ensures Bears(nh', id, TagAt(nh, id))
  {
    hide WireTv, Bears, TagAt;
    var i :| 0 <= i < |vs| && vs[i] == Gc(id);
    assert WireTvs(nh, env, vs)[i] == WireTvs(nh', env, vs')[i];
    TvBears(nh, nh', env, id, vs'[i]);
  }

  lemma {:induction false} ItemIn(nh: seq<Cell>, env: Env, arr: seq<TValue>, i: nat)
    requires i < |arr| && !IsNil(arr[i])
    ensures exists w :: w in WireItems(nh, env, arr) && w.val == WireTv(nh, env, arr[i])
  {
    hide WireTv, IsNil;
    var k := |arr| - 1;
    var init := WireItems(nh, env, arr[..k]);
    if i == k {
      assert (init + [WItem(Cast32(k), WireTv(nh, env, arr[k]))])[|init|].val == WireTv(nh, env, arr[i]);
    } else {
      ItemIn(nh, env, arr[..k], i);
      var w :| w in init && w.val == WireTv(nh, env, arr[..k][i]);
      assert w in WireItems(nh, env, arr);
    }
  }

  lemma {:induction false} ItemFrom(nh: seq<Cell>, env: Env, arr: seq<TValue>, w: WItem) returns (i: nat)
    requires w in WireItems(nh, env, arr)
    ensures i < |arr| && w.val == WireTv(nh, env, arr[i])
  {
    hide WireTv, IsNil;
    var k := |arr| - 1;
    if w in WireItems(nh, env, arr[..k]) {
      i := ItemFrom(nh, env, arr[..k], w);
    } else {
      i := k;
    }
  }

  lemma ItemsBear(nh: seq<Cell>, nh': seq<Cell>, env: Env, id: Ref, arr: seq<TValue>, arr': seq<TValue>)
    requires WireItems(nh, env, arr) == WireItems(nh', env, arr') && Gc(id) in arr
    ensures Bears(nh', id, TagAt(nh, id))
  {
    hide WireTv, Bears, TagAt, WireItems;
    var i :| 0 <= i < |arr| && arr[i] == Gc(id);
    ItemIn(nh, env, arr, i);
    var w :| w in WireItems(nh, env, arr) && w.val == WireTv(nh, env, arr[i]);
    var k := ItemFrom(nh', env, arr', w);
    TvBears(nh, nh', env, id, arr'[k]);
  }

  lemma {:induction false} EdgeNode(nodes: seq<Node>, v: TValue) returns (i: nat)
    requires v in NodeEdges(nodes)
    ensures i < |nodes| && v in LiveEdges(nodes[i])
  {
    var k := |nodes| - 1;
    if v in NodeEdges(nodes[..k]) {
      i := EdgeNode(nodes[..k], v);
    } else {
      i := k;
    }
  }

  lemma SlotsBear(nh: seq<Cell>, nh': seq<Cell>, env: Env, id: Ref, ns: seq<Node>, ns': seq<Node>)
    requires WireSlots(nh, env, ns) == WireSlots(nh', env, ns') && Gc(id) in NodeEdges(ns)
    ensures Bears(nh', id, TagAt(nh, id))
  {
    hide WireTv, Bears, TagAt, NodeEdges;
    var i := EdgeNode(ns, Gc(id));
    assert WireSlots(nh, env, ns)[i] == WireSlots(nh', env, ns')[i];
    assert WireSlot(nh, env, ns[i]) == WireSlot(nh', env, ns'[i]);
    if ns[i].val == Gc(id) {
      TvBears(nh, nh', env, id, ns'[i].val);
    } else {
      TvBears(nh, nh', env, id, ns'[i].key.value);
    }
  }

  /** Objects with the same record agree on the tags of what they refer to. */
  lemma RecordBears(nh: seq<Cell>, nh': seq<Cell>, env: Env, id: Ref, o: Obj, o': Obj)
    requires WireObj(nh, env, o) == WireObj(nh', env, o') && Gc(id) in Tagged(o)
    ensures Bears(nh', id, TagAt(nh, id))
  {
    hide WireTv, Bears, TagAt, NodeEdges, WireItems, WireSlot, WireFrame, SlotAt;
    match o
    case Table(arr, nodes, _) =>
      if Gc(id) in arr {
        ItemsBear(nh, nh', env, id, arr, o'.arr);
      } else {
        SlotsBear(nh, nh', env, id, nodes, o'.nodes);
      }
    case Proto(p) => TvsBear(nh, nh', env, id, p.k, o'.p.k);
    case CClosure(_, us) => TvsBear(nh, nh', env, id, us, o'.ups);
    case UpClosed(v) => TvBears(nh, nh', env, id, o'.v);
    case Thread(_, stack, _, _) => TvsBear(nh, nh', env, id, stack, o'.stack);
    case _ => assert false;
  }
}
