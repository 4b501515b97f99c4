// Loading where other functions are known by name: it succeeds exactly if all the names that the
// snapshot uses are.
module KnownNames {
  import opened Bytes
  import opened Heap
  import opened Discovery
  import opened Wire
  import opened Records
  import opened Snapshot
  import opened WellFormed
  import opened SaveVerdict
  import opened LoadSpec
  import opened NormalForm
  import opened LoadIndex
  import opened LoadPasses
  import opened Restore
  import opened LoadSafety
  import opened RecordVerdict
  import opened LoadVerdict
  import opened RoundTrip
  import opened StringLaw

  // ------------------------------------------------------------ the names in a record

  predicate NameKnown(env: Env, w: WTv) {
    w.WCf? ==> w.name in env.cfn
  }

  predicate SlotKnown(env: Env, w: WSlot) {
    w.WSlot? ==> NameKnown(env, w.val) && (w.key.WLive? ==> NameKnown(env, w.key.value))
  }

  predicate KontKnown(env: Env, f: WFrame) {
    f.arm.WC? && f.arm.kont.WKont? ==> f.arm.kont.name in env.kfn
  }

  /** Every name of a C function or a continuation in the record is known. */
  predicate WireKnown(env: Env, w: WObj) {
    match w
    case WTab(t) =>
      && (forall i :: 0 <= i < |t.arr| ==> NameKnown(env, t.arr[i].val))
      && (forall i :: 0 <= i < |t.slots| ==> SlotKnown(env, t.slots[i]))
    case WPro(p) => forall i :: 0 <= i < |p.k| ==> NameKnown(env, p.k[i])
    case WCCl(named, name, us) => (named ==> name in env.cfn) && forall i :: 0 <= i < |us| ==> NameKnown(env, us[i])
    case WUpClosed(v) => NameKnown(env, v)
    case WThr(t) =>
      && (forall i :: 0 <= i < |t.stack| ==> NameKnown(env, t.stack[i]))
      && (forall i :: 0 <= i < |t.frames| ==> KontKnown(env, t.frames[i]))
    case _ => true
  }

  /** A record that is as it must be for one environment is so for another if its names are known. */
  lemma RecordElsewhere(env: Env, env': Env, types: seq<byte>, w: WObj)
    requires RecordOk(env, types, w)
    ensures RecordOk(env', types, w) <==> WireKnown(env', w)
  {
    match w
    case WTab(t) => TableElsewhere(env, env', types, t);
    case WPro(p) => ValuesElsewhere(env, env', types, p.k);
    case WThr(t) => ThreadElsewhere(env, env', types, t);
    case WCCl(_, _, us) => ValuesElsewhere(env, env', types, us);
    case _ =>
  }

  lemma ValuesElsewhere(env: Env, env': Env, types: seq<byte>, ws: seq<WTv>)
    requires ValuesOk(env, types, ws)
    ensures ValuesOk(env', types, ws) <==> forall i :: 0 <= i < |ws| ==> NameKnown(env', ws[i])
  {
    forall i | 0 <= i < |ws| ensures ValueOk(env', types, ws[i]) <==> NameKnown(env', ws[i]) {
      assert ValueOk(env, types, ws[i]);
    }
    hide ValueOk, NameKnown;
  }

  lemma TableElsewhere(env: Env, env': Env, types: seq<byte>, t: WTable)
    requires TableOk(env, types, t)
    ensures TableOk(env', types, t) <==> WireKnown(env', WTab(t))
  {
    forall i | 0 <= i < |t.arr| ensures ValueOk(env', types, t.arr[i].val) <==> NameKnown(env', t.arr[i].val) {
      assert ValueOk(env, types, t.arr[i].val);
    }
    forall i | 0 <= i < |t.slots|
      ensures SlotOk(env', types, i, |t.slots|, t.slots[i]) <==> SlotKnown(env', t.slots[i])
    {
      assert SlotOk(env, types, i, |t.slots|, t.slots[i]);
    }
    hide ValueOk, NameKnown, SlotOk, SlotKnown;
  }

  lemma ThreadElsewhere(env: Env, env': Env, types: seq<byte>, t: WThread)
    requires ThreadOk(env, types, t)
    ensures ThreadOk(env', types, t) <==> WireKnown(env', WThr(t))
  {
    ValuesElsewhere(env, env', types, t.stack);
    forall i | 0 <= i < |t.frames|
      ensures FrameOk(env', types, t.frames[i]) <==> KontKnown(env', t.frames[i])
    {
      assert FrameOk(env, types, t.frames[i]);
    }
    hide NameKnown, FrameOk, KontKnown, ValuesOk, ValueOk;
  }

  /** The record can be read, and its names are known. */
  ghost predicate EntryKnown(data: seq<byte>, env: Env, e: Entry) {
    && OBJ_STRING <= e.tc <= OBJ_USERDATA && ReadObj(e.tc, data, e.off).Got?
    && WireKnown(env, ReadObj(e.tc, data, e.off).value)
  }

  /** For any bytes that are accepted: they are accepted elsewhere exactly if the names in their
      records are known there. */
  lemma AcceptedElsewhere(data: seq<byte>, env: Env, env': Env, es: seq<Entry>)
    requires Sensible(data, env, es)
    ensures Acceptable(data, env') <==>
              forall i :: 0 <= i < |es| ==> EntryKnown(data, env', es[i])
  {
    hide ReadObj, Tiled, ReadRoots, RootsFit, RecordOk, WireKnown;
    forall i | 0 <= i < |es|
      ensures OBJ_STRING <= es[i].tc <= OBJ_USERDATA && ReadObj(es[i].tc, data, es[i].off).Got?
      ensures Fine(data, env', KindsOf(es), es[i]) <==> WireKnown(env', ReadObj(es[i].tc, data, es[i].off).value)
    {
      assert Fine(data, env, KindsOf(es), es[i]);
      RecordElsewhere(env, env', KindsOf(es), ReadObj(es[i].tc, data, es[i].off).value);
    }
    if Acceptable(data, env') {
      var es' :| Sensible(data, env', es');
      OneCut(data, es, es');
    } else {
      assert !Sensible(data, env', es);
    }
  }

  /** A buffer can be cut in one way only. */
  lemma OneCut(data: seq<byte>, es: seq<Entry>, es': seq<Entry>)
    requires |data| >= HEADER + FOOTER && Tiled(data, es, HEADER, |data| - FOOTER)
    requires Tiled(data, es', HEADER, |data| - FOOTER)
    ensures es == es'
  {
    hide Tiled, IndexFrom;
    WalkFinds(data, es, HEADER, |data| - FOOTER, []);
    WalkFinds(data, es', HEADER, |data| - FOOTER, []);
    assert [] + es == es && [] + es' == es';
  }

  // --------------------------------------------------------- the names of an object

  /** The value is no C function, or one whose name is known elsewhere. */
  predicate FnKnown(env: Env, env': Env, v: TValue) {
    v.LightC? ==> Lookup(env.cname, v.fn, []) in env'.cfn
  }

  predicate NodeKnown(env: Env, env': Env, n: Node) {
    n.Node? ==> FnKnown(env, env', n.val) && (n.key.Live? ==> FnKnown(env, env', n.key.value))
  }

  predicate FrameKnown(env: Env, env': Env, f: Frame) {
    f.arm.CArm? && f.arm.kont != 0 ==> Lookup(env.kname, f.arm.kont, []) in env'.kfn
  }

  predicate ObjKnown(env: Env, env': Env, o: Obj) {
    match o
    case Table(arr, nodes, _) =>
      && (forall i :: 0 <= i < |arr| ==> FnKnown(env, env', arr[i]))
      && (forall i :: 0 <= i < |nodes| ==> NodeKnown(env, env', nodes[i]))
    case Proto(p) => forall i :: 0 <= i < |p.k| ==> FnKnown(env, env', p.k[i])
    case CClosure(fn, us) =>
      Lookup(env.cname, fn, []) in env'.cfn && forall i :: 0 <= i < |us| ==> FnKnown(env, env', us[i])
    case UpClosed(v) => FnKnown(env, env', v)
    case Thread(_, stack, frames, _) =>
      && (forall i :: 0 <= i < |stack| ==> FnKnown(env, env', stack[i]))
      && (forall i :: 0 <= i < |frames| ==> FrameKnown(env, env', frames[i]))
    case _ => true
  }

  lemma ValueNames(nh: seq<Cell>, env: Env, env': Env, v: TValue)
    ensures NameKnown(env', WireTv(nh, env, v)) <==> FnKnown(env, env', v)
  {
    hide TagAt;
  }

  lemma ListNames(nh: seq<Cell>, env: Env, env': Env, vs: seq<TValue>)
    ensures (forall i :: 0 <= i < |vs| ==> NameKnown(env', WireTvs(nh, env, vs)[i])) <==>
              (forall i :: 0 <= i < |vs| ==> FnKnown(env, env', vs[i]))
  {
    hide NameKnown, FnKnown, WireTv;
    forall i | 0 <= i < |vs| ensures NameKnown(env', WireTvs(nh, env, vs)[i]) <==> FnKnown(env, env', vs[i]) {
      ValueNames(nh, env, env', vs[i]);
    }
  }

  lemma {:induction false} ItemNames(nh: seq<Cell>, env: Env, env': Env, arr: seq<TValue>)
    ensures (forall i :: 0 <= i < |WireItems(nh, env, arr)| ==> NameKnown(env', WireItems(nh, env, arr)[i].val)) <==>
              (forall i :: 0 <= i < |arr| ==> FnKnown(env, env', arr[i]))
  {
    if arr != [] {
      var k := |arr| - 1;
      hide WireTv, NameKnown;
      ItemNames(nh, env, env', arr[..k]);
      ValueNames(nh, env, env', arr[k]);
      var w, v := WireItems(nh, env, arr), WireItems(nh, env, arr[..k]);
      if IsNil(arr[k]) {
        assert FnKnown(env, env', arr[k]);
      } else {
        assert w == v + [WItem(Cast32(k), WireTv(nh, env, arr[k]))];
        assert w[|v|].val == WireTv(nh, env, arr[k]) && forall i :: 0 <= i < |v| ==> w[i] == v[i];
      }
      assert forall i :: 0 <= i < k ==> arr[..k][i] == arr[i];
    }
  }

  lemma SlotNames(nh: seq<Cell>, env: Env, env': Env, ns: seq<Node>)
    ensures (forall i :: 0 <= i < |ns| ==> SlotKnown(env', WireSlots(nh, env, ns)[i])) <==>
              (forall i :: 0 <= i < |ns| ==> NodeKnown(env, env', ns[i]))
  {
    forall i | 0 <= i < |ns| ensures SlotKnown(env', WireSlots(nh, env, ns)[i]) <==> NodeKnown(env, env', ns[i]) {
      var n := ns[i];
      if n.Node? {
        ValueNames(nh, env, env', n.val);
        if n.key.Live? {
          ValueNames(nh, env, env', n.key.value);
        }
      }
      hide WireTv, NameKnown, FnKnown;
    }
    hide SlotKnown, NodeKnown, WireSlot;
  }

  lemma FrameNames(env: Env, env': Env, fs: seq<Frame>)
    ensures (forall i :: 0 <= i < |fs| ==> KontKnown(env', WireFrames(env, fs)[i])) <==>
              (forall i :: 0 <= i < |fs| ==> FrameKnown(env, env', fs[i]))
  {
    forall i | 0 <= i < |fs| ensures KontKnown(env', WireFrames(env, fs)[i]) <==> FrameKnown(env, env', fs[i]) {
    }
    hide KontKnown, FrameKnown, WireFrame;
  }

  /** The names in the record of an object are those of the functions it uses. */
  lemma RecordNames(nh: seq<Cell>, env: Env, env': Env, o: Obj)
    ensures WireKnown(env', WireObj(nh, env, o)) <==> ObjKnown(env, env', o)
  {
    hide WireTvs, WireItems, WireSlots, WireFrames, NameKnown, FnKnown, SlotKnown, NodeKnown, KontKnown, FrameKnown;
    hide WireTv, WireOpens, WireIds, WireUps, WireVars;
    match o
    case Table(arr, nodes, _) =>
      ItemNames(nh, env, env', arr);
      SlotNames(nh, env, env', nodes);
    case Proto(p) => ListNames(nh, env, env', p.k);
    case CClosure(_, us) => ListNames(nh, env, env', us);
    case UpClosed(v) => ValueNames(nh, env, env', v);
    case Thread(_, stack, frames, _) =>
      ListNames(nh, env, env', stack);
      FrameNames(env, env', frames);
    case _ =>
  }

  lemma MappedList(env: Env, env': Env, vs: seq<TValue>, m: map<Ref, Ref>)
    ensures (forall i :: 0 <= i < |vs| ==> FnKnown(env, env', MapTvs(vs, m)[i])) <==>
              (forall i :: 0 <= i < |vs| ==> FnKnown(env, env', vs[i]))
    ensures (forall i :: 0 <= i < |vs| ==> FnKnown(env, env', CanonArr(vs)[i])) <==>
              (forall i :: 0 <= i < |vs| ==> FnKnown(env, env', vs[i]))
  {
    forall i | 0 <= i < |vs|
      ensures FnKnown(env, env', MapTvs(vs, m)[i]) == FnKnown(env, env', vs[i])
      ensures FnKnown(env, env', CanonArr(vs)[i]) == FnKnown(env, env', vs[i])
    {
    }
    hide FnKnown;
  }

  lemma MappedNodes(env: Env, env': Env, ns: seq<Node>, m: map<Ref, Ref>)
    ensures (forall i :: 0 <= i < |ns| ==> NodeKnown(env, env', MapNodes(ns, m)[i])) <==>
              (forall i :: 0 <= i < |ns| ==> NodeKnown(env, env', ns[i]))
  {
    forall i | 0 <= i < |ns| ensures NodeKnown(env, env', MapNodes(ns, m)[i]) == NodeKnown(env, env', ns[i]) {
    }
    hide NodeKnown, MapNode;
  }

  lemma MappedFrames(env: Env, env': Env, h: seq<Cell>, fs: seq<Frame>, m: map<Ref, Ref>)
    ensures (forall i :: 0 <= i < |fs| ==> FrameKnown(env, env', MapFrames(CanonFrames(h, fs), m)[i])) <==>
              (forall i :: 0 <= i < |fs| ==> FrameKnown(env, env', fs[i]))
  {
    forall i | 0 <= i < |fs|
      ensures FrameKnown(env, env', MapFrames(CanonFrames(h, fs), m)[i]) == FrameKnown(env, env', fs[i])
    {
      hide HasHiddenVarargs, Bit;
      assert CanonFrames(h, fs)[i] == CanonFrame(h, fs[i]);
    }
    hide FrameKnown, MapFrame, CanonFrame;
  }

  /** The normal form uses the same functions. */
  lemma NormalNames(env: Env, env': Env, h: seq<Cell>, o: Obj, m: map<Ref, Ref>)
    ensures ObjKnown(env, env', MapObj(Canon(h, o), m)) <==> ObjKnown(env, env', o)
  {
    hide FnKnown, NodeKnown, FrameKnown, MapTvs, MapNodes, MapFrames, CanonFrames, CanonArr, MapRefs, StripFixed;
    hide MapUps, MapVars;
    match o
    case Table(arr, nodes, _) =>
      MappedList(env, env', CanonArr(arr), m);
      MappedList(env, env', arr, m);
      MappedNodes(env, env', nodes, m);
    case Proto(p) => MappedList(env, env', p.k, m);
    case CClosure(_, us) => MappedList(env, env', us, m);
    case UpClosed(v) => OneMapped(env, env', v, m);
    case Thread(_, stack, frames, _) =>
      MappedList(env, env', stack, m);
      MappedFrames(env, env', h, frames, m);
    case _ =>
  }

  lemma OneMapped(env: Env, env': Env, v: TValue, m: map<Ref, Ref>)
    ensures FnKnown(env, env', MapTv(v, m)) == FnKnown(env, env', v)
  {
  }

  /** The object uses a C function, or waits in a continuation, whose name is not known elsewhere. */
  ghost predicate Foreign(env: Env, env': Env, o: Obj) {
    || (exists f :: Mentions(o, LightC(f)) && Lookup(env.cname, f, []) !in env'.cfn)
    || (o.CClosure? && Lookup(env.cname, o.fn, []) !in env'.cfn)
    || (o.Thread? && exists i :: 0 <= i < |o.frames| && !FrameKnown(env, env', o.frames[i]))
  }

  lemma ListForeign(env: Env, env': Env, vs: seq<TValue>)
    ensures (forall i :: 0 <= i < |vs| ==> FnKnown(env, env', vs[i])) <==>
              !exists f :: LightC(f) in vs && Lookup(env.cname, f, []) !in env'.cfn
  {
    if i :| 0 <= i < |vs| && !FnKnown(env, env', vs[i]) {
      assert LightC(vs[i].fn) in vs;
    }
  }

  lemma NodesForeign(env: Env, env': Env, ns: seq<Node>)
    requires forall i :: 0 <= i < |ns| && ns[i].Node? && ns[i].key.Dead? ==> IsNil(ns[i].val)
    ensures (forall i :: 0 <= i < |ns| ==> NodeKnown(env, env', ns[i])) <==>
              !exists f, i :: 0 <= i < |ns| && Holds(ns[i], LightC(f)) && Lookup(env.cname, f, []) !in env'.cfn
  {
    if i :| 0 <= i < |ns| && !NodeKnown(env, env', ns[i]) {
      var v := if FnKnown(env, env', ns[i].val) then ns[i].key.value else ns[i].val;
      assert Holds(ns[i], LightC(v.fn));
    }
    if f, i :| 0 <= i < |ns| && Holds(ns[i], LightC(f)) && Lookup(env.cname, f, []) !in env'.cfn {
      assert !NodeKnown(env, env', ns[i]);
    }
  }

  lemma TableForeign(env: Env, env': Env, o: Obj)
    requires o.Table? && forall i :: 0 <= i < |o.nodes| && o.nodes[i].Node? && o.nodes[i].key.Dead? ==> IsNil(o.nodes[i].val)
    ensures ObjKnown(env, env', o) <==> !Foreign(env, env', o)
  {
    hide FnKnown, NodeKnown, Holds, FrameKnown;
    ListForeign(env, env', o.arr);
    NodesForeign(env, env', o.nodes);
    forall f ensures Mentions(o, LightC(f)) <==> LightC(f) in o.arr || exists i :: 0 <= i < |o.nodes| && Holds(o.nodes[i], LightC(f)) {
    }
  }

  lemma ForeignIs(env: Env, env': Env, o: Obj)
    requires o.Table? ==> forall i :: 0 <= i < |o.nodes| && o.nodes[i].Node? && o.nodes[i].key.Dead? ==> IsNil(o.nodes[i].val)
    requires o.Udata? ==> o.uvs == []
    ensures ObjKnown(env, env', o) <==> !Foreign(env, env', o)
  {
    hide NodeKnown, Holds, FrameKnown;
    match o
    case Table(_, _, _) => TableForeign(env, env', o);
    case Proto(p) =>
      ListForeign(env, env', p.k);
      forall f ensures Mentions(o, LightC(f)) <==> LightC(f) in p.k { }
    case CClosure(_, us) =>
      ListForeign(env, env', us);
      forall f ensures Mentions(o, LightC(f)) <==> LightC(f) in us { }
    case UpClosed(v) =>
      if !FnKnown(env, env', v) {
        assert Mentions(o, LightC(v.fn));
      }
    case Thread(_, stack, _, _) =>
      ListForeign(env, env', stack);
      forall f ensures Mentions(o, LightC(f)) <==> LightC(f) in stack { }
    case _ =>
  }

  // -------------------------------------------------------------- a snapshot, loaded elsewhere

  ghost predicate ReachedForeign(s: State, env: Env, env': Env, x: Ref) {
    Reached(s, x) && x < |s.heap| && Foreign(env, env', s.heap[x].obj)
  }

  lemma ForeignParts(s: State, env: Env, env': Env, x: Ref)
    ensures ReachedForeign(s, env, env', x) <==> Reached(s, x) && x < |s.heap| && Foreign(env, env', s.heap[x].obj)
  {
    hide Reached, Foreign;
  }

  /** What the index finds at the place of an object is the record of its normal form. */
  lemma RecordOf(data: seq<byte>, s: State, env: Env, env': Env, es: seq<Entry>, i: nat)
    requires GoodState(s) && Savable(s, env) && Indexes(data, env, Normal(s).heap, es) && i < |es|
    ensures |es| == |Order(s)| && Order(s)[i] < |s.heap|
    ensures EntryKnown(data, env', es[i]) <==> !Foreign(env, env', s.heap[Order(s)[i]].obj)
  {
    hide ReadObj, Normal, Order, Ids, WireObj, MapObj, Canon, WireKnown, Foreign, ObjKnown, FineAt, GoodAt, Writable;
    hide GoodState, Savable;
    NormalSize(s);
    CellOf(s, i);
    var r, nh := Order(s)[i], Normal(s).heap;
    assert EntryFor(data, env, nh, es[i], i + 1);
    RecordNames(nh, env, env', nh[i + 1].obj);
    NormalNames(env, env', s.heap, s.heap[r].obj, Ids(Order(s)));
    IsStored(s, env, r);
    NilsOfDead(s.heap, env, r);
    ForeignIs(env, env', s.heap[r].obj);
  }

  lemma NilsOfDead(h: seq<Cell>, env: Env, r: Ref)
    requires r < |h| && GoodAt(h, r) && Writable(env, h[r].obj)
    ensures var o := h[r].obj;
            && (o.Table? ==> forall i :: 0 <= i < |o.nodes| && o.nodes[i].Node? && o.nodes[i].key.Dead? ==> IsNil(o.nodes[i].val))
            && (o.Udata? ==> o.uvs == [])
  {
    if h[r].obj.Table? {
      assert forall i :: 0 <= i < |h[r].obj.nodes| ==> GoodNode(h[r].obj.nodes[i], i, |h[r].obj.nodes|);
    }
  }

  /** Loaded where other functions are known, a snapshot is accepted exactly if no object that the
      roots lead to uses a name that is missing there; and is refused otherwise. */
  lemma ReloadElsewhere(s: State, env: Env, env': Env, base: State)
    requires Storable(s, env) && GoodBase(base) && SafeState(base)
    ensures Save(s, env).Snapshot? && base.main < |base.heap|
    ensures var r := LoadState(Save(s, env).bytes, env', base);
            && (r.Loaded? <==> !exists x :: ReachedForeign(s, env, env', x))
            && (r == Failed <==> exists x :: ReachedForeign(s, env, env', x))
  {
    hide *;
    StorableSaves(s, env);
    StorableParts(s, env);
    NormalIsFine(s, env);
    OrderIsReached(s);
    BaseParts(base);
    var n := Normal(s);
    var data := EncState(n, env);
    var es := EntriesOf(WireRecs(n.heap, env), |WireRecs(n.heap, env)|);
    SnapshotParses(data, env, n, es);
    LoadRestores(n, env, base);
    SavedIsSensible(data, env, base, es);
    AcceptedElsewhere(data, env, env', es);
    StaysInPlace(data, env, es);
    AcceptsExactly(data, env', base);
    NeverUndefined(data, env', base);
    NamesOfAll(data, s, env, env', es);
  }

  lemma SavedIsSensible(data: seq<byte>, env: Env, base: State, es: seq<Entry>)
    requires SafeState(base) && base.main < |base.heap| && LoadState(data, env, base).Loaded?
    requires |data| >= HEADER + FOOTER && IndexFrom(data, HEADER, |data| - FOOTER, []) == Indexed(es, |data| - FOOTER)
    ensures Sensible(data, env, es)
  {
    hide LoadState, IndexFrom, Tiled, SafeState, Fine, ReadRoots, RootsFit;
    AcceptsExactly(data, env, base);
    var es' :| Sensible(data, env, es');
    WalkFinds(data, es', HEADER, |data| - FOOTER, []);
    assert [] + es' == es';
  }

  lemma StaysInPlace(data: seq<byte>, env: Env, es: seq<Entry>)
    requires Sensible(data, env, es)
    ensures |data| >= HEADER + FOOTER ==>
              forall es' :: Tiled(data, es', HEADER, |data| - FOOTER) ==> AllInPlace(data, es')
  {
    hide Tiled, Fine, InPlace, ReadRoots, RootsFit;
    forall es' | Tiled(data, es', HEADER, |data| - FOOTER)
      ensures AllInPlace(data, es')
    {
      OneCut(data, es, es');
      forall i | 0 <= i < |es| ensures InPlace(data, es[i]) {
        FineInPlace(data, env, KindsOf(es), es[i]);
      }
    }
  }

  lemma NamesOfAll(data: seq<byte>, s: State, env: Env, env': Env, es: seq<Entry>)
    requires GoodState(s) && Savable(s, env) && Indexes(data, env, Normal(s).heap, es)
    requires forall r :: r in Order(s) <==> Reached(s, r)
    ensures (forall i :: 0 <= i < |es| ==> EntryKnown(data, env', es[i])) <==>
              !exists x :: ReachedForeign(s, env, env', x)
  {
    hide *;
    NormalSize(s);
    IndexSize(data, env, Normal(s).heap, es);
    forall i | 0 <= i < |es|
      ensures |es| == |Order(s)| && Order(s)[i] < |s.heap| && Order(s)[i] in Order(s)
      ensures EntryKnown(data, env', es[i]) <==> !ReachedForeign(s, env, env', Order(s)[i])
    {
      RecordOf(data, s, env, env', es, i);
      ForeignParts(s, env, env', Order(s)[i]);
      assert Order(s)[i] in Order(s);
    }
    if x: Ref :| ReachedForeign(s, env, env', x) {
      ForeignParts(s, env, env', x);
      assert x in Order(s);
      var i :| 0 <= i < |Order(s)| && Order(s)[i] == x;
      assert 0 <= i < |es|;
    }
  }

  lemma IndexSize(data: seq<byte>, env: Env, nh: seq<Cell>, es: seq<Entry>)
    requires Indexes(data, env, nh, es)
    ensures |es| == |nh| - 1
  {
    hide FineAt, EntryFor;
  }
}
