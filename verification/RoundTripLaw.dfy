// When saving and loading loses nothing: exactly when every open upvalue that is saved
// belongs to a thread that is saved, and every saved string that is short enough to be
// interned is.
module RoundTripLaw {
  import opened Bytes
  import opened Heap
  import opened Graph
  import opened Discovery
  import opened Wire
  import opened Records
  import opened Snapshot
  import opened WellFormed
  import opened Saving
  import opened Canonical
  import opened NormalForm
  import opened LoadSpec
  import opened LoadPasses
  import opened LoadIndex
  import opened Restore
  import opened Severance
  import opened RoundTrip
  import opened SaveLoad
  import opened Likeness
  import opened LoadedStates
  import opened StringLaw

  /** The outcome of loading what a save of `s` wrote. */
  ghost function Reloaded(s: State, env: Env, base: State): Outcome
    requires Save(s, env).Snapshot? && base.main < |base.heap|
  {
    LoadState(Save(s, env).bytes, env, base)
  }

  /** Loading a snapshot always succeeds and brings everything back, field by field, up to the
      open upvalues whose thread was not saved, which come back closed and holding nil, and up
      to strings that are made one. If the strings are interned as they should be, the result
      is isomorphic to the state without those threads. */
  lemma SaveThenLoad(s: State, env: Env, base: State)
    requires Storable(s, env) && GoodBase(base)
    ensures Save(s, env).Snapshot? && base.main < |base.heap|
    ensures var r := Reloaded(s, env, base);
            && r.Loaded? && Restores(Normal(s), r.state, r.ptr)
            && BroughtBack(s, r.state, Through(Ids(Order(s)), r.ptr))
            && (StringsInterned(s) ==>
                  && Isomorphic(Severed(s), r.state, Through(Ids(Order(s)), r.ptr))
                  && Save(r.state, env) == Save(Severed(s), env))
  {
    hide *;
    StorableSaves(s, env);
    BaseParts(base);
    StorableParts(s, env);
    NormalIsFine(s, env);
    LoadRestores(Normal(s), env, base);
    ReloadedIs(s, env, base);
    var r := Reloaded(s, env, base);
    AllBack(s, env, r.state, r.ptr);
    if StringsInterned(s) {
      NormalExact(s);
      LoadedIsIsomorphic(s, env, r.state, r.ptr);
      SeveredIsGood(s);
      SaveIsCanonical(Severed(s), r.state, env, Through(Ids(Order(s)), r.ptr));
    }
  }

  lemma ReloadedIs(s: State, env: Env, base: State)
    requires Save(s, env) == Saved.Snapshot(EncState(Normal(s), env)) && base.main < |base.heap|
    ensures Reloaded(s, env, base) == LoadState(EncState(Normal(s), env), env, base)
  {
    hide Save, EncState, Normal, LoadState;
  }

  // ------------------------------------------ nothing lost: an isomorphic state

  lemma OwnedCell(s: State, st: State, r: Ref, m: map<Ref, Ref>)
    requires UpvaluesOwned(s) && r in Order(s) && r in m && SameCell(Severed(s).heap, st.heap, r, m)
    ensures SameCell(s.heap, st.heap, r, m)
  {
    hide Order, MapObj, Canon, Closed, SeveredCells, UpvaluesOwned;
    OwnedStays(s, r);
    CanonOfSevered(s, s.heap[r].obj);
  }

  lemma OwnedIsIsomorphic(s: State, st: State, m: map<Ref, Ref>)
    requires UpvaluesOwned(s) && Isomorphic(Severed(s), st, m) && forall r :: r in m ==> r in Order(s)
    ensures Isomorphic(s, st, m)
  {
    hide Order, SameCell, UpvaluesOwned, SeveredCells, Injective, Carried;
    forall r {:trigger m[r]} | r in m
      ensures SameCell(s.heap, st.heap, r, m)
    {
      OwnedCell(s, st, r, m);
    }
  }

  /** Without losses the load gives an isomorphic state. */
  lemma NothingLost(s: State, env: Env, base: State)
    requires Storable(s, env) && GoodBase(base) && UpvaluesOwned(s) && StringsInterned(s)
    ensures Save(s, env).Snapshot? && base.main < |base.heap|
    ensures var r := Reloaded(s, env, base); r.Loaded? && Isomorphic(s, r.state, Through(Ids(Order(s)), r.ptr))
  {
    hide *;
    SaveThenLoad(s, env, base);
    var r := Reloaded(s, env, base);
    ThroughKeys(s, r.ptr);
    OwnedIsIsomorphic(s, r.state, Through(Ids(Order(s)), r.ptr));
  }

  lemma ThroughKeys(s: State, ptr: seq<Ref>)
    ensures forall r :: r in Through(Ids(Order(s)), ptr) ==> r in Order(s)
  {
    hide Ids, Order;
  }

  // -------------------------------------------------- nothing lost: same bytes

  lemma SeveredCell(s: State, i: nat)
    requires GoodState(s) && i < |Order(s)|
    ensures |Normal(Severed(s)).heap| == |Normal(s).heap| == |Order(s)| + 1
    ensures var r := Order(s)[i]; var nh := Normal(s).heap;
            && r < |s.heap|
            && Normal(Severed(s)).heap[i + 1]
               == if s.heap[r].obj.UpOpen? && s.heap[r].obj.thread !in Order(s) then Cell(nh[i + 1].objid, UpClosed(TValue.Nil)) else nh[i + 1]
  {
    hide Order, Ids, Normal, Canon, MapObj, GoodState, SeveredCells;
    var r := Order(s)[i];
    SeveredOrder(s);
    CellOf(s, i);
    CellOf(Severed(s), i);
    SeveredAt(s, r);
    CanonOfSevered(s, Sever(s.heap[r].obj, true, Order(s)));
    ClosedNil(s.heap, Ids(Order(s)));
  }

  lemma WireTvsSame(nh: seq<Cell>, nh': seq<Cell>, env: Env, vs: seq<TValue>)
    requires forall id :: TagAt(nh, id) == TagAt(nh', id)
    ensures WireTvs(nh, env, vs) == WireTvs(nh', env, vs)
  {
    hide TagAt;
  }

  lemma {:induction false} WireItemsSame(nh: seq<Cell>, nh': seq<Cell>, env: Env, arr: seq<TValue>)
    requires forall id :: TagAt(nh, id) == TagAt(nh', id)
    ensures WireItems(nh, env, arr) == WireItems(nh', env, arr)
  {
    hide TagAt;
    if arr != [] {
      WireItemsSame(nh, nh', env, arr[..|arr| - 1]);
    }
  }

  lemma WireSlotsSame(nh: seq<Cell>, nh': seq<Cell>, env: Env, ns: seq<Node>)
    requires forall id :: TagAt(nh, id) == TagAt(nh', id)
    ensures WireSlots(nh, env, ns) == WireSlots(nh', env, ns)
  {
    hide TagAt;
  }

  lemma WireOpensSame(nh: seq<Cell>, nh': seq<Cell>, open: seq<Ref>)
    requires forall i :: 0 <= i < |open| ==> SlotAt(nh, open[i]) == SlotAt(nh', open[i])
    ensures WireOpens(nh, open) == WireOpens(nh', open)
  {
    hide SlotAt;
  }

  /** A record depends on the other cells only by their tags, and on upvalues by their slots. */
  lemma WireSame(nh: seq<Cell>, nh': seq<Cell>, env: Env, o: Obj)
    requires forall id :: TagAt(nh, id) == TagAt(nh', id)
    requires o.Thread? ==> forall i :: 0 <= i < |o.open| ==> SlotAt(nh, o.open[i]) == SlotAt(nh', o.open[i])
    ensures WireObj(nh, env, o) == WireObj(nh', env, o)
  {
    hide WireTvs, WireItems, WireSlots, WireOpens, SlotAt;
    match o
    case Table(arr, nodes, _) =>
      WireItemsSame(nh, nh', env, arr);
      WireSlotsSame(nh, nh', env, nodes);
    case Proto(p) => WireTvsSame(nh, nh', env, p.k);
    case CClosure(_, us) => WireTvsSame(nh, nh', env, us);
    case Thread(_, stack, _, open) =>
      WireTvsSame(nh, nh', env, stack);
      WireOpensSame(nh, nh', open);
    case _ =>
  }

  lemma TagFrom(nh: seq<Cell>, nh': seq<Cell>, id: nat)
    requires |nh| == |nh'| > 0 && nh[0] == nh'[0]
    requires 0 < id < |nh| ==> nh'[id] == nh[id] || (nh[id].obj.UpOpen? && nh'[id].obj.UpClosed?)
    ensures TagAt(nh, id) == TagAt(nh', id)
  {
  }

  lemma TagSame(s: State, id: nat)
    requires GoodState(s)
    ensures TagAt(Normal(s).heap, id) == TagAt(Normal(Severed(s)).heap, id)
  {
    hide *;
    NormalSize(s);
    NormalSize(Severed(s));
    SeveredOrder(s);
    if 0 < id < |Normal(s).heap| {
      SeveredCell(s, id - 1);
      LostTag(s, id - 1);
    }
    TagFrom(Normal(s).heap, Normal(Severed(s)).heap, id);
  }

  lemma TagsSame(s: State)
    requires GoodState(s)
    ensures forall id :: TagAt(Normal(s).heap, id) == TagAt(Normal(Severed(s)).heap, id)
  {
    hide *;
    forall id: nat
      ensures TagAt(Normal(s).heap, id) == TagAt(Normal(Severed(s)).heap, id)
    {
      TagSame(s, id);
    }
  }

  lemma LostTag(s: State, i: nat)
    requires GoodState(s) && i < |Order(s)|
    ensures var r := Order(s)[i]; i + 1 < |Normal(s).heap| && r < |s.heap| && (Normal(s).heap[i + 1].obj.UpOpen? <==> s.heap[r].obj.UpOpen?)
  {
    hide Order, Ids, Normal, GoodState, MapObj, Canon;
    CellOf(s, i);
    KindKept(s.heap, s.heap[Order(s)[i]].obj, Ids(Order(s)));
  }

  /** The upvalues in the list of a saved thread are the same in both normal forms. */
  lemma SlotsSame(s: State, env: Env, i: nat, k: nat)
    requires GoodState(s) && Savable(s, env) && i < |Order(s)|
    ensures i + 1 < |Normal(s).heap|
    ensures var o := Normal(s).heap[i + 1].obj;
            o.Thread? && k < |o.open| ==> SlotAt(Normal(s).heap, o.open[k]) == SlotAt(Normal(Severed(s)).heap, o.open[k])
  {
    hide Order, Ids, Normal, MapObj, Canon, Savable, SaneAt, SeveredCells, EdgesNamed, GoodFrame;
    var r := Order(s)[i];
    CellOf(s, i);
    IsStored(s, env, r);
    var th := s.heap[r].obj;
    KindKept(s.heap, th, Ids(Order(s)));
    if th.Thread? {
      PartsNamed(s.heap, r, Ids(Order(s)));
      OpenList(s.heap, th, Ids(Order(s)));
      if k < |th.open| {
        var u := th.open[k];
        var j :| 0 <= j < |Order(s)| && Order(s)[j] == u;
        CellOf(s, j);
        SeveredCell(s, j);
      }
    }
  }

  lemma OpenList(h: seq<Cell>, o: Obj, ids: map<Ref, Ref>)
    requires o.Thread?
    ensures MapObj(Canon(h, o), ids).Thread? && MapObj(Canon(h, o), ids).open == MapRefs(o.open, ids)
  {
    hide CanonFrames, MapFrames, MapTvs, MapRefs;
  }

  lemma RecordSame(s: State, env: Env, i: nat)
    requires GoodState(s) && Savable(s, env) && i < |Order(s)|
    ensures |Normal(Severed(s)).heap| == |Normal(s).heap| == |Order(s)| + 1
    ensures var nh, nh' := Normal(s).heap, Normal(Severed(s)).heap;
            WireObj(nh', env, nh'[i + 1].obj) == WireObj(nh, env, nh[i + 1].obj) || WireObj(nh', env, nh'[i + 1].obj) == WUpClosed(WTag(TV_NIL))
  {
    hide Order, Ids, Normal, MapObj, Canon, Savable, GoodState, SeveredCells, WireObj, TagAt, SlotAt;
    var nh, nh' := Normal(s).heap, Normal(Severed(s)).heap;
    SeveredCell(s, i);
    TagsSame(s);
    var o := nh[i + 1].obj;
    if o.Thread? {
      forall k | 0 <= k < |o.open|
        ensures SlotAt(nh, o.open[k]) == SlotAt(nh', o.open[k])
      {
        SlotsSame(s, env, i, k);
      }
    }
    WireSame(nh, nh', env, o);
    NilRecord(nh', env);
  }

  lemma NilRecord(nh: seq<Cell>, env: Env)
    ensures WireObj(nh, env, UpClosed(TValue.Nil)) == WUpClosed(WTag(TV_NIL))
    ensures |EncObj(WUpClosed(WTag(TV_NIL)))| < 0x1_0000_0000
  {
  }

  lemma RecordAtIs(nh: seq<Cell>, env: Env, i: nat)
    requires i + 1 < |nh|
    ensures i < |WireRecs(nh, env)| == |nh| - 1 && WireRecs(nh, env)[i].w == WireObj(nh, env, nh[i + 1].obj)
  {
    hide WireObj;
  }

  lemma SeveredShort(s: State, env: Env)
    requires GoodState(s) && Savable(s, env) && ShortRecords(WireRecs(Normal(s).heap, env))
    ensures ShortRecords(WireRecs(Normal(Severed(s)).heap, env))
  {
    hide Order, Ids, Normal, Savable, GoodState, SeveredCells, WireObj, WireRecs, EncObj;
    var nh, nh' := Normal(s).heap, Normal(Severed(s)).heap;
    var recs := WireRecs(nh', env);
    NormalSize(s);
    NormalSize(Severed(s));
    SeveredOrder(s);
    NilRecord(nh', env);
    forall i | 0 <= i < |recs|
      ensures |EncObj(recs[i].w)| < 0x1_0000_0000
    {
      RecordAtIs(nh', env, 0);
      RecordAtIs(nh, env, i);
      RecordAtIs(nh', env, i);
      RecordSame(s, env, i);
    }
  }

  lemma SeveredSavable(s: State, env: Env)
    requires Savable(s, env)
    ensures Savable(Severed(s), env)
  {
    SeveredOrder(s);
    hide Discover, GraphOf, Order;
    forall r | r in Order(s)
      ensures Writable(env, Severed(s).heap[r].obj)
    {
      assert Writable(env, s.heap[r].obj);
      WritableSevered(env, s.heap[r].obj, Order(s));
    }
  }

  lemma WritableSevered(env: Env, o: Obj, order: seq<Ref>)
    requires Writable(env, o)
    ensures Writable(env, Sever(o, true, order))
  {
    hide WritableTvs;
  }

  lemma SeveredStrings(s: State)
    requires StringsSane(s)
    ensures StringsSane(Severed(s))
  {
    SeveredOrder(s);
    hide Order, Discover, GraphOf, SeveredCells, NamesInterned;
    forall r | r in Order(s)
      ensures Severed(s).heap[r].obj.Str? <==> s.heap[r].obj.Str?
      ensures s.heap[r].obj.Str? ==> Severed(s).heap[r].obj == s.heap[r].obj
      ensures Severed(s).heap[r].obj.Proto? ==> NamesInterned(Severed(s).heap, Severed(s).heap[r].obj.p)
    {
      SeveredProto(s, r);
    }
  }

  lemma SeveredProto(s: State, r: Ref)
    requires r in Order(s) && r < |s.heap| && (s.heap[r].obj.Proto? ==> NamesInterned(s.heap, s.heap[r].obj.p))
    ensures Severed(s).heap[r].obj.Str? <==> s.heap[r].obj.Str?
    ensures s.heap[r].obj.Str? ==> Severed(s).heap[r].obj == s.heap[r].obj
    ensures Severed(s).heap[r].obj.Proto? ==> NamesInterned(Severed(s).heap, Severed(s).heap[r].obj.p)
  {
    SeverKinds(s.heap[r].obj, true, Order(s));
    forall q: Ref | NotExternal(s.heap, q)
      ensures NotExternal(Severed(s).heap, q)
    {
      if q < |s.heap| {
        SeverKinds(s.heap[q].obj, q in Order(s), Order(s));
      }
    }
    hide Order, Sever, External;
  }

  lemma StorableBy(s: State, env: Env)
    requires GoodState(s) && Savable(s, env) && Names(env) && StringsSane(s)
    requires ShortRecords(WireRecs(Normal(s).heap, env))
    ensures Storable(s, env)
  {
    hide GoodState, Savable, Names, StringsSane, ShortRecords;
  }

  lemma SeveredStorable(s: State, env: Env)
    requires Storable(s, env)
    ensures Storable(Severed(s), env)
  {
    hide *;
    StorableParts(s, env);
    SeveredIsGood(s);
    SeveredSavable(s, env);
    SeveredStrings(s);
    SeveredShort(s, env);
    StorableBy(Severed(s), env);
  }

  /** The bytes of a snapshot tell the kind of every object. */
  lemma BytesTellKinds(n: State, k: State, env: Env, i: nat)
    requires FineNormal(n, env) && ShortRecords(WireRecs(n.heap, env))
    requires FineNormal(k, env) && ShortRecords(WireRecs(k.heap, env))
    requires EncState(n, env) == EncState(k, env) && 0 < i < |n.heap| && i < |k.heap|
    ensures TypeCode(n.heap[i].obj) == TypeCode(k.heap[i].obj)
  {
    hide *;
    var data := EncState(n, env);
    IndexedOk(data, n, env);
    IndexedOk(data, k, env);
    var es := EntriesOf(WireRecs(n.heap, env), |WireRecs(n.heap, env)|);
    EntryKind(data, env, n.heap, es, i);
    EntryKind(data, env, k.heap, EntriesOf(WireRecs(k.heap, env), |WireRecs(k.heap, env)|), i);
  }

  lemma EntryKind(data: seq<byte>, env: Env, nh: seq<Cell>, es: seq<Entry>, i: nat)
    requires Indexes(data, env, nh, es) && 0 < i < |nh|
    ensures i <= |es| && es[i - 1].tc == TypeCode(nh[i].obj)
  {
    hide FineAt, TypeCode;
    assert EntryFor(data, env, nh, es[i - 1], i);
  }

  lemma LostShows(s: State, env: Env, i: nat)
    requires Storable(s, env) && EncState(Normal(Severed(s)), env) == EncState(Normal(s), env) && i < |Order(s)|
    ensures i < |Order(s)| && Order(s)[i] < |s.heap|
    ensures s.heap[Order(s)[i]].obj.UpOpen? ==> s.heap[Order(s)[i]].obj.thread in Order(s)
  {
    hide *;
    StorableParts(s, env);
    SeveredStorable(s, env);
    NormalIsFine(s, env);
    NormalIsFine(Severed(s), env);
    SeveredCell(s, i);
    LostTag(s, i);
    BytesTellKinds(Normal(Severed(s)), Normal(s), env, i + 1);
    OpenIsNotClosed(Normal(s).heap[i + 1].obj);
  }

  lemma OpenIsNotClosed(o: Obj)
    ensures o.UpOpen? ==> TypeCode(o) != TypeCode(UpClosed(TValue.Nil))
  {
  }

  lemma SameBytesIsOwned(s: State, env: Env)
    requires Storable(s, env) && Save(Severed(s), env) == Save(s, env)
    ensures UpvaluesOwned(s)
  {
    SeveredStorable(s, env);
    StorableSaves(s, env);
    StorableSaves(Severed(s), env);
    hide Order, Normal, EncState, Storable, SeveredCells, Save;
    forall r | r in Order(s) && s.heap[r].obj.UpOpen?
      ensures s.heap[r].obj.thread in Order(s)
    {
      var i :| 0 <= i < |Order(s)| && Order(s)[i] == r;
      LostShows(s, env, i);
    }
  }

  /** Loading a snapshot and saving again gives the same bytes if and only if every open
      upvalue of the snapshot belongs to a thread of the snapshot, and every string of the
      snapshot that is short enough to be interned is. */
  lemma ResaveIff(s: State, env: Env, base: State)
    requires Storable(s, env) && GoodBase(base)
    ensures Save(s, env).Snapshot? && base.main < |base.heap|
    ensures var r := Reloaded(s, env, base);
            r.Loaded? && (UpvaluesOwned(s) && StringsInterned(s) <==> Save(r.state, env) == Save(s, env))
  {
    hide *;
    SaveThenLoad(s, env, base);
    StorableParts(s, env);
    var r := Reloaded(s, env, base);
    if UpvaluesOwned(s) && StringsInterned(s) {
      NothingLost(s, env, base);
      SaveIsCanonical(s, r.state, env, Through(Ids(Order(s)), r.ptr));
    }
    if Save(r.state, env) == Save(s, env) {
      SameBytesInterned(s, env, r.state, r.ptr);
      SameBytesIsOwned(s, env);
    }
  }

  /** The loaded state is the saved one but for addresses, by any map at all, under the very
      same condition. */
  lemma RoundTripIff(s: State, env: Env, base: State)
    requires Storable(s, env) && GoodBase(base)
    ensures Save(s, env).Snapshot? && base.main < |base.heap|
    ensures var r := Reloaded(s, env, base);
            && r.Loaded? && (UpvaluesOwned(s) && StringsInterned(s) <==> exists m :: Resembles(s, r.state, m))
            && (UpvaluesOwned(s) && StringsInterned(s) <==> exists m :: Isomorphic(s, r.state, m))
  {
    hide *;
    ResaveIff(s, env, base);
    StorableParts(s, env);
    var r := Reloaded(s, env, base);
    if UpvaluesOwned(s) && StringsInterned(s) {
      NothingLost(s, env, base);
      IsomorphicIff(s, r.state, Through(Ids(Order(s)), r.ptr));
    }
    if m :| Resembles(s, r.state, m) {
      IsomorphicIff(s, r.state, m);
      SaveIsCanonical(s, r.state, env, m);
    }
    if m :| Isomorphic(s, r.state, m) {
      SaveIsCanonical(s, r.state, env, m);
    }
  }

  /** States that are the same but for addresses are saved to the same bytes, or both refused. */
  lemma SameStatesSameBytes(s1: State, s2: State, env: Env, m: map<Ref, Ref>)
    requires Resembles(s1, s2, m) && GoodState(s1)
    ensures Save(s1, env) == Save(s2, env)
  {
    hide *;
    IsomorphicIff(s1, s2, m);
    SaveIsCanonical(s1, s2, env, m);
  }
}
