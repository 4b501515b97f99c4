// The second pass of a load over a snapshot: every object is filled, once.
module LoadRelink {
  import opened Bytes
  import opened Heap
  import opened Records
  import opened Snapshot
  import opened WellFormed
  import opened NormalForm
  import opened LoadSpec
  import opened LoadFill
  import opened LoadPasses

  /** Of twins, the last one gives the object its id. */
  ghost predicate HasTwin(nh: seq<Cell>, i: nat)
    requires i < |nh|
  {
    exists j :: 0 < j < |nh| && j != i && Twins(nh, i, j)
  }

  /** The object with id `i` when the objects of `done` have been filled. An open
      upvalue is filled together with its thread. */
  ghost predicate StageAt(c: Ctx, nh: seq<Cell>, h: seq<Cell>, done: set<nat>, i: nat)
    requires i < |nh| == |c.ptr| && c.ptr[i] < |h|
  {
    var o := h[c.ptr[i]].obj;
    var filled := MapObj(nh[i].obj, PtrMap(c.ptr));
    && (h[c.ptr[i]].objid == nh[i].objid || HasTwin(nh, i))
    && match nh[i].obj
       case Str(_, s) => o == Str(|s| <= MAXSHORTLEN, s)
       case UpOpen(t, _) => o == if Owned(nh, i) && t in done then filled else UpClosed(TValue.Nil)
       case Thread(_, _, _, _) => if i in done then o == filled else OldOpen(o) == []
       case _ => o == if i in done then filled else BlankOf(nh[i].obj)
  }

  ghost predicate Stage(c: Ctx, nh: seq<Cell>, l: Load, done: set<nat>) {
    && Apart(nh, c.ptr, |l.heap|) && !l.error && !l.undefined
    && forall i {:trigger nh[i]} {:trigger c.ptr[i]} :: 0 < i < |nh| ==> StageAt(c, nh, l.heap, done, i)
  }

  /** Does the fill of the second pass apply to this object? */
  predicate Fillable(o: Obj) {
    !o.Str? && !o.UpOpen?
  }

  lemma StageStep(c: Ctx, nh: seq<Cell>, env: Env, h: seq<Cell>, h': seq<Cell>, done: set<nat>, id: nat, i: nat)
    requires Apart(nh, c.ptr, |h|) && |h'| == |h|
    requires 0 < id < |nh| && 0 < i < |nh| && FineAt(nh, env, i)
    requires Fillable(nh[id].obj) && !nh[id].obj.Thread?
    requires StageAt(c, nh, h, done, i)
    requires h' == SetObj(h, c.ptr[id], MapObj(nh[id].obj, PtrMap(c.ptr)))
    ensures StageAt(c, nh, h', done + {id}, i)
  {
    hide MapObj, PtrMap, BlankOf, FineTable, FineProto, FineTvs, GoodOpens, FineArm, FineTv, AllPointTo,
         PointsTo, NameOk;
    assert i != id ==> c.ptr[i] != c.ptr[id];
  }

  lemma StageThread(c: Ctx, nh: seq<Cell>, env: Env, h: seq<Cell>, h': seq<Cell>, done: set<nat>, id: nat, i: nat)
    requires CtxFor(c, nh) && Apart(nh, c.ptr, |h|) && |h'| == |h|
    requires 0 < id < |nh| && 0 < i < |nh| && FineAt(nh, env, i) && FineAt(nh, env, id)
    requires nh[id].obj.Thread?
    requires StageAt(c, nh, h, done, i)
    requires CellAfterThread(c, nh, id, h, h', c.ptr[i])
    ensures StageAt(c, nh, h', done + {id}, i)
  {
    hide PtrMap, BlankOf, FineTable, FineProto, FineTvs, FineArm, FineTv, AllPointTo, PointsTo, NameOk, MapTvs,
         MapFrames, MapRefs;
    assert i != id ==> c.ptr[i] != c.ptr[id];
    var open := nh[id].obj.open;
    if nh[i].obj.UpOpen? && nh[i].obj.thread == id && i in open {
      assert i in open && c.ptr[i] == c.ptr[i];
      LookPtr(c, nh, id);
    } else if i != id {
      forall u {:trigger c.ptr[u]} | u in open && 0 < u < |nh|
        ensures c.ptr[i] != c.ptr[u]
      {
        var j :| 0 <= j < |open| && open[j] == u;
        assert nh[open[j]].obj.UpOpen? && nh[open[j]].obj.thread == id;
        assert u != i;
      }
    } else {
    }
  }

  /** What the record of `id` is, when it is not a thread's. */
  lemma FillOneIs(data: seq<byte>, env: Env, nh: seq<Cell>, es: seq<Entry>, c: Ctx, l: Load, id: nat)
    requires CtxFor(c, nh) && Indexes(data, env, nh, es) && 0 < id < |nh| && c.ptr[id] < |l.heap|
    requires Fillable(nh[id].obj) && !nh[id].obj.Thread?
    requires l.heap[c.ptr[id]].obj == BlankOf(nh[id].obj)
    ensures OBJ_STRING <= es[id - 1].tc <= OBJ_USERDATA
    ensures FillOne(data, env, es, c, l, id) == Load(SetObj(l.heap, c.ptr[id], MapObj(nh[id].obj, PtrMap(c.ptr))), l.error, l.undefined)
  {
    assert EntryFor(data, env, nh, es[id - 1], id) && FineAt(nh, env, id);
    FillObjOk(c, nh, env, id);
    WireKind(nh, env, nh[id].obj);
    hide Indexes, CtxFor, ReadObj, WireObj, MapObj, PtrMap, BlankOf, FillObj, FineAt, FillThread;
  }

  lemma WireKind(nh: seq<Cell>, env: Env, o: Obj)
    ensures WireObj(nh, env, o).WThr? <==> o.Thread?
    ensures OBJ_STRING <= TypeCode(o) <= OBJ_USERDATA
  {
  }

  lemma FillOneThread(data: seq<byte>, env: Env, nh: seq<Cell>, es: seq<Entry>, c: Ctx, l: Load, id: nat)
    requires CtxFor(c, nh) && Indexes(data, env, nh, es) && 0 < id < |nh| && c.ptr[id] < |l.heap|
    requires nh[id].obj.Thread?
    ensures OBJ_STRING <= es[id - 1].tc <= OBJ_USERDATA && WireObj(nh, env, nh[id].obj).WThr?
    ensures FillOne(data, env, es, c, l, id) == FillThread(c, env, l, c.ptr[id], WireObj(nh, env, nh[id].obj).th)
  {
    assert EntryFor(data, env, nh, es[id - 1], id);
    WireKind(nh, env, nh[id].obj);
    hide Indexes, CtxFor, ReadObj, WireObj, MapObj, PtrMap, BlankOf, FillObj, FineAt, FillThread;
  }

  lemma FillPlain(data: seq<byte>, env: Env, nh: seq<Cell>, es: seq<Entry>, c: Ctx, l: Load, done: set<nat>, id: nat)
    requires CtxFor(c, nh) && Indexes(data, env, nh, es) && Stage(c, nh, l, done)
    requires 0 < id < |nh| && id !in done && Fillable(nh[id].obj) && !nh[id].obj.Thread?
    ensures OBJ_STRING <= es[id - 1].tc <= OBJ_USERDATA && c.ptr[id] < |l.heap|
    ensures Stage(c, nh, FillOne(data, env, es, c, l, id), done + {id})
  {
    assert StageAt(c, nh, l.heap, done, id);
    FillOneIs(data, env, nh, es, c, l, id);
    hide CtxFor, BlankOf, MapObj, PtrMap, StageAt, FillOne;
    var l' := FillOne(data, env, es, c, l, id);
    forall i | 0 < i < |nh|
      ensures StageAt(c, nh, l'.heap, done + {id}, i)
    {
      assert StageAt(c, nh, l.heap, done, i);
      assert FineAt(nh, env, i);
      StageStep(c, nh, env, l.heap, l'.heap, done, id, i);
    }
  }

  lemma FillOneThreadOk(data: seq<byte>, env: Env, nh: seq<Cell>, es: seq<Entry>, c: Ctx, l: Load,
        done: set<nat>, id: nat)
    requires CtxFor(c, nh) && Indexes(data, env, nh, es) && Stage(c, nh, l, done)
    requires 0 < id < |nh| && id !in done && nh[id].obj.Thread?
    ensures OBJ_STRING <= es[id - 1].tc <= OBJ_USERDATA && c.ptr[id] < |l.heap|
    ensures Stage(c, nh, FillOne(data, env, es, c, l, id), done + {id})
  {
    assert StageAt(c, nh, l.heap, done, id) && FineAt(nh, env, id);
    FillOneThread(data, env, nh, es, c, l, id);
    FillThreadOk(c, nh, env, l, id);
    assert |nh| == |c.ptr|;
    hide CtxFor, BlankOf, MapObj, PtrMap, StageAt, FillOne, FillThread, CellAfterThread;
    var l' := FillOne(data, env, es, c, l, id);
    forall i | 0 < i < |nh|
      ensures StageAt(c, nh, l'.heap, done + {id}, i)
    {
      assert StageAt(c, nh, l.heap, done, i);
      assert FineAt(nh, env, i);
      assert CellAfterThread(c, nh, id, l.heap, l'.heap, c.ptr[i]);
      StageThread(c, nh, env, l.heap, l'.heap, done, id, i);
    }
  }

  lemma FillOneOk(data: seq<byte>, env: Env, nh: seq<Cell>, es: seq<Entry>, c: Ctx, l: Load, done: set<nat>, id: nat)
    requires CtxFor(c, nh) && Indexes(data, env, nh, es) && Stage(c, nh, l, done)
    requires 0 < id < |nh| && id !in done && Fillable(nh[id].obj)
    ensures OBJ_STRING <= es[id - 1].tc <= OBJ_USERDATA && c.ptr[id] < |l.heap|
    ensures Stage(c, nh, FillOne(data, env, es, c, l, id), done + {id})
  {
    hide CtxFor, Indexes, Stage, FillOne;
    if nh[id].obj.Thread? {
      FillOneThreadOk(data, env, nh, es, c, l, done, id);
    } else {
      FillPlain(data, env, nh, es, c, l, done, id);
    }
  }

  // ------------------------------------------------------------------ passes

  /** The ids up to `k` that a pass fills. */
  ghost function Kind(nh: seq<Cell>, tc: byte, main: nat, k: nat): (s: set<nat>)
    requires k < |nh|
    ensures forall i :: i in s <==> 0 < i <= k && TypeCode(nh[i].obj) == tc && i != main
  {
    if k == 0 then {}
    else Kind(nh, tc, main, k - 1) + if TypeCode(nh[k].obj) == tc && k != main then {k} else {}
  }

  /** What the fill functions demand of the index and of the pointers. */
  ghost predicate Ready(nh: seq<Cell>, es: seq<Entry>, c: Ctx, size: nat) {
    && c.Valid() && |es| == |c.types| == |nh| - 1
    && (forall i :: 0 <= i < |c.ptr| ==> c.ptr[i] < size)
    && (forall i :: 0 <= i < |es| ==> OBJ_STRING <= es[i].tc <= OBJ_USERDATA)
    && (forall i {:trigger es[i - 1]} {:trigger nh[i]} :: 0 < i < |nh| ==> es[i - 1].tc == TypeCode(nh[i].obj))
  }

  lemma KindsMatch(data: seq<byte>, env: Env, nh: seq<Cell>, es: seq<Entry>)
    requires Indexes(data, env, nh, es)
    ensures |es| == |nh| - 1
    ensures forall i {:trigger es[i - 1]} {:trigger nh[i]} :: 0 < i < |nh| ==> es[i - 1].tc == TypeCode(nh[i].obj)
    ensures forall i :: 0 <= i < |es| ==> OBJ_STRING <= es[i].tc <= OBJ_USERDATA
  {
    hide FineAt;
    forall i {:trigger es[i - 1]} {:trigger nh[i]} | 0 < i < |nh|
      ensures es[i - 1].tc == TypeCode(nh[i].obj)
    {
      assert EntryFor(data, env, nh, es[i - 1], i);
    }
    forall i | 0 <= i < |es|
      ensures OBJ_STRING <= es[i].tc <= OBJ_USERDATA
    {
      assert es[i + 1 - 1].tc == TypeCode(nh[i + 1].obj);
    }
  }

  lemma StagePointers(c: Ctx, nh: seq<Cell>, l: Load, done: set<nat>)
    requires CtxFor(c, nh) && Stage(c, nh, l, done) && 1 < |nh|
    ensures c.Valid() && |c.types| == |nh| - 1 && forall i :: 0 <= i < |c.ptr| ==> c.ptr[i] < |l.heap|
  {
    hide StageAt;
    assert 0 < c.ptr[1] < |l.heap|;
  }

  lemma StageIsReady(data: seq<byte>, env: Env, nh: seq<Cell>, es: seq<Entry>, c: Ctx, l: Load, done: set<nat>)
    requires CtxFor(c, nh) && Indexes(data, env, nh, es) && Stage(c, nh, l, done) && 1 < |nh|
    ensures Ready(nh, es, c, |l.heap|)
  {
    hide CtxFor, Indexes, Stage, TypeCode;
    KindsMatch(data, env, nh, es);
    StagePointers(c, nh, l, done);
  }

  lemma {:induction false} FillPassOk(data: seq<byte>, env: Env, nh: seq<Cell>, es: seq<Entry>, c: Ctx, l: Load,
        done: set<nat>, tc: byte, main: nat, k: nat)
    requires CtxFor(c, nh) && Indexes(data, env, nh, es) && Stage(c, nh, l, done) && Ready(nh, es, c, |l.heap|)
    requires k < |nh| && tc != OBJ_STRING && tc != OBJ_UPVAL_OPEN && done !! Kind(nh, tc, main, k)
    ensures Stage(c, nh, FillPass(data, env, es, c, l, tc, main, k), done + Kind(nh, tc, main, k))
  {
    hide CtxFor, Indexes, Stage, FillOne, TypeCode;
    if k == 0 {
      assert done + Kind(nh, tc, main, 0) == done;
    } else {
      FillPassOk(data, env, nh, es, c, l, done, tc, main, k - 1);
      var p := FillPass(data, env, es, c, l, tc, main, k - 1);
      var before := done + Kind(nh, tc, main, k - 1);
      assert es[k - 1].tc == TypeCode(nh[k].obj);
      if TypeCode(nh[k].obj) == tc && k != main {
        CodeFillable(nh[k].obj);
        FillOneOk(data, env, nh, es, c, p, before, k);
        assert before + {k} == done + Kind(nh, tc, main, k);
      } else {
        assert before == done + Kind(nh, tc, main, k);
      }
    }
  }

  lemma CodeFillable(o: Obj)
    ensures Fillable(o) <==> TypeCode(o) != OBJ_STRING && TypeCode(o) != OBJ_UPVAL_OPEN
  {
  }

  lemma OnePass(data: seq<byte>, env: Env, nh: seq<Cell>, es: seq<Entry>, c: Ctx, l: Load, done: set<nat>,
        tc: byte, main: nat)
    requires CtxFor(c, nh) && Indexes(data, env, nh, es) && Stage(c, nh, l, done) && Ready(nh, es, c, |l.heap|)
    requires tc != OBJ_STRING && tc != OBJ_UPVAL_OPEN && 0 < |nh|
    requires forall i :: i in done ==> i < |nh| && (i == main || TypeCode(nh[i].obj) != tc)
    ensures Stage(c, nh, FillPass(data, env, es, c, l, tc, main, |es|), done + Kind(nh, tc, main, |nh| - 1))
  {
    hide CtxFor, Indexes, Stage, FillPass, TypeCode;
    FillPassOk(data, env, nh, es, c, l, done, tc, main, |nh| - 1);
  }

  /** The passes up to the tables. */
  ghost function FillFirst(data: seq<byte>, env: Env, es: seq<Entry>, c: Ctx, l: Load): (l': Load)
    requires c.Valid() && |es| == |c.types|
    requires forall i :: 0 <= i < |c.ptr| ==> c.ptr[i] < |l.heap|
    requires forall i :: 0 <= i < |es| ==> OBJ_STRING <= es[i].tc <= OBJ_USERDATA
    ensures |l'.heap| == |l.heap|
  {
    var n := |es|;
    var a := FillPass(data, env, es, c, l, OBJ_PROTO, 0, n);
    var b := FillPass(data, env, es, c, a, OBJ_UPVAL_CLOSED, 0, n);
    var d := FillPass(data, env, es, c, b, OBJ_LCLOSURE, 0, n);
    var e := FillPass(data, env, es, c, d, OBJ_CCLOSURE, 0, n);
    FillPass(data, env, es, c, e, OBJ_TABLE, 0, n)
  }

  lemma FillAllIs(data: seq<byte>, env: Env, es: seq<Entry>, c: Ctx, l: Load, main: nat)
    requires c.Valid() && |es| == |c.types| && 0 < main <= |es|
    requires forall i :: 0 <= i < |c.ptr| ==> c.ptr[i] < |l.heap|
    requires forall i :: 0 <= i < |es| ==> OBJ_STRING <= es[i].tc <= OBJ_USERDATA
    ensures var g := FillOne(data, env, es, c, FillFirst(data, env, es, c, l), main);
            var t := FillPass(data, env, es, c, g, OBJ_THREAD, main, |es|);
            FillAll(data, env, es, c, l, main) == FillPass(data, env, es, c, t, OBJ_USERDATA, 0, |es|)
  {
    hide FillPass, FillOne;
  }

  ghost predicate FirstDone(nh: seq<Cell>, done: set<nat>) {
    forall i :: i in done <==> 0 < i < |nh| && TypeCode(nh[i].obj) in {OBJ_PROTO, OBJ_UPVAL_CLOSED, OBJ_LCLOSURE, OBJ_CCLOSURE, OBJ_TABLE}
  }

  lemma FillFirstOk(data: seq<byte>, env: Env, nh: seq<Cell>, es: seq<Entry>, c: Ctx, l: Load) returns (done: set<nat>)
    requires CtxFor(c, nh) && Indexes(data, env, nh, es) && Stage(c, nh, l, {}) && Ready(nh, es, c, |l.heap|)
    requires 0 < |nh|
    ensures Stage(c, nh, FillFirst(data, env, es, c, l), done) && FirstDone(nh, done)
  {
    hide CtxFor, Indexes, Stage, FillPass, TypeCode, Kind;
    var n := |es|;
    OnePass(data, env, nh, es, c, l, {}, OBJ_PROTO, 0);
    var a := FillPass(data, env, es, c, l, OBJ_PROTO, 0, n);
    done := {} + Kind(nh, OBJ_PROTO, 0, |nh| - 1);
    OnePass(data, env, nh, es, c, a, done, OBJ_UPVAL_CLOSED, 0);
    var b := FillPass(data, env, es, c, a, OBJ_UPVAL_CLOSED, 0, n);
    done := done + Kind(nh, OBJ_UPVAL_CLOSED, 0, |nh| - 1);
    OnePass(data, env, nh, es, c, b, done, OBJ_LCLOSURE, 0);
    var d := FillPass(data, env, es, c, b, OBJ_LCLOSURE, 0, n);
    done := done + Kind(nh, OBJ_LCLOSURE, 0, |nh| - 1);
    OnePass(data, env, nh, es, c, d, done, OBJ_CCLOSURE, 0);
    var e := FillPass(data, env, es, c, d, OBJ_CCLOSURE, 0, n);
    done := done + Kind(nh, OBJ_CCLOSURE, 0, |nh| - 1);
    OnePass(data, env, nh, es, c, e, done, OBJ_TABLE, 0);
    done := done + Kind(nh, OBJ_TABLE, 0, |nh| - 1);
  }

  ghost predicate AllDone(nh: seq<Cell>, done: set<nat>) {
    forall i {:trigger nh[i]} :: 0 < i < |nh| && Fillable(nh[i].obj) ==> i in done
  }

  /** The rest of the passes meet only objects that are still blank. */
  lemma LastPasses(nh: seq<Cell>, first: set<nat>, main: nat)
    requires 0 < main < |nh| && nh[main].obj.Thread? && FirstDone(nh, first)
    ensures var n := |nh| - 1; var d := first + {main}; var e := d + Kind(nh, OBJ_THREAD, main, n);
            && main !in first && Fillable(nh[main].obj)
            && (forall i :: i in d ==> i < |nh| && (i == main || TypeCode(nh[i].obj) != OBJ_THREAD))
            && (forall i :: i in e ==> i < |nh| && (i == 0 || TypeCode(nh[i].obj) != OBJ_USERDATA))
            && AllDone(nh, e + Kind(nh, OBJ_USERDATA, 0, n))
    ensures OBJ_THREAD != OBJ_STRING && OBJ_THREAD != OBJ_UPVAL_OPEN && OBJ_USERDATA != OBJ_STRING
    ensures OBJ_USERDATA != OBJ_UPVAL_OPEN
  {
    hide Kind;
  }

  lemma FillAllOk(data: seq<byte>, env: Env, nh: seq<Cell>, es: seq<Entry>, c: Ctx, l: Load, main: nat)
    returns (done: set<nat>)
    requires CtxFor(c, nh) && Indexes(data, env, nh, es) && Stage(c, nh, l, {}) && Ready(nh, es, c, |l.heap|)
    requires 0 < main < |nh| && nh[main].obj.Thread?
    ensures Stage(c, nh, FillAll(data, env, es, c, l, main), done) && AllDone(nh, done)
  {
    var first := FillFirstOk(data, env, nh, es, c, l);
    FillAllIs(data, env, es, c, l, main);
    LastPasses(nh, first, main);
    hide CtxFor, Indexes, Stage, FillPass, FillFirst, FillOne, FillAll, Kind, TypeCode, Fillable, AllDone, FirstDone;
    FillOneOk(data, env, nh, es, c, FillFirst(data, env, es, c, l), first, main);
    var g := FillOne(data, env, es, c, FillFirst(data, env, es, c, l), main);
    done := first + {main};
    OnePass(data, env, nh, es, c, g, done, OBJ_THREAD, main);
    var t := FillPass(data, env, es, c, g, OBJ_THREAD, main, |es|);
    done := done + Kind(nh, OBJ_THREAD, main, |nh| - 1);
    OnePass(data, env, nh, es, c, t, done, OBJ_USERDATA, 0);
    done := done + Kind(nh, OBJ_USERDATA, 0, |nh| - 1);
  }

  /** The cell made for the id `i`. */
  ghost predicate PutBack(nh: seq<Cell>, cell: Cell, ptr: seq<Ref>, i: nat)
    requires i < |nh|
  {
    cell.obj == LoadedAs(nh, i, PtrMap(ptr)) && (cell.objid == nh[i].objid || HasTwin(nh, i))
  }

  /** When every object has been filled, each is the saved one with pointers for ids,
      but for open upvalues that no thread of the snapshot owns. */
  lemma AllFilled(nh: seq<Cell>, env: Env, c: Ctx, l: Load, done: set<nat>)
    requires Stage(c, nh, l, done) && AllDone(nh, done)
    requires forall i :: 0 < i < |nh| ==> FineAt(nh, env, i)
    ensures !l.error && !l.undefined && Apart(nh, c.ptr, |l.heap|)
    ensures forall i {:trigger c.ptr[i]} :: 0 < i < |nh| ==>
              0 < c.ptr[i] < |l.heap| && PutBack(nh, l.heap[c.ptr[i]], c.ptr, i)
  {
    hide MapObj, PtrMap, BlankOf;
    forall i {:trigger c.ptr[i]} | 0 < i < |nh|
      ensures PutBack(nh, l.heap[c.ptr[i]], c.ptr, i)
    {
      assert StageAt(c, nh, l.heap, done, i) && FineAt(nh, env, i);
      if nh[i].obj.UpOpen? && Owned(nh, i) {
        assert Fillable(nh[nh[i].obj.thread].obj);
      }
    }
  }
}
