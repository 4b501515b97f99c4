// The loader: a cursor that moves over the buffer, and objects filled in place from their records.
// Its methods are proved against the functions of LoadSpec, for records inside the buffer.
module Loading {
  import opened Bytes
  import opened Heap
  import opened Wire
  import opened TableRecords
  import opened ProtoRecords
  import opened Records
  import opened Snapshot
  import opened WellFormed
  import opened LoadSpec
  import opened WholeSave
  import opened Canonical
  import opened LoadPasses
  import opened Restore
  import opened Severance
  import opened RoundTrip
  import opened Likeness
  import opened LoadedStates
  import opened RoundTripLaw
  import LoadSafety
  import LoadVerdict
  import RecordVerdict

  class Loader {
    const data: seq<byte>
    const env: Env
    var pos: nat
    var types: seq<byte>
    var ptr: seq<Ref>
    var heap: seq<Cell>
    var error: bool
    var sizes: seq<ProtoSize>

    ghost function C(): Ctx
      reads this`types, this`ptr
    {
      Ctx(types, ptr)
    }

    ghost predicate Valid()
      reads this`types, this`ptr
    {
      C().Valid()
    }

    // ---------------------------------------------------------------- the cursor

    method ReadU8() returns (v: byte)
      requires U8(data, pos).Got?
      modifies this`pos
      ensures U8(data, old(pos)) == Got(v, pos)
    {
      v := data[pos];
      pos := pos + 1;
    }

    method ReadU16() returns (v: u16)
      requires U16(data, pos).Got?
      modifies this`pos
      ensures U16(data, old(pos)) == Got(v, pos)
    {
      Pow256Values();
      v := UnLe(data[pos..pos + 2]);
      pos := pos + 2;
    }

    method ReadU32() returns (v: u32)
      requires U32(data, pos).Got?
      modifies this`pos
      ensures U32(data, old(pos)) == Got(v, pos)
    {
      Pow256Values();
      v := UnLe(data[pos..pos + 4]);
      pos := pos + 4;
    }

    method ReadI32() returns (v: i32)
      requires I32(data, pos).Got?
      modifies this`pos
      ensures I32(data, old(pos)) == Got(v, pos)
    {
      var u := ReadU32();
      v := ToI32(u);
    }

    method ReadU64() returns (v: u64)
      requires U64(data, pos).Got?
      modifies this`pos
      ensures U64(data, old(pos)) == Got(v, pos)
    {
      Pow256Values();
      v := UnLe(data[pos..pos + 8]);
      pos := pos + 8;
    }

    method ReadBytes(n: nat) returns (b: seq<byte>)
      requires Blob(data, pos, n).Got?
      modifies this`pos
      ensures Blob(data, old(pos), n) == Got(b, pos)
    {
      b := data[pos..pos + n];
      pos := pos + n;
    }

    /** rb_skip_tv */
    method SkipValue()
      requires SkipTv(data, pos).Got?
      modifies this`pos
      ensures SkipTv(data, old(pos)) == Got((), pos)
    {
      var t := ReadU8();
      if t == TV_INT || t == TV_FLOAT {
        pos := pos + 8;
      } else if Collectable(t) {
        pos := pos + 4;
      } else if t == CFUNC_TAG {
        var n := ReadU16();
        pos := pos + n;
      } else if t == TV_DEADKEY {
        pos := pos + 4;
      }
    }

    // ---------------------------------------------------------------- ids and values

    /** resolve_obj_id: what is not an id of the right kind is an error, and NULL. */
    method ResolveId(id: nat, expected: nat) returns (r: Ref)
      requires Valid()
      modifies this`error
      ensures Resolve(C(), id, expected).v == r && error == (old(error) || Resolve(C(), id, expected).err)
    {
      if id == 0 {
        return NULL;
      }
      if id <= |types| {
        var t := types[id - 1];
        if t == expected || expected == RESOLVE_ANY
           || (expected == RESOLVE_UPVAL && (t == OBJ_UPVAL_OPEN || t == OBJ_UPVAL_CLOSED)) {
          return ptr[id];
        }
      }
      error := true;
      return NULL;
    }

    /** What a read of a value does: the cursor passes it, and errors are latched. */
    twostate predicate TookTv(v: TValue)
      requires Valid()
      reads this
    {
      var w := ReadTv(data, old(pos));
      w.Got? && w.next == pos && FillTv(C(), env, w.value).v == v
      && error == (old(error) || FillTv(C(), env, w.value).err)
    }

    /** ds_read_tv: the value, and an error for whatever is not one. */
    method TakeTv() returns (v: TValue)
      requires Valid() && ReadTv(data, pos).Got?
      modifies this`pos, this`error
      ensures TookTv(v)
      ensures RecordVerdict.KindsInRange(types) ==>
                (error <==> old(error) || !RecordVerdict.ValueOk(env, types, ReadTv(data, old(pos)).value))
    {
      hide RecordVerdict.KindsInRange, RecordVerdict.ValueOk;
      if RecordVerdict.KindsInRange(types) {
        RecordVerdict.ValueVerdict(C(), env, ReadTv(data, pos).value);
      }
      var t := ReadU8();
      v := TValue.Nil;
      if t == CFUNC_TAG {
        var n := ReadU16();
        var name := ReadBytes(n);
        if name in env.cfn {
          v := LightC(env.cfn[name]);
        } else {
          error := true;
        }
      } else if t == TV_INT {
        var i := ReadU64();
        v := Int(i);
      } else if t == TV_FLOAT {
        var n := ReadU64();
        v := Flt(n);
      } else if Collectable(t) {
        var id := ReadU32();
        if id != 0 {
          if id > |types| || BaseType(types[id - 1]) != t % 0x10 {
            error := true;
          } else {
            v := Gc(ptr[id]);
          }
        }
      } else if t == TV_FALSE {
        v := False;
      } else if t == TV_TRUE {
        v := True;
      } else if t != TV_NIL {
        error := true;
      }
    }

    /** Values one after the other. */
    method TakeTvs(n: nat) returns (vs: seq<TValue>)
      requires Valid() && ReadAll(data, pos, n, ReadTv).Got?
      modifies this`pos, this`error
      ensures var ws := ReadAll(data, old(pos), n, ReadTv);
              ws.Got? && ws.next == pos && FillTvs(C(), env, ws.value).v == vs
              && error == (old(error) || FillTvs(C(), env, ws.value).err)
    {
      hide ReadTv, FillTv;
      vs := [];
      for i := 0 to n
        invariant ReadAll(data, old(pos), i, ReadTv).Got?
        invariant var ws := ReadAll(data, old(pos), i, ReadTv);
                  ws.next == pos && FillTvs(C(), env, ws.value).v == vs
                  && error == (old(error) || FillTvs(C(), env, ws.value).err)
      {
        ReadsNext(data, old(pos), i, n, ReadTv);
        FillTvsSnoc(C(), env, ReadAll(data, old(pos), i, ReadTv).value, ReadTv(data, pos).value);
        var v := TakeTv();
        vs := vs + [v];
      }
    }

    /** Ids one after the other, resolved. */
    method TakeIds(n: nat, expected: nat) returns (rs: seq<Ref>)
      requires Valid() && ReadAll(data, pos, n, U32).Got?
      modifies this`pos, this`error
      ensures var ws := ReadAll(data, old(pos), n, U32);
              ws.Got? && ws.next == pos && ResolveAll(C(), ws.value, expected).v == rs
              && error == (old(error) || ResolveAll(C(), ws.value, expected).err)
    {
      hide U32, Resolve;
      rs := [];
      for i := 0 to n
        invariant ReadAll(data, old(pos), i, U32).Got?
        invariant var ws := ReadAll(data, old(pos), i, U32);
                  ws.next == pos && ResolveAll(C(), ws.value, expected).v == rs
                  && error == (old(error) || ResolveAll(C(), ws.value, expected).err)
      {
        ReadsNext(data, old(pos), i, n, U32);
        ResolveSnoc(C(), ReadAll(data, old(pos), i, U32).value, U32(data, pos).value, expected);
        var id := ReadU32();
        var r := ResolveId(id, expected);
        rs := rs + [r];
      }
    }

    // ---------------------------------------------------------------- tables

    /** The key of a node: a removed key comes as the id of its object, which is resolved later. */
    method TakeKey() returns (dead: bool, kid: u32, key: TValue)
      requires Valid() && ReadKey(data, pos).Got?
      modifies this`pos, this`error
      ensures var w := ReadKey(data, old(pos));
              w.Got? && w.next == pos && dead == w.value.WDead?
              && (dead ==> kid == w.value.id && error == old(error))
              && (!dead ==> FillTv(C(), env, w.value.value).v == key
                            && error == (old(error) || FillTv(C(), env, w.value.value).err))
    {
      hide ReadTv, FillTv;
      dead, kid, key := false, 0, TValue.Nil;
      if data[pos] == TV_DEADKEY {
        var _ := ReadU8();
        kid := ReadU32();
        dead := true;
      } else {
        key := TakeTv();
      }
    }

    /** The value of a node: an empty marker is taken as it is. */
    method TakeVal() returns (v: TValue)
      requires Valid() && ReadTv(data, pos).Got?
      modifies this`pos, this`error
      ensures var w := ReadTv(data, old(pos));
              w.Got? && w.next == pos && FillVal(C(), env, w.value).v == v
              && error == (old(error) || FillVal(C(), env, w.value).err)
    {
      MarkerIs(data, pos);
      hide ReadTv, FillTv;
      if data[pos] == TV_NIL {
        var _ := ReadU8();
        v := TValue.Nil;
      } else if data[pos] == TV_EMPTY {
        var _ := ReadU8();
        v := Empty;
      } else {
        v := TakeTv();
      }
    }

    /** One slot of the node array. */
    method TakeSlot(nodes: seq<Node>, e: nat, hsize: nat) returns (r: seq<Node>)
      requires Valid() && ReadSlot(data, pos).Got?
      requires !FillSlot(C(), env, Nodes(nodes, false, false), e, hsize, ReadSlot(data, pos).value).wild
      modifies this`pos, this`error
      ensures var w := ReadSlot(data, old(pos));
              w.Got? && w.next == pos
              && var n := FillSlot(C(), env, Nodes(nodes, false, false), e, hsize, w.value);
              n.nodes == r && error == (old(error) || n.err)
    {
      hide ReadTv, FillTv, ReadKey, IsNaN;
      r := nodes;
      if data[pos] == TV_NIL {
        var _ := ReadU8();
        return;
      }
      var dead, kid, key := TakeKey();
      var val := TakeVal();
      var next := ReadI32();
      if dead && !IsNil(val) {
        error := true;
      } else if !dead && IsNaN(key) {
        error := true;
      } else if next != 0 && (e + next < 0 || e + next >= hsize) {
        error := true;
      } else if dead {
        var k := ResolveId(kid, RESOLVE_ANY);
        r := nodes[e := Node(Dead(k), val, next)];
      } else {
        r := nodes[e := Node(Live(key), val, next)];
      }
    }

    method TakeItems(arr: seq<TValue>) returns (r: seq<TValue>)
      requires Valid() && ReadCounted(data, pos, ReadItem).Got?
      modifies this`pos, this`error
      ensures var ws := ReadCounted(data, old(pos), ReadItem);
              ws.Got? && ws.next == pos && FillItems(C(), env, arr, ws.value).v == r
              && error == (old(error) || FillItems(C(), env, arr, ws.value).err)
    {
      hide ReadTv, FillTv;
      var n := ReadU32();
      ghost var p := pos;
      r := arr;
      for i := 0 to n
        invariant ReadAll(data, p, i, ReadItem).Got?
        invariant var ws := ReadAll(data, p, i, ReadItem);
                  ws.next == pos && FillItems(C(), env, arr, ws.value).v == r
                  && error == (old(error) || FillItems(C(), env, arr, ws.value).err)
      {
        ReadsNext(data, p, i, n, ReadItem);
        ItemsNext(C(), env, arr, ReadAll(data, p, i, ReadItem).value, ReadItem(data, pos).value);
        var idx := ReadU32();
        var v := TakeTv();
        if idx < |r| {
          r := r[idx := v];
        }
      }
    }

    method TakeSlots(nodes: seq<Node>) returns (r: seq<Node>)
      requires Valid() && ReadCounted(data, pos, ReadSlot).Got?
      requires var ws := ReadCounted(data, pos, ReadSlot).value;
               !FillSlots(C(), env, Nodes(nodes, false, false), |ws|, ws).wild
      modifies this`pos, this`error
      ensures var ws := ReadCounted(data, old(pos), ReadSlot);
              ws.Got? && ws.next == pos
              && var n := FillSlots(C(), env, Nodes(nodes, false, false), |ws.value|, ws.value);
              n.nodes == r && error == (old(error) || n.err)
    {
      hide ReadTv, FillTv, ReadSlot, FillSlot, FillSlots, ReadAll, U32;
      var hsize := ReadU32();
      ghost var p := pos;
      r := nodes;
      NoSlots(data, p, C(), env, nodes, hsize);
      for e := 0 to hsize
        invariant ReadAll(data, p, e, ReadSlot).Got?
        invariant var ws := ReadAll(data, p, e, ReadSlot);
                  ws.next == pos
                  && var n := FillSlots(C(), env, Nodes(nodes, false, false), hsize, ws.value);
                  n.nodes == r && !n.wild && error == (old(error) || n.err)
      {
        ReadsNext(data, p, e, hsize, ReadSlot);
        ghost var ws, w := ReadAll(data, p, e, ReadSlot).value, ReadSlot(data, pos).value;
        SlotsNext(C(), env, nodes, hsize, ws, w);
        NotWild(data, p, e + 1, hsize, C(), env, nodes);
        r := TakeSlot(r, e, hsize);
      }
    }

    /** fill_table */
    method LoadTable(r: Ref)
      requires Valid() && r < |heap| && heap[r].obj.Table? && ReadTable(data, pos).Got?
      requires !FillTable(C(), env, heap[r].obj, ReadTable(data, pos).value).wild
      modifies this`pos, this`error, this`heap
      ensures var f := FillTable(C(), env, old(heap)[r].obj, ReadTable(data, old(pos)).value);
              heap == SetObj(old(heap), r, f.obj) && error == (old(error) || f.err)
    {
      hide ReadItem, ReadSlot, FillItems, FillSlots, ReadCounted, Resolve;
      var blank := heap[r].obj;
      var arr := TakeItems(blank.arr);
      var nodes := TakeSlots(blank.nodes);
      var id := ReadU32();
      var mt := ResolveId(id, OBJ_TABLE);
      var _ := ReadU32();
      heap := heap[r := Cell(heap[r].objid, Table(arr, nodes, mt))];
    }

    // ---------------------------------------------------------------- prototypes

    method TakeWords(n: nat) returns (ws: seq<u32>)
      requires ReadAll(data, pos, n, U32).Got?
      modifies this`pos
      ensures ReadAll(data, old(pos), n, U32) == Got(ws, pos)
    {
      hide U32;
      ws := [];
      for i := 0 to n
        invariant ReadAll(data, old(pos), i, U32) == Got(ws, pos)
      {
        ReadsNext(data, old(pos), i, n, U32);
        var w := ReadU32();
        ws := ws + [w];
      }
    }

    method TakeBytes(n: nat) returns (ws: seq<byte>)
      requires ReadAll(data, pos, n, U8).Got?
      modifies this`pos
      ensures ReadAll(data, old(pos), n, U8) == Got(ws, pos)
    {
      hide U8;
      ws := [];
      for i := 0 to n
        invariant ReadAll(data, old(pos), i, U8) == Got(ws, pos)
      {
        ReadsNext(data, old(pos), i, n, U8);
        var w := ReadU8();
        ws := ws + [w];
      }
    }

    method TakeAbsLines(n: nat) returns (ws: seq<AbsLine>)
      requires ReadAll(data, pos, n, ReadAbs).Got?
      modifies this`pos
      ensures ReadAll(data, old(pos), n, ReadAbs) == Got(ws, pos)
    {
      hide I32;
      ws := [];
      for i := 0 to n
        invariant ReadAll(data, old(pos), i, ReadAbs) == Got(ws, pos)
      {
        ReadsNext(data, old(pos), i, n, ReadAbs);
        var pc := ReadI32();
        var line := ReadI32();
        ws := ws + [AbsLine(pc, line)];
      }
    }

    method TakeUp() returns (u: UpvalDesc)
      requires Valid() && ReadUp(data, pos).Got?
      modifies this`pos, this`error
      ensures var w := ReadUp(data, old(pos));
              w.Got? && w.next == pos && u == w.value.(name := Resolve(C(), w.value.name, OBJ_STRING).v)
              && error == (old(error) || Resolve(C(), w.value.name, OBJ_STRING).err)
    {
      hide U32, U8, Resolve;
      var id := ReadU32();
      var name := ResolveId(id, OBJ_STRING);
      var instack := ReadU8();
      var idx := ReadU8();
      var kind := ReadU8();
      u := UpvalDesc(name, instack, idx, kind);
    }

    method TakeUps(n: nat) returns (us: seq<UpvalDesc>)
      requires Valid() && ReadAll(data, pos, n, ReadUp).Got?
      modifies this`pos, this`error
      ensures var ws := ReadAll(data, old(pos), n, ReadUp);
              ws.Got? && ws.next == pos && FillUps(C(), ws.value).v == us
              && error == (old(error) || FillUps(C(), ws.value).err)
    {
      hide ReadUp, Resolve;
      us := [];
      for i := 0 to n
        invariant ReadAll(data, old(pos), i, ReadUp).Got?
        invariant var ws := ReadAll(data, old(pos), i, ReadUp);
                  ws.next == pos && FillUps(C(), ws.value).v == us
                  && error == (old(error) || FillUps(C(), ws.value).err)
      {
        ReadsNext(data, old(pos), i, n, ReadUp);
        UpsNext(C(), ReadAll(data, old(pos), i, ReadUp).value, ReadUp(data, pos).value);
        var u := TakeUp();
        us := us + [u];
      }
    }

    method TakeVar() returns (l: LocVar)
      requires Valid() && ReadVar(data, pos).Got?
      modifies this`pos, this`error
      ensures var w := ReadVar(data, old(pos));
              w.Got? && w.next == pos && l == w.value.(name := Resolve(C(), w.value.name, OBJ_STRING).v)
              && error == (old(error) || Resolve(C(), w.value.name, OBJ_STRING).err)
    {
      hide U32, I32, Resolve;
      var id := ReadU32();
      var name := ResolveId(id, OBJ_STRING);
      var startpc := ReadI32();
      var endpc := ReadI32();
      l := LocVar(name, startpc, endpc);
    }

    method TakeVars(n: nat) returns (us: seq<LocVar>)
      requires Valid() && ReadAll(data, pos, n, ReadVar).Got?
      modifies this`pos, this`error
      ensures var ws := ReadAll(data, old(pos), n, ReadVar);
              ws.Got? && ws.next == pos && FillVars(C(), ws.value).v == us
              && error == (old(error) || FillVars(C(), ws.value).err)
    {
      hide ReadVar, Resolve;
      us := [];
      for i := 0 to n
        invariant ReadAll(data, old(pos), i, ReadVar).Got?
        invariant var ws := ReadAll(data, old(pos), i, ReadVar);
                  ws.next == pos && FillVars(C(), ws.value).v == us
                  && error == (old(error) || FillVars(C(), ws.value).err)
      {
        ReadsNext(data, old(pos), i, n, ReadVar);
        VarsNext(C(), ReadAll(data, old(pos), i, ReadVar).value, ReadVar(data, pos).value);
        var u := TakeVar();
        us := us + [u];
      }
    }

    method TakeFront(z: ProtoSize) returns (f: Front, k: seq<TValue>, p: seq<Ref>)
      requires Valid() && ReadFront(data, pos, z).Got?
      modifies this`pos, this`error
      ensures var w := ReadFront(data, old(pos), z);
              w.Got? && w.next == pos
              && f.numparams == w.value.numparams && f.flag == w.value.flag && f.maxstack == w.value.maxstack
              && f.code == w.value.code
              && FillTvs(C(), env, w.value.k).v == k && ResolveAll(C(), w.value.p, OBJ_PROTO).v == p
              && error == (old(error) || FillTvs(C(), env, w.value.k).err || ResolveAll(C(), w.value.p, OBJ_PROTO).err)
    {
      hide U32, ReadTv, U8, ReadAll, FillTvs, ResolveAll;
      var numparams := ReadU8();
      var flag := ReadU8();
      var maxstack := ReadU8();
      var _ := ReadU32();
      var code := TakeWords(z.code);
      var _ := ReadU32();
      k := TakeTvs(z.k);
      var _ := ReadU32();
      p := TakeIds(z.p, OBJ_PROTO);
      f := Front(numparams, flag, maxstack, code, [], []);
    }

    method TakeBack(z: ProtoSize) returns (us: seq<UpvalDesc>, li: seq<byte>, ls: seq<AbsLine>)
      requires Valid() && ReadBack(data, pos, z).Got?
      modifies this`pos, this`error
      ensures var w := ReadBack(data, old(pos), z);
              w.Got? && w.next == pos && FillUps(C(), w.value.upvalues).v == us
              && w.value.lineinfo == li && w.value.abslineinfo == ls
              && error == (old(error) || FillUps(C(), w.value.upvalues).err)
    {
      hide U32, U8, ReadAll, FillUps;
      var _ := ReadU32();
      us := TakeUps(z.upvalues);
      var _ := ReadU32();
      li := TakeBytes(z.lineinfo);
      var _ := ReadU32();
      ls := TakeAbsLines(z.abslineinfo);
    }

    /** fill_proto, for a prototype whose arrays the first pass has sized. */
    method LoadProto(r: Ref, z: ProtoSize)
      requires Valid() && r < |heap| && ReadProto(data, pos, z).Got?
      modifies this`pos, this`error, this`heap
      ensures var f := FillProto(C(), env, ReadProto(data, old(pos), z).value);
              heap == SetObj(old(heap), r, f.obj) && error == (old(error) || f.err)
    {
      hide U32, I32, ReadFront, ReadBack, ReadAll, FillTvs, ResolveAll, FillUps, FillVars, Resolve;
      var f, k, p := TakeFront(z);
      var us, li, ls := TakeBack(z);
      var n := ReadU32();
      var vars := TakeVars(n);
      var id := ReadU32();
      var source := ResolveId(id, OBJ_STRING);
      var linedefined := ReadI32();
      var lastlinedefined := ReadI32();
      heap := heap[r := Cell(heap[r].objid,
                             Proto(ProtoData(f.numparams, f.flag, f.maxstack, f.code, k, p, us, li, ls, vars,
                                             source, linedefined, lastlinedefined)))];
    }

    // ---------------------------------------------------------------- closures, upvalues, userdata

    /** fill_lclosure */
    method LoadLClosure(r: Ref)
      requires Valid() && r < |heap| && ReadLClosure(data, pos).Got?
      modifies this`pos, this`error, this`heap
      ensures var f := FillObj(C(), env, old(heap)[r].obj, ReadLClosure(data, old(pos)).value);
              heap == SetObj(old(heap), r, f.obj) && error == (old(error) || f.err)
    {
      hide U32, U8, ReadAll, ResolveAll, Resolve;
      var id := ReadU32();
      var p := ResolveId(id, OBJ_PROTO);
      var n := ReadU8();
      var us := TakeIds(n, RESOLVE_UPVAL);
      heap := heap[r := Cell(heap[r].objid, LClosure(p, us))];
    }

    /** fill_cclosure */
    method LoadCClosure(r: Ref)
      requires Valid() && r < |heap| && ReadCClosure(data, pos).Got?
      modifies this`pos, this`error, this`heap
      ensures var f := FillObj(C(), env, old(heap)[r].obj, ReadCClosure(data, old(pos)).value);
              heap == SetObj(old(heap), r, f.obj) && error == (old(error) || f.err)
    {
      hide U16, U8, ReadAll, FillTvs;
      var t := ReadU8();
      var name: seq<byte> := [];
      if t == CFUNC_TAG {
        var n := ReadU16();
        name := ReadBytes(n);
        if name !in env.cfn {
          error := true;
        }
      }
      var n := ReadU8();
      var us := TakeTvs(n);
      heap := heap[r := Cell(heap[r].objid, CClosure(Lookup(env.cfn, name, 0), us))];
    }

    /** fill_upval_closed */
    method LoadUpvalClosed(r: Ref)
      requires Valid() && r < |heap| && ReadTv(data, pos).Got?
      modifies this`pos, this`error, this`heap
      ensures var f := FillObj(C(), env, old(heap)[r].obj, WUpClosed(ReadTv(data, old(pos)).value));
              heap == SetObj(old(heap), r, f.obj) && error == (old(error) || f.err)
    {
      hide ReadTv, FillTv;
      var v := TakeTv();
      heap := heap[r := Cell(heap[r].objid, UpClosed(v))];
    }

    /** fill_userdata checks its record against the end of the buffer. */
    method LoadUserdata(r: Ref)
      requires Valid() && r < |heap|
      modifies this`pos, this`error, this`heap
      ensures match ReadUd(data, old(pos))
              case Oob => error && heap == old(heap)
              case Got(w, _) =>
                var f := FillObj(C(), env, old(heap)[r].obj, w);
                heap == SetObj(old(heap), r, f.obj) && error == (old(error) || f.err)
    {
      hide Resolve;
      if pos + 4 > |data| {
        error := true;
        return;
      }
      var n := ReadU32();
      if n > |data| - pos || 4 > |data| - pos - n {
        error := true;
        return;
      }
      var payload := ReadBytes(n);
      var id := ReadU32();
      var mt := ResolveId(id, OBJ_TABLE);
      heap := heap[r := Cell(heap[r].objid, Udata([], payload, mt))];
    }

    // ---------------------------------------------------------------- threads

    /** The continuation of a C frame, looked up by its name. */
    method TakeKont() returns (arm: Arm)
      requires Valid() && ReadKont(data, pos).Got?
      modifies this`pos, this`error
      ensures var w := ReadKont(data, old(pos));
              w.Got? && w.next == pos && FillArm(C(), env, WC(w.value)).v == arm
              && error == (old(error) || FillArm(C(), env, WC(w.value)).err)
    {
      var has := ReadU8();
      arm := CArm(0, 0, 0);
      if has != 0 {
        var n := ReadU16();
        var name := ReadBytes(n);
        var ctx := ReadU64();
        var oldErr := ReadU64();
        if name in env.kfn {
          arm := CArm(env.kfn[name], ctx, oldErr);
        } else {
          error := true;
          arm := CArm(0, ctx, oldErr);
        }
      }
    }

    method TakeArm(lua: bool) returns (arm: Arm)
      requires Valid() && ReadArm(data, pos, lua).Got?
      modifies this`pos, this`error
      ensures var w := ReadArm(data, old(pos), lua);
              w.Got? && w.next == pos && FillArm(C(), env, w.value).v == arm
              && error == (old(error) || FillArm(C(), env, w.value).err)
    {
      hide U32, I32, ReadKont, Resolve;
      if lua {
        var id := ReadU32();
        var pc := ReadI32();
        var nextra := ReadI32();
        var p := ResolveId(id, OBJ_PROTO);
        arm := LuaArm(p, if p == NULL then 0 else pc, nextra);
      } else {
        arm := TakeKont();
      }
    }

    method TakeFrame() returns (f: Frame)
      requires Valid() && ReadFrame(data, pos).Got?
      modifies this`pos, this`error
      ensures var w := ReadFrame(data, old(pos));
              w.Got? && w.next == pos
              && f == Frame(w.value.func, w.value.top, w.value.status, w.value.u2, FillArm(C(), env, w.value.arm).v)
              && error == (old(error) || FillArm(C(), env, w.value.arm).err)
    {
      hide U32, I32, U8, ReadArm, FillArm;
      var lua := ReadU8();
      var func := ReadI32();
      var top := ReadI32();
      var status := ReadU32();
      var u2 := ReadI32();
      var arm := TakeArm(lua != 0);
      f := Frame(func, top, status, u2, arm);
    }

    method TakeFrames(n: nat) returns (fs: seq<Frame>)
      requires Valid() && ReadAll(data, pos, n, ReadFrame).Got?
      modifies this`pos, this`error
      ensures var ws := ReadAll(data, old(pos), n, ReadFrame);
              ws.Got? && ws.next == pos && FillFrames(C(), env, ws.value).v == fs
              && error == (old(error) || FillFrames(C(), env, ws.value).err)
    {
      hide ReadFrame, FillArm;
      fs := [];
      for i := 0 to n
        invariant ReadAll(data, old(pos), i, ReadFrame).Got?
        invariant var ws := ReadAll(data, old(pos), i, ReadFrame);
                  ws.next == pos && FillFrames(C(), env, ws.value).v == fs
                  && error == (old(error) || FillFrames(C(), env, ws.value).err)
      {
        ReadsNext(data, old(pos), i, n, ReadFrame);
        FramesNext(C(), env, ReadAll(data, old(pos), i, ReadFrame).value, ReadFrame(data, pos).value);
        var f := TakeFrame();
        fs := fs + [f];
      }
    }

    /** The place of a slot in the list of open upvalues. */
    method FindPlace(open: seq<Ref>, slot: i32) returns (i: nat)
      ensures i == Place(heap, open, slot, 0) && i <= |open|
    {
      i := 0;
      while i < |open| && SlotOf(heap, open[i]) > slot
        invariant i <= |open| && Place(heap, open, slot, 0) == Place(heap, open, slot, i)
      {
        i := i + 1;
      }
    }

    /** One open upvalue, opened and linked into the list of the thread `th`. */
    method LinkOpen(th: Ref, open: seq<Ref>) returns (r: seq<Ref>)
      requires Valid() && ReadOpen(data, pos).Got?
      requires forall i :: 0 <= i < |ptr| ==> ptr[i] < |heap|
      modifies this`pos, this`error, this`heap
      ensures |heap| == old(|heap|)
      ensures var w := ReadOpen(data, old(pos));
              w.Got? && w.next == pos
              && var l := LinkOne(C(), th, Relink(old(heap), open, false), w.value);
              l.heap == heap && l.open == r && error == (old(error) || l.err)
    {
      hide U32, I32, Place, Resolve;
      r := open;
      var id := ReadU32();
      var slot := ReadI32();
      var uv := ResolveId(id, OBJ_UPVAL_OPEN);
      ResolvedInside(C(), id, OBJ_UPVAL_OPEN, |heap|);
      ResolvedOk(C(), id, OBJ_UPVAL_OPEN);
      if uv != NULL {
        heap := heap[uv := Cell(heap[uv].objid, UpOpen(th, slot))];
        var i := FindPlace(open, slot);
        r := open[..i] + [uv] + open[i..];
      }
    }

    /** The open upvalues of the thread `th`, linked into its list one by one. */
    method LinkOpens(th: Ref, open0: seq<Ref>, n: nat) returns (open: seq<Ref>)
      requires Valid() && ReadAll(data, pos, n, ReadOpen).Got?
      requires forall i :: 0 <= i < |ptr| ==> ptr[i] < |heap|
      modifies this`pos, this`error, this`heap
      ensures |heap| == old(|heap|)
      ensures var ws := ReadAll(data, old(pos), n, ReadOpen);
              ws.Got? && ws.next == pos
              && var l := LinkAll(C(), th, Relink(old(heap), open0, false), ws.value);
              l.heap == heap && l.open == open && error == (old(error) || l.err)
    {
      hide ReadOpen, LinkOne;
      open := open0;
      for k := 0 to n
        invariant ReadAll(data, old(pos), k, ReadOpen).Got? && |heap| == old(|heap|)
        invariant var ws := ReadAll(data, old(pos), k, ReadOpen);
                  ws.next == pos
                  && var l := LinkAll(C(), th, Relink(old(heap), open0, false), ws.value);
                  l.heap == heap && l.open == open && error == (old(error) || l.err)
      {
        ReadsNext(data, old(pos), k, n, ReadOpen);
        LinksNext(C(), th, Relink(old(heap), open0, false), ReadAll(data, old(pos), k, ReadOpen).value,
                  ReadOpen(data, pos).value);
        LinkErr(C(), th, LinkAll(C(), th, Relink(old(heap), open0, false), ReadAll(data, old(pos), k, ReadOpen).value),
                ReadOpen(data, pos).value);
        open := LinkOpen(th, open);
      }
    }

    /** fill_thread */
    method LoadThread(r: Ref)
      requires Valid() && r < |heap| && ReadThread(data, pos).Got?
      requires forall i :: 0 <= i < |ptr| ==> ptr[i] < |heap|
      modifies this`pos, this`error, this`heap
      ensures var l := FillThread(C(), env, Load(old(heap), old(error), false), r, ReadThread(data, old(pos)).value);
              heap == l.heap && error == l.error
    {
      hide U32, U8, ReadAll, FillTvs, FillFrames, LinkAll;
      var status := ReadU8();
      var nstack := ReadU32();
      var stack := TakeTvs(nstack);
      var nframes := ReadU32();
      var frames := TakeFrames(nframes);
      var nopen := ReadU32();
      var open0 := if heap[r].obj.Thread? then heap[r].obj.open else [];
      var open := LinkOpens(r, open0, nopen);
      heap := heap[r := Cell(heap[r].objid, Thread(status, stack, frames, open))];
    }

    // ---------------------------------------------------------------- the fill passes

    ghost predicate Ready(es: seq<Entry>)
      reads this`types, this`ptr, this`heap, this`sizes
    {
      && Valid() && |es| == |types| && |sizes| == |es|
      && (forall i :: 0 <= i < |ptr| ==> ptr[i] < |heap|)
      && (forall i :: 0 <= i < |es| ==> OBJ_STRING <= es[i].tc <= OBJ_USERDATA && types[i] == es[i].tc)
      && (forall i :: 0 <= i < |es| && es[i].tc == OBJ_PROTO && ScanProto(data, es[i].off).Got? ==>
            sizes[i] == ScanProto(data, es[i].off).value.size)
    }

    /** Fill the object with id `id`, which is not outside the buffer. */
    method FillRecord(es: seq<Entry>, id: nat)
      requires Ready(es) && 0 < id <= |es|
      requires !FillOne(data, env, es, C(), Load(heap, error, false), id).undefined
      modifies this`pos, this`error, this`heap
      ensures Ready(es)
      ensures Load(heap, error, false) == FillOne(data, env, es, C(), Load(old(heap), old(error), false), id)
    {
      hide ReadTable, ReadLClosure, ReadCClosure, ReadTv, ReadThread, ReadUd, ScanProto, ReadProto, FillTable,
           FillThread, FillProto;
      var tc, r := types[id - 1], ptr[id];
      pos := es[id - 1].off;
      if tc == OBJ_PROTO {
        LoadProto(r, sizes[id - 1]);
      } else if tc == OBJ_TABLE {
        LoadTable(r);
      } else if tc == OBJ_LCLOSURE {
        ClosureRecords(data, pos);
        LoadLClosure(r);
      } else if tc == OBJ_CCLOSURE {
        ClosureRecords(data, pos);
        LoadCClosure(r);
      } else if tc == OBJ_UPVAL_CLOSED {
        LoadUpvalClosed(r);
      } else if tc == OBJ_THREAD {
        LoadThread(r);
      } else if tc == OBJ_USERDATA {
        ClosureRecords(data, pos);
        LoadUserdata(r);
      } else {
        heap := heap[r := Cell(heap[r].objid, heap[r].obj)];
      }
    }

    /** One pass: fill all records of kind `tc`, but for the main thread. */
    method FillKind(es: seq<Entry>, tc: byte, main: nat)
      requires Ready(es) && !FillPass(data, env, es, C(), Load(heap, error, false), tc, main, |es|).undefined
      modifies this`pos, this`error, this`heap
      ensures Ready(es)
      ensures Load(heap, error, false) == FillPass(data, env, es, C(), Load(old(heap), old(error), false), tc, main, |es|)
    {
      hide FillOne;
      ghost var l0 := Load(heap, error, false);
      for i := 0 to |es|
        invariant Ready(es) && |heap| == |l0.heap|
        invariant Load(heap, error, false) == FillPass(data, env, es, C(), l0, tc, main, i)
      {
        PassPrefix(data, env, es, C(), l0, tc, main, i + 1, |es|);
        if types[i] == tc && i + 1 != main {
          FillRecord(es, i + 1);
        }
      }
    }

    /** The passes, in their order; the main thread comes before the other threads. */
    method FillRecords(es: seq<Entry>, main: nat)
      requires Ready(es) && main <= |es|
      requires !FillAll(data, env, es, C(), Load(heap, error, false), main).undefined
      modifies this`pos, this`error, this`heap
      ensures Ready(es)
      ensures Load(heap, error, false) == FillAll(data, env, es, C(), Load(old(heap), old(error), false), main)
    {
      hide FillOne, FillPass;
      AllDefined(data, env, es, C(), Load(heap, error, false), main);
      FillKind(es, OBJ_PROTO, 0);
      FillKind(es, OBJ_UPVAL_CLOSED, 0);
      FillKind(es, OBJ_LCLOSURE, 0);
      FillKind(es, OBJ_CCLOSURE, 0);
      FillKind(es, OBJ_TABLE, 0);
      if main != 0 {
        FillRecord(es, main);
      }
      FillKind(es, OBJ_THREAD, main);
      FillKind(es, OBJ_USERDATA, 0);
    }

    // ---------------------------------------------------------------- the first pass

    method SkipValues(n: nat)
      requires ReadAll(data, pos, n, SkipTv).Got?
      modifies this`pos
      ensures ReadAll(data, old(pos), n, SkipTv).Got? && ReadAll(data, old(pos), n, SkipTv).next == pos
    {
      hide SkipTv;
      for i := 0 to n
        invariant ReadAll(data, old(pos), i, SkipTv).Got? && ReadAll(data, old(pos), i, SkipTv).next == pos
      {
        ReadsNext(data, old(pos), i, n, SkipTv);
        SkipValue();
      }
    }

    method SkipItems(n: nat)
      requires ReadAll(data, pos, n, SkipItem).Got?
      modifies this`pos
      ensures ReadAll(data, old(pos), n, SkipItem).Got? && ReadAll(data, old(pos), n, SkipItem).next == pos
    {
      hide SkipTv, U32;
      for i := 0 to n
        invariant ReadAll(data, old(pos), i, SkipItem).Got? && ReadAll(data, old(pos), i, SkipItem).next == pos
      {
        ReadsNext(data, old(pos), i, n, SkipItem);
        var _ := ReadU32();
        SkipValue();
      }
    }

    /** A nil key is a free slot: it stands alone. */
    method SkipSlots(n: nat)
      requires ReadAll(data, pos, n, SkipSlot).Got?
      modifies this`pos
      ensures ReadAll(data, old(pos), n, SkipSlot).Got? && ReadAll(data, old(pos), n, SkipSlot).next == pos
    {
      hide SkipTv, I32;
      for i := 0 to n
        invariant ReadAll(data, old(pos), i, SkipSlot).Got? && ReadAll(data, old(pos), i, SkipSlot).next == pos
      {
        ReadsNext(data, old(pos), i, n, SkipSlot);
        var before := pos;
        SkipValue();
        if data[before] != TV_NIL {
          SkipValue();
          var _ := ReadI32();
        }
      }
    }

    method SizeTable() returns (z: TableSize)
      requires ScanTable(data, pos).Got?
      modifies this`pos
      ensures ScanTable(data, old(pos)) == Got(z, pos)
    {
      hide U32, SkipItem, SkipSlot, ReadAll;
      var acount := ReadU32();
      SkipItems(acount);
      var hsize := ReadU32();
      SkipSlots(hsize);
      var _ := ReadU32();
      var asize := ReadU32();
      z := TableSize(asize, hsize);
    }

    method SizeFront() returns (code: nat, k: nat, p: nat)
      requires ScanFront(data, pos).Got?
      modifies this`pos
      ensures ScanFront(data, old(pos)) == Got((code, k, p), pos)
    {
      hide U32, ReadAll, SkipTv;
      pos := pos + 3;
      code := ReadU32();
      pos := pos + code * 4;
      k := ReadU32();
      SkipValues(k);
      p := ReadU32();
      pos := pos + p * 4;
    }

    method SizeBack() returns (ups: nat, li: nat, abs: nat)
      requires ScanBack(data, pos).Got?
      modifies this`pos
      ensures ScanBack(data, old(pos)) == Got((ups, li, abs), pos)
    {
      hide U32;
      ups := ReadU32();
      pos := pos + ups * 7;
      li := ReadU32();
      pos := pos + li;
      abs := ReadU32();
      pos := pos + abs * 8;
    }

    /** create_proto: the sizes of the arrays to allocate. */
    method SizeProto() returns (z: ProtoSize)
      requires ScanProto(data, pos).Got?
      modifies this`pos
      ensures ScanProto(data, old(pos)).Got? && ScanProto(data, old(pos)).value.size == z
      ensures ScanProto(data, old(pos)).next == pos
    {
      hide U32, ScanFront, ScanBack;
      var code, k, p := SizeFront();
      var ups, li, abs := SizeBack();
      var _ := ReadU32();
      z := ProtoSize(code, k, p, ups, li, abs);
    }

    const NO_SIZE := ProtoSize(0, 0, 0, 0, 0, 0)

    /** The blank object for a record; a string comes whole, and a short one may exist already. */
    method MakeBlank(e: Entry) returns (b: Blank, z: ProtoSize)
      requires BlankFor(data, heap, e) != OutOfBounds && OBJ_STRING <= e.tc <= OBJ_USERDATA
      modifies this`pos
      ensures b == BlankFor(data, heap, e)
      ensures e.tc == OBJ_PROTO ==> ScanProto(data, e.off).Got? && z == ScanProto(data, e.off).value.size
    {
      hide ScanTable, ScanProto, FindShort, BlankTable, U32, U16, U8, ReadAll, SkipTv;
      pos := e.off;
      z := NO_SIZE;
      if e.tc == OBJ_STRING {
        var n := ReadU32();
        var t := ReadBytes(n);
        if |t| > MAXSHORTLEN {
          b := New(Str(false, t));
        } else if |heap| > 0 && FindShort(heap, t, 1) < |heap| {
          b := Old(FindShort(heap, t, 1));
        } else {
          b := New(Str(true, t));
        }
      } else if e.tc == OBJ_TABLE {
        var size := SizeTable();
        b := New(BlankTable(size));
      } else if e.tc == OBJ_PROTO {
        z := SizeProto();
        b := New(Proto(ProtoData(0, 0, 0, [], [], [], [], [], [], [], NULL, 0, 0)));
      } else if e.tc == OBJ_LCLOSURE {
        var _ := ReadU32();
        var _ := ReadU8();
        b := New(LClosure(NULL, []));
      } else if e.tc == OBJ_CCLOSURE {
        var t := ReadU8();
        if t == CFUNC_TAG {
          var n := ReadU16();
          var _ := ReadBytes(n);
        }
        var n := ReadU8();
        SkipValues(n);
        b := New(CClosure(0, []));
      } else if e.tc == OBJ_USERDATA {
        b := BlankUserdata();
      } else if e.tc == OBJ_THREAD {
        b := New(Thread(0, [], [], []));
      } else {
        b := New(UpClosed(TValue.Nil));
      }
    }

    method BlankUserdata() returns (b: Blank)
      modifies this`pos
      ensures b == match ReadUd(data, old(pos))
                   case Oob => Malformed
                   case Got(w, _) => New(Udata([], if w.WUd? then w.payload else [], NULL))
    {
      if pos + 4 > |data| {
        return Malformed;
      }
      var n := ReadU32();
      if n > |data| - pos || 4 > |data| - pos - n {
        return Malformed;
      }
      var payload := ReadBytes(n);
      pos := pos + 4;
      b := New(Udata([], payload, NULL));
    }

    /** The first pass: an object for every id. The main thread exists already. `ok` is false when
        a userdata record is cut short. */
    method CreateObjects(es: seq<Entry>, base: State, main: nat) returns (ok: bool)
      requires base.main < |base.heap| && main <= |es| && heap == base.heap && ptr == [NULL] && sizes == []
      requires forall i :: 0 <= i < |es| ==> OBJ_STRING <= es[i].tc <= OBJ_USERDATA
      requires main > 0 ==> es[main - 1].tc == OBJ_THREAD
      requires !CreateAll(data, base, es, main, |es|).undefined
      modifies this`pos, this`ptr, this`heap, this`sizes
      ensures var p := CreateAll(data, base, es, main, |es|);
              ok == !p.failed && (ok ==> ptr == p.ptr && heap == p.heap && |sizes| == |es| && SizesOk(es))
    {
      hide BlankFor, ScanProto, CreateAll;
      CreateNone(data, base, es, main);
      ok := true;
      var i := 0;
      while i < |es|
        invariant 0 <= i <= |es| && |sizes| == i && SizesOk(es[..i])
        invariant var p := CreateAll(data, base, es, main, i);
                  !p.failed && !p.undefined && ptr == p.ptr && heap == p.heap
      {
        CreateDefined(data, base, es, main, i + 1, |es|);
        CreateStep(data, base, es, main, i);
        if i + 1 == main {
          ptr, sizes := ptr + [base.main], sizes + [NO_SIZE];
          assert es[..i + 1] == es[..i] + [es[i]];
        } else {
          var b, z := MakeBlank(es[i]);
          if b.Malformed? {
            CreateFailed(data, base, es, main, i + 1, |es|);
            return false;
          }
          if b.Old? {
            ptr := ptr + [b.r];
          } else {
            ptr := ptr + [|heap|];
            heap := heap + [Cell(0, b.obj)];
          }
          sizes := sizes + [z];
          assert es[..i + 1] == es[..i] + [es[i]];
        }
        i := i + 1;
      }
      assert es[..|es|] == es;
    }

    ghost predicate SizesOk(es: seq<Entry>)
      reads this`sizes
    {
      |sizes| == |es| && forall i :: 0 <= i < |es| && es[i].tc == OBJ_PROTO && ScanProto(data, es[i].off).Got? ==>
        sizes[i] == ScanProto(data, es[i].off).value.size
    }

    /** Pass 1.5: the saved object ids. */
    method RestoreObjids(es: seq<Entry>)
      requires |ptr| == |es| + 1
      modifies this`heap
      ensures heap == SetObjids(old(heap), es, ptr, |es|)
    {
      for i := 0 to |es|
        invariant heap == SetObjids(old(heap), es, ptr, i) && |heap| == old(|heap|)
      {
        var r := ptr[i + 1];
        if r != NULL && r < |heap| {
          heap := heap[r := Cell(es[i].objid, heap[r].obj)];
        }
      }
    }

    // ---------------------------------------------------------------- the load

    constructor (bytes: seq<byte>, names: Env)
      ensures data == bytes && env == names && pos == 0 && ptr == [NULL] && sizes == [] && !error
    {
      data, env := bytes, names;
      pos, types, ptr, heap, error, sizes := 0, [], [NULL], [], false, [];
    }

    /** The walk over the record headers: kinds, object ids and places. */
    method BuildIndex(end: nat) returns (ok: bool, es: seq<Entry>)
      requires end <= |data|
      modifies this`pos
      ensures match IndexFrom(data, old(pos), end, [])
              case BadIndex => !ok
              case Indexed(entries, p) =>
                ok && es == entries && pos == p && forall e :: e in es ==> OBJ_STRING <= e.tc <= OBJ_USERDATA
    {
      hide EntryAt;
      es := [];
      while pos < end
        invariant forall e :: e in es ==> OBJ_STRING <= e.tc <= OBJ_USERDATA
        invariant IndexFrom(data, old(pos), end, []) == IndexFrom(data, pos, end, es)
        decreases end - pos
      {
        var fits, e, next := ReadHeader(end);
        if !fits || next <= pos {
          return false, [];
        }
        es := es + [e];
        pos := next;
      }
      ok := true;
    }

    /** The header of one record. */
    method ReadHeader(end: nat) returns (ok: bool, e: Entry, next: nat)
      ensures match EntryAt(data, pos, end)
              case Oob => !ok
              case Got(w, p) => ok && e == w && next == p && OBJ_STRING <= e.tc <= OBJ_USERDATA
    {
      ok, e, next := false, Entry(0, 0, 0), 0;
      if pos + OBJ_HEADER > |data| {
        return;
      }
      Pow256Values();
      var tc := data[pos];
      if tc < OBJ_STRING || tc > OBJ_USERDATA {
        return;
      }
      var objid := UnLe(data[pos + 1..pos + 9]);
      var size := UnLe(data[pos + 9..pos + 13]);
      if size > Room(end, pos + 13) {
        return;
      }
      ok, e, next := true, Entry(tc, objid, pos + 13), pos + 13 + size;
    }

    /** Registry, main thread and type metatables. */
    method TakeRoots() returns (ok: bool, roots: Roots)
      modifies this`pos
      ensures ok == ReadRoots(data, old(pos)).Got?
      ensures ok ==> ReadRoots(data, old(pos)).value == roots
    {
      RootsSize(data, pos);
      roots := Roots(0, 0, []);
      ok := pos + FOOTER <= |data|;
      if ok {
        hide U32;
        var registry := ReadU32();
        var main := ReadU32();
        var mt := TakeWords(NUMTYPES);
        roots := Roots(registry, main, mt);
      }
    }

    /** The state that an indexed buffer describes. */
    method LoadObjects(es: seq<Entry>, roots: Roots, base: State) returns (r: Outcome)
      requires forall e :: e in es ==> OBJ_STRING <= e.tc <= OBJ_USERDATA
      requires roots.main <= |es| && base.main < |base.heap| && (roots.main > 0 ==> es[roots.main - 1].tc == OBJ_THREAD)
      requires ptr == [NULL] && sizes == [] && !error && Relinked(data, env, base, es, roots) != Undefined
      modifies this
      ensures r == Relinked(data, env, base, es, roots)
    {
      hide CreateAll, FillAll, SetObjids, Resolve, ResolveAll, ScanProto;
      heap := base.heap;
      KindsInRange(es);
      CreatedInside(data, base, es, roots.main);
      var ok := CreateObjects(es, base, roots.main);
      if !ok {
        return Failed;
      }
      types := seq(|es|, i requires 0 <= i < |es| => es[i].tc);
      RestoreObjids(es);
      FillRecords(es, roots.main);
      var registry := ResolveId(roots.registry, OBJ_TABLE);
      var mts := ResolveRoots(roots.mt);
      if error {
        return Failed;
      }
      r := Loaded(State(heap, if registry == NULL then base.registry else registry, base.main, mts, 0, 0), ptr);
    }

    method ResolveRoots(ids: seq<u32>) returns (rs: seq<Ref>)
      requires Valid()
      modifies this`error
      ensures rs == ResolveAll(C(), ids, OBJ_TABLE).v && error == (old(error) || ResolveAll(C(), ids, OBJ_TABLE).err)
    {
      hide Resolve;
      rs := [];
      for i := 0 to |ids|
        invariant rs == ResolveAll(C(), ids[..i], OBJ_TABLE).v
        invariant error == (old(error) || ResolveAll(C(), ids[..i], OBJ_TABLE).err)
      {
        ResolveSnoc(C(), ids[..i], ids[i], OBJ_TABLE);
        assert ids[..i + 1] == ids[..i] + [ids[i]];
        var r := ResolveId(ids[i], OBJ_TABLE);
        rs := rs + [r];
      }
      assert ids[..|ids|] == ids;
    }

    /** lstasis_load: what it makes of the buffer, when it does not read or write out of bounds. */
    method LoadBuffer(base: State) returns (r: Outcome)
      requires base.main < |base.heap| && LoadState(data, env, base) != Undefined
      requires pos == 0 && ptr == [NULL] && sizes == [] && !error
      modifies this
      ensures r == LoadState(data, env, base)
      ensures LoadSafety.SafeState(base) ==> (if LoadVerdict.Acceptable(data, env) then r.Loaded? else r == Failed)
    {
      hide Relinked, IndexFrom, ReadRoots, LoadVerdict.Acceptable, LoadSafety.SafeState;
      if LoadSafety.SafeState(base) {
        LoadVerdict.AcceptsExactly(data, env, base);
      }
      if |data| < HEADER + FOOTER {
        return Failed;
      }
      var nextSeq := UnLe(data[..8]);
      var seed := UnLe(data[8..12]);
      pos := HEADER;
      var indexed, es := BuildIndex(|data| - FOOTER);
      if !indexed {
        return Failed;
      }
      var ok, roots := TakeRoots();
      if !ok || (roots.main != 0 && (roots.main > |es| || es[roots.main - 1].tc != OBJ_THREAD)) {
        return Failed;
      }
      r := LoadObjects(es, roots, base);
      if r.Loaded? {
        r := Loaded(r.state.(seed := seed % 0x1_0000_0000, nextSeq := nextSeq % SIZE_MAX1), r.ptr);
      }
    }
  }

  /** Saving and then loading, by the methods that do it: the load succeeds, and the loaded
      state is isomorphic to the saved one, and is saved to the same bytes, exactly when no
      open upvalue lost its thread and the strings were interned. */
  method SaveAndLoad(s: State, env: Env, base: State) returns (r: Outcome)
    requires Storable(s, env) && GoodBase(base)
    ensures r.Loaded? && Restores(Normal(s), r.state, r.ptr) && exists m :: BroughtBack(s, r.state, m)
    ensures UpvaluesOwned(s) && StringsInterned(s) <==> exists m :: Resembles(s, r.state, m)
    ensures UpvaluesOwned(s) && StringsInterned(s) <==> exists m :: Isomorphic(s, r.state, m)
    ensures UpvaluesOwned(s) && StringsInterned(s) <==> Save(r.state, env) == Save(s, env)
  {
    hide *;
    StorableParts(s, env);
    SaveThenLoad(s, env, base);
    RoundTripIff(s, env, base);
    ResaveIff(s, env, base);
    var saved := SaveState(s, env);
    ReloadIs(s, env, base);
    var l := new Loader(saved.bytes, env);
    r := l.LoadBuffer(base);
  }

  lemma ReloadIs(s: State, env: Env, base: State)
    requires Save(s, env).Snapshot? && base.main < |base.heap|
    ensures Reloaded(s, env, base) == LoadState(Save(s, env).bytes, env, base)
  {
    hide LoadState, Save;
  }

  /** Reading `n` elements, the one after the first `i` can be read. */
  lemma {:induction false} ReadsNext<T(!new)>(data: seq<byte>, pos: nat, i: nat, n: nat,
        read: (seq<byte>, nat) -> Parsed<T>)
    requires i < n && ReadAll(data, pos, n, read).Got?
    ensures ReadAll(data, pos, i, read).Got? && ReadAll(data, pos, i + 1, read).Got?
    ensures var ws := ReadAll(data, pos, i, read);
            var w := read(data, ws.next);
            w.Got? && ReadAll(data, pos, i + 1, read) == Got(ws.value + [w.value], w.next)
    decreases n
  {
    if i + 1 < n {
      ReadsNext(data, pos, i, n - 1, read);
    }
  }

  lemma FillTvsSnoc(c: Ctx, env: Env, ws: seq<WTv>, w: WTv)
    requires c.Valid()
    ensures FillTvs(c, env, ws + [w]) == Res(FillTvs(c, env, ws).v + [FillTv(c, env, w).v],
                                             FillTvs(c, env, ws).err || FillTv(c, env, w).err)
  {
    assert (ws + [w])[..|ws|] == ws;
  }

  lemma ResolveSnoc(c: Ctx, ws: seq<u32>, w: u32, expected: nat)
    requires c.Valid()
    ensures ResolveAll(c, ws + [w], expected) == Res(ResolveAll(c, ws, expected).v + [Resolve(c, w, expected).v],
                                                     ResolveAll(c, ws, expected).err || Resolve(c, w, expected).err)
  {
    assert (ws + [w])[..|ws|] == ws;
  }

  lemma MarkerIs(data: seq<byte>, pos: nat)
    ensures pos < |data| && (data[pos] == TV_NIL || data[pos] == TV_EMPTY) ==>
              ReadTv(data, pos) == Got(WTag(data[pos]), pos + 1)
    ensures ReadTv(data, pos).Got? ==> pos < |data|
    ensures ReadTv(data, pos).Got? && data[pos] != TV_NIL && data[pos] != TV_EMPTY ==>
              ReadTv(data, pos).value != WTag(TV_NIL) && ReadTv(data, pos).value != WTag(TV_EMPTY)
  {
  }

  lemma ItemsNext(c: Ctx, env: Env, arr: seq<TValue>, ws: seq<WItem>, w: WItem)
    requires c.Valid()
    ensures var init := FillItems(c, env, arr, ws);
            var last := FillItem(c, env, init.v, w);
            FillItems(c, env, arr, ws + [w]) == Res(last.v, init.err || last.err)
  {
    assert (ws + [w])[..|ws|] == ws;
  }

  /** An error of an earlier slot is only carried along. */
  lemma SlotErr(c: Ctx, env: Env, n: Nodes, e: nat, hsize: nat, w: WSlot)
    requires c.Valid() && !n.wild
    ensures var r := FillSlot(c, env, Nodes(n.nodes, false, false), e, hsize, w);
            FillSlot(c, env, n, e, hsize, w) == r.(err := n.err || r.err)
  {
  }

  lemma SlotsNext(c: Ctx, env: Env, nodes: seq<Node>, hsize: nat, ws: seq<WSlot>, w: WSlot)
    requires c.Valid()
    requires !FillSlots(c, env, Nodes(nodes, false, false), hsize, ws).wild
    ensures var n := FillSlots(c, env, Nodes(nodes, false, false), hsize, ws);
            var r := FillSlot(c, env, Nodes(n.nodes, false, false), |ws|, hsize, w);
            FillSlots(c, env, Nodes(nodes, false, false), hsize, ws + [w]) == r.(err := n.err || r.err)
  {
    assert (ws + [w])[..|ws|] == ws;
    SlotErr(c, env, FillSlots(c, env, Nodes(nodes, false, false), hsize, ws), |ws|, hsize, w);
  }

  lemma NoSlots(data: seq<byte>, p: nat, c: Ctx, env: Env, nodes: seq<Node>, hsize: nat)
    requires c.Valid()
    ensures ReadAll(data, p, 0, ReadSlot) == Got([], p)
    ensures FillSlots(c, env, Nodes(nodes, false, false), hsize, []) == Nodes(nodes, false, false)
  {
  }

  /** A store out of bounds is not undone by later slots. */
  lemma {:induction false} NotWild(data: seq<byte>, p: nat, i: nat, n: nat, c: Ctx, env: Env, nodes: seq<Node>)
    requires c.Valid() && i <= n && ReadAll(data, p, n, ReadSlot).Got?
    requires !FillSlots(c, env, Nodes(nodes, false, false), n, ReadAll(data, p, n, ReadSlot).value).wild
    ensures ReadAll(data, p, i, ReadSlot).Got?
    ensures !FillSlots(c, env, Nodes(nodes, false, false), n, ReadAll(data, p, i, ReadSlot).value).wild
  {
    NotWildFrom(data, p, i, n, n, c, env, nodes);
  }

  lemma {:induction false} NotWildFrom(data: seq<byte>, p: nat, i: nat, k: nat, n: nat, c: Ctx, env: Env,
        nodes: seq<Node>)
    requires c.Valid() && i <= k && ReadAll(data, p, k, ReadSlot).Got?
    requires !FillSlots(c, env, Nodes(nodes, false, false), n, ReadAll(data, p, k, ReadSlot).value).wild
    ensures ReadAll(data, p, i, ReadSlot).Got?
    ensures !FillSlots(c, env, Nodes(nodes, false, false), n, ReadAll(data, p, i, ReadSlot).value).wild
    decreases k
  {
    if i < k {
      ReadsNext(data, p, k - 1, k, ReadSlot);
      var ws, w := ReadAll(data, p, k - 1, ReadSlot).value, ReadSlot(data, ReadAll(data, p, k - 1, ReadSlot).next).value;
      assert (ws + [w])[..|ws|] == ws;
      WildStays(c, env, FillSlots(c, env, Nodes(nodes, false, false), n, ws), k - 1, n, w);
      NotWildFrom(data, p, i, k - 1, n, c, env, nodes);
    }
  }

  lemma WildStays(c: Ctx, env: Env, n: Nodes, e: nat, hsize: nat, w: WSlot)
    requires c.Valid()
    ensures n.wild ==> FillSlot(c, env, n, e, hsize, w).wild
  {
  }

  lemma UpsNext(c: Ctx, ws: seq<UpvalDesc>, w: UpvalDesc)
    requires c.Valid()
    ensures var init := FillUps(c, ws);
            var name := Resolve(c, w.name, OBJ_STRING);
            FillUps(c, ws + [w]) == Res(init.v + [w.(name := name.v)], init.err || name.err)
  {
    assert (ws + [w])[..|ws|] == ws;
  }

  lemma VarsNext(c: Ctx, ws: seq<LocVar>, w: LocVar)
    requires c.Valid()
    ensures var init := FillVars(c, ws);
            var name := Resolve(c, w.name, OBJ_STRING);
            FillVars(c, ws + [w]) == Res(init.v + [w.(name := name.v)], init.err || name.err)
  {
    assert (ws + [w])[..|ws|] == ws;
  }

  lemma FramesNext(c: Ctx, env: Env, ws: seq<WFrame>, w: WFrame)
    requires c.Valid()
    ensures var init := FillFrames(c, env, ws);
            var arm := FillArm(c, env, w.arm);
            FillFrames(c, env, ws + [w])
            == Res(init.v + [Frame(w.func, w.top, w.status, w.u2, arm.v)], init.err || arm.err)
  {
    assert (ws + [w])[..|ws|] == ws;
  }

  lemma LinksNext(c: Ctx, th: Ref, l: Relink, ws: seq<WOpen>, w: WOpen)
    requires c.Valid()
    ensures LinkAll(c, th, l, ws + [w]) == LinkOne(c, th, LinkAll(c, th, l, ws), w)
  {
    assert (ws + [w])[..|ws|] == ws;
  }

  lemma ClosureRecords(data: seq<byte>, pos: nat)
    ensures ReadLClosure(data, pos).Got? ==> ReadLClosure(data, pos).value.WLCl?
    ensures ReadCClosure(data, pos).Got? ==> ReadCClosure(data, pos).value.WCCl?
    ensures ReadUd(data, pos).Got? ==> ReadUd(data, pos).value.WUd?
  {
  }

  lemma ResolvedOk(c: Ctx, id: nat, expected: nat)
    requires c.Valid()
    ensures Resolve(c, id, expected).v != NULL ==> !Resolve(c, id, expected).err
  {
  }

  lemma LinkErr(c: Ctx, th: Ref, l: Relink, w: WOpen)
    requires c.Valid()
    ensures var r := LinkOne(c, th, Relink(l.heap, l.open, false), w);
            LinkOne(c, th, l, w) == r.(err := l.err || r.err)
  {
  }

  lemma ResolvedInside(c: Ctx, id: nat, expected: nat, size: nat)
    requires c.Valid() && forall i :: 0 <= i < |c.ptr| ==> c.ptr[i] < size
    ensures Resolve(c, id, expected).v == NULL || Resolve(c, id, expected).v < size
  {
  }

  ghost predicate Inside(es: seq<Entry>, c: Ctx, size: nat) {
    && c.Valid() && |es| == |c.types|
    && (forall i :: 0 <= i < |c.ptr| ==> c.ptr[i] < size)
    && (forall i :: 0 <= i < |es| ==> OBJ_STRING <= es[i].tc <= OBJ_USERDATA)
  }

  lemma OneDefined(data: seq<byte>, env: Env, es: seq<Entry>, c: Ctx, l: Load, id: nat)
    requires Inside(es, c, |l.heap|) && 0 < id <= |es|
    ensures l.undefined ==> FillOne(data, env, es, c, l, id).undefined
  {
  }

  /** What was undefined stays so. */
  lemma {:induction false} PassPrefix(data: seq<byte>, env: Env, es: seq<Entry>, c: Ctx, l: Load, tc: byte, main: nat,
                                      i: nat, k: nat)
    requires Inside(es, c, |l.heap|) && i <= k <= |es|
    requires !FillPass(data, env, es, c, l, tc, main, k).undefined
    ensures !FillPass(data, env, es, c, l, tc, main, i).undefined && !l.undefined
    decreases k
  {
    hide FillOne;
    if 0 < k {
      OneDefined(data, env, es, c, FillPass(data, env, es, c, l, tc, main, k - 1), k);
      PassPrefix(data, env, es, c, l, tc, main, if i < k then i else k - 1, k - 1);
    }
  }

  lemma PassDefined(data: seq<byte>, env: Env, es: seq<Entry>, c: Ctx, l: Load, tc: byte, main: nat)
    requires Inside(es, c, |l.heap|)
    ensures l.undefined ==> FillPass(data, env, es, c, l, tc, main, |es|).undefined
  {
    if !FillPass(data, env, es, c, l, tc, main, |es|).undefined {
      PassPrefix(data, env, es, c, l, tc, main, 0, |es|);
    }
  }

  /** No pass is undefined, if all of them together are not. */
  lemma AllDefined(data: seq<byte>, env: Env, es: seq<Entry>, c: Ctx, l: Load, main: nat)
    requires Inside(es, c, |l.heap|) && main <= |es| && !FillAll(data, env, es, c, l, main).undefined
    ensures var n := |es|;
            var a := FillPass(data, env, es, c, l, OBJ_PROTO, 0, n);
            var b := FillPass(data, env, es, c, a, OBJ_UPVAL_CLOSED, 0, n);
            var d := FillPass(data, env, es, c, b, OBJ_LCLOSURE, 0, n);
            var e := FillPass(data, env, es, c, d, OBJ_CCLOSURE, 0, n);
            var f := FillPass(data, env, es, c, e, OBJ_TABLE, 0, n);
            var g := if main == 0 then f else FillOne(data, env, es, c, f, main);
            var t := FillPass(data, env, es, c, g, OBJ_THREAD, main, n);
            !a.undefined && !b.undefined && !d.undefined && !e.undefined && !f.undefined && !g.undefined && !t.undefined
  {
    hide FillOne, FillPass;
    var n := |es|;
    var a := FillPass(data, env, es, c, l, OBJ_PROTO, 0, n);
    var b := FillPass(data, env, es, c, a, OBJ_UPVAL_CLOSED, 0, n);
    var d := FillPass(data, env, es, c, b, OBJ_LCLOSURE, 0, n);
    var e := FillPass(data, env, es, c, d, OBJ_CCLOSURE, 0, n);
    var f := FillPass(data, env, es, c, e, OBJ_TABLE, 0, n);
    var g := if main == 0 then f else FillOne(data, env, es, c, f, main);
    var t := FillPass(data, env, es, c, g, OBJ_THREAD, main, n);
    PassDefined(data, env, es, c, t, OBJ_USERDATA, 0);
    PassDefined(data, env, es, c, g, OBJ_THREAD, main);
    if main != 0 {
      OneDefined(data, env, es, c, f, main);
    }
    PassDefined(data, env, es, c, e, OBJ_TABLE, 0);
    PassDefined(data, env, es, c, d, OBJ_CCLOSURE, 0);
    PassDefined(data, env, es, c, b, OBJ_LCLOSURE, 0);
    PassDefined(data, env, es, c, a, OBJ_UPVAL_CLOSED, 0);
  }

  /** Once a blank could not be made, no more are. */
  lemma {:induction false} CreateDefined(data: seq<byte>, base: State, es: seq<Entry>, main: nat, i: nat, k: nat)
    requires i <= k <= |es| && base.main < |base.heap| && !CreateAll(data, base, es, main, k).undefined
    ensures !CreateAll(data, base, es, main, i).undefined
    decreases k
  {
    if i < k {
      hide BlankFor;
      CreateDefined(data, base, es, main, i, k - 1);
    }
  }

  lemma CreateNone(data: seq<byte>, base: State, es: seq<Entry>, main: nat)
    requires base.main < |base.heap|
    ensures CreateAll(data, base, es, main, 0) == Created(base.heap, [NULL], false, false)
  {
  }

  lemma CreateStep(data: seq<byte>, base: State, es: seq<Entry>, main: nat, i: nat)
    requires i < |es| && base.main < |base.heap|
    ensures var p := CreateAll(data, base, es, main, i);
            !p.failed && !p.undefined ==>
              CreateAll(data, base, es, main, i + 1) ==
              if i + 1 == main then p.(ptr := p.ptr + [base.main])
              else
                match BlankFor(data, p.heap, es[i])
                case Old(r) => p.(ptr := p.ptr + [r])
                case New(o) => Created(p.heap + [Cell(0, o)], p.ptr + [|p.heap|], false, false)
                case Malformed => Created(p.heap, p.ptr + [NULL], true, false)
                case OutOfBounds => Created(p.heap, p.ptr + [NULL], false, true)
  {
    hide BlankFor;
  }

  lemma {:induction false} CreateFailed(data: seq<byte>, base: State, es: seq<Entry>, main: nat, i: nat, k: nat)
    requires i <= k <= |es| && base.main < |base.heap| && CreateAll(data, base, es, main, i).failed
    ensures CreateAll(data, base, es, main, k).failed
    decreases k
  {
    if i < k {
      hide BlankFor;
      CreateFailed(data, base, es, main, i, k - 1);
    }
  }

  lemma KindsInRange(es: seq<Entry>)
    requires forall e :: e in es ==> OBJ_STRING <= e.tc <= OBJ_USERDATA
    ensures forall i :: 0 <= i < |es| ==> OBJ_STRING <= es[i].tc <= OBJ_USERDATA
  {
  }

  lemma CreatedInside(data: seq<byte>, base: State, es: seq<Entry>, main: nat)
    requires main <= |es| && base.main < |base.heap|
    ensures var p := CreateAll(data, base, es, main, |es|);
            |p.ptr| == |es| + 1 && p.ptr[0] == NULL && forall i :: 0 <= i <= |es| ==> p.ptr[i] < |p.heap|
  {
  }

  /** The footer has a fixed size. */
  lemma RootsSize(data: seq<byte>, pos: nat)
    ensures ReadRoots(data, pos).Got? <==> pos + FOOTER <= |data|
    ensures pos + FOOTER <= |data| ==>
              U32(data, pos).Got? && U32(data, pos + 4).Got? && ReadAll(data, pos + 8, NUMTYPES, U32).Got?
  {
    WordsSize(data, pos + 8, NUMTYPES);
  }

  lemma {:induction false} WordsSize(data: seq<byte>, pos: nat, n: nat)
    ensures ReadAll(data, pos, n, U32).Got? <==> n == 0 || pos + 4 * n <= |data|
    ensures ReadAll(data, pos, n, U32).Got? ==> ReadAll(data, pos, n, U32).next == pos + 4 * n
  {
    if n > 0 {
      WordsSize(data, pos, n - 1);
    }
  }
}
