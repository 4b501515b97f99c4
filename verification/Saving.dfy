// The write pass of a save: records appended to a growing buffer, with object ids
// looked up in the table that discovery filled.
module Saving {
  import opened Bytes
  import opened Heap
  import opened Discovery
  import opened ObjTable
  import opened Wire
  import opened TableRecords
  import opened ProtoRecords
  import opened Records
  import opened Snapshot
  import opened WellFormed

  /** The cells of the normal form carry the tags and stack slots of the objects
      that `ids` names. */
  ghost predicate Linked(h: seq<Cell>, ids: map<Ref, Ref>, nh: seq<Cell>) {
    forall r {:trigger ids[r]} :: r in ids ==>
      && 0 < r < |h| && 0 < ids[r] < |nh| <= MAX_ENTRIES
      && TagOf(nh[ids[r]].obj) == TagOf(h[r].obj)
      && (h[r].obj.UpOpen? ==> nh[ids[r]].obj.UpOpen? && nh[ids[r]].obj.slot == h[r].obj.slot)
  }

  /** Every object that a value of `vs` refers to has an id. */
  ghost predicate Named(vs: seq<TValue>, ids: map<Ref, Ref>) {
    forall i :: 0 <= i < |vs| && vs[i].Gc? ==> vs[i].ref in ids
  }

  ghost predicate DeadKeysEmpty(nodes: seq<Node>) {
    forall i :: 0 <= i < |nodes| && nodes[i].Node? && nodes[i].key.Dead? ==> IsNil(nodes[i].val)
  }

  ghost function TableImage(nh: seq<Cell>, env: Env, ids: map<Ref, Ref>, arr: seq<TValue>, nodes: seq<Node>,
        mt: Ref): WTable {
    WTable(WireItems(nh, env, MapTvs(CanonArr(arr), ids)), WireSlots(nh, env, MapNodes(nodes, ids)),
           Cast32(Look(ids, mt)), Cast32(|arr|))
  }

  class Writer {
    const h: seq<Cell>
    const env: Env
    const ids: ObjMap
    ghost const nh: seq<Cell>
    var data: seq<byte>
    var error: bool

    ghost predicate Ready()
      reads ids, ids.ents
    {
      ids.Valid() && Linked(h, ids.View, nh)
    }

    constructor (h: seq<Cell>, env: Env, ids: ObjMap, ghost nh: seq<Cell>)
      ensures this.h == h && this.env == env && this.ids == ids && this.nh == nh
      ensures data == [] && !error
    {
      this.h, this.env, this.ids, this.nh := h, env, ids, nh;
      data, error := [], false;
    }

    lemma IsReady()
      requires ids.Valid() && Linked(h, ids.View, nh)
      ensures Ready()
    {
    }

    method U8(v: byte)
      modifies `data
      ensures data == old(data) + [v]
    {
      data := data + [v];
    }

    method U32(v: u32)
      modifies `data
      ensures data == old(data) + Le(v, 4)
    {
      data := data + Le(v, 4);
    }

    method I32(v: i32)
      modifies `data
      ensures data == old(data) + EncI32(v)
    {
      data := data + Le(FromI32(v), 4);
    }

    method U64(v: u64)
      modifies `data
      ensures data == old(data) + Le(v, 8)
    {
      data := data + Le(v, 8);
    }

    /** A name: its 16-bit length and its text. */
    method Name(name: seq<byte>)
      modifies `data
      ensures data == old(data) + (Le(|name|, 2) + name)
    {
      data := data + Le(|name|, 2) + name;
      assert data == old(data) + (Le(|name|, 2) + name);
    }

    /** Overwrite a length field written before. */
    method Patch(pos: nat, v: nat)
      requires pos + 4 <= |data|
      modifies `data
      ensures data == old(data)[..pos] + Le(v, 4) + old(data)[pos + 4..]
    {
      data := data[..pos] + Le(v, 4) + data[pos + 4..];
    }

    /** The id of an object; 0 for NULL and for an object that is not saved. */
    method GetId(r: Ref) returns (id: u32)
      requires Ready()
      ensures id == Look(ids.View, r) == Cast32(Look(ids.View, r))
    {
      NullHasNoId();
      if r == Heap.NULL {
        return 0;
      }
      var found := ids.Find(r);
      assert r in ids.View ==> ids.View[r] < MAX_ENTRIES;
      id := found;
    }

    lemma NullHasNoId()
      requires Ready()
      ensures Heap.NULL !in ids.View
    {
    }

    method WriteId(r: Ref)
      requires Ready()
      modifies `data
      ensures data == old(data) + Le(Cast32(Look(ids.View, r)), 4)
    {
      var id := GetId(r);
      U32(id);
    }

    method WriteRef(r: Ref)
      requires Ready() && r in ids.View
      modifies `data
      ensures data == old(data) + EncTv(WireTv(nh, env, Gc(Look(ids.View, r))))
    {
      assert ids.View[r] < |nh|;
      U8(TagOf(h[r].obj));
      WriteId(r);
    }

    /** A light C function is written by its registered name. */
    method WriteLightC(fn: nat)
      modifies `data, `error
      ensures error == (old(error) || fn !in env.cname)
      ensures old(data) <= data
      ensures !error ==> data == old(data) + EncTv(WireTv(nh, env, LightC(fn)))
    {
      if fn !in env.cname {
        error := true;
        U8(TV_NIL);
      } else {
        U8(CFUNC_TAG);
        Name(env.cname[fn]);
      }
    }

    method WriteTv(v: TValue)
      requires Ready() && (v.Gc? ==> v.ref in ids.View)
      modifies `data, `error
      ensures error == (old(error) || !WritableTv(env, v))
      ensures old(data) <= data
      ensures !error ==> data == old(data) + EncTv(WireTv(nh, env, MapTv(v, ids.View)))
    {
      hide Writer.Ready, Le;
      match v {
        case Int(i) =>
          U8(TV_INT);
          U64(i);
          assert data == old(data) + ([TV_INT] + Le(i, 8));
        case Flt(n) =>
          U8(TV_FLOAT);
          U64(n);
          assert data == old(data) + ([TV_FLOAT] + Le(n, 8));
        case LightC(fn) =>
          WriteLightC(fn);
        case Gc(r) =>
          WriteRef(r);
        case Nil => U8(TV_NIL);
        case Empty => U8(TV_EMPTY);
        case False => U8(TV_FALSE);
        case True => U8(TV_TRUE);
        case LightUd(_) =>
          error := true;
          U8(TV_NIL);
      }
    }

    /** Values one after the other. */
    method WriteTvs(vs: seq<TValue>)
      requires Ready() && Named(vs, ids.View)
      modifies `data, `error
      ensures error == (old(error) || !WritableTvs(env, vs))
      ensures old(data) <= data
      ensures !error ==> data == old(data) + EncAll(WireTvs(nh, env, MapTvs(vs, ids.View)), EncTv)
    {
      hide Writer.Ready, EncTv, WireTv, EncAll, WritableTv;
      ghost var ws := WireTvs(nh, env, MapTvs(vs, ids.View));
      EncNone(ws, EncTv);
      for i := 0 to |vs|
        invariant error == (old(error) || !WritableTvs(env, vs[..i]))
        invariant old(data) <= data
        invariant !error ==> data == old(data) + EncAll(ws[..i], EncTv)
      {
        EncAllSnoc(ws, i, EncTv);
        assert vs[..i + 1] == vs[..i] + [vs[i]];
        WriteTv(vs[i]);
      }
      assert vs[..|vs|] == vs && ws[..|vs|] == ws;
    }

    /** Ids one after the other. */
    method WriteIds(rs: seq<Ref>)
      requires Ready()
      modifies `data
      ensures data == old(data) + EncAll(WireIds(MapRefs(rs, ids.View)), EncU32)
    {
      hide Writer.Ready, EncAll;
      ghost var ws := WireIds(MapRefs(rs, ids.View));
      EncNone(ws, EncU32);
      for i := 0 to |rs|
        invariant data == old(data) + EncAll(ws[..i], EncU32)
      {
        EncAllSnoc(ws, i, EncU32);
        WriteId(rs[i]);
      }
      assert ws[..|rs|] == ws;
    }

    // ------------------------------------------------------------------ tables

    method CountItems(arr: seq<TValue>) returns (n: nat)
      ensures n == |WireItems(nh, env, MapTvs(CanonArr(arr), ids.View))| <= |arr|
    {
      ghost var ns := MapTvs(CanonArr(arr), ids.View);
      n := 0;
      for i := 0 to |arr|
        invariant n == |WireItems(nh, env, ns[..i])| <= i
      {
        assert ns[..i + 1][..i] == ns[..i];
        if !IsNil(arr[i]) {
          n := n + 1;
        }
      }
      assert ns[..|arr|] == ns;
    }

    method WriteItems(arr: seq<TValue>)
      requires Ready() && Named(arr, ids.View)
      modifies `data, `error
      ensures error == (old(error) || !WritableTvs(env, arr))
      ensures old(data) <= data
      ensures !error ==> data == old(data) + EncAll(WireItems(nh, env, MapTvs(CanonArr(arr), ids.View)), EncItem)
    {
      hide Writer.Ready, EncTv, WireTv, WritableTv, WireItems, EncItem, EncAll;
      ghost var ns := MapTvs(CanonArr(arr), ids.View);
      NoItems(nh, env, ns);
      for i := 0 to |arr|
        invariant error == (old(error) || !WritableTvs(env, arr[..i]))
        invariant old(data) <= data
        invariant !error ==> data == old(data) + EncAll(WireItems(nh, env, ns[..i]), EncItem)
      {
        assert arr[..i + 1] == arr[..i] + [arr[i]];
        ItemsGrow(nh, env, ns, i);
        if IsNil(arr[i]) {
          NilIsWritable(env, arr[i]);
        } else {
          assert ns[i] == MapTv(arr[i], ids.View);
          WriteItem(Cast32(i), arr[i]);
        }
      }
      assert arr[..|arr|] == arr && ns[..|arr|] == ns;
    }

    method WriteItem(i: u32, v: TValue)
      requires Ready() && (v.Gc? ==> v.ref in ids.View)
      modifies `data, `error
      ensures error == (old(error) || !WritableTv(env, v))
      ensures old(data) <= data
      ensures !error ==> data == old(data) + EncItem(WItem(i, WireTv(nh, env, MapTv(v, ids.View))))
    {
      hide EncTv, WireTv, Writer.Ready, WritableTv, Le;
      U32(i);
      WriteTv(v);
    }

    method WriteLiveSlot(k: TValue, v: TValue, x: i32)
      requires Ready() && (k.Gc? ==> k.ref in ids.View) && (v.Gc? ==> v.ref in ids.View)
      modifies `data, `error
      ensures error == (old(error) || !WritableTv(env, k) || !WritableTv(env, v))
      ensures old(data) <= data
      ensures !error ==>
                data == old(data) + EncSlot(WSlot(WLive(WireTv(nh, env, MapTv(k, ids.View))), WireTv(nh, env, MapTv(v, ids.View)), x))
    {
      hide *;
      WriteTv(k);
      WriteTv(v);
      I32(x);
      LiveFlat(old(data), WireTv(nh, env, MapTv(k, ids.View)), WireTv(nh, env, MapTv(v, ids.View)), x);
    }

    /** A removed key is written by the id of its object, or 0. */
    method WriteDeadSlot(r: Ref, v: TValue, x: i32)
      requires Ready() && IsNil(v)
      modifies `data, `error
      ensures error == old(error)
      ensures old(data) <= data
      ensures !error ==>
                data == old(data) + EncSlot(WSlot(WDead(Cast32(Look(ids.View, r))), WireTv(nh, env, MapTv(v, ids.View)), x))
    {
      NilIsWritable(env, v);
      hide *;
      U8(TV_DEADKEY);
      WriteId(r);
      WriteTv(v);
      I32(x);
      DeadFlat(old(data), Cast32(Look(ids.View, r)), WireTv(nh, env, MapTv(v, ids.View)), x);
    }

    method WriteSlot(n: Node)
      requires Ready() && Named(LiveEdges(n), ids.View)
      requires n.Node? && n.key.Dead? ==> IsNil(n.val)
      modifies `data, `error
      ensures error == (old(error) || !WritableTvs(env, LiveEdges(n)))
      ensures old(data) <= data
      ensures !error ==> data == old(data) + EncSlot(WireSlot(nh, env, MapNode(n, ids.View)))
    {
      hide Writer.Ready, EncSlot, WireTv, WritableTv, IsNil, MapTv;
      match n {
        case Free =>
          U8(TV_NIL);
          FreeFlat();
        case Node(Dead(r), v, x) =>
          WriteDeadSlot(r, v, x);
        case Node(Live(k), v, x) =>
          assert LiveEdges(n)[0] == k && LiveEdges(n)[1] == v;
          WriteLiveSlot(k, v, x);
      }
    }

    method WriteSlots(nodes: seq<Node>)
      requires Ready() && Named(NodeEdges(nodes), ids.View)
      requires DeadKeysEmpty(nodes)
      modifies `data, `error
      ensures error == (old(error) || !WritableTvs(env, NodeEdges(nodes)))
      ensures old(data) <= data
      ensures !error ==> data == old(data) + EncAll(WireSlots(nh, env, MapNodes(nodes, ids.View)), EncSlot)
    {
      hide Writer.Ready, EncSlot, WireSlot, EncAll, WritableTv, NodeEdges, LiveEdges;
      ghost var ws := WireSlots(nh, env, MapNodes(nodes, ids.View));
      EncNone(ws, EncSlot);
      NoNodeEdges(nodes);
      for i := 0 to |nodes|
        invariant error == (old(error) || !WritableTvs(env, NodeEdges(nodes[..i])))
        invariant old(data) <= data
        invariant !error ==> data == old(data) + EncAll(ws[..i], EncSlot)
      {
        EncAllSnoc(ws, i, EncSlot);
        EdgesGrow(nodes, i, ids.View);
        WriteSlot(nodes[i]);
      }
      assert nodes[..|nodes|] == nodes && ws[..|nodes|] == ws;
    }

    method WriteArrayPart(arr: seq<TValue>)
      requires Ready() && Named(arr, ids.View) && |arr| < 0x8000_0000
      modifies `data, `error
      ensures error == (old(error) || !WritableTvs(env, arr))
      ensures old(data) <= data
      ensures !error ==> data == old(data) + EncCounted(WireItems(nh, env, MapTvs(CanonArr(arr), ids.View)), EncItem)
    {
      hide *;
      var acount := CountItems(arr);
      U32(acount);
      WriteItems(arr);
      CountedBytes(old(data), WireItems(nh, env, MapTvs(CanonArr(arr), ids.View)), EncItem);
    }

    method WriteHashPart(nodes: seq<Node>)
      requires Ready() && Named(NodeEdges(nodes), ids.View) && DeadKeysEmpty(nodes) && |nodes| < 0x8000_0000
      modifies `data, `error
      ensures error == (old(error) || !WritableTvs(env, NodeEdges(nodes)))
      ensures old(data) <= data
      ensures !error ==> data == old(data) + EncCounted(WireSlots(nh, env, MapNodes(nodes, ids.View)), EncSlot)
    {
      hide *;
      U32(|nodes|);
      WriteSlots(nodes);
      CountedBytes(old(data), WireSlots(nh, env, MapNodes(nodes, ids.View)), EncSlot);
    }

    method WriteTable(arr: seq<TValue>, nodes: seq<Node>, mt: Ref)
      requires Ready() && Named(arr, ids.View) && Named(NodeEdges(nodes), ids.View)
      requires GoodTable(h, arr, nodes, mt)
      modifies `data, `error
      ensures error == (old(error) || !WritableTvs(env, arr) || !WritableTvs(env, NodeEdges(nodes)))
      ensures old(data) <= data
      ensures !error ==> data == old(data) + EncTable(TableImage(nh, env, ids.View, arr, nodes, mt))
    {
      GoodTableDeads(h, arr, nodes, mt);
      hide *;
      WriteArrayPart(arr);
      WriteHashPart(nodes);
      WriteId(mt);
      U32(|arr|);
      TableImageParts(nh, env, ids.View, arr, nodes, mt);
      TableFlat(old(data), TableImage(nh, env, ids.View, arr, nodes, mt));
    }

    // -------------------------------------------------------------- prototypes

    /** The instructions, word by word. */
    method WriteWords(code: seq<u32>)
      modifies `data
      ensures data == old(data) + EncAll(code, EncU32)
    {
      hide EncAll, Le;
      EncNone(code, EncU32);
      for i := 0 to |code|
        invariant data == old(data) + EncAll(code[..i], EncU32)
      {
        EncAllSnoc(code, i, EncU32);
        U32(code[i]);
      }
      assert code[..|code|] == code;
    }

    method WriteUps(us: seq<UpvalDesc>)
      requires Ready()
      modifies `data
      ensures data == old(data) + EncAll(WireUps(MapUps(us, ids.View)), EncUp)
    {
      hide Writer.Ready, EncAll, Le;
      ghost var ws := WireUps(MapUps(us, ids.View));
      EncNone(ws, EncUp);
      for i := 0 to |us|
        invariant data == old(data) + EncAll(ws[..i], EncUp)
      {
        EncAllSnoc(ws, i, EncUp);
        ghost var d := data;
        WriteId(us[i].name);
        U8(us[i].instack);
        U8(us[i].idx);
        U8(us[i].kind);
        assert data == d + EncUp(ws[i]);
      }
      assert ws[..|us|] == ws;
    }

    method WriteAbsLines(ls: seq<AbsLine>)
      modifies `data
      ensures data == old(data) + EncAll(ls, EncAbs)
    {
      hide EncAll, Le;
      EncNone(ls, EncAbs);
      for i := 0 to |ls|
        invariant data == old(data) + EncAll(ls[..i], EncAbs)
      {
        EncAllSnoc(ls, i, EncAbs);
        ghost var d := data;
        I32(ls[i].pc);
        I32(ls[i].line);
        assert data == d + EncAbs(ls[i]);
      }
      assert ls[..|ls|] == ls;
    }

    method WriteVars(ls: seq<LocVar>)
      requires Ready()
      modifies `data
      ensures data == old(data) + EncAll(WireVars(MapVars(ls, ids.View)), EncVar)
    {
      hide Writer.Ready, EncAll, Le;
      ghost var ws := WireVars(MapVars(ls, ids.View));
      EncNone(ws, EncVar);
      for i := 0 to |ls|
        invariant data == old(data) + EncAll(ws[..i], EncVar)
      {
        EncAllSnoc(ws, i, EncVar);
        ghost var d := data;
        WriteId(ls[i].name);
        I32(ls[i].startpc);
        I32(ls[i].endpc);
        assert data == d + EncVar(ws[i]);
      }
      assert ws[..|ls|] == ws;
    }

    method WriteFront(p: ProtoData)
      requires Ready() && Named(p.k, ids.View) && GoodProto(h, p)
      modifies `data, `error
      ensures error == (old(error) || !WritableTvs(env, p.k))
      ensures old(data) <= data
      ensures !error ==> data == old(data) + EncFront(WireProto(nh, env, MapProto(p.(flag := StripFixed(p.flag)), ids.View)))
    {
      hide Writer.Ready, EncAll, Le, Named, WritableTvs;
      ghost var w := WireProto(nh, env, MapProto(p.(flag := StripFixed(p.flag)), ids.View));
      U8(p.numparams);
      U8(StripFixed(p.flag));
      U8(p.maxstack);
      U32(|p.code|);
      WriteWords(p.code);
      U32(|p.k|);
      WriteTvs(p.k);
      U32(|p.p|);
      WriteIds(p.p);
      FrontBytes(old(data), w);
    }

    method WriteBack(p: ProtoData)
      requires Ready() && GoodProto(h, p)
      modifies `data
      ensures data == old(data) + EncBack(WireProto(nh, env, MapProto(p.(flag := StripFixed(p.flag)), ids.View)))
    {
      hide Writer.Ready, EncAll, Le;
      ghost var w := WireProto(nh, env, MapProto(p.(flag := StripFixed(p.flag)), ids.View));
      U32(|p.upvalues|);
      WriteUps(p.upvalues);
      U32(|p.lineinfo|);
      data := data + p.lineinfo;
      BytesAsList(p.lineinfo);
      U32(|p.abslineinfo|);
      WriteAbsLines(p.abslineinfo);
      U32(|p.locvars|);
      WriteVars(p.locvars);
      BackBytes(old(data), w);
    }

    method WriteProto(p: ProtoData)
      requires Ready() && Named(p.k, ids.View) && GoodProto(h, p)
      modifies `data, `error
      ensures error == (old(error) || !WritableTvs(env, p.k))
      ensures old(data) <= data
      ensures !error ==> data == old(data) + EncObj(WireObj(nh, env, MapObj(Canon(h, Proto(p)), ids.View)))
    {
      hide Writer.Ready, EncFront, EncBack, Le, Named, WritableTvs, GoodProto;
      ghost var w := WireProto(nh, env, MapProto(p.(flag := StripFixed(p.flag)), ids.View));
      WriteFront(p);
      WriteBack(p);
      WriteId(p.source);
      I32(p.linedefined);
      I32(p.lastlinedefined);
      ProtoBytes(old(data), w);
    }

    // ---------------------------------------------------------------- closures

    method WriteLClosure(p: Ref, us: seq<Ref>)
      requires Ready() && |us| < 0x100
      modifies `data
      ensures data == old(data) + EncLClosure(Cast32(Look(ids.View, p)), WireIds(MapRefs(us, ids.View)))
    {
      hide Writer.Ready, Le, EncAll, EncU32;
      WriteId(p);
      U8(|us|);
      WriteIds(us);
      LClosureFlat(old(data), Cast32(Look(ids.View, p)), WireIds(MapRefs(us, ids.View)));
    }

    method WriteCClosure(fn: nat, us: seq<TValue>)
      requires Ready() && |us| < 0x100 && Named(us, ids.View)
      modifies `data, `error
      ensures error == (old(error) || fn !in env.cname || !WritableTvs(env, us))
      ensures old(data) <= data
      ensures !error ==> data == old(data) + EncCClosure(Lookup(env.cname, fn, []), WireTvs(nh, env, MapTvs(us, ids.View)))
    {
      hide Writer.Ready, Le, EncAll, EncTv, WritableTvs, Named;
      if fn !in env.cname {
        error := true;
        U8(CFUNC_TAG);
        Name([]);
        U8(0);
        return;
      }
      U8(CFUNC_TAG);
      Name(env.cname[fn]);
      U8(|us|);
      WriteTvs(us);
      CClosureFlat(old(data), env.cname[fn], WireTvs(nh, env, MapTvs(us, ids.View)));
    }

    // ----------------------------------------------------------------- threads

    /** The arm of a Lua frame: the prototype of the running closure, the saved pc
        as an offset into its code, and the hidden arguments if it has any. */
    method WriteLuaArm(stack: seq<TValue>, f: Frame)
      requires Ready() && GoodFrame(h, stack, f) && f.arm.LuaArm?
      modifies `data
      ensures data == old(data) + EncArm(WireFrame(env, MapFrame(CanonFrame(h, f), ids.View)).arm)
    {
      hide Writer.Ready, Le, Look;
      var proto := h[stack[f.func].ref].obj.proto;
      var nextra := 0;
      if Bit(h[proto].obj.p.flag, PF_VAHID) {
        nextra := f.arm.nextra;
      }
      WriteId(proto);
      I32(f.arm.pc);
      I32(nextra);
      LuaArmFlat(old(data), Cast32(Look(ids.View, proto)), f.arm.pc, nextra);
    }

    /** The arm of a C frame: its continuation, by name, if it has one. */
    method WriteCArm(kont: nat, ctx: u64, oldErr: u64)
      modifies `data, `error
      ensures error == (old(error) || (kont != 0 && kont !in env.kname))
      ensures old(data) <= data
      ensures !error ==>
                data == old(data) + EncKont(if kont == 0 then WNoKont else WKont(Lookup(env.kname, kont, []), ctx, oldErr))
    {
      hide Le;
      if kont == 0 {
        U8(0);
        NoKontFlat();
      } else if kont in env.kname {
        U8(1);
        Name(env.kname[kont]);
        U64(ctx);
        U64(oldErr);
        KontFlat(old(data), env.kname[kont], ctx, oldErr);
      } else {
        error := true;
        U8(0);
      }
    }

    method WriteFrameHead(lua: bool, func: i32, top: i32, status: u32, u2: i32)
      modifies `data
      ensures data == old(data) + [if lua then 1 else 0] + EncI32(func) + EncI32(top) + Le(status, 4) + EncI32(u2)
    {
      hide *;
      U8(if lua then 1 else 0);
      I32(func);
      I32(top);
      U32(status);
      I32(u2);
    }

    method WriteFrame(stack: seq<TValue>, f: Frame)
      requires Ready() && GoodFrame(h, stack, f)
      modifies `data, `error
      ensures error == (old(error) || !WritableFrame(env, f))
      ensures old(data) <= data
      ensures !error ==> data == old(data) + EncFrame(WireFrame(env, MapFrame(CanonFrame(h, f), ids.View)))
    {
      hide Writer.Ready, Le, WireFrame, CanonFrame, MapFrame, EncArm, EncKont, EncFrame;
      ghost var w := WireFrame(env, MapFrame(CanonFrame(h, f), ids.View));
      FrameImage(h, env, ids.View, f);
      var live := Bit(f.status, CIST_YPCALL) || Bit(f.status, CIST_CLSRET);
      WriteFrameHead(!Bit(f.status, CIST_C), f.func, f.top, f.status, if live then f.u2 else 0);
      if !Bit(f.status, CIST_C) {
        WriteLuaArm(stack, f);
      } else {
        WriteCArm(f.arm.kont, f.arm.ctx, f.arm.oldErr);
        CArmFlat(w.arm);
      }
      FrameFlat(old(data), w);
    }

    method WriteFrames(stack: seq<TValue>, fs: seq<Frame>)
      requires Ready() && forall i :: 0 <= i < |fs| ==> GoodFrame(h, stack, fs[i])
      modifies `data, `error
      ensures error == (old(error) || !forall f :: f in fs ==> WritableFrame(env, f))
      ensures old(data) <= data
      ensures !error ==> data == old(data) + EncAll(WireFrames(env, MapFrames(CanonFrames(h, fs), ids.View)), EncFrame)
    {
      hide Writer.Ready, EncAll, EncFrame, WireFrame, MapFrame, CanonFrame, WritableFrame;
      ghost var ws := WireFrames(env, MapFrames(CanonFrames(h, fs), ids.View));
      EncNone(ws, EncFrame);
      for i := 0 to |fs|
        invariant error == (old(error) || !forall f :: f in fs[..i] ==> WritableFrame(env, f))
        invariant old(data) <= data
        invariant !error ==> data == old(data) + EncAll(ws[..i], EncFrame)
      {
        EncAllSnoc(ws, i, EncFrame);
        assert fs[..i + 1] == fs[..i] + [fs[i]];
        WriteFrame(stack, fs[i]);
      }
      assert fs[..|fs|] == fs && ws[..|fs|] == ws;
    }

    method WriteOpens(open: seq<Ref>)
      requires Ready() && forall i :: 0 <= i < |open| ==> open[i] in ids.View && 0 < open[i] < |h| && h[open[i]].obj.UpOpen?
      modifies `data
      ensures data == old(data) + EncAll(WireOpens(nh, MapRefs(open, ids.View)), EncOpen)
    {
      hide EncAll, Le;
      ghost var ws := WireOpens(nh, MapRefs(open, ids.View));
      EncNone(ws, EncOpen);
      for i := 0 to |open|
        invariant data == old(data) + EncAll(ws[..i], EncOpen)
      {
        EncAllSnoc(ws, i, EncOpen);
        assert ids.View[open[i]] < |nh|;
        ghost var d := data;
        WriteId(open[i]);
        I32(h[open[i]].obj.slot);
        assert data == d + EncOpen(ws[i]);
      }
      assert ws[..|open|] == ws;
    }

    method WriteThread(status: byte, stack: seq<TValue>, frames: seq<Frame>, open: seq<Ref>)
      requires Ready() && Named(stack, ids.View) && |stack| < 0x8000_0000 && |frames| < 0x8000_0000
      requires |open| < 0x8000_0000
      requires forall i :: 0 <= i < |frames| ==> GoodFrame(h, stack, frames[i])
      requires forall i :: 0 <= i < |open| ==> open[i] in ids.View && 0 < open[i] < |h| && h[open[i]].obj.UpOpen?
      modifies `data, `error
      ensures error == (old(error) || !WritableTvs(env, stack) || !forall f :: f in frames ==> WritableFrame(env, f))
      ensures old(data) <= data
      ensures !error ==> data == old(data) + EncThread(ThreadImage(h, nh, env, ids.View, status, stack, frames, open))
    {
      hide *;
      U8(status);
      U32(|stack|);
      WriteTvs(stack);
      U32(|frames|);
      WriteFrames(stack, frames);
      U32(|open|);
      WriteOpens(open);
      ThreadImageParts(h, nh, env, ids.View, status, stack, frames, open);
      ThreadFlat(old(data), ThreadImage(h, nh, env, ids.View, status, stack, frames, open));
    }

    method WriteString(s: seq<byte>)
      modifies `data
      ensures data == old(data) + EncBlob(s)
    {
      Truncated(|s|);
      U32(Cast32(|s|));
      data := data + s;
    }

    /** Only userdata without user values, and short enough for its length field. */
    method WriteUserdata(uvs: seq<TValue>, payload: seq<byte>, mt: Ref)
      requires Ready()
      modifies `data, `error
      ensures error == (old(error) || uvs != [] || |payload| >= 0x1_0000_0000)
      ensures old(data) <= data
      ensures !error ==> data == old(data) + EncUd(payload, Cast32(Look(ids.View, mt)))
    {
      hide Writer.Ready, Le;
      if uvs != [] || |payload| > 0xFFFF_FFFF {
        error := true;
        U32(0);
        U32(0);
        return;
      }
      U32(|payload|);
      data := data + payload;
      WriteId(mt);
    }

    /** The contents of an object's record. */
    method WritePayload(r: Ref)
      requires Ready() && 0 < r < |h| && GoodAt(h, r) && EdgesNamed(h[r].obj, ids.View)
      modifies `data, `error
      ensures error == (old(error) || !Writable(env, h[r].obj))
      ensures old(data) <= data
      ensures !error ==> data == old(data) + EncObj(WireObj(nh, env, MapObj(Canon(h, h[r].obj), ids.View)))
    {
      hide Writer.Ready, EdgesNamed, GoodTable, GoodProto, GoodFrame, GoodOpens, EncObj, WireObj, MapObj, Canon,
           Named, WritableTvs,
           WritableFrame, WritableTv, TableImage, ThreadImage, EncTable, EncThread, EncBlob, EncUd, EncTv, EncCClosure, EncLClosure,
           NoNulls, Look, WireTv, MapTv;
      PartsNamed(h, r, ids.View);
      PayloadImage(h, nh, env, ids.View, h[r].obj);
      match h[r].obj {
        case Str(_, s) => WriteString(s);
        case Table(arr, nodes, mt) => WriteTable(arr, nodes, mt);
        case Proto(p) => WriteProto(p);
        case LClosure(p, us) => WriteLClosure(p, us);
        case CClosure(fn, us) => WriteCClosure(fn, us);
        case UpClosed(v) => WriteTv(v);
        case UpOpen(_, _) => assert data == data + [];
        case Thread(st, stack, frames, open) => WriteThread(st, stack, frames, open);
        case Udata(uvs, b, mt) => WriteUserdata(uvs, b, mt);
      }
    }

    /** One record: kind, object id, size and contents; the size is patched in when
        the contents have been written. */
    method WriteObj(r: Ref)
      requires Ready() && 0 < r < |h| && GoodAt(h, r) && EdgesNamed(h[r].obj, ids.View)
      modifies `data, `error
      ensures error == (old(error) || !Writable(env, h[r].obj))
      ensures old(data) <= data
      ensures !error ==>
                data == old(data) + EncRec(Rec(h[r].objid, WireObj(nh, env, MapObj(Canon(h, h[r].obj), ids.View))))
    {
      SameCode(h, nh, env, ids.View, h[r].obj);
      hide *;
      U8(TypeCode(h[r].obj));
      U64(h[r].objid);
      var sizePos := |data|;
      U32(0);
      var dataStart := |data|;
      WritePayload(r);
      var size := |data| - dataStart;
      Patched(old(data), h[r].objid, WireObj(nh, env, MapObj(Canon(h, h[r].obj), ids.View)), data, sizePos);
      Patch(sizePos, Cast32(size));
    }
  }

  lemma SameCode(h: seq<Cell>, nh: seq<Cell>, env: Env, ids: map<Ref, Ref>, o: Obj)
    ensures TypeCode(o) == Code(WireObj(nh, env, MapObj(Canon(h, o), ids)))
  {
  }

  /** Patching the size field into a record that starts after `d`. */
  lemma Patched(d: seq<byte>, objid: u64, w: WObj, now: seq<byte>, pos: nat)
    requires pos == |d| + 9 && d + [Code(w)] + Le(objid, 8) + Le(0, 4) <= now
    ensures pos + 4 <= |now|
    ensures var size := |now| - pos - 4;
            var done := now[..pos] + Le(Cast32(size), 4) + now[pos + 4..];
            && d <= done
            && (now == d + [Code(w)] + Le(objid, 8) + Le(0, 4) + EncObj(w) ==> done == d + EncRec(Rec(objid, w)))
  {
    hide Code, Le, EncObj;
    var head := d + [Code(w)] + Le(objid, 8);
    assert |head| == pos;
    assert now[..pos] == head by {
      assert now[..pos] == now[..pos + 4][..pos] == (head + Le(0, 4))[..pos];
    }
    if now == head + Le(0, 4) + EncObj(w) {
      Truncated(|EncObj(w)|);
      assert now[pos + 4..] == EncObj(w);
      Reassociate(d, [Code(w)], Le(objid, 8), Le(|EncObj(w)|, 4), EncObj(w));
    }
  }

  lemma Truncated(n: nat)
    ensures Le(Cast32(n), 4) == Le(n, 4)
  {
    Pow256Values();
    LeOfRemainder(n, 4);
  }

  ghost function ThreadImage(h: seq<Cell>, nh: seq<Cell>, env: Env, ids: map<Ref, Ref>,
                             status: byte, stack: seq<TValue>, frames: seq<Frame>, open: seq<Ref>): WThread {
    WThread(status, WireTvs(nh, env, MapTvs(stack, ids)), WireFrames(env, MapFrames(CanonFrames(h, frames), ids)),
            WireOpens(nh, MapRefs(open, ids)))
  }

  lemma ThreadFlat(d: seq<byte>, t: WThread)
    ensures d + [t.status] + Le(|t.stack|, 4) + EncAll(t.stack, EncTv) + Le(|t.frames|, 4) + EncAll(t.frames, EncFrame)
              + Le(|t.open|, 4) + EncAll(t.open, EncOpen)
         == d + EncThread(t)
  {
    hide Le, EncAll, EncTv, EncFrame, EncOpen;
    var a, b, c := EncAll(t.stack, EncTv), EncAll(t.frames, EncFrame), EncAll(t.open, EncOpen);
    assert EncThread(t) == [t.status] + ((Le(|t.stack|, 4) + a) + ((Le(|t.frames|, 4) + b) + (Le(|t.open|, 4) + c)));
  }

  lemma ThreadImageParts(h: seq<Cell>, nh: seq<Cell>, env: Env, ids: map<Ref, Ref>,
                         status: byte, stack: seq<TValue>, frames: seq<Frame>, open: seq<Ref>)
    ensures var t := ThreadImage(h, nh, env, ids, status, stack, frames, open);
            && t.status == status
            && t.stack == WireTvs(nh, env, MapTvs(stack, ids)) && |t.stack| == |stack|
            && t.frames == WireFrames(env, MapFrames(CanonFrames(h, frames), ids)) && |t.frames| == |frames|
            && t.open == WireOpens(nh, MapRefs(open, ids)) && |t.open| == |open|
  {
  }

  /** The record of an object is the record of its kind, and it can be written if
      its parts can. */
  lemma PayloadImage(h: seq<Cell>, nh: seq<Cell>, env: Env, ids: map<Ref, Ref>, o: Obj)
    ensures var e := EncObj(WireObj(nh, env, MapObj(Canon(h, o), ids)));
            match o
            case Str(_, s) => e == EncBlob(s)
            case Table(arr, nodes, mt) => e == EncTable(TableImage(nh, env, ids, arr, nodes, mt))
            case Proto(p) => true
            case LClosure(p, us) => e == EncLClosure(Cast32(Look(ids, p)), WireIds(MapRefs(us, ids)))
            case CClosure(fn, us) => e == EncCClosure(Lookup(env.cname, fn, []), WireTvs(nh, env, MapTvs(us, ids)))
            case UpClosed(v) => e == EncTv(WireTv(nh, env, MapTv(v, ids)))
            case UpOpen(_, _) => e == []
            case Thread(st, stack, frames, open) => e == EncThread(ThreadImage(h, nh, env, ids, st, stack, frames, open))
            case Udata(uvs, b, mt) => e == EncUd(b, Cast32(Look(ids, mt)))
  {
    hide EncTable, EncProto, EncThread, EncBlob, EncUd, EncTv, EncCClosure, EncLClosure, CanonArr, CanonFrames,
         MapTvs, MapNodes,
         WireItems, WireSlots, WireTvs, WireFrames, WireOpens, WireIds, MapRefs, MapFrames, Look, WireTv, MapTv;
    match o
    case Table(arr, nodes, mt) =>
      assert |MapTvs(CanonArr(arr), ids)| == |arr|;
    case _ =>
  }

  /** Every object that `o` refers to has an id. */
  ghost predicate EdgesNamed(o: Obj, ids: map<Ref, Ref>) {
    forall v :: v in Edges(o) && v.Gc? && v.ref != Heap.NULL ==> v.ref in ids
  }

  lemma PartNamed(o: Obj, ids: map<Ref, Ref>, vs: seq<TValue>, from: nat)
    requires EdgesNamed(o, ids) && NoNulls(vs)
    requires from + |vs| <= |Edges(o)| && Edges(o)[from..from + |vs|] == vs
    ensures Named(vs, ids)
  {
    forall i | 0 <= i < |vs| && vs[i].Gc?
      ensures vs[i].ref in ids
    {
      assert Edges(o)[from..from + |vs|][i] == Edges(o)[from + i];
    }
  }

  lemma PartsNamed(h: seq<Cell>, r: Ref, ids: map<Ref, Ref>)
    requires 0 < r < |h| && GoodAt(h, r) && EdgesNamed(h[r].obj, ids)
    ensures match h[r].obj
            case Table(arr, nodes, _) => Named(arr, ids) && Named(NodeEdges(nodes), ids)
            case Proto(p) => Named(p.k, ids)
            case CClosure(_, us) => Named(us, ids)
            case UpClosed(v) => v.Gc? ==> v.ref in ids
            case Thread(_, stack, _, open) =>
              Named(stack, ids) && forall i :: 0 <= i < |open| ==> open[i] in ids && 0 < open[i] < |h| && h[open[i]].obj.UpOpen?
            case _ => true
  {
    var o := h[r].obj;
    hide EdgesNamed, Named, GoodNode, NodeEdges, GoodFrame;
    match o
    case Table(arr, nodes, mt) =>
      PartNamed(o, ids, arr, 0);
      PartNamed(o, ids, NodeEdges(nodes), |arr|);
    case Proto(p) => PartNamed(o, ids, p.k, 0);
    case CClosure(_, us) => PartNamed(o, ids, us, 0);
    case UpClosed(v) => PartNamed(o, ids, [v], 0); assert [v][0] == v;
    case Thread(_, stack, _, open) =>
      PartNamed(o, ids, stack, 0);
      forall i | 0 <= i < |open|
        ensures open[i] in ids
      {
        assert Edges(o)[|stack| + i] == Gc(open[i]);
      }
    case _ =>
  }

  lemma LClosureFlat(d: seq<byte>, p: u32, us: seq<u32>)
    requires |us| < 0x100
    ensures d + Le(p, 4) + [|us|] + EncAll(us, EncU32) == d + EncLClosure(p, us)
  {
    hide Le, EncAll;
  }

  lemma CClosureFlat(d: seq<byte>, name: seq<byte>, us: seq<WTv>)
    requires |us| < 0x100
    ensures d + [CFUNC_TAG] + (Le(|name|, 2) + name) + [|us|] + EncAll(us, EncTv) == d + EncCClosure(name, us)
  {
    CClosureIs(name, us);
    hide *;
    Grouped(d, [CFUNC_TAG], Le(|name|, 2) + name, [|us|], EncAll(us, EncTv));
  }

  lemma CClosureIs(name: seq<byte>, us: seq<WTv>)
    requires |us| < 0x100
    ensures EncCClosure(name, us) == ([CFUNC_TAG] + (Le(|name|, 2) + name)) + ([|us|] + EncAll(us, EncTv))
  {
    hide Le, EncAll, EncTv;
  }

  lemma Grouped(d: seq<byte>, a: seq<byte>, b: seq<byte>, n: seq<byte>, c: seq<byte>)
    ensures d + a + b + n + c == d + ((a + b) + (n + c))
  {
  }

  lemma LuaArmFlat(d: seq<byte>, p: u32, pc: i32, nextra: i32)
    ensures d + Le(p, 4) + EncI32(pc) + EncI32(nextra) == d + EncArm(WLua(p, pc, nextra))
  {
    hide Le;
  }

  lemma NoKontFlat()
    ensures EncKont(WNoKont) == [0]
  {
  }

  lemma KontFlat(d: seq<byte>, name: seq<byte>, ctx: u64, oldErr: u64)
    ensures d + [1] + (Le(|name|, 2) + name) + Le(ctx, 8) + Le(oldErr, 8) == d + EncKont(WKont(name, ctx, oldErr))
  {
    hide Le;
  }

  lemma CArmFlat(a: WArm)
    requires a.WC?
    ensures EncArm(a) == EncKont(a.kont)
  {
  }

  lemma FrameImage(h: seq<Cell>, env: Env, ids: map<Ref, Ref>, f: Frame)
    ensures var w := WireFrame(env, MapFrame(CanonFrame(h, f), ids));
            && w.func == f.func && w.top == f.top && w.status == f.status
            && w.u2 == (if Bit(f.status, CIST_YPCALL) || Bit(f.status, CIST_CLSRET) then f.u2 else 0)
            && (w.arm.WLua? <==> f.arm.LuaArm?)
            && (f.arm.CArm? ==>
                  w.arm.kont == if f.arm.kont == 0 then WNoKont
                                else WKont(Lookup(env.kname, f.arm.kont, []), f.arm.ctx, f.arm.oldErr))
  {
  }

  lemma FrameFlat(d: seq<byte>, w: WFrame)
    ensures d + [if w.arm.WLua? then 1 else 0] + EncI32(w.func) + EncI32(w.top) + Le(w.status, 4) + EncI32(w.u2) + EncArm(w.arm)
         == d + EncFrame(w)
  {
    hide Le, EncArm;
    var a, b, c := EncI32(w.func), EncI32(w.top), Le(w.status, 4);
    var rest := EncI32(w.u2) + EncArm(w.arm);
    Reassociate(d + [if w.arm.WLua? then 1 else 0], a, b, c, rest);
  }

  lemma {:induction false} BytesAsList(b: seq<byte>)
    ensures EncAll(b, EncByte) == b
  {
    if b != [] {
      hide EncAll;
      var k := |b| - 1;
      BytesAsList(b[..k]);
      LastByte(b);
      assert b[..k] + [b[k]] == b;
    }
  }

  lemma LastByte(b: seq<byte>)
    requires b != []
    ensures EncAll(b, EncByte) == EncAll(b[..|b| - 1], EncByte) + [b[|b| - 1]]
  {
  }

  lemma FrontBytes(d: seq<byte>, w: WProto)
    ensures d + [w.numparams] + [w.flag] + [w.maxstack]
            + Le(|w.code|, 4) + EncAll(w.code, EncU32) + Le(|w.k|, 4) + EncAll(w.k, EncTv) + Le(|w.p|, 4) + EncAll(w.p, EncU32)
         == d + EncFront(w)
  {
    hide Le, EncAll, EncTv, EncU32;
    var a, b, c := Le(|w.code|, 4) + EncAll(w.code, EncU32), Le(|w.k|, 4) + EncAll(w.k, EncTv), Le(|w.p|, 4) + EncAll(w.p, EncU32);
    assert EncFront(w) == [w.numparams, w.flag, w.maxstack] + (a + (b + c));
  }

  lemma BackBytes(d: seq<byte>, w: WProto)
    ensures d + Le(|w.upvalues|, 4) + EncAll(w.upvalues, EncUp) + Le(|w.lineinfo|, 4) + EncAll(w.lineinfo, EncByte)
            + Le(|w.abslineinfo|, 4) + EncAll(w.abslineinfo, EncAbs) + Le(|w.locvars|, 4) + EncAll(w.locvars, EncVar)
         == d + EncBack(w)
  {
    hide Le, EncAll, EncUp, EncByte, EncAbs, EncVar;
    var a, b := Le(|w.upvalues|, 4) + EncAll(w.upvalues, EncUp), Le(|w.lineinfo|, 4) + EncAll(w.lineinfo, EncByte);
    var c, e := Le(|w.abslineinfo|, 4) + EncAll(w.abslineinfo, EncAbs), Le(|w.locvars|, 4) + EncAll(w.locvars, EncVar);
    assert EncBack(w) == a + (b + (c + e));
  }

  lemma ProtoBytes(d: seq<byte>, w: WProto)
    ensures d + EncFront(w) + EncBack(w) + Le(w.source, 4) + EncI32(w.linedefined) + EncI32(w.lastlinedefined)
         == d + EncProto(w)
  {
    hide EncFront, EncBack, Le;
    var a, b := Le(w.source, 4), EncI32(w.linedefined) + EncI32(w.lastlinedefined);
    assert EncProto(w) == EncFront(w) + (EncBack(w) + (a + b));
  }

  lemma NilIsWritable(env: Env, v: TValue)
    requires IsNil(v)
    ensures WritableTv(env, v)
  {
  }

  lemma NoItems(nh: seq<Cell>, env: Env, ns: seq<TValue>)
    ensures EncAll(WireItems(nh, env, ns[..0]), EncItem) == []
  {
  }

  lemma CountedBytes<T>(d: seq<byte>, xs: seq<T>, enc: T -> seq<byte>)
    ensures d + Le(|xs|, 4) + EncAll(xs, enc) == d + EncCounted(xs, enc)
  {
  }

  lemma FreeFlat()
    ensures EncSlot(WFree) == [TV_NIL]
  {
  }

  lemma LiveFlat(d: seq<byte>, k: WTv, v: WTv, x: i32)
    ensures d + EncTv(k) + EncTv(v) + EncI32(x) == d + EncSlot(WSlot(WLive(k), v, x))
  {
  }

  lemma DeadFlat(d: seq<byte>, id: u32, v: WTv, x: i32)
    ensures d + [TV_DEADKEY] + Le(id, 4) + EncTv(v) + EncI32(x) == d + EncSlot(WSlot(WDead(id), v, x))
  {
    hide Le, EncTv;
  }

  lemma TableFlat(d: seq<byte>, w: WTable)
    ensures d + EncCounted(w.arr, EncItem) + EncCounted(w.slots, EncSlot) + Le(w.mt, 4) + Le(w.asize, 4) == d + EncTable(w)
  {
    hide EncCounted, EncItem, EncSlot, Le;
    Reassociate(d, EncCounted(w.arr, EncItem), EncCounted(w.slots, EncSlot), Le(w.mt, 4), Le(w.asize, 4));
  }

  lemma TableImageParts(nh: seq<Cell>, env: Env, ids: map<Ref, Ref>, arr: seq<TValue>, nodes: seq<Node>, mt: Ref)
    requires |arr| < 0x8000_0000
    ensures var w := TableImage(nh, env, ids, arr, nodes, mt);
            && w.arr == WireItems(nh, env, MapTvs(CanonArr(arr), ids))
            && w.slots == WireSlots(nh, env, MapNodes(nodes, ids))
            && w.mt == Cast32(Look(ids, mt)) && w.asize == |arr|
  {
  }

  lemma Reassociate(d: seq<byte>, a: seq<byte>, b: seq<byte>, c: seq<byte>, e: seq<byte>)
    ensures d + a + b + c + e == d + (a + (b + (c + e)))
  {
  }

  lemma GoodTableDeads(h: seq<Cell>, arr: seq<TValue>, nodes: seq<Node>, mt: Ref)
    requires GoodTable(h, arr, nodes, mt)
    ensures DeadKeysEmpty(nodes) && |arr| < 0x8000_0000 && |nodes| < 0x8000_0000
  {
    forall i | 0 <= i < |nodes|
      ensures nodes[i].Node? && nodes[i].key.Dead? ==> IsNil(nodes[i].val)
    {
      assert GoodNode(nodes[i], i, |nodes|);
    }
  }

  lemma ItemsGrow(nh: seq<Cell>, env: Env, ns: seq<TValue>, i: nat)
    requires i < |ns|
    ensures var item := WItem(Cast32(i), WireTv(nh, env, ns[i]));
            && (IsNil(ns[i]) ==> WireItems(nh, env, ns[..i + 1]) == WireItems(nh, env, ns[..i]))
            && (!IsNil(ns[i]) ==>
                  EncAll(WireItems(nh, env, ns[..i + 1]), EncItem) == EncAll(WireItems(nh, env, ns[..i]), EncItem) + EncItem(item))
  {
    assert ns[..i + 1][..i] == ns[..i];
    var init := WireItems(nh, env, ns[..i]);
    if !IsNil(ns[i]) {
      var item := WItem(Cast32(i), WireTv(nh, env, ns[i]));
      assert WireItems(nh, env, ns[..i + 1]) == init + [item];
      assert (init + [item])[..|init|] == init;
    }
  }

  lemma NoNodeEdges(nodes: seq<Node>)
    ensures NodeEdges(nodes[..0]) == []
  {
  }

  lemma EdgesGrow(nodes: seq<Node>, i: nat, ids: map<Ref, Ref>)
    requires i < |nodes| && Named(NodeEdges(nodes), ids)
    ensures NodeEdges(nodes[..i + 1]) == NodeEdges(nodes[..i]) + LiveEdges(nodes[i])
    ensures Named(LiveEdges(nodes[i]), ids)
  {
    assert nodes[..i + 1][..i] == nodes[..i];
    NodeEdgesGrow(nodes, i);
    forall j | 0 <= j < |LiveEdges(nodes[i])| && LiveEdges(nodes[i])[j].Gc?
      ensures LiveEdges(nodes[i])[j].ref in ids
    {
      assert LiveEdges(nodes[i])[j] in NodeEdges(nodes);
    }
  }

  lemma EncNone<T>(xs: seq<T>, enc: T -> seq<byte>)
    ensures EncAll(xs[..0], enc) == []
  {
  }
}
