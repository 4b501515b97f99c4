// Table and prototype records from anywhere: the two passes of a load agree, or an error is
// latched.
module PassesAgree {
  import opened Bytes
  import opened Heap
  import opened Wire
  import opened TableRecords
  import opened ProtoRecords
  import opened Snapshot
  import opened LoadSpec

  /** An error once latched stays. */
  lemma {:induction false} ItemsPlain(c: Ctx, env: Env, arr: seq<TValue>, ws: seq<WItem>)
    requires c.Valid() && !FillItems(c, env, arr, ws).err
    ensures forall a :: a in ws ==> PlainItem(a)
  {
    if ws != [] {
      var k := |ws| - 1;
      ItemsPlain(c, env, arr, ws[..k]);
      assert ws == ws[..k] + [ws[k]];
    }
  }

  /** Chain links lead from node to node of the array. */
  ghost predicate LinksInside(nodes: seq<Node>) {
    forall e :: 0 <= e < |nodes| && nodes[e].Node? ==> nodes[e].next == 0 || 0 <= e + nodes[e].next < |nodes|
  }

  /** A value with a dead-key tag latches an error; so does whatever went wrong before. */
  lemma SlotLatches(c: Ctx, env: Env, n: Nodes, e: nat, hsize: nat, w: WSlot)
    requires c.Valid() && !FillSlot(c, env, n, e, hsize, w).err
    ensures !n.err && PlainSlot(w)
  {
  }

  lemma {:induction false} SlotsPlain(c: Ctx, env: Env, n: Nodes, hsize: nat, ws: seq<WSlot>)
    requires c.Valid() && !FillSlots(c, env, n, hsize, ws).err
    ensures !n.err && forall s :: s in ws ==> PlainSlot(s)
  {
    if ws != [] {
      var k := |ws| - 1;
      hide PlainSlot, FillSlot;
      SlotLatches(c, env, FillSlots(c, env, n, hsize, ws[..k]), k, hsize, ws[k]);
      SlotsPlain(c, env, n, hsize, ws[..k]);
      assert ws == ws[..k] + [ws[k]];
    }
  }

  lemma SlotInside(c: Ctx, env: Env, n: Nodes, e: nat, hsize: nat, w: WSlot)
    requires c.Valid() && e < hsize <= |n.nodes| && LinksInside(n.nodes) && !n.wild
    ensures var r := FillSlot(c, env, n, e, hsize, w);
            !r.wild && |r.nodes| == |n.nodes| && LinksInside(r.nodes)
  {
  }

  lemma {:induction false} SlotsInside(c: Ctx, env: Env, n: Nodes, hsize: nat, ws: seq<WSlot>)
    requires c.Valid() && |ws| <= hsize <= |n.nodes| && LinksInside(n.nodes) && !n.wild
    ensures var r := FillSlots(c, env, n, hsize, ws);
            !r.wild && |r.nodes| == |n.nodes| && LinksInside(r.nodes)
  {
    if ws != [] {
      var k := |ws| - 1;
      hide LinksInside, FillSlot;
      SlotsInside(c, env, n, hsize, ws[..k]);
      SlotInside(c, env, FillSlots(c, env, n, hsize, ws[..k]), k, hsize, ws[k]);
    }
  }

  /** For any bytes: if the fill pass latches no error on a table that the first pass sized, both
      have consumed the same bytes, no store left the node array, and every chain link leads to a
      node of it. */
  lemma TableFillsInside(data: seq<byte>, pos: nat, c: Ctx, env: Env)
    requires c.Valid() && ScanTable(data, pos).Got? && ReadTable(data, pos).Got?
    ensures var z := ScanTable(data, pos);
            var w := ReadTable(data, pos);
            var f := FillTable(c, env, BlankTable(z.value), w.value);
            !f.err ==>
              && w.next == z.next && z.value == TableSize(w.value.asize, |w.value.slots|)
              && !f.wild && |f.obj.nodes| == NodeCount(z.value.hsize) && LinksInside(f.obj.nodes)
  {
    hide ScanTable, ReadTable, FillItems, FillSlots, PlainItem, PlainSlot, Resolve;
    var z := ScanTable(data, pos).value;
    var w := ReadTable(data, pos).value;
    var blank := BlankTable(z);
    var nodes := Nodes(blank.nodes, false, false);
    if !FillTable(c, env, blank, w).err {
      ItemsPlain(c, env, blank.arr, w.arr);
      SlotsPlain(c, env, nodes, |w.slots|, w.slots);
      TablePassesAgree(data, pos);
      assert LinksInside(blank.nodes);
      SlotsInside(c, env, nodes, |w.slots|, w.slots);
    }
  }

  /** A constant with a dead-key tag latches an error. */
  lemma {:induction false} ConstantsPlain(c: Ctx, env: Env, ws: seq<WTv>)
    requires c.Valid() && !FillTvs(c, env, ws).err
    ensures WTag(TV_DEADKEY) !in ws
  {
    if ws != [] {
      var k := |ws| - 1;
      ConstantsPlain(c, env, ws[..k]);
      assert ws == ws[..k] + [ws[k]];
    }
  }

  /** For any bytes: if the fill pass latches no error on a prototype that the first pass
      sized, both have consumed the same bytes up to the local variables, and every list has
      the size that was made for it. */
  lemma ProtoFillsInside(data: seq<byte>, pos: nat, c: Ctx, env: Env)
    requires c.Valid() && ScanProto(data, pos).Got? && ReadProto(data, pos, ScanProto(data, pos).value.size).Got?
    ensures var scan := ScanProto(data, pos);
            var w := ReadProto(data, pos, scan.value.size);
            !FillProto(c, env, w.value).err ==>
              && SizeOf(w.value) == scan.value.size && |w.value.locvars| == scan.value.nvars
              && w.next == scan.next + 12 * scan.value.nvars + 12
  {
    var scan := ScanProto(data, pos).value;
    SizesAre(data, pos, scan.size);
    hide ScanProto, ReadProto, FillTvs, SizeOf;
    var w := ReadProto(data, pos, scan.size).value;
    if !FillProto(c, env, w).err {
      ConstantsPlain(c, env, w.k);
      ProtoPassesAgree(data, pos);
    }
  }

  /** The fill pass takes each size from the first pass. */
  lemma SizesAre(data: seq<byte>, pos: nat, z: ProtoSize)
    requires ReadProto(data, pos, z).Got?
    ensures SizeOf(ReadProto(data, pos, z).value) == z
  {
    hide ReadAll, ReadTv, ReadUp, ReadAbs, ReadCounted, ReadLast;
  }
}
