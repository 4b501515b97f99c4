// Table records: array items, hash slots in node order, metatable and array size.
module TableRecords {
  import opened Bytes
  import opened Wire

  function EncItem(a: WItem): seq<byte> {
    Le(a.idx, 4) + EncTv(a.val)
  }

  function EncKey(k: WKey): seq<byte> {
    match k
    case WLive(v) => EncTv(v)
    case WDead(id) => [TV_DEADKEY] + Le(id, 4)
  }

  function EncSlot(s: WSlot): seq<byte> {
    match s
    case WFree => [TV_NIL]
    case WSlot(k, v, n) => EncKey(k) + (EncTv(v) + EncI32(n))
  }

  ghost function EncTable(t: WTable): seq<byte> {
    EncCounted(t.arr, EncItem) + (EncCounted(t.slots, EncSlot) + (Le(t.mt, 4) + Le(t.asize, 4)))
  }

  function ReadItem(data: seq<byte>, pos: nat): (r: Parsed<WItem>)
    ensures r.Got? ==> pos < r.next <= |data|
  {
    var (idx, p) :- U32(data, pos);
    var (v, p) :- ReadTv(data, p);
    Got(WItem(idx, v), p)
  }

  function ReadKey(data: seq<byte>, pos: nat): (r: Parsed<WKey>)
    ensures r.Got? ==> pos < r.next <= |data|
  {
    if pos < |data| && data[pos] == TV_DEADKEY then
      var (id, p) :- U32(data, pos + 1);
      Got(WDead(id), p)
    else
      var (v, p) :- ReadTv(data, pos);
      Got(WLive(v), p)
  }

  function ReadSlot(data: seq<byte>, pos: nat): (r: Parsed<WSlot>)
    ensures r.Got? ==> pos < r.next <= |data|
  {
    if pos < |data| && data[pos] == TV_NIL then
      Got(WFree, pos + 1)
    else
      ReadUsed(data, pos)
  }

  function ReadUsed(data: seq<byte>, pos: nat): (r: Parsed<WSlot>)
    ensures r.Got? ==> pos < r.next <= |data|
  {
    var (k, p) :- ReadKey(data, pos);
    var (v, p) :- ReadTv(data, p);
    var (n, p) :- I32(data, p);
    Got(WSlot(k, v, n), p)
  }

  ghost function ReadTable(data: seq<byte>, pos: nat): Parsed<WTable> {
    var (arr, p) :- ReadCounted(data, pos, ReadItem);
    var (slots, p) :- ReadCounted(data, p, ReadSlot);
    var (mt, p) :- U32(data, p);
    var (asize, p) :- U32(data, p);
    Got(WTable(arr, slots, mt, asize), p)
  }

  predicate ValidItem(a: WItem) {
    ValidTv(a.val)
  }

  predicate ValidSlot(s: WSlot) {
    s.WSlot? ==>
      && ValidTv(s.val)
      && (s.key.WLive? ==> ValidTv(s.key.value) && s.key.value != WTag(TV_NIL) && s.key.value != WTag(TV_DEADKEY))
  }

  ghost predicate ValidTable(t: WTable) {
    && |t.arr| < 0x8000_0000 && |t.slots| < 0x8000_0000
    && (forall a :: a in t.arr ==> ValidItem(a))
    && (forall s :: s in t.slots ==> ValidSlot(s))
  }

  lemma ReadsItem(data: seq<byte>, pos: nat, a: WItem)
    requires ValidItem(a) && At(data, pos, EncItem(a))
    ensures ReadItem(data, pos) == Got(a, pos + |EncItem(a)|)
  {
    AtSplit(data, pos, Le(a.idx, 4), EncTv(a.val));
    ReadsU32(data, pos, a.idx);
    ReadsTv(data, pos + 4, a.val);
  }

  lemma FirstByte(data: seq<byte>, pos: nat, w: WTv)
    requires At(data, pos, EncTv(w))
    ensures pos < |data| && data[pos] == EncTv(w)[0]
  {
    assert data[pos..pos + |EncTv(w)|][0] == data[pos];
  }

  lemma ReadsKey(data: seq<byte>, pos: nat, k: WKey)
    requires ValidSlot(WSlot(k, WTag(TV_NIL), 0)) && At(data, pos, EncKey(k))
    ensures ReadKey(data, pos) == Got(k, pos + |EncKey(k)|)
    ensures pos < |data| && data[pos] != TV_NIL
  {
    match k
    case WLive(v) =>
      FirstByte(data, pos, v);
      ReadsTv(data, pos, v);
    case WDead(id) =>
      AtSplit(data, pos, [TV_DEADKEY], Le(id, 4));
      assert data[pos..pos + 1][0] == TV_DEADKEY;
      ReadsU32(data, pos + 1, id);
  }

  lemma ReadsUsed(data: seq<byte>, pos: nat, k: WKey, v: WTv, n: i32)
    requires ValidSlot(WSlot(k, v, n)) && At(data, pos, EncKey(k) + (EncTv(v) + EncI32(n)))
    ensures ReadUsed(data, pos) == Got(WSlot(k, v, n), pos + |EncKey(k)| + |EncTv(v)| + 4)
    ensures pos < |data| && data[pos] != TV_NIL
  {
    hide At, EncKey, EncTv, ReadTv, Le, ReadKey, I32;
    var p := pos + |EncKey(k)|;
    var q := p + |EncTv(v)|;
    AtSplit(data, pos, EncKey(k), EncTv(v) + EncI32(n));
    AtSplit(data, p, EncTv(v), EncI32(n));
    ReadsKey(data, pos, k);
    ReadsTv(data, p, v);
    ReadsI32(data, q, n);
  }

  lemma ReadsSlot(data: seq<byte>, pos: nat, s: WSlot)
    requires ValidSlot(s) && At(data, pos, EncSlot(s))
    ensures ReadSlot(data, pos) == Got(s, pos + |EncSlot(s)|)
  {
    match s
    case WFree =>
      assert data[pos..pos + 1][0] == TV_NIL;
    case WSlot(k, v, n) =>
      ReadsUsed(data, pos, k, v, n);
  }

  lemma ItemsInvert(xs: seq<WItem>)
    requires forall a :: a in xs ==> ValidItem(a)
    ensures Inverts(xs, EncItem, ReadItem)
  {
    forall x, data: seq<byte>, pos: nat | x in xs && At(data, pos, EncItem(x))
      ensures ReadItem(data, pos) == Got(x, pos + |EncItem(x)|)
    {
      ReadsItem(data, pos, x);
    }
  }

  lemma SlotsInvert(xs: seq<WSlot>)
    requires forall s :: s in xs ==> ValidSlot(s)
    ensures Inverts(xs, EncSlot, ReadSlot)
  {
    forall x, data: seq<byte>, pos: nat | x in xs && At(data, pos, EncSlot(x))
      ensures ReadSlot(data, pos) == Got(x, pos + |EncSlot(x)|)
    {
      ReadsSlot(data, pos, x);
    }
  }

  lemma ReadsTable(data: seq<byte>, pos: nat, t: WTable)
    requires ValidTable(t) && At(data, pos, EncTable(t))
    ensures ReadTable(data, pos) == Got(t, pos + |EncTable(t)|)
  {
    hide At, Inverts, EncCounted, ReadCounted, Le, U32;
    var a, b, c, d := EncCounted(t.arr, EncItem), EncCounted(t.slots, EncSlot), Le(t.mt, 4), Le(t.asize, 4);
    var p := pos + |a|;
    var q := p + |b|;
    AtSplit(data, pos, a, b + (c + d));
    AtSplit(data, p, b, c + d);
    AtSplit(data, q, c, d);
    assert ReadCounted(data, pos, ReadItem) == Got(t.arr, p) by {
      ItemsInvert(t.arr);
      ReadsCounted(data, pos, t.arr, EncItem, ReadItem);
    }
    assert ReadCounted(data, p, ReadSlot) == Got(t.slots, q) by {
      SlotsInvert(t.slots);
      ReadsCounted(data, p, t.slots, EncSlot, ReadSlot);
    }
    ReadsU32(data, q, t.mt);
    ReadsU32(data, q + 4, t.asize);
    assert |EncTable(t)| == |a| + |b| + 8;
  }

  // --------------------------------------------- the first pass over a table

  function SkipItem(data: seq<byte>, pos: nat): Parsed<()> {
    var (_, p) :- U32(data, pos);
    SkipTv(data, p)
  }

  function SkipSlot(data: seq<byte>, pos: nat): Parsed<()> {
    var (_, p) :- SkipTv(data, pos);
    if data[pos] == TV_NIL then Got((), p) else
    var (_, p) :- SkipTv(data, p);
    var (_, p) :- I32(data, p);
    Got((), p)
  }

  datatype TableSize = TableSize(asize: nat, hsize: nat)

  /** The sizes of the table to create. */
  ghost function ScanTable(data: seq<byte>, pos: nat): Parsed<TableSize> {
    var (n, p) :- Count(data, pos);
    var (_, p) :- ReadAll(data, p, n, SkipItem);
    var (hsize, p) :- Count(data, p);
    var (_, p) :- ReadAll(data, p, hsize, SkipSlot);
    var (_, p) :- U32(data, p);
    var (asize, p) :- U32(data, p);
    Got(TableSize(asize, hsize), p)
  }

  /** No value of the item or slot carries a dead-key tag. */
  predicate PlainItem(a: WItem) {
    a.val != WTag(TV_DEADKEY)
  }

  predicate PlainSlot(s: WSlot) {
    s.WSlot? ==> s.val != WTag(TV_DEADKEY)
  }

  lemma SkipSlotAgrees(data: seq<byte>, pos: nat)
    requires ReadSlot(data, pos).Got? && PlainSlot(ReadSlot(data, pos).value)
    ensures SkipSlot(data, pos) == Got((), ReadSlot(data, pos).next)
  {
    if data[pos] != TV_NIL {
      var k := ReadKey(data, pos);
      if data[pos] != TV_DEADKEY {
        SkipAgrees(data, pos);
      }
      SkipAgrees(data, k.next);
    }
  }

  lemma SkipItemAgrees(data: seq<byte>, pos: nat)
    requires ReadItem(data, pos).Got? && PlainItem(ReadItem(data, pos).value)
    ensures SkipItem(data, pos) == Got((), ReadItem(data, pos).next)
  {
    SkipAgrees(data, pos + 4);
  }

  lemma {:induction false} SkipItemsAgree(data: seq<byte>, pos: nat, n: nat)
    requires ReadAll(data, pos, n, ReadItem).Got?
    requires forall a :: a in ReadAll(data, pos, n, ReadItem).value ==> PlainItem(a)
    ensures ReadAll(data, pos, n, SkipItem).Got?
    ensures ReadAll(data, pos, n, SkipItem).next == ReadAll(data, pos, n, ReadItem).next
  {
    if n > 0 {
      hide ReadItem, SkipItem, PlainItem;
      var init := ReadAll(data, pos, n - 1, ReadItem);
      var item := ReadItem(data, init.next);
      assert ReadAll(data, pos, n, ReadItem).value == init.value + [item.value];
      SkipItemsAgree(data, pos, n - 1);
      SkipItemAgrees(data, init.next);
    }
  }

  lemma {:induction false} SkipSlotsAgree(data: seq<byte>, pos: nat, n: nat)
    requires ReadAll(data, pos, n, ReadSlot).Got?
    requires forall s :: s in ReadAll(data, pos, n, ReadSlot).value ==> PlainSlot(s)
    ensures ReadAll(data, pos, n, SkipSlot).Got?
    ensures ReadAll(data, pos, n, SkipSlot).next == ReadAll(data, pos, n, ReadSlot).next
  {
    if n > 0 {
      hide ReadSlot, SkipSlot, PlainSlot;
      var init := ReadAll(data, pos, n - 1, ReadSlot);
      var slot := ReadSlot(data, init.next);
      assert ReadAll(data, pos, n, ReadSlot).value == init.value + [slot.value];
      SkipSlotsAgree(data, pos, n - 1);
      SkipSlotAgrees(data, init.next);
    }
  }

  ghost predicate PlainTable(t: WTable) {
    && (forall a :: a in t.arr ==> PlainItem(a))
    && (forall s :: s in t.slots ==> PlainSlot(s))
  }

  /** For any bytes at all: if the fill pass reads a table without meeting a dead-key
      tag where a value belongs, the first pass consumed the same bytes and saw the
      same sizes. */
  lemma TablePassesAgree(data: seq<byte>, pos: nat)
    requires ReadTable(data, pos).Got? && PlainTable(ReadTable(data, pos).value)
    ensures var r := ReadTable(data, pos);
            ScanTable(data, pos) == Got(TableSize(r.value.asize, |r.value.slots|), r.next)
  {
    var n := Count(data, pos);
    SkipItemsAgree(data, n.next, n.value);
    var p := ReadAll(data, n.next, n.value, ReadItem).next;
    var h := Count(data, p);
    SkipSlotsAgree(data, h.next, h.value);
  }
}
