// Between and during collections: what is reachable is live, and freeing the rest is safe.
module GcSafety {
  import opened GcObjects
  import opened GcMarking

  /** Objects that a sweep would not free: all but those with the old white. */
  ghost function LiveSet(m: Marks, white: Colour): set<Ref> {
    set r | r in m && m[r] != white.OtherWhite()
  }

  /** Live objects and roots refer to live objects only, and the lists of open upvalues and of
      threads that have some are as they should be. */
  ghost predicate Sound(h: Memory, m: Marks, white: Colour, twups: seq<Ref>, roots: seq<Ref>) {
    && m.Keys == h.Keys && white.IsWhite()
    && Shape(h)
    && Typed(h, LiveSet(m, white))
    && RefsIn(roots, LiveSet(m, white))
    && (forall o :: o in LiveSet(m, white) ==> Covers(h, h[o], LiveSet(m, white)))
    && UpvalsGray(h, m)
    && TwupsOk(h, twups) && RefsIn(twups, LiveSet(m, white)) && OpenIn(h, twups, LiveSet(m, white))
  }

  ghost function RootSet(roots: seq<Ref>): set<Ref> {
    set r | r in roots && r != 0
  }

  /** Safety: what a program can reach is allocated, and no sweep of this cycle would free it. */
  lemma ReachableLive(h: Memory, m: Marks, white: Colour, twups: seq<Ref>, roots: seq<Ref>, r: Ref)
    requires Sound(h, m, white, twups, roots) && Reachable(h, RootSet(roots), r)
    ensures r in h && r in LiveSet(m, white)
  {
    hide Covers, Shape, TwupsOk, OpenIn, Typed, UpvalsGray;
    var live := LiveSet(m, white);
    forall r | r in RootSet(roots) ensures r in live {
      var i :| 0 <= i < |roots| && roots[i] == r;
      assert RefIn(roots[i], live);
    }
    assert Closed(h, RootSet(roots), live);
  }

  /** A whole heap without the old white is sound. */
  lemma WholeSound(h: Memory, m: Marks, white: Colour, twups: seq<Ref>, roots: seq<Ref>)
    requires m.Keys == h.Keys && Whole(h) && white.IsWhite() && OnlyWhite(m, white) && UpvalsGray(h, m)
    requires TwupsOk(h, twups) && OpenIn(h, twups, h.Keys) && RefsIn(roots, h.Keys)
    ensures LiveSet(m, white) == h.Keys && Sound(h, m, white, twups, roots)
  {
    assert LiveSet(m, white) == h.Keys;
  }

  lemma SoundWhole(h: Memory, m: Marks, white: Colour, twups: seq<Ref>, roots: seq<Ref>)
    requires Sound(h, m, white, twups, roots) && OnlyWhite(m, white)
    ensures LiveSet(m, white) == h.Keys && Whole(h) && OpenIn(h, twups, h.Keys)
  {
    assert LiveSet(m, white) == h.Keys;
  }

  /** Colours may change while the same objects stay live. */
  lemma SoundRecolour(h: Memory, m: Marks, m': Marks, white: Colour, twups: seq<Ref>, roots: seq<Ref>)
    requires Sound(h, m, white, twups, roots) && m'.Keys == m.Keys && UpvalsGray(h, m')
    requires LiveSet(m', white) == LiveSet(m, white)
    ensures Sound(h, m', white, twups, roots)
  {
  }

  // ---------------------------------------------------------------- freeing

  lemma {:induction false} FreePlain(h: Memory, m: Marks, white: Colour, twups: seq<Ref>, roots: seq<Ref>, o: Ref)
    requires Sound(h, m, white, twups, roots) && o in h && m[o] == white.OtherWhite()
    requires !h[o].UpOpen? && (h[o].Thread? ==> h[o].open == [])
    ensures Sound(h - {o}, m - {o}, white, twups, roots)
    ensures LiveSet(m - {o}, white) == LiveSet(m, white)
  {
    var h', m' := h - {o}, m - {o};
    assert LiveSet(m', white) == LiveSet(m, white);
    assert o !in LiveSet(m, white);
    assert o !in twups by { RefsInElems(twups, LiveSet(m, white), o); }
    forall u | u in h && h[u].UpOpen?
      ensures h[u].owner != o
    {
      assert OpenAt(h, u);
    }
    ShapeWithout(h, o);
    forall p | p in LiveSet(m', white)
      ensures Covers(h', h'[p], LiveSet(m', white))
    {
      assert Covers(h, h[p], LiveSet(m, white)) && Parts(h', h'[p]) == Parts(h, h[p]);
    }
  }

  lemma RefsInElems(rs: seq<Ref>, s: set<Ref>, r: Ref)
    requires RefsIn(rs, s)
    ensures r in rs ==> r == 0 || r in s
  {
    if r in rs {
      var i :| 0 <= i < |rs| && rs[i] == r;
      assert RefIn(rs[i], s);
    }
  }

  lemma ShapeWithout(h: Memory, o: Ref)
    requires Shape(h) && o in h && !h[o].UpOpen? && (h[o].Thread? ==> h[o].open == [])
    ensures Shape(h - {o})
  {
    var h' := h - {o};
    forall th | th in h' && h'[th].Thread?
      ensures OpenList(h', th, h'[th].stack, h'[th].open)
    {
      assert OpenList(h, th, h[th].stack, h[th].open);
    }
    forall u | u in h' ensures OpenAt(h', u) {
      assert OpenAt(h, u);
    }
  }

  function Unlinked(open: seq<Ref>, i: nat): seq<Ref>
    requires i < |open|
  {
    open[..i] + open[i + 1..]
  }

  /** The cell of a thread whose `i`-th open upvalue is unlinked. */
  function UnlinkedThread(h: Memory, th: Ref, i: nat): Cell
    requires th in h && h[th].Thread? && i < |h[th].open|
  {
    Thread(h[th].stack, Unlinked(h[th].open, i))
  }

  lemma UnlinkedAt(open: seq<Ref>, i: nat)
    requires i < |open|
    ensures |Unlinked(open, i)| == |open| - 1
    ensures forall j :: 0 <= j < |open| - 1 ==> Unlinked(open, i)[j] == open[if j < i then j else j + 1]
  {
  }

  lemma OpenDistinct(h: Memory, th: Ref)
    requires Shape(h) && th in h && h[th].Thread?
    ensures forall i, j :: 0 <= i < j < |h[th].open| ==> h[th].open[i] != h[th].open[j]
  {
    assert OpenList(h, th, h[th].stack, h[th].open);
  }

  /** From `h` to `h'` the `i`-th open upvalue of `th` is closed or removed. */
  ghost predicate UnlinkStep(h: Memory, h': Memory, th: Ref, i: nat) {
    && th in h && h[th].Thread? && i < |h[th].open| && th != h[th].open[i]
    && th in h' && h'[th] == UnlinkedThread(h, th, i)
    && h'.Keys <= h.Keys && h.Keys - {h[th].open[i]} <= h'.Keys
    && (forall o :: o in h' && o != th && o != h[th].open[i] ==> h'[o] == h[o])
    && (h[th].open[i] in h' ==> h'[h[th].open[i]].UpClosed?)
  }

  lemma UnlinkedList(h: Memory, h': Memory, th: Ref, i: nat)
    requires Shape(h) && UnlinkStep(h, h', th, i)
    ensures OpenList(h', th, h'[th].stack, h'[th].open)
  {
    var open := h[th].open;
    UnlinkedAt(open, i);
    OpenDistinct(h, th);
    assert OpenList(h, th, h[th].stack, open);
    forall j | 0 <= j < |open| && j != i
      ensures open[j] in h' && h'[open[j]] == h[open[j]]
    {
    }
  }

  lemma OtherList(h: Memory, h': Memory, th: Ref, i: nat, t: Ref)
    requires Shape(h) && UnlinkStep(h, h', th, i) && t in h' && h'[t].Thread? && t != th
    ensures OpenList(h', t, h'[t].stack, h'[t].open)
  {
    UpvalKind(h, th, i);
    ListStays(h, h', t);
  }

  /** A thread's list depends on the thread and its upvalues only. */
  lemma ListStays(h: Memory, h': Memory, t: Ref)
    requires Shape(h) && t in h && t in h' && h[t].Thread? && h'[t] == h[t]
    requires forall u :: u in h && h[u].UpOpen? && h[u].owner == t ==> u in h' && h'[u] == h[u]
    ensures OpenList(h', t, h'[t].stack, h'[t].open)
  {
    assert OpenList(h, t, h[t].stack, h[t].open);
  }

  lemma OtherUpvalue(h: Memory, h': Memory, th: Ref, i: nat, p: Ref)
    requires Shape(h) && UnlinkStep(h, h', th, i) && p in h'
    ensures OpenAt(h', p)
  {
    var open := h[th].open;
    UnlinkedAt(open, i);
    assert OpenAt(h, p);
    assert OpenList(h, th, h[th].stack, open);
    if p != th && p != open[i] && h[p].UpOpen? {
      if h[p].owner == th {
        var j :| 0 <= j < |open| && open[j] == p;
        assert Unlinked(open, i)[if j < i then j else j - 1] == p;
      }
    }
  }

  /** Unlinking an upvalue and closing or removing it keeps the shape. */
  lemma ShapeUnlinked(h: Memory, h': Memory, th: Ref, i: nat)
    requires Shape(h) && UnlinkStep(h, h', th, i)
    ensures Shape(h')
  {
    hide OpenAt, OpenList;
    forall t | t in h' && h'[t].Thread?
      ensures OpenList(h', t, h'[t].stack, h'[t].open)
    {
      if t == th {
        UnlinkedList(h, h', th, i);
      } else {
        OtherList(h, h', th, i, t);
      }
    }
    forall p | p in h' ensures OpenAt(h', p) {
      OtherUpvalue(h, h', th, i, p);
    }
  }

  // ---------------------------------------------------------------- covers after unlinking

  /** The thread refers to what it referred to, less the upvalue. */
  lemma ThreadUnlinked(h: Memory, h': Memory, th: Ref, i: nat, s: set<Ref>)
    requires UnlinkStep(h, h', th, i) && Covers(h, h[th], s)
    ensures Covers(h', h'[th], s)
  {
    UnlinkedAt(h[th].open, i);
    var ps := Parts(h', h'[th]);
    forall j | 0 <= j < |ps| ensures RefIn(ps[j], s) {
      var k := if j < |h[th].stack| + i then j else j + 1;
      assert ps[j] == Parts(h, h[th])[k];
    }
  }

  /** What a live object refers to does not grow. */
  lemma CoversUnlinked(h: Memory, h': Memory, th: Ref, i: nat, p: Ref, s: set<Ref>)
    requires Shape(h) && UnlinkStep(h, h', th, i) && p in h' && Covers(h, h[p], s)
    requires h[th].open[i] in h' ==>
               h'[h[th].open[i]] == UpClosed(StackSlot(h, th, OpenLevel(h, h[th].open[i])))
    ensures Covers(h', h'[p], s)
  {
    var u := h[th].open[i];
    assert OpenList(h, th, h[th].stack, h[th].open);
    if p == th {
      ThreadUnlinked(h, h', th, i, s);
    } else if p == u {
      assert Parts(h', h'[p]) == Parts(h, h[p]);
    } else if h[p].UpOpen? {
      assert OpenAt(h, p);
      SlotUnlinked(h, h', th, i, h[p].owner, h[p].level);
    }
  }

  /** Stacks do not change. */
  lemma SlotUnlinked(h: Memory, h': Memory, th: Ref, i: nat, t: Ref, level: nat)
    requires Shape(h) && UnlinkStep(h, h', th, i) && t in h && h[t].Thread?
    ensures StackSlot(h', t, level) == StackSlot(h, t, level)
  {
    assert OpenList(h, th, h[th].stack, h[th].open);
  }

  lemma SoundUnlinked(h: Memory, h': Memory, m: Marks, m': Marks, white: Colour, twups: seq<Ref>, roots: seq<Ref>,
                      th: Ref, i: nat)
    requires Sound(h, m, white, twups, roots) && UnlinkStep(h, h', th, i) && m'.Keys == h'.Keys
    requires h[th].open[i] in h' ==>
               h'[h[th].open[i]] == UpClosed(StackSlot(h, th, OpenLevel(h, h[th].open[i])))
    requires LiveSet(m', white) == LiveSet(m, white)
    requires forall p :: p in h' && p != h[th].open[i] ==> m'[p] == m[p]
    ensures Sound(h', m', white, twups, roots)
  {
    hide Covers, OpenAt, OpenList;
    ShapeUnlinked(h, h', th, i);
    var live := LiveSet(m, white);
    forall p | p in live
      ensures Covers(h', h'[p], live)
    {
      CoversUnlinked(h, h', th, i, p, live);
    }
    UpvalKind(h, th, i);
    forall k | 0 <= k < |twups|
      ensures twups[k] in h' && h'[twups[k]].Thread?
    {
      assert RefIn(twups[k], live) && h[twups[k]].Thread?;
    }
  }

  lemma UpvalKind(h: Memory, th: Ref, i: nat)
    requires Shape(h) && th in h && h[th].Thread? && i < |h[th].open|
    ensures h[th].open[i] in h && h[h[th].open[i]].UpOpen? && h[h[th].open[i]].owner == th
    ensures th != h[th].open[i] && h[h[th].open[i]].level < |h[th].stack|
  {
    assert OpenList(h, th, h[th].stack, h[th].open);
  }

  // ---------------------------------------------------------------- what a program can see

  /** The object `o` reads the same in `h'` as in `h`: an open upvalue may have been closed, with
      its value; everything else is as it was. */
  ghost predicate SameView(h: Memory, h': Memory, o: Ref)
    requires o in h
  {
    && o in h'
    && Parts(h', h'[o]) == Parts(h, h[o])
    && (h'[o] == h[o] || (h[o].UpOpen? && h'[o].UpClosed?))
  }

  ghost predicate SameViews(h: Memory, h': Memory, s: set<Ref>) {
    s <= h.Keys && forall o :: o in s ==> SameView(h, h', o)
  }

  lemma SameViewsTwice(h: Memory, h1: Memory, h2: Memory, s: set<Ref>)
    requires SameViews(h, h1, s) && SameViews(h1, h2, s)
    ensures SameViews(h, h2, s)
  {
    forall o | o in s ensures SameView(h, h2, o) {
      assert SameView(h, h1, o) && SameView(h1, h2, o);
    }
  }

  lemma ViewsUnlinked(h: Memory, h': Memory, m: Marks, white: Colour, twups: seq<Ref>, roots: seq<Ref>, th: Ref, i: nat)
    requires Sound(h, m, white, twups, roots) && UnlinkStep(h, h', th, i) && th !in LiveSet(m, white)
    requires h[th].open[i] in h' ==>
               h'[h[th].open[i]] == UpClosed(StackSlot(h, th, OpenLevel(h, h[th].open[i])))
    requires h[th].open[i] !in h' ==> h[th].open[i] !in LiveSet(m, white)
    ensures SameViews(h, h', LiveSet(m, white))
  {
    hide Covers, Typed, UpvalsGray, TwupsOk, OpenIn;
    UpvalKind(h, th, i);
    forall p | p in LiveSet(m, white)
      ensures SameView(h, h', p)
    {
      assert OpenAt(h, p);
      if p != h[th].open[i] && h[p].UpOpen? {
        SlotUnlinked(h, h', th, i, h[p].owner, h[p].level);
      }
    }
  }

  lemma ViewsPlain(h: Memory, m: Marks, white: Colour, twups: seq<Ref>, roots: seq<Ref>, o: Ref)
    requires Sound(h, m, white, twups, roots) && o in h && m[o] == white.OtherWhite()
    requires !h[o].UpOpen? && (h[o].Thread? ==> h[o].open == [])
    ensures SameViews(h, h - {o}, LiveSet(m, white))
  {
    hide Covers, Typed, UpvalsGray, TwupsOk, OpenIn;
    forall p | p in LiveSet(m, white)
      ensures SameView(h, h - {o}, p)
    {
      assert OpenAt(h, p);
    }
  }

  // ---------------------------------------------------------------- the list of all objects

  ghost predicate Once(rs: seq<Ref>) {
    forall i, j :: 0 <= i < j < |rs| ==> rs[i] != rs[j]
  }

  /** `allgc` lists all objects, each once. */
  ghost predicate AllListed(h: Memory, allgc: seq<Ref>) {
    Once(allgc) && Elems(allgc) == h.Keys
  }

  /** All of `rs` before its last `left` elements have the colour `white`. */
  ghost predicate SweptTo(m: Marks, white: Colour, rs: seq<Ref>, left: nat) {
    forall i :: 0 <= i < |rs| - left ==> rs[i] in m && m[rs[i]] == white
  }

  lemma DropListed(h: Memory, h': Memory, allgc: seq<Ref>, i: nat)
    requires AllListed(h, allgc) && i < |allgc| && h'.Keys == h.Keys - {allgc[i]}
    ensures AllListed(h', Unlinked(allgc, i))
  {
    var rs := Unlinked(allgc, i);
    UnlinkedAt(allgc, i);
    forall j, k | 0 <= j < k < |rs| ensures rs[j] != rs[k] {
      assert allgc[if j < i then j else j + 1] != allgc[if k < i then k else k + 1];
    }
    forall r
      ensures r in Elems(rs) <==> r in h'.Keys
    {
      if r in h'.Keys {
        assert r in Elems(allgc);
        var j :| 0 <= j < |allgc| && allgc[j] == r;
        assert rs[if j < i then j else j - 1] == r;
      }
      if r in rs {
        var j :| 0 <= j < |rs| && rs[j] == r;
        assert allgc[if j < i then j else j + 1] == r && r in Elems(allgc);
      }
    }
  }

  lemma DropSwept(h': Memory, m: Marks, m': Marks, white: Colour, allgc: seq<Ref>, i: nat)
    requires i < |allgc| && AllListed(h', Unlinked(allgc, i)) && m'.Keys == h'.Keys
    requires SweptTo(m, white, allgc, |allgc| - i)
    requires forall r :: r in m' && r in m && m[r] == white ==> m'[r] == white
    ensures SweptTo(m', white, Unlinked(allgc, i), |allgc| - i - 1)
  {
    var rs := Unlinked(allgc, i);
    UnlinkedAt(allgc, i);
    forall j | 0 <= j < i
      ensures rs[j] in m' && m'[rs[j]] == white
    {
      assert rs[j] == allgc[j] && rs[j] in Elems(rs);
    }
  }

  lemma WhitenLive(h: Memory, m: Marks, white: Colour, twups: seq<Ref>, roots: seq<Ref>, o: Ref)
    requires Sound(h, m, white, twups, roots) && o in LiveSet(m, white)
    ensures Sound(h, m[o := white], white, twups, roots)
    ensures LiveSet(m[o := white], white) == LiveSet(m, white)
  {
    assert LiveSet(m[o := white], white) == LiveSet(m, white);
    SoundRecolour(h, m, m[o := white], white, twups, roots);
  }

  lemma SoundParts(h: Memory, m: Marks, white: Colour, twups: seq<Ref>, roots: seq<Ref>)
    requires Sound(h, m, white, twups, roots)
    ensures m.Keys == h.Keys && white.IsWhite() && Shape(h) && LiveSet(m, white) <= h.Keys
  {
  }

  lemma SameViewsNone(h: Memory, s: set<Ref>)
    requires s <= h.Keys
    ensures SameViews(h, h, s)
  {
  }

  /** A live thread keeps its open upvalues alive. */
  lemma OpenLive(h: Memory, m: Marks, white: Colour, twups: seq<Ref>, roots: seq<Ref>, th: Ref, i: nat)
    requires Sound(h, m, white, twups, roots) && th in h && h[th].Thread? && i < |h[th].open|
    ensures th in LiveSet(m, white) ==> h[th].open[i] in LiveSet(m, white)
  {
    if th in LiveSet(m, white) {
      UpvalKind(h, th, i);
      assert Covers(h, h[th], LiveSet(m, white));
      assert RefIn(Parts(h, h[th])[|h[th].stack| + i], LiveSet(m, white));
    }
  }

  lemma ListedAt(h: Memory, allgc: seq<Ref>, i: nat)
    requires AllListed(h, allgc) && i < |allgc|
    ensures allgc[i] in h
  {
    assert allgc[i] in Elems(allgc);
  }

  lemma SweptMore(m: Marks, white: Colour, allgc: seq<Ref>, i: nat)
    requires i < |allgc| && SweptTo(m, white, allgc, |allgc| - i) && allgc[i] in m
    ensures SweptTo(m[allgc[i] := white], white, allgc, |allgc| - i - 1)
  {
  }

  // ---------------------------------------------------------------- the end of the atomic step

  /** Marked objects refer to marked ones: with the whites exchanged, the heap is sound. */
  lemma SoundAtomic(h: Memory, m: Marks, white: Colour, weak: seq<Ref>, allweak: seq<Ref>, ephemeron: seq<Ref>,
                    twups: seq<Ref>, roots: seq<Ref>)
    requires m.Keys == h.Keys && Whole(h) && white.IsWhite()
    requires MarkInv(h, m, white, Sum([], [], weak, allweak, ephemeron, multiset{}), {}, {}, Settled(h, twups, true))
    requires ListsDone(h, m, weak, allweak, ephemeron) && PurgedLists(h, m, weak, allweak, ephemeron)
    requires RefsIn(roots, Marked(m)) && TwupsOk(h, twups) && RefsIn(twups, Marked(m))
    ensures LiveSet(m, white.OtherWhite()) == Marked(m)
    ensures Sound(h, m, white.OtherWhite(), twups, roots)
  {
    hide Covers, Listed, BlackDone, UpvalsDone, AllOk, EphemeronsDone, PurgedLists, OpenAt, OpenList;
    assert LiveSet(m, white.OtherWhite()) == Marked(m);
    forall o | o in Marked(m)
      ensures Covers(h, h[o], Marked(m))
    {
      MarkedCovered(h, m, white, weak, allweak, ephemeron, Settled(h, twups, true), o);
    }
    forall th | th in h && th in Marked(m) && h[th].Thread? && h[th].open != []
      ensures th in twups
    {
      NotWaiting(h, m, white, weak, allweak, ephemeron, Settled(h, twups, true), th);
    }
  }

  lemma TidiedPurged(h: Memory, h1: Memory, h2: Memory, marked: set<Ref>)
    requires Tidied(h, h1) && PurgedHeap(h1, h2, marked)
    ensures PurgedHeap(h, h2, marked)
  {
    forall r ensures IsStr(h1, r) == IsStr(h, r) { }
    forall o | o in h
      ensures Purged(h, h[o], h2[o], marked)
    {
      assert Purged(h1, h1[o], h2[o], marked);
      PurgedCleaned(h, h1, h[o], h1[o], h2[o], marked);
    }
  }

  lemma PurgedCleaned(h: Memory, h1: Memory, c: Cell, c1: Cell, c2: Cell, marked: set<Ref>)
    requires c1 == c || c1 == CleanCell(c)
    requires Purged(h1, c1, c2, marked) && forall r :: IsStr(h1, r) == IsStr(h, r)
    ensures Purged(h, c, c2, marked)
  {
    forall r ensures Gone(h1, r, marked) == Gone(h, r, marked) { }
    if c.Table? {
      assert c1.Table? && forall i :: 0 <= i < |c.nodes| ==> c1.nodes[i] == c.nodes[i] || c1.nodes[i] == CleanNode(c.nodes[i]);
    }
  }

  /** When all gray lists but those of weak tables are empty and ephemeron tables have converged,
      the marked objects contain all that they keep alive; strings marked later change nothing. */
  lemma KeptMarked(h: Memory, m: Marks, m': Marks, white: Colour, weak: seq<Ref>, allweak: seq<Ref>,
                   ephemeron: seq<Ref>, settled: set<Ref>)
    requires m.Keys == h.Keys && Whole(h) && GrewByStrings(h, m, m')
    requires MarkInv(h, m, white, Sum([], [], weak, allweak, ephemeron, multiset{}), {}, {}, settled)
    requires ListsDone(h, m, weak, allweak, ephemeron)
    ensures Kept(h, Marked(m'), false)
  {
    hide Covers, Holds, Whole, Listed, BlackDone, UpvalsDone, NeverBlack, WeakOk, AllWeakOk, EphemeronOk, EntriesDone;
    StringsGrew(h, m, m');
    GrewWhites(m, m');
    forall o | o in Marked(m') && o in h
      ensures Holds(h, h[o], Marked(m'), false)
    {
      if o !in Marked(m) {
        StringHolds(h, o, Marked(m'));
      } else if h[o].UpOpen? {
        OpenValue(h, m, white, weak, allweak, ephemeron, settled, o);
        UpvalHolds(h, o, Marked(m), Marked(m'));
      } else {
        NotWaiting(h, m, white, weak, allweak, ephemeron, settled, o);
        if o in weak {
          WeakHolds(h, h[o], Marked(m), Marked(m'));
        } else if o in allweak {
          AllWeakHolds(h, h[o], Marked(m), Marked(m'));
        } else if o in ephemeron {
          EphemeronHolds(h, m, m', h[o]);
        } else {
          CoversMore(h, h[o], Marked(m), Marked(m'));
          CoversHolds(h, h[o], Marked(m'), false);
        }
      }
    }
  }

  lemma StringHolds(h: Memory, o: Ref, s: set<Ref>)
    requires IsStr(h, o)
    ensures Holds(h, h[o], s, false)
  {
  }

  lemma UpvalHolds(h: Memory, o: Ref, s: set<Ref>, s': set<Ref>)
    requires o in h && h[o].UpOpen? && RefIn(StackSlot(h, h[o].owner, h[o].level), s) && s <= s'
    ensures Holds(h, h[o], s', false)
  {
  }

  lemma CoversHolds(h: Memory, c: Cell, s: set<Ref>, strings: bool)
    requires Covers(h, c, s)
    ensures Holds(h, c, s, strings)
  {
  }

  lemma WeakHolds(h: Memory, c: Cell, s: set<Ref>, s': set<Ref>)
    requires WeakOk(c, s) && s <= s'
    ensures Holds(h, c, s', false)
  {
  }

  lemma AllWeakHolds(h: Memory, c: Cell, s: set<Ref>, s': set<Ref>)
    requires AllWeakOk(c, s) && s <= s'
    ensures Holds(h, c, s', false)
  {
  }

  lemma EphemeronHolds(h: Memory, m: Marks, m': Marks, c: Cell)
    requires EphemeronOk(c, Marked(m)) && EntriesDone(h, c.nodes, Marked(m)) && GrewByStrings(h, m, m')
    requires Marked(m) <= Marked(m')
    ensures Holds(h, c, Marked(m'), false)
  {
    forall i | 0 <= i < |c.nodes|
      ensures HoldsNode(h, true, false, c.nodes[i], Marked(m'), false)
    {
      assert EntryDone(h, c.nodes[i], Marked(m));
    }
  }

  /** Forgetting the keys of empty entries changes nothing in what is kept alive. */
  lemma KeptTidied(h: Memory, h1: Memory, s: set<Ref>)
    requires Tidied(h, h1) && Kept(h1, s, false)
    ensures Kept(h, s, false)
  {
    TidiedTrims(h, h1);
    TrimmedParts(h, h1);
    forall o | o in s && o in h
      ensures Holds(h, h[o], s, false)
    {
      assert Holds(h1, h1[o], s, false);
      if h[o].Table? {
        forall i | 0 <= i < |h[o].nodes|
          ensures HoldsNode(h, h[o].weakKeys, h[o].weakVals, h[o].nodes[i], s, false)
        {
          assert HoldsNode(h1, h1[o].weakKeys, h1[o].weakVals, h1[o].nodes[i], s, false);
        }
      }
    }
  }

  lemma WholeKept(h: Memory)
    requires Whole(h)
    ensures Kept(h, h.Keys, true)
  {
    hide Covers, Holds;
    forall o | o in h ensures Holds(h, h[o], h.Keys, true) {
      CoversHolds(h, h[o], h.Keys, true);
    }
  }

  lemma AfterClear(h: Memory, h1: Memory, h2: Memory, m1: Marks, m2: Marks, roots: seq<Ref>, twups: seq<Ref>)
    requires Tidied(h, h1) && Pruned(h1, h2, Marked(m2)) && GrewByStrings(h1, m1, m2)
    requires RefsIn(roots, Marked(m1)) && RefsIn(twups, Marked(m1)) && TwupsOk(h1, twups)
    ensures h1.Keys == h.Keys && h2.Keys == h.Keys && PurgedHeap(h, h2, Marked(m2))
    ensures RefsIn(roots, Marked(m2)) && RefsIn(twups, Marked(m2)) && TwupsOk(h2, twups)
  {
    TidiedPurged(h, h1, h2, Marked(m2));
    StringsGrew(h1, m1, m2);
    GrewMore(m1, m2);
    RefsInMore(roots, m1, m2);
    RefsInMore(twups, m1, m2);
    PurgedKinds(h1, h2, Marked(m2));
  }

  // ---------------------------------------------------------------- what a step of the collector may change

  /** `r` lies in every set that holds the roots and all its members keep alive, weak references
      not counted. */
  ghost predicate KeptAlive(h: Memory, roots: set<Ref>, r: Ref) {
    forall s: set<Ref> :: roots <= s && Kept(h, s, false) ==> r in s
  }

  /** The object `o` after a step: an open upvalue may have been closed, with its value; a table
      may have lost keys of empty entries and weak references to objects not in `live`; all other
      objects are unchanged. */
  ghost predicate Seen(h: Memory, h': Memory, live: set<Ref>, o: Ref)
    requires o in h
  {
    && o in h'
    && (h[o].Table? ==> Purged(h, h[o], h'[o], live))
    && (h[o].UpOpen? ==> Parts(h', h'[o]) == Parts(h, h[o]) && (h'[o] == h[o] || h'[o].UpClosed?))
    && (!h[o].Table? && !h[o].UpOpen? ==> h'[o] == h[o])
  }

  ghost predicate AllSeenAs(h: Memory, h': Memory, live: set<Ref>) {
    live <= h.Keys && forall o :: o in live ==> Seen(h, h', live, o)
  }

  lemma PurgedSeen(h: Memory, h1: Memory, h2: Memory, live: set<Ref>)
    requires PurgedHeap(h, h1, live) && SameViews(h1, h2, live)
    ensures AllSeenAs(h, h2, live)
  {
    PurgedKinds(h, h1, live);
    PurgedTrims(h, h1, live);
    TrimmedParts(h, h1);
    forall o | o in live
      ensures Seen(h, h2, live, o)
    {
      assert Purged(h, h[o], h1[o], live) && SameView(h1, h2, o);
    }
  }

  /** The same views after a step. */
  lemma SeenViews(h: Memory, h1: Memory, h2: Memory, live: set<Ref>)
    requires AllSeenAs(h, h1, live) && SameViews(h1, h2, live)
    ensures AllSeenAs(h, h2, live)
  {
    forall o | o in live
      ensures Seen(h, h2, live, o)
    {
      assert Seen(h, h1, live, o) && SameView(h1, h2, o);
    }
  }

  lemma SameStrings(h: Memory, h1: Memory, o: Ref)
    requires SameViews(h, h1, h1.Keys) && o in h1 && h1[o].Table? && Covers(h1, h1[o], h1.Keys)
    ensures forall i :: 0 <= i < |h1[o].arr| && h1[o].arr[i].Val? ==>
              IsStr(h1, h1[o].arr[i].r) == IsStr(h, h1[o].arr[i].r) || h1[o].arr[i].r == 0
    ensures forall i :: 0 <= i < |h1[o].nodes| && h1[o].nodes[i].val.Val? ==>
              IsStr(h1, h1[o].nodes[i].val.r) == IsStr(h, h1[o].nodes[i].val.r) || h1[o].nodes[i].val.r == 0
    ensures forall i :: 0 <= i < |h1[o].nodes| && h1[o].nodes[i].key.LiveKey? ==>
              IsStr(h1, h1[o].nodes[i].key.k) == IsStr(h, h1[o].nodes[i].key.k) || h1[o].nodes[i].key.k == 0
  {
    forall r | r in h1 ensures IsStr(h1, r) == IsStr(h, r) {
      assert SameView(h, h1, r);
    }
  }

  /** The same views before a step. */
  lemma ViewsSeen(h: Memory, h1: Memory, h2: Memory, live: set<Ref>)
    requires SameViews(h, h1, h1.Keys) && Whole(h1) && AllSeenAs(h1, h2, live)
    ensures AllSeenAs(h, h2, live)
  {
    forall o | o in live
      ensures Seen(h, h2, live, o)
    {
      assert SameView(h, h1, o) && Seen(h1, h2, live, o) && Covers(h1, h1[o], h1.Keys);
      if h1[o].Table? {
        SameStrings(h, h1, o);
      }
    }
  }

  lemma PurgedNone(h: Memory, live: set<Ref>)
    ensures PurgedHeap(h, h, live)
  {
  }

  lemma TidiedSeen(h: Memory, h': Memory, live: set<Ref>)
    requires Tidied(h, h') && live <= h.Keys
    ensures AllSeenAs(h, h', live)
  {
    PurgedNone(h', live);
    TidiedPurged(h, h', h', live);
    SameViewsNone(h', live);
    PurgedSeen(h, h', h', live);
  }

  /** What is kept alive is reachable, hence live. */
  lemma KeptAliveLive(h: Memory, m: Marks, white: Colour, twups: seq<Ref>, roots: seq<Ref>)
    requires Sound(h, m, white, twups, roots)
    ensures forall r :: KeptAlive(h, RootSet(roots), r) ==> r in LiveSet(m, white)
  {
    hide Covers, Shape, TwupsOk, OpenIn, Typed, UpvalsGray, Holds;
    var live := LiveSet(m, white);
    forall r | r in RootSet(roots) ensures r in live {
      var i :| 0 <= i < |roots| && roots[i] == r;
      assert RefIn(roots[i], live);
    }
    forall o | o in live && o in h ensures Holds(h, h[o], live, false) {
      CoversHolds(h, h[o], live, false);
    }
    assert Kept(h, live, false);
  }

  lemma KeptAliveIn(h: Memory, roots: seq<Ref>, s: set<Ref>)
    requires Kept(h, s, false) && RefsIn(roots, s)
    ensures forall r :: KeptAlive(h, RootSet(roots), r) ==> r in s
  {
    forall r | r in RootSet(roots) ensures r in s {
      var i :| 0 <= i < |roots| && roots[i] == r;
      assert RefIn(roots[i], s);
    }
  }

  lemma SweptNone(m: Marks, white: Colour, allgc: seq<Ref>)
    ensures SweptTo(m, white, allgc, |allgc|)
  {
  }

  /** After a sweep to the end all objects have the current white. */
  lemma AllWhite(h: Memory, m: Marks, white: Colour, allgc: seq<Ref>)
    requires m.Keys == h.Keys && AllListed(h, allgc) && SweptTo(m, white, allgc, 0)
    ensures forall r :: r in m ==> m[r] == white
  {
    forall r | r in m ensures m[r] == white {
      assert r in Elems(allgc);
    }
  }

  /** With everything white and all lists empty a collection can start. */
  lemma FreshMarks(h: Memory, m: Marks, white: Colour)
    requires m.Keys == h.Keys && white.IsWhite() && Shape(h) && forall r :: r in m ==> m[r] == white
    ensures MarkInv(h, m, white, Sum([], [], [], [], [], multiset{}), {}, h.Keys, {}) && OnlyWhite(m, white)
    ensures Marked(m) == {}
  {
  }

  /** Before the atomic step open upvalues are gray or white. */
  lemma InvUpvals(h: Memory, m: Marks, white: Colour, all: multiset<Ref>, late: set<Ref>, settled: set<Ref>)
    requires MarkInv(h, m, white, all, {}, late, settled)
    ensures UpvalsGray(h, m) && OnlyWhite(m, white)
  {
  }

  lemma OpenInTidied(h: Memory, h': Memory, twups: seq<Ref>, twups': seq<Ref>)
    requires Tidied(h, h') && OpenIn(h, twups, h.Keys) && forall th :: th in twups ==> th in twups'
    ensures OpenIn(h', twups', h'.Keys)
  {
  }

  lemma NoneSettled(h: Memory, twups: seq<Ref>)
    ensures Settled(h, twups, false) == {}
  {
  }

  lemma SoundTwups(h: Memory, m: Marks, white: Colour, twups: seq<Ref>, roots: seq<Ref>)
    requires Sound(h, m, white, twups, roots)
    ensures TwupsOk(h, twups) && RefsIn(roots, LiveSet(m, white))
  {
  }

  lemma RootsIn(main: Ref, registry: Ref, cache: Ref, mts: seq<Ref>, roots: seq<Ref>, s: set<Ref>)
    requires |roots| == 4 + |mts| && roots[0] == main && roots[2] == registry && roots[3] == cache
    requires forall i :: 0 <= i < |mts| ==> mts[i] == roots[4 + i]
    requires RefsIn(roots, s)
    ensures RefIn(main, s) && RefIn(registry, s) && RefIn(cache, s) && RefsIn(mts, s)
  {
    forall i | 0 <= i < |mts| ensures RefIn(mts[i], s) {
      assert RefIn(roots[4 + i], s);
    }
  }

  lemma WholeShape(h: Memory)
    requires Whole(h)
    ensures Shape(h)
  {
  }

  lemma OnlyOne(m: Marks, white: Colour)
    requires forall r :: r in m ==> m[r] == white
    ensures OnlyWhite(m, white)
  {
  }

  lemma TidiedKeys(h: Memory, h': Memory)
    requires Tidied(h, h')
    ensures h'.Keys == h.Keys
  {
  }

  lemma SameListed(h: Memory, h': Memory, allgc: seq<Ref>)
    requires AllListed(h, allgc) && h'.Keys == h.Keys
    ensures AllListed(h', allgc)
  {
  }

  lemma SameViewsIn(h: Memory, h': Memory, s: set<Ref>)
    requires SameViews(h, h', s)
    ensures s <= h.Keys && s <= h'.Keys
  {
    forall o | o in s ensures o in h' {
      assert SameView(h, h', o);
    }
  }

  lemma KeptViews(h: Memory, h': Memory, s: set<Ref>)
    requires SameViews(h, h', h'.Keys) && Kept(h, s, true)
    ensures Kept(h', s, true)
  {
    forall o | o in s && o in h'
      ensures Holds(h', h'[o], s, true)
    {
      assert SameView(h, h', o) && Holds(h, h[o], s, true);
      forall r ensures IsStr(h', r) ==> IsStr(h, r) {
        if r in h' {
          assert SameView(h, h', r);
        }
      }
    }
  }

  lemma KeptViewsBack(h: Memory, h': Memory, s: set<Ref>)
    requires SameViews(h, h', h'.Keys) && Kept(h', s, false) && s <= h'.Keys
    ensures Kept(h, s, false)
  {
    forall o | o in s && o in h
      ensures Holds(h, h[o], s, false)
    {
      assert SameView(h, h', o) && Holds(h', h'[o], s, false);
    }
  }

  lemma GraySound(h: Memory, m: Marks, white: Colour, twups: seq<Ref>, roots: seq<Ref>, o: Ref)
    requires Sound(h, m, white, twups, roots) && o in m && m[o].Black?
    ensures Sound(h, m[o := Gray], white, twups, roots)
    ensures LiveSet(m[o := Gray], white) == LiveSet(m, white)
  {
    assert LiveSet(m[o := Gray], white) == LiveSet(m, white);
    SoundRecolour(h, m, m[o := Gray], white, twups, roots);
  }

  /** Black objects are still to be swept. */
  lemma SweptKept(m: Marks, m': Marks, white: Colour, allgc: seq<Ref>, left: nat)
    requires SweptTo(m, white, allgc, left) && m'.Keys == m.Keys && white.IsWhite()
    requires forall r :: r in m && m[r].IsWhite() ==> m'[r] == m[r]
    ensures SweptTo(m', white, allgc, left)
  {
  }

  /** A sound heap in which everything is live is whole. */
  lemma SoundAllLive(h: Memory, m: Marks, white: Colour, twups: seq<Ref>, roots: seq<Ref>)
    requires Sound(h, m, white, twups, roots) && LiveSet(m, white) == h.Keys
    ensures Whole(h) && TwupsOk(h, twups) && OpenIn(h, twups, h.Keys) && RefsIn(roots, h.Keys) && m.Keys == h.Keys
  {
  }

  lemma LiveKnown(m: Marks, white: Colour, v: Ref)
    requires RefIn(v, LiveSet(m, white))
    ensures v != 0 ==> v in m
  {
  }
}
