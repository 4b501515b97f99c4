// The tri-colour invariant of the marking phase, and how single changes of colour keep it.
module GcMarking {
  import opened GcObjects

  /** Every white object has the white `white`. */
  ghost predicate OnlyWhite(m: Marks, white: Colour) {
    forall r :: r in m && m[r].IsWhite() ==> m[r] == white
  }

  ghost predicate Waits(h: Memory, m: Marks, r: Ref) {
    r in m && r in h && m[r].Gray? && !h[r].UpOpen?
  }

  /** The gray lists, taken together, hold each gray object once and nothing else; open
      upvalues are gray outside all lists. */
  ghost predicate Listed(h: Memory, m: Marks, all: multiset<Ref>) {
    && (forall r :: Waits(h, m, r) ==> all[r] == 1 && Linkable(h[r]))
    && (forall r :: r in all ==> Waits(h, m, r))
  }

  /** No black object refers to a white one, but for the objects in `ex`. */
  ghost predicate BlackDone(h: Memory, m: Marks, ex: set<Ref>) {
    forall o :: o in h && o in m && m[o].Black? && o !in ex ==> Covers(h, h[o], Marked(m))
  }

  ghost predicate UpvalDone(h: Memory, m: Marks, late: set<Ref>, u: Ref)
    requires u in h && h[u].UpOpen?
  {
    || RefIn(StackSlot(h, h[u].owner, h[u].level), Marked(m))
    || h[u].owner in Marked(m)
    || h[u].owner in late
  }

  /** The value of a visited open upvalue is marked, or will be: its thread is marked, or is one
      of those whose upvalues are looked at late. */
  ghost predicate UpvalsDone(h: Memory, m: Marks, ex: set<Ref>, late: set<Ref>) {
    forall u :: u in h && u in m && h[u].UpOpen? && !m[u].IsWhite() && u !in ex ==> UpvalDone(h, m, late, u)
  }

  /** Threads that may be black: none before the atomic phase, since writes to a stack have no
      barrier, and then those whose open upvalues, if any, are known to the collector. */
  ghost function Settled(h: Memory, twups: seq<Ref>, atomic: bool): set<Ref> {
    if atomic then set th | th in h && h[th].Thread? && (h[th].open == [] || th in twups) else {}
  }

  /** Open upvalues are never black, and threads only when they are settled. */
  ghost predicate NeverBlack(h: Memory, m: Marks, ex: set<Ref>, settled: set<Ref>) {
    forall o :: o in h && o in m && m[o].Black? && o !in ex ==>
      !h[o].UpOpen? && (h[o].Thread? ==> o in settled)
  }

  ghost predicate MarkInv(h: Memory, m: Marks, white: Colour, all: multiset<Ref>, ex: set<Ref>, late: set<Ref>,
                          settled: set<Ref>) {
    && m.Keys == h.Keys
    && OnlyWhite(m, white)
    && Listed(h, m, all)
    && BlackDone(h, m, ex)
    && UpvalsDone(h, m, ex, late)
    && NeverBlack(h, m, ex, settled)
  }

  /** From `m` to `m'` only white objects changed colour. */
  ghost predicate Grew(m: Marks, m': Marks) {
    m'.Keys == m.Keys && forall r :: r in m && !m[r].IsWhite() ==> m'[r] == m[r]
  }

  /** Whatever was marked in `m` is marked in `m'`. */
  ghost predicate More(m: Marks, m': Marks) {
    m'.Keys == m.Keys && Marked(m) <= Marked(m')
  }

  /** From `m` to `m'` only white strings changed colour. */
  ghost predicate GrewByStrings(h: Memory, m: Marks, m': Marks) {
    m'.Keys == m.Keys && forall r :: r in m && m'[r] != m[r] ==> m[r].IsWhite() && IsStr(h, r) && m'[r].Black?
  }

  ghost function Whites(m: Marks): set<Ref> {
    set r | r in m && m[r].IsWhite()
  }

  lemma GrewWhites(m: Marks, m': Marks)
    requires Grew(m, m')
    ensures Whites(m') <= Whites(m) && |Whites(m')| <= |Whites(m)|
    ensures Marked(m) <= Marked(m')
    ensures forall o :: o in Whites(m) && o !in Whites(m') ==> |Whites(m')| < |Whites(m)|
  {
    Smaller(Whites(m'), Whites(m));
  }

  lemma GrewMore(m: Marks, m': Marks)
    requires Grew(m, m')
    ensures More(m, m') && |Whites(m')| <= |Whites(m)|
    ensures forall o :: o in m && m[o].Black? ==> m'[o].Black?
  {
    GrewWhites(m, m');
  }

  /** What is newly marked in `m'` are strings. */
  ghost predicate MoreByStrings(h: Memory, m: Marks, m': Marks) {
    More(m, m') && forall r :: r in Marked(m') && r !in Marked(m) ==> IsStr(h, r)
  }

  lemma StringsMore(h: Memory, m: Marks, m': Marks)
    ensures GrewByStrings(h, m, m') ==> MoreByStrings(h, m, m')
  {
    if GrewByStrings(h, m, m') {
      StringsGrew(h, m, m');
    }
  }

  lemma StringsGrew(h: Memory, m: Marks, m': Marks)
    requires GrewByStrings(h, m, m')
    ensures Grew(m, m')
  {
    forall r | r in m && !m[r].IsWhite() ensures m'[r] == m[r] { }
  }

  lemma GrewNone(h: Memory, m: Marks)
    ensures Grew(m, m) && GrewByStrings(h, m, m)
  {
  }

  lemma GrewJoin(h: Memory, m: Marks, m1: Marks, m2: Marks)
    requires Grew(m, m1) && Grew(m1, m2)
    ensures Grew(m, m2) && Marked(m) <= Marked(m1) <= Marked(m2)
    ensures GrewByStrings(h, m, m1) && GrewByStrings(h, m1, m2) ==> GrewByStrings(h, m, m2)
  {
    GrewTwice(m, m1, m2);
  }

  /** One white object more is marked. */
  lemma GrewOne(m: Marks, o: Ref, colour: Colour)
    requires o in m && m[o].IsWhite() && !colour.IsWhite()
    ensures Grew(m, m[o := colour]) && |Whites(m[o := colour])| < |Whites(m)|
    ensures Marked(m[o := colour]) == Marked(m) + {o}
  {
    assert o in Whites(m);
    GrewWhites(m, m[o := colour]);
  }

  lemma GrewTwice(m: Marks, m1: Marks, m2: Marks)
    requires Grew(m, m1) && Grew(m1, m2)
    ensures Grew(m, m2) && Marked(m) <= Marked(m1) <= Marked(m2)
    ensures |Whites(m2)| <= |Whites(m1)| <= |Whites(m)|
  {
    GrewWhites(m, m1);
    GrewWhites(m1, m2);
  }

  lemma Smaller(a: set<Ref>, b: set<Ref>)
    requires a <= b
    ensures |a| <= |b| && forall o :: o in b && o !in a ==> |a| < |b|
  {
    assert b == a + (b - a);
  }

  lemma BlackDoneMore(h: Memory, m: Marks, m': Marks, ex: set<Ref>, ex': set<Ref>)
    requires BlackDone(h, m, ex) && Marked(m) <= Marked(m') && ex <= ex'
    requires forall o :: o in h && o in m' && m'[o].Black? && o !in ex' ==> o in m && m[o].Black?
    ensures BlackDone(h, m', ex')
  {
    forall o | o in h && o in m' && m'[o].Black? && o !in ex'
      ensures Covers(h, h[o], Marked(m'))
    {
      CoversMore(h, h[o], Marked(m), Marked(m'));
    }
  }

  lemma UpvalsDoneMore(h: Memory, m: Marks, m': Marks, ex: set<Ref>, ex': set<Ref>, late: set<Ref>)
    requires UpvalsDone(h, m, ex, late) && Marked(m) <= Marked(m') && ex <= ex'
    requires forall o :: o in h && o in m' && h[o].UpOpen? && !m'[o].IsWhite() && o !in ex' ==>
               o in m && !m[o].IsWhite()
    ensures UpvalsDone(h, m', ex', late)
  {
    forall u | u in h && u in m' && h[u].UpOpen? && !m'[u].IsWhite() && u !in ex'
      ensures UpvalDone(h, m', late, u)
    {
      assert UpvalDone(h, m, late, u);
    }
  }

  function Linked(c: Cell, colour: Colour, o: Ref): multiset<Ref> {
    if colour.Gray? && !c.UpOpen? then multiset{o} else multiset{}
  }

  lemma RecolourListed(h: Memory, m: Marks, all: multiset<Ref>, all': multiset<Ref>, o: Ref, colour: Colour)
    requires m.Keys == h.Keys && Listed(h, m, all) && o in h && !colour.IsWhite()
    requires colour.Gray? && !h[o].UpOpen? ==> Linkable(h[o])
    requires all' == all - Linked(h[o], m[o], o) + Linked(h[o], colour, o)
    ensures Listed(h, m[o := colour], all')
  {
    hide Linkable;
    assert Waits(h, m, o) ==> all[o] == 1;
    assert !Waits(h, m, o) ==> o !in all;
    forall r
      ensures r != o ==> Waits(h, m[o := colour], r) == Waits(h, m, r) && all'[r] == all[r]
    {
    }
  }

  /** An object may turn gray or black at any time, at the price of an exception. */
  lemma Recolour(h: Memory, m: Marks, white: Colour, all: multiset<Ref>, all': multiset<Ref>, ex: set<Ref>,
                 late: set<Ref>, settled: set<Ref>, o: Ref, colour: Colour)
    requires MarkInv(h, m, white, all, ex, late, settled) && o in h && !colour.IsWhite()
    requires colour.Gray? && !h[o].UpOpen? ==> Linkable(h[o])
    requires all' == all - Linked(h[o], m[o], o) + Linked(h[o], colour, o)
    ensures MarkInv(h, m[o := colour], white, all', ex + {o}, late, settled)
  {
    hide Listed, Linkable, Covers, UpvalDone, Linked;
    var m' := m[o := colour];
    assert Marked(m) <= Marked(m');
    BlackDoneMore(h, m, m', ex, ex + {o});
    UpvalsDoneMore(h, m, m', ex, ex + {o}, late);
    RecolourListed(h, m, all, all', o, colour);
  }

  /** An object that is visited to the end needs no exception any more. */
  lemma Settle(h: Memory, m: Marks, white: Colour, all: multiset<Ref>, ex: set<Ref>, late: set<Ref>, settled: set<Ref>,
               o: Ref)
    requires MarkInv(h, m, white, all, ex + {o}, late, settled) && o in h
    requires m[o].Black? ==>
               Covers(h, h[o], Marked(m)) && !h[o].UpOpen? && (h[o].Thread? ==> o in settled)
    requires h[o].UpOpen? && !m[o].IsWhite() ==> UpvalDone(h, m, late, o)
    ensures MarkInv(h, m, white, all, ex, late, settled)
  {
  }

  lemma TrimKeeps(h: Memory, h': Memory, m: Marks, white: Colour, all: multiset<Ref>, ex: set<Ref>,
                  late: set<Ref>, settled: set<Ref>)
    requires MarkInv(h, m, white, all, ex, late, settled) && TrimmedHeap(h, h')
    ensures MarkInv(h', m, white, all, ex, late, settled)
  {
    TrimmedParts(h, h');
    forall o | o in h
      ensures Trimmed(h[o], h'[o]) && h'[o].UpOpen? == h[o].UpOpen? && Linkable(h'[o]) == Linkable(h[o])
    {
    }
    forall r ensures Waits(h', m, r) == Waits(h, m, r) { }
    forall o | o in h' && m[o].Black? && o !in ex
      ensures Covers(h', h'[o], Marked(m))
    {
      TrimmedCovers(h, h', o, Marked(m));
    }
    forall u | u in h' && h'[u].UpOpen? && !m[u].IsWhite() && u !in ex
      ensures UpvalDone(h', m, late, u)
    {
      assert UpvalDone(h, m, late, u) && Parts(h', h'[u]) == Parts(h, h[u]) && Trimmed(h[u], h'[u]);
      assert Parts(h', h'[u])[0] == StackSlot(h', h[u].owner, h[u].level);
    }
  }

  ghost function Sum(a: seq<Ref>, b: seq<Ref>, c: seq<Ref>, d: seq<Ref>, e: seq<Ref>, extra: multiset<Ref>):
    multiset<Ref>
  {
    multiset(a) + multiset(b) + multiset(c) + multiset(d) + multiset(e) + extra
  }

  lemma SumPush(o: Ref, a: seq<Ref>, b: seq<Ref>, c: seq<Ref>, d: seq<Ref>, e: seq<Ref>, extra: multiset<Ref>)
    ensures Sum([o] + a, b, c, d, e, extra) == Sum(a, b, c, d, e, extra) + multiset{o}
    ensures Sum(a, [o] + b, c, d, e, extra) == Sum(a, b, c, d, e, extra) + multiset{o}
    ensures Sum(a, b, [o] + c, d, e, extra) == Sum(a, b, c, d, e, extra) + multiset{o}
    ensures Sum(a, b, c, [o] + d, e, extra) == Sum(a, b, c, d, e, extra) + multiset{o}
    ensures Sum(a, b, c, d, [o] + e, extra) == Sum(a, b, c, d, e, extra) + multiset{o}
  {
    forall s: seq<Ref>
      ensures multiset([o] + s) == multiset(s) + multiset{o}
    {
    }
  }

  lemma SumMove(a: seq<Ref>, b: seq<Ref>, c: seq<Ref>, d: seq<Ref>, e: seq<Ref>)
    ensures Sum(a, b, c, d, [], multiset(e)) == Sum(a, b, c, d, e, multiset{})
  {
  }

  lemma SumAside(a: seq<Ref>, b: seq<Ref>, c: seq<Ref>, d: seq<Ref>, e: seq<Ref>)
    ensures Sum(a, [], c, d, e, multiset(b)) == Sum(a, b, c, d, e, multiset{})
  {
  }

  lemma SumBack(b: seq<Ref>, c: seq<Ref>, d: seq<Ref>, e: seq<Ref>)
    ensures Sum(b, [], c, d, e, multiset{}) == Sum([], [], c, d, e, multiset(b))
  {
  }

  lemma SumTail(a: seq<Ref>, b: seq<Ref>, c: seq<Ref>, d: seq<Ref>, e: seq<Ref>, next: seq<Ref>)
    requires next != []
    ensures Sum(a, b, c, d, e, multiset(next)) - multiset{next[0]} == Sum(a, b, c, d, e, multiset(next[1..]))
    ensures next[0] in Sum(a, b, c, d, e, multiset(next))
  {
    assert next == [next[0]] + next[1..];
  }

  lemma SumHas(a: seq<Ref>, b: seq<Ref>, c: seq<Ref>, d: seq<Ref>, e: seq<Ref>, extra: multiset<Ref>, o: Ref)
    ensures o in a || o in b || o in c || o in d || o in e || o in extra <==> o in Sum(a, b, c, d, e, extra)
  {
  }

  // ---------------------------------------------------------------- one object

  lemma MarkBlack(h: Memory, m: Marks, white: Colour, all: multiset<Ref>, ex: set<Ref>, late: set<Ref>,
                  settled: set<Ref>, o: Ref)
    requires MarkInv(h, m, white, all, ex, late, settled) && o in h && m[o].IsWhite()
    requires !h[o].UpOpen? && !h[o].Thread? && Covers(h, h[o], Marked(m))
    ensures MarkInv(h, m[o := Black], white, all, ex, late, settled)
  {
    hide Listed, Linkable, Covers, UpvalDone;
    Recolour(h, m, white, all, all, ex, late, settled, o, Black);
    CoversMore(h, h[o], Marked(m), Marked(m[o := Black]));
    Settle(h, m[o := Black], white, all, ex, late, settled, o);
  }

  lemma MarkGray(h: Memory, m: Marks, white: Colour, all: multiset<Ref>, ex: set<Ref>, late: set<Ref>,
                 settled: set<Ref>, o: Ref)
    requires MarkInv(h, m, white, all, ex + {o}, late, settled) && o in h && !m[o].Gray? && Linkable(h[o])
    ensures MarkInv(h, m[o := Gray], white, all + multiset{o}, ex, late, settled)
  {
    hide Listed, Covers, UpvalDone;
    assert ex + {o} + {o} == ex + {o};
    Recolour(h, m, white, all, all + multiset{o}, ex + {o}, late, settled, o, Gray);
    Settle(h, m[o := Gray], white, all + multiset{o}, ex, late, settled, o);
  }

  lemma Except(h: Memory, m: Marks, white: Colour, all: multiset<Ref>, ex: set<Ref>, late: set<Ref>,
               settled: set<Ref>, o: Ref)
    requires MarkInv(h, m, white, all, ex, late, settled)
    ensures MarkInv(h, m, white, all, ex + {o}, late, settled)
  {
  }

  lemma VisitUpvalue(h: Memory, m: Marks, white: Colour, all: multiset<Ref>, ex: set<Ref>, late: set<Ref>,
                     settled: set<Ref>, o: Ref)
    requires MarkInv(h, m, white, all, ex, late, settled) && o in h && m[o].IsWhite()
    requires h[o].UpOpen? || h[o].UpClosed?
    ensures MarkInv(h, m[o := if h[o].UpOpen? then Gray else Black], white, all, ex + {o}, late, settled)
  {
    Recolour(h, m, white, all, all, ex, late, settled, o, if h[o].UpOpen? then Gray else Black);
  }

  lemma LeaveUpvalue(h: Memory, m: Marks, white: Colour, all: multiset<Ref>, ex: set<Ref>, late: set<Ref>,
                     settled: set<Ref>, o: Ref)
    requires MarkInv(h, m, white, all, ex + {o}, late, settled) && o in h
    requires m[o] == if h[o].UpOpen? then Gray else Black
    requires h[o].UpOpen? || h[o].UpClosed?
    requires RefsIn(Parts(h, h[o]), Marked(m))
    ensures MarkInv(h, m, white, all, ex, late, settled)
  {
    assert RefIn(Parts(h, h[o])[0], Marked(m));
    Settle(h, m, white, all, ex, late, settled, o);
  }

  /** Taken out of a gray list to be visited: black, with its references still to be marked. */
  lemma PopGray(h: Memory, m: Marks, white: Colour, all: multiset<Ref>, ex: set<Ref>, late: set<Ref>,
                settled: set<Ref>, o: Ref)
    requires MarkInv(h, m, white, all, ex, late, settled) && o in all
    ensures o in h && m[o].Gray? && Linkable(h[o])
    ensures MarkInv(h, m[o := Black], white, all - multiset{o}, ex + {o}, late, settled)
  {
    assert Waits(h, m, o);
    Recolour(h, m, white, all, all - multiset{o}, ex, late, settled, o, Black);
  }

  // ---------------------------------------------------------------- tables

  /** clearkey: the key of an empty entry is forgotten, so that it may be collected. */
  function CleanNode(n: Node): Node {
    if n.val.Empty? && n.key.LiveKey? && n.key.k != 0 then Node(DeadKey, Empty) else n
  }

  predicate Clean(n: Node) { CleanNode(n) == n }

  predicate AllClean(ns: seq<Node>) {
    forall i :: 0 <= i < |ns| ==> Clean(ns[i])
  }

  function CleanNodes(ns: seq<Node>): (r: seq<Node>)
    ensures |r| == |ns| && forall i :: 0 <= i < |ns| ==> r[i] == CleanNode(ns[i])
  {
    seq(|ns|, i requires 0 <= i < |ns| => CleanNode(ns[i]))
  }

  function CleanCell(c: Cell): Cell {
    if c.Table? then c.(nodes := CleanNodes(c.nodes)) else c
  }

  /** Traversals change nothing in a heap but the keys of empty entries. */
  ghost predicate Tidied(h: Memory, h': Memory) {
    h'.Keys == h.Keys && forall o :: o in h ==> h'[o] == h[o] || h'[o] == CleanCell(h[o])
  }

  lemma TidiedTwice(h: Memory, h1: Memory, h2: Memory)
    requires Tidied(h, h1) && Tidied(h1, h2)
    ensures Tidied(h, h2)
  {
    forall o | o in h
      ensures h2[o] == h[o] || h2[o] == CleanCell(h[o])
    {
      if h[o].Table? {
        assert CleanNodes(CleanNodes(h[o].nodes)) == CleanNodes(h[o].nodes);
      }
    }
  }

  lemma TidiedTrims(h: Memory, h': Memory)
    requires Tidied(h, h')
    ensures TrimmedHeap(h, h')
  {
  }

  /** What is known of a table in the list `weak`: only its values can be white. */
  predicate WeakOk(c: Cell, marked: set<Ref>) {
    && c.Table? && c.weakVals && RefIn(c.tmeta, marked)
    && forall i :: 0 <= i < |c.nodes| ==> Clean(c.nodes[i]) && KeyIn(c.nodes[i].key, marked)
  }

  /** In the list `allweak`: an ephemeron table there has marked values. */
  predicate AllWeakOk(c: Cell, marked: set<Ref>) {
    && c.Table? && c.weakKeys && RefIn(c.tmeta, marked)
    && (!c.weakVals ==> SlotsIn(c.arr, marked) && AllClean(c.nodes)
                        && forall i :: 0 <= i < |c.nodes| ==> SlotIn(c.nodes[i].val, marked))
  }

  /** In the list `ephemeron`: entries may still have to pass a mark from key to value. */
  predicate EphemeronOk(c: Cell, marked: set<Ref>) {
    && c.Table? && c.weakKeys && !c.weakVals && RefIn(c.tmeta, marked)
    && SlotsIn(c.arr, marked) && AllClean(c.nodes)
  }

  ghost predicate AllOk(h: Memory, m: Marks, weak: seq<Ref>, allweak: seq<Ref>, ephemeron: seq<Ref>) {
    && (forall t :: t in weak ==> t in h && WeakOk(h[t], Marked(m)))
    && (forall t :: t in allweak ==> t in h && AllWeakOk(h[t], Marked(m)))
    && (forall t :: t in ephemeron ==> t in h && EphemeronOk(h[t], Marked(m)))
  }

  /** More marks, and changes of a table in none of the lists, leave them as they should be. */
  lemma AllOkMore(h: Memory, m: Marks, h': Memory, m': Marks, weak: seq<Ref>, allweak: seq<Ref>,
                  ephemeron: seq<Ref>, o: Ref)
    requires AllOk(h, m, weak, allweak, ephemeron) && Marked(m) <= Marked(m')
    requires h'.Keys == h.Keys && forall t :: t in h && t != o ==> h'[t] == h[t]
    requires o !in weak && o !in allweak && o !in ephemeron
    ensures AllOk(h', m', weak, allweak, ephemeron)
  {
  }

  lemma AllOkMarks(h: Memory, m: Marks, m': Marks, weak: seq<Ref>, allweak: seq<Ref>, ephemeron: seq<Ref>)
    requires AllOk(h, m, weak, allweak, ephemeron) && Marked(m) <= Marked(m')
    ensures AllOk(h, m', weak, allweak, ephemeron)
  {
  }

  /** No mark has to pass from the key of the entry to its value: the value is marked, or the
      key is a white object that is not a string. */
  ghost predicate EntryDone(h: Memory, n: Node, marked: set<Ref>) {
    n.val.Val? ==>
      SlotIn(n.val, marked) || (n.key.LiveKey? && !RefIn(n.key.k, marked) && !IsStr(h, n.key.k))
  }

  ghost predicate EntriesDone(h: Memory, ns: seq<Node>, marked: set<Ref>) {
    forall i :: 0 <= i < |ns| ==> EntryDone(h, ns[i], marked)
  }

  /** Marks of strings do not undo an entry. */
  lemma EntriesStay(h: Memory, ns: seq<Node>, m: Marks, m': Marks)
    ensures GrewByStrings(h, m, m') ==>
              forall i :: 0 <= i < |ns| && EntryDone(h, ns[i], Marked(m)) ==> EntryDone(h, ns[i], Marked(m'))
  {
  }

  /** Has a traversal of `n` nodes come to node `j` in its first `i` steps? */
  predicate Seen(inv: bool, n: nat, i: nat, j: int) {
    if inv then n - i <= j else j < i
  }

  /** The cell of an ephemeron table after its traversal. */
  lemma CellClean(c: Cell, nodes: seq<Node>)
    requires c.Table? && nodes == CleanNodes(c.nodes)
    ensures CleanCell(c) == c.(nodes := nodes) && AllClean(nodes)
  {
  }

  lemma StringsTidied(h: Memory, h': Memory, m: Marks, m1: Marks, m2: Marks, ns: seq<Node>)
    requires Tidied(h, h') && Marked(m1) == Marked(m2) && m1.Keys == m2.Keys
    ensures MoreByStrings(h, m, m1) ==> MoreByStrings(h', m, m2)
    ensures EntriesDone(h, ns, Marked(m1)) ==> EntriesDone(h', ns, Marked(m2))
  {
    forall r ensures IsStr(h', r) == IsStr(h, r) { }
    if EntriesDone(h, ns, Marked(m1)) {
      forall i | 0 <= i < |ns| ensures EntryDone(h', ns[i], Marked(m2)) {
        assert EntryDone(h, ns[i], Marked(m1));
      }
    }
  }

  lemma AllOkPush(h: Memory, m: Marks, weak: seq<Ref>, allweak: seq<Ref>, ephemeron: seq<Ref>, next: seq<Ref>,
                  o: Ref)
    requires AllOk(h, m, weak, allweak, ephemeron + next) && o in h && o in m && m[o].Black?
    ensures AllOk(h, m[o := Gray], weak, allweak, ephemeron + next)
    ensures WeakOk(h[o], Marked(m)) ==> AllOk(h, m[o := Gray], [o] + weak, allweak, ephemeron + next)
    ensures AllWeakOk(h[o], Marked(m)) ==> AllOk(h, m[o := Gray], weak, [o] + allweak, ephemeron + next)
    ensures EphemeronOk(h[o], Marked(m)) ==> AllOk(h, m[o := Gray], weak, allweak, [o] + ephemeron + next)
  {
    SameMarks(m, o);
    assert [o] + ephemeron + next == [o] + (ephemeron + next);
  }

  lemma SameMarks(m: Marks, o: Ref)
    requires o in m && !m[o].IsWhite()
    ensures Marked(m[o := Gray]) == Marked(m) && Whites(m[o := Gray]) == Whites(m)
  {
  }

  lemma TidiedNone(h: Memory)
    ensures Tidied(h, h)
  {
  }

  /** A thread visited in the atomic phase is black for good, once it is in the list `twups`. */
  lemma SettleThread(h: Memory, m: Marks, white: Colour, all: multiset<Ref>, late: set<Ref>, twups: seq<Ref>, o: Ref)
    requires MarkInv(h, m, white, all, {o}, late, Settled(h, twups, true)) && o in h && h[o].Thread?
    requires Covers(h, h[o], Marked(m))
    ensures o !in twups && h[o].open != [] ==>
              MarkInv(h, m, white, all, {}, late, Settled(h, [o] + twups, true))
    ensures o in twups || h[o].open == [] ==> MarkInv(h, m, white, all, {}, late, Settled(h, twups, true))
  {
    hide Covers, Listed;
    var t := if o in twups || h[o].open == [] then twups else [o] + twups;
    assert o in Settled(h, t, true) && Settled(h, twups, true) <= Settled(h, t, true);
    assert {} + {o} == {o};
    Settle(h, m, white, all, {}, late, Settled(h, t, true), o);
  }

  /** The list `twups` holds threads, each once. */
  ghost predicate TwupsOk(h: Memory, twups: seq<Ref>) {
    && (forall i :: 0 <= i < |twups| ==> twups[i] in h && h[twups[i]].Thread?)
    && (forall i, j :: 0 <= i < j < |twups| ==> twups[i] != twups[j])
  }

  /** The threads of `s` with open upvalues are in `twups`. */
  ghost predicate OpenIn(h: Memory, twups: seq<Ref>, s: set<Ref>) {
    forall th :: th in h && th in s && h[th].Thread? && h[th].open != [] ==> th in twups
  }

  ghost function Elems(rs: seq<Ref>): set<Ref> {
    set r | r in rs
  }

  /** At the start of the atomic step: the upvalues to be looked at late are those of `twups`. */
  lemma LateThreads(h: Memory, m: Marks, white: Colour, all: multiset<Ref>, twups: seq<Ref>)
    requires Whole(h) && MarkInv(h, m, white, all, {}, h.Keys, Settled(h, twups, false)) && OpenIn(h, twups, h.Keys)
    ensures MarkInv(h, m, white, all, {}, Elems(twups), Settled(h, twups, true))
  {
    hide Listed, Covers;
    forall u | u in h && h[u].UpOpen? && !m[u].IsWhite()
      ensures UpvalDone(h, m, Elems(twups), u)
    {
      assert OpenAt(h, u);
    }
  }

  lemma AllOkNone(h: Memory, m: Marks)
    ensures AllOk(h, m, [], [], [])
  {
  }

  lemma RefsInMore(rs: seq<Ref>, m: Marks, m': Marks)
    requires RefsIn(rs, Marked(m)) && More(m, m')
    ensures RefsIn(rs, Marked(m'))
  {
  }

  lemma TwupsTidied(h: Memory, h': Memory, twups: seq<Ref>)
    requires Tidied(h, h')
    ensures TwupsOk(h, twups) ==> TwupsOk(h', twups)
  {
  }

  lemma TwupsPush(h: Memory, twups: seq<Ref>, o: Ref)
    requires o in h && h[o].Thread?
    ensures TwupsOk(h, twups) && o !in twups ==> TwupsOk(h, [o] + twups)
  {
  }

  lemma AllOkPop(h: Memory, m: Marks, weak: seq<Ref>, allweak: seq<Ref>, ephemeron: seq<Ref>, next: seq<Ref>)
    requires AllOk(h, m, weak, allweak, ephemeron + next) && next != []
    ensures next[0] in h && EphemeronOk(h[next[0]], Marked(m))
    ensures AllOk(h, m, weak, allweak, ephemeron + next[1..])
  {
    assert next[0] in ephemeron + next;
    forall t | t in ephemeron + next[1..] ensures t in ephemeron + next { }
  }

  /** An entry `n'` in place of `n`, in a traversal that has seen it or not. */
  ghost predicate NodeSeen(h: Memory, n: Node, n': Node, seen: bool, marked: bool, clears: bool, ww: bool,
                           m: Marks) {
    if !seen then n' == n
    else
      && n' == CleanNode(n)
      && (!marked ==> EntryDone(h, n', Marked(m)))
      && (!clears ==> KeyIn(n'.key, Marked(m)))
      && (!ww ==> SlotIn(n'.val, Marked(m)))
  }

  ghost predicate NodesSeen(h: Memory, ns: seq<Node>, ns': seq<Node>, inv: bool, i: nat, marked: bool, clears: bool,
                            ww: bool, m: Marks) {
    && |ns'| == |ns|
    && forall j :: 0 <= j < |ns| ==> NodeSeen(h, ns[j], ns'[j], Seen(inv, |ns|, i, j), marked, clears, ww, m)
  }

  /** The traversal comes to entry `p`. */
  lemma NodesSeenNext(h: Memory, ns: seq<Node>, ns1: seq<Node>, n: Node, inv: bool, i: nat, p: nat, marked1: bool,
                      clears1: bool, ww1: bool, m1: Marks, marked2: bool, clears2: bool, ww2: bool, m2: Marks)
    requires NodesSeen(h, ns, ns1, inv, i, marked1, clears1, ww1, m1) && i < |ns|
    requires p == (if inv then |ns| - 1 - i else i) && Marked(m1) <= Marked(m2)
    requires (marked1 ==> marked2) && (clears1 ==> clears2) && (ww1 ==> ww2)
    requires !marked2 ==> GrewByStrings(h, m1, m2)
    requires NodeSeen(h, ns[p], n, true, marked2, clears2, ww2, m2)
    ensures NodesSeen(h, ns, ns1[p := n], inv, i + 1, marked2, clears2, ww2, m2)
  {
    hide EntryDone, GrewByStrings;
    EntriesStay(h, ns1, m1, m2);
    forall j | 0 <= j < |ns|
      ensures NodeSeen(h, ns[j], ns1[p := n][j], Seen(inv, |ns|, i + 1, j), marked2, clears2, ww2, m2)
    {
      assert NodeSeen(h, ns[j], ns1[j], Seen(inv, |ns|, i, j), marked1, clears1, ww1, m1);
      assert j != p ==> Seen(inv, |ns|, i + 1, j) == Seen(inv, |ns|, i, j);
    }
  }

  lemma NodesUnseen(h: Memory, ns: seq<Node>, inv: bool, m: Marks)
    ensures NodesSeen(h, ns, ns, inv, 0, false, false, false, m)
  {
  }

  lemma NodeUnseen(h: Memory, ns: seq<Node>, ns': seq<Node>, inv: bool, i: nat, p: nat, marked: bool, clears: bool,
                   ww: bool, m: Marks)
    requires NodesSeen(h, ns, ns', inv, i, marked, clears, ww, m) && i < |ns|
    requires p == if inv then |ns| - 1 - i else i
    ensures p < |ns'| && ns'[p] == ns[p]
  {
    assert NodeSeen(h, ns[p], ns'[p], Seen(inv, |ns|, i, p), marked, clears, ww, m);
  }

  lemma AllSeen(h: Memory, ns: seq<Node>, ns': seq<Node>, inv: bool, marked: bool, clears: bool, ww: bool, m: Marks)
    requires NodesSeen(h, ns, ns', inv, |ns|, marked, clears, ww, m)
    ensures ns' == CleanNodes(ns) && (!marked ==> EntriesDone(h, ns', Marked(m)))
    ensures !clears ==> forall j :: 0 <= j < |ns'| ==> KeyIn(ns'[j].key, Marked(m))
    ensures !ww ==> forall j :: 0 <= j < |ns'| ==> SlotIn(ns'[j].val, Marked(m))
  {
    hide EntryDone;
    forall j | 0 <= j < |ns|
      ensures ns'[j] == CleanNode(ns[j])
    {
      assert NodeSeen(h, ns[j], ns'[j], Seen(inv, |ns|, |ns|, j), marked, clears, ww, m);
    }
  }

  lemma FullClean(n: Node)
    requires n.val.Val?
    ensures CleanNode(n) == n
  {
  }

  lemma EmptyDone(h: Memory, n: Node, marked: set<Ref>)
    requires n.val.Empty?
    ensures EntryDone(h, CleanNode(n), marked) && KeyIn(CleanNode(n).key, marked) && SlotIn(CleanNode(n).val, marked)
  {
  }

  lemma SameBlack(m: Marks, o: Ref)
    requires o in m && !m[o].IsWhite()
    ensures Marked(m[o := Black]) == Marked(m) && Whites(m[o := Black]) == Whites(m) && o in Marked(m)
  {
  }

  lemma MarkedValue(m: Marks, v: Ref)
    ensures v in m && !m[v].IsWhite() ==> RefIn(v, Marked(m))
  {
  }

  lemma LinkableKinds(c: Cell)
    requires Linkable(c)
    ensures !c.UpOpen? && !c.UpClosed? && !c.Str?
  {
  }

  /** No table in the list has an entry with a marked key and a white value. */
  ghost predicate EphemeronsDone(h: Memory, m: Marks, ephemeron: seq<Ref>) {
    forall t :: t in ephemeron ==> t in h && h[t].Table? && EntriesDone(h, h[t].nodes, Marked(m))
  }

  lemma EphemeronsDoneNone(h: Memory, m: Marks)
    ensures EphemeronsDone(h, m, [])
  {
  }

  lemma MoreNone(h: Memory, m: Marks)
    ensures More(m, m)
  {
  }

  lemma EphemeronOkParts(c: Cell, marked: set<Ref>)
    requires EphemeronOk(c, marked)
    ensures c.Table? && c.weakKeys && !c.weakVals && RefIn(c.tmeta, marked)
  {
  }

  lemma EntriesTidied(h: Memory, h': Memory, ns: seq<Node>, m: Marks, m': Marks)
    requires Tidied(h, h') && MoreByStrings(h', m, m') && EntriesDone(h, ns, Marked(m))
    ensures EntriesDone(h', ns, Marked(m')) && EntriesDone(h', CleanNodes(ns), Marked(m'))
  {
    forall r ensures IsStr(h', r) == IsStr(h, r) { }
    forall i | 0 <= i < |ns|
      ensures EntryDone(h', ns[i], Marked(m')) && EntryDone(h', CleanNode(ns[i]), Marked(m'))
    {
      assert EntryDone(h, ns[i], Marked(m));
    }
  }

  /** A visit of `w` that marks at most strings leaves the tables before it done. */
  lemma EphemeronsStay(h: Memory, h': Memory, m: Marks, m1: Marks, m2: Marks, ephemeron: seq<Ref>, w: Ref)
    requires Marked(m1) == Marked(m) && m1.Keys == m.Keys && Tidied(h, h')
    ensures EphemeronsDone(h, m, ephemeron) && MoreByStrings(h', m1, m2) ==> EphemeronsDone(h', m2, ephemeron)
    ensures EphemeronsDone(h', m2, ephemeron)
            && (w in h' && h'[w].Table? && EntriesDone(h', h'[w].nodes, Marked(m2)))
            ==> EphemeronsDone(h', m2, [w] + ephemeron)
  {
    hide EntriesDone;
    if EphemeronsDone(h, m, ephemeron) && MoreByStrings(h', m1, m2) {
      forall t | t in ephemeron
        ensures t in h' && h'[t].Table? && EntriesDone(h', h'[t].nodes, Marked(m2))
      {
        EntriesTidied(h, h', h[t].nodes, m1, m2);
      }
    }
  }

  /** Those of the open upvalues from `j` on that are visited. */
  ghost function Visited(open: seq<Ref>, j: nat, m: Marks): set<Ref> {
    set k | j <= k < |open| && open[k] in m && !m[open[k]].IsWhite() :: open[k]
  }

  ghost predicate UpvalsGray(h: Memory, m: Marks) {
    forall u :: u in h && u in m && h[u].UpOpen? ==> !m[u].Black?
  }

  lemma OpenOf(h: Memory, th: Ref, j: nat)
    requires Whole(h) && th in h && h[th].Thread? && j < |h[th].open|
    ensures h[th].open[j] in h && h[h[th].open[j]].UpOpen? && h[h[th].open[j]].owner == th
  {
    assert OpenList(h, th, h[th].stack, h[th].open);
  }

  lemma LeaveOpen(h: Memory, m: Marks, white: Colour, all: multiset<Ref>, open: seq<Ref>, j: nat, m0: Marks,
                  late: set<Ref>, settled: set<Ref>)
    requires MarkInv(h, m, white, all, Visited(open, j, m0), late, settled) && j < |open|
    requires open[j] in h && h[open[j]].UpOpen? && Grew(m0, m) && UpvalsGray(h, m0)
    requires RefIn(Parts(h, h[open[j]])[0], Marked(m))
    ensures MarkInv(h, m, white, all, Visited(open, j + 1, m0), late, settled)
  {
    hide Listed, Covers;
    var u := open[j];
    assert Visited(open, j, m0) <= Visited(open, j + 1, m0) + {u};
    assert m[u].Black? ==> u !in Visited(open, j, m0);
    assert MarkInv(h, m, white, all, Visited(open, j + 1, m0) + {u}, late, settled);
    Settle(h, m, white, all, Visited(open, j + 1, m0), late, settled, u);
  }

  lemma DropMarked(h: Memory, m: Marks, white: Colour, all: multiset<Ref>, late: set<Ref>, settled: set<Ref>, th: Ref)
    requires MarkInv(h, m, white, all, {}, late, settled) && th in Marked(m)
    ensures MarkInv(h, m, white, all, {}, late - {th}, settled)
  {
    hide Listed, Covers;
    forall u | u in h && u in m && h[u].UpOpen? && !m[u].IsWhite()
      ensures UpvalDone(h, m, late - {th}, u)
    {
      assert UpvalDone(h, m, late, u);
    }
  }

  /** A thread that is white or has no open upvalues leaves the list; its visited upvalues
      become exceptions until their values are marked. */
  lemma DropThread(h: Memory, m: Marks, white: Colour, all: multiset<Ref>, late: set<Ref>, kept: seq<Ref>,
                   rest: seq<Ref>, atomic: bool, th: Ref)
    requires Whole(h) && th in h && h[th].Thread? && th in m
    requires MarkInv(h, m, white, all, {}, late, Settled(h, kept + [th] + rest, atomic))
    requires m[th].IsWhite() || h[th].open == []
    requires TwupsOk(h, kept + [th] + rest)
    ensures MarkInv(h, m, white, all, Visited(h[th].open, 0, m), late - {th}, Settled(h, kept + rest, atomic))
    ensures UpvalsGray(h, m) && TwupsOk(h, kept + rest)
  {
    hide Listed, Covers;
    var twups := kept + [th] + rest;
    forall i, j | 0 <= i < j < |kept + rest|
      ensures (kept + rest)[i] != (kept + rest)[j]
    {
      assert twups[if i < |kept| then i else i + 1] != twups[if j < |kept| then j else j + 1];
    }
    forall i | 0 <= i < |kept + rest|
      ensures (kept + rest)[i] in h && h[(kept + rest)[i]].Thread?
    {
      assert (kept + rest)[i] == twups[if i < |kept| then i else i + 1];
    }
    var ex := Visited(h[th].open, 0, m);
    forall u | u in h && u in m && h[u].UpOpen? && !m[u].IsWhite() && u !in ex
      ensures UpvalDone(h, m, late - {th}, u)
    {
      assert UpvalDone(h, m, late, u) && OpenAt(h, u);
    }
    forall t | t in Settled(h, twups, atomic) && t in m && m[t].Black?
      ensures t in Settled(h, kept + rest, atomic)
    {
    }
  }

  lemma HeapAt(h: Memory, bound: set<Ref>, o: Ref, i: nat)
    requires Whole(h) && Kept(h, bound, true) && o in h && o in bound && h[o].Table?
    ensures RefIn(h[o].tmeta, bound) && RefIn(h[o].tmeta, h.Keys)
    ensures i < |h[o].arr| ==>
              SlotIn(h[o].arr[i], h.Keys) && HoldsSlot(h, h[o].weakVals, h[o].arr[i], bound, true)
    ensures i < |h[o].nodes| ==>
              && KeyIn(h[o].nodes[i].key, h.Keys) && SlotIn(h[o].nodes[i].val, h.Keys)
              && HoldsNode(h, h[o].weakKeys, h[o].weakVals, h[o].nodes[i], bound, true)
  {
    assert Covers(h, h[o], h.Keys) && Holds(h, h[o], bound, true);
    assert Parts(h, h[o]) == [h[o].tmeta];
    assert RefIn(Parts(h, h[o])[0], bound) && RefIn(Parts(h, h[o])[0], h.Keys);
  }

  lemma WholeTidied(h: Memory, h': Memory, bound: set<Ref>)
    requires Whole(h) && TrimmedHeap(h, h') && Kept(h, bound, true)
    ensures Whole(h') && Kept(h', bound, true)
  {
    TrimmedHolds(h, h', bound, true);
    TrimmedShape(h, h');
    TrimmedTyped(h, h', h.Keys);
    forall o | o in h' ensures Covers(h', h'[o], h'.Keys) {
      TrimmedCovers(h, h', o, h.Keys);
    }
  }

  lemma CleanCellTrims(h: Memory, o: Ref, nodes: seq<Node>)
    requires o in h && h[o].Table? && nodes == CleanNodes(h[o].nodes)
    ensures h[o := h[o].(nodes := nodes)] == h[o := CleanCell(h[o])]
    ensures Tidied(h, h[o := CleanCell(h[o])]) && TrimmedHeap(h, h[o := CleanCell(h[o])])
  {
    TidiedTrims(h, h[o := CleanCell(h[o])]);
  }

  lemma NodesCover(h: Memory, c: Cell, s: set<Ref>)
    requires c.Table? && RefIn(c.tmeta, s) && SlotsIn(c.arr, s)
    requires forall j :: 0 <= j < |c.nodes| ==> KeyIn(c.nodes[j].key, s) && SlotIn(c.nodes[j].val, s)
    ensures Covers(h, c, s)
  {
  }

  lemma NotListed(h: Memory, m: Marks, white: Colour, all: multiset<Ref>, ex: set<Ref>, late: set<Ref>,
                  settled: set<Ref>, o: Ref)
    requires MarkInv(h, m, white, all, ex, late, settled) && o in h && !m[o].Gray?
    ensures o !in all
  {
  }

  lemma SettledTrims(h: Memory, h': Memory, twups: seq<Ref>, atomic: bool)
    requires TrimmedHeap(h, h')
    ensures Settled(h', twups, atomic) == Settled(h, twups, atomic)
  {
    forall th | th in h ensures Trimmed(h[th], h'[th]) { }
  }

  // ---------------------------------------------------------------- clearing weak tables

  /** An object about to be collected, whose weak references are removed. */
  ghost predicate Gone(h: Memory, r: Ref, marked: set<Ref>) {
    !RefIn(r, marked) && !IsStr(h, r)
  }

  ghost predicate SlotPurged(h: Memory, wv: bool, v: Slot, v': Slot, marked: set<Ref>) {
    v' == v || (v'.Empty? && wv && v.Val? && Gone(h, v.r, marked))
  }

  /** An entry stays, or is removed because its weak key or its weak value is to be collected;
      the key of an empty entry may be forgotten. */
  ghost predicate NodePurged(h: Memory, c: Cell, n: Node, n': Node, marked: set<Ref>)
    requires c.Table?
  {
    || n' == n
    || (&& n'.val.Empty? && (n'.key == n.key || n'.key.DeadKey?)
        && (|| n.val.Empty?
            || (c.weakKeys && n.key.LiveKey? && Gone(h, n.key.k, marked))
            || (c.weakVals && Gone(h, n.val.r, marked))))
  }

  ghost predicate Purged(h: Memory, c: Cell, c': Cell, marked: set<Ref>) {
    c' == c
    || (&& c.Table? && c'.Table? && c'.tmeta == c.tmeta
        && c'.weakKeys == c.weakKeys && c'.weakVals == c.weakVals
        && |c'.arr| == |c.arr| && |c'.nodes| == |c.nodes|
        && (forall i :: 0 <= i < |c.arr| ==> SlotPurged(h, c.weakVals, c.arr[i], c'.arr[i], marked))
        && (forall i :: 0 <= i < |c.nodes| ==> NodePurged(h, c, c.nodes[i], c'.nodes[i], marked)))
  }

  /** From `h` to `h'` tables lost weak references to objects that are not marked. */
  ghost predicate PurgedHeap(h: Memory, h': Memory, marked: set<Ref>) {
    h'.Keys == h.Keys && forall o :: o in h ==> Purged(h, h[o], h'[o], marked)
  }

  predicate ValuesIn(c: Cell, marked: set<Ref>) {
    c.Table? && SlotsIn(c.arr, marked) && forall i :: 0 <= i < |c.nodes| ==> SlotIn(c.nodes[i].val, marked)
  }

  /** Marks of strings leave it as it is, what is gone. */
  lemma PurgedStays(h: Memory, m0: Marks, m: Marks, m': Marks)
    requires GrewByStrings(h, m0, m) && GrewByStrings(h, m, m')
    ensures Grew(m, m') && Marked(m) <= Marked(m') && GrewByStrings(h, m0, m')
    ensures forall r :: Gone(h, r, Marked(m)) ==> Gone(h, r, Marked(m'))
  {
    StringsGrew(h, m, m');
    StringsGrew(h, m0, m);
    GrewJoin(h, m0, m, m');
  }

  predicate KeysIn(c: Cell, marked: set<Ref>) {
    c.Table? && forall i :: 0 <= i < |c.nodes| ==> KeyIn(c.nodes[i].key, marked)
  }

  ghost predicate Pruned(h: Memory, h': Memory, marked: set<Ref>) {
    && PurgedHeap(h, h', marked)
    && forall o :: o in h && h[o].Table? && AllClean(h[o].nodes) ==> AllClean(h'[o].nodes)
  }

  ghost predicate ListsDone(h: Memory, m: Marks, weak: seq<Ref>, allweak: seq<Ref>, ephemeron: seq<Ref>) {
    AllOk(h, m, weak, allweak, ephemeron) && EphemeronsDone(h, m, ephemeron)
  }

  /** A table in a list whose weak values are removed. */
  ghost predicate Clearable(h: Memory, m: Marks, bound: set<Ref>, t: Ref) {
    t in h && t in bound && h[t].Table? && (h[t].weakVals || ValuesIn(h[t], Marked(m)))
  }

  /** A table in a list whose weak keys are removed. */
  ghost predicate KeyClearable(h: Memory, bound: set<Ref>, t: Ref) {
    t in h && t in bound && h[t].Table? && h[t].weakKeys && AllClean(h[t].nodes)
  }

  lemma KeyClearableParts(h: Memory, bound: set<Ref>, t: Ref)
    ensures KeyClearable(h, bound, t) <==> (t in h && t in bound && h[t].Table? && h[t].weakKeys && AllClean(h[t].nodes))
  {
  }

  lemma ClearableParts(h: Memory, m: Marks, bound: set<Ref>, t: Ref)
    requires Clearable(h, m, bound, t)
    ensures t in h && t in bound && h[t].Table? && (h[t].weakVals || ValuesIn(h[t], Marked(m)))
  {
  }

  lemma SlotsKept(h: Memory, c: Cell, marked: set<Ref>)
    requires c.Table?
    ensures forall i :: 0 <= i < |c.arr| ==> SlotPurged(h, c.weakVals, c.arr[i], c.arr[i], marked)
  {
  }

  lemma PrunedNone(h: Memory, m: Marks)
    ensures Pruned(h, h, Marked(m)) && GrewByStrings(h, m, m)
  {
  }

  lemma PurgedTrims(h: Memory, h': Memory, marked: set<Ref>)
    requires PurgedHeap(h, h', marked)
    ensures TrimmedHeap(h, h')
  {
    forall o | o in h ensures Trimmed(h[o], h'[o]) {
      assert Purged(h, h[o], h'[o], marked);
    }
  }

  /** Clearing one table leaves the lists as they should be. */
  lemma ClearOne(h: Memory, m: Marks, m1: Marks, m2: Marks, t: Ref, arr: seq<Slot>, nodes: seq<Node>,
                 weak: seq<Ref>, allweak: seq<Ref>, ephemeron: seq<Ref>)
    requires t in h && h[t].Table? && GrewByStrings(h, m, m1) && GrewByStrings(h, m1, m2)
    requires ListsDone(h, m, weak, allweak, ephemeron) && AllClean(nodes)
    requires |arr| == |h[t].arr| && |nodes| == |h[t].nodes|
    requires forall i :: 0 <= i < |arr| ==> SlotPurged(h, h[t].weakVals, h[t].arr[i], arr[i], Marked(m1))
    requires forall i :: 0 <= i < |nodes| ==> NodePurged(h, h[t], h[t].nodes[i], nodes[i], Marked(m2))
    ensures Pruned(h, h[t := h[t].(arr := arr, nodes := nodes)], Marked(m2)) && GrewByStrings(h, m, m2)
    ensures TrimmedHeap(h, h[t := h[t].(arr := arr, nodes := nodes)])
    ensures ListsDone(h[t := h[t].(arr := arr, nodes := nodes)], m2, weak, allweak, ephemeron)
  {
    hide EntryDone;
    var c := h[t].(arr := arr, nodes := nodes);
    var h' := h[t := c];
    PurgedStays(h, m, m1, m2);
    StringsGrew(h, m, m2);
    GrewWhites(m, m2);
    assert Purged(h, h[t], c, Marked(m2));
    PurgedTrims(h, h', Marked(m2));
    ClearedLists(h, h', m, m2, t, weak, allweak, ephemeron);
  }

  lemma ClearedLists(h: Memory, h': Memory, m: Marks, m': Marks, t: Ref, weak: seq<Ref>, allweak: seq<Ref>,
                     ephemeron: seq<Ref>)
    requires ListsDone(h, m, weak, allweak, ephemeron) && GrewByStrings(h, m, m') && Marked(m) <= Marked(m')
    requires t in h && h'.Keys == h.Keys && forall o :: o in h && o != t ==> h'[o] == h[o]
    requires Purged(h, h[t], h'[t], Marked(m')) && h'[t].Table? && AllClean(h'[t].nodes)
    ensures ListsDone(h', m', weak, allweak, ephemeron)
  {
    forall r ensures IsStr(h', r) == IsStr(h, r) { }
    assert WeakOk(h[t], Marked(m)) ==> WeakOk(h'[t], Marked(m'));
    assert AllWeakOk(h[t], Marked(m)) ==> AllWeakOk(h'[t], Marked(m'));
    assert EphemeronOk(h[t], Marked(m)) ==> EphemeronOk(h'[t], Marked(m'));
    forall o | o in ephemeron
      ensures EntriesDone(h', h'[o].nodes, Marked(m'))
    {
      forall i | 0 <= i < |h'[o].nodes|
        ensures EntryDone(h', h'[o].nodes[i], Marked(m'))
      {
        assert EntryDone(h, h[o].nodes[i], Marked(m));
        if o == t {
          assert NodePurged(h, h[t], h[t].nodes[i], h'[t].nodes[i], Marked(m'));
        }
      }
    }
  }

  lemma PrunedTwice(h: Memory, h1: Memory, h2: Memory, m: Marks, m1: Marks, m2: Marks)
    requires Pruned(h, h1, Marked(m1)) && Pruned(h1, h2, Marked(m2))
    requires GrewByStrings(h, m, m1) && GrewByStrings(h1, m1, m2)
    ensures Pruned(h, h2, Marked(m2)) && GrewByStrings(h, m, m2)
  {
    hide Purged, AllClean;
    PurgedKinds(h, h1, Marked(m1));
    PurgedKinds(h1, h2, Marked(m2));
    PurgedStays(h, m, m1, m2);
    forall o | o in h
      ensures Purged(h, h[o], h2[o], Marked(m2))
    {
      PurgedTwice(h, h1, h[o], h1[o], h2[o], Marked(m1), Marked(m2));
    }
  }

  lemma PurgedKinds(h: Memory, h': Memory, marked: set<Ref>)
    requires PurgedHeap(h, h', marked)
    ensures forall o :: o in h ==> h'[o].Table? == h[o].Table? && Trimmed(h[o], h'[o])
    ensures forall r :: IsStr(h', r) == IsStr(h, r)
  {
    PurgedTrims(h, h', marked);
  }

  lemma PrunedStays(h1: Memory, h2: Memory, m1: Marks, m2: Marks, bound: set<Ref>)
    requires Pruned(h1, h2, Marked(m2)) && GrewByStrings(h1, m1, m2)
    ensures forall t :: Clearable(h1, m1, bound, t) ==> Clearable(h2, m2, bound, t)
    ensures forall t :: t in h1 && ValuesIn(h1[t], Marked(m1)) ==> t in h2 && ValuesIn(h2[t], Marked(m2))
    ensures forall t :: t in h1 && KeysIn(h1[t], Marked(m1)) ==> t in h2 && KeysIn(h2[t], Marked(m2))
    ensures forall t :: KeyClearable(h1, bound, t) ==> KeyClearable(h2, bound, t)
    ensures forall t :: t in h1 && h1[t].Table? ==> t in h2 && h2[t].Table? && h2[t].weakKeys == h1[t].weakKeys
    ensures forall t :: t in h1 && h1[t].Table? && AllClean(h1[t].nodes) ==> AllClean(h2[t].nodes)
  {
    hide Purged;
    PurgedTrims(h1, h2, Marked(m2));
    StringsGrew(h1, m1, m2);
    GrewWhites(m1, m2);
  }

  lemma PurgedTwice(h: Memory, h1: Memory, c: Cell, c1: Cell, c2: Cell, marked: set<Ref>, marked': set<Ref>)
    requires Purged(h, c, c1, marked) && Purged(h1, c1, c2, marked')
    requires forall r :: IsStr(h1, r) == IsStr(h, r)
    requires forall r :: Gone(h, r, marked) ==> Gone(h, r, marked')
    ensures Purged(h, c, c2, marked')
  {
    forall r ensures Gone(h1, r, marked') == Gone(h, r, marked') { }
  }

  /** The lists after clearing: `weak` has lost its white values, `ephemeron` its white keys,
      `allweak` both. */
  ghost predicate PurgedLists(h: Memory, m: Marks, weak: seq<Ref>, allweak: seq<Ref>, ephemeron: seq<Ref>) {
    && (forall t :: t in weak ==> t in h && h[t].Table? && ValuesIn(h[t], Marked(m)))
    && (forall t :: t in allweak ==> t in h && h[t].Table? && ValuesIn(h[t], Marked(m)) && KeysIn(h[t], Marked(m)))
    && (forall t :: t in ephemeron ==> t in h && h[t].Table? && KeysIn(h[t], Marked(m)))
  }

  lemma ListsClearable(h: Memory, m: Marks, white: Colour, weak: seq<Ref>, allweak: seq<Ref>, ephemeron: seq<Ref>,
                       gray: seq<Ref>, again: seq<Ref>, bound: set<Ref>, settled: set<Ref>)
    requires MarkInv(h, m, white, Sum(gray, again, weak, allweak, ephemeron, multiset{}), {}, {}, settled)
    requires ListsDone(h, m, weak, allweak, ephemeron) && Marked(m) <= bound
    ensures forall t :: t in weak ==> Clearable(h, m, bound, t)
    ensures forall t :: t in allweak ==> Clearable(h, m, bound, t) && t in h && h[t].Table? && h[t].weakKeys
    ensures forall t :: t in ephemeron ==> KeyClearable(h, bound, t)
  {
    var all := Sum(gray, again, weak, allweak, ephemeron, multiset{});
    forall t | t in weak || t in allweak || t in ephemeron
      ensures t in bound
    {
      SumHas(gray, again, weak, allweak, ephemeron, multiset{}, t);
      assert Waits(h, m, t) && t in Marked(m);
    }
  }

  /** A visited open upvalue has its value marked, once no thread waits in a gray list. */
  lemma OpenValue(h: Memory, m: Marks, white: Colour, weak: seq<Ref>, allweak: seq<Ref>, ephemeron: seq<Ref>,
                  settled: set<Ref>, u: Ref)
    requires Whole(h) && MarkInv(h, m, white, Sum([], [], weak, allweak, ephemeron, multiset{}), {}, {}, settled)
    requires AllOk(h, m, weak, allweak, ephemeron) && u in h && h[u].UpOpen? && !m[u].IsWhite()
    ensures RefIn(StackSlot(h, h[u].owner, h[u].level), Marked(m))
  {
    hide Covers, WeakOk, AllWeakOk, EphemeronOk;
    assert UpvalDone(h, m, {}, u) && OpenAt(h, u);
    var th := h[u].owner;
    if th in Marked(m) {
      NotWaiting(h, m, white, weak, allweak, ephemeron, settled, th);
      BlackThread(h, m, th, h[u].level);
    }
  }

  lemma BlackThread(h: Memory, m: Marks, th: Ref, level: nat)
    requires th in h && h[th].Thread? && Covers(h, h[th], Marked(m))
    ensures RefIn(StackSlot(h, th, level), Marked(m))
  {
    if level < |h[th].stack| {
      assert Parts(h, h[th])[level] == h[th].stack[level];
    }
  }

  /** With `gray` and `grayagain` empty, a marked object that is not a table waiting to be
      cleared is black, or an open upvalue. */
  lemma NotWaiting(h: Memory, m: Marks, white: Colour, weak: seq<Ref>, allweak: seq<Ref>, ephemeron: seq<Ref>,
                   settled: set<Ref>, o: Ref)
    requires MarkInv(h, m, white, Sum([], [], weak, allweak, ephemeron, multiset{}), {}, {}, settled)
    requires AllOk(h, m, weak, allweak, ephemeron) && o in h && o in Marked(m) && !h[o].UpOpen?
    ensures o in weak || o in allweak || o in ephemeron || (m[o].Black? && Covers(h, h[o], Marked(m)))
    ensures !h[o].Table? ==> m[o].Black? && Covers(h, h[o], Marked(m))
  {
    hide Covers;
    if m[o].Gray? {
      assert Waits(h, m, o);
      SumHas([], [], weak, allweak, ephemeron, multiset{}, o);
      assert WeakOk(h[o], Marked(m)) || AllWeakOk(h[o], Marked(m)) || EphemeronOk(h[o], Marked(m));
    }
  }

  lemma ListedCovers(h: Memory, m: Marks, t: Ref)
    requires t in h && h[t].Table? && RefIn(h[t].tmeta, Marked(m))
    requires ValuesIn(h[t], Marked(m)) && KeysIn(h[t], Marked(m))
    ensures Covers(h, h[t], Marked(m))
  {
  }

  lemma ValuesOfKeys(h: Memory, m: Marks, c: Cell)
    requires EphemeronOk(c, Marked(m)) && KeysIn(c, Marked(m)) && EntriesDone(h, c.nodes, Marked(m))
    ensures ValuesIn(c, Marked(m))
  {
    forall i | 0 <= i < |c.nodes|
      ensures SlotIn(c.nodes[i].val, Marked(m))
    {
      assert EntryDone(h, c.nodes[i], Marked(m));
    }
  }

  /** After the weak tables are cleared, marked objects refer to marked objects only. */
  lemma MarkedCovered(h: Memory, m: Marks, white: Colour, weak: seq<Ref>, allweak: seq<Ref>, ephemeron: seq<Ref>,
                      settled: set<Ref>, o: Ref)
    requires Whole(h) && MarkInv(h, m, white, Sum([], [], weak, allweak, ephemeron, multiset{}), {}, {}, settled)
    requires ListsDone(h, m, weak, allweak, ephemeron) && PurgedLists(h, m, weak, allweak, ephemeron)
    requires o in Marked(m)
    ensures o in h && Covers(h, h[o], Marked(m))
  {
    hide Whole, Covers, EntriesDone, Listed, BlackDone, UpvalsDone, NeverBlack, KeyIn, SlotIn, SlotsIn, Clean;
    if h[o].UpOpen? {
      OpenValue(h, m, white, weak, allweak, ephemeron, settled, o);
      PartsCover(h, h[o], Marked(m));
    } else {
      NotWaiting(h, m, white, weak, allweak, ephemeron, settled, o);
      if o in weak || o in allweak || o in ephemeron {
        TableCovered(h, m, weak, allweak, ephemeron, o);
      }
    }
  }

  lemma TableCovered(h: Memory, m: Marks, weak: seq<Ref>, allweak: seq<Ref>, ephemeron: seq<Ref>, o: Ref)
    requires ListsDone(h, m, weak, allweak, ephemeron) && PurgedLists(h, m, weak, allweak, ephemeron)
    requires o in weak || o in allweak || o in ephemeron
    ensures o in h && Covers(h, h[o], Marked(m))
  {
    hide Covers, EntriesDone;
    if o in ephemeron {
      ValuesOfKeys(h, m, h[o]);
    }
    ListedCovers(h, m, o);
  }
}
