// What the program does to the heap between steps of the collector.
module GcMutator {
  import opened GcObjects
  import opened GcMarking
  import opened GcSafety

  /** Objects whose references are written with a barrier: all but strings, threads and open
      upvalues, which refer to a stack. */
  predicate Writable(c: Cell) {
    !c.Str? && !c.Thread? && !c.UpOpen?
  }

  predicate SameKind(c: Cell, c': Cell) {
    match c
    case Str => c'.Str?
    case UpClosed(_) => c'.UpClosed?
    case UpOpen(_, _) => c'.UpOpen?
    case Udata(_, uvs) => c'.Udata? && |c'.uvs| == |uvs|
    case LClosure(_, _) => c'.LClosure?
    case CClosure(_) => c'.CClosure?
    case Proto(_) => c'.Proto?
    case Table(_, _, _, _, _) => c'.Table?
    case Thread(_, _) => c'.Thread?
  }

  /** The cell `c'` refers to nothing that `c` does not refer to, other than `v`. */
  ghost predicate Adds(h: Memory, c: Cell, c': Cell, v: Ref) {
    forall s: set<Ref> :: Covers(h, c, s) && RefIn(v, s) ==> Covers(h, c', s)
  }

  /** A write into the object `o` that the program may make: of `v`, or of nothing new. */
  ghost predicate WriteOk(h: Memory, o: Ref, c': Cell, v: Ref) {
    && o in h && Writable(h[o]) && SameKind(h[o], c') && Adds(h, h[o], c', v)
    && (c'.Udata? && c'.umeta in h ==> h[c'.umeta].Table?)
  }

  lemma WriteParts(h: Memory, o: Ref, c': Cell, v: Ref)
    requires WriteOk(h, o, c', v)
    ensures o in h && Writable(h[o]) && Writable(c') && Linkable(c') == Linkable(h[o])
    ensures h[o].Str? == c'.Str? && h[o].Table? == c'.Table? && h[o].Udata? == c'.Udata?
    ensures c'.Udata? && c'.umeta in h ==> h[c'.umeta].Table?
    ensures forall s: set<Ref> :: Covers(h, h[o], s) && RefIn(v, s) ==> Covers(h[o := c'], c', s)
    ensures forall p :: p in h ==> Parts(h[o := c'], h[p]) == Parts(h, h[p])
    ensures Parts(h[o := c'], c') == Parts(h, c')
  {
  }

  lemma WriteShape(h: Memory, o: Ref, c': Cell)
    requires Shape(h) && o in h && Writable(h[o]) && Writable(c')
    ensures Shape(h[o := c'])
  {
    var h' := h[o := c'];
    forall th | th in h' && h'[th].Thread?
      ensures OpenList(h', th, h'[th].stack, h'[th].open)
    {
      assert OpenList(h, th, h[th].stack, h[th].open);
    }
    forall u | u in h' ensures OpenAt(h', u) {
      assert OpenAt(h, u);
    }
  }

  lemma WriteSound(h: Memory, m: Marks, white: Colour, twups: seq<Ref>, roots: seq<Ref>, o: Ref, c': Cell, v: Ref)
    requires Sound(h, m, white, twups, roots) && o in LiveSet(m, white) && RefIn(v, LiveSet(m, white))
    requires WriteOk(h, o, c', v)
    ensures Sound(h[o := c'], m, white, twups, roots)
  {
    hide WriteOk, OpenAt, OpenList;
    var h' := h[o := c'];
    var live := LiveSet(m, white);
    WriteParts(h, o, c', v);
    WriteShape(h, o, c');
    forall p | p in live
      ensures Covers(h', h'[p], live)
    {
      assert Covers(h, h[p], live);
    }
  }

  /** Upvalues need no look before the atomic step: their threads are all still to be looked at. */
  lemma BuildInv(h: Memory, m: Marks, white: Colour, all: multiset<Ref>, ex: set<Ref>)
    requires m.Keys == h.Keys && Shape(h) && OnlyWhite(m, white) && Listed(h, m, all)
    requires BlackDone(h, m, ex) && NeverBlack(h, m, ex, {})
    ensures MarkInv(h, m, white, all, ex, h.Keys, {})
  {
    hide Covers, Listed;
    forall u | u in h && h[u].UpOpen?
      ensures UpvalDone(h, m, h.Keys, u)
    {
      assert OpenAt(h, u);
    }
  }

  /** After a write only the object written needs care. */
  lemma WriteInv(h: Memory, m: Marks, white: Colour, all: multiset<Ref>, o: Ref, c': Cell, v: Ref)
    requires MarkInv(h, m, white, all, {}, h.Keys, {}) && WriteOk(h, o, c', v) && Shape(h)
    ensures MarkInv(h[o := c'], m, white, all, {o}, h.Keys, {})
    ensures m[o].Black? ==> Covers(h, h[o], Marked(m))
  {
    hide WriteOk, Covers, OpenAt, OpenList, Writable, UpvalDone;
    var h' := h[o := c'];
    WriteParts(h, o, c', v);
    WriteShape(h, o, c');
    WritableKinds(h[o]);
    WritableKinds(c');
    forall r ensures Waits(h', m, r) == Waits(h, m, r) { }
    forall p | p in h' && m[p].Black? && p != o
      ensures Covers(h', h'[p], Marked(m))
    {
      SameCovers(h, h', h[p], Marked(m));
    }
    BuildInv(h', m, white, all, {o});
    assert h'.Keys == h.Keys;
  }

  /** What a write keeps while marking: the heap is whole and its threads are listed. */
  lemma WriteFacts(h: Memory, m: Marks, white: Colour, twups: seq<Ref>, roots: seq<Ref>, o: Ref, c': Cell, v: Ref)
    requires Sound(h, m, white, twups, roots) && WriteOk(h, o, c', v)
    requires LiveSet(m, white) == h.Keys && RefIn(v, h.Keys)
    ensures Whole(h[o := c']) && TwupsOk(h[o := c'], twups) && OpenIn(h[o := c'], twups, h.Keys)
    ensures !c'.UpOpen? && !c'.Thread?
  {
    WriteSound(h, m, white, twups, roots, o, c', v);
    WriteParts(h, o, c', v);
  }

  /** A black object refers to marked objects and, after the write, to `v`. */
  lemma WriteCovers(h: Memory, m: Marks, o: Ref, c': Cell, v: Ref)
    requires WriteOk(h, o, c', v) && o in m && (m[o].Black? ==> Covers(h, h[o], Marked(m)))
    ensures m[o].Black? ==> Covers(h[o := c'], c', Marked(m) + {v})
    ensures m[o].Black? && RefIn(v, Marked(m)) ==> Covers(h[o := c'], c', Marked(m))
  {
    hide WriteOk;
    WriteParts(h, o, c', v);
    if m[o].Black? {
      CoversMore(h, h[o], Marked(m), Marked(m) + {v});
    }
  }

  lemma WritableKinds(c: Cell)
    requires Writable(c)
    ensures !c.Str? && !c.Thread? && !c.UpOpen?
  {
  }

  lemma SameCovers(h: Memory, h': Memory, c: Cell, s: set<Ref>)
    requires Covers(h, c, s) && Parts(h', c) == Parts(h, c)
    ensures Covers(h', c, s)
  {
  }

  // ---------------------------------------------------------------- stacks

  /** The stack of a thread is written: its open upvalues still have slots. */
  ghost predicate StackOk(h: Memory, th: Ref, stack: seq<Ref>) {
    th in h && h[th].Thread? && forall i :: 0 <= i < |h[th].open| ==> OpenLevel(h, h[th].open[i]) < |stack|
  }

  function Restacked(h: Memory, th: Ref, stack: seq<Ref>): Memory
    requires th in h && h[th].Thread?
  {
    h[th := Thread(stack, h[th].open)]
  }

  /** The value of an upvalue is assigned: an open one lives in the stack of its thread. */
  function Assigned(h: Memory, u: Ref, v: Ref): Memory
    requires u in h
  {
    if !h[u].UpOpen? then h[u := UpClosed(v)]
    else
      var th, level := h[u].owner, h[u].level;
      if th in h && h[th].Thread? && level < |h[th].stack| then Restacked(h, th, h[th].stack[level := v]) else h
  }

  lemma StackShape(h: Memory, th: Ref, stack: seq<Ref>)
    requires Shape(h) && StackOk(h, th, stack)
    ensures Shape(Restacked(h, th, stack))
  {
    var h' := Restacked(h, th, stack);
    assert OpenList(h, th, h[th].stack, h[th].open);
    forall t | t in h' && h'[t].Thread?
      ensures OpenList(h', t, h'[t].stack, h'[t].open)
    {
      if t != th {
        ListStays(h, h', t);
      }
    }
    forall u | u in h' ensures OpenAt(h', u) {
      assert OpenAt(h, u);
    }
  }

  lemma StackSound(h: Memory, m: Marks, white: Colour, twups: seq<Ref>, roots: seq<Ref>, th: Ref, stack: seq<Ref>)
    requires Sound(h, m, white, twups, roots) && StackOk(h, th, stack)
    requires StackLive(h, th, stack, LiveSet(m, white))
    ensures Sound(Restacked(h, th, stack), m, white, twups, roots)
  {
    hide OpenAt, OpenList;
    var h' := Restacked(h, th, stack);
    var live := LiveSet(m, white);
    StackShape(h, th, stack);
    forall p | p in live
      ensures Covers(h', h'[p], live)
    {
      StackCovers(h, th, stack, p, live);
    }
  }

  lemma StackCovers(h: Memory, th: Ref, stack: seq<Ref>, p: Ref, live: set<Ref>)
    requires Shape(h) && th in h && h[th].Thread? && p in h && p in live && Covers(h, h[p], live)
    requires th in live ==> RefsIn(stack, live)
    requires h[p].UpOpen? && h[p].owner == th && h[p].level < |stack| ==> RefIn(stack[h[p].level], live)
    ensures Covers(Restacked(h, th, stack), Restacked(h, th, stack)[p], live)
  {
    var h' := Restacked(h, th, stack);
    if p == th {
      var ps := Parts(h', h'[p]);
      forall j | 0 <= j < |ps| ensures RefIn(ps[j], live) {
        if j >= |stack| {
          assert ps[j] == Parts(h, h[p])[|h[p].stack| + j - |stack|];
        }
      }
    } else if h[p].UpOpen? && h[p].owner == th {
    } else {
      assert Parts(h', h[p]) == Parts(h, h[p]);
    }
  }

  lemma StackInv(h: Memory, m: Marks, white: Colour, all: multiset<Ref>, th: Ref, stack: seq<Ref>)
    requires MarkInv(h, m, white, all, {}, h.Keys, {}) && Shape(h) && StackOk(h, th, stack)
    ensures MarkInv(Restacked(h, th, stack), m, white, all, {}, h.Keys, {})
  {
    hide OpenAt, OpenList, Covers, UpvalDone;
    var h' := Restacked(h, th, stack);
    StackShape(h, th, stack);
    forall r ensures Waits(h', m, r) == Waits(h, m, r) { }
    forall p | p in h' && m[p].Black?
      ensures Covers(h', h'[p], Marked(m))
    {
      assert p != th && Parts(h', h[p]) == Parts(h, h[p]);
      SameCovers(h, h', h[p], Marked(m));
    }
    assert h'.Keys == h.Keys;
    BuildInv(h', m, white, all, {});
  }

  /** A thread that is live gets live values; so do its live upvalues, if it is not. */
  ghost predicate StackLive(h: Memory, th: Ref, stack: seq<Ref>, live: set<Ref>) {
    && (th in live ==> RefsIn(stack, live))
    && (forall u :: u in live && u in h && h[u].UpOpen? && h[u].owner == th && h[u].level < |stack| ==>
          RefIn(stack[h[u].level], live))
  }

  // ---------------------------------------------------------------- new objects

  /** A new object may refer to live objects; a new thread has no open upvalues. */
  ghost predicate NewOk(h: Memory, c: Cell, live: set<Ref>) {
    && !c.UpOpen? && (c.Thread? ==> c.open == []) && Covers(h, c, live)
    && (c.Udata? && c.umeta in h ==> h[c.umeta].Table?)
  }

  lemma NewParts(h: Memory, r: Ref, c: Cell)
    requires r !in h && Shape(h)
    ensures forall p :: p in h ==> Parts(h[r := c], h[p]) == Parts(h, h[p])
    ensures !c.UpOpen? ==> Parts(h[r := c], c) == Parts(h, c)
  {
    forall p | p in h
      ensures Parts(h[r := c], h[p]) == Parts(h, h[p])
    {
      assert OpenAt(h, p);
    }
  }

  lemma NewShape(h: Memory, r: Ref, c: Cell)
    requires Shape(h) && r !in h && r != 0 && !c.UpOpen? && (c.Thread? ==> c.open == [])
    ensures Shape(h[r := c])
  {
    var h' := h[r := c];
    forall th | th in h' && h'[th].Thread?
      ensures OpenList(h', th, h'[th].stack, h'[th].open)
    {
      if th != r {
        assert OpenList(h, th, h[th].stack, h[th].open);
      }
    }
    forall u | u in h' ensures OpenAt(h', u) {
      if u != r {
        assert OpenAt(h, u);
      }
    }
  }

  lemma NewSound(h: Memory, m: Marks, white: Colour, twups: seq<Ref>, roots: seq<Ref>, r: Ref, c: Cell)
    requires Sound(h, m, white, twups, roots) && r !in h && r != 0 && NewOk(h, c, LiveSet(m, white))
    ensures Sound(h[r := c], m[r := white], white, twups, roots)
    ensures LiveSet(m[r := white], white) == LiveSet(m, white) + {r}
  {
    hide OpenAt, OpenList;
    var h', m', live := h[r := c], m[r := white], LiveSet(m, white);
    assert LiveSet(m', white) == live + {r};
    NewShape(h, r, c);
    NewParts(h, r, c);
    forall p | p in live + {r}
      ensures Covers(h', h'[p], live + {r})
    {
      CoversMore(h, h'[p], live, live + {r});
    }
    forall o | o in live + {r} && h'[o].Udata? && h'[o].umeta in h'
      ensures h'[h'[o].umeta].Table?
    {
      assert Covers(h, h'[o], live);
      assert RefIn(Parts(h, h'[o])[0], live);
    }
    RefsInGrow(roots, live, live + {r});
    RefsInGrow(twups, live, live + {r});
  }

  lemma RefsInGrow(rs: seq<Ref>, s: set<Ref>, s': set<Ref>)
    requires RefsIn(rs, s) && s <= s'
    ensures RefsIn(rs, s')
  {
  }

  lemma NewInv(h: Memory, m: Marks, white: Colour, all: multiset<Ref>, r: Ref, c: Cell)
    requires MarkInv(h, m, white, all, {}, h.Keys, {}) && Shape(h) && r !in h && r != 0
    requires !c.UpOpen? && (c.Thread? ==> c.open == []) && white.IsWhite()
    ensures MarkInv(h[r := c], m[r := white], white, all, {}, h.Keys + {r}, {})
    ensures Marked(m[r := white]) == Marked(m)
  {
    hide OpenAt, OpenList, Covers, UpvalDone;
    var h', m' := h[r := c], m[r := white];
    assert Marked(m') == Marked(m);
    NewShape(h, r, c);
    NewParts(h, r, c);
    forall q ensures Waits(h', m', q) == Waits(h, m, q) { }
    forall p | p in h' && m'[p].Black?
      ensures Covers(h', h'[p], Marked(m))
    {
      SameCovers(h, h', h[p], Marked(m));
    }
    BuildInv(h', m', white, all, {});
    assert h'.Keys == h.Keys + {r};
  }

  // ---------------------------------------------------------------- open upvalues

  function Inserted(open: seq<Ref>, i: nat, u: Ref): seq<Ref>
    requires i <= |open|
  {
    open[..i] + [u] + open[i..]
  }

  /** The place of a level in the list of open upvalues, whose levels descend. */
  ghost predicate PlaceOf(h: Memory, open: seq<Ref>, i: nat, level: nat) {
    && i <= |open|
    && (forall j :: 0 <= j < i ==> OpenLevel(h, open[j]) > level)
    && (forall j :: i <= j < |open| ==> OpenLevel(h, open[j]) < level)
  }

  function WithUpval(h: Memory, th: Ref, level: nat, i: nat, u: Ref): Memory
    requires th in h && h[th].Thread? && i <= |h[th].open|
  {
    h[u := UpOpen(th, level)][th := Thread(h[th].stack, Inserted(h[th].open, i, u))]
  }

  ghost predicate UpvalOk(h: Memory, th: Ref, level: nat, i: nat, u: Ref) {
    && th in h && h[th].Thread? && level < |h[th].stack| && PlaceOf(h, h[th].open, i, level)
    && u !in h && u != 0
  }

  lemma InsertedAt(open: seq<Ref>, i: nat, u: Ref)
    requires i <= |open|
    ensures |Inserted(open, i, u)| == |open| + 1 && Inserted(open, i, u)[i] == u
    ensures forall j :: 0 <= j < i ==> Inserted(open, i, u)[j] == open[j]
    ensures forall j :: i < j <= |open| ==> Inserted(open, i, u)[j] == open[j - 1]
    ensures forall p :: p in open ==> p in Inserted(open, i, u)
    ensures u in Inserted(open, i, u)
  {
    forall p | p in open ensures p in Inserted(open, i, u) {
      var j :| 0 <= j < |open| && open[j] == p;
      assert Inserted(open, i, u)[if j < i then j else j + 1] == p;
    }
  }

  lemma UpvalKept(h: Memory, th: Ref, level: nat, i: nat, u: Ref, j: nat)
    requires Shape(h) && UpvalOk(h, th, level, i, u) && i <= |h[th].open| && j < |h[th].open|
    ensures h[th].open[j] in h && h[h[th].open[j]].UpOpen? && h[h[th].open[j]].owner == th
    ensures h[h[th].open[j]].level < |h[th].stack|
    ensures WithUpval(h, th, level, i, u)[h[th].open[j]] == h[h[th].open[j]]
  {
    assert OpenList(h, th, h[th].stack, h[th].open);
  }

  lemma UpvalList(h: Memory, th: Ref, level: nat, i: nat, u: Ref)
    requires Shape(h) && UpvalOk(h, th, level, i, u) && i <= |h[th].open|
    ensures OpenList(WithUpval(h, th, level, i, u), th, h[th].stack, Inserted(h[th].open, i, u))
  {
    hide Shape;
    var h', open, open' := WithUpval(h, th, level, i, u), h[th].open, Inserted(h[th].open, i, u);
    InsertedAt(open, i, u);
    forall j | 0 <= j < |open'|
      ensures open'[j] in h' && h'[open'[j]].UpOpen? && h'[open'[j]].owner == th && h'[open'[j]].level < |h[th].stack|
    {
      if j != i {
        UpvalKept(h, th, level, i, u, if j < i then j else j - 1);
      }
    }
    forall j, k | 0 <= j < k < |open'|
      ensures OpenLevel(h', open'[j]) > OpenLevel(h', open'[k])
    {
      UpvalDescends(h, th, level, i, u, j, k);
    }
  }

  lemma UpvalLevel(h: Memory, th: Ref, level: nat, i: nat, u: Ref, j: nat)
    requires Shape(h) && UpvalOk(h, th, level, i, u) && i <= |h[th].open| && j <= |h[th].open|
    ensures j < |Inserted(h[th].open, i, u)|
    ensures OpenLevel(WithUpval(h, th, level, i, u), Inserted(h[th].open, i, u)[j])
         == if j < i then OpenLevel(h, h[th].open[j]) else if j == i then level else OpenLevel(h, h[th].open[j - 1])
  {
    InsertedAt(h[th].open, i, u);
    if j != i {
      UpvalKept(h, th, level, i, u, if j < i then j else j - 1);
    }
  }

  lemma UpvalDescends(h: Memory, th: Ref, level: nat, i: nat, u: Ref, j: nat, k: nat)
    requires Shape(h) && UpvalOk(h, th, level, i, u) && i <= |h[th].open| && j < k <= |h[th].open|
    ensures |Inserted(h[th].open, i, u)| == |h[th].open| + 1
    ensures OpenLevel(WithUpval(h, th, level, i, u), Inserted(h[th].open, i, u)[j])
         > OpenLevel(WithUpval(h, th, level, i, u), Inserted(h[th].open, i, u)[k])
  {
    hide WithUpval, Inserted, OpenLevel, OpenAt;
    InsertedAt(h[th].open, i, u);
    assert OpenList(h, th, h[th].stack, h[th].open);
    UpvalLevel(h, th, level, i, u, j);
    UpvalLevel(h, th, level, i, u, k);
  }

  lemma UpvalShape(h: Memory, th: Ref, level: nat, i: nat, u: Ref)
    requires Shape(h) && UpvalOk(h, th, level, i, u) && i <= |h[th].open|
    ensures Shape(WithUpval(h, th, level, i, u))
  {
    hide PlaceOf;
    var h' := WithUpval(h, th, level, i, u);
    UpvalList(h, th, level, i, u);
    InsertedAt(h[th].open, i, u);
    forall t | t in h' && h'[t].Thread?
      ensures OpenList(h', t, h'[t].stack, h'[t].open)
    {
      if t != th {
        assert OpenList(h, t, h[t].stack, h[t].open);
        assert forall j :: 0 <= j < |h[t].open| ==> h'[h[t].open[j]] == h[h[t].open[j]];
      }
    }
    forall p | p in h' ensures OpenAt(h', p) {
      if p != u && p != th {
        assert OpenAt(h, p);
      }
    }
  }

  lemma UpvalCovers(h: Memory, th: Ref, level: nat, i: nat, u: Ref, p: Ref, s: set<Ref>)
    requires Shape(h) && UpvalOk(h, th, level, i, u) && i <= |h[th].open| && th in s
    requires p in h && Covers(h, h[p], s) && p != th
    ensures Covers(WithUpval(h, th, level, i, u), WithUpval(h, th, level, i, u)[p], s + {u})
  {
    hide PlaceOf, OpenList, Inserted;
    var h' := WithUpval(h, th, level, i, u);
    assert OpenAt(h, p);
    assert Parts(h', h[p]) == Parts(h, h[p]);
    CoversMore(h, h[p], s, s + {u});
  }

  lemma UpvalCoversNew(h: Memory, th: Ref, level: nat, i: nat, u: Ref, s: set<Ref>)
    requires UpvalOk(h, th, level, i, u) && i <= |h[th].open| && Covers(h, h[th], s)
    ensures Covers(WithUpval(h, th, level, i, u), WithUpval(h, th, level, i, u)[th], s + {u})
    ensures Covers(WithUpval(h, th, level, i, u), UpOpen(th, level), s + {u})
  {
    hide PlaceOf, Inserted;
    var h', stack, open := WithUpval(h, th, level, i, u), h[th].stack, h[th].open;
    InsertedAt(open, i, u);
    SplitRefs(stack, open, s);
    assert RefsIn(stack, s) && RefsIn(open, s);
    forall j | 0 <= j <= |open| ensures RefIn(Inserted(open, i, u)[j], s + {u}) {
      assert j < i ==> RefIn(open[j], s);
      assert j > i ==> RefIn(open[j - 1], s);
    }
    RefsInGrow(stack, s, s + {u});
    assert RefIn(stack[level], s);
    JoinRefs(stack, Inserted(open, i, u), s + {u});
  }

  lemma SplitRefs(a: seq<Ref>, b: seq<Ref>, s: set<Ref>)
    requires RefsIn(a + b, s)
    ensures RefsIn(a, s) && RefsIn(b, s)
  {
    forall j | 0 <= j < |a| ensures RefIn(a[j], s) { assert (a + b)[j] == a[j]; }
    forall j | 0 <= j < |b| ensures RefIn(b[j], s) { assert (a + b)[|a| + j] == b[j]; }
  }

  lemma JoinRefs(a: seq<Ref>, b: seq<Ref>, s: set<Ref>)
    requires RefsIn(a, s) && RefsIn(b, s)
    ensures RefsIn(a + b, s)
  {
  }

  function TwupsWith(twups: seq<Ref>, th: Ref): seq<Ref> {
    if th in twups then twups else [th] + twups
  }

  lemma UpvalSound(h: Memory, m: Marks, white: Colour, twups: seq<Ref>, roots: seq<Ref>, th: Ref, level: nat, i: nat,
                   u: Ref)
    requires Sound(h, m, white, twups, roots) && th in LiveSet(m, white)
    requires UpvalOk(h, th, level, i, u) && i <= |h[th].open|
    ensures Sound(WithUpval(h, th, level, i, u), m[u := white], white, TwupsWith(twups, th), roots)
    ensures LiveSet(m[u := white], white) == LiveSet(m, white) + {u}
  {
    hide PlaceOf, OpenAt, OpenList, Covers, Inserted;
    var h', m', live := WithUpval(h, th, level, i, u), m[u := white], LiveSet(m, white);
    assert LiveSet(m', white) == live + {u};
    UpvalShape(h, th, level, i, u);
    forall p | p in live + {u}
      ensures Covers(h', h'[p], live + {u})
    {
      assert p in live ==> Covers(h, h[p], live);
      if p == th || p == u {
        UpvalCoversNew(h, th, level, i, u, live);
      } else {
        UpvalCovers(h, th, level, i, u, p, live);
      }
    }
    RefsInGrow(roots, live, live + {u});
    RefsInGrow(twups, live, live + {u});
    TwupsPush(h, twups, th);
    UpvalTyped(h, m, white, twups, roots, th, level, i, u);
    forall t | t in h' && t in live + {u} && h'[t].Thread? && h'[t].open != []
      ensures t in TwupsWith(twups, th)
    {
    }
  }

  lemma UpvalTyped(h: Memory, m: Marks, white: Colour, twups: seq<Ref>, roots: seq<Ref>, th: Ref, level: nat, i: nat,
                   u: Ref)
    requires Sound(h, m, white, twups, roots) && UpvalOk(h, th, level, i, u) && i <= |h[th].open|
    ensures Typed(WithUpval(h, th, level, i, u), LiveSet(m, white) + {u})
  {
    hide PlaceOf, OpenAt, OpenList, Inserted;
    var h', live := WithUpval(h, th, level, i, u), LiveSet(m, white);
    forall o | o in live + {u} && o in h' && h'[o].Udata? && h'[o].umeta in h'
      ensures h'[h'[o].umeta].Table?
    {
      assert Covers(h, h[o], live);
      assert RefIn(Parts(h, h[o])[0], live);
    }
  }

  lemma UpvalKinds(h: Memory, th: Ref, level: nat, i: nat, u: Ref)
    requires UpvalOk(h, th, level, i, u) && i <= |h[th].open|
    ensures forall p :: p in h ==> Linkable(WithUpval(h, th, level, i, u)[p]) == Linkable(h[p])
  {
  }

  lemma UpvalInv(h: Memory, m: Marks, white: Colour, all: multiset<Ref>, th: Ref, level: nat, i: nat, u: Ref)
    requires MarkInv(h, m, white, all, {}, h.Keys, {}) && Shape(h) && white.IsWhite()
    requires UpvalOk(h, th, level, i, u) && i <= |h[th].open|
    ensures MarkInv(WithUpval(h, th, level, i, u), m[u := white], white, all, {}, h.Keys + {u}, {})
    ensures Marked(m[u := white]) == Marked(m)
  {
    hide PlaceOf, OpenList, OpenAt, Covers, Inserted, UpvalDone, Linkable;
    var h', m' := WithUpval(h, th, level, i, u), m[u := white];
    assert Marked(m') == Marked(m);
    UpvalShape(h, th, level, i, u);
    UpvalKinds(h, th, level, i, u);
    forall r ensures Waits(h', m', r) == Waits(h, m, r) { }
    forall p | p in h' && m'[p].Black?
      ensures Covers(h', h'[p], Marked(m))
    {
      assert p != th && p != u && Parts(h', h[p]) == Parts(h, h[p]);
      SameCovers(h, h', h[p], Marked(m));
    }
    BuildInv(h', m', white, all, {});
    assert h'.Keys == h.Keys + {u};
  }

  function ClosedHeap(h: Memory, th: Ref): Memory
    requires th in h && h[th].Thread? && h[th].open != []
  {
    var u := h[th].open[0];
    h[th := UnlinkedThread(h, th, 0)][u := UpClosed(StackSlot(h, th, OpenLevel(h, u)))]
  }

  function ClosedMarks(m: Marks, u: Ref): Marks
    requires u in m
  {
    if m[u].IsWhite() then m else m[u := Black]
  }

  lemma ClosedStep(h: Memory, th: Ref)
    requires Shape(h) && th in h && h[th].Thread? && h[th].open != []
    ensures h[th].open[0] in h && h[h[th].open[0]].UpOpen? && UnlinkStep(h, ClosedHeap(h, th), th, 0)
    ensures Shape(ClosedHeap(h, th)) && ClosedHeap(h, th).Keys == h.Keys
    ensures ClosedHeap(h, th)[h[th].open[0]] == UpClosed(StackSlot(h, th, OpenLevel(h, h[th].open[0])))
  {
    UpvalKind(h, th, 0);
    ShapeUnlinked(h, ClosedHeap(h, th), th, 0);
  }

  lemma CloseInv(h: Memory, m: Marks, white: Colour, all: multiset<Ref>, th: Ref)
    requires MarkInv(h, m, white, all, {}, h.Keys, {}) && Shape(h)
    requires th in h && h[th].Thread? && h[th].open != [] && h[th].open[0] in m
    ensures MarkInv(ClosedHeap(h, th), ClosedMarks(m, h[th].open[0]), white, all, {h[th].open[0]}, h.Keys, {})
    ensures Marked(ClosedMarks(m, h[th].open[0])) == Marked(m)
  {
    hide OpenAt, OpenList, Covers, UpvalDone, Linkable, UnlinkStep, UnlinkedThread;
    var u := h[th].open[0];
    var h', m' := ClosedHeap(h, th), ClosedMarks(m, u);
    assert Marked(m') == Marked(m);
    ClosedStep(h, th);
    ClosedKinds(h, th);
    forall r ensures Waits(h', m', r) == Waits(h, m, r) { }
    forall p | p in h' && m'[p].Black? && p != u
      ensures Covers(h', h'[p], Marked(m))
    {
      ClosedCovers(h, th, p, Marked(m));
    }
    BuildInv(h', m', white, all, {u});
  }

  lemma ClosedKinds(h: Memory, th: Ref)
    requires Shape(h) && th in h && h[th].Thread? && h[th].open != []
    ensures forall p :: p in h && p != h[th].open[0] ==>
              p in ClosedHeap(h, th) && h[p].UpOpen? == ClosedHeap(h, th)[p].UpOpen?
              && h[p].Thread? == ClosedHeap(h, th)[p].Thread? && Linkable(h[p]) == Linkable(ClosedHeap(h, th)[p])
  {
    UpvalKind(h, th, 0);
  }

  lemma ClosedCovers(h: Memory, th: Ref, p: Ref, s: set<Ref>)
    requires Shape(h) && th in h && h[th].Thread? && h[th].open != [] && p in h && Covers(h, h[p], s)
    ensures p in ClosedHeap(h, th) && Covers(ClosedHeap(h, th), ClosedHeap(h, th)[p], s)
  {
    ClosedStep(h, th);
    CoversUnlinked(h, ClosedHeap(h, th), th, 0, p, s);
  }

  lemma StackAllLive(h: Memory, th: Ref, stack: seq<Ref>, live: set<Ref>)
    requires RefsIn(stack, live)
    ensures StackLive(h, th, stack, live)
  {
  }

  lemma UpvalSlot(h: Memory, th: Ref, u: Ref)
    requires Shape(h) && u in h && h[u].UpOpen? && h[u].owner == th
    ensures th in h && h[th].Thread? && h[u].level < |h[th].stack| && u != th
  {
    assert OpenAt(h, u);
    assert OpenList(h, th, h[th].stack, h[th].open);
  }

  lemma UpvalWrite(h: Memory, u: Ref, v: Ref)
    requires u in h && h[u].UpClosed?
    ensures WriteOk(h, u, UpClosed(v), v)
  {
  }

  /** Only the upvalue `u` reads the slot of the stack that is written. */
  lemma UpvalStack(h: Memory, m: Marks, white: Colour, twups: seq<Ref>, roots: seq<Ref>, u: Ref, v: Ref)
    requires Sound(h, m, white, twups, roots) && u in LiveSet(m, white) && h[u].UpOpen?
    requires RefIn(v, LiveSet(m, white))
    ensures h[u].owner in h && h[h[u].owner].Thread? && h[u].level < |h[h[u].owner].stack|
    ensures StackOk(h, h[u].owner, h[h[u].owner].stack[h[u].level := v])
    ensures StackLive(h, h[u].owner, h[h[u].owner].stack[h[u].level := v], LiveSet(m, white))
  {
    var th, level, live := h[u].owner, h[u].level, LiveSet(m, white);
    UpvalSlot(h, th, u);
    var stack := h[th].stack[level := v];
    assert OpenList(h, th, h[th].stack, h[th].open);
    if th in live {
      assert Covers(h, h[th], live);
      SplitRefs(h[th].stack, h[th].open, live);
    }
    forall w | w in live && h[w].UpOpen? && h[w].owner == th && h[w].level < |stack|
      ensures RefIn(stack[h[w].level], live)
    {
      assert Covers(h, h[w], live);
      assert RefIn(Parts(h, h[w])[0], live);
    }
  }

  lemma NewListed(h: Memory, allgc: seq<Ref>, r: Ref, c: Cell)
    requires AllListed(h, allgc) && r !in h
    ensures AllListed(h[r := c], [r] + allgc)
  {
    assert Elems([r] + allgc) == Elems(allgc) + {r};
    assert r !in Elems(allgc);
  }

  lemma NewSwept(m: Marks, white: Colour, allgc: seq<Ref>, left: nat, r: Ref)
    requires r !in m
    ensures SweptTo(m, white, allgc, left) && left <= |allgc| ==> SweptTo(m[r := white], white, [r] + allgc, left)
  {
  }

  lemma NewKinds(h: Memory, c: Cell, live: set<Ref>)
    requires NewOk(h, c, live)
    ensures !c.UpOpen? && (c.Thread? ==> c.open == [])
  {
  }

  lemma UpvalKeys(h: Memory, th: Ref, level: nat, i: nat, u: Ref)
    requires UpvalOk(h, th, level, i, u) && i <= |h[th].open|
    ensures WithUpval(h, th, level, i, u).Keys == h.Keys + {u} && u !in h && u != 0
    ensures h[u := Str].Keys == h.Keys + {u} && th in h && h[th].Thread?
    ensures WithUpval(h, th, level, i, u)[u] == UpOpen(th, level)
  {
  }

  /** Past the levels above `level`, and not at it: no upvalue reads the slot. */
  lemma NoUpval(h: Memory, th: Ref, level: nat, i: nat)
    requires Shape(h) && th in h && h[th].Thread? && i <= |h[th].open|
    requires forall j :: 0 <= j < i ==> OpenLevel(h, h[th].open[j]) > level
    requires i < |h[th].open| ==> OpenLevel(h, h[th].open[i]) < level
    ensures PlaceOf(h, h[th].open, i, level)
    ensures forall p :: p in h ==> h[p] != UpOpen(th, level)
  {
    var open := h[th].open;
    assert OpenList(h, th, h[th].stack, open);
    forall p | p in h && h[p].UpOpen? && h[p].owner == th
      ensures h[p].level != level
    {
      assert OpenAt(h, p);
      var j :| 0 <= j < |open| && open[j] == p;
      assert OpenLevel(h, open[j]) == h[p].level;
    }
  }

  /** Two open upvalues of one thread read different slots. */
  lemma UpvalsApart(h: Memory, u: Ref, w: Ref)
    requires Shape(h) && u in h && w in h && h[u].UpOpen? && h[w].UpOpen? && h[u].owner == h[w].owner && u != w
    ensures h[u].level != h[w].level
  {
    assert OpenAt(h, u) && OpenAt(h, w);
    var open := h[h[u].owner].open;
    assert OpenList(h, h[u].owner, h[h[u].owner].stack, open);
    var i :| 0 <= i < |open| && open[i] == u;
    var j :| 0 <= j < |open| && open[j] == w;
    assert OpenLevel(h, open[i]) != OpenLevel(h, open[j]);
  }

  /** A write through an open upvalue is seen through no other upvalue. */
  lemma UpvalAlone(h: Memory, u: Ref, v: Ref)
    requires Shape(h) && u in h && h[u].UpOpen?
    requires h[u].owner in h && h[h[u].owner].Thread? && h[u].level < |h[h[u].owner].stack|
    ensures forall w :: w in h && w != u && (h[w].UpOpen? || h[w].UpClosed?) ==>
              Parts(Restacked(h, h[u].owner, h[h[u].owner].stack[h[u].level := v]), h[w]) == Parts(h, h[w])
  {
    forall w | w in h && w != u && h[w].UpOpen?
      ensures Parts(Restacked(h, h[u].owner, h[h[u].owner].stack[h[u].level := v]), h[w]) == Parts(h, h[w])
    {
      if h[w].owner == h[u].owner {
        UpvalsApart(h, u, w);
      }
    }
  }

  lemma GrayUpval(h: Memory, m: Marks, white: Colour, twups: seq<Ref>, roots: seq<Ref>, u: Ref)
    requires Sound(h, m, white, twups, roots) && u in h && h[u].UpOpen?
    ensures u in m && !m[u].Black? && !ClosedMarks(m, u)[u].Gray?
  {
  }

  lemma SameLive(m: Marks, u: Ref, white: Colour)
    requires u in m
    ensures LiveSet(ClosedMarks(m, u), white) == LiveSet(m, white)
    ensures Marked(ClosedMarks(m, u)) == Marked(m)
  {
  }

  lemma ClosedValue(h: Memory, u: Ref)
    requires u in h && h[u].UpClosed?
    ensures Parts(h, h[u]) == [h[u].v]
    ensures Whole(h) ==> RefIn(h[u].v, h.Keys)
  {
    if Whole(h) {
      assert Covers(h, h[u], h.Keys);
      assert RefIn(Parts(h, h[u])[0], h.Keys);
    }
  }

  lemma ClosedCovered(h: Memory, m: Marks, u: Ref)
    requires u in h && h[u].UpClosed?
    ensures Covers(h, h[u], Marked(m) + {h[u].v})
    ensures RefIn(h[u].v, Marked(m)) ==> Covers(h, h[u], Marked(m))
  {
  }

  /** From `h` to `h'` the open upvalues of `th` at or above `level` are closed, with their values;
      nothing else changes but the list of the thread. */
  ghost predicate ClosedFrom(h: Memory, h': Memory, th: Ref, level: nat) {
    && h'.Keys == h.Keys && th in h && h[th].Thread? && h'[th].Thread? && h'[th].stack == h[th].stack
    && (forall u :: u in h && u != th ==> ClosedUpval(h, h', th, level, u))
  }

  ghost predicate ClosedUpval(h: Memory, h': Memory, th: Ref, level: nat, u: Ref)
    requires u in h && u in h'
  {
    h'[u] == if h[u].UpOpen? && h[u].owner == th && h[u].level >= level && u !in ListOf(h', th)
             then UpClosed(StackSlot(h, th, h[u].level))
             else h[u]
  }

  function ListOf(h: Memory, th: Ref): seq<Ref> {
    if th in h && h[th].Thread? then h[th].open else []
  }

  lemma ClosedNone(h: Memory, th: Ref, level: nat)
    requires Shape(h) && th in h && h[th].Thread?
    ensures ClosedFrom(h, h, th, level)
  {
    forall u | u in h && u != th ensures ClosedUpval(h, h, th, level, u) {
      assert OpenAt(h, u);
    }
  }

  lemma ClosedOne(h: Memory, h1: Memory, th: Ref, level: nat)
    requires ClosedFrom(h, h1, th, level) && Shape(h1) && h1[th].open != [] && OpenLevel(h1, h1[th].open[0]) >= level
    ensures ClosedFrom(h, ClosedHeap(h1, th), th, level)
    ensures |ListOf(ClosedHeap(h1, th), th)| < |ListOf(h1, th)|
  {
    ClosedStep(h1, th);
    UnlinkedAt(h1[th].open, 0);
    OpenDistinct(h1, th);
    var h2, u0 := ClosedHeap(h1, th), h1[th].open[0];
    UpvalKind(h1, th, 0);
    forall u | u in h && u != th ensures ClosedUpval(h, h2, th, level, u) {
      assert ClosedUpval(h, h1, th, level, u);
    }
  }

  /** All open upvalues of `th` at or above `level`, and no others, are closed; each keeps its
      value. */
  ghost predicate ClosedAll(h: Memory, h': Memory, th: Ref, level: nat) {
    && h'.Keys == h.Keys && th in h && h[th].Thread? && h'[th].Thread? && h'[th].stack == h[th].stack
    && (forall u :: u in h && u != th ==>
          h'[u] == if h[u].UpOpen? && h[u].owner == th && h[u].level >= level
                   then UpClosed(StackSlot(h, th, h[u].level)) else h[u])
    && (forall u :: u in h && h[u].UpOpen? ==> Parts(h', h'[u]) == Parts(h, h[u]))
  }

  lemma ClosedToLevel(h: Memory, h': Memory, th: Ref, level: nat)
    requires ClosedFrom(h, h', th, level) && Shape(h) && Shape(h')
    requires h'[th].open == [] || OpenLevel(h', h'[th].open[0]) < level
    ensures ClosedAll(h, h', th, level)
    ensures forall i :: 0 <= i < |h'[th].open| ==> OpenLevel(h', h'[th].open[i]) < level
  {
    assert OpenList(h', th, h'[th].stack, h'[th].open);
    forall u | u in h && u != th
      ensures h'[u] == if h[u].UpOpen? && h[u].owner == th && h[u].level >= level
                       then UpClosed(StackSlot(h, th, h[u].level)) else h[u]
    {
      assert ClosedUpval(h, h', th, level, u);
      if u in h'[th].open {
        var i :| 0 <= i < |h'[th].open| && h'[th].open[i] == u;
        assert OpenLevel(h', u) < level;
      }
    }
    forall u | u in h && h[u].UpOpen?
      ensures Parts(h', h'[u]) == Parts(h, h[u])
    {
      UpvalSlot(h, h[u].owner, u);
    }
  }

  lemma StringSound(h: Memory, m: Marks, white: Colour, twups: seq<Ref>, roots: seq<Ref>, s: Ref)
    requires Sound(h, m, white, twups, roots) && IsStr(h, s)
    ensures Sound(h, m[s := white], white, twups, roots)
    ensures LiveSet(m[s := white], white) == LiveSet(m, white) + {s}
    ensures OnlyWhite(m, white) ==> m[s] != white.OtherWhite()
  {
    var live := LiveSet(m, white);
    assert LiveSet(m[s := white], white) == live + {s};
    forall o | o in live + {s} ensures Covers(h, h[o], live + {s}) {
      if o == s {
        PartsCover(h, h[o], live + {s});
      } else {
        CoversMore(h, h[o], live, live + {s});
      }
    }
    RefsInGrow(roots, live, live + {s});
    RefsInGrow(twups, live, live + {s});
    forall o | o in live + {s} && h[o].Udata? && h[o].umeta in h
      ensures h[h[o].umeta].Table?
    {
    }
  }

  lemma StringSwept(m: Marks, white: Colour, allgc: seq<Ref>, left: nat, s: Ref)
    requires s in m
    ensures SweptTo(m, white, allgc, left) ==> SweptTo(m[s := white], white, allgc, left)
  {
  }

  /** The colours after an upvalue is closed while sweeping. */
  function SweptUpval(m: Marks, u: Ref, v: Ref, white: Colour): Marks
    requires u in m
  {
    if m[u].IsWhite() then m
    else if v != 0 && v in m && m[v].IsWhite() then m[u := white]
    else m[u := Black]
  }

  lemma SweptUpvalKept(m: Marks, u: Ref, v: Ref, white: Colour)
    requires u in m && white.IsWhite()
    ensures LiveSet(SweptUpval(m, u, v, white), white) == LiveSet(m, white)
    ensures SweptUpval(m, u, v, white).Keys == m.Keys
    ensures forall r :: r in m && (m[r].IsWhite() || r != u) ==> SweptUpval(m, u, v, white)[r] == m[r]
  {
  }

  lemma ClosedThread(h: Memory, th: Ref)
    requires Shape(h) && th in h && h[th].Thread? && h[th].open != []
    ensures ClosedHeap(h, th)[th] == UnlinkedThread(h, th, 0) && th != h[th].open[0]
  {
    UpvalKind(h, th, 0);
  }

  lemma RootsSound(h: Memory, m: Marks, white: Colour, twups: seq<Ref>, roots: seq<Ref>, roots': seq<Ref>,
                   main: Ref, th: Ref, reg: Ref, functions: Ref, types: seq<Ref>)
    requires Sound(h, m, white, twups, roots) && roots' == [main, th, reg, functions] + types
    requires |roots| > 0 && roots[0] == main && RefsIn(types, LiveSet(m, white))
    requires RefIn(th, LiveSet(m, white)) && RefIn(reg, LiveSet(m, white)) && RefIn(functions, LiveSet(m, white))
    ensures RefsIn(roots', LiveSet(m, white)) && Sound(h, m, white, twups, roots')
  {
    hide Covers, Shape, Typed, UpvalsGray, TwupsOk, OpenIn, LiveSet;
    assert RefIn(roots[0], LiveSet(m, white));
    JoinRefs([main, th, reg, functions], types, LiveSet(m, white));
  }
}
