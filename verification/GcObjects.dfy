// The collector's view of the heap: objects with the references they hold, the colours, and
// the two notions of a reference that matter: one a program can follow, one that keeps alive.
module GcObjects {
  /** An object; 0 stands for NULL and for every value that is not collectable. */
  type Ref = nat

  /** A value position of a table. */
  datatype Slot = Empty | Val(r: Ref)

  datatype Key = DeadKey | LiveKey(k: Ref)

  datatype Node = Node(key: Key, val: Slot)

  datatype Cell =
    | Str
    | UpClosed(v: Ref)
    | UpOpen(owner: Ref, level: nat)
    | Udata(umeta: Ref, uvs: seq<Ref>)
    | LClosure(proto: Ref, upvals: seq<Ref>)
    | CClosure(ups: seq<Ref>)
    | Proto(parts: seq<Ref>)
    | Table(tmeta: Ref, weakKeys: bool, weakVals: bool, arr: seq<Slot>, nodes: seq<Node>)
    | Thread(stack: seq<Ref>, open: seq<Ref>)

  type Memory = map<Ref, Cell>

  datatype Colour = White0 | White1 | Gray | Black {
    predicate IsWhite() { White0? || White1? }

    function OtherWhite(): (c: Colour)
      ensures c.IsWhite() && c != this
    {
      if White0? then White1 else White0
    }
  }

  type Marks = map<Ref, Colour>

  ghost function Marked(m: Marks): set<Ref> {
    set r | r in m && !m[r].IsWhite()
  }

  ghost predicate IsStr(h: Memory, r: Ref) {
    r in h && h[r].Str?
  }

  /** Objects with a `gclist` field: those that can wait in a gray list. */
  predicate Linkable(c: Cell) {
    match c
    case Table(_, _, _, _, _) => true
    case Thread(_, _) => true
    case LClosure(_, _) => true
    case CClosure(_) => true
    case Proto(_) => true
    case Udata(_, uvs) => uvs != []
    case _ => false
  }

  // ---------------------------------------------------------------- references

  predicate RefIn(r: Ref, s: set<Ref>) { r == 0 || r in s }

  predicate RefsIn(rs: seq<Ref>, s: set<Ref>) {
    forall i :: 0 <= i < |rs| ==> RefIn(rs[i], s)
  }

  predicate SlotIn(v: Slot, s: set<Ref>) { v.Val? ==> RefIn(v.r, s) }

  predicate KeyIn(k: Key, s: set<Ref>) { k.LiveKey? ==> RefIn(k.k, s) }

  predicate SlotsIn(vs: seq<Slot>, s: set<Ref>) {
    forall i :: 0 <= i < |vs| ==> SlotIn(vs[i], s)
  }

  predicate NodesIn(ns: seq<Node>, s: set<Ref>) {
    forall i :: 0 <= i < |ns| ==> KeyIn(ns[i].key, s) && SlotIn(ns[i].val, s)
  }

  /** The value an open upvalue reads: it lives in the stack of the upvalue's thread. */
  function StackSlot(h: Memory, th: Ref, level: nat): Ref {
    if th in h && h[th].Thread? && level < |h[th].stack| then h[th].stack[level] else 0
  }

  /** What an object other than a table refers to, in the order the collector visits it. */
  function Parts(h: Memory, c: Cell): seq<Ref> {
    match c
    case Str => []
    case UpClosed(v) => [v]
    case UpOpen(th, level) => [StackSlot(h, th, level)]
    case Udata(mt, uvs) => [mt] + uvs
    case LClosure(p, upvals) => [p] + upvals
    case CClosure(ups) => ups
    case Proto(parts) => parts
    case Table(mt, _, _, _, _) => [mt]
    case Thread(stack, open) => stack + open
  }

  /** Every reference a program could follow out of the object `c` leads into `s`. */
  ghost predicate Covers(h: Memory, c: Cell, s: set<Ref>) {
    && RefsIn(Parts(h, c), s)
    && (c.Table? ==> SlotsIn(c.arr, s) && NodesIn(c.nodes, s))
  }

  /** `s` holds the roots and whatever can be followed from its members. */
  ghost predicate Closed(h: Memory, roots: set<Ref>, s: set<Ref>) {
    roots <= s && forall o :: o in s && o in h ==> Covers(h, h[o], s)
  }

  /** A program can get to `r`: `r` lies in everything that is closed. */
  ghost predicate Reachable(h: Memory, roots: set<Ref>, r: Ref) {
    forall s: set<Ref> :: Closed(h, roots, s) ==> r in s
  }

  // ---------------------------------------------------------------- references that keep alive

  /** A nonempty entry keeps its key alive (outright, or only when the key is a string), and
      its value (outright, when its key is kept, or only when the value is a string). */
  ghost predicate HoldsNode(h: Memory, wk: bool, wv: bool, n: Node, s: set<Ref>, strings: bool) {
    n.val.Val? ==>
      && (n.key.LiveKey? && (!wk || (strings && IsStr(h, n.key.k))) ==> RefIn(n.key.k, s))
      && (if wv then strings && IsStr(h, n.val.r) ==> RefIn(n.val.r, s)
          else !wk || KeyIn(n.key, s) ==> RefIn(n.val.r, s))
  }

  ghost predicate HoldsSlot(h: Memory, wv: bool, v: Slot, s: set<Ref>, strings: bool) {
    v.Val? && (!wv || (strings && IsStr(h, v.r))) ==> RefIn(v.r, s)
  }

  /** What `c` keeps alive lies in `s`. A table with weak keys is an ephemeron table: the value
      of an entry counts when its key is in `s`. Strings are values and stay in weak tables, which
      may mark them; `strings` says whether those are asked for too. */
  ghost predicate Holds(h: Memory, c: Cell, s: set<Ref>, strings: bool) {
    && RefsIn(Parts(h, c), s)
    && (c.Table? ==>
          && (forall i :: 0 <= i < |c.arr| ==> HoldsSlot(h, c.weakVals, c.arr[i], s, strings))
          && (forall i :: 0 <= i < |c.nodes| ==>
                HoldsNode(h, c.weakKeys, c.weakVals, c.nodes[i], s, strings)))
  }

  /** `s` holds all that its members keep alive. */
  ghost predicate Kept(h: Memory, s: set<Ref>, strings: bool) {
    forall o :: o in s && o in h ==> Holds(h, h[o], s, strings)
  }

  // ---------------------------------------------------------------- entries that lose their contents

  predicate NodeTrimmed(n: Node, n': Node) {
    && (n'.key == n.key || n'.key.DeadKey?)
    && (n'.val == n.val || n'.val.Empty?)
    && (n'.key != n.key ==> n'.val.Empty?)
  }

  /** `c'` is `c`, except that entries of a table may have been emptied or their keys killed. */
  ghost predicate Trimmed(c: Cell, c': Cell) {
    c' == c
    || (&& c.Table? && c'.Table? && c'.tmeta == c.tmeta
        && c'.weakKeys == c.weakKeys && c'.weakVals == c.weakVals
        && |c'.arr| == |c.arr| && |c'.nodes| == |c.nodes|
        && (forall i :: 0 <= i < |c.arr| ==> c'.arr[i] == c.arr[i] || c'.arr[i].Empty?)
        && (forall i :: 0 <= i < |c.nodes| ==> NodeTrimmed(c.nodes[i], c'.nodes[i])))
  }

  ghost predicate TrimmedHeap(h: Memory, h': Memory) {
    h'.Keys == h.Keys && forall o :: o in h ==> Trimmed(h[o], h'[o])
  }

  lemma TrimmedParts(h: Memory, h': Memory)
    requires TrimmedHeap(h, h')
    ensures forall o :: o in h ==> Parts(h', h'[o]) == Parts(h, h[o])
    ensures forall r :: IsStr(h', r) == IsStr(h, r)
  {
  }

  lemma TrimmedHolds(h: Memory, h': Memory, s: set<Ref>, strings: bool)
    requires TrimmedHeap(h, h') && Kept(h, s, strings)
    ensures Kept(h', s, strings)
  {
    TrimmedParts(h, h');
    forall o | o in s && o in h'
      ensures Holds(h', h'[o], s, strings)
    {
      assert Holds(h, h[o], s, strings) && Trimmed(h[o], h'[o]);
    }
  }

  lemma TrimmedCovers(h: Memory, h': Memory, o: Ref, s: set<Ref>)
    requires TrimmedHeap(h, h') && o in h && Covers(h, h[o], s)
    ensures Covers(h', h'[o], s)
  {
    TrimmedParts(h, h');
  }

  lemma CoversMore(h: Memory, c: Cell, s: set<Ref>, s': set<Ref>)
    requires Covers(h, c, s) && s <= s'
    ensures Covers(h, c, s')
  {
  }

  // ---------------------------------------------------------------- upvalues and their threads

  function OpenLevel(h: Memory, u: Ref): nat {
    if u in h && h[u].UpOpen? then h[u].level else 0
  }

  /** The list of open upvalues of a thread: each reads a slot of its stack, and the levels
      strictly descend, so that a slot has at most one upvalue. */
  ghost predicate OpenList(h: Memory, th: Ref, stack: seq<Ref>, open: seq<Ref>) {
    && (forall i :: 0 <= i < |open| ==>
          open[i] in h && h[open[i]].UpOpen? && h[open[i]].owner == th && h[open[i]].level < |stack|)
    && (forall i, j :: 0 <= i < j < |open| ==> OpenLevel(h, open[i]) > OpenLevel(h, open[j]))
  }

  ghost predicate OpenAt(h: Memory, u: Ref) {
    u in h && h[u].UpOpen? ==>
      h[u].owner in h && h[h[u].owner].Thread? && u in h[h[u].owner].open
  }

  /** Open upvalues and the lists of their threads agree; NULL is not an object. */
  ghost predicate Shape(h: Memory)
  {
    && 0 !in h
    && (forall th :: th in h && h[th].Thread? ==> OpenList(h, th, h[th].stack, h[th].open))
    && (forall u :: u in h ==> OpenAt(h, u))
  }

  /** The metatable of a userdata is a table. */
  ghost predicate Typed(h: Memory, s: set<Ref>) {
    forall o :: o in s && o in h && h[o].Udata? && h[o].umeta in h ==> h[h[o].umeta].Table?
  }

  /** The heap is whole: nothing refers to an object that is gone. */
  ghost predicate Whole(h: Memory) {
    && Shape(h)
    && Typed(h, h.Keys)
    && forall o :: o in h ==> Covers(h, h[o], h.Keys)
  }

  /** What a whole heap and a bound say about the object `o`. */
  lemma Inside(h: Memory, bound: set<Ref>, o: Ref)
    requires Whole(h) && Kept(h, bound, true) && o in h && o in bound
    ensures o != 0 && RefsIn(Parts(h, h[o]), h.Keys) && RefsIn(Parts(h, h[o]), bound)
  {
    assert Covers(h, h[o], h.Keys) && Holds(h, h[o], bound, true);
  }

  lemma PartsCover(h: Memory, c: Cell, s: set<Ref>)
    requires !c.Table? && RefsIn(Parts(h, c), s)
    ensures Covers(h, c, s)
  {
  }

  lemma MetaIsTable(h: Memory, o: Ref)
    requires Whole(h) && o in h && h[o].Udata? && h[o].umeta in h
    ensures h[h[o].umeta].Table?
  {
  }

  lemma TrimmedShape(h: Memory, h': Memory)
    requires TrimmedHeap(h, h') && Shape(h)
    ensures Shape(h')
  {
    forall th | th in h' && h'[th].Thread?
      ensures OpenList(h', th, h'[th].stack, h'[th].open)
    {
      assert Trimmed(h[th], h'[th]);
      var open := h[th].open;
      forall i | 0 <= i < |open|
        ensures open[i] in h' && h'[open[i]] == h[open[i]]
      {
        assert Trimmed(h[open[i]], h'[open[i]]);
      }
    }
    forall u | u in h'
      ensures OpenAt(h', u)
    {
      assert Trimmed(h[u], h'[u]) && OpenAt(h, u);
      if h'[u].UpOpen? {
        assert Trimmed(h[h[u].owner], h'[h[u].owner]);
      }
    }
  }

  lemma TrimmedTyped(h: Memory, h': Memory, s: set<Ref>)
    requires TrimmedHeap(h, h') && Typed(h, s)
    ensures Typed(h', s)
  {
    forall o | o in s && o in h' && h'[o].Udata? && h'[o].umeta in h'
      ensures h'[h'[o].umeta].Table?
    {
      assert Trimmed(h[o], h'[o]) && Trimmed(h[h[o].umeta], h'[h[o].umeta]);
    }
  }
}
