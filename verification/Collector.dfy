// The incremental collector.
module Collector {
  import opened GcObjects
  import opened GcMarking
  import opened GcSafety
  import opened GcMutator

  datatype Phase =
    | Propagate | EnterAtomic | Atomic | SwpAllGC | SwpFinObj | SwpToBeFnz | SwpEnd | CallFin | Pause

  function Rank(p: Phase): nat {
    match p
    case Pause => 0
    case CallFin => 1
    case SwpEnd => 2
    case SwpToBeFnz => 3
    case SwpFinObj => 4
    case SwpAllGC => 5
    case Atomic => 6
    case EnterAtomic => 7
    case Propagate => 8
  }

  datatype GrayList = InGrayAgain | InWeak | InAllWeak | InEphemeron

  /** What can happen between two points of a run: a step of the collector, or one of the program. */
  datatype Op =
    | Collect(fast: bool)
    | Create(r: Ref, c: Cell)
    | Store(o: Ref, cell: Cell, v: Ref, back: bool)
    | Push(th: Ref, stack: seq<Ref>)
    | Assign(u: Ref, val: Ref)
    | Capture(thread: Ref, level: nat, free: Ref)
    | Close(closing: Ref, from: nat)
    | Globals(run: Ref, reg: Ref, types: seq<Ref>, functions: Ref)
    | Intern(s: Ref)

  /** What matters of a state between two operations. */
  datatype Snap = Snap(heap: Memory, mark: Marks, white: Colour, phase: Phase, sweep: int, gray: seq<Ref>,
                       twups: seq<Ref>, roots: seq<Ref>) {
    ghost function Live(): set<Ref> {
      LiveSet(mark, white)
    }

    ghost predicate Sane() {
      Sound(heap, mark, white, twups, roots)
    }

    /** The state but for the heap and the colours. */
    ghost predicate Still(s: Snap) {
      white == s.white && phase == s.phase && sweep == s.sweep && twups == s.twups && roots == s.roots
    }
  }

  // ---------------------------------------------------------------- the operations of a run

  /** Operations handle live objects, so in particular whatever the program can reach. */
  ghost predicate Allows(op: Op, s: Snap) {
    var h, live := s.heap, s.Live();
    match op
    case Collect(_) => true
    case Create(r, c) => r !in h && r != 0 && NewOk(h, c, live)
    case Store(o, c, v, back) => WriteOk(h, o, c, v) && o in live && RefIn(v, live) && (back ==> Linkable(c))
    case Push(th, stack) => th in live && StackOk(h, th, stack) && RefsIn(stack, live)
    case Assign(u, v) => u in live && u in h && (h[u].UpOpen? || h[u].UpClosed?) && RefIn(v, live)
    case Capture(th, level, free) =>
      th in live && th in h && h[th].Thread? && level < |h[th].stack| && free !in h && free != 0
    case Close(th, _) => th in live && th in h && h[th].Thread?
    case Globals(th, reg, types, functions) =>
      RefIn(th, live) && RefIn(reg, live) && RefsIn(types, live) && RefIn(functions, live)
    case Intern(s1) => IsStr(h, s1) && s1 in s.mark && s.mark[s1] == s.white.OtherWhite()
  }

  /** What a step of the collector may change: nothing the roots keep alive goes, and what is live
      afterwards was live before and reads the same, but for weak references to objects that are
      dead. */
  ghost predicate Observes(s: Snap, s': Snap) {
    && s'.roots == s.roots && s'.heap.Keys <= s.heap.Keys && s'.Live() <= s.Live()
    && AllSeenAs(s.heap, s'.heap, s'.Live())
    && (forall r :: KeptAlive(s.heap, RootSet(s.roots), r) ==> r in s'.Live())
  }

  /** A step of the collector comes nearer to the end of the cycle, or begins one. */
  ghost predicate Advances(s: Snap, s': Snap) {
    if s.phase == Pause then s'.phase == Propagate && s'.heap == s.heap
    else
      || Rank(s'.phase) < Rank(s.phase)
      || (s'.phase == s.phase && s.phase != Propagate && s'.sweep < s.sweep)
      || (s'.phase == s.phase == Propagate
          && (|| |Whites(s'.mark)| < |Whites(s.mark)|
              || (|Whites(s'.mark)| == |Whites(s.mark)| && |s'.gray| < |s.gray|)))
  }

  /** A step that only goes to the next phase. */
  ghost predicate Moves(s: Snap, s': Snap, next: Phase) {
    s'.phase == next && s'.heap == s.heap && s'.Live() == s.Live()
  }

  /** A step of a sweep, over at most 20 objects or, if `fast`, any number. */
  ghost predicate Sweeps(s: Snap, s': Snap, fast: bool, next: Phase) {
    var count := if fast then MAX_LMEM else GCSWEEPMAX;
    && s'.Live() == s.Live()
    && if s.sweep < 0 then s'.phase == next
       else s'.phase == s.phase && s'.sweep == if s.sweep <= count then -1 else s.sweep - count
  }

  /** The phases follow each other. The whites are exchanged in the atomic step and only there; what
      it leaves alive contains all that its members keep alive. */
  ghost predicate Follows(s: Snap, s': Snap, fast: bool) {
    && s'.white == (if s.phase == EnterAtomic then s.white.OtherWhite() else s.white)
    && match s.phase
       case Pause => s'.phase == Propagate && s'.heap == s.heap
       case Propagate => if fast || s.gray == [] then Moves(s, s', EnterAtomic) else s'.phase == Propagate
       case EnterAtomic => s'.phase == SwpAllGC && Kept(s.heap, s'.Live(), false)
       case SwpAllGC => Sweeps(s, s', fast, SwpFinObj)
       case SwpFinObj => Sweeps(s, s', fast, SwpToBeFnz)
       case SwpToBeFnz => Sweeps(s, s', fast, SwpEnd)
       case SwpEnd => Moves(s, s', CallFin)
       case CallFin => Moves(s, s', Pause)
       case Atomic => true
  }

  ghost predicate HasUpval(h: Memory, th: Ref, level: nat) {
    exists p :: p in h && h[p] == UpOpen(th, level)
  }

  /** The slot of a stack gets its open upvalue, at its place in the list of the thread. */
  ghost predicate Captures(s: Snap, s': Snap, th: Ref, level: nat, free: Ref) {
    if HasUpval(s.heap, th, level) then s' == s
    else
      && th in s.heap && s.heap[th].Thread?
      && exists i: nat :: i <= |s.heap[th].open| && PlaceOf(s.heap, s.heap[th].open, i, level)
           && s' == s.(heap := WithUpval(s.heap, th, level, i, free), mark := s.mark[free := s.white],
                       twups := TwupsWith(s.twups, th))
  }

  /** The heap and the colours after each operation. A barrier may change colours, but neither the
      heap nor what is live. */
  ghost predicate Does(op: Op, s: Snap, s': Snap) {
    match op
    case Collect(fast) => Observes(s, s') && Advances(s, s') && Follows(s, s', fast)
    case Create(r, c) => s' == s.(heap := s.heap[r := c], mark := s.mark[r := s.white])
    case Store(o, c, _, _) => s'.Still(s) && s'.Live() == s.Live() && s'.heap == s.heap[o := c]
    case Push(th, stack) =>
      th in s.heap && s.heap[th].Thread? && s' == s.(heap := s.heap[th := Thread(stack, s.heap[th].open)])
    case Assign(u, v) =>
      u in s.heap && s'.Still(s) && s'.Live() == s.Live() && s'.heap == Assigned(s.heap, u, v)
    case Capture(th, level, free) => Captures(s, s', th, level, free)
    case Close(th, level) =>
      && s'.Still(s) && s'.Live() == s.Live() && ClosedAll(s.heap, s'.heap, th, level)
      && th in s'.heap && s'.heap[th].Thread?
      && forall i :: 0 <= i < |s'.heap[th].open| ==> OpenLevel(s'.heap, s'.heap[th].open[i]) < level
    case Globals(th, reg, types, functions) =>
      s.roots != [] && s' == s.(roots := [s.roots[0], th, reg, functions] + types)
    case Intern(r) => s' == s.(mark := s.mark[r := s.white])
  }

  lemma Captured(s: Snap, s': Snap, th: Ref, level: nat, free: Ref, i: nat)
    requires !HasUpval(s.heap, th, level) && th in s.heap && s.heap[th].Thread? && i <= |s.heap[th].open|
    requires PlaceOf(s.heap, s.heap[th].open, i, level)
    requires s' == s.(heap := WithUpval(s.heap, th, level, i, free), mark := s.mark[free := s.white],
                      twups := TwupsWith(s.twups, th))
    ensures Captures(s, s', th, level, free)
  {
    hide WithUpval, TwupsWith, PlaceOf, HasUpval;
  }

  const GCSWEEPMAX: nat := 20
  const MAX_LMEM: nat := 0x7FFF_FFFF_FFFF_FFFF

  class State {
    var heap: Memory
    var mark: Marks
    var white: Colour
    var gcstate: Phase
    var gray: seq<Ref>
    var grayagain: seq<Ref>
    var weak: seq<Ref>
    var allweak: seq<Ref>
    var ephemeron: seq<Ref>
    var twups: seq<Ref>
    var allgc: seq<Ref>
    var sweepgc: int
    var mainthread: Ref
    var running: Ref
    var registry: Ref
    var cache: Ref
    var mts: seq<Ref>

    // ---------------------------------------------------------------- marking

    /** All gray lists; `extra` are those a running step has taken out of the fields. */
    ghost function Lists(extra: multiset<Ref>): multiset<Ref>
      reads this`gray, this`grayagain, this`weak, this`allweak, this`ephemeron
    {
      Sum(gray, grayagain, weak, allweak, ephemeron, extra)
    }

    ghost predicate Marking(extra: multiset<Ref>, ex: set<Ref>, late: set<Ref>)
      reads this`heap, this`mark, this`white, this`gcstate, this`twups
      reads this`gray, this`grayagain, this`weak, this`allweak, this`ephemeron
    {
      && mark.Keys == heap.Keys
      && Whole(heap)
      && MarkInv(heap, mark, white, Lists(extra), ex, late, Settled(heap, twups, gcstate.Atomic?))
    }

    /** Marks stay inside `bound`, a set that holds all its members keep alive. */
    ghost predicate Within(bound: set<Ref>)
      reads this`heap, this`mark
    {
      Kept(heap, bound, true) && Marked(mark) <= bound
    }

    method ReallyMark(o: Ref, ghost extra: multiset<Ref>, ghost ex: set<Ref>, ghost late: set<Ref>,
                      ghost bound: set<Ref>)
      requires Marking(extra, ex, late) && Within(bound)
      requires o in heap && mark[o].IsWhite() && o in bound
      modifies this`mark, this`gray
      ensures Marking(extra, ex, late) && Within(bound)
      ensures Grew(old(mark), mark) && !mark[o].IsWhite()
      ensures IsStr(heap, o) ==> mark == old(mark)[o := Black] && gray == old(gray)
      ensures Linkable(heap[o]) ==> mark == old(mark)[o := Gray] && gray == [o] + old(gray)
      decreases |Whites(mark)|, if heap[o].Udata? then 1 else 0, 1
    {
      hide MarkInv, Whole, Kept, Covers, Holds, Lists, Settled;
      var c := heap[o];
      if c.Str? {
        PartsCover(heap, c, Marked(mark));
        MarkBlack(heap, mark, white, Lists(extra), ex, late, Settled(heap, twups, gcstate.Atomic?), o);
        mark := mark[o := Black];
      } else if c.UpClosed? || c.UpOpen? {
        MarkUpvalue(o, extra, ex, late, bound);
      } else if c.Udata? && c.uvs == [] {
        MarkPlainUdata(o, extra, ex, late, bound);
      } else {
        Except(heap, mark, white, Lists(extra), ex, late, Settled(heap, twups, gcstate.Atomic?), o);
        LinkGray(o, extra, ex, late);
      }
    }

    /** linkgclist: `o`, which is in no gray list, goes to the front of `gray`. */
    method LinkGray(o: Ref, ghost extra: multiset<Ref>, ghost ex: set<Ref>, ghost late: set<Ref>)
      requires Marking(extra, ex + {o}, late)
      requires o in heap && !mark[o].Gray? && Linkable(heap[o])
      modifies this`mark, this`gray
      ensures Marking(extra, ex, late)
      ensures mark == old(mark)[o := Gray] && gray == [o] + old(gray)
    {
      hide MarkInv, Whole, Linkable, Settled, Sum;
      SumPush(o, gray, grayagain, weak, allweak, ephemeron, extra);
      MarkGray(heap, mark, white, Lists(extra), ex, late, Settled(heap, twups, gcstate.Atomic?), o);
      gray := [o] + gray;
      mark := mark[o := Gray];
    }

    /** linkgclist, for the lists of objects to be seen again. */
    method Link(o: Ref, list: GrayList, ghost extra: multiset<Ref>, ghost ex: set<Ref>, ghost late: set<Ref>)
      requires Marking(extra, ex + {o}, late)
      requires o in heap && !mark[o].Gray? && Linkable(heap[o])
      modifies this`mark, this`grayagain, this`weak, this`allweak, this`ephemeron
      ensures Marking(extra, ex, late) && mark == old(mark)[o := Gray]
      ensures grayagain == (if list.InGrayAgain? then [o] + old(grayagain) else old(grayagain))
      ensures weak == (if list.InWeak? then [o] + old(weak) else old(weak))
      ensures allweak == (if list.InAllWeak? then [o] + old(allweak) else old(allweak))
      ensures ephemeron == (if list.InEphemeron? then [o] + old(ephemeron) else old(ephemeron))
    {
      hide MarkInv, Whole, Linkable, Settled, Sum;
      SumPush(o, gray, grayagain, weak, allweak, ephemeron, extra);
      MarkGray(heap, mark, white, Lists(extra), ex, late, Settled(heap, twups, gcstate.Atomic?), o);
      if list.InGrayAgain? {
        grayagain := [o] + grayagain;
      } else if list.InWeak? {
        weak := [o] + weak;
      } else if list.InAllWeak? {
        allweak := [o] + allweak;
      } else {
        ephemeron := [o] + ephemeron;
      }
      mark := mark[o := Gray];
    }

    method MarkUpvalue(o: Ref, ghost extra: multiset<Ref>, ghost ex: set<Ref>, ghost late: set<Ref>,
                       ghost bound: set<Ref>)
      requires Marking(extra, ex, late) && Within(bound)
      requires o in heap && mark[o].IsWhite() && o in bound && (heap[o].UpOpen? || heap[o].UpClosed?)
      modifies this`mark, this`gray
      ensures Marking(extra, ex, late) && Within(bound)
      ensures Grew(old(mark), mark) && !mark[o].IsWhite()
      decreases |Whites(mark)|, 0, 0
    {
      hide MarkInv, Whole, Kept, Covers, Holds, Whites, Linkable, Lists, Settled;
      var c := heap[o];
      var v := if c.UpClosed? then c.v else StackSlot(heap, c.owner, c.level);
      Inside(heap, bound, o);
      assert Parts(heap, c) == [v];
      assert RefIn(Parts(heap, c)[0], bound) && RefIn(Parts(heap, c)[0], heap.Keys);
      VisitUpvalue(heap, mark, white, Lists(extra), ex, late, Settled(heap, twups, gcstate.Atomic?), o);
      var colour := if c.UpOpen? then Gray else Black;
      GrewOne(mark, o, colour);
      mark := mark[o := colour];
      if v != 0 && mark[v].IsWhite() {
        ReallyMark(v, extra, ex + {o}, late, bound);
      }
      LeaveUpvalue(heap, mark, white, Lists(extra), ex, late, Settled(heap, twups, gcstate.Atomic?), o);
    }

    /** A userdata without user values. */
    method MarkPlainUdata(o: Ref, ghost extra: multiset<Ref>, ghost ex: set<Ref>, ghost late: set<Ref>,
                          ghost bound: set<Ref>)
      requires Marking(extra, ex, late) && Within(bound)
      requires o in heap && mark[o].IsWhite() && o in bound && heap[o].Udata? && heap[o].uvs == []
      modifies this`mark, this`gray
      ensures Marking(extra, ex, late) && Within(bound)
      ensures Grew(old(mark), mark) && !mark[o].IsWhite()
      decreases |Whites(mark)|, 1, 0
    {
      hide MarkInv, Whole, Kept, Covers, Holds, Whites, Lists, Settled;
      var c := heap[o];
      Inside(heap, bound, o);
      assert Parts(heap, c) == [c.umeta];
      assert RefIn(Parts(heap, c)[0], bound) && RefIn(Parts(heap, c)[0], heap.Keys);
      if c.umeta != 0 && mark[c.umeta].IsWhite() {
        MetaIsTable(heap, o);
        ReallyMark(c.umeta, extra, ex, late, bound);
      }
      PartsCover(heap, c, Marked(mark));
      MarkBlack(heap, mark, white, Lists(extra), ex, late, Settled(heap, twups, gcstate.Atomic?), o);
      mark := mark[o := Black];
    }

    /** markobjectN, markvalue and markkey: what is NULL, not collectable or marked is left alone. */
    method MarkRef(r: Ref, ghost extra: multiset<Ref>, ghost ex: set<Ref>, ghost late: set<Ref>,
                   ghost bound: set<Ref>)
      requires Marking(extra, ex, late) && Within(bound)
      requires RefIn(r, heap.Keys) && RefIn(r, bound)
      modifies this`mark, this`gray
      ensures Marking(extra, ex, late) && Within(bound)
      ensures Grew(old(mark), mark) && RefIn(r, Marked(mark))
      ensures RefIn(r, Marked(old(mark))) ==> mark == old(mark) && gray == old(gray)
      ensures !RefIn(r, Marked(old(mark))) ==> |Whites(mark)| < |Whites(old(mark))|
      ensures |Whites(mark)| <= |Whites(old(mark))|
    {
      hide MarkInv, Whole, Kept, Lists, Settled, Linkable;
      if r != 0 && mark[r].IsWhite() {
        ghost var m0 := mark;
        ReallyMark(r, extra, ex, late, bound);
        GrewWhites(m0, mark);
        assert r in Whites(m0);
      }
    }

    method MarkRefs(rs: seq<Ref>, ghost extra: multiset<Ref>, ghost ex: set<Ref>, ghost late: set<Ref>,
                    ghost bound: set<Ref>)
      requires Marking(extra, ex, late) && Within(bound)
      requires RefsIn(rs, heap.Keys) && RefsIn(rs, bound)
      modifies this`mark, this`gray
      ensures Marking(extra, ex, late) && Within(bound)
      ensures Grew(old(mark), mark) && RefsIn(rs, Marked(mark)) && |Whites(mark)| <= |Whites(old(mark))|
      ensures |Whites(mark)| < |Whites(old(mark))| || (mark == old(mark) && gray == old(gray))
    {
      hide MarkInv, Whole, Kept, Lists, Settled, Linkable, Whites;
      for i := 0 to |rs|
        invariant Marking(extra, ex, late) && Within(bound)
        invariant Grew(old(mark), mark) && |Whites(mark)| <= |Whites(old(mark))|
        invariant forall j :: 0 <= j < i ==> RefIn(rs[j], Marked(mark))
        invariant |Whites(mark)| < |Whites(old(mark))| || (mark == old(mark) && gray == old(gray))
      {
        MarkRef(rs[i], extra, ex, late, bound);
      }
    }

    /** iscleared: strings are values, so they are never removed from a weak table. */
    method IsCleared(r: Ref, ghost extra: multiset<Ref>, ghost ex: set<Ref>, ghost late: set<Ref>,
                     ghost bound: set<Ref>) returns (cleared: bool)
      requires Marking(extra, ex, late) && Within(bound)
      requires RefIn(r, heap.Keys) && (IsStr(heap, r) ==> RefIn(r, bound))
      modifies this`mark
      ensures Marking(extra, ex, late) && Within(bound)
      ensures GrewByStrings(heap, old(mark), mark) && |Whites(mark)| <= |Whites(old(mark))|
      ensures cleared == !RefIn(r, Marked(mark)) && (cleared ==> !IsStr(heap, r))
    {
      hide MarkInv, Whole, Kept, Lists, Settled, Linkable;
      if r == 0 {
        return false;
      }
      if heap[r].Str? {
        if mark[r].IsWhite() {
          ghost var m0 := mark;
          PartsCover(heap, heap[r], Marked(mark));
          MarkBlack(heap, mark, white, Lists(extra), ex, late, Settled(heap, twups, gcstate.Atomic?), r);
          mark := mark[r := Black];
          GrewWhites(m0, mark);
        }
        return false;
      }
      return mark[r].IsWhite();
    }

    // ---------------------------------------------------------------- traversals

    method TraverseArray(o: Ref, ghost extra: multiset<Ref>, ghost ex: set<Ref>, ghost late: set<Ref>,
                         ghost bound: set<Ref>) returns (marked: bool)
      requires Marking(extra, ex, late) && Within(bound)
      requires o in heap && o in bound && heap[o].Table? && !heap[o].weakVals
      modifies this`mark, this`gray
      ensures Marking(extra, ex, late) && Within(bound)
      ensures Grew(old(mark), mark) && SlotsIn(heap[o].arr, Marked(mark))
      ensures !marked ==> mark == old(mark) && gray == old(gray)
      ensures marked ==> |Whites(mark)| < |Whites(old(mark))|
    {
      hide MarkInv, Whole, Kept, Lists, Settled, Linkable, Whites;
      marked := false;
      var arr := heap[o].arr;
      for i := 0 to |arr|
        invariant Marking(extra, ex, late) && Within(bound)
        invariant Grew(old(mark), mark)
        invariant forall j :: 0 <= j < i ==> SlotIn(arr[j], Marked(mark))
        invariant !marked ==> mark == old(mark) && gray == old(gray)
        invariant marked ==> |Whites(mark)| < |Whites(old(mark))|
      {
        HeapAt(heap, bound, o, i);
        if arr[i].Val? && arr[i].r != 0 && mark[arr[i].r].IsWhite() {
          marked := true;
          MarkRef(arr[i].r, extra, ex, late, bound);
        }
      }
    }

    /** What a traversal does besides keeping the invariant; `next` is a part of the list
        `ephemeron` that a running loop has taken out. */
    twostate predicate Stepped(next: seq<Ref>)
      reads this
    {
      && Tidied(old(heap), heap)
      && More(old(mark), mark)
      && |Whites(mark)| <= |Whites(old(mark))|
      && (|Whites(mark)| < |Whites(old(mark))| || gray == old(gray))
      && AllOk(heap, mark, weak, allweak, ephemeron + next)
      && (gcstate.Atomic? ==> grayagain == old(grayagain))
      && (!gcstate.Atomic? ==> weak == old(weak) && allweak == old(allweak) && ephemeron == old(ephemeron))
    }

    ghost predicate Visiting(o: Ref, extra: multiset<Ref>, late: set<Ref>, next: seq<Ref>, bound: set<Ref>)
      reads this
    {
      && Marking(extra, {o}, late) && Within(bound)
      && o in heap && o in bound && heap[o].Table? && mark[o].Black?
      && AllOk(heap, mark, weak, allweak, ephemeron + next) && forall t :: t in next ==> t in extra
    }

    /** The node array of `o`, with the keys of empty entries forgotten, goes back into the table. */
    method WriteNodes(o: Ref, nodes: seq<Node>, ghost extra: multiset<Ref>, ghost late: set<Ref>,
                      ghost next: seq<Ref>, ghost bound: set<Ref>)
      requires Visiting(o, extra, late, next, bound) && nodes == CleanNodes(heap[o].nodes)
      modifies this`heap
      ensures Visiting(o, extra, late, next, bound)
      ensures Tidied(old(heap), heap) && heap == old(heap)[o := CleanCell(old(heap[o]))]
    {
      hide MarkInv, Whole, Kept, Settled, Sum, Tidied;
      CleanCellTrims(heap, o, nodes);
      var h := heap[o := heap[o].(nodes := nodes)];
      WholeTidied(heap, h, bound);
      NotListed(heap, mark, white, Lists(extra), {o}, late, Settled(heap, twups, gcstate.Atomic?), o);
      SumHas(gray, grayagain, weak, allweak, ephemeron, extra, o);
      AllOkMore(heap, mark, h, mark, weak, allweak, ephemeron + next, o);
      TrimKeeps(heap, h, mark, white, Lists(extra), {o}, late, Settled(heap, twups, gcstate.Atomic?));
      SettledTrims(heap, h, twups, gcstate.Atomic?);
      heap := h;
    }

    /** The end of a traversal that has marked all that the table refers to. */
    method LeaveBlack(o: Ref, nodes: seq<Node>, ghost extra: multiset<Ref>, ghost late: set<Ref>,
                      ghost next: seq<Ref>, ghost bound: set<Ref>)
      requires Visiting(o, extra, late, next, bound) && nodes == CleanNodes(heap[o].nodes)
      requires RefIn(heap[o].tmeta, Marked(mark)) && SlotsIn(heap[o].arr, Marked(mark))
      requires NodesIn(nodes, Marked(mark))
      modifies this`heap
      ensures Marking(extra, {}, late) && Within(bound) && Stepped(next)
      ensures heap == old(heap)[o := CleanCell(old(heap[o]))]
    {
      hide MarkInv, Whole, Kept, Settled, Lists, Tidied, Linkable, AllOk, Covers;
      WriteNodes(o, nodes, extra, late, next, bound);
      NodesCover(heap, heap[o], Marked(mark));
      assert {} + {o} == {o};
      Settle(heap, mark, white, Lists(extra), {}, late, Settled(heap, twups, gcstate.Atomic?), o);
    }

    method TraverseStrongTable(o: Ref, ghost extra: multiset<Ref>, ghost late: set<Ref>, ghost next: seq<Ref>,
                               ghost bound: set<Ref>)
      requires Visiting(o, extra, late, next, bound) && RefIn(heap[o].tmeta, Marked(mark))
      requires !heap[o].weakKeys && !heap[o].weakVals
      modifies this`heap, this`mark, this`gray
      ensures Marking(extra, {}, late) && Within(bound) && Stepped(next)
    {
      hide MarkInv, Whole, Kept, Lists, Settled, Linkable, Whites, AllOk, Covers, Grew;
      ghost var m0 := mark;
      var _ := TraverseArray(o, extra, {o}, late, bound);
      ghost var m1 := mark;
      GrewMore(m0, m1);
      var nodes := MarkNodes(o, true, extra, {o}, late, bound);
      GrewMore(m1, mark);
      AllOkMarks(heap, m0, mark, weak, allweak, ephemeron + next);
      LeaveBlack(o, nodes, extra, late, next, bound);
    }

    /** Marks the keys of all nonempty entries, and their values too when `values`; the result is
        the node array with the keys of empty entries forgotten. */
    method MarkNodes(o: Ref, values: bool, ghost extra: multiset<Ref>, ghost ex: set<Ref>, ghost late: set<Ref>,
                     ghost bound: set<Ref>) returns (nodes: seq<Node>)
      requires Marking(extra, ex, late) && Within(bound) && o in heap && o in bound && heap[o].Table?
      requires !heap[o].weakKeys && (values ==> !heap[o].weakVals)
      modifies this`mark, this`gray
      ensures Marking(extra, ex, late) && Within(bound)
      ensures Grew(old(mark), mark) && |Whites(mark)| <= |Whites(old(mark))|
      ensures |Whites(mark)| < |Whites(old(mark))| || gray == old(gray)
      ensures nodes == CleanNodes(heap[o].nodes)
      ensures forall j :: 0 <= j < |nodes| ==> KeyIn(nodes[j].key, Marked(mark))
      ensures values ==> forall j :: 0 <= j < |nodes| ==> SlotIn(nodes[j].val, Marked(mark))
    {
      hide MarkInv, Whole, Kept, Lists, Settled, Linkable, Whites;
      var orig := heap[o].nodes;
      nodes := orig;
      for i := 0 to |orig|
        invariant |nodes| == |orig|
        invariant Marking(extra, ex, late) && Within(bound)
        invariant Grew(old(mark), mark) && |Whites(mark)| <= |Whites(old(mark))|
        invariant |Whites(mark)| < |Whites(old(mark))| || gray == old(gray)
        invariant forall j :: 0 <= j < i ==> nodes[j] == CleanNode(orig[j])
        invariant forall j :: 0 <= j < i ==> KeyIn(nodes[j].key, Marked(mark))
        invariant values ==> forall j :: 0 <= j < i ==> SlotIn(nodes[j].val, Marked(mark))
        invariant forall j :: i <= j < |orig| ==> nodes[j] == orig[j]
      {
        HeapAt(heap, bound, o, i);
        if nodes[i].val.Empty? {
          nodes := nodes[i := CleanNode(nodes[i])];
        } else {
          if nodes[i].key.LiveKey? {
            MarkRef(nodes[i].key.k, extra, ex, late, bound);
          }
          if values {
            MarkRef(nodes[i].val.r, extra, ex, late, bound);
          }
        }
      }
    }

    /** The end of a traversal of a weak table, which has to be seen again. */
    method LeaveGray(o: Ref, list: GrayList, nodes: seq<Node>, ghost extra: multiset<Ref>, ghost late: set<Ref>,
                     ghost next: seq<Ref>, ghost bound: set<Ref>)
      requires Visiting(o, extra, late, next, bound) && nodes == CleanNodes(heap[o].nodes)
      requires gcstate.Atomic? != list.InGrayAgain?
      requires list.InWeak? ==> WeakOk(CleanCell(heap[o]), Marked(mark))
      requires list.InAllWeak? ==> AllWeakOk(CleanCell(heap[o]), Marked(mark))
      requires list.InEphemeron? ==> EphemeronOk(CleanCell(heap[o]), Marked(mark))
      modifies this`heap, this`mark, this`grayagain, this`weak, this`allweak, this`ephemeron
      ensures Marking(extra, {}, late) && Within(bound) && Stepped(next)
      ensures heap == old(heap)[o := CleanCell(old(heap[o]))]
      ensures Marked(mark) == Marked(old(mark)) && Whites(mark) == Whites(old(mark))
      ensures ephemeron == if list.InEphemeron? then [o] + old(ephemeron) else old(ephemeron)
    {
      hide MarkInv, Whole, Kept, Settled, Lists, Tidied, Covers, CleanCell, WeakOk, AllWeakOk, EphemeronOk;
      hide AllOk, Marked, Whites;
      WriteNodes(o, nodes, extra, late, next, bound);
      assert {} + {o} == {o};
      ghost var m0 := mark;
      AllOkPush(heap, mark, weak, allweak, ephemeron, next, o);
      SameMarks(m0, o);
      Link(o, list, extra, {}, late);
    }

    /** The nodes of a table with weak values: keys are marked, and `hasclears` tells whether
        some value is white. */
    method WeakValueNodes(o: Ref, ghost extra: multiset<Ref>, ghost ex: set<Ref>, ghost late: set<Ref>,
                          ghost bound: set<Ref>) returns (nodes: seq<Node>, hasclears: bool)
      requires Marking(extra, ex, late) && Within(bound) && o in heap && o in bound && heap[o].Table?
      requires !heap[o].weakKeys && heap[o].weakVals
      modifies this`mark, this`gray
      ensures Marking(extra, ex, late) && Within(bound)
      ensures Grew(old(mark), mark) && |Whites(mark)| <= |Whites(old(mark))|
      ensures |Whites(mark)| < |Whites(old(mark))| || gray == old(gray)
      ensures nodes == CleanNodes(heap[o].nodes)
      ensures forall j :: 0 <= j < |nodes| ==> KeyIn(nodes[j].key, Marked(mark))
      ensures !hasclears ==> heap[o].arr == []
      ensures !hasclears ==> forall j :: 0 <= j < |nodes| ==> SlotIn(nodes[j].val, Marked(mark))
    {
      hide MarkInv, Whole, Kept, Lists, Settled, Linkable, Whites, GrewByStrings;
      var orig := heap[o].nodes;
      nodes := orig;
      hasclears := |heap[o].arr| > 0;
      for i := 0 to |orig|
        invariant |nodes| == |orig|
        invariant Marking(extra, ex, late) && Within(bound)
        invariant Grew(old(mark), mark) && |Whites(mark)| <= |Whites(old(mark))|
        invariant |Whites(mark)| < |Whites(old(mark))| || gray == old(gray)
        invariant forall j :: 0 <= j < i ==> nodes[j] == CleanNode(orig[j])
        invariant forall j :: 0 <= j < i ==> KeyIn(nodes[j].key, Marked(mark))
        invariant !hasclears ==> heap[o].arr == []
        invariant !hasclears ==> forall j :: 0 <= j < i ==> SlotIn(nodes[j].val, Marked(mark))
        invariant forall j :: i <= j < |orig| ==> nodes[j] == orig[j]
      {
        HeapAt(heap, bound, o, i);
        if nodes[i].val.Empty? {
          nodes := nodes[i := CleanNode(nodes[i])];
        } else {
          if nodes[i].key.LiveKey? {
            MarkRef(nodes[i].key.k, extra, ex, late, bound);
          }
          if !hasclears {
            ghost var m1 := mark;
            hasclears := IsCleared(nodes[i].val.r, extra, ex, late, bound);
            StringsGrew(heap, m1, mark);
          }
        }
      }
    }

    method TraverseWeakValue(o: Ref, ghost extra: multiset<Ref>, ghost late: set<Ref>, ghost next: seq<Ref>,
                             ghost bound: set<Ref>)
      requires Visiting(o, extra, late, next, bound) && RefIn(heap[o].tmeta, Marked(mark))
      requires !heap[o].weakKeys && heap[o].weakVals
      modifies this`heap, this`mark, this`gray, this`grayagain, this`weak, this`allweak, this`ephemeron
      ensures Marking(extra, {}, late) && Within(bound) && Stepped(next)
    {
      hide MarkInv, Whole, Kept, Lists, Settled, Linkable, Whites, AllOk, Covers, Grew, Tidied;
      ghost var m0, h0 := mark, heap;
      var nodes, hasclears := WeakValueNodes(o, extra, {o}, late, bound);
      GrewMore(m0, mark);
      AllOkMarks(heap, m0, mark, weak, allweak, ephemeron + next);
      if gcstate != Atomic {
        LeaveGray(o, InGrayAgain, nodes, extra, late, next, bound);
      } else if hasclears {
        LeaveGray(o, InWeak, nodes, extra, late, next, bound);
      } else {
        LeaveBlack(o, nodes, extra, late, next, bound);
      }
    }

    /** One entry of an ephemeron table: the value is marked when the key is. */
    method EphemeronNode(n: Node, ghost extra: multiset<Ref>, ghost ex: set<Ref>, ghost late: set<Ref>,
                         ghost bound: set<Ref>) returns (marked: bool, clears: bool, ww: bool)
      requires Marking(extra, ex, late) && Within(bound) && n.val.Val?
      requires KeyIn(n.key, heap.Keys) && SlotIn(n.val, heap.Keys) && HoldsNode(heap, true, false, n, bound, true)
      modifies this`mark, this`gray
      ensures Marking(extra, ex, late) && Within(bound)
      ensures Grew(old(mark), mark) && |Whites(mark)| <= |Whites(old(mark))|
      ensures marked ==> |Whites(mark)| < |Whites(old(mark))|
      ensures !marked ==> gray == old(gray) && GrewByStrings(heap, old(mark), mark)
      ensures !marked ==> EntryDone(heap, n, Marked(mark))
      ensures !clears ==> KeyIn(n.key, Marked(mark))
      ensures !ww ==> SlotIn(n.val, Marked(mark))
    {
      hide MarkInv, Whole, Kept, Lists, Settled, Linkable, Whites;
      clears := false;
      marked, ww := false, false;
      ghost var m0 := mark;
      if n.key.LiveKey? {
        clears := IsCleared(n.key.k, extra, ex, late, bound);
        StringsGrew(heap, m0, mark);
      }
      if clears {
        ww := n.val.r != 0 && mark[n.val.r].IsWhite();
      } else if n.val.r != 0 && mark[n.val.r].IsWhite() {
        marked := true;
        MarkRef(n.val.r, extra, ex, late, bound);
      }
    }

    method EphemeronNodes(o: Ref, inv: bool, ghost extra: multiset<Ref>, ghost ex: set<Ref>, ghost late: set<Ref>,
                          ghost bound: set<Ref>)
      returns (nodes: seq<Node>, marked: bool, hasclears: bool, hasww: bool)
      requires Marking(extra, ex, late) && Within(bound) && o in heap && o in bound && heap[o].Table?
      requires heap[o].weakKeys && !heap[o].weakVals
      modifies this`mark, this`gray
      ensures Marking(extra, ex, late) && Within(bound)
      ensures Grew(old(mark), mark) && |Whites(mark)| <= |Whites(old(mark))|
      ensures marked ==> |Whites(mark)| < |Whites(old(mark))|
      ensures !marked ==> gray == old(gray) && GrewByStrings(heap, old(mark), mark)
      ensures nodes == CleanNodes(heap[o].nodes)
      ensures !marked ==> EntriesDone(heap, nodes, Marked(mark))
      ensures !hasclears ==> forall j :: 0 <= j < |nodes| ==> KeyIn(nodes[j].key, Marked(mark))
      ensures !hasww ==> forall j :: 0 <= j < |nodes| ==> SlotIn(nodes[j].val, Marked(mark))
    {
      hide MarkInv, Whole, Kept, Lists, Settled, Linkable, Whites, GrewByStrings, HoldsNode, Grew, EntryDone;
      hide NodesSeen, Marked, CleanNode;
      var orig := heap[o].nodes;
      var n := |orig|;
      nodes := orig;
      marked, hasclears, hasww := false, false, false;
      GrewNone(heap, mark);
      NodesUnseen(heap, orig, inv, mark);
      for i := 0 to n
        invariant |nodes| == n && NodesSeen(heap, orig, nodes, inv, i, marked, hasclears, hasww, mark)
        invariant Marking(extra, ex, late) && Within(bound)
        invariant Grew(old(mark), mark) && |Whites(mark)| <= |Whites(old(mark))|
        invariant marked ==> |Whites(mark)| < |Whites(old(mark))|
        invariant !marked ==> gray == old(gray) && GrewByStrings(heap, old(mark), mark)
      {
        var p := if inv then n - 1 - i else i;
        HeapAt(heap, bound, o, p);
        NodeUnseen(heap, orig, nodes, inv, i, p, marked, hasclears, hasww, mark);
        ghost var nodes1, m1, marked1, clears1, ww1 := nodes, mark, marked, hasclears, hasww;
        if nodes[p].val.Empty? {
          EmptyDone(heap, nodes[p], Marked(mark));
          GrewNone(heap, mark);
          nodes := nodes[p := CleanNode(nodes[p])];
        } else {
          FullClean(nodes[p]);
          var marks, clears, ww := EphemeronNode(nodes[p], extra, ex, late, bound);
          GrewJoin(heap, old(mark), m1, mark);
          marked, hasclears, hasww := marked || marks, hasclears || clears, hasww || ww;
          assert nodes == nodes[p := CleanNode(nodes[p])];
        }
        GrewMore(m1, mark);
        NodesSeenNext(heap, orig, nodes1, CleanNode(orig[p]), inv, i, p, marked1, clears1, ww1, m1,
                      marked, hasclears, hasww, mark);
      }
      AllSeen(heap, orig, nodes, inv, marked, hasclears, hasww, mark);
    }

    /** The list `ephemeron` may get `o` back; without a mark, no entry of `o` has to pass one on. */
    twostate predicate EphemeronStep(o: Ref, marked: bool)
      requires o in heap && heap[o].Table?
      reads this
    {
      && (ephemeron == old(ephemeron) || ephemeron == [o] + old(ephemeron))
      && (marked ==> |Whites(mark)| < |Whites(old(mark))|)
      && (!marked ==> gray == old(gray) && MoreByStrings(heap, old(mark), mark))
      && (!marked ==> EntriesDone(heap, heap[o].nodes, Marked(mark)))
    }

    /** Array and nodes of an ephemeron table. */
    method EphemeronParts(o: Ref, inv: bool, ghost extra: multiset<Ref>, ghost ex: set<Ref>, ghost late: set<Ref>,
                          ghost bound: set<Ref>)
      returns (nodes: seq<Node>, marked: bool, hasclears: bool, hasww: bool)
      requires Marking(extra, ex, late) && Within(bound) && o in heap && o in bound && heap[o].Table?
      requires heap[o].weakKeys && !heap[o].weakVals && RefIn(heap[o].tmeta, Marked(mark))
      modifies this`mark, this`gray
      ensures Marking(extra, ex, late) && Within(bound)
      ensures Grew(old(mark), mark) && |Whites(mark)| <= |Whites(old(mark))|
      ensures marked ==> |Whites(mark)| < |Whites(old(mark))|
      ensures !marked ==> gray == old(gray) && MoreByStrings(heap, old(mark), mark)
      ensures nodes == CleanNodes(heap[o].nodes)
      ensures !marked ==> EntriesDone(heap, nodes, Marked(mark))
      ensures EphemeronOk(CleanCell(heap[o]), Marked(mark))
      ensures !hasww ==> AllWeakOk(CleanCell(heap[o]), Marked(mark))
      ensures !hasww && !hasclears ==> SlotsIn(heap[o].arr, Marked(mark)) && NodesIn(nodes, Marked(mark))
    {
      hide MarkInv, Whole, Kept, Lists, Settled, Linkable, Whites, GrewByStrings, Grew, EntriesDone, MoreByStrings;
      hide CleanCell, CleanNodes;
      ghost var m0 := mark;
      var arrMarked := TraverseArray(o, extra, ex, late, bound);
      ghost var m1 := mark;
      GrewMore(m0, m1);
      nodes, marked, hasclears, hasww := EphemeronNodes(o, inv, extra, ex, late, bound);
      marked := arrMarked || marked;
      GrewMore(m1, mark);
      GrewTwice(m0, m1, mark);
      StringsMore(heap, m1, mark);
      CellClean(heap[o], nodes);
    }

    method TraverseEphemeron(o: Ref, inv: bool, ghost extra: multiset<Ref>, ghost late: set<Ref>,
                             ghost next: seq<Ref>, ghost bound: set<Ref>) returns (marked: bool)
      requires Visiting(o, extra, late, next, bound) && RefIn(heap[o].tmeta, Marked(mark))
      requires heap[o].weakKeys && !heap[o].weakVals
      modifies this`heap, this`mark, this`gray, this`grayagain, this`weak, this`allweak, this`ephemeron
      ensures Marking(extra, {}, late) && Within(bound) && Stepped(next)
      ensures o in heap && heap[o].Table? && EphemeronStep(o, marked)
    {
      hide MarkInv, Whole, Kept, Lists, Settled, Linkable, Whites, AllOk, Covers, Grew, Tidied, EntriesDone;
      hide MoreByStrings, SlotsIn, NodesIn, EphemeronOk, AllWeakOk;
      ghost var m0, h0 := mark, heap;
      var nodes, hasclears, hasww;
      nodes, marked, hasclears, hasww := EphemeronParts(o, inv, extra, {o}, late, bound);
      GrewMore(m0, mark);
      ghost var m1 := mark;
      AllOkMarks(heap, m0, mark, weak, allweak, ephemeron + next);
      CellClean(heap[o], nodes);
      if gcstate != Atomic {
        LeaveGray(o, InGrayAgain, nodes, extra, late, next, bound);
      } else if hasww {
        LeaveGray(o, InEphemeron, nodes, extra, late, next, bound);
      } else if hasclears {
        LeaveGray(o, InAllWeak, nodes, extra, late, next, bound);
      } else {
        LeaveBlack(o, nodes, extra, late, next, bound);
      }
      StringsTidied(h0, heap, m0, m1, mark, nodes);
    }

    method TraverseTable(o: Ref, ghost extra: multiset<Ref>, ghost late: set<Ref>, ghost next: seq<Ref>,
                         ghost bound: set<Ref>)
      requires Visiting(o, extra, late, next, bound)
      modifies this`heap, this`mark, this`gray, this`grayagain, this`weak, this`allweak, this`ephemeron
      ensures Marking(extra, {}, late) && Within(bound) && Stepped(next)
    {
      hide MarkInv, Whole, Kept, Lists, Settled, Linkable, Whites, AllOk, Covers, Grew, Tidied, EphemeronStep;
      ghost var m0 := mark;
      HeapAt(heap, bound, o, 0);
      var c := heap[o];
      MarkRef(c.tmeta, extra, {o}, late, bound);
      GrewMore(m0, mark);
      AllOkMarks(heap, m0, mark, weak, allweak, ephemeron + next);
      if !c.weakKeys && !c.weakVals {
        TraverseStrongTable(o, extra, late, next, bound);
      } else if !c.weakKeys {
        TraverseWeakValue(o, extra, late, next, bound);
      } else if !c.weakVals {
        var _ := TraverseEphemeron(o, false, extra, late, next, bound);
      } else {
        LeaveAllWeak(o, extra, late, next, bound);
      }
    }

    /** A table with weak keys and values: nothing to traverse. */
    method LeaveAllWeak(o: Ref, ghost extra: multiset<Ref>, ghost late: set<Ref>, ghost next: seq<Ref>,
                        ghost bound: set<Ref>)
      requires Visiting(o, extra, late, next, bound) && RefIn(heap[o].tmeta, Marked(mark))
      requires heap[o].weakKeys && heap[o].weakVals
      modifies this`mark, this`grayagain, this`weak, this`allweak, this`ephemeron
      ensures Marking(extra, {}, late) && Within(bound) && Stepped(next)
    {
      hide MarkInv, Whole, Kept, Lists, Settled, AllOk, Covers, Marked, Whites;
      ghost var m0 := mark;
      SameMarks(m0, o);
      AllOkPush(heap, mark, weak, allweak, ephemeron, next, o);
      assert {} + {o} == {o};
      Link(o, if gcstate == Atomic then InAllWeak else InGrayAgain, extra, {}, late);
      TidiedNone(heap);
    }

    ghost predicate VisitingThread(o: Ref, extra: multiset<Ref>, late: set<Ref>, bound: set<Ref>)
      reads this
    {
      && Marking(extra, {o}, late) && Within(bound)
      && o in heap && o in bound && heap[o].Thread? && mark[o].Black?
    }

    /** Before the atomic phase a thread goes to `grayagain`: it must be visited again, since
        its stack can change at any time. */
    method TraverseThread(o: Ref, ghost extra: multiset<Ref>, ghost late: set<Ref>, ghost next: seq<Ref>,
                          ghost bound: set<Ref>)
      requires VisitingThread(o, extra, late, bound) && AllOk(heap, mark, weak, allweak, ephemeron + next)
      modifies this`mark, this`gray, this`grayagain, this`twups
      ensures Marking(extra, {}, late) && Within(bound) && Stepped(next)
      ensures twups == old(twups) || (o !in old(twups) && twups == [o] + old(twups))
    {
      hide MarkInv, Whole, Kept, Lists, Settled, AllOk, Covers, Whites, Grew;
      ghost var m0 := mark;
      SameMarks(m0, o);
      assert {} + {o} == {o};
      Inside(heap, bound, o);
      TidiedNone(heap);
      var th := heap[o];
      ghost var ex: set<Ref> := {o};
      if gcstate != Atomic {
        LinkAgain(o, extra, late);
        ex := {};
      }
      ghost var m1 := mark;
      MarkRefs(th.stack + th.open, extra, ex, late, bound);
      GrewMore(m1, mark);
      AllOkMarks(heap, m0, mark, weak, allweak, ephemeron + next);
      if gcstate == Atomic {
        PartsCover(heap, th, Marked(mark));
        SettleThread(heap, mark, white, Lists(extra), late, twups, o);
        if o !in twups && th.open != [] {
          twups := [o] + twups;
        }
      }
    }

    method LinkAgain(o: Ref, ghost extra: multiset<Ref>, ghost late: set<Ref>)
      requires Marking(extra, {o}, late)
      requires o in heap && !mark[o].Gray? && Linkable(heap[o])
      modifies this`mark, this`grayagain
      ensures Marking(extra, {}, late) && mark == old(mark)[o := Gray]
      ensures grayagain == [o] + old(grayagain)
    {
      hide MarkInv, Whole, Linkable, Settled, Sum;
      SumPush(o, gray, grayagain, weak, allweak, ephemeron, extra);
      assert {} + {o} == {o};
      MarkGray(heap, mark, white, Lists(extra), {}, late, Settled(heap, twups, gcstate.Atomic?), o);
      grayagain := [o] + grayagain;
      mark := mark[o := Gray];
    }

    /** What one step of the propagation does besides keeping the invariant. */
    twostate predicate Propagated(next: seq<Ref>)
      reads this
    {
      && Tidied(old(heap), heap)
      && More(old(mark), mark)
      && |Whites(mark)| <= |Whites(old(mark))|
      && AllOk(heap, mark, weak, allweak, ephemeron + next)
      && (gcstate.Atomic? ==> grayagain == old(grayagain))
      && (!gcstate.Atomic? ==> weak == old(weak) && allweak == old(allweak) && ephemeron == old(ephemeron))
      && (TwupsOk(old(heap), old(twups)) ==> TwupsOk(heap, twups))
      && (forall th :: th in old(twups) ==> th in twups)
      && (RefsIn(old(twups), Marked(old(mark))) ==> RefsIn(twups, Marked(mark)))
    }

    /** Takes the first gray object out of its list and visits it. */
    method PropagateMark(ghost extra: multiset<Ref>, ghost late: set<Ref>, ghost next: seq<Ref>,
                         ghost bound: set<Ref>)
      requires Marking(extra, {}, late) && Within(bound) && gray != []
      requires AllOk(heap, mark, weak, allweak, ephemeron + next) && forall t :: t in next ==> t in extra
      modifies this`heap, this`mark, this`gray, this`grayagain, this`weak, this`allweak, this`ephemeron, this`twups
      ensures Marking(extra, {}, late) && Within(bound) && Propagated(next)
      ensures |Whites(mark)| < |Whites(old(mark))| || |gray| < |old(gray)|
    {
      hide MarkInv, Whole, Kept, Lists, Settled, Linkable, Whites, AllOk, Covers, Grew, Tidied, TwupsOk;
      ghost var m0 := mark;
      var o := PopFirst(extra, late);
      SameBlack(m0, o);
      LinkableKinds(heap[o]);
      AllOkMarks(heap, m0, mark, weak, allweak, ephemeron + next);
      if heap[o].Table? {
        TraverseTable(o, extra, late, next, bound);
        TwupsTidied(old(heap), heap, twups);
      } else if heap[o].Thread? {
        TraverseThread(o, extra, late, next, bound);
        TwupsPush(heap, old(twups), o);
        assert o in Marked(mark) by { assert More(m0, mark); }
      } else {
        ghost var m1 := mark;
        Inside(heap, bound, o);
        MarkRefs(Parts(heap, heap[o]), extra, {o}, late, bound);
        PartsCover(heap, heap[o], Marked(mark));
        GrewMore(m1, mark);
        AllOkMarks(heap, m1, mark, weak, allweak, ephemeron + next);
        assert {} + {o} == {o};
        Settle(heap, mark, white, Lists(extra), {}, late, Settled(heap, twups, gcstate.Atomic?), o);
        TidiedNone(heap);
      }
    }

    method PopFirst(ghost extra: multiset<Ref>, ghost late: set<Ref>)
      returns (o: Ref)
      requires Marking(extra, {}, late) && gray != []
      modifies this`mark, this`gray
      ensures o == old(gray)[0] && gray == old(gray)[1..]
      ensures o in heap && old(mark)[o].Gray? && mark == old(mark)[o := Black] && Linkable(heap[o])
      ensures Marking(extra, {o}, late)
    {
      hide MarkInv, Whole, Settled, Linkable, Sum;
      o := gray[0];
      assert gray == [o] + gray[1..];
      SumPush(o, gray[1..], grayagain, weak, allweak, ephemeron, extra);
      PopGray(heap, mark, white, Lists(extra), {}, late, Settled(heap, twups, gcstate.Atomic?), o);
      assert {} + {o} == {o};
      ghost var all := Lists(extra);
      gray := gray[1..];
      mark := mark[o := Black];
      assert Lists(extra) == all - multiset{o};
    }

    method PropagateAll(ghost extra: multiset<Ref>, ghost late: set<Ref>, ghost next: seq<Ref>,
                        ghost bound: set<Ref>)
      requires Marking(extra, {}, late) && Within(bound)
      requires AllOk(heap, mark, weak, allweak, ephemeron + next) && forall t :: t in next ==> t in extra
      modifies this`heap, this`mark, this`gray, this`grayagain, this`weak, this`allweak, this`ephemeron, this`twups
      ensures Marking(extra, {}, late) && Within(bound) && Propagated(next) && gray == []
    {
      hide MarkInv, Whole, Kept, Lists, Settled, Linkable, Whites, AllOk, Covers, Grew, Tidied, TwupsOk, Marked;
      TidiedNone(heap);
      while gray != []
        invariant Marking(extra, {}, late) && Within(bound) && Propagated(next)
        decreases |Whites(mark)|, |gray|
      {
        ghost var h1 := heap;
        PropagateMark(extra, late, next, bound);
        TidiedTwice(old(heap), h1, heap);
      }
    }

    // ---------------------------------------------------------------- ephemeron tables

    method PopEphemeron(next: seq<Ref>, ghost late: set<Ref>, ghost bound: set<Ref>)
      requires Marking(multiset(next), {}, late) && Within(bound) && next != []
      requires AllOk(heap, mark, weak, allweak, ephemeron + next)
      modifies this`mark
      ensures Visiting(next[0], multiset(next[1..]), late, next[1..], bound)
      ensures EphemeronOk(heap[next[0]], Marked(mark))
      ensures mark == old(mark)[next[0] := Black]
      ensures Marked(mark) == Marked(old(mark)) && Whites(mark) == Whites(old(mark))
    {
      hide MarkInv, Whole, Kept, Settled, Linkable, EphemeronOk, AllOk, Sum, Marked, Whites;
      var w := next[0];
      SumTail(gray, grayagain, weak, allweak, ephemeron, next);
      AllOkPop(heap, mark, weak, allweak, ephemeron, next);
      PopGray(heap, mark, white, Lists(multiset(next)), {}, late, Settled(heap, twups, gcstate.Atomic?), w);
      SameBlack(mark, w);
      EphemeronOkParts(heap[w], Marked(mark));
      assert {} + {w} == {w};
      ghost var m0 := mark;
      mark := mark[w := Black];
      AllOkMarks(heap, m0, mark, weak, allweak, ephemeron + next[1..]);
    }

    /** Visits the first table of `next`, and passes on what it marks. */
    method VisitEphemeron(dir: bool, next: seq<Ref>, ghost late: set<Ref>, ghost bound: set<Ref>)
      returns (marked: bool)
      requires Marking(multiset(next), {}, late) && Within(bound) && gray == [] && gcstate == Atomic
      requires next != [] && AllOk(heap, mark, weak, allweak, ephemeron + next)
      modifies this`heap, this`mark, this`gray, this`grayagain, this`weak, this`allweak, this`ephemeron, this`twups
      ensures Marking(multiset(next[1..]), {}, late) && Within(bound) && Propagated(next[1..]) && gray == []
      ensures marked ==> |Whites(mark)| < |Whites(old(mark))|
      ensures !marked && EphemeronsDone(old(heap), old(mark), old(ephemeron)) ==> EphemeronsDone(heap, mark, ephemeron)
    {
      hide MarkInv, Whole, Kept, Lists, Settled, Linkable, Whites, AllOk, Covers, Grew, Tidied, TwupsOk, Marked;
      hide EphemeronsDone, EntriesDone, MoreByStrings, EphemeronOk;
      ghost var h1, e1, m1 := heap, ephemeron, mark;
      var w := next[0];
      PopEphemeron(next, late, bound);
      ghost var m2 := mark;
      EphemeronOkParts(heap[w], Marked(mark));
      marked := TraverseEphemeron(w, dir, multiset(next[1..]), late, next[1..], bound);
      EphemeronsStay(h1, heap, m1, m2, mark, e1, w);
      TwupsTidied(h1, heap, twups);
      if marked {
        ghost var h2 := heap;
        PropagateAll(multiset(next[1..]), late, next[1..], bound);
        TidiedTwice(h1, h2, heap);
      }
    }

    /** Visits every ephemeron table waiting in `ephemeron`, which is built anew meanwhile. */
    method EphemeronPass(dir: bool, ghost late: set<Ref>, ghost bound: set<Ref>) returns (changed: bool)
      requires Marking(multiset{}, {}, late) && Within(bound) && gray == [] && gcstate == Atomic
      requires AllOk(heap, mark, weak, allweak, ephemeron + [])
      modifies this`heap, this`mark, this`gray, this`grayagain, this`weak, this`allweak, this`ephemeron, this`twups
      ensures Marking(multiset{}, {}, late) && Within(bound) && Propagated([]) && gray == []
      ensures changed ==> |Whites(mark)| < |Whites(old(mark))|
      ensures !changed ==> EphemeronsDone(heap, mark, ephemeron)
    {
      hide MarkInv, Whole, Kept, Settled, Linkable, Whites, AllOk, Covers, Grew, Tidied, TwupsOk, Marked, Sum;
      hide EphemeronsDone;
      var next := ephemeron;
      SumMove(gray, grayagain, weak, allweak, next);
      ephemeron := [];
      changed := false;
      TidiedNone(heap);
      MoreNone(heap, mark);
      EphemeronsDoneNone(heap, mark);
      assert [] + next == next && next + [] == next;
      while next != []
        invariant Marking(multiset(next), {}, late) && Within(bound) && Propagated(next) && gray == []
        invariant changed ==> |Whites(mark)| < |Whites(old(mark))|
        invariant !changed ==> EphemeronsDone(heap, mark, ephemeron)
        decreases |next|
      {
        ghost var h1 := heap;
        var marked := VisitEphemeron(dir, next, late, bound);
        next := next[1..];
        TidiedTwice(old(heap), h1, heap);
        changed := changed || marked;
      }
    }

    method ConvergeEphemerons(ghost late: set<Ref>, ghost bound: set<Ref>)
      requires Marking(multiset{}, {}, late) && Within(bound) && gray == [] && gcstate == Atomic
      requires AllOk(heap, mark, weak, allweak, ephemeron + [])
      modifies this`heap, this`mark, this`gray, this`grayagain, this`weak, this`allweak, this`ephemeron, this`twups
      ensures Marking(multiset{}, {}, late) && Within(bound) && Propagated([]) && gray == []
      ensures EphemeronsDone(heap, mark, ephemeron)
    {
      hide MarkInv, Whole, Kept, Lists, Settled, Linkable, Whites, AllOk, Covers, Grew, Tidied, TwupsOk, Marked;
      hide EphemeronsDone;
      var dir, changed := false, true;
      TidiedNone(heap);
      while changed
        invariant Marking(multiset{}, {}, late) && Within(bound) && Propagated([]) && gray == []
        invariant !changed ==> EphemeronsDone(heap, mark, ephemeron)
        decreases |Whites(mark)|, changed
      {
        ghost var h1 := heap;
        changed := EphemeronPass(dir, late, bound);
        TidiedTwice(old(heap), h1, heap);
        dir := !dir;
      }
    }

    // ---------------------------------------------------------------- the atomic step

    /** Marks the values of the visited open upvalues of the thread `th`. */
    method RemarkThread(th: Ref, ghost extra: multiset<Ref>, ghost late: set<Ref>, ghost bound: set<Ref>)
      requires th in heap && heap[th].Thread?
      requires Marking(extra, Visited(heap[th].open, 0, mark), late) && Within(bound) && UpvalsGray(heap, mark)
      modifies this`mark, this`gray
      ensures Marking(extra, {}, late) && Within(bound) && Grew(old(mark), mark)
    {
      hide MarkInv, Whole, Kept, Lists, Settled, Linkable, Covers, Holds;
      var open := heap[th].open;
      ghost var m0 := mark;
      for j := 0 to |open|
        invariant Marking(extra, Visited(open, j, m0), late) && Within(bound) && Grew(m0, mark)
      {
        var u := open[j];
        ghost var ex := Visited(open, j + 1, m0);
        OpenOf(heap, th, j);
        if !mark[u].IsWhite() {
          Inside(heap, bound, u);
          assert Parts(heap, heap[u]) == [StackSlot(heap, th, heap[u].level)];
          MarkRef(Parts(heap, heap[u])[0], extra, Visited(open, j, m0), late, bound);
          LeaveOpen(heap, mark, white, Lists(extra), open, j, m0, late, Settled(heap, twups, gcstate.Atomic?));
        } else {
          assert Visited(open, j, m0) == ex;
        }
      }
      assert Visited(open, |open|, m0) == {};
    }

    /** Threads that are not marked will be collected: the values of their visited upvalues are
        marked now. Such threads, and those without open upvalues, leave the list `twups`. */
    method RemarkUpvals(ghost extra: multiset<Ref>, ghost late: set<Ref>, ghost bound: set<Ref>)
      requires Marking(extra, {}, late) && Within(bound) && TwupsOk(heap, twups)
      requires forall th :: th in late ==> th in twups
      modifies this`mark, this`gray, this`twups
      ensures Marking(extra, {}, {}) && Within(bound) && TwupsOk(heap, twups) && RefsIn(twups, Marked(mark))
      ensures Grew(old(mark), mark)
    {
      hide MarkInv, Whole, Kept, Lists, Settled, Linkable, Covers, Holds, Marked;
      ghost var rest := late;
      var kept: seq<Ref> := [];
      var p := twups;
      GrewNone(heap, mark);
      while p != []
        invariant twups == kept + p && TwupsOk(heap, twups)
        invariant Marking(extra, {}, rest) && Within(bound) && Grew(old(mark), mark)
        invariant forall th :: th in rest ==> th in p
        invariant RefsIn(kept, Marked(mark))
        decreases |p|
      {
        var th := p[0];
        assert twups[|kept|] == th;
        assert twups == kept + [th] + p[1..];
        if !mark[th].IsWhite() && heap[th].open != [] {
          SameBlack(mark, th);
          DropMarked(heap, mark, white, Lists(extra), rest, Settled(heap, twups, gcstate.Atomic?), th);
          kept := kept + [th];
        } else {
          DropThread(heap, mark, white, Lists(extra), rest, kept, p[1..], gcstate.Atomic?, th);
          ghost var m1 := mark;
          twups := kept + p[1..];
          RemarkThread(th, extra, rest - {th}, bound);
          GrewTwice(old(mark), m1, mark);
        }
        rest := rest - {th};
        p := p[1..];
      }
      assert rest == {};
    }

    /** A table loses entries. */
    method StoreTrimmed(t: Ref, c: Cell, ghost bound: set<Ref>)
      requires Marking(multiset{}, {}, {}) && Within(bound) && t in heap && TrimmedHeap(heap, heap[t := c])
      modifies this`heap
      ensures Marking(multiset{}, {}, {}) && Within(bound) && heap == old(heap)[t := c]
    {
      hide MarkInv, Whole, Kept, Settled, Sum, TrimmedHeap;
      var h := heap[t := c];
      WholeTidied(heap, h, bound);
      TrimKeeps(heap, h, mark, white, Lists(multiset{}), {}, {}, Settled(heap, twups, gcstate.Atomic?));
      SettledTrims(heap, h, twups, gcstate.Atomic?);
      heap := h;
    }

    /** The array part of a table without the values that are to be collected. */
    method ClearArray(t: Ref, ghost bound: set<Ref>) returns (arr: seq<Slot>)
      requires Marking(multiset{}, {}, {}) && Within(bound) && t in heap && t in bound && heap[t].Table?
      requires heap[t].weakVals || ValuesIn(heap[t], Marked(mark))
      modifies this`mark
      ensures Marking(multiset{}, {}, {}) && Within(bound) && GrewByStrings(heap, old(mark), mark)
      ensures |arr| == |heap[t].arr| && SlotsIn(arr, Marked(mark))
      ensures forall i :: 0 <= i < |arr| ==> SlotPurged(heap, heap[t].weakVals, heap[t].arr[i], arr[i], Marked(mark))
    {
      hide MarkInv, Whole, Kept, Settled, Lists, GrewByStrings, Linkable, Whites;
      arr := heap[t].arr;
      GrewNone(heap, mark);
      for i := 0 to |heap[t].arr|
        invariant |arr| == |heap[t].arr|
        invariant Marking(multiset{}, {}, {}) && Within(bound) && GrewByStrings(heap, old(mark), mark)
        invariant heap[t].weakVals || ValuesIn(heap[t], Marked(mark))
        invariant forall j :: 0 <= j < i ==> SlotIn(arr[j], Marked(mark))
        invariant forall j :: 0 <= j < i ==> SlotPurged(heap, heap[t].weakVals, heap[t].arr[j], arr[j], Marked(mark))
        invariant forall j :: i <= j < |arr| ==> arr[j] == heap[t].arr[j]
      {
        HeapAt(heap, bound, t, i);
        if arr[i].Val? {
          ghost var m1 := mark;
          var gone := IsCleared(arr[i].r, multiset{}, {}, {}, bound);
          PurgedStays(heap, old(mark), m1, mark);
          if gone {
            arr := arr[i := Empty];
          }
        }
      }
    }

    method ClearNodeValues(t: Ref, ghost bound: set<Ref>) returns (nodes: seq<Node>)
      requires Marking(multiset{}, {}, {}) && Within(bound) && t in heap && t in bound && heap[t].Table?
      requires heap[t].weakVals || ValuesIn(heap[t], Marked(mark))
      modifies this`mark
      ensures Marking(multiset{}, {}, {}) && Within(bound) && GrewByStrings(heap, old(mark), mark)
      ensures |nodes| == |heap[t].nodes| && AllClean(nodes)
      ensures forall i :: 0 <= i < |nodes| ==> SlotIn(nodes[i].val, Marked(mark))
      ensures forall i :: 0 <= i < |nodes| ==> NodePurged(heap, heap[t], heap[t].nodes[i], nodes[i], Marked(mark))
    {
      hide MarkInv, Whole, Kept, Settled, Lists, GrewByStrings, Linkable, Whites;
      nodes := heap[t].nodes;
      GrewNone(heap, mark);
      for i := 0 to |heap[t].nodes|
        invariant |nodes| == |heap[t].nodes|
        invariant Marking(multiset{}, {}, {}) && Within(bound) && GrewByStrings(heap, old(mark), mark)
        invariant heap[t].weakVals || ValuesIn(heap[t], Marked(mark))
        invariant forall j :: 0 <= j < i ==> Clean(nodes[j]) && SlotIn(nodes[j].val, Marked(mark))
        invariant forall j :: 0 <= j < i ==> NodePurged(heap, heap[t], heap[t].nodes[j], nodes[j], Marked(mark))
        invariant forall j :: i <= j < |nodes| ==> nodes[j] == heap[t].nodes[j]
      {
        HeapAt(heap, bound, t, i);
        if nodes[i].val.Val? {
          ghost var m1 := mark;
          var gone := IsCleared(nodes[i].val.r, multiset{}, {}, {}, bound);
          PurgedStays(heap, old(mark), m1, mark);
          if gone {
            nodes := nodes[i := Node(nodes[i].key, Empty)];
          }
        }
        nodes := nodes[i := CleanNode(nodes[i])];
      }
    }

    method ClearNodeKeys(t: Ref, ghost bound: set<Ref>) returns (nodes: seq<Node>)
      requires Marking(multiset{}, {}, {}) && Within(bound) && t in heap && t in bound && heap[t].Table?
      requires heap[t].weakKeys && AllClean(heap[t].nodes)
      modifies this`mark
      ensures Marking(multiset{}, {}, {}) && Within(bound) && GrewByStrings(heap, old(mark), mark)
      ensures |nodes| == |heap[t].nodes| && AllClean(nodes)
      ensures forall i :: 0 <= i < |nodes| ==> KeyIn(nodes[i].key, Marked(mark))
      ensures forall i :: 0 <= i < |nodes| ==> NodePurged(heap, heap[t], heap[t].nodes[i], nodes[i], Marked(mark))
    {
      hide MarkInv, Whole, Kept, Settled, Lists, GrewByStrings, Linkable, Whites;
      nodes := heap[t].nodes;
      GrewNone(heap, mark);
      for i := 0 to |heap[t].nodes|
        invariant |nodes| == |heap[t].nodes|
        invariant Marking(multiset{}, {}, {}) && Within(bound) && GrewByStrings(heap, old(mark), mark)
        invariant forall j :: 0 <= j < i ==> Clean(nodes[j]) && KeyIn(nodes[j].key, Marked(mark))
        invariant forall j :: 0 <= j < i ==> NodePurged(heap, heap[t], heap[t].nodes[j], nodes[j], Marked(mark))
        invariant forall j :: i <= j < |nodes| ==> nodes[j] == heap[t].nodes[j]
      {
        HeapAt(heap, bound, t, i);
        assert Clean(heap[t].nodes[i]);
        if nodes[i].key.LiveKey? {
          ghost var m1 := mark;
          var gone := IsCleared(nodes[i].key.k, multiset{}, {}, {}, bound);
          PurgedStays(heap, old(mark), m1, mark);
          if gone {
            nodes := nodes[i := Node(nodes[i].key, Empty)];
          }
        }
        nodes := nodes[i := CleanNode(nodes[i])];
      }
    }

    /** What clearing weak tables does besides keeping the invariant. */
    twostate predicate Cleared()
      reads this
    {
      && Pruned(old(heap), heap, Marked(mark))
      && GrewByStrings(old(heap), old(mark), mark)
      && ListsDone(heap, mark, weak, allweak, ephemeron)
    }

    ghost predicate Clearing(bound: set<Ref>)
      reads this
    {
      Marking(multiset{}, {}, {}) && Within(bound) && ListsDone(heap, mark, weak, allweak, ephemeron)
    }

    method ClearTableValues(t: Ref, ghost bound: set<Ref>)
      requires Clearing(bound) && t in heap && t in bound && heap[t].Table?
      requires heap[t].weakVals || ValuesIn(heap[t], Marked(mark))
      modifies this`heap, this`mark
      ensures Clearing(bound) && Cleared()
      ensures t in heap && ValuesIn(heap[t], Marked(mark)) && AllClean(heap[t].nodes)
    {
      hide MarkInv, Whole, Kept, Settled, Lists, GrewByStrings, SlotPurged, NodePurged, ListsDone, Pruned, Clean;
      ghost var m0 := mark;
      var c := heap[t];
      var arr := ClearArray(t, bound);
      ghost var m1 := mark;
      StringsGrew(heap, m0, m1);
      GrewWhites(m0, m1);
      var nodes := ClearNodeValues(t, bound);
      StringsGrew(heap, m1, mark);
      GrewWhites(m1, mark);
      ClearOne(heap, m0, m1, mark, t, arr, nodes, weak, allweak, ephemeron);
      StoreTrimmed(t, c.(arr := arr, nodes := nodes), bound);
    }

    method ClearTableKeys(t: Ref, ghost bound: set<Ref>)
      requires Clearing(bound) && t in heap && t in bound && heap[t].Table?
      requires heap[t].weakKeys && AllClean(heap[t].nodes)
      modifies this`heap, this`mark
      ensures Clearing(bound) && Cleared()
      ensures t in heap && KeysIn(heap[t], Marked(mark))
    {
      hide MarkInv, Whole, Kept, Settled, Lists, GrewByStrings, SlotPurged, NodePurged, ListsDone, Pruned, Clean;
      ghost var m0 := mark;
      var c := heap[t];
      var nodes := ClearNodeKeys(t, bound);
      StringsGrew(heap, m0, mark);
      GrewWhites(m0, mark);
      GrewNone(heap, m0);
      SlotsKept(heap, c, Marked(m0));
      assert c.(arr := c.arr, nodes := nodes) == c.(nodes := nodes);
      ClearOne(heap, m0, m0, mark, t, c.arr, nodes, weak, allweak, ephemeron);
      StoreTrimmed(t, c.(nodes := nodes), bound);
    }

    /** clearbyvalues */
    method ClearByValues(l: seq<Ref>, ghost bound: set<Ref>)
      requires Clearing(bound) && forall t :: t in l ==> Clearable(heap, mark, bound, t)
      modifies this`heap, this`mark
      ensures Clearing(bound) && Cleared()
      ensures forall t :: t in l ==>
                t in heap && heap[t].Table? && ValuesIn(heap[t], Marked(mark)) && AllClean(heap[t].nodes)
    {
      hide MarkInv, Whole, Kept, Settled, Lists, GrewByStrings, ListsDone, Pruned, Clean, ValuesIn, Marked, Clearable;
      PrunedNone(heap, mark);
      for i := 0 to |l|
        invariant Clearing(bound) && Cleared()
        invariant forall t :: t in l ==> Clearable(heap, mark, bound, t)
        invariant forall j :: 0 <= j < i ==>
                    l[j] in heap && heap[l[j]].Table? && ValuesIn(heap[l[j]], Marked(mark)) && AllClean(heap[l[j]].nodes)
      {
        ghost var h1, m1 := heap, mark;
        assert l[i] in l;
        ClearableParts(heap, mark, bound, l[i]);
        ClearTableValues(l[i], bound);
        PrunedTwice(old(heap), h1, heap, old(mark), m1, mark);
        PrunedStays(h1, heap, m1, mark, bound);
      }
    }

    /** clearbykeys */
    method ClearByKeys(l: seq<Ref>, ghost bound: set<Ref>)
      requires Clearing(bound) && forall t :: t in l ==> KeyClearable(heap, bound, t)
      modifies this`heap, this`mark
      ensures Clearing(bound) && Cleared()
      ensures forall t :: t in l ==> t in heap && heap[t].Table? && KeysIn(heap[t], Marked(mark))
    {
      hide MarkInv, Whole, Kept, Settled, Lists, GrewByStrings, ListsDone, Pruned, Clean, KeysIn, Marked, KeyClearable;
      PrunedNone(heap, mark);
      for i := 0 to |l|
        invariant Clearing(bound) && Cleared()
        invariant forall t :: t in l ==> KeyClearable(heap, bound, t)
        invariant forall j :: 0 <= j < i ==> l[j] in heap && heap[l[j]].Table? && KeysIn(heap[l[j]], Marked(mark))
      {
        ghost var h1, m1 := heap, mark;
        assert l[i] in l;
        KeyClearableParts(heap, bound, l[i]);
        ClearTableKeys(l[i], bound);
        PrunedTwice(old(heap), h1, heap, old(mark), m1, mark);
        PrunedStays(h1, heap, m1, mark, bound);
      }
    }

    method AtomicClearValues(ghost bound: set<Ref>)
      requires gcstate == Atomic && Clearing(bound)
      modifies this`heap, this`mark
      ensures Clearing(bound) && Cleared()
      ensures forall t :: t in weak ==> t in heap && heap[t].Table? && ValuesIn(heap[t], Marked(mark))
      ensures forall t :: t in allweak ==>
                t in heap && heap[t].Table? && ValuesIn(heap[t], Marked(mark)) && KeyClearable(heap, bound, t)
      ensures forall t :: t in ephemeron ==> KeyClearable(heap, bound, t)
    {
      hide MarkInv, Whole, Kept, Settled, Sum, GrewByStrings, ListsDone, Pruned, Clean, ValuesIn, KeysIn,
           Marked, Clearable;
      hide KeyClearable;
      ListsClearable(heap, mark, white, weak, allweak, ephemeron, gray, grayagain, bound,
                     Settled(heap, twups, gcstate.Atomic?));
      ghost var h0, m0 := heap, mark;
      ClearByValues(weak, bound);
      PrunedStays(h0, heap, m0, mark, bound);
      ghost var h1, m1 := heap, mark;
      ClearByValues(allweak, bound);
      PrunedTwice(h0, h1, heap, m0, m1, mark);
      PrunedStays(h1, heap, m1, mark, bound);
      forall t | t in allweak
        ensures KeyClearable(heap, bound, t)
      {
        ClearableParts(h0, m0, bound, t);
        KeyClearableParts(heap, bound, t);
      }
    }

    /** Removes from weak tables what is about to be collected. */
    method AtomicClear(ghost bound: set<Ref>)
      requires gcstate == Atomic && Clearing(bound)
      modifies this`heap, this`mark
      ensures Clearing(bound) && Cleared()
      ensures PurgedLists(heap, mark, weak, allweak, ephemeron)
    {
      hide MarkInv, Whole, Kept, Settled, Lists, GrewByStrings, ListsDone, Pruned, Clean, ValuesIn, KeysIn, Marked;
      hide KeyClearable, Clearable;
      ghost var h0, m0 := heap, mark;
      AtomicClearValues(bound);
      ghost var h2, m2 := heap, mark;
      ClearByKeys(ephemeron, bound);
      PrunedTwice(h0, h2, heap, m0, m2, mark);
      PrunedStays(h2, heap, m2, mark, bound);
      ghost var h3, m3 := heap, mark;
      ClearByKeys(allweak, bound);
      PrunedTwice(h0, h3, heap, m0, m3, mark);
      PrunedStays(h3, heap, m3, mark, bound);
    }

    ghost function RootRefs(): seq<Ref>
      reads this`mainthread, this`running, this`registry, this`cache, this`mts
    {
      [mainthread, running, registry, cache] + mts
    }

    /** The threads with open upvalues are known to the collector. */
    ghost predicate ThreadsListed()
      reads this`heap, this`twups
    {
      TwupsOk(heap, twups) && OpenIn(heap, twups, heap.Keys)
    }

    /** The invariant from the start of a collection to its atomic step. */
    ghost predicate Propagating()
      reads this
    {
      PropagatingBut({})
    }

    /** The same, but for the black objects of `ex`. */
    ghost predicate PropagatingBut(ex: set<Ref>)
      reads this
    {
      && (gcstate == Propagate || gcstate == EnterAtomic)
      && Marking(multiset{}, ex, heap.Keys)
      && weak == [] && allweak == [] && ephemeron == []
      && RefsIn(RootRefs(), heap.Keys) && mainthread in Marked(mark)
      && ThreadsListed()
    }

    /** The list `grayagain` is set aside: from now on nothing is added to it. */
    method StartAtomic(ghost late: set<Ref>) returns (again: seq<Ref>)
      requires Propagating() && late == Elems(twups)
      modifies this`grayagain, this`gcstate
      ensures gcstate == Atomic && grayagain == []
      ensures Marking(multiset(again), {}, late)
    {
      hide MarkInv, Whole, Settled, Linkable, OpenIn, Sum;
      LateThreads(heap, mark, white, Lists(multiset{}), twups);
      again := grayagain;
      SumAside(gray, again, weak, allweak, ephemeron);
      grayagain := [];
      gcstate := Atomic;
    }

    lemma RootParts(s: set<Ref>)
      requires RefsIn(RootRefs(), s)
      ensures RefIn(mainthread, s) && RefIn(registry, s) && RefIn(cache, s) && RefsIn(mts, s) && RefIn(running, s)
    {
      assert RootRefs()[0] == mainthread && RootRefs()[2] == registry && RootRefs()[3] == cache;
      assert RootRefs()[1] == running && forall i :: 0 <= i < |mts| ==> mts[i] == RootRefs()[4 + i];
      RootsIn(mainthread, registry, cache, mts, RootRefs(), s);
    }

    /** Marks the roots. */
    method MarkRoots(ghost again: seq<Ref>, ghost late: set<Ref>, ghost bound: set<Ref>)
      requires Marking(multiset(again), {}, late) && Within(bound)
      requires RefsIn(RootRefs(), heap.Keys) && RefsIn(RootRefs(), bound) && mainthread in Marked(mark)
      modifies this`mark, this`gray
      ensures Marking(multiset(again), {}, late) && Within(bound) && Grew(old(mark), mark)
      ensures RefsIn(RootRefs(), Marked(mark))
    {
      hide MarkInv, Whole, Kept, Lists, Settled, Linkable, Whites;
      RootParts(bound);
      RootParts(heap.Keys);
      assert RootRefs()[1] == running && RootRefs()[2] == registry && RootRefs()[3] == cache;
      assert RootRefs()[0] == mainthread && forall i :: 0 <= i < |mts| ==> mts[i] == RootRefs()[4 + i];
      MarkRef(running, multiset(again), {}, late, bound);
      MarkRef(registry, multiset(again), {}, late, bound);
      MarkRefs(mts, multiset(again), {}, late, bound);
      MarkRef(cache, multiset(again), {}, late, bound);
    }

    /** The marking part of the atomic step. */
    method AtomicMark(ghost bound: set<Ref>)
      requires Propagating() && gcstate == EnterAtomic && Within(bound) && RefsIn(RootRefs(), bound)
      modifies this`heap, this`mark, this`gray, this`grayagain, this`weak, this`allweak, this`ephemeron, this`twups
      modifies this`gcstate
      ensures gcstate == Atomic && gray == [] && grayagain == []
      ensures Marking(multiset{}, {}, {}) && Within(bound) && ListsDone(heap, mark, weak, allweak, ephemeron)
      ensures Tidied(old(heap), heap) && More(old(mark), mark)
      ensures RefsIn(RootRefs(), Marked(mark)) && TwupsOk(heap, twups) && RefsIn(twups, Marked(mark))
    {
      hide MarkInv, Whole, Kept, Settled, Linkable, Whites, AllOk, Covers, Grew, Tidied, TwupsOk, Marked, Sum;
      hide EphemeronsDone, RefsIn, OpenIn;
      ghost var m0 := mark;
      ghost var late := Elems(twups);
      var again := StartAtomic(late);
      AllOkNone(heap, mark);
      MarkRoots(again, late, bound);
      GrewMore(m0, mark);
      AllOkMarks(heap, m0, mark, weak, allweak, ephemeron + []);
      ghost var mr := mark;
      PropagateAll(multiset(again), late, [], bound);
      ghost var h1, m1 := heap, mark;
      RefsInMore(RootRefs(), mr, m1);
      RemarkUpvals(multiset(again), late, bound);
      GrewMore(m1, mark);
      AllOkMarks(heap, m1, mark, weak, allweak, ephemeron + []);
      FinishMarking(again, bound);
      TidiedTwice(old(heap), h1, heap);
      RefsInMore(RootRefs(), m1, mark);
    }

    method FinishMarking(again: seq<Ref>, ghost bound: set<Ref>)
      requires gcstate == Atomic && grayagain == []
      requires Marking(multiset(again), {}, {}) && Within(bound)
      requires AllOk(heap, mark, weak, allweak, ephemeron + [])
      requires TwupsOk(heap, twups) && RefsIn(twups, Marked(mark))
      modifies this`heap, this`mark, this`gray, this`grayagain, this`weak, this`allweak, this`ephemeron, this`twups
      ensures gray == [] && grayagain == []
      ensures Marking(multiset{}, {}, {}) && Within(bound) && ListsDone(heap, mark, weak, allweak, ephemeron)
      ensures Tidied(old(heap), heap) && More(old(mark), mark)
      ensures TwupsOk(heap, twups) && RefsIn(twups, Marked(mark))
    {
      hide MarkInv, Whole, Kept, Settled, Linkable, Whites, AllOk, Covers, Grew, Tidied, TwupsOk, Marked, Sum;
      hide EphemeronsDone, RefsIn, OpenIn;
      PropagateAll(multiset(again), {}, [], bound);
      ghost var h2, m2 := heap, mark;
      SumBack(again, weak, allweak, ephemeron);
      gray := again;
      PropagateAll(multiset{}, {}, [], bound);
      TidiedTwice(old(heap), h2, heap);
      ghost var h3, m3 := heap, mark;
      ConvergeEphemerons({}, bound);
      TidiedTwice(old(heap), h3, heap);
      assert ephemeron + [] == ephemeron;
    }

    // ---------------------------------------------------------------- sweeping

    ghost function Snapshot(): Snap
      reads this
    {
      Snap(heap, mark, white, gcstate, sweepgc, gray, twups, RootRefs())
    }

    ghost predicate SoundHere()
      reads this`heap, this`mark, this`white, this`twups
      reads this`mainthread, this`running, this`registry, this`cache, this`mts
    {
      Sound(heap, mark, white, twups, RootRefs())
    }

    ghost function Live(): set<Ref>
      reads this`mark, this`white
    {
      LiveSet(mark, white)
    }

    /** What freeing an object leaves unchanged: the live objects read the same, the white ones
        stay white. */
    twostate predicate Freed()
      reads this
    {
      && Live() == old(Live()) && white == old(white)
      && SameViews(old(heap), heap, Live())
      && forall r :: r in mark && r in old(mark) && old(mark)[r] == white ==> mark[r] == white
    }

    /** One step of luaF_closeupval while the invariant need not be kept: the first open upvalue
        leaves the list with its value. A visited upvalue turns black, and white by the barrier
        when its value is white. */
    method CloseSound(th: Ref)
      requires SoundHere() && th in heap && heap[th].Thread? && heap[th].open != []
      modifies this`heap, this`mark
      ensures SoundHere() && heap == old(ClosedHeap(heap, th)) && heap.Keys == old(heap).Keys
      ensures heap[th] == old(UnlinkedThread(heap, th, 0)) && th in old(mark) && mark[th] == old(mark)[th]
      ensures Live() == old(Live()) && white.IsWhite()
      ensures forall r :: r in mark && r in old(mark) && old(mark)[r].IsWhite() ==> mark[r] == old(mark)[r]
      ensures th !in Live() ==> SameViews(old(heap), heap, Live())
    {
      hide Sound, SameViews, LiveSet, ClosedHeap, UnlinkStep, Shape;
      var u := heap[th].open[0];
      SoundParts(heap, mark, white, twups, RootRefs());
      ClosedStep(heap, th);
      ClosedThread(heap, th);
      var v := StackSlot(heap, th, OpenLevel(heap, u));
      SweptUpvalKept(mark, u, v, white);
      var h, m := ClosedHeap(heap, th), SweptUpval(mark, u, v, white);
      SoundUnlinked(heap, h, mark, m, white, twups, RootRefs(), th, 0);
      if th !in Live() {
        ViewsUnlinked(heap, h, mark, white, twups, RootRefs(), th, 0);
      }
      heap, mark := h, m;
    }

    method FreeUpval(u: Ref)
      requires SoundHere() && u in heap && mark[u] == white.OtherWhite() && heap[u].UpOpen?
      modifies this`heap, this`mark
      ensures SoundHere() && Freed() && heap.Keys == old(heap).Keys - {u}
    {
      hide Sound, SameViews;
      SoundParts(heap, mark, white, twups, RootRefs());
      assert OpenAt(heap, u);
      var th := heap[u].owner;
      var i: nat :| i < |heap[th].open| && heap[th].open[i] == u;
      UpvalKind(heap, th, i);
      OpenLive(heap, mark, white, twups, RootRefs(), th, i);
      var h := heap[th := UnlinkedThread(heap, th, i)] - {u};
      var m := mark - {u};
      assert LiveSet(m, white) == LiveSet(mark, white);
      SoundUnlinked(heap, h, mark, m, white, twups, RootRefs(), th, i);
      ViewsUnlinked(heap, h, mark, white, twups, RootRefs(), th, i);
      heap, mark := h, m;
    }

    method FreeObj(o: Ref)
      requires SoundHere() && o in heap && mark[o] == white.OtherWhite()
      modifies this`heap, this`mark
      ensures SoundHere() && Freed() && heap.Keys == old(heap).Keys - {o}
    {
      hide Sound, SameViews;
      SoundParts(heap, mark, white, twups, RootRefs());
      SameViewsNone(heap, Live());
      if heap[o].UpOpen? {
        FreeUpval(o);
      } else {
        while heap[o].Thread? && heap[o].open != []
          invariant SoundHere() && Freed() && heap.Keys == old(heap).Keys
          invariant mark.Keys == heap.Keys && mark[o] == white.OtherWhite() && !heap[o].UpOpen?
          decreases if heap[o].Thread? then |heap[o].open| else 0
        {
          ghost var h1 := heap;
          CloseSound(o);
          SameViewsTwice(old(heap), h1, heap, Live());
          SoundParts(heap, mark, white, twups, RootRefs());
        }
        ghost var h1 := heap;
        FreePlain(heap, mark, white, twups, RootRefs(), o);
        ViewsPlain(heap, mark, white, twups, RootRefs(), o);
        heap, mark := heap - {o}, mark - {o};
        SameViewsTwice(old(heap), h1, heap, Live());
      }
    }

    /** The sweep has come to the last `left` objects of `allgc`. */
    ghost predicate SweepAt(left: nat)
      reads this
    {
      SoundHere() && AllListed(heap, allgc) && left <= |allgc| && SweptTo(mark, white, allgc, left)
    }

    /** A dead object leaves `allgc` and is freed. */
    method FreeAt(left: nat)
      requires SweepAt(left) && left > 0 && allgc[|allgc| - left] in mark
      requires mark[allgc[|allgc| - left]] == white.OtherWhite()
      modifies this`heap, this`mark, this`allgc
      ensures SweepAt(left - 1) && Live() == old(Live()) && SameViews(old(heap), heap, Live())
      ensures heap.Keys <= old(heap).Keys
    {
      hide Sound, SoundHere, SameViews, SweptTo, AllListed, LiveSet, Unlinked;
      ghost var h0, m0 := heap, mark;
      var i := |allgc| - left;
      KeysKept();
      FreeObj(allgc[i]);
      KeysKept();
      DropListed(h0, heap, allgc, i);
      DropSwept(heap, m0, mark, white, allgc, i);
      UnlinkedAt(allgc, i);
      allgc := Unlinked(allgc, i);
    }

    lemma KeysKept()
      requires SoundHere()
      ensures mark.Keys == heap.Keys && white.IsWhite() && Shape(heap) && Live() <= heap.Keys
    {
      hide Sound, LiveSet, Shape;
      SoundParts(heap, mark, white, twups, RootRefs());
    }

    /** One object of `allgc` is freed when it has the old white, and else whitened. */
    method SweepOne(left: nat)
      requires SweepAt(left) && left > 0
      modifies this`heap, this`mark, this`allgc
      ensures SweepAt(left - 1) && Live() == old(Live()) && SameViews(old(heap), heap, Live())
      ensures heap.Keys <= old(heap).Keys
    {
      hide Sound, SameViews, SweptTo, AllListed;
      var i := |allgc| - left;
      var curr := allgc[i];
      KeysKept();
      ListedAt(heap, allgc, i);
      if mark[curr] == white.OtherWhite() {
        FreeAt(left);
      } else {
        SameViewsNone(heap, Live());
        WhitenLive(heap, mark, white, twups, RootRefs(), curr);
        SweptMore(mark, white, allgc, i);
        mark := mark[curr := white];
      }
    }

    /** sweeplist, for the list of all objects: at most `count` objects are swept. `sweepgc` tells
        how many are left, or is -1 when the list is finished, as NULL is. */
    method SweepList(count: nat)
      requires sweepgc >= 0 && SweepAt(sweepgc)
      modifies this`heap, this`mark, this`allgc, this`sweepgc
      ensures -1 <= sweepgc <= |allgc| && SweepAt(if sweepgc < 0 then 0 else sweepgc)
      ensures Live() == old(Live()) && SameViews(old(heap), heap, Live())
      ensures sweepgc == if old(sweepgc) <= count then -1 else old(sweepgc) - count
      ensures heap.Keys <= old(heap).Keys
    {
      hide Sound, SameViews, SweptTo, AllListed;
      var left, n := sweepgc, count;
      SoundParts(heap, mark, white, twups, RootRefs());
      SameViewsNone(heap, Live());
      while left > 0 && n > 0
        invariant 0 <= left && 0 <= n && left + count == old(sweepgc) + n
        invariant SweepAt(left) && Live() == old(Live()) && SameViews(old(heap), heap, Live())
        invariant heap.Keys <= old(heap).Keys
        decreases n
      {
        ghost var h1 := heap;
        SweepOne(left);
        SameViewsTwice(old(heap), h1, heap, Live());
        left, n := left - 1, n - 1;
      }
      sweepgc := if left == 0 then -1 else left;
    }

    // ---------------------------------------------------------------- the collector's steps

    ghost predicate Sweeping()
      reads this
    {
      gcstate == SwpAllGC || gcstate == SwpFinObj || gcstate == SwpToBeFnz || gcstate == SwpEnd
    }

    /** The invariant between any two steps of the program or the collector. */
    ghost predicate Valid()
      reads this
    {
      && SoundHere() && AllListed(heap, allgc) && mainthread != 0 && gcstate != Atomic
      && (gcstate == Propagate || gcstate == EnterAtomic ==> Propagating())
      && -1 <= sweepgc <= |allgc|
      && (!(gcstate == Propagate || gcstate == EnterAtomic) ==>
            SweptTo(mark, white, allgc, if sweepgc < 0 then 0 else sweepgc))
      && (sweepgc >= 0 ==> Sweeping())
      && (gcstate == SwpAllGC ==> sweepgc != 0)
      && (gcstate == SwpFinObj || gcstate == SwpToBeFnz ==> sweepgc <= 0)
      && (gcstate == SwpEnd ==> sweepgc < 0)
    }

    /** `bound` limits what this cycle may keep: it holds the roots and what its members keep
        alive, so far nothing else is marked, and after the atomic step nothing else is live. */
    ghost predicate Limited(bound: set<Ref>)
      reads this
    {
      && (gcstate == Pause || gcstate == Propagate || gcstate == EnterAtomic ==>
            Kept(heap, bound, true) && RefsIn(RootRefs(), bound))
      && (gcstate == Propagate || gcstate == EnterAtomic ==> Marked(mark) <= bound)
      && (Sweeping() || gcstate == CallFin ==> Live() <= bound)
    }

    /** The atomic step: everything the roots keep alive is marked, weak tables lose what is not,
        and the whites are exchanged, so that all that is not marked is dead. */
    method AtomicStep(ghost bound: set<Ref>)
      requires Propagating() && gcstate == EnterAtomic && white.IsWhite()
      requires Within(bound) && RefsIn(RootRefs(), bound)
      modifies this`heap, this`mark, this`gray, this`grayagain, this`weak, this`allweak, this`ephemeron, this`twups
      modifies this`gcstate, this`white
      ensures gcstate == Atomic && SoundHere() && white == old(white).OtherWhite()
      ensures heap.Keys == old(heap).Keys && Live() <= bound
      ensures Kept(old(heap), Live(), false) && PurgedHeap(old(heap), heap, Live())
    {
      hide MarkInv, Whole, Kept, Settled, AllOk, Covers, Tidied, TwupsOk, Sound, RefsIn, OpenIn, Sum, Pruned;
      hide GrewByStrings, ListsDone, PurgedLists, PurgedHeap;
      AtomicMark(bound);
      ghost var h1, m1 := heap, mark;
      AtomicClear(bound);
      KeptMarked(h1, m1, mark, white, weak, allweak, ephemeron, Settled(h1, twups, true));
      KeptTidied(old(heap), h1, Marked(mark));
      AfterClear(old(heap), h1, heap, m1, mark, RootRefs(), twups);
      SoundAtomic(heap, mark, white, weak, allweak, ephemeron, twups, RootRefs());
      white := white.OtherWhite();
    }

    /** The first sweep: up to the first live object, so that `sweepgc` leaves the head of the
        list, where new objects are linked. */
    method EnterSweep()
      requires SoundHere() && AllListed(heap, allgc)
      modifies this`heap, this`mark, this`allgc, this`sweepgc, this`gcstate
      ensures gcstate == SwpAllGC && SoundHere() && AllListed(heap, allgc)
      ensures -1 <= sweepgc <= |allgc| && sweepgc != 0
      ensures SweptTo(mark, white, allgc, if sweepgc < 0 then 0 else sweepgc)
      ensures Live() == old(Live()) && SameViews(old(heap), heap, Live()) && heap.Keys <= old(heap).Keys
    {
      hide Sound, SameViews, SweptTo, AllListed;
      gcstate := SwpAllGC;
      SoundParts(heap, mark, white, twups, RootRefs());
      SameViewsNone(heap, Live());
      SweptNone(mark, white, allgc);
      sweepgc := |allgc|;
      SweepList(1);
      while sweepgc == |allgc|
        invariant gcstate == SwpAllGC && heap.Keys <= old(heap).Keys
        invariant -1 <= sweepgc <= |allgc| && sweepgc != 0 && SweepAt(if sweepgc < 0 then 0 else sweepgc)
        invariant Live() == old(Live()) && SameViews(old(heap), heap, Live())
        decreases sweepgc + 1
      {
        ghost var h1 := heap;
        SweepList(1);
        SameViewsTwice(old(heap), h1, heap, Live());
      }
    }

    /** The marking invariant contains soundness. */
    lemma PropagatingSound()
      requires Propagating() && white.IsWhite()
      ensures SoundHere() && Live() == heap.Keys
    {
      hide MarkInv, Whole, Sound, OnlyWhite, UpvalsGray, OpenIn, TwupsOk, LiveSet;
      InvUpvals(heap, mark, white, Lists(multiset{}), heap.Keys, Settled(heap, twups, gcstate.Atomic?));
      WholeSound(heap, mark, white, twups, RootRefs());
    }

    method ClearGrayLists()
      requires mark.Keys == heap.Keys && Whole(heap) && gcstate != Atomic
      requires white.IsWhite() && forall r :: r in mark ==> mark[r] == white
      modifies this`gray, this`grayagain, this`weak, this`allweak, this`ephemeron
      ensures Marking(multiset{}, {}, heap.Keys) && Marked(mark) == {}
      ensures weak == [] && allweak == [] && ephemeron == []
    {
      hide MarkInv, Whole, OnlyWhite, Settled, Sum, Marked;
      WholeShape(heap);
      FreshMarks(heap, mark, white);
      NoneSettled(heap, twups);
      gray, grayagain := [], [];
      weak, allweak, ephemeron := [], [], [];
    }

    /** restartcollection: the gray lists are emptied and the roots marked. */
    method RestartCollection(ghost bound: set<Ref>)
      requires mark.Keys == heap.Keys && Whole(heap) && gcstate != Atomic
      requires white.IsWhite() && forall r :: r in mark ==> mark[r] == white
      requires Kept(heap, bound, true) && RefsIn(RootRefs(), bound) && RefsIn(RootRefs(), heap.Keys) && mainthread != 0
      modifies this`gray, this`grayagain, this`weak, this`allweak, this`ephemeron, this`mark
      ensures Marking(multiset{}, {}, heap.Keys) && Within(bound) && mainthread in Marked(mark)
      ensures weak == [] && allweak == [] && ephemeron == []
    {
      hide Marking, Whole, Kept, RefsIn, Grew, Whites, Marked, RootRefs;
      RootParts(bound);
      RootParts(heap.Keys);
      ClearGrayLists();
      MarkRef(mainthread, multiset{}, {}, heap.Keys, bound);
      ghost var m1 := mark;
      MarkGlobals(bound);
      GrewMore(m1, mark);
    }

    method MarkGlobals(ghost bound: set<Ref>)
      requires Marking(multiset{}, {}, heap.Keys) && Within(bound)
      requires RefIn(registry, heap.Keys) && RefIn(cache, heap.Keys) && RefsIn(mts, heap.Keys)
      requires RefIn(registry, bound) && RefIn(cache, bound) && RefsIn(mts, bound)
      modifies this`gray, this`mark
      ensures Marking(multiset{}, {}, heap.Keys) && Within(bound) && Grew(old(mark), mark)
    {
      hide MarkInv, Whole, Kept, Linkable, Settled, Sum, RefsIn, Whites, Marked;
      MarkRef(registry, multiset{}, {}, heap.Keys, bound);
      MarkRefs(mts, multiset{}, {}, heap.Keys, bound);
      MarkRef(cache, multiset{}, {}, heap.Keys, bound);
    }

    method StartCycle(ghost bound: set<Ref>)
      requires Valid() && gcstate == Pause && Limited(bound)
      modifies this`gray, this`grayagain, this`weak, this`allweak, this`ephemeron, this`mark, this`gcstate
      ensures Valid() && Limited(bound) && gcstate == Propagate && Observed()
    {
      hide Sound, AllSeenAs, KeptAlive, Propagating, SweptTo, AllListed, Kept, RefsIn, Marked, LiveSet, RootRefs;
      Restart(bound);
      assert SoundHere();
      ObservedNone();
    }

    method Restart(ghost bound: set<Ref>)
      requires Valid() && gcstate == Pause && Limited(bound)
      modifies this`gray, this`grayagain, this`weak, this`allweak, this`ephemeron, this`mark, this`gcstate
      ensures Valid() && Limited(bound) && gcstate == Propagate
    {
      hide Sound, Whole, SweptTo, AllListed, Kept, OpenIn, TwupsOk, OnlyWhite, RefsIn, Marked, LiveSet;
      hide RootRefs, MarkInv, Settled, Propagating, Sum, Shape;
      PauseParts();
      RestartCollection(bound);
      gcstate := Propagate;
      PropagatingHere();
      PropagatingSound();
    }

    lemma PropagatingHere()
      requires gcstate == Propagate && Marking(multiset{}, {}, heap.Keys)
      requires weak == [] && allweak == [] && ephemeron == []
      requires RefsIn(RootRefs(), heap.Keys) && mainthread in Marked(mark)
      requires TwupsOk(heap, twups) && OpenIn(heap, twups, heap.Keys)
      ensures Propagating()
    {
      hide Marking, RefsIn, Marked, TwupsOk, OpenIn;
    }

    /** In the pause everything is white and live. */
    lemma PauseParts()
      requires Valid() && gcstate == Pause
      ensures mark.Keys == heap.Keys && white.IsWhite() && Whole(heap) && forall r :: r in mark ==> mark[r] == white
      ensures RefsIn(RootRefs(), heap.Keys) && TwupsOk(heap, twups) && OpenIn(heap, twups, heap.Keys)
    {
      hide Sound, Whole, SweptTo, AllListed, OpenIn, TwupsOk, OnlyWhite, RefsIn, LiveSet, Propagating, Shape;
      SoundParts(heap, mark, white, twups, RootRefs());
      AllWhite(heap, mark, white, allgc);
      OnlyOne(mark, white);
      SoundWhole(heap, mark, white, twups, RootRefs());
      SoundTwups(heap, mark, white, twups, RootRefs());
    }

    /** What a step of the collector does to the program: what the roots keep alive stays, and
        live objects read the same but for weak references to objects that are dead. */
    twostate predicate Observed()
      reads this
    {
      && heap.Keys <= old(heap).Keys
      && AllSeenAs(old(heap), heap, Live())
      && (forall r :: KeptAlive(old(heap), RootSet(old(RootRefs())), r) ==> r in Live())
    }

    method PropagateStep(ghost bound: set<Ref>)
      requires Valid() && gcstate == Propagate && Limited(bound) && gray != []
      modifies this`heap, this`mark, this`gray, this`grayagain, this`weak, this`allweak, this`ephemeron, this`twups
      ensures Valid() && Limited(bound) && Observed()
      ensures |Whites(mark)| < |Whites(old(mark))| || (|Whites(mark)| == |Whites(old(mark))| && |gray| < |old(gray)|)
    {
      hide MarkInv, Sound, Whole, SweptTo, AllListed, Kept, OpenIn, TwupsOk, Lists, Settled, RefsIn, Linkable, AllOk;
      hide Tidied, AllSeenAs, KeptAlive, Marked, Whites, LiveSet;
      KeptAliveLive(heap, mark, white, twups, RootRefs());
      AllOkNone(heap, mark);
      assert ephemeron + [] == [];
      SoundParts(heap, mark, white, twups, RootRefs());
      ghost var h0, m0, t0 := heap, mark, twups;
      PropagatingSound();
      PropagateMark(multiset{}, heap.Keys, [], bound);
      TidiedKeys(h0, heap);
      OpenInTidied(h0, heap, t0, twups);
      SameListed(h0, heap, allgc);
      PropagatingSound();
      TidiedSeen(h0, heap, Live());
    }

    /** The atomic step, followed by the first sweep. */
    method AtomicAndSweep(ghost bound: set<Ref>)
      requires Valid() && gcstate == EnterAtomic && Limited(bound)
      modifies this`heap, this`mark, this`gray, this`grayagain, this`weak, this`allweak, this`ephemeron, this`twups
      modifies this`gcstate, this`white, this`allgc, this`sweepgc
      ensures Valid() && Limited(bound) && Observed() && gcstate == SwpAllGC
      ensures Kept(old(heap), Live(), false) && white == old(white).OtherWhite()
    {
      hide MarkInv, Sound, Whole, SweptTo, AllListed, Kept, OpenIn, TwupsOk, Lists, Settled, RefsIn, AllOk;
      hide Tidied, AllSeenAs, KeptAlive, Marked, Whites, LiveSet, PurgedHeap;
      SoundParts(heap, mark, white, twups, RootRefs());
      ghost var h0 := heap;
      AtomicStep(bound);
      SameListed(h0, heap, allgc);
      ghost var h1 := heap;
      SoundTwups(heap, mark, white, twups, RootRefs());
      KeptAliveIn(h0, RootRefs(), Live());
      EnterSweep();
      PurgedSeen(h0, h1, heap, Live());
      SoundParts(heap, mark, white, twups, RootRefs());
    }

    method SweepStep(next: Phase, nextlist: int, fast: bool, ghost bound: set<Ref>)
      requires Valid() && Limited(bound) && Sweeping() && gcstate != SwpEnd
      requires gcstate == SwpAllGC ==> next == SwpFinObj && nextlist == 0
      requires gcstate == SwpFinObj ==> next == SwpToBeFnz && nextlist == 0
      requires gcstate == SwpToBeFnz ==> next == SwpEnd && nextlist == -1
      modifies this`heap, this`mark, this`allgc, this`sweepgc, this`gcstate
      ensures Valid() && Limited(bound) && Observed()
      ensures Live() == old(Live()) && SameViews(old(heap), heap, Live())
      ensures old(sweepgc) >= 0 ==> gcstate == old(gcstate) && sweepgc < old(sweepgc)
      ensures var count := if fast then MAX_LMEM else GCSWEEPMAX;
              old(sweepgc) >= 0 ==> sweepgc == if old(sweepgc) <= count then -1 else old(sweepgc) - count
      ensures old(sweepgc) < 0 ==> gcstate == next && sweepgc == nextlist
    {
      hide Sound, SweptTo, AllListed, Kept, RefsIn, AllSeenAs, KeptAlive, LiveSet, Propagating;
      SoundParts(heap, mark, white, twups, RootRefs());
      KeptAliveLive(heap, mark, white, twups, RootRefs());
      SameViewsNone(heap, Live());
      PurgedNone(heap, Live());
      PurgedSeen(heap, heap, heap, Live());
      if sweepgc >= 0 {
        ghost var h0 := heap;
        SweepList(if fast then MAX_LMEM else GCSWEEPMAX);
        PurgedSeen(h0, h0, heap, Live());
      } else {
        gcstate := next;
        sweepgc := nextlist;
      }
    }

    /** Nothing moves but the state. */
    lemma ObservedNone()
      requires SoundHere()
      ensures AllSeenAs(heap, heap, Live())
      ensures forall r :: KeptAlive(heap, RootSet(RootRefs()), r) ==> r in Live()
    {
      hide Sound, AllSeenAs, KeptAlive;
      SoundParts(heap, mark, white, twups, RootRefs());
      KeptAliveLive(heap, mark, white, twups, RootRefs());
      SameViewsNone(heap, Live());
      PurgedNone(heap, Live());
      PurgedSeen(heap, heap, heap, Live());
    }

    /** How far a running step has come in its cycle. */
    twostate predicate Advanced()
      reads this
    {
      || Rank(gcstate) < Rank(old(gcstate))
      || (gcstate == old(gcstate) && gcstate != Propagate && sweepgc < old(sweepgc))
      || (gcstate == old(gcstate) == Propagate
          && (|| |Whites(mark)| < |Whites(old(mark))|
              || (|Whites(mark)| == |Whites(old(mark))| && |gray| < |old(gray)|)))
    }

    /** The steps that only go to the next state. */
    method NextState(ghost bound: set<Ref>)
      requires Valid() && Limited(bound) && (gcstate == Propagate || gcstate == SwpEnd || gcstate == CallFin)
      modifies this`gcstate
      ensures Valid() && Observed() && Advanced()
      ensures old(gcstate) == Propagate ==> gcstate == EnterAtomic && Limited(bound)
      ensures old(gcstate) == SwpEnd ==> gcstate == CallFin && Limited(bound)
      ensures old(gcstate) == CallFin ==> gcstate == Pause
      ensures SameViews(heap, heap, Live()) && Live() == old(Live())
    {
      hide Sound, SweptTo, AllListed, Kept, RefsIn, AllSeenAs, KeptAlive, SameViews, MarkInv, Whole, Lists, Settled;
      hide LiveSet, Marked, Whites, OpenIn, TwupsOk;
      ObservedNone();
      SoundParts(heap, mark, white, twups, RootRefs());
      SameViewsNone(heap, Live());
      if gcstate == Propagate {
        gcstate := EnterAtomic;
      } else if gcstate == SwpEnd {
        gcstate := CallFin;
      } else {
        gcstate := Pause;
      }
    }

    /** One step of the collector in incremental mode. `fast` ends the propagation at once and
        sweeps whole lists. */
    method SingleStep(fast: bool, ghost bound: set<Ref>)
      requires Valid() && Limited(bound)
      modifies this`heap, this`mark, this`gray, this`grayagain, this`weak, this`allweak, this`ephemeron, this`twups
      modifies this`gcstate, this`white, this`allgc, this`sweepgc
      ensures Valid() && Observed() && Follows(old(Snapshot()), Snapshot(), fast)
      ensures old(gcstate) != CallFin ==> Limited(bound)
      ensures old(gcstate) != Pause ==> Advanced()
      ensures old(gcstate) == Pause ==> gcstate == Propagate
      ensures old(gcstate) == CallFin ==> gcstate == Pause && heap == old(heap)
      ensures old(gcstate) == EnterAtomic ==> gcstate == SwpAllGC && Kept(old(heap), Live(), false)
      ensures old(gcstate) == Pause ==> heap == old(heap)
      ensures fast && old(gcstate) == Propagate ==> gcstate == EnterAtomic && heap == old(heap)
      ensures old(Sweeping()) || old(gcstate) == CallFin ==> Live() == old(Live()) && SameViews(old(heap), heap, Live())
    {
      hide Kept, SameViews, LiveSet, Whites, Limited, Propagating, Observed, AllListed, SweptTo;
      hide Sound;
      if gcstate == Pause {
        StartCycle(bound);
      } else if gcstate == Propagate {
        if fast || gray == [] {
          NextState(bound);
        } else {
          PropagateStep(bound);
        }
      } else if gcstate == EnterAtomic {
        AtomicAndSweep(bound);
      } else if gcstate == SwpAllGC {
        SweepStep(SwpFinObj, 0, fast, bound);
      } else if gcstate == SwpFinObj {
        SweepStep(SwpToBeFnz, 0, fast, bound);
      } else if gcstate == SwpToBeFnz {
        SweepStep(SwpEnd, -1, fast, bound);
      } else if gcstate == SwpEnd || gcstate == CallFin {
        NextState(bound);
      }
    }

    /** All is swept: nothing but live objects is left. */
    lemma AllLive()
      requires Valid() && (gcstate == Pause || gcstate == CallFin)
      ensures Live() == heap.Keys
    {
      hide Sound, Propagating;
      SoundParts(heap, mark, white, twups, RootRefs());
      AllWhite(heap, mark, white, allgc);
    }

    /** Finishes the sweep that is under way. */
    method FinishSweep()
      requires Valid() && (Sweeping() || gcstate == CallFin || gcstate == Pause)
      modifies this`heap, this`mark, this`gray, this`grayagain, this`weak, this`allweak, this`ephemeron, this`twups
      modifies this`gcstate, this`white, this`allgc, this`sweepgc
      ensures Valid() && gcstate == Pause && heap.Keys == old(Live()) && SameViews(old(heap), heap, heap.Keys)
    {
      hide Sound, SweptTo, AllListed, Kept, RefsIn, AllSeenAs, KeptAlive, SameViews, LiveSet, Marked, Whites,
           Propagating;
      SoundParts(heap, mark, white, twups, RootRefs());
      SameViewsNone(heap, Live());
      while gcstate != Pause
        invariant Valid() && (Sweeping() || gcstate == CallFin || gcstate == Pause)
        invariant Live() == old(Live()) && SameViews(old(heap), heap, Live())
        decreases Rank(gcstate), sweepgc + 1
      {
        ghost var h1 := heap;
        SingleStep(true, Live());
        SameViewsTwice(old(heap), h1, heap, Live());
      }
      SameViewsIn(old(heap), heap, Live());
      AllLive();
    }

    /** A whole cycle without steps of the program in between. */
    method FullCycle(ghost bound: set<Ref>)
      requires Valid() && gcstate == Pause && Kept(heap, bound, true) && RefsIn(RootRefs(), bound)
      modifies this`heap, this`mark, this`gray, this`grayagain, this`weak, this`allweak, this`ephemeron, this`twups
      modifies this`gcstate, this`white, this`allgc, this`sweepgc
      ensures Valid() && gcstate == Pause
      ensures heap.Keys <= bound
      ensures Kept(old(heap), heap.Keys, false) && RefsIn(RootRefs(), heap.Keys) && heap.Keys <= old(heap).Keys
      ensures Live() == heap.Keys && Observed()
    {
      hide Sound, SweptTo, AllListed, Kept, RefsIn, AllSeenAs, KeptAlive, SameViews, LiveSet, Marked, Whites,
           Propagating;
      SingleStep(true, bound);
      SingleStep(true, bound);
      SingleStep(true, bound);
      SoundParts(heap, mark, white, twups, RootRefs());
      ghost var h1, live := heap, Live();
      FinishSweep();
      SeenViews(old(heap), h1, heap, live);
      SoundTwups(heap, mark, white, twups, RootRefs());
      AllLive();
    }

    /** A full collection, started at any point of a cycle: what is left is exactly what the roots
        keep alive, in that it contains all that its members keep alive, and lies in every set
        that holds the roots and all that its members keep alive. */
    method FullCollection(ghost bound: set<Ref>)
      requires Valid() && Kept(heap, bound, true) && RefsIn(RootRefs(), bound)
      modifies this`heap, this`mark, this`gray, this`grayagain, this`weak, this`allweak, this`ephemeron, this`twups
      modifies this`gcstate, this`white, this`allgc, this`sweepgc
      ensures Valid() && gcstate == Pause
      ensures heap.Keys <= bound && heap.Keys <= old(heap).Keys
      ensures RefsIn(RootRefs(), heap.Keys) && Kept(old(heap), heap.Keys, false)
      ensures Live() == heap.Keys && Observed()
    {
      hide Sound, SweptTo, AllListed, Kept, RefsIn, SameViews, LiveSet, Marked, Whites, Propagating, AllSeenAs,
           KeptAlive;
      hide Whole;
      ghost var h0, live := heap, Live();
      SoundParts(heap, mark, white, twups, RootRefs());
      SameViewsNone(heap, Live());
      if gcstate == Propagate || gcstate == EnterAtomic {
        EnterSweep();
      }
      ghost var h1 := heap;
      FinishSweep();
      SameViewsTwice(h0, h1, heap, live);
      ghost var h2 := heap;
      SameViewsIn(h0, h2, h2.Keys);
      KeptViews(h0, h2, bound);
      PauseParts();
      FullCycle(bound);
      ViewsSeen(h0, h2, heap, heap.Keys);
      KeptViewsBack(h0, h2, heap.Keys);
      KeptAliveIn(h0, RootRefs(), heap.Keys);
    }

    /** Steps, of any size, end the cycle that is under way. */
    method FinishCycle(fast: bool)
      requires Valid()
      modifies this
      ensures Valid() && gcstate == Pause && Live() == heap.Keys && heap.Keys <= old(Live())
      ensures RootRefs() == old(RootRefs())
    {
      hide Valid, Limited, Observed, Kept, SameViews, AllSeenAs, KeptAlive, LiveSet, Whites, Sweeping;
      LiveNow();
      while gcstate != Pause
        invariant Valid() && Live() <= old(Live()) && RootRefs() == old(RootRefs())
        decreases Rank(gcstate), if gcstate == Propagate then |Whites(mark)| else sweepgc + 1,
                  if gcstate == Propagate then |gray| else 0
      {
        SweepBound();
        CollectAny(fast);
        SweepBound();
      }
      AllLive();
    }

    lemma SweepBound()
      requires Valid()
      ensures sweepgc >= -1
    {
    }

    // ---------------------------------------------------------------- the program's steps

    ghost predicate KeepInvariant()
      reads this
    {
      gcstate == Propagate || gcstate == EnterAtomic
    }

    /** What a write leaves as it was. */
    twostate predicate Steady()
      reads this
    {
      gcstate == old(gcstate) && white == old(white) && allgc == old(allgc) && sweepgc == old(sweepgc)
    }

    /** luaC_barrier_: the black object `o` refers to the white `v`. While marking `v` is marked,
        and else `o` is made white. */
    method Barrier(o: Ref, v: Ref)
      requires o in heap && mark.Keys == heap.Keys && mark[o].Black? && v in heap && mark[v].IsWhite()
      requires !heap[o].UpOpen? && !heap[o].Thread?
      requires KeepInvariant() ==> Marking(multiset{}, {o}, heap.Keys) && Covers(heap, heap[o], Marked(mark) + {v})
      requires !KeepInvariant() ==> SoundHere() && o in Live()
      modifies this`mark, this`gray
      ensures KeepInvariant() ==> Marking(multiset{}, {}, heap.Keys) && Grew(old(mark), mark)
      ensures !KeepInvariant() ==> SoundHere() && Live() == old(Live()) && mark == old(mark)[o := white]
    {
      hide Sound, Marking, Whole, Kept, Covers, Settled, LiveSet, Whites, Grew;
      if gcstate == Propagate || gcstate == EnterAtomic {
        BarrierForward(o, v);
      } else {
        WhitenLive(heap, mark, white, twups, RootRefs(), o);
        mark := mark[o := white];
      }
    }

    method BarrierForward(o: Ref, v: Ref)
      requires o in heap && mark.Keys == heap.Keys && mark[o].Black? && v in heap && mark[v].IsWhite()
      requires !heap[o].UpOpen? && !heap[o].Thread?
      requires Marking(multiset{}, {o}, heap.Keys) && Covers(heap, heap[o], Marked(mark) + {v})
      modifies this`mark, this`gray
      ensures Marking(multiset{}, {}, heap.Keys) && Grew(old(mark), mark)
    {
      hide MarkInv, Whole, Kept, Covers, Settled, Linkable, Whites, Sum;
      WholeKept(heap);
      ghost var m0 := mark;
      ReallyMark(v, multiset{}, {o}, heap.Keys, heap.Keys);
      GrewMore(m0, mark);
      CoversMore(heap, heap[o], Marked(m0) + {v}, Marked(mark));
      assert {} + {o} == {o};
      Settle(heap, mark, white, Lists(multiset{}), {}, heap.Keys, Settled(heap, twups, gcstate.Atomic?), o);
    }

    /** luaC_barrierback_: the black object `o` is to be visited again. */
    method BarrierBack(o: Ref)
      requires o in heap && mark.Keys == heap.Keys && mark[o].Black? && Linkable(heap[o])
      requires KeepInvariant() ==> Marking(multiset{}, {o}, heap.Keys)
      requires !KeepInvariant() ==> SoundHere() && o in Live()
      modifies this`mark, this`grayagain
      ensures KeepInvariant() ==> Marking(multiset{}, {}, heap.Keys)
      ensures !KeepInvariant() ==> SoundHere() && Live() == old(Live())
      ensures mark == old(mark)[o := Gray]
    {
      hide Sound, MarkInv, Whole, Settled, Linkable;
      if gcstate == Propagate || gcstate == EnterAtomic {
        LinkAgain(o, multiset{}, heap.Keys);
      } else {
        ghost var m0 := mark;
        grayagain := [o] + grayagain;
        mark := mark[o := Gray];
        GraySound(heap, m0, white, twups, RootRefs(), o);
      }
    }

    lemma ValidKeeping()
      requires Propagating() && white.IsWhite() && AllListed(heap, allgc) && mainthread != 0 && sweepgc == -1
      ensures Valid() && Live() == heap.Keys
    {
      hide Sound, MarkInv, LiveSet, AllListed;
      PropagatingSound();
    }

    /** What is known between steps. */
    lemma ValidParts()
      requires Valid()
      ensures mark.Keys == heap.Keys && white.IsWhite() && Shape(heap) && Live() <= heap.Keys
      ensures KeepInvariant() ==> Live() == heap.Keys && sweepgc == -1
    {
      hide Sound, MarkInv, LiveSet, AllListed, Shape;
      SoundParts(heap, mark, white, twups, RootRefs());
      if KeepInvariant() {
        PropagatingSound();
      }
    }

    /** The store of a write, while the invariant of the marking phase has to be kept. */
    method StoreKeeping(o: Ref, c: Cell, ghost v: Ref)
      requires Valid() && KeepInvariant() && WriteOk(heap, o, c, v) && RefIn(v, heap.Keys)
      modifies this`heap
      ensures PropagatingBut({o}) && heap == old(heap)[o := c] && o in heap && !c.UpOpen? && !c.Thread?
      ensures mark[o].Black? ==> Covers(heap, c, Marked(mark) + {v})
      ensures mark[o].Black? && RefIn(v, Marked(mark)) ==> Covers(heap, c, Marked(mark))
    {
      hide Sound, MarkInv, LiveSet, AllListed, Shape, WriteOk, Adds, Covers, Whole, Settled, OpenIn, TwupsOk, Linkable;
      hide SweptTo, Writable, Whites, Marked;
      ValidParts();
      WriteParts(heap, o, c, v);
      WriteFacts(heap, mark, white, twups, RootRefs(), o, c, v);
      NoneSettled(heap, twups);
      NoneSettled(heap[o := c], twups);
      WriteInv(heap, mark, white, Lists(multiset{}), o, c, v);
      WriteCovers(heap, mark, o, c, v);
      assert heap[o := c].Keys == heap.Keys;
      heap := heap[o := c];
    }

    /** The barrier after a write. */
    method BarrierKeeping(o: Ref, v: Ref, back: bool)
      requires PropagatingBut({o}) && o in heap && RefIn(v, heap.Keys) && (back ==> Linkable(heap[o]))
      requires !heap[o].UpOpen? && !heap[o].Thread?
      requires mark[o].Black? ==> Covers(heap, heap[o], Marked(mark) + {v})
      requires mark[o].Black? && RefIn(v, Marked(mark)) ==> Covers(heap, heap[o], Marked(mark))
      modifies this`mark, this`gray, this`grayagain
      ensures Propagating()
    {
      hide MarkInv, AllListed, Shape, Covers, Whole, Settled, OpenIn, TwupsOk, Linkable, Sum, Marked, Whites, Grew;
      hide RefsIn;
      ghost var m0 := mark;
      MarkedValue(mark, v);
      if v != 0 && mark[o].Black? && mark[v].IsWhite() {
        if back {
          BarrierBack(o);
          SameMarks(m0, o);
        } else {
          Barrier(o, v);
          GrewMore(m0, mark);
        }
      } else {
        assert {} + {o} == {o};
        Settle(heap, mark, white, Lists(multiset{}), {}, heap.Keys, Settled(heap, twups, gcstate.Atomic?), o);
      }
    }

    /** A write of `v` into the object `o`, followed by the barrier: forward, or backward for
        tables and userdata. */
    method Write(o: Ref, c: Cell, v: Ref, back: bool)
      requires Valid() && WriteOk(heap, o, c, v) && o in Live() && RefIn(v, Live()) && (back ==> Linkable(c))
      modifies this`heap, this`mark, this`gray, this`grayagain
      ensures Valid() && heap == old(heap)[o := c] && Live() == old(Live()) && Steady()
    {
      hide Sound, MarkInv, LiveSet, AllListed, Shape, WriteOk, Adds, Covers, Whole, Settled, OpenIn, TwupsOk, Linkable;
      hide SweptTo, Writable, Whites, Propagating, PropagatingBut;
      ValidParts();
      ghost var h0 := heap;
      if gcstate == Propagate || gcstate == EnterAtomic {
        StoreKeeping(o, c, v);
        SameListed(h0, heap, allgc);
        BarrierKeeping(o, v, back);
        ValidKeeping();
      } else {
        WriteSweeping(o, c, v, back);
      }
    }

    method WriteSweeping(o: Ref, c: Cell, v: Ref, back: bool)
      requires Valid() && !KeepInvariant()
      requires WriteOk(heap, o, c, v) && o in Live() && RefIn(v, Live()) && (back ==> Linkable(c))
      modifies this`heap, this`mark, this`gray, this`grayagain
      ensures Valid() && heap == old(heap)[o := c] && Live() == old(Live()) && Steady()
    {
      hide Sound, MarkInv, LiveSet, AllListed, Shape, WriteOk, Adds, Covers, Whole, Settled, OpenIn, TwupsOk, Linkable;
      hide SweptTo, Propagating, Marking;
      ValidParts();
      ghost var h0, m0 := heap, mark;
      WriteSound(heap, mark, white, twups, RootRefs(), o, c, v);
      WriteParts(heap, o, c, v);
      LiveKnown(mark, white, v);
      heap := heap[o := c];
      SameListed(h0, heap, allgc);
      if v != 0 && mark[o].Black? && mark[v].IsWhite() {
        if back {
          BarrierBack(o);
        } else {
          Barrier(o, v);
        }
      }
      SweptKept(m0, mark, white, allgc, if sweepgc < 0 then 0 else sweepgc);
    }

    /** A write to a stack has no barrier. */
    method StoreStack(th: Ref, stack: seq<Ref>)
      requires Valid() && StackOk(heap, th, stack) && StackLive(heap, th, stack, Live())
      modifies this`heap
      ensures Valid() && heap == old(Restacked(heap, th, stack))
    {
      hide Sound, MarkInv, LiveSet, AllListed, Shape, Covers, Whole, Settled, OpenIn, TwupsOk, Linkable, StackLive;
      hide SweptTo, RefsIn, Marked;
      ValidParts();
      StackSound(heap, mark, white, twups, RootRefs(), th, stack);
      ghost var h0 := heap;
      var h := Restacked(heap, th, stack);
      assert h.Keys == heap.Keys;
      SameListed(heap, h, allgc);
      if KeepInvariant() {
        NoneSettled(heap, twups);
        NoneSettled(h, twups);
        StackInv(heap, mark, white, Lists(multiset{}), th, stack);
        SoundAllLive(h, mark, white, twups, RootRefs());
      }
      heap := h;
    }

    /** Any change of a thread's stack: pushes, pops, moves. */
    method SetStack(th: Ref, stack: seq<Ref>)
      requires Valid() && th in Live() && StackOk(heap, th, stack) && RefsIn(stack, Live())
      modifies this`heap
      ensures Valid() && heap == old(Restacked(heap, th, stack))
    {
      StackAllLive(heap, th, stack, Live());
      StoreStack(th, stack);
    }

    /** Assignment to an upvalue: an open one lives in the stack of its thread, even if nothing
        but the upvalue is left of the thread. */
    method SetUpvalue(u: Ref, v: Ref)
      requires Valid() && u in Live() && u in heap && (heap[u].UpOpen? || heap[u].UpClosed?) && RefIn(v, Live())
      modifies this`heap, this`mark, this`gray, this`grayagain
      ensures Valid() && Live() == old(Live()) && Steady()
      ensures heap == old(Assigned(heap, u, v)) && u in heap && Parts(heap, heap[u]) == [v]
      ensures forall w :: w in heap && w != u && (old(heap)[w].UpOpen? || old(heap)[w].UpClosed?) ==>
                heap[w] == old(heap)[w] && Parts(heap, heap[w]) == old(Parts(heap, heap[w]))
    {
      hide Sound, LiveSet, Propagating, AllListed, SweptTo;
      ValidParts();
      if heap[u].UpOpen? {
        assert OpenAt(heap, u);
        var th, level := heap[u].owner, heap[u].level;
        UpvalSlot(heap, th, u);
        var stack := heap[th].stack[level := v];
        UpvalStack(heap, mark, white, twups, RootRefs(), u, v);
        UpvalAlone(heap, u, v);
        StoreStack(th, stack);
      } else {
        UpvalWrite(heap, u, v);
        Write(u, UpClosed(v), v, false);
      }
    }

    /** luaC_newobj: a new object has the current white and goes to the head of `allgc`; `r` is its
        address, and `c` what it is filled with before the next step. */
    method NewObject(r: Ref, c: Cell)
      requires Valid() && r !in heap && r != 0 && NewOk(heap, c, Live())
      modifies this`heap, this`mark, this`allgc
      ensures Valid() && heap == old(heap)[r := c] && mark == old(mark)[r := white] && Live() == old(Live()) + {r}
    {
      hide Sound, MarkInv, LiveSet, AllListed, Shape, Covers, Whole, Settled, OpenIn, TwupsOk, Linkable, NewOk;
      hide SweptTo, RefsIn, Marked;
      ValidParts();
      ghost var h0, m0, a0 := heap, mark, allgc;
      NewSound(heap, mark, white, twups, RootRefs(), r, c);
      NewListed(heap, allgc, r, c);
      NewSwept(mark, white, allgc, if sweepgc < 0 then 0 else sweepgc, r);
      ghost var h, m := heap[r := c], mark[r := white];
      if KeepInvariant() {
        NoneSettled(heap, twups);
        NoneSettled(h, twups);
        NewKinds(heap, c, Live());
        NewInv(heap, mark, white, Lists(multiset{}), r, c);
        assert h.Keys == heap.Keys + {r};
        SoundAllLive(h, m, white, twups, RootRefs());
      }
      heap, mark := heap[r := c], mark[r := white];
      allgc := [r] + allgc;
    }

    /** While marking, a new open upvalue needs no barrier. */
    lemma UpvalKeeps(th: Ref, level: nat, i: nat, u: Ref)
      requires Valid() && KeepInvariant() && th in Live() && UpvalOk(heap, th, level, i, u) && i <= |heap[th].open|
      ensures Whole(WithUpval(heap, th, level, i, u))
      ensures MarkInv(WithUpval(heap, th, level, i, u), mark[u := white], white, Lists(multiset{}), {},
                      heap.Keys + {u}, Settled(WithUpval(heap, th, level, i, u), TwupsWith(twups, th), false))
      ensures TwupsOk(WithUpval(heap, th, level, i, u), TwupsWith(twups, th))
      ensures OpenIn(WithUpval(heap, th, level, i, u), TwupsWith(twups, th), heap.Keys + {u})
      ensures RefsIn(RootRefs(), heap.Keys + {u}) && mainthread in Marked(mark[u := white])
    {
      hide Sound, MarkInv, LiveSet, AllListed, Shape, Covers, Whole, Settled, OpenIn, TwupsOk, Linkable, UpvalOk;
      hide SweptTo, RefsIn, Marked, PlaceOf, WithUpval, TwupsWith;
      ValidParts();
      UpvalKeys(heap, th, level, i, u);
      UpvalSound(heap, mark, white, twups, RootRefs(), th, level, i, u);
      var h, m := WithUpval(heap, th, level, i, u), mark[u := white];
      NoneSettled(heap, twups);
      NoneSettled(h, TwupsWith(twups, th));
      UpvalInv(heap, mark, white, Lists(multiset{}), th, level, i, u);
      SoundAllLive(h, m, white, TwupsWith(twups, th), RootRefs());
    }

    /** luaF_newupval: a new open upvalue for `level`, linked at place `i` of the thread's list. */
    method NewUpval(th: Ref, level: nat, i: nat, u: Ref)
      requires Valid() && th in Live() && UpvalOk(heap, th, level, i, u) && i <= |heap[th].open|
      modifies this`heap, this`mark, this`allgc, this`twups
      ensures Valid() && heap == old(WithUpval(heap, th, level, i, u)) && Live() == old(Live()) + {u}
      ensures mark == old(mark)[u := white] && twups == old(TwupsWith(twups, th))
      ensures u in heap && heap[u] == UpOpen(th, level)
    {
      hide Sound, MarkInv, LiveSet, AllListed, Shape, Covers, Whole, Settled, OpenIn, TwupsOk, Linkable, UpvalOk;
      hide SweptTo, RefsIn, Marked, PlaceOf, WithUpval, TwupsWith;
      ValidParts();
      UpvalKeys(heap, th, level, i, u);
      UpvalSound(heap, mark, white, twups, RootRefs(), th, level, i, u);
      var h, m := WithUpval(heap, th, level, i, u), mark[u := white];
      NewListed(heap, allgc, u, Str);
      SameListed(heap[u := Str], h, [u] + allgc);
      NewSwept(mark, white, allgc, if sweepgc < 0 then 0 else sweepgc, u);
      if KeepInvariant() {
        UpvalKeeps(th, level, i, u);
      }
      heap, mark := h, m;
      allgc := [u] + allgc;
      twups := TwupsWith(twups, th);
    }

    /** luaF_findupval: the open upvalue of a stack slot, a new one (at the free address `free`) if
        the slot has none. */
    method FindUpval(th: Ref, level: nat, free: Ref) returns (u: Ref)
      requires Valid() && th in Live() && th in heap && heap[th].Thread? && level < |heap[th].stack|
      requires free !in heap && free != 0
      modifies this`heap, this`mark, this`allgc, this`twups
      ensures Valid() && u in heap && heap[u] == UpOpen(th, level) && u in Live()
      ensures u in old(heap) <==> exists p :: p in old(heap) && old(heap)[p] == UpOpen(th, level)
      ensures u in old(heap) ==> heap == old(heap)
      ensures u !in old(heap) ==> u == free
      ensures Captures(old(Snapshot()), Snapshot(), th, level, free)
    {
      hide Sound, LiveSet, Propagating, AllListed, SweptTo, WithUpval, TwupsWith;
      ValidParts();
      assert OpenList(heap, th, heap[th].stack, heap[th].open);
      ghost var s := Snapshot();
      var open, i := heap[th].open, 0;
      while i < |open| && heap[open[i]].level >= level
        invariant 0 <= i <= |open|
        invariant forall j :: 0 <= j < i ==> OpenLevel(heap, open[j]) > level
      {
        if heap[open[i]].level == level {
          OpenLive(heap, mark, white, twups, RootRefs(), th, i);
          return open[i];
        }
        i := i + 1;
      }
      NoUpval(heap, th, level, i);
      NewUpval(th, level, i, free);
      u := free;
      Captured(s, Snapshot(), th, level, free, i);
    }

    method StoreClosed(th: Ref, ghost u: Ref)
      requires Valid() && KeepInvariant() && th in heap && heap[th].Thread? && heap[th].open != []
      requires u == heap[th].open[0]
      modifies this`heap, this`mark
      ensures PropagatingBut({u}) && heap == old(ClosedHeap(heap, th)) && heap.Keys == old(heap).Keys
      ensures u in heap && heap[u].UpClosed? && RefIn(heap[u].v, heap.Keys)
      ensures u in old(mark) && mark == ClosedMarks(old(mark), u) && !mark[u].Gray?
    {
      hide Sound, MarkInv, LiveSet, AllListed, Shape, Covers, Whole, Settled, OpenIn, TwupsOk, Linkable, ClosedHeap;
      hide SweptTo, RefsIn, UnlinkStep;
      ValidParts();
      ClosedStep(heap, th);
      var h, m := ClosedHeap(heap, th), ClosedMarks(mark, heap[th].open[0]);
      NoneSettled(heap, twups);
      NoneSettled(h, twups);
      GrayUpval(heap, mark, white, twups, RootRefs(), u);
      SameLive(mark, u, white);
      SoundUnlinked(heap, h, mark, m, white, twups, RootRefs(), th, 0);
      SoundAllLive(h, m, white, twups, RootRefs());
      CloseInv(heap, mark, white, Lists(multiset{}), th);
      ClosedValue(h, u);
      heap, mark := h, m;
    }

    /** One step of luaF_closeupval: the first open upvalue of the thread leaves the list, with its
        value; a visited one turns black and needs a barrier. */
    method CloseFirst(th: Ref)
      requires Valid() && th in Live() && th in heap && heap[th].Thread? && heap[th].open != []
      modifies this`heap, this`mark, this`gray, this`grayagain
      ensures Valid() && heap == old(ClosedHeap(heap, th)) && Live() == old(Live()) && Steady()
    {
      hide Sound, MarkInv, LiveSet, AllListed, Shape, Covers, Whole, Settled, OpenIn, TwupsOk, Linkable, ClosedHeap;
      hide SweptTo, RefsIn, UnlinkStep, Propagating, PropagatingBut, ClosedMarks;
      ValidParts();
      ghost var h0, m0 := heap, mark;
      var u := heap[th].open[0];
      if gcstate == Propagate || gcstate == EnterAtomic {
        StoreClosed(th, u);
        SameListed(h0, heap, allgc);
        ClosedCovered(heap, mark, u);
        BarrierKeeping(u, heap[u].v, false);
        ValidKeeping();
      } else {
        CloseSweeping(th);
      }
    }

    method CloseSweeping(th: Ref)
      requires Valid() && !KeepInvariant() && th in heap && heap[th].Thread? && heap[th].open != []
      modifies this`heap, this`mark
      ensures Valid() && heap == old(ClosedHeap(heap, th)) && Live() == old(Live()) && Steady()
    {
      hide Sound, LiveSet, AllListed, SweptTo, ClosedHeap, Propagating, SameViews, UnlinkedThread;
      ghost var h0, m0 := heap, mark;
      SoundParts(heap, mark, white, twups, RootRefs());
      CloseSound(th);
      SoundParts(heap, mark, white, twups, RootRefs());
      SameListed(h0, heap, allgc);
      SweptKept(m0, mark, white, allgc, if sweepgc < 0 then 0 else sweepgc);
    }

    /** luaF_closeupval: closes exactly the upvalues of the thread at or above `level`; every
        upvalue reads what it read before. */
    method CloseUpvals(th: Ref, level: nat)
      requires Valid() && th in Live() && th in heap && heap[th].Thread?
      modifies this`heap, this`mark, this`gray, this`grayagain
      ensures Valid() && Live() == old(Live()) && Steady()
      ensures ClosedAll(old(heap), heap, th, level)
      ensures forall i :: 0 <= i < |heap[th].open| ==> OpenLevel(heap, heap[th].open[i]) < level
    {
      hide Sound, LiveSet, Propagating, AllListed, SweptTo, UnlinkStep, ClosedHeap;
      ValidParts();
      ghost var h0 := heap;
      ClosedNone(heap, th, level);
      while heap[th].open != [] && OpenLevel(heap, heap[th].open[0]) >= level
        invariant Valid() && Live() == old(Live()) && Steady()
        invariant th in heap && heap[th].Thread? && ClosedFrom(h0, heap, th, level)
        decreases |heap[th].open|
      {
        ValidParts();
        ghost var h1 := heap;
        ClosedOne(h0, heap, th, level);
        CloseFirst(th);
      }
      ValidParts();
      ClosedToLevel(h0, heap, th, level);
    }

    /** The registry, the metatables of basic types and the running thread change without a
        barrier: they are marked again in the atomic step. */
    method SetRoots(th: Ref, reg: Ref, types: seq<Ref>, functions: Ref)
      requires Valid() && RefIn(th, Live()) && RefIn(reg, Live()) && RefsIn(types, Live()) && RefIn(functions, Live())
      modifies this`running, this`registry, this`mts, this`cache
      ensures Valid() && running == th && registry == reg && mts == types && cache == functions
    {
      hide Marking, AllListed, SweptTo, LiveSet, Whole, OpenIn, TwupsOk, Settled, Sound, RefsIn, Marked;
      ValidParts();
      RootsSound(heap, mark, white, twups, RootRefs(), [mainthread, th, reg, functions] + types, mainthread, th, reg,
                 functions, types);
      running, registry, mts, cache := th, reg, types, functions;
    }

    /** A short string that is dead but not yet freed is found again in the string table. */
    method Resurrect(s: Ref)
      requires Valid() && IsStr(heap, s) && s in mark && mark[s] == white.OtherWhite()
      modifies this`mark
      ensures Valid() && mark == old(mark)[s := white] && Live() == old(Live()) + {s}
    {
      hide MarkInv, AllListed, SweptTo, OpenIn, TwupsOk, Shape, Sound;
      ValidParts();
      StringSound(heap, mark, white, twups, RootRefs(), s);
      StringSwept(mark, white, allgc, if sweepgc < 0 then 0 else sweepgc, s);
      mark := mark[s := white];
    }

    /** Safety: in every state of every run, what the program can reach, by strong or weak
        references, is allocated, and no sweep of the current cycle will free it. */
    lemma ReachableIsLive(r: Ref)
      requires Valid() && Reachable(heap, RootSet(RootRefs()), r)
      ensures r in heap && r in Live()
    {
      ReachableLive(heap, mark, white, twups, RootRefs(), r);
    }

    /** The tri-colour invariant: while marking, a black object refers to no white one. */
    lemma NoBlackToWhite(o: Ref)
      requires Valid() && KeepInvariant() && o in heap && mark[o].Black?
      ensures Covers(heap, heap[o], Marked(mark))
    {
    }

    /** One operation of a run, by the program or by the collector, in any order: it does what it
        says, and afterwards, as before, everything the program can reach is allocated and live. */
    method Perform(op: Op)
      requires Valid() && Allows(op, Snapshot())
      modifies this
      ensures Valid() && Does(op, old(Snapshot()), Snapshot())
      ensures forall r :: Reachable(heap, RootSet(RootRefs()), r) ==> r in heap && r in Live()
    {
      hide Valid, WriteOk, NewOk, Reachable, LiveSet, Observes, Advances, Follows, Captures, Assigned;
      hide RootSet, Linkable;
      match op {
        case Collect(fast) => CollectAny(fast);
        case Create(r, c) => NewObject(r, c);
        case Store(o, c, v, back) => Write(o, c, v, back);
        case Push(th, stack) => SetStack(th, stack);
        case Assign(u, v) => SetUpvalue(u, v);
        case Capture(th, level, free) => var _ := FindUpval(th, level, free);
        case Close(th, level) => CloseUpvals(th, level);
        case Globals(th, reg, types, functions) => SetRoots(th, reg, types, functions);
        case Intern(s) => Resurrect(s);
      }
      assert Does(op, old(Snapshot()), Snapshot());
      forall r | Reachable(heap, RootSet(RootRefs()), r)
        ensures r in heap && r in Live()
      {
        ReachableIsLive(r);
      }
    }

    /** A step of the collector needs no promise: everything allocated is a limit. */
    method CollectAny(fast: bool)
      requires Valid()
      modifies this
      ensures Valid() && Observes(old(Snapshot()), Snapshot()) && Advances(old(Snapshot()), Snapshot())
      ensures Follows(old(Snapshot()), Snapshot(), fast)
    {
      hide Valid, Sound, Limited, AllSeenAs, KeptAlive, SameViews, Kept, Whites, LiveSet, RootSet, Propagating, Follows;
      LiveNow();
      AnyBound();
      SingleStep(fast, heap.Keys);
      ValidParts();
    }

    lemma AnyBound()
      requires Valid()
      ensures Limited(heap.Keys)
    {
      hide Sound, AllListed, SweptTo, SameViews, AllSeenAs, KeptAlive, Marking, RefsIn, Marked;
      if gcstate == Pause {
        PauseParts();
        WholeKept(heap);
      } else if gcstate == Propagate || gcstate == EnterAtomic {
        MarkingWhole();
        WholeKept(heap);
      }
      KeysKept();
    }

    /** Outside the sweep everything is live. */
    lemma LiveNow()
      requires Valid()
      ensures !Sweeping() ==> Live() == heap.Keys
    {
      hide Sound, Propagating, AllListed, SweptTo, LiveSet;
      ValidParts();
      if gcstate == Pause || gcstate == CallFin {
        AllLive();
      }
    }

    lemma MarkingWhole()
      requires Propagating()
      ensures Whole(heap) && Marked(mark) <= heap.Keys
    {
      hide MarkInv, Whole;
    }

    /** A new state: the main thread, white, is the only object. */
    constructor (main: Ref)
      requires main != 0
      ensures Valid() && heap == map[main := Thread([], [])] && gcstate == Pause && mainthread == main
    {
      mainthread, running, registry, cache, mts := main, main, 0, 0, [];
      heap, mark, white := map[main := Thread([], [])], map[main := White0], White0;
      gcstate := Pause;
      gray, grayagain, weak, allweak, ephemeron, twups := [], [], [], [], [], [];
      allgc, sweepgc := [main], -1;
    }
  }
}
