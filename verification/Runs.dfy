// Whole runs: any sequence of operations, by the program and by the collector.
module Runs {
  import opened GcObjects
  import opened GcSafety
  import opened GcMutator
  import opened Collector

  /** The states of a run, the first before any operation. */
  ghost predicate IsRun(ops: seq<Op>, trace: seq<Snap>) {
    && |trace| == |ops| + 1
    && (forall k :: 0 <= k < |trace| ==> trace[k].Sane())
    && (forall k :: 0 <= k < |ops| ==> Allows(ops[k], trace[k]) && Does(ops[k], trace[k], trace[k + 1]))
  }

  /** The operation makes an object at the address `r`, or finds the dead string `r` again. */
  predicate Revives(op: Op, r: Ref) {
    match op
    case Create(x, _) => x == r
    case Capture(_, _, free) => free == r
    case Intern(s) => s == r
    case _ => false
  }

  /** The operation writes the object `r`: its cell or, for an open upvalue, the stack it reads. */
  predicate Touches(op: Op, h: Memory, r: Ref) {
    || Revives(op, r)
    || match op
       case Store(o, _, _, _) => o == r
       case Push(th, _) => th == r || (r in h && h[r].UpOpen? && h[r].owner == th)
       case Assign(u, _) => u == r || (u in h && h[u].UpOpen? && h[u].owner == r)
       case Capture(th, _, _) => th == r
       case Close(th, _) => th == r
       case _ => false
  }

  ghost predicate Revived(ops: seq<Op>, i: nat, j: nat, r: Ref)
    requires i <= j <= |ops|
  {
    exists k :: i <= k < j && Revives(ops[k], r)
  }

  /** The objects that live from the state `i` to the state `j`. */
  ghost function Lasting(ops: seq<Op>, trace: seq<Snap>, i: nat, j: nat): set<Ref>
    requires i <= j <= |ops| < |trace|
  {
    set r | r in trace[j].Live() && !Revived(ops, i, j, r)
  }

  // ---------------------------------------------------------------- what an object looks like later

  ghost predicate SlotFaded(wv: bool, v: Slot, v': Slot, lasting: set<Ref>) {
    v' == v || (v'.Empty? && wv && v.Val? && !RefIn(v.r, lasting))
  }

  ghost predicate NodeFaded(wk: bool, wv: bool, n: Node, n': Node, lasting: set<Ref>) {
    || n' == n
    || (&& n'.val.Empty? && (n'.key == n.key || n'.key.DeadKey?)
        && (|| n.val.Empty?
            || (wk && n.key.LiveKey? && !RefIn(n.key.k, lasting))
            || (wv && !RefIn(n.val.r, lasting))))
  }

  /** The table `c` later: it has lost entries by weak references to objects that did not last, and
      keys of empty entries. */
  ghost predicate Faded(c: Cell, c': Cell, lasting: set<Ref>)
    requires c.Table?
  {
    && c'.Table? && c'.tmeta == c.tmeta && c'.weakKeys == c.weakKeys && c'.weakVals == c.weakVals
    && |c'.arr| == |c.arr| && |c'.nodes| == |c.nodes|
    && (forall i :: 0 <= i < |c.arr| ==> SlotFaded(c.weakVals, c.arr[i], c'.arr[i], lasting))
    && (forall i :: 0 <= i < |c.nodes| ==> NodeFaded(c.weakKeys, c.weakVals, c.nodes[i], c'.nodes[i], lasting))
  }

  /** What a program finds in the object `r` later, if it has not written it. */
  ghost predicate Stays(h: Memory, h': Memory, lasting: set<Ref>, r: Ref) {
    && r in h && r in h'
    && (h[r].Table? ==> Faded(h[r], h'[r], lasting))
    && (h[r].UpOpen? ==> Parts(h', h'[r]) == Parts(h, h[r]) && (h'[r] == h[r] || h'[r].UpClosed?))
    && (!h[r].Table? && !h[r].UpOpen? ==> h'[r] == h[r])
  }

  lemma StaysSame(h: Memory, h': Memory, lasting: set<Ref>, r: Ref)
    requires r in h && r in h' && h'[r] == h[r] && (h[r].UpOpen? ==> Parts(h', h[r]) == Parts(h, h[r]))
    ensures Stays(h, h', lasting, r)
  {
  }

  lemma StaysTwice(h: Memory, h1: Memory, h2: Memory, lasting: set<Ref>, r: Ref)
    requires Stays(h, h1, lasting, r) && Stays(h1, h2, lasting, r)
    ensures Stays(h, h2, lasting, r)
  {
  }

  lemma SeenStays(h: Memory, h': Memory, live: set<Ref>, lasting: set<Ref>, r: Ref)
    requires r in h && GcSafety.Seen(h, h', live, r) && lasting <= live
    ensures Stays(h, h', lasting, r)
  {
  }

  // ---------------------------------------------------------------- one operation

  /** What is live was live before, unless it is new. */
  lemma LiveBefore(op: Op, s: Snap, s': Snap, r: Ref)
    requires Does(op, s, s') && r in s'.Live() && !Revives(op, r)
    ensures r in s.Live()
  {
    hide AllSeenAs, KeptAlive, WithUpval, ClosedAll, Assigned, Advances, Follows, HasUpval, PlaceOf;
  }

  lemma StoreStays(op: Op, s: Snap, s': Snap, lasting: set<Ref>, r: Ref)
    requires s.Sane() && Allows(op, s) && Does(op, s, s') && (op.Store? || op.Create? || op.Push? || op.Close?)
    requires r in s.heap && !Touches(op, s.heap, r)
    ensures Stays(s.heap, s'.heap, lasting, r)
  {
    hide Adds, Faded;
    assert OpenAt(s.heap, r);
    if s'.heap[r] == s.heap[r] {
      StaysSame(s.heap, s'.heap, lasting, r);
    }
  }

  lemma AssignStays(op: Op, s: Snap, s': Snap, lasting: set<Ref>, r: Ref)
    requires s.Sane() && Allows(op, s) && Does(op, s, s') && op.Assign?
    requires r in s.heap && !Touches(op, s.heap, r)
    ensures Stays(s.heap, s'.heap, lasting, r)
  {
    hide Faded;
    assert OpenAt(s.heap, r) && OpenAt(s.heap, op.u);
    if s.heap[op.u].UpOpen? {
      UpvalSlot(s.heap, s.heap[op.u].owner, op.u);
      UpvalAlone(s.heap, op.u, op.val);
    }
    StaysSame(s.heap, s'.heap, lasting, r);
  }

  lemma CaptureStays(op: Op, s: Snap, s': Snap, lasting: set<Ref>, r: Ref)
    requires s.Sane() && Allows(op, s) && Does(op, s, s') && op.Capture?
    requires r in s.heap && !Touches(op, s.heap, r)
    ensures Stays(s.heap, s'.heap, lasting, r)
  {
    hide Faded, PlaceOf, HasUpval;
    assert OpenAt(s.heap, r);
    StaysSame(s.heap, s'.heap, lasting, r);
  }

  lemma StepStays(op: Op, s: Snap, s': Snap, lasting: set<Ref>, r: Ref)
    requires s.Sane() && Allows(op, s) && Does(op, s, s') && lasting <= s'.Live()
    requires r in lasting && r in s.heap && !Touches(op, s.heap, r)
    ensures Stays(s.heap, s'.heap, lasting, r)
  {
    hide Faded, ClosedAll, Assigned, Captures, Follows, Sound, WriteOk, NewOk, StackOk, Covers, GcSafety.Seen;
    match op
    case Collect(_) => SeenStays(s.heap, s'.heap, s'.Live(), lasting, r);
    case Create(_, _) => StoreStays(op, s, s', lasting, r);
    case Store(_, _, _, _) => StoreStays(op, s, s', lasting, r);
    case Push(_, _) => StoreStays(op, s, s', lasting, r);
    case Close(_, _) => StoreStays(op, s, s', lasting, r);
    case Assign(_, _) => AssignStays(op, s, s', lasting, r);
    case Capture(_, _, _) => CaptureStays(op, s, s', lasting, r);
    case Globals(_, _, _, _) => StaysSame(s.heap, s'.heap, lasting, r);
    case Intern(_) => StaysSame(s.heap, s'.heap, lasting, r);
  }

  // ---------------------------------------------------------------- whole runs

  /** What lives from `i` to `j` is live, and allocated, all the time. */
  lemma {:induction false} LiveBetween(ops: seq<Op>, trace: seq<Snap>, i: nat, k: nat, j: nat, r: Ref)
    requires IsRun(ops, trace) && i <= k <= j <= |ops| && r in Lasting(ops, trace, i, j)
    ensures r in trace[k].Live() && r in trace[k].heap
    decreases j - k
  {
    hide Allows, Does, Sound;
    if k < j {
      LiveBetween(ops, trace, i, k + 1, j, r);
      assert !Revives(ops[k], r);
      LiveBefore(ops[k], trace[k], trace[k + 1], r);
    }
    assert trace[k].Sane();
    SoundParts(trace[k].heap, trace[k].mark, trace[k].white, trace[k].twups, trace[k].roots);
  }

  /** Safety of every run: what a program can reach at some time is allocated and live then, and
      was so ever since it was made. */
  lemma ReachableAllAlong(ops: seq<Op>, trace: seq<Snap>, i: nat, k: nat, j: nat, r: Ref)
    requires IsRun(ops, trace) && i <= k <= j <= |ops|
    requires Reachable(trace[j].heap, RootSet(trace[j].roots), r) && !Revived(ops, i, j, r)
    ensures r in trace[k].heap && r in trace[k].Live()
  {
    hide Allows, Does, Reachable, Sound;
    assert trace[j].Sane();
    ReachableLive(trace[j].heap, trace[j].mark, trace[j].white, trace[j].twups, trace[j].roots, r);
    LiveBetween(ops, trace, i, k, j, r);
  }

  /** No run of the collector can be noticed: an object that no operation of the program has
      written reads as it did before, however often the collector stepped in between. Only a table
      may have lost entries, by weak references to objects that did not last. */
  lemma {:induction false} UntouchedStays(ops: seq<Op>, trace: seq<Snap>, i: nat, k: nat, j: nat, r: Ref)
    requires IsRun(ops, trace) && i <= k <= j <= |ops| && r in trace[j].Live()
    requires forall n :: i <= n < j ==> !Touches(ops[n], trace[n].heap, r)
    ensures Stays(trace[i].heap, trace[k].heap, Lasting(ops, trace, i, j), r)
    decreases k
  {
    hide Allows, Does, Stays, Sound;
    var lasting := Lasting(ops, trace, i, j);
    assert r in lasting;
    LiveBetween(ops, trace, i, i, j, r);
    StaysSame(trace[i].heap, trace[i].heap, lasting, r);
    if i < k {
      UntouchedStays(ops, trace, i, k - 1, j, r);
      LiveBetween(ops, trace, i, k - 1, j, r);
      forall p | p in lasting ensures p in trace[k].Live() {
        LiveBetween(ops, trace, i, k, j, p);
      }
      assert trace[k - 1].Sane();
      StepStays(ops[k - 1], trace[k - 1], trace[k], lasting, r);
      StaysTwice(trace[i].heap, trace[k - 1].heap, trace[k].heap, lasting, r);
    }
  }

  /** A state with its past. */
  class Run {
    const state: State
    ghost var ops: seq<Op>
    ghost var trace: seq<Snap>

    ghost predicate Valid()
      reads this, state
    {
      && state.Valid() && IsRun(ops, trace) && trace[|ops|] == state.Snapshot()
    }

    constructor (main: Ref)
      requires main != 0
      ensures Valid() && ops == [] && fresh(state)
      ensures trace[0].heap == map[main := Thread([], [])] && trace[0].phase == Pause
    {
      state := new State(main);
      ops := [];
      new;
      trace := [state.Snapshot()];
    }

    /** Every run of the methods of the collector and the mutator is one in the sense of `IsRun`. */
    method Step(op: Op)
      requires Valid() && Allows(op, state.Snapshot())
      modifies this, state
      ensures Valid() && ops == old(ops) + [op] && trace == old(trace) + [state.Snapshot()]
    {
      hide Allows, Does, Sound;
      state.Perform(op);
      ops, trace := ops + [op], trace + [state.Snapshot()];
    }
  }
}
