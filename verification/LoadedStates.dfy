// What a load gives back of a saved state, cell by cell and field by field.
module LoadedStates {
  import opened Heap
  import opened Graph
  import opened Discovery
  import opened SaveVerdict
  import opened Snapshot
  import opened WellFormed
  import opened Canonical
  import opened Likeness
  import opened LoadSpec
  import opened LoadFill
  import opened LoadRelink
  import opened Restore
  import opened Severance
  import opened RoundTrip
  import opened SaveLoad

  /** Two strings of the state that a load makes one, since it interns what is short. */
  ghost predicate ShortTwins(s: State, a: Ref, b: Ref) {
    && a < |s.heap| && b < |s.heap| && s.heap[a].obj.Str? && s.heap[b].obj.Str?
    && s.heap[a].obj.s == s.heap[b].obj.s && |s.heap[a].obj.s| <= 40
  }

  ghost predicate HasShortTwin(s: State, r: Ref) {
    exists q :: q != r && Reached(s, q) && ShortTwins(s, r, q)
  }

  /** The object as it came back. A string has the variant that its length asks for; an open
      upvalue whose thread was not reached is closed and holds nil. */
  ghost predicate CameBack(s: State, st: State, m: map<Ref, Ref>, r: Ref)
    requires r in m
  {
    && 0 < r < |s.heap| && 0 < m[r] < |st.heap|
    && (st.heap[m[r]].objid == s.heap[r].objid || HasShortTwin(s, r))
    && var b := st.heap[m[r]].obj;
       match s.heap[r].obj
       case Str(_, c) => b == Str(|c| <= 40, c)
       case UpOpen(t, _) => if Reached(s, t) then SameThing(s.heap, m, s.heap[r].obj, b) else b == UpClosed(TValue.Nil)
       case _ => SameThing(s.heap, m, s.heap[r].obj, b)
  }

  /** `st` is `s` as far as its roots reach. */
  ghost predicate BroughtBack(s: State, st: State, m: map<Ref, Ref>) {
    && (forall r :: r in m <==> Reached(s, r))
    && (forall a, b :: a in m && b in m && m[a] == m[b] ==> a == b || ShortTwins(s, a, b))
    && SameRef(m, s.registry, st.registry) && SameRef(m, s.main, st.main) && SameRefs(m, s.mt, st.mt)
    && s.seed == st.seed && s.nextSeq == st.nextSeq
    && forall r {:trigger m[r]} :: r in m ==> CameBack(s, st, m, r)
  }

  // ------------------------------------------------------------------ one object

  lemma HidesSevered(s: State, r: Ref)
    ensures HidesArgs(Severed(s).heap, r) == HidesArgs(s.heap, r)
  {
    hide Order;
    if r < |s.heap| {
      SeverKinds(s.heap[r].obj, r in Order(s), Order(s));
    }
  }

  lemma ThingSevered(s: State, m: map<Ref, Ref>, a: Obj, b: Obj)
    requires SameThing(Severed(s).heap, m, a, b)
    ensures SameThing(s.heap, m, a, b)
  {
    hide HidesArgs, Severed, SameValues, SameRefs, SameNodes, SameSlots, SameProto, HasBit;
    if a.Thread? {
      forall i | 0 <= i < |a.frames|
        ensures SameFrame(s.heap, m, a.frames[i], b.frames[i])
      {
        assert SameFrame(Severed(s).heap, m, a.frames[i], b.frames[i]);
        if a.frames[i].arm.LuaArm? {
          HidesSevered(s, a.frames[i].arm.proto);
        }
      }
    }
  }

  lemma FramesAreKnown(h: seq<Cell>, g: seq<Cell>, m: map<Ref, Ref>, fs: seq<Frame>)
    requires SameVarargs(h, g, m, fs) && NoNull(m)
    requires forall i :: 0 <= i < |fs| && fs[i].arm.LuaArm? ==> fs[i].arm.proto in m
    ensures FramesKnown(h, g, m, fs)
  {
    hide HidesArgs, HasHiddenVarargs;
    forall i | 0 <= i < |fs| && fs[i].arm.LuaArm?
      ensures HidesArgs(h, fs[i].arm.proto) == HidesArgs(g, m[fs[i].arm.proto])
    {
      HidesIs(h, fs[i].arm.proto);
      HidesIs(g, m[fs[i].arm.proto]);
    }
  }

  lemma ThreadKnown(s: State, env: Env, st: State, ptr: seq<Ref>, i: nat)
    requires GoodState(s) && Savable(s, env) && StringsSane(s) && i < |Order(s)| && Restores(Normal(s), st, ptr)
    ensures Order(s)[i] < |s.heap|
    ensures var o := s.heap[Order(s)[i]].obj;
            o.Thread? ==> FramesKnown(Severed(s).heap, st.heap, Through(Ids(Order(s)), ptr), o.frames)
  {
    hide Order, Ids, Normal, GoodState, Restores, Through, Savable, StringsSane, Stored, Severed, FramesKnown,
         GoodAt, Writable, HasTwin, SameVarargs, Brought;
    var r := Order(s)[i];
    LoadedAt(s, st, ptr, i);
    IsStored(s, env, r);
    StoredIs(s, env, r);
    if s.heap[r].obj.Thread? {
      VarargsKept(s, env, st, ptr, s.heap[r].obj.frames);
      FramesAreKnown(Severed(s).heap, st.heap, Through(Ids(Order(s)), ptr), s.heap[r].obj.frames);
    }
  }

  lemma LostIs(h: seq<Cell>, m: map<Ref, Ref>, b: Obj)
    requires SameThing(h, m, UpClosed(TValue.Nil), b)
    ensures b == UpClosed(TValue.Nil)
  {
  }

  lemma SeverParts(o: Obj, order: seq<Ref>)
    ensures var a := Sever(o, true, order);
            && (a.Table? ==> a == o) && (a.Thread? ==> a == o)
            && (if o.UpOpen? && o.thread !in order then a == UpClosed(TValue.Nil) else a == o)
  {
  }

  /** What the loaded object has of the saved one. */
  lemma ThingBack(s: State, env: Env, st: State, ptr: seq<Ref>, i: nat)
    requires GoodState(s) && Savable(s, env) && StringsSane(s) && i < |Order(s)| && Restores(Normal(s), st, ptr)
    ensures var m := Through(Ids(Order(s)), ptr); var r := Order(s)[i];
            && r in m && 0 < r < |s.heap| && 0 < m[r] < |st.heap|
            && (!s.heap[r].obj.Str? ==> SameThing(s.heap, m, Sever(s.heap[r].obj, true, Order(s)), st.heap[m[r]].obj))
  {
    hide Order, Ids, Normal, GoodState, Restores, Through, Sever, Savable, StringsSane, Severed, SameObj, SameThing,
         FramesKnown, GoodNode, HasTwin, Brought;
    var m, r := Through(Ids(Order(s)), ptr), Order(s)[i];
    LoadedAt(s, st, ptr, i);
    LoadedSame(s, env, st, ptr, i);
    ThreadKnown(s, env, st, ptr, i);
    if !s.heap[r].obj.Str? {
      var a := Sever(s.heap[r].obj, true, Order(s));
      SeverParts(s.heap[r].obj, Order(s));
      if a.Table? {
        NodesGood(s, r);
      }
      ThingIff(Severed(s).heap, st.heap, m, a, st.heap[m[r]].obj);
      ThingSevered(s, m, a, st.heap[m[r]].obj);
    }
  }

  lemma TwinIs(s: State, i: nat)
    requires GoodState(s) && !Discover(GraphOf(s)).error && i < |Order(s)|
    ensures i + 1 < |Normal(s).heap| && (HasTwin(Normal(s).heap, i + 1) ==> HasShortTwin(s, Order(s)[i]))
  {
    hide Order, Ids, Normal, GoodState, Discover, GraphOf, Reached, MapObj, Canon;
    var nh := Normal(s).heap;
    CellOf(s, i);
    if HasTwin(nh, i + 1) {
      var j :| 0 < j < |nh| && j != i + 1 && Twins(nh, i + 1, j);
      TwinsAre(s, i, j - 1);
      OrderIsReached(s);
      assert Order(s)[j - 1] in Order(s);
      if i < j - 1 {
        NotTwice(s, i, j - 1);
      } else {
        NotTwice(s, j - 1, i);
      }
    }
  }

  lemma TwinsAre(s: State, i: nat, j: nat)
    requires i < |Order(s)| && j < |Order(s)|
    ensures i + 1 < |Normal(s).heap| && j + 1 < |Normal(s).heap|
    ensures Twins(Normal(s).heap, i + 1, j + 1) ==> ShortTwins(s, Order(s)[i], Order(s)[j])
  {
    hide Order, Ids, Normal;
    CellOf(s, i);
    CellOf(s, j);
    StringKept(s.heap, s.heap[Order(s)[i]].obj, Ids(Order(s)));
    StringKept(s.heap, s.heap[Order(s)[j]].obj, Ids(Order(s)));
    hide MapObj, Canon;
  }

  lemma NoRefusal(s: State, env: Env)
    requires Savable(s, env)
    ensures !Discover(GraphOf(s)).error
  {
    hide Discover, GraphOf, Order;
  }

  lemma BackBy(s: State, st: State, m: map<Ref, Ref>, r: Ref)
    requires r in m && 0 < r < |s.heap| && 0 < m[r] < |st.heap|
    requires st.heap[m[r]].objid == s.heap[r].objid || HasShortTwin(s, r)
    requires var o, b := s.heap[r].obj, st.heap[m[r]].obj;
             if o.Str? then b == Str(|o.s| <= MAXSHORTLEN, o.s)
             else if o.UpOpen? && !Reached(s, o.thread) then b == UpClosed(TValue.Nil)
             else SameThing(s.heap, m, o, b)
    ensures CameBack(s, st, m, r)
  {
    hide SameThing, Reached, HasShortTwin;
  }

  lemma BroughtString(s: State, m: map<Ref, Ref>, o: Obj, order: seq<Ref>)
    requires o.Str?
    ensures Brought(s, m, o, order) == Str(|o.s| <= MAXSHORTLEN, o.s)
  {
  }

  lemma ObjectBack(s: State, env: Env, st: State, ptr: seq<Ref>, i: nat)
    requires GoodState(s) && Savable(s, env) && StringsSane(s) && i < |Order(s)| && Restores(Normal(s), st, ptr)
    ensures var m := Through(Ids(Order(s)), ptr); Order(s)[i] in m && CameBack(s, st, m, Order(s)[i])
  {
    hide *;
    var m, r := Through(Ids(Order(s)), ptr), Order(s)[i];
    NoRefusal(s, env);
    LoadedAt(s, st, ptr, i);
    var o := s.heap[r].obj;
    ThingBack(s, env, st, ptr, i);
    TwinIs(s, i);
    OrderIsReached(s);
    SeverParts(o, Order(s));
    if o.Str? {
      BroughtString(s, m, o, Order(s));
    } else if o.UpOpen? && o.thread !in Order(s) {
      LostIs(s.heap, m, st.heap[m[r]].obj);
    }
    BackBy(s, st, m, r);
  }

  // -------------------------------------------------------------------- the state

  lemma OnlyTwins(s: State, st: State, ptr: seq<Ref>, a: Ref, b: Ref)
    requires GoodState(s) && Restores(Normal(s), st, ptr) && a in Order(s) && b in Order(s)
    requires var m := Through(Ids(Order(s)), ptr); a in m && b in m && m[a] == m[b]
    ensures a == b || ShortTwins(s, a, b)
  {
    hide Order, Ids, Normal, GoodState, Refilled, Through, HasTwin, Brought, Twins, ShortTwins;
    var i :| 0 <= i < |Order(s)| && Order(s)[i] == a;
    var j :| 0 <= j < |Order(s)| && Order(s)[j] == b;
    LoadedAt(s, st, ptr, i);
    LoadedAt(s, st, ptr, j);
    RestoredApart(Normal(s), st, ptr);
    TwinsAre(s, i, j);
    TwinsAre(s, j, i);
    if i < j {
      assert ptr[i + 1] == ptr[j + 1];
    } else if j < i {
      assert ptr[j + 1] == ptr[i + 1];
      TwinsTurn(s, b, a);
    }
  }

  lemma TwinsTurn(s: State, a: Ref, b: Ref)
    requires ShortTwins(s, a, b)
    ensures ShortTwins(s, b, a)
  {
  }

  lemma RootsBack(s: State, env: Env, st: State, ptr: seq<Ref>)
    requires GoodState(s) && Savable(s, env) && Restores(Normal(s), st, ptr)
    ensures var m := Through(Ids(Order(s)), ptr);
            && NoNull(m) && (forall q :: q in m <==> q in Order(s))
            && SameRef(m, s.registry, st.registry) && SameRef(m, s.main, st.main) && SameRefs(m, s.mt, st.mt)
            && s.seed == st.seed && s.nextSeq == st.nextSeq
  {
    assert !Discover(GraphOf(s)).error;
    hide Order, Ids, Normal, GoodState, Restores, Through, HasTwin, Brought, Discover, GraphOf,
         Canonical.Carried, SameRef, SameRefs, Savable;
    LoadedRoots(s, env, st, ptr);
    RootsKnown(s, env);
    var k :| 0 <= k < |Order(s)| && Order(s)[k] == s.registry;
    LoadedAt(s, st, ptr, k);
    RootsIff(s, st, Through(Ids(Order(s)), ptr));
  }

  lemma BroughtBy(s: State, st: State, m: map<Ref, Ref>)
    requires forall r :: r in m <==> Reached(s, r)
    requires forall a, b :: a in m && b in m && m[a] == m[b] ==> a == b || ShortTwins(s, a, b)
    requires SameRef(m, s.registry, st.registry) && SameRef(m, s.main, st.main) && SameRefs(m, s.mt, st.mt)
    requires s.seed == st.seed && s.nextSeq == st.nextSeq
    requires forall r {:trigger m[r]} :: r in m ==> CameBack(s, st, m, r)
    ensures BroughtBack(s, st, m)
  {
    hide Reached, ShortTwins, SameRef, SameRefs, CameBack;
  }

  /** Everything that the roots reach comes back, field by field. */
  lemma AllBack(s: State, env: Env, st: State, ptr: seq<Ref>)
    requires GoodState(s) && Savable(s, env) && StringsSane(s) && Restores(Normal(s), st, ptr)
    ensures BroughtBack(s, st, Through(Ids(Order(s)), ptr))
  {
    hide *;
    var order, m := Order(s), Through(Ids(Order(s)), ptr);
    NoRefusal(s, env);
    RootsBack(s, env, st, ptr);
    OrderIsReached(s);
    forall r {:trigger m[r]} | r in m
      ensures CameBack(s, st, m, r)
    {
      var i :| 0 <= i < |order| && order[i] == r;
      ObjectBack(s, env, st, ptr, i);
    }
    forall a, b | a in m && b in m && m[a] == m[b]
      ensures a == b || ShortTwins(s, a, b)
    {
      OnlyTwins(s, st, ptr, a, b);
    }
    BroughtBy(s, st, m);
  }
}
