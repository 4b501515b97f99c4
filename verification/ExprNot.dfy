// Compiling `not`: the value is negated and the two jump lists change places.
module ExprNot {
  import opened Bytecode
  import opened JumpLists
  import opened ExprCode
  import opened ExprLoad
  import opened ExprJumps

  /** `c1` ends in the negation of what `c` ends in. */
  ghost predicate Negates(w: World, c: seq<Instr>, e: Exp, c1: seq<Instr>, e1: Exp) {
    && Shape(c, e.k) && Shape(c1, e1.k) && 0 <= Core(c, e) == Core(c1, e1) && c1[..Core(c, e)] == c[..Core(c, e)]
    && e1.t == e.t && e1.f == e.f
    && forall r: Regs {:trigger Produced(w, c1, e1.k, r)} :: Produced(w, c1, e1.k, r) == Bool(!Truthy(Produced(w, c, e.k, r)))
  }

  /** Some tests of `c` no longer keep their values. */
  ghost predicate LessKept(c: seq<Instr>, c': seq<Instr>) {
    && |c'| == |c|
    && forall q :: 0 <= q < |c| ==> c'[q] == c[q] || (c[q].TestSet? && c'[q] == Test(c[q].b, c[q].k))
  }

  lemma ProducedKept(w: World, c: seq<Instr>, c': seq<Instr>, k: Kind)
    requires LessKept(c, c') && Shape(c, k)
    ensures Shape(c', k) && forall r: Regs :: Produced(w, c', k, r) == Produced(w, c, k, r)
  {
  }

  lemma ReadyLess(s: St, c': seq<Instr>, n: nat)
    requires n <= |s.c| && Ready(St(s.c[..n], s.pend, s.last)) && LessKept(s.c, c')
    ensures Ready(St(c'[..n], s.pend, s.last))
  {
    var a, b := s.c[..n], c'[..n];
    forall q | 0 <= q < n
      ensures b[q] == a[q] || (a[q].TestSet? && b[q] == Test(a[q].b, a[q].k))
    {
    }
    forall q | 0 <= q < |b|
      ensures TidyAt(b, s.pend, s.last, q)
    {
      assert TidyAt(a, s.pend, s.last, q);
    }
  }

  lemma NegatedOne(w: World, ast: Expr, c: seq<Instr>, e: Exp, c1: seq<Instr>, e1: Exp, c': seq<Instr>,
        ts: seq<nat>, fs: seq<nat>, base: nat, y0: Outcome, y: Outcome)
    requires Compiled(w, ast, c, e.k, ts, fs, base, NO_REG, y0, y) && Negates(w, c, e, c1, e1) && LessKept(c1, c')
    requires forall p :: p in ts + fs ==> 1 <= p < |c'| && !c'[p - 1].TestSet?
    ensures Compiled(w, ENot(ast), c', e1.k, fs, ts, base, NO_REG, y0, y)
  {
    ProducedKept(w, c1, c', e1.k);
    hide Produced, LessKept;
    InBoth(ts, fs);
    if y0.Fall? {
      assert Eval(w, ENot(ast), y0.r) == Bool(!Truthy(Eval(w, ast, y0.r)));
      hide Eval;
    }
  }

  lemma Inverted(w: World, entry: nat, s0: St, s: St, ast: Expr, base: nat, e: Exp, ts: seq<nat>, fs: seq<nat>,
        c1: seq<Instr>, e1: Exp, c': seq<Instr>)
    requires Holding(w, entry, s0, s, ast, base, NO_REG, e, ts, fs) && Negates(w, s.c, e, c1, e1) && LessKept(c1, c')
    requires forall pc: nat, r: Regs :: Run(w, c'[..Core(c1, e1)], s.pend, pc, r) == Run(w, c1[..Core(c1, e1)], s.pend, pc, r)
    requires forall p :: p in ts + fs ==> 1 <= p < |c'| && !c'[p - 1].TestSet?
    requires Frame(s0, St(c', s.pend, s.last)) && IsList(c', e.t, ts) && IsList(c', e.f, fs)
    ensures Holding(w, entry, s0, St(c', s.pend, s.last), ENot(ast), base, NO_REG, Exp(e1.k, e1.f, e1.t), fs, ts)
  {
    var n := Core(s.c, e);
    ProducedKept(w, c1, c', e1.k);
    assert n <= |c1|;
    ReadySame(s, c1, n);
    ReadyLess(St(c1, s.pend, s.last), c', n);
    hide Run, Ready, Frame, LessKept, Negates, IsList, Produced, Eval;
    UniqueParts(ts, fs);
    UniqueParts(fs, ts);
    assert Places(fs + ts) == Places(ts + fs);
    forall p | p in fs + ts
      ensures p in ts + fs
    {
    }
    forall r: Regs
      ensures Compiled(w, ENot(ast), c', e1.k, fs, ts, base, NO_REG, Run(w, s0.c, s0.pend, entry, r), Run(w, c'[..n], s.pend, entry, r))
    {
      NegatedOne(w, ast, s.c, e, c1, e1, c', ts, fs, base, Run(w, s0.c, s0.pend, entry, r), Run(w, s.c[..n], s.pend, entry, r));
    }
  }

  lemma ReadySame(s: St, c1: seq<Instr>, n: nat)
    requires n <= |s.c| && n <= |c1| && s.c[..n] == c1[..n]
    ensures Ready(St(s.c[..n], s.pend, s.last)) ==> Ready(St(c1[..n], s.pend, s.last))
  {
    hide Ready;
  }

  lemma NegatesConst(w: World, c: seq<Instr>, e: Exp)
    requires IsConst(e.k)
    ensures var k := if Truthy(ConstVal(e.k)) then KFalse else KTrue; Negates(w, c, e, c, Exp(k, e.t, e.f))
  {
  }

  lemma NegatesComparison(w: World, c: seq<Instr>, e: Exp)
    requires e.k.KJmp? && Shape(c, e.k)
    ensures Negates(w, c, e, c[..|c| - 2] + [Negated(c[e.k.jmp - 1]), Jmp(NO_JUMP)], e)
  {
    var u := c[e.k.jmp - 1];
    var c1 := c[..|c| - 2] + [Negated(u), Jmp(NO_JUMP)];
    assert c1[e.k.jmp - 1] == Negated(u);
    forall r: Regs
      ensures Taken(w, Negated(u), r) == !Taken(w, u, r)
    {
    }
  }

  lemma NegatesReg(w: World, c: seq<Instr>, e: Exp)
    requires e.k.KNonReloc?
    ensures Negates(w, c, e, c + [Not(0, e.k.reg)], Exp(KReloc(|c|), e.t, e.f))
  {
    assert (c + [Not(0, e.k.reg)])[..|c|] == c[..|c|];
  }

  /** What the tests of two lists are after both have been told to keep nothing. */
  lemma BothUntested(w: World, c1: seq<Instr>, pend: set<nat>, c2: seq<Instr>, c3: seq<Instr>, ts: seq<nat>,
        fs: seq<nat>, n: nat)
    requires Untested(w, c1, pend, c2, ts, |ts|, n) && Untested(w, c2, pend, c3, fs, |fs|, n)
    requires forall p :: p in ts + fs ==> 1 <= p < |c1| && c1[p].Jmp? && IsTest(c1[p - 1])
    ensures LessKept(c1, c3)
    ensures forall pc: nat, r: Regs :: Run(w, c3[..n], pend, pc, r) == Run(w, c1[..n], pend, pc, r)
    ensures forall p :: p in ts + fs ==> 1 <= p < |c3| && !c3[p - 1].TestSet?
    ensures forall p :: 0 <= p < |c1| && c1[p].Jmp? ==> c3[p] == c1[p]
  {
    hide Run, OnlyPatched;
    forall p | p in ts + fs
      ensures 1 <= p < |c3| && !c3[p - 1].TestSet?
    {
      assert IsTest(c2[p - 1]) && IsTest(c3[p - 1]);
      if p in ts {
        var j :| 0 <= j < |ts| && ts[j] == p;
        assert !c2[Control(c2, ts[j])].TestSet?;
      } else {
        var j :| 0 <= j < |fs| && fs[j] == p;
        assert !c3[Control(c3, fs[j])].TestSet?;
      }
    }
  }

  lemma FrameUntested(w: World, s0: St, s: St, pend: set<nat>, c': seq<Instr>, ps: seq<nat>, n: nat)
    requires Frame(s0, s) && Untested(w, s.c, pend, c', ps, |ps|, n)
    requires forall p :: p in s0.pend ==> 1 <= p < |s.c| && p !in ps && s.c[p].Jmp? && IsTest(s.c[p - 1])
    requires forall p :: p in ps ==> p < |s.c| && s.c[p].Jmp?
    ensures Frame(s0, St(c', s.pend, s.last))
  {
    hide Run;
    assert ps[..|ps|] == ps;
    forall p | p in s0.pend
      ensures c'[p] == s.c[p] && c'[p - 1] == s.c[p - 1]
    {
      assert p - 1 !in ps;
      assert Spared(s.c, ps, p - 1);
    }
  }

  lemma NilsLess(c: seq<Instr>, c': seq<Instr>)
    requires NilsInRange(c) && LessKept(c, c')
    ensures NilsInRange(c')
  {
    forall q | 0 <= q < |c'| && c'[q].LoadNil?
      ensures c'[q].a <= c'[q].last
    {
      assert c'[q] == c[q];
    }
  }

  lemma OuterPlaces(w: World, entry: nat, s0: St, s: St, ast: Expr, base: nat, e: Exp, ts: seq<nat>, fs: seq<nat>)
    requires Holding(w, entry, s0, s, ast, base, NO_REG, e, ts, fs)
    ensures forall p :: p in s0.pend ==> 1 <= p < Core(s.c, e) && p !in ts && p !in fs && s.c[p].Jmp? && IsTest(s.c[p - 1])
    ensures Frame(s0, s) && IsList(s.c, e.t, ts) && IsList(s.c, e.f, fs) && Unique(ts + fs)
  {
    hide Run, Compiled, Produced, Tidy, IsList;
    var n := Core(s.c, e);
    InBoth(ts, fs);
    forall p | p in s0.pend
      ensures 1 <= p < n && p !in ts && p !in fs && s.c[p].Jmp? && IsTest(s.c[p - 1])
    {
      assert p in St(s.c[..n], s.pend, s.last).pend;
      assert s.c[..n][p] == s.c[p] && s.c[..n][p - 1] == s.c[p - 1];
      assert p in ts + fs ==> p in Places(ts + fs);
    }
  }

  lemma SameCore(c: seq<Instr>, c1: seq<Instr>, n: nat)
    requires n <= |c| && n <= |c1| && c1[..n] == c[..n]
    ensures forall q :: 0 <= q < n ==> c1[q] == c[q]
  {
    forall q | 0 <= q < n
      ensures c1[q] == c[q]
    {
      assert c1[..n][q] == c[..n][q];
    }
  }

  lemma NegatesCore(w: World, c: seq<Instr>, e: Exp, c1: seq<Instr>, e1: Exp)
    requires Negates(w, c, e, c1, e1)
    ensures 0 <= Core(c, e) == Core(c1, e1) && c1[..Core(c, e)] == c[..Core(c, e)]
  {
    hide Produced;
  }

  lemma CorePlaces(w: World, entry: nat, s0: St, s: St, ast: Expr, base: nat, e: Exp, ts: seq<nat>,
        fs: seq<nat>, c1: seq<Instr>, e1: Exp)
    requires Holding(w, entry, s0, s, ast, base, NO_REG, e, ts, fs) && Negates(w, s.c, e, c1, e1)
    ensures var n := Core(c1, e1);
            && (forall p :: p in ts + fs ==> 1 <= p < n && p in s.pend && c1[p].Jmp? && IsTest(c1[p - 1]))
            && (forall p :: p in s0.pend ==> 1 <= p < n && p !in ts && p !in fs && c1[p].Jmp? && IsTest(c1[p - 1]))
            && 0 <= n <= |c1| && Frame(s0, St(c1, s.pend, s.last)) && IsList(c1, e.t, ts) && IsList(c1, e.f, fs) && Unique(ts) && Unique(fs)
  {
    hide Run, Compiled, Produced, Ready, IsList, Holding, Negates;
    NegatesCore(w, s.c, e, c1, e1);
    ListsInCore(w, entry, s0, s, ast, base, NO_REG, e, ts, fs);
    OuterPlaces(w, entry, s0, s, ast, base, e, ts, fs);
    SameCore(s.c, c1, Core(s.c, e));
    InBoth(ts, fs);
    UniqueParts(ts, fs);
    ListKept(s.c, c1, e.t, ts);
    ListKept(s.c, c1, e.f, fs);
  }

  lemma Indexed(ts: seq<nat>, fs: seq<nat>, pend: set<nat>, n: nat)
    requires forall p :: p in ts + fs ==> p < n && p in pend
    ensures forall j {:trigger ts[j]} :: 0 <= j < |ts| ==> ts[j] < n && ts[j] in pend
    ensures forall j {:trigger fs[j]} :: 0 <= j < |fs| ==> fs[j] < n && fs[j] in pend
  {
    InBoth(ts, fs);
    forall j | 0 <= j < |ts|
      ensures ts[j] < n && ts[j] in pend
    {
      assert ts[j] in ts;
    }
    forall j | 0 <= j < |fs|
      ensures fs[j] < n && fs[j] in pend
    {
      assert fs[j] in fs;
    }
  }

  /** The negation is in place; the lists change roles and lose their values. */
  method SwapLists(fs: FuncState, e1: Exp, ghost s: St, ghost e: Exp, ghost s0: St, ghost ast: Expr,
        ghost base: nat, ghost ts: seq<nat>, ghost fls: seq<nat>)
    returns (e': Exp)
    requires !fs.fail && Holding(fs.world, fs.entry, s0, s, ast, base, NO_REG, e, ts, fls)
    requires Negates(fs.world, s.c, e, fs.code, e1) && fs.pend == s.pend && fs.lasttarget == s.last
    requires NilsInRange(fs.code)
    modifies fs`code
    ensures Holding(fs.world, fs.entry, s0, Now(fs), ENot(ast), base, NO_REG, e', fls, ts) && NilsInRange(fs.code)
    ensures e'.k == e1.k
    ensures |fs.code| <= |old(fs.code)|
  {
    hide Holding, Negates, Run, Untested, LessKept, IsList, Frame;
    ghost var c1 := fs.code;
    ghost var n := Core(c1, e1);
    CorePlaces(fs.world, fs.entry, s0, s, ast, base, e, ts, fls, c1, e1);
    NegatesLists(fs.world, s.c, e, c1, e1);
    InBoth(ts, fls);
    Indexed(ts, fls, fs.pend, n);
    e' := Exp(e1.k, e1.f, e1.t);
    fs.RemoveValues(e'.f, ts, n);
    ghost var c2 := fs.code;
    UntestedParts(fs.world, c1, fs.pend, c2, ts, n);
    FrameUntested(fs.world, s0, St(c1, s.pend, s.last), fs.pend, c2, ts, n);
    ListKept(c1, c2, e.t, ts);
    ListKept(c1, c2, e.f, fls);
    fs.RemoveValues(e'.t, fls, n);
    ghost var c3 := fs.code;
    UntestedParts(fs.world, c2, fs.pend, c3, fls, n);
    FrameUntested(fs.world, s0, St(c2, s.pend, s.last), fs.pend, c3, fls, n);
    ListKept(c2, c3, e.t, ts);
    ListKept(c2, c3, e.f, fls);
    BothUntested(fs.world, c1, fs.pend, c2, c3, ts, fls, n);
    NilsLess(c1, c3);
    Inverted(fs.world, fs.entry, s0, s, ast, base, e, ts, fls, c1, e1, c3);
  }

  lemma NegatesLists(w: World, c: seq<Instr>, e: Exp, c1: seq<Instr>, e1: Exp)
    requires Negates(w, c, e, c1, e1)
    ensures e1.t == e.t && e1.f == e.f
  {
  }

  lemma UntestedParts(w: World, c: seq<Instr>, pend: set<nat>, c': seq<Instr>, ps: seq<nat>, n: nat)
    requires Untested(w, c, pend, c', ps, |ps|, n)
    ensures |c'| == |c| && (forall q :: 0 <= q < |c| && c[q].Jmp? ==> c'[q] == c[q]) && (forall q :: 0 <= q < |c| && IsTest(c[q]) ==> IsTest(c'[q]))
  {
    hide Run, OnlyPatched;
  }

  /** Compile `not`: fold a constant, turn a comparison around, or emit a NOT. */
  method CodeNot(fs: FuncState, e0: Exp, ghost s0: St, ghost ast: Expr, ghost base: nat, ghost ts: seq<nat>,
        ghost fls: seq<nat>)
    returns (e': Exp)
    requires !fs.fail && Holding(fs.world, fs.entry, s0, Now(fs), ast, base, NO_REG, e0, ts, fls)
    requires NilsInRange(fs.code)
    requires FreeOk(e0.k, base, fs.freereg, fs.nactvar) && (e0.k.KK? ==> Truthy(e0.k.v)) && !e0.k.KLocal? && !e0.k.KUpval?
    modifies fs`code, fs`freereg, fs`fail
    ensures !fs.fail ==> Holding(fs.world, fs.entry, s0, Now(fs), ENot(ast), base, NO_REG, e', fls, ts) && NilsInRange(fs.code)
    ensures !fs.fail ==> FreeOk(e'.k, base, fs.freereg, fs.nactvar) && !e'.k.KK? && !e'.k.KLocal? && !e'.k.KUpval? && !e'.k.KNonReloc?
    ensures |fs.code| <= |old(fs.code)| + 3
    ensures base < MAX_FSTACK && |old(fs.code)| + 3 <= OFFSET_sJ ==> !fs.fail
  {
    hide Holding, Negates;
    ghost var s, e := Now(fs), e0;
    var e1 := e0;
    HoldingShape(fs.world, fs.entry, s0, s, ast, base, NO_REG, e0, ts, fls);
    if e0.k.KNil? || e0.k.KFalse? {
      NegatesConst(fs.world, fs.code, e0);
      e1 := Exp(KTrue, e0.t, e0.f);
    } else if e0.k.KK? || e0.k.KInt? || e0.k.KStr? || e0.k.KTrue? {
      NegatesConst(fs.world, fs.code, e0);
      e1 := Exp(KFalse, e0.t, e0.f);
    } else if e0.k.KJmp? {
      NegatesComparison(fs.world, fs.code, e0);
      NegateCondition(fs, e0);
    } else {
      e1 := Discharge2AnyReg(fs, e0, s0, ast, base, ts, fls);
      if fs.fail {
        return e1;
      }
      s, e := Now(fs), e1;
      fs.FreeReg(e1.k.reg);
      NegatesReg(fs.world, fs.code, e1);
      var pc := fs.Code(Not(0, e1.k.reg));
      e1 := Exp(KReloc(pc), e1.t, e1.f);
    }
    e' := SwapLists(fs, e1, s, e, s0, ast, base, ts, fls);
  }
}
