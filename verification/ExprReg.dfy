// The final value of an expression in a register, whichever way it was reached.
module ExprReg {
  import opened Bytecode
  import opened JumpLists
  import opened ExprCode
  import opened ExprLoad
  import opened ExprJumps

  /** The code falls through with the value in `reg`, or, when it is not `valued`, only
      when the value is false; or it leaves by the lists. */
  ghost predicate Settles(w: World, ast: Expr, c: seq<Instr>, ts: seq<nat>, fs: seq<nat>, base: nat, reg: Reg,
        valued: bool, y0: Outcome, y: Outcome) {
    match y0
    case Fall(r0) =>
      var v := Eval(w, ast, r0);
      (match y
       case Fall(r) => Same(r0, r, base, reg) && if valued then r[reg] == v else v == False
       case Exit(p, r) =>
         && Same(r0, r, base, NO_REG)
         && ((p in ts && LeavesWith(c, p, true, r, v)) || (p in fs && LeavesWith(c, p, false, r, v)))
       case Stuck => false)
    case Exit(_, _) => y == y0
    case Stuck => true
  }

  ghost predicate Settled(w: World, entry: nat, s0: St, s: St, ast: Expr, base: nat, reg: Reg, valued: bool,
        e: Exp, ts: seq<nat>, fs: seq<nat>) {
    && entry <= s0.last && Ready(s) && Frame(s0, s) && base <= NO_REG && Lists(s0, s, e, ts, fs)
    && forall r: Regs {:trigger Run(w, s0.c, s0.pend, entry, r)} ::
         Settles(w, ast, s.c, ts, fs, base, reg, valued, Run(w, s0.c, s0.pend, entry, r), Run(w, s.c, s.pend, entry, r))
  }

  lemma SettledValue(w: World, entry: nat, s0: St, s: St, ast: Expr, base: nat, reg: Reg, e: Exp, ts: seq<nat>,
        fs: seq<nat>)
    requires Holding(w, entry, s0, s, ast, base, reg, e, ts, fs) && e.k == KNonReloc(reg)
    ensures Settled(w, entry, s0, s, ast, base, reg, true, e, ts, fs)
  {
    hide Run, Eval, Ready, Frame, Lists, LeavesWith;
    assert s.c[..Core(s.c, e)] == s.c;
    forall r: Regs
      ensures Settles(w, ast, s.c, ts, fs, base, reg, true, Run(w, s0.c, s0.pend, entry, r), Run(w, s.c, s.pend, entry, r))
    {
      assert Compiled(w, ast, s.c, e.k, ts, fs, base, reg, Run(w, s0.c, s0.pend, entry, r), Run(w, s.c[..Core(s.c, e)], s.pend, entry, r));
    }
  }

  /** Code that falls through a comparison has a boolean for a value. */
  ghost predicate FallsToBool(w: World, ast: Expr, y0: Outcome, y: Outcome) {
    y0.Fall? && y.Fall? ==> exists b :: Eval(w, ast, y0.r) == Bool(b)
  }

  lemma ComparisonIsBool(w: World, entry: nat, s0: St, s: St, ast: Expr, base: nat, e: Exp, ts: seq<nat>, fs: seq<nat>)
    requires Holding(w, entry, s0, s, ast, base, NO_REG, e, ts, fs) && e.k.KJmp?
    ensures forall r: Regs {:trigger Run(w, s0.c, s0.pend, entry, r)} ::
              FallsToBool(w, ast, Run(w, s0.c, s0.pend, entry, r), Run(w, s.c, s.pend + {e.k.jmp}, entry, r))
  {
    ListsInCore(w, entry, s0, s, ast, base, NO_REG, e, ts, fs);
    var n := Core(s.c, e);
    var t := s.c[e.k.jmp - 1];
    assert s.c == s.c[..n] + [t, Jmp(NO_JUMP)];
    hide Run, Eval, Frame, Lists, LeavesWith, Same, Tidy;
    forall r: Regs
      ensures FallsToBool(w, ast, Run(w, s0.c, s0.pend, entry, r), Run(w, s.c, s.pend + {e.k.jmp}, entry, r))
    {
      assert Compiled(w, ast, s.c, e.k, ts, fs, base, NO_REG, Run(w, s0.c, s0.pend, entry, r), Run(w, s.c[..n], s.pend, entry, r));
      RunTest(w, s.c[..n], s.pend, s.last, t, NO_JUMP, entry, r);
    }
  }

  lemma SettledTest(w: World, entry: nat, s0: St, s: St, ast: Expr, base: nat, reg: Reg, e: Exp, ts: seq<nat>,
        fs: seq<nat>)
    requires Sifted(w, entry, s0, s, ast, base, false, e, ts, fs)
    requires forall r: Regs {:trigger Run(w, s0.c, s0.pend, entry, r)} :: FallsToBool(w, ast, Run(w, s0.c, s0.pend, entry, r), Run(w, s.c, s.pend, entry, r))
    ensures Settled(w, entry, s0, s, ast, base, reg, false, e, ts, fs)
  {
    hide Run, Eval, Ready, Frame, Lists, LeavesWith;
    forall r: Regs
      ensures Settles(w, ast, s.c, ts, fs, base, reg, false, Run(w, s0.c, s0.pend, entry, r), Run(w, s.c, s.pend, entry, r))
    {
      var y0, y := Run(w, s0.c, s0.pend, entry, r), Run(w, s.c, s.pend, entry, r);
      assert Sifts(w, ast, s.c, ts, fs, base, false, y0, y) && FallsToBool(w, ast, y0, y);
    }
  }

  // ---------------------------------------------------------- loading booleans

  /** The two boolean loads, behind a jump around them if there is a value already. */
  function Loads(reg: Reg, valued: bool): seq<Instr> {
    (if valued then [Jmp(2)] else []) + [LFalseSkip(reg), LoadTrue(reg)]
  }

  function PutFalse(reg: Reg): Regs -> Regs {
    (r: Regs) => r[reg := False]
  }

  function PutTrue(reg: Reg): Regs -> Regs {
    (r: Regs) => r[reg := True]
  }

  lemma LoadsLead(w: World, s: St, reg: Reg, valued: bool)
    requires Ready(s)
    ensures var c' := s.c + Loads(reg, valued); var pf := |c'| - 2;
            && Leads(w, c', s.pend, |c'|, Stay()) && Leads(w, c', s.pend, pf, PutFalse(reg)) && Leads(w, c', s.pend, pf + 1, PutTrue(reg))
            && forall r: Regs :: Run(w, c', s.pend, |s.c|, r) == Fall(if valued then r else r[reg := False])
  {
    var c' := s.c + Loads(reg, valued);
    var n := |c'|;
    assert c'[n - 2] == LFalseSkip(reg) && c'[n - 1] == LoadTrue(reg);
    if |s.c| > 0 {
      assert TidyAt(s.c, s.pend, s.last, |s.c| - 1);
    }
    var pf, pt := n - 2, n - 1;
    forall r: Regs
      ensures Run(w, c', s.pend, n, r) == Fall(r)
      ensures Run(w, c', s.pend, pt, r) == Fall(r[reg := True])
    {
      assert Run(w, c', s.pend, n, r[reg := True]) == Fall(r[reg := True]);
    }
    forall r: Regs
      ensures Run(w, c', s.pend, pf, r) == Fall(r[reg := False])
    {
      assert Run(w, c', s.pend, n, r[reg := False]) == Fall(r[reg := False]);
    }
    if valued {
      var fj := |s.c|;
      assert c'[fj] == Jmp(2) && n - 3 == fj && fj !in s.pend;
      forall r: Regs
        ensures Run(w, c', s.pend, fj, r) == Fall(r)
      {
        assert Run(w, c', s.pend, n, r) == Fall(r);
      }
    }
  }

  lemma ReadyLoads(s: St, reg: Reg, valued: bool)
    requires Ready(s)
    ensures Ready(St(s.c + Loads(reg, valued), s.pend, |s.c| + |Loads(reg, valued)|))
  {
    var c' := s.c + Loads(reg, valued);
    var n := |c'|;
    assert c'[n - 2] == LFalseSkip(reg) && c'[n - 1] == LoadTrue(reg) && (valued ==> c'[n - 3] == Jmp(2));
    forall q | 0 <= q < n
      ensures TidyAt(c', s.pend, n, q)
    {
      if q < |s.c| {
        assert TidyAt(s.c, s.pend, s.last, q);
      }
    }
  }

  lemma LoadedRuns(w: World, entry: nat, s0: St, s: St, ast: Expr, base: nat, reg: Reg, valued: bool, e: Exp,
        ts: seq<nat>, fs: seq<nat>)
    requires Settled(w, entry, s0, s, ast, base, reg, valued, e, ts, fs)
    ensures var d := Loads(reg, valued); Settled(w, entry, s0, St(s.c + d, s.pend, |s.c| + |d|), ast, base, reg, true, e, ts, fs)
  {
    var d := Loads(reg, valued);
    var c' := s.c + d;
    LoadsLead(w, s, reg, valued);
    ReadyLoads(s, reg, valued);
    ReadySize(s);
    FrameAppend(s0, s, d);
    ListsAppend(s0, s, e, e.k, ts, fs, d);
    hide Run, Eval, Ready, Lists, Leads, Loads;
    forall r: Regs
      ensures Settles(w, ast, c', ts, fs, base, reg, true, Run(w, s0.c, s0.pend, entry, r), Run(w, c', s.pend, entry, r))
    {
      RunAppend(w, s.c, d, s.pend, s.pend, entry, r);
      assert Settles(w, ast, s.c, ts, fs, base, reg, valued, Run(w, s0.c, s0.pend, entry, r), Run(w, s.c, s.pend, entry, r));
    }
    assert e.(k := e.k) == e;
    ListsLast(s0, St(c', s.pend, s.last), e, ts, fs, |s.c| + |d|);
  }

  lemma ListsLast(s0: St, s: St, e: Exp, ts: seq<nat>, fs: seq<nat>, last: nat)
    requires Lists(s0, s, e, ts, fs)
    ensures Lists(s0, St(s.c, s.pend, last), e, ts, fs)
  {
    hide IsList;
  }

  // ------------------------------------------------------- every jump resolved

  lemma ReadyAimed(w: World, s: St, c': seq<Instr>, pend': set<nat>, ps: seq<nat>, t: Targets)
    requires Ready(s) && Patching(w, s.c, s.pend, c', pend', ps, |ps|, t) && forall p :: p in ps ==> p in s.pend
    requires t.vtarget <= s.last && t.dtarget <= s.last
    ensures Ready(St(c', pend', s.last))
  {
    hide Run, Leads, AfterPatch;
    assert ps[..|ps|] == ps;
    forall q | 0 <= q < |c'|
      ensures TidyAt(c', pend', s.last, q)
    {
      assert TidyAt(s.c, s.pend, s.last, q);
      if c'[q].Jmp? && q !in pend' && q in ps {
        var j :| 0 <= j < |ps| && ps[j] == q;
        assert c'[ps[j]] == Jmp(TargetOf(t, s.c, ps[j]) - (ps[j] + 1));
      } else if c'[q].Jmp? && q !in pend' {
        assert Spared(s.c, ps, q);
      }
    }
    forall p | p in pend'
      ensures 1 <= p < |c'| && c'[p].Jmp? && IsTest(c'[p - 1])
    {
      SparedOnes(s, ps, c', p);
    }
  }

  /** Where the jumps of a list of an expression go in the end. */
  ghost function Final(reg: Reg, final: nat, load: int, g: Regs -> Regs): Targets {
    Targets(reg, final, load, Stay(), g)
  }

  /** One list resolved: what left by it now falls through with the value. */
  lemma ResolvedOne(w: World, ast: Expr, c: seq<Instr>, c': seq<Instr>, ts: seq<nat>, fs: seq<nat>,
        onTrue: bool, base: nat, reg: Reg, y0: Outcome, y: Outcome, z: Outcome)
    requires Settles(w, ast, c, ts, fs, base, reg, true, y0, y) && reg != NO_REG && base <= NO_REG
    requires Places(ts) !! Places(fs)
    requires AfterPatch(c, if onTrue then ts else fs, reg, Stay(), if onTrue then PutTrue(reg) else PutFalse(reg), y, z)
    requires y.Exit? && y0.Exit? ==> y.p !in (if onTrue then ts else fs)
    requires forall p :: p in ts + fs ==> 1 <= p < |c| && IsTest(c[p - 1])
    requires |c'| == |c| && forall p :: p in ts + fs && 1 <= p < |c| && p !in (if onTrue then ts else fs) ==> c'[p - 1] == c[p - 1]
    ensures if onTrue then Settles(w, ast, c', [], fs, base, reg, true, y0, z) else Settles(w, ast, c', ts, [], base, reg, true, y0, z)
  {
    hide Eval;
    InBoth(ts, fs);
    if y0.Fall? && y.Exit? {
      assert y.p in ts ==> y.p in Places(ts);
      assert y.p in fs ==> y.p in Places(fs);
    }
  }

  lemma SettledPlaces(w: World, entry: nat, s0: St, s: St, ast: Expr, base: nat, reg: Reg, valued: bool, e: Exp,
        ts: seq<nat>, fs: seq<nat>)
    requires Settled(w, entry, s0, s, ast, base, reg, valued, e, ts, fs)
    ensures Ready(s) && Unique(ts) && Unique(fs) && Places(ts) !! Places(fs) && IsList(s.c, e.t, ts)
    ensures IsList(s.c, e.f, fs)
    ensures forall p :: p in s0.pend ==> p !in ts && p !in fs && p in s.pend
    ensures forall p :: p in ts + fs ==> p in s.pend && 1 <= p < |s.c| && |s0.c| < p && s.c[p].Jmp? && IsTest(s.c[p - 1])
    ensures forall p :: p in ts ==> p in ts + fs && p !in fs
    ensures forall p :: p in fs ==> p in ts + fs && p !in ts
    ensures s.pend - Places(ts) == s0.pend + Places(fs) && s.pend - Places(fs) == s0.pend + Places(ts)
  {
    hide Run, Settles, Tidy, IsList;
    UniqueParts(ts, fs);
    UniqueParts(fs, ts);
    InBoth(ts, fs);
    forall p
      ensures p in ts ==> p in Places(ts)
      ensures p in fs ==> p in Places(fs)
      ensures p in ts + fs ==> p in Places(ts + fs)
    {
    }
  }

  lemma ResolvedRuns(w: World, entry: nat, s0: St, s: St, c': seq<Instr>, pend': set<nat>, ast: Expr, base: nat,
        reg: Reg, e: Exp, ts: seq<nat>, fs: seq<nat>, onTrue: bool, t: Targets,
                     ps: seq<nat>, ts': seq<nat>, fs': seq<nat>)
    requires Settled(w, entry, s0, s, ast, base, reg, true, e, ts, fs) && reg != NO_REG
    requires ps == (if onTrue then ts else fs) && ts' == (if onTrue then [] else ts) && fs' == (if onTrue then fs else [])
    requires t.reg == reg && t.gv == Stay() && t.gd == (if onTrue then PutTrue(reg) else PutFalse(reg))
    requires Patching(w, s.c, s.pend, c', pend', ps, |ps|, t)
    ensures forall r: Regs {:trigger Run(w, s0.c, s0.pend, entry, r)} ::
              Settles(w, ast, c', ts', fs', base, reg, true, Run(w, s0.c, s0.pend, entry, r), Run(w, c', pend', entry, r))
  {
    SettledPlaces(w, entry, s0, s, ast, base, reg, true, e, ts, fs);
    PatchingParts(w, s, c', pend', ps, t);
    hide Run, Eval, Ready, Leads, AfterPatch, Settles, Patching, IsList, Lists, Frame, OnlyPatched;
    forall p | p in ts + fs && 1 <= p < |s.c| && p !in ps
      ensures c'[p - 1] == s.c[p - 1]
    {
      SparedOnes(s, ps, c', p);
    }
    forall r: Regs
      ensures Settles(w, ast, c', ts', fs', base, reg, true, Run(w, s0.c, s0.pend, entry, r), Run(w, c', pend', entry, r))
    {
      var y0 := Run(w, s0.c, s0.pend, entry, r);
      ExitsPending(w, s0.c, s0.pend, entry, r);
      SettlesExit(w, ast, s.c, ts, fs, base, reg, y0, Run(w, s.c, s.pend, entry, r));
      ResolvedOne(w, ast, s.c, c', ts, fs, onTrue, base, reg, y0, Run(w, s.c, s.pend, entry, r), Run(w, c', pend', entry, r));
    }
  }

  lemma SettlesExit(w: World, ast: Expr, c: seq<Instr>, ts: seq<nat>, fs: seq<nat>, base: nat, reg: Reg,
        y0: Outcome, y: Outcome)
    requires Settles(w, ast, c, ts, fs, base, reg, true, y0, y)
    ensures y0.Exit? ==> y == y0
  {
  }

  lemma PatchingParts(w: World, s: St, c': seq<Instr>, pend': set<nat>, ps: seq<nat>, t: Targets)
    requires Patching(w, s.c, s.pend, c', pend', ps, |ps|, t)
    ensures |c'| == |s.c| && OnlyPatched(s.c, c', ps) && pend' == s.pend - Places(ps)
    ensures forall pc: nat, r: Regs {:trigger Run(w, s.c, s.pend, pc, r)} ::
              AfterPatch(s.c, ps, t.reg, t.gv, t.gd, Run(w, s.c, s.pend, pc, r), Run(w, c', pend', pc, r))
    ensures forall x, g {:trigger Leads(w, s.c, s.pend, x, g)} :: Leads(w, s.c, s.pend, x, g) ==> Leads(w, c', pend', x, g)
  {
    hide Run, Leads, AfterPatch, OnlyPatched;
    assert ps[..|ps|] == ps;
  }

  /** The state after one list has been resolved. */
  lemma Resolved(w: World, entry: nat, s0: St, s: St, c': seq<Instr>, pend': set<nat>, ast: Expr, base: nat,
        reg: Reg, e: Exp, ts: seq<nat>, fs: seq<nat>, onTrue: bool, t: Targets,
                 ps: seq<nat>, ts': seq<nat>, fs': seq<nat>)
    requires Settled(w, entry, s0, s, ast, base, reg, true, e, ts, fs) && reg != NO_REG
    requires ps == (if onTrue then ts else fs) && ts' == (if onTrue then [] else ts) && fs' == (if onTrue then fs else [])
    requires t.reg == reg && t.gv == Stay() && t.gd == (if onTrue then PutTrue(reg) else PutFalse(reg)) && t.vtarget <= s.last && t.dtarget <= s.last
    requires Patching(w, s.c, s.pend, c', pend', ps, |ps|, t)
    ensures var e' := if onTrue then e.(t := NO_JUMP) else e.(f := NO_JUMP);
            Settled(w, entry, s0, St(c', pend', s.last), ast, base, reg, true, e', ts', fs')
  {
    hide Run, Eval, Ready, Leads, AfterPatch, Settles, Patching, IsList, OnlyPatched;
    SettledPlaces(w, entry, s0, s, ast, base, reg, true, e, ts, fs);
    PatchingParts(w, s, c', pend', ps, t);
    ReadyAimed(w, s, c', pend', ps, t);
    forall p | p in s.pend && p !in ps
      ensures 1 <= p < |s.c| == |c'| && c'[p] == s.c[p] && c'[p - 1] == s.c[p - 1]
    {
      SparedOnes(s, ps, c', p);
    }
    var rest := if onTrue then fs else ts;
    ListKept(s.c, c', if onTrue then e.f else e.t, rest);
    Empty(c');
    assert ts' + fs' == rest;
    ResolvedRuns(w, entry, s0, s, c', pend', ast, base, reg, e, ts, fs, onTrue, t, ps, ts', fs');
  }

  lemma Empty(c: seq<Instr>)
    ensures IsList(c, NO_JUMP, [])
  {
  }

  // ------------------------------------------------------------- the methods

  lemma AroundLoads(w: World, s: St, c1: seq<Instr>, reg: Reg, c': seq<Instr>, pend': set<nat>)
    requires Ready(s) && c1 == s.c + [Jmp(NO_JUMP), LFalseSkip(reg), LoadTrue(reg)]
    requires Patching(w, c1, s.pend + {|s.c|}, c', pend', [|s.c|], 1, Here(c1))
    ensures c' == s.c + Loads(reg, true) && pend' == s.pend
  {
    hide Run, Leads, AfterPatch;
    var fj := |s.c|;
    assert [fj][..1] == [fj];
    assert forall p :: p in s.pend ==> p < fj;
    assert c'[[fj][0]] == Jmp(TargetOf(Here(c1), c1, fj) - (fj + 1));
    if fj > 0 {
      assert TidyAt(s.c, s.pend, s.last, fj - 1);
    }
    var d := s.c + Loads(reg, true);
    forall q | 0 <= q < |c1|
      ensures c'[q] == d[q]
    {
      if q != fj {
        assert Spared(c1, [fj], q);
      }
    }
  }

  /** Load false and true; a value that is there already goes around them. */
  method LoadBools(fs: FuncState, reg: Reg, valued: bool) returns (pf: nat, pt: nat)
    requires !fs.fail && Ready(Now(fs))
    modifies fs`code, fs`pend, fs`lasttarget, fs`fail
    ensures !fs.fail ==> fs.code == old(fs.code) + Loads(reg, valued) && fs.pend == old(fs.pend) && fs.lasttarget == |fs.code|
    ensures !fs.fail ==> pf == |fs.code| - 2 && pt == |fs.code| - 1
    ensures |fs.code| <= |old(fs.code)| + 3
    ensures |old(fs.code)| + 3 <= OFFSET_sJ ==> !fs.fail
  {
    hide Ready, Run, Patching, Aimed, Leads;
    ghost var s := Now(fs);
    var fj := |fs.code|;
    if valued {
      fj := fs.Code(Jmp(NO_JUMP));
      fs.pend := fs.pend + {fj};
    }
    var l := fs.GetLabel();
    pf := fs.Code(LFalseSkip(reg));
    l := fs.GetLabel();
    pt := fs.Code(LoadTrue(reg));
    l := fs.GetLabel();
    if valued {
      ghost var c1 := fs.code;
      assert c1 == s.c + [Jmp(NO_JUMP), LFalseSkip(reg), LoadTrue(reg)];
      AimedAround(fs.world, c1, fs.pend, fj);
      fs.PatchListAux(fj, l, NO_REG, l, [fj], Stay(), Stay());
      if !fs.fail {
        AroundLoads(fs.world, s, c1, reg, fs.code, fs.pend);
      }
    }
  }

  lemma AimedAround(w: World, c: seq<Instr>, pend: set<nat>, fj: nat)
    requires fj < |c| && c[fj] == Jmp(NO_JUMP) && fj in pend
    ensures IsList(c, fj, [fj]) && Unique([fj]) && Aimed(w, c, pend, [fj], Here(c))
  {
    LeadsHere(w, c, pend);
    hide Run, Leads;
    assert [fj][1..] == [];
  }

  /** The jumps of one list get their targets: the end, or the load of their boolean. */
  method ResolveList(fs: FuncState, e: Exp, onTrue: bool, reg: Reg, final: nat, load: int, ghost s0: St,
        ghost ast: Expr, ghost base: nat, ghost ts: seq<nat>, ghost fls: seq<nat>)
      returns (e': Exp)
    requires !fs.fail && Settled(fs.world, fs.entry, s0, Now(fs), ast, base, reg, true, e, ts, fls)
    requires reg != NO_REG && NilsInRange(fs.code)
    requires final == |fs.code| == fs.lasttarget && load < final
    requires Leads(fs.world, fs.code, fs.pend, final, Stay())
    requires (exists p :: p in ts + fls && p < |fs.code| && !fs.code[Control(fs.code, p)].TestSet?) ==>
               && Leads(fs.world, fs.code, fs.pend, load, if onTrue then PutTrue(reg) else PutFalse(reg))
               && forall p :: p in ts + fls ==> p < load
    modifies fs`code, fs`pend, fs`fail
    ensures !fs.fail ==> |fs.code| == |old(fs.code)| && NilsInRange(fs.code)
    ensures !fs.fail ==> e' == if onTrue then e.(t := NO_JUMP) else e.(f := NO_JUMP)
    ensures !fs.fail ==> Settled(fs.world, fs.entry, s0, Now(fs), ast, base, reg, true, e', if onTrue then [] else ts, if onTrue then fls else [])
    ensures !fs.fail ==> forall x, g {:trigger Leads(fs.world, old(fs.code), old(fs.pend), x, g)} ::
              Leads(fs.world, old(fs.code), old(fs.pend), x, g) ==> Leads(fs.world, fs.code, fs.pend, x, g)
    ensures !fs.fail ==> forall p :: p in (if onTrue then fls else ts) && p < |fs.code| ==> p < |old(fs.code)| && fs.code[Control(fs.code, p)] == old(fs.code)[Control(old(fs.code), p)]
    ensures |fs.code| <= |old(fs.code)|
    ensures |old(fs.code)| <= OFFSET_sJ ==> !fs.fail
  {
    hide Settled, Run, Patching, Aimed, Leads, IsList, Ready, OnlyPatched;
    ghost var s := Now(fs);
    ghost var ps := if onTrue then ts else fls;
    ghost var g := if onTrue then PutTrue(reg) else PutFalse(reg);
    SettledPlaces(fs.world, fs.entry, s0, s, ast, base, reg, true, e, ts, fls);
    AimedFinal(fs.world, s, ps, ts + fls, Final(reg, final, load, g));
    fs.PatchListAux(if onTrue then e.t else e.f, final, reg, load, ps, Stay(), g);
    e' := if onTrue then e.(t := NO_JUMP) else e.(f := NO_JUMP);
    if !fs.fail {
      PatchingParts(fs.world, s, fs.code, fs.pend, ps, Final(reg, final, load, g));
      NilsPatched(s.c, fs.code, ps);
      Resolved(fs.world, fs.entry, s0, s, fs.code, fs.pend, ast, base, reg, e, ts, fls, onTrue, Final(reg, final, load, g), ps,
               if onTrue then [] else ts, if onTrue then fls else []);
      OtherControls(s, fs.code, ps, if onTrue then fls else ts);
    }
  }

  lemma OtherControls(s: St, c': seq<Instr>, ps: seq<nat>, qs: seq<nat>)
    requires Ready(s) && OnlyPatched(s.c, c', ps) && (forall p :: p in ps ==> p in s.pend) && (forall p :: p in qs ==> p in s.pend && p !in ps)
    ensures forall p :: p in qs && p < |c'| ==> p < |s.c| && c'[Control(c', p)] == s.c[Control(s.c, p)]
  {
    hide Tidy, OnlyPatched;
    assert |c'| == |s.c| by {
      PatchedSize(s.c, c', ps);
    }
    forall p | p in qs && p < |c'|
      ensures c'[Control(c', p)] == s.c[Control(s.c, p)]
    {
      SparedOnes(s, ps, c', p);
    }
  }

  lemma PatchedSize(c: seq<Instr>, c': seq<Instr>, ps: seq<nat>)
    requires OnlyPatched(c, c', ps)
    ensures |c'| == |c|
  {
  }

  lemma AimedFinal(w: World, s: St, ps: seq<nat>, all: seq<nat>, t: Targets)
    requires Ready(s) && (forall p :: p in ps ==> p in all) && (forall p :: p in all ==> p in s.pend)
    requires t.vtarget == |s.c| && t.dtarget < |s.c| && Leads(w, s.c, s.pend, t.vtarget, t.gv)
    requires (exists p :: p in all && p < |s.c| && !s.c[Control(s.c, p)].TestSet?) ==>
               Leads(w, s.c, s.pend, t.dtarget, t.gd) && forall p :: p in all ==> p < t.dtarget
    ensures Aimed(w, s.c, s.pend, ps, t)
  {
    hide Run, Leads, Tidy;
    forall j {:trigger ps[j]} | 0 <= j < |ps|
      ensures ps[j] < |s.c| && s.c[ps[j]].Jmp? && ps[j] in s.pend && ps[j] < TargetOf(t, s.c, ps[j]) <= |s.c|
      ensures if s.c[Control(s.c, ps[j])].TestSet? then Leads(w, s.c, s.pend, t.vtarget, t.gv) else Leads(w, s.c, s.pend, t.dtarget, t.gd)
    {
      assert ps[j] in ps && ps[j] in all;
    }
  }

  lemma HeadsDiffer(a: seq<nat>, b: seq<nat>)
    requires Unique(a + b)
    ensures a != [] && b != [] ==> a[0] != b[0]
  {
    if a != [] && b != [] {
      assert (a + b)[0] == a[0] && (a + b)[|a|] == b[0];
    }
  }

  lemma NoJumps(w: World, entry: nat, s0: St, s: St, ast: Expr, base: nat, reg: Reg, valued: bool, e: Exp,
        ts: seq<nat>, fs: seq<nat>)
    requires Settled(w, entry, s0, s, ast, base, reg, valued, e, ts, fs) && !HasJumps(e)
    ensures ts == [] && fs == [] && e.t == NO_JUMP && e.f == NO_JUMP
  {
    hide Run, Settles, Ready;
    HeadsDiffer(ts, fs);
  }

  lemma AllSettled(w: World, entry: nat, s0: St, s: St, ast: Expr, base: nat, reg: Reg, e: Exp)
    requires Settled(w, entry, s0, s, ast, base, reg, true, e, [], []) && e.t == NO_JUMP && e.f == NO_JUMP
    ensures Holding(w, entry, s0, s, ast, base, reg, Exp(KNonReloc(reg), NO_JUMP, NO_JUMP), [], [])
  {
    hide Run, Eval, Ready, IsList;
    var k := KNonReloc(reg);
    assert s.c[..|s.c|] == s.c;
    forall r: Regs
      ensures Compiled(w, ast, s.c, k, [], [], base, reg, Run(w, s0.c, s0.pend, entry, r), Run(w, s.c, s.pend, entry, r))
    {
      assert Settles(w, ast, s.c, [], [], base, reg, true, Run(w, s0.c, s0.pend, entry, r), Run(w, s.c, s.pend, entry, r));
    }
    assert e.(k := k) == Exp(k, NO_JUMP, NO_JUMP);
  }

  /** The expression, all its own jumps apart, settled: a value in `reg`, or a test. */
  method Settle(fs: FuncState, e0: Exp, reg: Reg, ghost s0: St, ghost ast: Expr, ghost base: nat,
        ghost ts: seq<nat>, ghost fls: seq<nat>)
      returns (e: Exp, ghost ts': seq<nat>)
    requires !fs.fail && Holding(fs.world, fs.entry, s0, Now(fs), ast, base, NO_REG, e0, ts, fls)
    requires NilsInRange(fs.code)
    modifies fs`code, fs`pend, fs`fail
    ensures !fs.fail ==> Settled(fs.world, fs.entry, s0, Now(fs), ast, base, reg, !e0.k.KJmp?, e, ts', fls) && NilsInRange(fs.code)
    ensures !fs.fail && e0.k.KJmp? ==> exists p :: p in ts' && p < |fs.code| && !fs.code[Control(fs.code, p)].TestSet?
    ensures |fs.code| <= |old(fs.code)| + 2
    ensures |old(fs.code)| + 2 <= OFFSET_sJ ==> !fs.fail
  {
    hide Holding, Settled, Sifted, Loose, Run, FallsToBool, IsList;
    e := Discharge2Reg(fs, e0, reg, s0, ast, base, ts, fls);
    ts' := ts;
    if e.k.KJmp? {
      ghost var s := Now(fs);
      assert e == e0;
      ComparisonIsBool(fs.world, fs.entry, s0, s, ast, base, e, ts, fls);
      HoldingShape(fs.world, fs.entry, s0, s, ast, base, NO_REG, e, ts, fls);
      var pc := TakeComparison(fs, e, false, s0, ast, base, ts, fls);
      ghost var c1 := fs.code;
      e := JoinJump(fs, e, pc, false, s0, ast, base, ts, fls);
      ts' := ts + [pc];
      if !fs.fail {
        SettledTest(fs.world, fs.entry, s0, Now(fs), ast, base, reg, e, ts', fls);
        assert pc in ts' && fs.code[pc - 1] == s.c[pc - 1];
      }
    } else {
      SettledValue(fs.world, fs.entry, s0, Now(fs), ast, base, reg, e, ts, fls);
    }
  }

  /** Does some jump of the expression need a boolean to be loaded? */
  method NeedsLoads(fs: FuncState, e: Exp, ghost ts: seq<nat>, ghost fls: seq<nat>) returns (need: bool)
    requires IsList(fs.code, e.t, ts) && IsList(fs.code, e.f, fls)
    ensures need <==> exists p :: p in ts + fls && p < |fs.code| && !fs.code[Control(fs.code, p)].TestSet?
  {
    hide IsList;
    InBoth(ts, fls);
    need := fs.NeedValue(e.t, ts);
    if !need {
      need := fs.NeedValue(e.f, fls);
    }
  }

  lemma LastIs(w: World, entry: nat, s0: St, s: St, ast: Expr, base: nat, reg: Reg, e: Exp, ts: seq<nat>, fs: seq<nat>)
    requires Settled(w, entry, s0, s, ast, base, reg, true, e, ts, fs)
    ensures Settled(w, entry, s0, St(s.c, s.pend, |s.c|), ast, base, reg, true, e, ts, fs)
  {
    hide Run, Settles, IsList;
    forall q | 0 <= q < |s.c|
      ensures TidyAt(s.c, s.pend, |s.c|, q)
    {
      assert TidyAt(s.c, s.pend, s.last, q);
    }
  }

  lemma NilsLoads(c: seq<Instr>, reg: Reg, valued: bool)
    requires NilsInRange(c)
    ensures NilsInRange(c + Loads(reg, valued))
  {
  }

  /** Booleans loaded if some jump needs them; then every jump can get its target. */
  method PrepareLoads(fs: FuncState, e: Exp, reg: Reg, valued: bool, ghost s0: St, ghost ast: Expr,
        ghost base: nat, ghost ts: seq<nat>, ghost fls: seq<nat>)
      returns (final: nat, pf: int, pt: int)
    requires !fs.fail && Settled(fs.world, fs.entry, s0, Now(fs), ast, base, reg, valued, e, ts, fls)
    requires NilsInRange(fs.code)
    requires valued || exists p :: p in ts + fls && p < |fs.code| && !fs.code[Control(fs.code, p)].TestSet?
    modifies fs`code, fs`pend, fs`lasttarget, fs`fail
    ensures !fs.fail ==> Settled(fs.world, fs.entry, s0, Now(fs), ast, base, reg, true, e, ts, fls) && NilsInRange(fs.code)
    ensures !fs.fail ==> final == |fs.code| == fs.lasttarget && pf < final && pt < final && Leads(fs.world, fs.code, fs.pend, final, Stay())
    ensures !fs.fail ==> (exists p :: p in ts + fls && p < |fs.code| && !fs.code[Control(fs.code, p)].TestSet?) ==>
              && Leads(fs.world, fs.code, fs.pend, pf, PutFalse(reg)) && Leads(fs.world, fs.code, fs.pend, pt, PutTrue(reg))
              && forall p :: p in ts + fls ==> p < pf && p < pt
    ensures |fs.code| <= |old(fs.code)| + 3
    ensures |old(fs.code)| + 3 <= OFFSET_sJ ==> !fs.fail
  {
    hide Settled, Run, IsList, Leads, Ready, Loads;
    ghost var s := Now(fs);
    SettledPlaces(fs.world, fs.entry, s0, s, ast, base, reg, valued, e, ts, fls);
    pf, pt := NO_JUMP, NO_JUMP;
    var need := NeedsLoads(fs, e, ts, fls);
    if need {
      pf, pt := LoadBools(fs, reg, valued);
      if fs.fail {
        return 0, pf, pt;
      }
      LoadsLead(fs.world, s, reg, valued);
      LoadedRuns(fs.world, fs.entry, s0, s, ast, base, reg, valued, e, ts, fls);
      NilsLoads(s.c, reg, valued);
      LoadsSize(reg, valued);
    } else {
      LastIs(fs.world, fs.entry, s0, s, ast, base, reg, e, ts, fls);
    }
    final := fs.GetLabel();
    LeadsHere(fs.world, fs.code, fs.pend);
  }

  lemma LoadsSize(reg: Reg, valued: bool)
    ensures |Loads(reg, valued)| >= 2
  {
  }

  /** The final value of the expression in `reg`: its own value, or that of the jumps that
      left it, which go to the end or to the load of a boolean. */
  method Exp2Reg(fs: FuncState, e0: Exp, reg: Reg, ghost s0: St, ghost ast: Expr, ghost base: nat,
        ghost ts: seq<nat>, ghost fls: seq<nat>)
    returns (e: Exp)
    requires !fs.fail && Holding(fs.world, fs.entry, s0, Now(fs), ast, base, NO_REG, e0, ts, fls)
    requires NilsInRange(fs.code) && reg < NO_REG
    modifies fs`code, fs`pend, fs`fail, fs`lasttarget
    ensures e == Exp(KNonReloc(reg), NO_JUMP, NO_JUMP)
    ensures !fs.fail ==> Holding(fs.world, fs.entry, s0, Now(fs), ast, base, reg, e, [], []) && NilsInRange(fs.code)
    ensures |fs.code| <= |old(fs.code)| + 5
    ensures |old(fs.code)| + 5 <= OFFSET_sJ ==> !fs.fail
  {
    hide Holding, Settled, Run, IsList, Leads, Ready;
    e := Exp(KNonReloc(reg), NO_JUMP, NO_JUMP);
    var valued := !e0.k.KJmp?;
    var e1;
    ghost var ts1;
    e1, ts1 := Settle(fs, e0, reg, s0, ast, base, ts, fls);
    if fs.fail {
      return;
    }
    if HasJumps(e1) {
      InBoth(ts1, fls);
      var final, pf, pt := PrepareLoads(fs, e1, reg, valued, s0, ast, base, ts1, fls);
      if fs.fail {
        return;
      }
      e1 := ResolveList(fs, e1, false, reg, final, pf, s0, ast, base, ts1, fls);
      if fs.fail {
        return;
      }
      assert ts1 + [] == ts1;
      e1 := ResolveList(fs, e1, true, reg, final, pt, s0, ast, base, ts1, []);
      if fs.fail {
        return;
      }
    } else {
      NoJumps(fs.world, fs.entry, s0, Now(fs), ast, base, reg, valued, e1, ts1, fls);
    }
    AllSettled(fs.world, fs.entry, s0, Now(fs), ast, base, reg, e1);
  }
}
