// Expressions as conditions: going through when they are true or false, and jumping
// away otherwise.
module ExprJumps {
  import opened Bytecode
  import opened JumpLists
  import opened ExprCode
  import opened ExprLoad

  /** The code falls through with a value that is `want`, or leaves by the lists. */
  ghost predicate Sifts(w: World, ast: Expr, c: seq<Instr>, ts: seq<nat>, fs: seq<nat>, base: nat, want: bool,
        y0: Outcome, y: Outcome) {
    match y0
    case Fall(r0) =>
      var v := Eval(w, ast, r0);
      (match y
       case Fall(r) => Same(r0, r, base, NO_REG) && Truthy(v) == want
       case Exit(p, r) =>
         && Same(r0, r, base, NO_REG)
         && ((p in ts && LeavesWith(c, p, true, r, v)) || (p in fs && LeavesWith(c, p, false, r, v)))
       case Stuck => false)
    case Exit(_, _) => y == y0
    case Stuck => true
  }

  ghost predicate Sifted(w: World, entry: nat, s0: St, s: St, ast: Expr, base: nat, want: bool, e: Exp,
        ts: seq<nat>, fs: seq<nat>) {
    && entry <= s0.last && Ready(s) && Frame(s0, s) && base <= NO_REG && Lists(s0, s, e, ts, fs)
    && forall r: Regs {:trigger Run(w, s0.c, s0.pend, entry, r)} ::
         Sifts(w, ast, s.c, ts, fs, base, want, Run(w, s0.c, s0.pend, entry, r), Run(w, s.c, s.pend, entry, r))
  }

  /** The test `t` is taken when the value of `k` is not `want`, and then keeps it or
      knows it. */
  ghost predicate Decides(w: World, c: seq<Instr>, k: Kind, t: Instr, want: bool) {
    && IsTest(t) && Shape(c, k)
    && forall r: Regs {:trigger Taken(w, t, r)} ::
         var v := Produced(w, c, k, r);
         && Taken(w, t, r) == (Truthy(v) != want)
         && (Truthy(v) != want ==> if t.TestSet? then r[t.b] == v else v == Bool(!want))
  }

  /** The code with the value of `e` replaced by a test and a new jump. */
  function Tested(c: seq<Instr>, e: Exp, t: Instr): seq<Instr>
    requires 0 <= Core(c, e)
  {
    c[..Core(c, e)] + [t, Jmp(NO_JUMP)]
  }

  function Extended(ps: seq<nat>, yes: bool, q: nat): seq<nat> {
    if yes then ps + [q] else ps
  }

  lemma TestedOne(w: World, ast: Expr, c: seq<Instr>, e: Exp, t: Instr, pend: set<nat>, last: nat, ts: seq<nat>,
        fs: seq<nat>, base: nat, want: bool,
                  entry: nat, r: Regs, y0: Outcome)
    requires 0 <= Core(c, e) && Decides(w, c, e.k, t, want)
    requires Ready(St(c[..Core(c, e)], pend, last)) && forall p :: p in ts + fs ==> p < Core(c, e)
    requires Compiled(w, ast, c, e.k, ts, fs, base, NO_REG, y0, Run(w, c[..Core(c, e)], pend, entry, r))
    ensures var q := Core(c, e) + 1;
            Sifts(w, ast, Tested(c, e, t), Extended(ts, !want, q), Extended(fs, want, q), base, want, y0, Run(w, Tested(c, e, t), pend + {q}, entry, r))
  {
    var n := Core(c, e);
    var core := c[..n];
    RunTest(w, core, pend, last, t, NO_JUMP, entry, r);
    hide Run, Eval, Produced, Taken;
    var y := Run(w, core, pend, entry, r);
    var c' := Tested(c, e, t);
    assert c'[n] == t;
    if y0.Fall? && y.Fall? {
      var v := Produced(w, c, e.k, y.r);
      assert Taken(w, t, y.r) == (Truthy(v) != want);
      assert n + 1 in Extended(ts, !want, n + 1) || n + 1 in Extended(fs, want, n + 1);
      if Taken(w, t, y.r) {
        assert LeavesWith(c', n + 1, !want, y.r, v);
      }
    } else if y0.Fall? && y.Exit? {
      assert y.p in ts || y.p in fs ==> y.p in ts + fs;
      assert 1 <= y.p < n ==> c'[y.p - 1] == c[y.p - 1];
    }
  }

  lemma ReadyTest(s: St, t: Instr)
    requires Ready(s) && IsTest(t)
    ensures Ready(St(s.c + [t, Jmp(NO_JUMP)], s.pend + {|s.c| + 1}, s.last))
  {
    TidyTest(s.c, s.pend, s.last, t, NO_JUMP);
  }

  lemma TestedLists(w: World, entry: nat, s0: St, s: St, ast: Expr, base: nat, e: Exp, ts: seq<nat>,
        fs: seq<nat>, t: Instr)
    requires Holding(w, entry, s0, s, ast, base, NO_REG, e, ts, fs) && IsTest(t)
    ensures 0 <= Core(s.c, e)
    ensures var c' := Tested(s.c, e, t); var q := Core(s.c, e) + 1; var s' := St(c', s.pend + {q}, s.last);
            && Ready(s') && Frame(s0, s') && |s0.c| < q && q !in s.pend
            && IsList(c', e.t, ts) && IsList(c', e.f, fs) && IsList(c', q, [q])
  {
    hide Run, Compiled;
    ListsInCore(w, entry, s0, s, ast, base, NO_REG, e, ts, fs);
    var n := Core(s.c, e);
    var c' := Tested(s.c, e, t);
    var core := St(s.c[..n], s.pend, s.last);
    ReadyTest(core, t);
    FrameShorter(s0, s, c');
    hide Frame, Ready, Compiled;
    forall p | p in ts + fs
      ensures p < n && c'[p] == s.c[p]
    {
    }
    InBoth(ts, fs);
    ListKept(s.c, c', e.t, ts);
    ListKept(s.c, c', e.f, fs);
    assert c'[n + 1] == Jmp(NO_JUMP);
    assert [n + 1][1..] == [];
  }

  lemma InBoth(ts: seq<nat>, fs: seq<nat>)
    ensures forall p :: p in ts ==> p in ts + fs
    ensures forall p :: p in fs ==> p in ts + fs
  {
  }

  /** The state after the test and its jump, before the jump is put into a list. */
  lemma TestedOk(w: World, entry: nat, s0: St, s: St, ast: Expr, base: nat, want: bool, e: Exp, ts: seq<nat>,
        fs: seq<nat>, t: Instr)
    requires Holding(w, entry, s0, s, ast, base, NO_REG, e, ts, fs) && Decides(w, s.c, e.k, t, want)
    ensures 0 <= Core(s.c, e)
    ensures var c' := Tested(s.c, e, t); var q := Core(s.c, e) + 1;
            forall r: Regs {:trigger Run(w, s0.c, s0.pend, entry, r)} ::
              Sifts(w, ast, c', Extended(ts, !want, q), Extended(fs, want, q), base, want, Run(w, s0.c, s0.pend, entry, r),
                    Run(w, c', s.pend + {q}, entry, r))
  {
    hide Run, Eval, Frame, Produced, Sifts, Decides, Lists, Compiled, Ready;
    ListsInCore(w, entry, s0, s, ast, base, NO_REG, e, ts, fs);
    var n := Core(s.c, e);
    forall r: Regs
      ensures Sifts(w, ast, Tested(s.c, e, t), Extended(ts, !want, n + 1), Extended(fs, want, n + 1), base, want, Run(w, s0.c, s0.pend, entry, r),
                    Run(w, Tested(s.c, e, t), s.pend + {n + 1}, entry, r))
    {
      TestedOne(w, ast, s.c, e, t, s.pend, s.last, ts, fs, base, want, entry, r, Run(w, s0.c, s0.pend, entry, r));
    }
  }

  // ----------------------------------------------------- putting jumps in lists

  /** What relinking the last jump of a list leaves as it was. */
  lemma RelinkKeeps(w: World, s: St, c': seq<Instr>, a: seq<nat>)
    requires Ready(s) && Relinked(s.c, c', a) && (a != [] ==> a[|a| - 1] in s.pend)
    ensures |c'| == |s.c| && Ready(St(c', s.pend, s.last))
    ensures forall q :: 0 <= q < |c'| && (a == [] || q != a[|a| - 1]) ==> c'[q] == s.c[q]
    ensures forall q :: 0 <= q < |c'| && !s.c[q].Jmp? ==> c'[q] == s.c[q]
    ensures forall q :: 0 <= q < |c'| ==> (c'[q].Jmp? <==> s.c[q].Jmp?)
    ensures forall pc: nat, r: Regs :: Run(w, c', s.pend, pc, r) == Run(w, s.c, s.pend, pc, r)
  {
    if c' != s.c {
      var p := a[|a| - 1];
      var sj :| c' == s.c[p := Jmp(sj)];
      forall q | 0 <= q < |c'|
        ensures TidyAt(c', s.pend, s.last, q)
      {
        assert TidyAt(s.c, s.pend, s.last, q);
      }
      hide Run;
      forall pc: nat, r: Regs
        ensures Run(w, c', s.pend, pc, r) == Run(w, s.c, s.pend, pc, r)
      {
        RunRelink(w, s.c, s.pend, p, sj, pc, r);
      }
    }
  }

  lemma FrameRelink(s0: St, s: St, c': seq<Instr>, a: seq<nat>)
    requires Frame(s0, s) && Ready(s) && |c'| == |s.c| && (a != [] ==> a[|a| - 1] !in s0.pend)
    requires forall p :: p in s0.pend ==> p in s.pend
    requires forall q :: 0 <= q < |c'| && (a == [] || q != a[|a| - 1]) ==> c'[q] == s.c[q]
    requires forall q :: 0 <= q < |c'| && !s.c[q].Jmp? ==> c'[q] == s.c[q]
    ensures Frame(s0, St(c', s.pend, s.last))
  {
    forall p | p in s0.pend
      ensures c'[p] == s.c[p] && c'[p - 1] == s.c[p - 1]
    {
      assert p in s.pend;
      assert !s.c[p - 1].Jmp?;
    }
  }

  lemma SiftsKept(w: World, ast: Expr, c: seq<Instr>, c': seq<Instr>, ts: seq<nat>, fs: seq<nat>, base: nat,
        want: bool, y0: Outcome, y: Outcome)
    requires Sifts(w, ast, c, ts, fs, base, want, y0, y) && |c'| == |c|
    requires forall p :: p in ts + fs && 1 <= p < |c| ==> c'[p - 1] == c[p - 1]
    ensures Sifts(w, ast, c', ts, fs, base, want, y0, y)
  {
    hide Eval;
    InBoth(ts, fs);
  }

  /** The new jump has been appended to the false list, or to the true list. */
  lemma Joined(w: World, entry: nat, s0: St, s: St, c': seq<Instr>, ast: Expr, base: nat, want: bool, e: Exp,
        e': Exp, ts: seq<nat>, fs: seq<nat>, q: nat)
    requires entry <= s0.last && base <= NO_REG && Ready(s) && Frame(s0, s) && |s0.c| < q && q in s.pend
    requires s.pend == s0.pend + Places(ts + fs) + {q} && s0.pend !! Places(ts + fs)
    requires q !in s0.pend + Places(ts + fs) && Unique(ts + fs)
    requires forall p :: p in ts + fs ==> |s0.c| < p
    requires forall r: Regs {:trigger Run(w, s0.c, s0.pend, entry, r)} ::
               Sifts(w, ast, s.c, Extended(ts, !want, q), Extended(fs, want, q), base, want, Run(w, s0.c, s0.pend, entry, r), Run(w, s.c, s.pend, entry, r))
    requires Relinked(s.c, c', if want then fs else ts)
    requires IsList(c', e'.t, Extended(ts, !want, q)) && IsList(c', e'.f, Extended(fs, want, q))
    ensures Sifted(w, entry, s0, St(c', s.pend, s.last), ast, base, want, e', Extended(ts, !want, q), Extended(fs, want, q))
  {
    hide Run, Eval, Sifts, IsList, Frame, Ready, LeavesWith, Relinked, Unique, Places, Extended;
    var a := if want then fs else ts;
    var ts', fs' := Extended(ts, !want, q), Extended(fs, want, q);
    LastPlace(s0, s, a, ts, fs);
    RelinkKeeps(w, s, c', a);
    ReadyPlaces(s0, s);
    FrameRelink(s0, s, c', a);
    JoinedPlaces(s0, s, want, ts, fs, q);
    JoinedRuns(w, entry, s0, s, c', ast, base, want, ts', fs');
  }

  lemma LastPlace(s0: St, s: St, a: seq<nat>, ts: seq<nat>, fs: seq<nat>)
    requires (a == ts || a == fs) && Places(ts + fs) <= s.pend && s0.pend !! Places(ts + fs)
    ensures a != [] ==> a[|a| - 1] in s.pend && a[|a| - 1] !in s0.pend
  {
    InBoth(ts, fs);
    if a != [] {
      assert a[|a| - 1] in Places(ts + fs);
    }
  }

  lemma JoinedPlaces(s0: St, s: St, want: bool, ts: seq<nat>, fs: seq<nat>, q: nat)
    requires Ready(s) && |s0.c| < q && q in s.pend && Unique(ts + fs)
    requires s.pend == s0.pend + Places(ts + fs) + {q} && s0.pend !! Places(ts + fs) && q !in s0.pend + Places(ts + fs)
    requires forall p :: p in ts + fs ==> |s0.c| < p
    ensures var ts', fs' := Extended(ts, !want, q), Extended(fs, want, q);
            && Unique(ts' + fs') && s.pend == s0.pend + Places(ts' + fs') && s0.pend !! Places(ts' + fs')
            && forall p :: p in ts' + fs' ==> |s0.c| < p && 1 <= p < |s.c| && !s.c[p - 1].Jmp?
  {
    hide Ready, Unique, Extended;
    var ts', fs' := Extended(ts, !want, q), Extended(fs, want, q);
    ExtendedPlaces(ts, fs, want, q);
    forall p | p in ts' + fs'
      ensures |s0.c| < p && 1 <= p < |s.c| && !s.c[p - 1].Jmp?
    {
      assert p in Places(ts' + fs');
      TestBefore(s, p);
    }
  }

  lemma ReadyPlaces(s0: St, s: St)
    requires Frame(s0, s)
    ensures |s0.c| <= |s.c|
  {
  }

  lemma JoinedRuns(w: World, entry: nat, s0: St, s: St, c': seq<Instr>, ast: Expr, base: nat, want: bool,
        ts: seq<nat>, fs: seq<nat>)
    requires |c'| == |s.c| && forall p :: p in ts + fs && 1 <= p < |s.c| ==> c'[p - 1] == s.c[p - 1]
    requires forall pc: nat, r: Regs :: Run(w, c', s.pend, pc, r) == Run(w, s.c, s.pend, pc, r)
    requires forall r: Regs {:trigger Run(w, s0.c, s0.pend, entry, r)} ::
               Sifts(w, ast, s.c, ts, fs, base, want, Run(w, s0.c, s0.pend, entry, r), Run(w, s.c, s.pend, entry, r))
    ensures forall r: Regs {:trigger Run(w, s0.c, s0.pend, entry, r)} ::
              Sifts(w, ast, c', ts, fs, base, want, Run(w, s0.c, s0.pend, entry, r), Run(w, c', s.pend, entry, r))
  {
    hide Run, Sifts;
    forall r: Regs
      ensures Sifts(w, ast, c', ts, fs, base, want, Run(w, s0.c, s0.pend, entry, r), Run(w, c', s.pend, entry, r))
    {
      SiftsKept(w, ast, s.c, c', ts, fs, base, want, Run(w, s0.c, s0.pend, entry, r), Run(w, s.c, s.pend, entry, r));
    }
  }

  lemma TestBefore(s: St, p: nat)
    requires Ready(s) && p in s.pend
    ensures 1 <= p < |s.c| && !s.c[p - 1].Jmp? && s.c[p].Jmp?
  {
  }

  lemma ExtendedPlaces(ts: seq<nat>, fs: seq<nat>, want: bool, q: nat)
    requires Unique(ts + fs) && q !in Places(ts + fs)
    ensures var ts', fs' := Extended(ts, !want, q), Extended(fs, want, q);
            Unique(ts' + fs') && Places(ts' + fs') == Places(ts + fs) + {q} && (forall p :: p in Places(ts' + fs') <==> p in ts' + fs')
  {
    UniqueParts(ts, fs);
    UniqueJoin(fs, [q]);
    if want {
      assert ts + (fs + [q]) == (ts + fs) + [q];
      UniqueJoin(ts + fs, [q]);
    } else {
      InBoth(ts, fs);
      UniqueParts(fs, ts);
      UniqueJoin(fs + ts, [q]);
      assert (fs + ts) + [q] == fs + (ts + [q]);
      UniqueParts(fs, ts + [q]);
    }
  }

  // ---------------------------------------------- one list made to go on here

  function Stay(): Regs -> Regs {
    (r: Regs) => r
  }

  ghost function Here(c: seq<Instr>): Targets {
    Targets(NO_REG, |c|, |c|, Stay(), Stay())
  }

  lemma LeadsHere(w: World, c: seq<Instr>, pend: set<nat>)
    ensures Leads(w, c, pend, |c|, Stay())
  {
  }

  /** The jumps of a list can all be made to go to the end of the code. */
  lemma AimedHere(w: World, s: St, ps: seq<nat>)
    requires Ready(s) && forall p :: p in ps ==> p in s.pend
    ensures Aimed(w, s.c, s.pend, ps, Here(s.c))
  {
    LeadsHere(w, s.c, s.pend);
    hide Run, Leads, Tidy;
    forall j {:trigger ps[j]} | 0 <= j < |ps|
      ensures ps[j] < |s.c| && s.c[ps[j]].Jmp? && ps[j] in s.pend && ps[j] < TargetOf(Here(s.c), s.c, ps[j]) <= |s.c|
    {
      assert ps[j] in ps;
    }
  }

  lemma SparedOnes(s: St, ps: seq<nat>, c': seq<Instr>, p: nat)
    requires Ready(s) && p in s.pend && p !in ps && OnlyPatched(s.c, c', ps)
    requires forall x :: x in ps ==> x in s.pend
    ensures 1 <= p < |s.c| == |c'| && c'[p] == s.c[p] && c'[p - 1] == s.c[p - 1]
  {
    hide Tidy;
    assert p - 1 !in s.pend;
    assert Spared(s.c, ps, p) && Spared(s.c, ps, p - 1);
  }

  lemma ReadyHere(w: World, s: St, c': seq<Instr>, pend': set<nat>, ps: seq<nat>)
    requires Ready(s) && Patching(w, s.c, s.pend, c', pend', ps, |ps|, Here(s.c)) && forall p :: p in ps ==> p in s.pend
    ensures Ready(St(c', pend', |s.c|))
  {
    hide Run, Leads, AfterPatch;
    assert ps[..|ps|] == ps;
    forall q | 0 <= q < |c'|
      ensures TidyAt(c', pend', |s.c|, q)
    {
      assert TidyAt(s.c, s.pend, s.last, q);
      if c'[q].Jmp? && q !in pend' && q in ps {
        var j :| 0 <= j < |ps| && ps[j] == q;
        assert c'[ps[j]] == Jmp(TargetOf(Here(s.c), s.c, ps[j]) - (ps[j] + 1));
      } else if c'[q].Jmp? && q !in pend' {
        assert Spared(s.c, ps, q);
      }
    }
    forall p | p in pend'
      ensures 1 <= p < |c'| && c'[p].Jmp? && IsTest(c'[p - 1])
    {
      SparedOnes(s, ps, c', p);
    }
  }

  lemma OpenedOne(w: World, ast: Expr, s: St, c': seq<Instr>, ts: seq<nat>, fs: seq<nat>, os: seq<nat>,
        js: seq<nat>, base: nat, want: bool,
                  y0: Outcome, y: Outcome, z: Outcome)
    requires os == (if want then ts else fs) && js == (if want then fs else ts)
    requires Sifts(w, ast, s.c, ts, fs, base, want, y0, y) && |c'| == |s.c|
    requires forall p :: p in js && 1 <= p < |s.c| ==> c'[p - 1] == s.c[p - 1]
    requires y.Exit? && y0.Exit? ==> y.p !in os
    requires Places(ts) !! Places(fs)
    requires forall p :: p in ts + fs ==> p < |s.c|
    requires AfterPatch(s.c, os, NO_REG, Stay(), Stay(), y, z)
    ensures Gated(w, ast, c', js, base, want, y0, z)
  {
    hide Eval;
    InBoth(ts, fs);
    if y0.Fall? && y.Exit? {
      assert y.p in ts ==> y.p in Places(ts);
      assert y.p in fs ==> y.p in Places(fs);
    }
  }

  lemma OpenedRuns(w: World, entry: nat, s0: St, s: St, c': seq<Instr>, pend': set<nat>, ast: Expr, base: nat,
        want: bool, e: Exp, ts: seq<nat>, fs: seq<nat>,
                   os: seq<nat>, js: seq<nat>)
    requires os == (if want then ts else fs) && js == (if want then fs else ts)
    requires Sifted(w, entry, s0, s, ast, base, want, e, ts, fs)
    requires Patching(w, s.c, s.pend, c', pend', os, |os|, Here(s.c))
    requires |c'| == |s.c| && forall p :: p in js && 1 <= p < |s.c| ==> c'[p - 1] == s.c[p - 1]
    ensures forall r: Regs {:trigger Run(w, s0.c, s0.pend, entry, r)} ::
              Gated(w, ast, c', js, base, want, Run(w, s0.c, s0.pend, entry, r), Run(w, c', pend', entry, r))
  {
    OpenedPlaces(w, entry, s0, s, ast, base, want, e, ts, fs);
    PatchedRuns(w, s, c', pend', os);
    hide Run, Eval, Ready, Leads, AfterPatch, Sifts, Gated, Patching, IsList, Lists, Frame, OnlyPatched;
    forall r: Regs
      ensures Gated(w, ast, c', js, base, want, Run(w, s0.c, s0.pend, entry, r), Run(w, c', pend', entry, r))
    {
      var y0 := Run(w, s0.c, s0.pend, entry, r);
      ExitsPending(w, s0.c, s0.pend, entry, r);
      if y0.Exit? {
        assert y0.p !in os;
      }
      SiftsExit(w, ast, s.c, ts, fs, base, want, y0, Run(w, s.c, s.pend, entry, r));
      OpenedOne(w, ast, s, c', ts, fs, os, js, base, want, y0, Run(w, s.c, s.pend, entry, r), Run(w, c', pend', entry, r));
    }
  }

  /** After the other list has been patched, only the list of the opposite value is left. */
  lemma Opened(w: World, entry: nat, s0: St, s: St, c': seq<Instr>, pend': set<nat>, ast: Expr, base: nat,
        want: bool, e: Exp, ts: seq<nat>, fs: seq<nat>)
    requires Sifted(w, entry, s0, s, ast, base, want, e, ts, fs)
    requires var os := if want then ts else fs; Patching(w, s.c, s.pend, c', pend', os, |os|, Here(s.c))
    ensures Gate(w, entry, s0, St(c', pend', |s.c|), ast, base, want, if want then e.f else e.t, if want then fs else ts)
  {
    hide Run, Eval, Leads, AfterPatch, Sifts, Gated, Patching, IsList, Ready, OnlyPatched;
    var os, js := if want then ts else fs, if want then fs else ts;
    OpenedPlaces(w, entry, s0, s, ast, base, want, e, ts, fs);
    ReadyHere(w, s, c', pend', os);
    PatchedRuns(w, s, c', pend', os);
    forall p | p in s0.pend || p in js
      ensures 1 <= p < |s.c| == |c'| && c'[p] == s.c[p] && c'[p - 1] == s.c[p - 1]
    {
      SparedOnes(s, os, c', p);
    }
    ListKept(s.c, c', if want then e.f else e.t, js);
    OpenedRuns(w, entry, s0, s, c', pend', ast, base, want, e, ts, fs, os, js);
    ReadySize(s);
  }

  lemma ReadySize(s: St)
    requires Ready(s)
    ensures s.last <= |s.c|
  {
  }

  lemma SiftsExit(w: World, ast: Expr, c: seq<Instr>, ts: seq<nat>, fs: seq<nat>, base: nat, want: bool,
        y0: Outcome, y: Outcome)
    requires Sifts(w, ast, c, ts, fs, base, want, y0, y)
    ensures y0.Exit? ==> y == y0
  {
  }

  /** A run leaves only at pending jumps. */
  lemma {:induction false} ExitsPending(w: World, c: seq<Instr>, pend: set<nat>, pc: nat, r: Regs)
    ensures Run(w, c, pend, pc, r).Exit? ==> Run(w, c, pend, pc, r).p in pend
    decreases |c| - pc
  {
    if pc < |c| && !(pc > 0 && IsTest(c[pc - 1])) {
      var i := c[pc];
      if i.Jmp? {
        if pc !in pend && pc < pc + 1 + i.sj <= |c| {
          ExitsPending(w, c, pend, pc + 1 + i.sj, r);
        }
      } else if IsTest(i) {
        if !Taken(w, i, r) {
          if pc + 2 <= |c| {
            ExitsPending(w, c, pend, pc + 2, r);
          }
        } else if pc + 1 < |c| && c[pc + 1].Jmp? && pc + 1 !in pend && pc < pc + 2 + c[pc + 1].sj <= |c| {
          ExitsPending(w, c, pend, pc + 2 + c[pc + 1].sj, Landed(i, r));
        }
      } else {
        ExitsPending(w, c, pend, if i.LFalseSkip? then pc + 2 else pc + 1, Effect(w, i, r));
      }
    }
  }

  lemma OpenedPlaces(w: World, entry: nat, s0: St, s: St, ast: Expr, base: nat, want: bool, e: Exp,
        ts: seq<nat>, fs: seq<nat>)
    requires Sifted(w, entry, s0, s, ast, base, want, e, ts, fs)
    ensures Ready(s) && Unique(ts) && Unique(fs) && Places(ts) !! Places(fs)
    ensures forall p :: p in s0.pend ==> p !in ts && p !in fs && p in s.pend
    ensures forall p :: p in ts ==> p !in fs && p in s.pend && p < |s.c| && |s0.c| < p
    ensures forall p :: p in fs ==> p !in ts && p in s.pend && p < |s.c| && |s0.c| < p
    ensures forall p :: p in ts + fs ==> p < |s.c|
    ensures s.pend - Places(ts) == s0.pend + Places(fs) && s.pend - Places(fs) == s0.pend + Places(ts)
  {
    hide Run, Sifts, Tidy;
    UniqueParts(ts, fs);
    UniqueParts(fs, ts);
    InBoth(ts, fs);
    forall p
      ensures p in ts ==> p in Places(ts)
      ensures p in fs ==> p in Places(fs)
      ensures p in ts + fs ==> p in Places(ts + fs)
    {
    }
  }

  lemma PatchedRuns(w: World, s: St, c': seq<Instr>, pend': set<nat>, ps: seq<nat>)
    requires Patching(w, s.c, s.pend, c', pend', ps, |ps|, Here(s.c))
    ensures |c'| == |s.c| && OnlyPatched(s.c, c', ps) && pend' == s.pend - Places(ps)
    ensures forall pc: nat, r: Regs {:trigger Run(w, s.c, s.pend, pc, r)} ::
              AfterPatch(s.c, ps, NO_REG, Stay(), Stay(), Run(w, s.c, s.pend, pc, r), Run(w, c', pend', pc, r))
  {
    hide Run, Leads, AfterPatch, OnlyPatched;
    assert ps[..|ps|] == ps;
  }

  // ------------------------------------------------------------- the methods

  /** A test with the jump `q` has been emitted; the jump is in no list yet. */
  ghost predicate Loose(w: World, entry: nat, s0: St, s: St, ast: Expr, base: nat, want: bool, e: Exp,
        ts: seq<nat>, fs: seq<nat>, q: nat) {
    && entry <= s0.last && base <= NO_REG && Ready(s) && Frame(s0, s) && |s0.c| < q && q in s.pend
    && s.pend == s0.pend + Places(ts + fs) + {q} && s0.pend !! Places(ts + fs) && q !in s0.pend + Places(ts + fs) && Unique(ts + fs)
    && (forall p :: p in ts + fs ==> |s0.c| < p)
    && IsList(s.c, e.t, ts) && IsList(s.c, e.f, fs) && IsList(s.c, q, [q])
    && forall r: Regs {:trigger Run(w, s0.c, s0.pend, entry, r)} ::
         Sifts(w, ast, s.c, Extended(ts, !want, q), Extended(fs, want, q), base, want, Run(w, s0.c, s0.pend, entry, r), Run(w, s.c, s.pend, entry, r))
  }

  lemma LooseOk(w: World, entry: nat, s0: St, s: St, ast: Expr, base: nat, want: bool, e: Exp, ts: seq<nat>,
        fs: seq<nat>, t: Instr)
    requires Holding(w, entry, s0, s, ast, base, NO_REG, e, ts, fs) && Decides(w, s.c, e.k, t, want)
    ensures 0 <= Core(s.c, e)
    ensures var q := Core(s.c, e) + 1; Loose(w, entry, s0, St(Tested(s.c, e, t), s.pend + {q}, s.last), ast, base, want, e, ts, fs, q)
  {
    hide Run, Eval, Sifts, Taken, Produced, Tested, Compiled, Ready, Frame;
    TestedLists(w, entry, s0, s, ast, base, e, ts, fs, t);
    TestedOk(w, entry, s0, s, ast, base, want, e, ts, fs, t);
  }

  /** A test and a jump that waits for its target. */
  method CondJump(fs: FuncState, t: Instr) returns (pc: nat)
    modifies fs`code, fs`pend
    ensures fs.code == old(fs.code) + [t, Jmp(NO_JUMP)] && pc == |old(fs.code)| + 1 && fs.pend == old(fs.pend) + {pc}
  {
    var at := fs.Code(t);
    pc := fs.Code(Jmp(NO_JUMP));
    fs.pend := fs.pend + {pc};
  }

  lemma RegDecides(w: World, c: seq<Instr>, r: Reg, want: bool)
    ensures Decides(w, c, KNonReloc(r), TestSet(NO_REG, r, !want), want)
  {
    var t := TestSet(NO_REG, r, !want);
    forall g: Regs
      ensures Produced(w, c, KNonReloc(r), g) == g[t.b] && Taken(w, t, g) == (Truthy(g[t.b]) != want)
    {
    }
  }

  lemma NotDecides(w: World, c: seq<Instr>, pc: nat, want: bool)
    requires Shape(c, KReloc(pc)) && c[pc].Not?
    ensures Decides(w, c, KReloc(pc), Test(c[pc].b, want), want)
  {
    var t := Test(c[pc].b, want);
    forall r: Regs
      ensures Taken(w, t, r) == (Truthy(Produced(w, c, KReloc(pc), r)) != want)
      ensures Truthy(Produced(w, c, KReloc(pc), r)) != want ==> Produced(w, c, KReloc(pc), r) == Bool(!want)
    {
      assert Produced(w, c, KReloc(pc), r) == Bool(!Truthy(r[c[pc].b]));
    }
  }

  function Negated(i: Instr): Instr {
    match i
    case Compare(op, a, o, k) => Compare(op, a, o, !k)
    case _ => i
  }

  lemma CompareDecides(w: World, c: seq<Instr>, pc: nat)
    requires Shape(c, KJmp(pc))
    ensures Decides(w, c, KJmp(pc), c[pc - 1], false)
    ensures Decides(w, c, KJmp(pc), Negated(c[pc - 1]), true)
  {
    var t, u := Negated(c[pc - 1]), c[pc - 1];
    forall r: Regs
      ensures Taken(w, t, r) == !Taken(w, u, r) && Produced(w, c, KJmp(pc), r) == Bool(Taken(w, u, r))
      ensures Truthy(Produced(w, c, KJmp(pc), r)) == Taken(w, u, r)
    {
    }
  }

  lemma NilsCut(c: seq<Instr>, n: nat, a: Instr, b: Instr)
    requires NilsInRange(c) && n <= |c| && !a.LoadNil? && !b.LoadNil?
    ensures NilsInRange(c[..n] + [a, b])
  {
  }

  /** Jump if the value is `cond`. A `not` is dropped and its operand tested. */
  method JumpOnCond(fs: FuncState, e0: Exp, cond: bool, ghost s0: St, ghost ast: Expr, ghost base: nat,
        ghost ts: seq<nat>, ghost fls: seq<nat>)
    returns (pc: nat)
    requires !fs.fail && Holding(fs.world, fs.entry, s0, Now(fs), ast, base, NO_REG, e0, ts, fls)
    requires NilsInRange(fs.code)
    requires FreeOk(e0.k, base, fs.freereg, fs.nactvar) && !e0.k.KJmp? && !e0.k.KLocal? && !e0.k.KUpval?
    modifies fs`code, fs`freereg, fs`fail, fs`pend
    ensures !fs.fail ==> Loose(fs.world, fs.entry, s0, Now(fs), ast, base, !cond, e0, ts, fls, pc) && NilsInRange(fs.code)
    ensures !fs.fail ==> fs.freereg == base
    ensures |fs.code| <= |old(fs.code)| + 4
    ensures base < MAX_FSTACK && |old(fs.code)| + 4 <= OFFSET_sJ ==> !fs.fail
  {
    hide Holding, Loose, Decides;
    HoldingShape(fs.world, fs.entry, s0, Now(fs), ast, base, NO_REG, e0, ts, fls);
    if e0.k.KReloc? && fs.code[e0.k.pc].Not? {
      var t := Test(fs.code[e0.k.pc].b, !cond);
      NotDecides(fs.world, fs.code, e0.k.pc, !cond);
      LooseOk(fs.world, fs.entry, s0, Now(fs), ast, base, !cond, e0, ts, fls, t);
      NilsCut(fs.code, |fs.code| - 1, t, Jmp(NO_JUMP));
      fs.code := fs.code[..|fs.code| - 1];
      pc := CondJump(fs, t);
      return;
    }
    var e := Discharge2AnyReg(fs, e0, s0, ast, base, ts, fls);
    if fs.fail {
      return 0;
    }
    fs.FreeReg(e.k.reg);
    var t := TestSet(NO_REG, e.k.reg, cond);
    RegDecides(fs.world, fs.code, e.k.reg, !cond);
    LooseOk(fs.world, fs.entry, s0, Now(fs), ast, base, !cond, e, ts, fls, t);
    NilsCut(fs.code, |fs.code|, t, Jmp(NO_JUMP));
    assert fs.code[..|fs.code|] == fs.code;
    LooseLists(fs.world, fs.entry, s0, St(fs.code + [t, Jmp(NO_JUMP)], fs.pend + {|fs.code| + 1}, fs.lasttarget), ast, base, !cond, e, e0, ts, fls, |fs.code| + 1);
    pc := CondJump(fs, t);
  }

  lemma LooseLists(w: World, entry: nat, s0: St, s: St, ast: Expr, base: nat, want: bool, e: Exp, e': Exp,
        ts: seq<nat>, fs: seq<nat>, q: nat)
    requires Loose(w, entry, s0, s, ast, base, want, e, ts, fs, q) && e'.t == e.t && e'.f == e.f
    ensures Loose(w, entry, s0, s, ast, base, want, e', ts, fs, q)
  {
    hide Run, Sifts, IsList;
  }

  lemma Joins(w: World, entry: nat, s0: St, s: St, c': seq<Instr>, ast: Expr, base: nat, want: bool, e: Exp,
        e': Exp, ts: seq<nat>, fs: seq<nat>, q: nat)
    requires Loose(w, entry, s0, s, ast, base, want, e, ts, fs, q)
    requires var a := if want then fs else ts;
             Relinked(s.c, c', a) && IsList(c', if want then e'.f else e'.t, a + [q]) && if want then e'.t == e.t else e'.f == e.f
    ensures Sifted(w, entry, s0, St(c', s.pend, s.last), ast, base, want, e', Extended(ts, !want, q), Extended(fs, want, q))
  {
    var a, b := if want then fs else ts, if want then ts else fs;
    hide Run, Sifts, Ready, Frame, IsList, Relinked;
    InBoth(ts, fs);
    assert a != [] ==> a[|a| - 1] in Places(ts + fs);
    RelinkKeeps(w, s, c', a);
    UniqueParts(ts, fs);
    OtherPlaces(a, b);
    ListKept(s.c, c', if want then e.t else e.f, b);
    Joined(w, entry, s0, s, c', ast, base, want, e, e', ts, fs, q);
  }

  lemma OtherPlaces(a: seq<nat>, b: seq<nat>)
    requires Places(a) !! Places(b)
    ensures forall p :: p in b ==> a == [] || p != a[|a| - 1]
  {
    if a != [] {
      assert a[|a| - 1] in Places(a);
      forall p | p in b
        ensures p != a[|a| - 1]
      {
        assert p in Places(b);
      }
    }
  }

  lemma LooseUnique(w: World, entry: nat, s0: St, s: St, ast: Expr, base: nat, want: bool, e: Exp, ts: seq<nat>,
        fs: seq<nat>, q: nat)
    requires Loose(w, entry, s0, s, ast, base, want, e, ts, fs, q)
    ensures IsList(s.c, e.t, ts) && IsList(s.c, e.f, fs) && IsList(s.c, q, [q]) && Unique(ts + [q]) && Unique(fs + [q])
  {
    hide Run, Sifts, IsList;
    UniqueParts(ts, fs);
    forall p
      ensures p in ts ==> p in Places(ts + fs)
      ensures p in fs ==> p in Places(ts + fs)
    {
      InBoth(ts, fs);
    }
    UniqueJoin(ts, [q]);
    UniqueJoin(fs, [q]);
  }

  /** The value is known to be `want`: no jump is needed. */
  lemma KnownValue(w: World, entry: nat, s0: St, s: St, ast: Expr, base: nat, want: bool, e: Exp, ts: seq<nat>,
        fs: seq<nat>)
    requires Holding(w, entry, s0, s, ast, base, NO_REG, e, ts, fs) && IsConst(e.k) && Truthy(ConstVal(e.k)) == want
    ensures Sifted(w, entry, s0, s, ast, base, want, e, ts, fs)
  {
    hide Run, Eval, Ready, Frame, Lists, LeavesWith;
    assert s.c[..Core(s.c, e)] == s.c;
    forall r: Regs
      ensures Sifts(w, ast, s.c, ts, fs, base, want, Run(w, s0.c, s0.pend, entry, r), Run(w, s.c, s.pend, entry, r))
    {
      assert Compiled(w, ast, s.c, e.k, ts, fs, base, NO_REG, Run(w, s0.c, s0.pend, entry, r), Run(w, s.c[..Core(s.c, e)], s.pend, entry, r));
    }
  }

  lemma NilsRelinked(c: seq<Instr>, c': seq<Instr>, a: seq<nat>)
    requires NilsInRange(c) && Relinked(c, c', a)
    ensures NilsInRange(c')
  {
  }

  lemma NilsPatched(c: seq<Instr>, c': seq<Instr>, ps: seq<nat>)
    requires NilsInRange(c) && OnlyPatched(c, c', ps)
    ensures NilsInRange(c')
  {
    forall q | 0 <= q < |c'| && c'[q].LoadNil?
      ensures c'[q].a <= c'[q].last
    {
      assert !IsTest(c[q]) && !c[q].Jmp?;
    }
  }

  /** All jumps of a list now go to the current place. */
  method PatchToHere(fs: FuncState, list: int, ghost ps: seq<nat>)
    requires !fs.fail && Ready(Now(fs)) && IsList(fs.code, list, ps) && Unique(ps) && (forall p :: p in ps ==> p in fs.pend) && NilsInRange(fs.code)
    modifies fs`code, fs`fail, fs`pend, fs`lasttarget
    ensures !fs.fail ==> Patching(fs.world, old(fs.code), old(fs.pend), fs.code, fs.pend, ps, |ps|, Here(old(fs.code)))
    ensures !fs.fail ==> fs.lasttarget == |old(fs.code)| && NilsInRange(fs.code)
    ensures |fs.code| <= |old(fs.code)|
    ensures |old(fs.code)| <= OFFSET_sJ ==> !fs.fail
  {
    hide Ready, Run, Patching, Aimed;
    ghost var s := Now(fs);
    AimedHere(fs.world, s, ps);
    var hr := fs.GetLabel();
    fs.PatchListAux(list, hr, NO_REG, hr, ps, Stay(), Stay());
    if !fs.fail {
      PatchedRuns(fs.world, s, fs.code, fs.pend, ps);
      NilsPatched(s.c, fs.code, ps);
    }
  }

  lemma LoosePlaces(w: World, entry: nat, s0: St, s: St, ast: Expr, base: nat, want: bool, e: Exp, ts: seq<nat>,
        fs: seq<nat>, q: nat)
    requires Loose(w, entry, s0, s, ast, base, want, e, ts, fs, q)
    ensures Ready(s) && (ts != [] ==> ts[|ts| - 1] in s.pend) && (fs != [] ==> fs[|fs| - 1] in s.pend)
  {
    hide Run, Sifts, IsList, Ready;
    InBoth(ts, fs);
    if ts != [] {
      assert ts[|ts| - 1] in Places(ts + fs);
    }
    if fs != [] {
      assert fs[|fs| - 1] in Places(ts + fs);
    }
  }

  /** Put the jump `pc` into the list of the value that is not wanted. */
  method JoinJump(fs: FuncState, e0: Exp, pc: nat, want: bool, ghost s0: St, ghost ast: Expr, ghost base: nat,
        ghost ts: seq<nat>, ghost fls: seq<nat>)
    returns (e: Exp)
    requires !fs.fail && Loose(fs.world, fs.entry, s0, Now(fs), ast, base, want, e0, ts, fls, pc)
    requires NilsInRange(fs.code)
    modifies fs`code, fs`fail
    ensures !fs.fail ==> NilsInRange(fs.code)
    ensures !fs.fail ==> Sifted(fs.world, fs.entry, s0, Now(fs), ast, base, want, e, Extended(ts, !want, pc), Extended(fls, want, pc))
    ensures !fs.fail ==> |fs.code| == |old(fs.code)| && forall q :: 0 <= q < |fs.code| && !old(fs.code)[q].Jmp? ==> fs.code[q] == old(fs.code)[q]
    ensures !fs.fail ==> forall at: nat, r: Regs :: Run(fs.world, fs.code, fs.pend, at, r) == Run(fs.world, old(fs.code), fs.pend, at, r)
    ensures |fs.code| <= |old(fs.code)|
    ensures |old(fs.code)| <= OFFSET_sJ ==> !fs.fail
  {
    hide Loose, Sifted, Run, Ready, Relinked, IsList;
    ghost var s := Now(fs);
    ghost var a := if want then fls else ts;
    LooseUnique(fs.world, fs.entry, s0, s, ast, base, want, e0, ts, fls, pc);
    var l := fs.Concat(if want then e0.f else e0.t, pc, a, [pc]);
    e := if want then e0.(f := l) else e0.(t := l);
    if !fs.fail {
      NilsRelinked(s.c, fs.code, a);
      LoosePlaces(fs.world, fs.entry, s0, s, ast, base, want, e0, ts, fls, pc);
      RelinkKeeps(fs.world, s, fs.code, a);
      Joins(fs.world, fs.entry, s0, s, fs.code, ast, base, want, e0, e, ts, fls, pc);
    }
  }

  /** The jumps of the value that is wanted go on from here. */
  method OpenHere(fs: FuncState, e: Exp, want: bool, ghost s0: St, ghost ast: Expr, ghost base: nat,
        ghost ts: seq<nat>, ghost fls: seq<nat>)
    returns (j: int, ghost js: seq<nat>)
    requires !fs.fail && Sifted(fs.world, fs.entry, s0, Now(fs), ast, base, want, e, ts, fls) && NilsInRange(fs.code)
    modifies fs`code, fs`fail, fs`pend, fs`lasttarget
    ensures !fs.fail ==> Gate(fs.world, fs.entry, s0, Now(fs), ast, base, want, j, js) && NilsInRange(fs.code)
    ensures |fs.code| <= |old(fs.code)|
    ensures |old(fs.code)| <= OFFSET_sJ ==> !fs.fail
  {
    hide Sifted, Gate, Patching, Run, Ready, IsList;
    ghost var s := Now(fs);
    OpenedPlaces(fs.world, fs.entry, s0, s, ast, base, want, e, ts, fls);
    SiftedLists(fs.world, fs.entry, s0, s, ast, base, want, e, ts, fls);
    PatchToHere(fs, if want then e.t else e.f, if want then ts else fls);
    j := if want then e.f else e.t;
    js := if want then fls else ts;
    if !fs.fail {
      Opened(fs.world, fs.entry, s0, s, fs.code, fs.pend, ast, base, want, e, ts, fls);
    }
  }

  /** Turn a comparison around: its jump will be taken when it is false. */
  method NegateCondition(fs: FuncState, e: Exp)
    requires e.k.KJmp? && Shape(fs.code, e.k)
    modifies fs`code
    ensures |old(fs.code)| >= 2
    ensures fs.code == old(fs.code)[..|old(fs.code)| - 2] + [Negated(old(fs.code)[e.k.jmp - 1]), Jmp(NO_JUMP)]
    ensures Shape(fs.code, e.k) && (NilsInRange(old(fs.code)) ==> NilsInRange(fs.code))
  {
    var q := e.k.jmp - 1;
    fs.code := fs.code[q := Negated(fs.code[q])];
  }

  /** The pending jump of a comparison, taken when it is not `want`. */
  method TakeComparison(fs: FuncState, e: Exp, want: bool, ghost s0: St, ghost ast: Expr, ghost base: nat,
        ghost ts: seq<nat>, ghost fls: seq<nat>)
    returns (pc: nat)
    requires !fs.fail && Holding(fs.world, fs.entry, s0, Now(fs), ast, base, NO_REG, e, ts, fls)
    requires NilsInRange(fs.code) && e.k.KJmp?
    modifies fs`code, fs`pend
    ensures Loose(fs.world, fs.entry, s0, Now(fs), ast, base, want, e, ts, fls, pc) && NilsInRange(fs.code)
    ensures pc == e.k.jmp && fs.pend == old(fs.pend) + {pc} && (!want ==> fs.code == old(fs.code))
    ensures |fs.code| <= |old(fs.code)|
  {
    hide Holding, Loose, Decides, Run;
    HoldingShape(fs.world, fs.entry, s0, Now(fs), ast, base, NO_REG, e, ts, fls);
    pc := e.k.jmp;
    CompareDecides(fs.world, fs.code, pc);
    ghost var t := if want then Negated(fs.code[pc - 1]) else fs.code[pc - 1];
    LooseOk(fs.world, fs.entry, s0, Now(fs), ast, base, want, e, ts, fls, t);
    if want {
      NegateCondition(fs, e);
    }
    assert fs.code == Tested(old(fs.code), e, t);
    fs.pend := fs.pend + {pc};
  }

  /** Go through if the value is true, jump otherwise; `j` lists the jumps. */
  method GoIfTrue(fs: FuncState, e0: Exp, ghost s0: St, ghost ast: Expr, ghost base: nat, ghost ts: seq<nat>,
        ghost fls: seq<nat>)
    returns (j: int, ghost js: seq<nat>)
    requires !fs.fail && Holding(fs.world, fs.entry, s0, Now(fs), ast, base, NO_REG, e0, ts, fls)
    requires NilsInRange(fs.code)
    requires FreeOk(e0.k, base, fs.freereg, fs.nactvar) && (e0.k.KK? ==> Truthy(e0.k.v))
    modifies fs`code, fs`freereg, fs`fail, fs`pend, fs`lasttarget
    ensures !fs.fail ==> Gate(fs.world, fs.entry, s0, Now(fs), ast, base, true, j, js) && NilsInRange(fs.code) && fs.freereg == base
    ensures |fs.code| <= |old(fs.code)| + 5
    ensures base < MAX_FSTACK && |old(fs.code)| + 5 <= OFFSET_sJ ==> !fs.fail
  {
    hide Holding, Loose, Sifted, Gate;
    var e := DischargeVars(fs, e0, s0, ast, base, ts, fls);
    FreeSame(e0.k, e.k, base, fs.freereg, fs.nactvar);
    js := fls;
    if e.k.KK? || e.k.KInt? || e.k.KStr? || e.k.KTrue? {
      KnownValue(fs.world, fs.entry, s0, Now(fs), ast, base, true, e, ts, fls);
    } else {
      var pc;
      if e.k.KJmp? {
        pc := TakeComparison(fs, e, true, s0, ast, base, ts, fls);
      } else {
        pc := JumpOnCond(fs, e, false, s0, ast, base, ts, fls);
      }
      if !fs.fail {
        e := JoinJump(fs, e, pc, true, s0, ast, base, ts, fls);
      }
      js := Extended(fls, true, pc);
    }
    if fs.fail {
      return -1, js;
    }
    j, js := OpenHere(fs, e, true, s0, ast, base, ts, js);
  }

  /** Go through if the value is false, jump otherwise; `j` lists the jumps. */
  method GoIfFalse(fs: FuncState, e0: Exp, ghost s0: St, ghost ast: Expr, ghost base: nat, ghost ts: seq<nat>,
        ghost fls: seq<nat>)
    returns (j: int, ghost js: seq<nat>)
    requires !fs.fail && Holding(fs.world, fs.entry, s0, Now(fs), ast, base, NO_REG, e0, ts, fls)
    requires NilsInRange(fs.code)
    requires FreeOk(e0.k, base, fs.freereg, fs.nactvar)
    modifies fs`code, fs`freereg, fs`fail, fs`pend, fs`lasttarget
    ensures !fs.fail ==> Gate(fs.world, fs.entry, s0, Now(fs), ast, base, false, j, js) && NilsInRange(fs.code) && fs.freereg == base
    ensures |fs.code| <= |old(fs.code)| + 5
    ensures base < MAX_FSTACK && |old(fs.code)| + 5 <= OFFSET_sJ ==> !fs.fail
  {
    hide Holding, Loose, Sifted, Gate;
    var e := DischargeVars(fs, e0, s0, ast, base, ts, fls);
    FreeSame(e0.k, e.k, base, fs.freereg, fs.nactvar);
    js := ts;
    if e.k.KNil? || e.k.KFalse? {
      KnownValue(fs.world, fs.entry, s0, Now(fs), ast, base, false, e, ts, fls);
    } else {
      var pc;
      if e.k.KJmp? {
        pc := TakeComparison(fs, e, false, s0, ast, base, ts, fls);
      } else {
        pc := JumpOnCond(fs, e, true, s0, ast, base, ts, fls);
      }
      if !fs.fail {
        e := JoinJump(fs, e, pc, false, s0, ast, base, ts, fls);
      }
      js := Extended(ts, true, pc);
    }
    if fs.fail {
      return -1, js;
    }
    j, js := OpenHere(fs, e, false, s0, ast, base, js, fls);
  }

  lemma SiftedLists(w: World, entry: nat, s0: St, s: St, ast: Expr, base: nat, want: bool, e: Exp, ts: seq<nat>,
        fs: seq<nat>)
    requires Sifted(w, entry, s0, s, ast, base, want, e, ts, fs)
    ensures IsList(s.c, e.t, ts) && IsList(s.c, e.f, fs)
  {
  }

  lemma FreeSame(k: Kind, k': Kind, base: nat, freereg: nat, nact: nat)
    requires FreeOk(k, base, freereg, nact) && (k == k' || (k.KUpval? && k'.KReloc?) || (k.KLocal? && k' == KNonReloc(k.r)))
    ensures FreeOk(k', base, freereg, nact)
  {
  }
}
