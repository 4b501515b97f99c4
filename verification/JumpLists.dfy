// Lists of pending jumps, threaded through the operands of the jumps themselves.
module JumpLists {
  import opened Bytecode

  const NO_JUMP: int := -1
  const OFFSET_sJ: int := 0xFF_FFFF
  const MAXARG_sJ: int := 0x1FF_FFFF

  function GetJump(c: seq<Instr>, p: nat): int
    requires p < |c| && c[p].Jmp?
  {
    if c[p].sj == NO_JUMP then NO_JUMP else p + 1 + c[p].sj
  }

  /** The list that starts at `l` goes through the places `ps` and ends. */
  ghost predicate IsList(c: seq<Instr>, l: int, ps: seq<nat>)
    decreases |ps|
  {
    if ps == [] then l == NO_JUMP
    else l == ps[0] && ps[0] < |c| && c[ps[0]].Jmp? && IsList(c, GetJump(c, ps[0]), ps[1..])
  }

  /** No place occurs twice: the list has no cycle. */
  ghost predicate Unique(ps: seq<nat>) {
    forall i, j :: 0 <= i < j < |ps| ==> ps[i] != ps[j]
  }

  ghost function Places(ps: seq<nat>): set<nat> {
    set p | p in ps
  }

  lemma UniqueParts(a: seq<nat>, b: seq<nat>)
    requires Unique(a + b)
    ensures Unique(a) && Unique(b) && Unique(b + a) && Places(a) !! Places(b)
    ensures Places(a + b) == Places(a) + Places(b)
  {
    forall i, j | 0 <= i < j < |a|
      ensures a[i] != a[j]
    {
      assert (a + b)[i] == a[i] && (a + b)[j] == a[j];
    }
    forall i, j | 0 <= i < j < |b|
      ensures b[i] != b[j]
    {
      assert (a + b)[|a| + i] == b[i] && (a + b)[|a| + j] == b[j];
    }
    forall i, j | 0 <= i < |a| && 0 <= j < |b|
      ensures a[i] != b[j]
    {
      assert (a + b)[i] == a[i] && (a + b)[|a| + j] == b[j];
    }
  }

  lemma UniqueJoin(a: seq<nat>, b: seq<nat>)
    requires Unique(a) && Unique(b) && Places(a) !! Places(b)
    ensures Unique(a + b)
  {
    forall i, j | 0 <= i < j < |a + b|
      ensures (a + b)[i] != (a + b)[j]
    {
      if i < |a| && j >= |a| {
        assert a[i] in Places(a) && b[j - |a|] in Places(b);
      }
    }
  }

  /** A list depends only on the jumps that it goes through. */
  lemma {:induction false} ListKept(c: seq<Instr>, c': seq<Instr>, l: int, ps: seq<nat>)
    requires IsList(c, l, ps) && forall p :: p in ps && p < |c| ==> p < |c'| && c'[p] == c[p]
    ensures IsList(c', l, ps)
    decreases |ps|
  {
    if ps != [] {
      assert ps[0] in ps && forall p :: p in ps[1..] ==> p in ps;
      ListKept(c, c', GetJump(c, ps[0]), ps[1..]);
    }
  }

  lemma {:induction false} ListInside(c: seq<Instr>, l: int, ps: seq<nat>)
    requires IsList(c, l, ps)
    ensures forall i :: 0 <= i < |ps| ==> ps[i] < |c| && c[ps[i]].Jmp?
    decreases |ps|
  {
    if ps != [] {
      ListInside(c, GetJump(c, ps[0]), ps[1..]);
      forall i | 0 <= i < |ps|
        ensures ps[i] < |c| && c[ps[i]].Jmp?
      {
        if i > 0 {
          assert ps[i] == ps[1..][i - 1];
        }
      }
    }
  }

  lemma UniqueTail(a: seq<nat>, b: seq<nat>)
    requires a != [] && Unique(a + b)
    ensures (a + b)[0] == a[0] && (a + b)[1..] == a[1..] + b && Unique(a[1..] + b)
    ensures |a| > 1 ==> a[0] != a[|a| - 1] && a[1..][|a| - 2] == a[|a| - 1]
  {
    forall i, j | 0 <= i < j < |a[1..] + b|
      ensures (a[1..] + b)[i] != (a[1..] + b)[j]
    {
      assert (a + b)[i + 1] != (a + b)[j + 1];
    }
    if |a| > 1 {
      assert (a + b)[0] != (a + b)[|a| - 1];
    }
  }

  lemma ListLink(c: seq<Instr>, l1: int, l2: int, q: nat, b: seq<nat>)
    requires IsList(c, l1, [q]) && IsList(c, l2, b) && b != [] && Unique([q] + b)
    ensures IsList(c[q := Jmp(l2 - (q + 1))], l1, [q] + b)
  {
    var c' := c[q := Jmp(l2 - (q + 1))];
    assert ([q] + b)[1..] == b;
    forall p | p in b
      ensures p != q
    {
      var j :| 0 <= j < |b| && b[j] == p;
      assert ([q] + b)[0] != ([q] + b)[j + 1];
    }
    ListKept(c, c', l2, b);
    assert b[0] in b;
  }

  /** Linking the last jump of a list to another list joins the two. */
  lemma {:induction false} ListJoin(c: seq<Instr>, l1: int, l2: int, a: seq<nat>, b: seq<nat>)
    requires IsList(c, l1, a) && IsList(c, l2, b) && a != [] && b != [] && Unique(a + b)
    ensures a[|a| - 1] < |c| && c[a[|a| - 1]].Jmp?
    ensures var q := a[|a| - 1]; IsList(c[q := Jmp(l2 - (q + 1))], l1, a + b)
    decreases |a|
  {
    hide Unique;
    ListInside(c, l1, a);
    UniqueTail(a, b);
    if |a| == 1 {
      assert a == [a[0]];
      ListLink(c, l1, l2, a[0], b);
    } else {
      ListJoin(c, GetJump(c, a[0]), l2, a[1..], b);
    }
  }

  /** At most the operand of the last jump of `a` has changed. */
  ghost predicate Relinked(c: seq<Instr>, c': seq<Instr>, a: seq<nat>) {
    c' == c || (a != [] && a[|a| - 1] < |c| && c[a[|a| - 1]].Jmp? && exists sj :: c' == c[a[|a| - 1] := Jmp(sj)])
  }

  /** What patching the jumps of `done` makes of a run that ended with `y`: tests that
      keep a value go on by way of `gv`, the others by way of `gd`. */
  ghost predicate AfterPatch(c0: seq<Instr>, done: seq<nat>, reg: Reg, gv: Regs -> Regs, gd: Regs -> Regs,
        y: Outcome, z: Outcome) {
    match y
    case Fall(_) => z == y
    case Exit(q, r) =>
      if q in done && q < |c0| then
        z == Fall(if c0[Control(c0, q)].TestSet? then gv(LandedIn(c0[Control(c0, q)], r, reg)) else gd(r))
      else z == y
    case Stuck => true
  }

  /** The places that patching the jumps of `ps` leaves alone. */
  ghost predicate Spared(c: seq<Instr>, ps: seq<nat>, q: nat) {
    q !in ps && (q + 1 !in ps || (q < |c| && !IsTest(c[q])))
  }

  /** How patching the jumps of `ps` may change the code. */
  ghost predicate OnlyPatched(c: seq<Instr>, c': seq<Instr>, ps: seq<nat>) {
    && |c'| == |c|
    && (forall q :: 0 <= q < |c| && Spared(c, ps, q) ==> c'[q] == c[q])
    && (forall q :: 0 <= q < |c| ==> (IsTest(c'[q]) <==> IsTest(c[q])) && (c'[q].Jmp? <==> c[q].Jmp?))
    && (forall q :: 0 <= q < |c| && !IsTest(c[q]) && !c[q].Jmp? ==> c'[q] == c[q])
  }

  /** From `to`, the run ends and leaves the registers as `g` says. */
  ghost predicate Leads(w: World, c: seq<Instr>, pend: set<nat>, to: int, g: Regs -> Regs) {
    0 <= to <= |c| && forall r: Regs :: Run(w, c, pend, to, r) == Fall(g(r))
  }

  lemma LeadsStays(w: World, c: seq<Instr>, pend: set<nat>, p: nat, reg: Reg, to: nat, x: int, g: Regs -> Regs)
    requires p < |c| && c[p].Jmp? && p in pend && p < to <= |c| && Leads(w, c, pend, x, g)
    ensures Leads(w, Patched(c, p, reg, to), pend - {p}, x, g)
  {
    hide Run, Patched;
    forall r: Regs
      ensures Run(w, Patched(c, p, reg, to), pend - {p}, x, r) == Fall(g(r))
    {
      RunPatch(w, c, pend, p, reg, to, x, r);
    }
  }

  /** One more jump of the list patched. */
  lemma PatchStep(w: World, c0: seq<Instr>, c: seq<Instr>, pend: set<nat>, done: seq<nat>, p: nat, reg: Reg, to: nat,
                  gv: Regs -> Regs, gd: Regs -> Regs, pc: nat, r: Regs, y: Outcome)
    requires p < |c| == |c0| && c[p].Jmp? && p in pend && p < to <= |c| && p !in done
    requires Control(c, p) == Control(c0, p) && c[Control(c, p)] == c0[Control(c0, p)]
    requires if c[Control(c, p)].TestSet? then Leads(w, c, pend, to, gv) else Leads(w, c, pend, to, gd)
    requires AfterPatch(c0, done, reg, gv, gd, y, Run(w, c, pend, pc, r))
    ensures AfterPatch(c0, done + [p], reg, gv, gd, y, Run(w, Patched(c, p, reg, to), pend - {p}, pc, r))
  {
    hide Run, Patched;
    RunPatch(w, c, pend, p, reg, to, pc, r);
    if c[Control(c, p)].TestSet? {
      LeadsStays(w, c, pend, p, reg, to, to, gv);
    } else {
      LeadsStays(w, c, pend, p, reg, to, to, gd);
    }
  }

  lemma OnlyPatchedStep(c0: seq<Instr>, c: seq<Instr>, ps: seq<nat>, i: nat, reg: Reg, to: nat)
    requires i < |ps| && OnlyPatched(c0, c, ps[..i]) && ps[i] < |c| && c[ps[i]].Jmp?
    ensures OnlyPatched(c0, Patched(c, ps[i], reg, to), ps[..i + 1])
  {
    hide Patched, PatchedTest;
    var c' := Patched(c, ps[i], reg, to);
    assert ps[..i + 1] == ps[..i] + [ps[i]];
    forall q | 0 <= q < |c0|
      ensures Spared(c0, ps[..i + 1], q) ==> c'[q] == c0[q]
      ensures (IsTest(c'[q]) <==> IsTest(c0[q])) && (c'[q].Jmp? <==> c0[q].Jmp?)
      ensures !IsTest(c0[q]) && !c0[q].Jmp? ==> c'[q] == c0[q]
    {
      PatchedAt(c, ps[i], reg, to, q);
      assert ps[i] in ps[..i + 1];
    }
  }

  /** The list goes on as it was behind the jumps already patched. */
  lemma RestKept(c0: seq<Instr>, c: seq<Instr>, ps: seq<nat>, i: nat)
    requires i <= |ps| && Unique(ps) && OnlyPatched(c0, c, ps[..i])
    requires forall j :: 0 <= j < |ps| ==> ps[j] < |c0| && c0[ps[j]].Jmp?
    ensures forall j :: i <= j < |ps| ==> c[ps[j]] == c0[ps[j]] && Control(c, ps[j]) == Control(c0, ps[j])
                                          && c[Control(c, ps[j])] == c0[Control(c0, ps[j])]
  {
    forall j | i <= j < |ps|
      ensures c[ps[j]] == c0[ps[j]] && Control(c, ps[j]) == Control(c0, ps[j])
      ensures c[Control(c, ps[j])] == c0[Control(c0, ps[j])]
    {
      var p := ps[j];
      assert p !in ps[..i];
      assert Spared(c0, ps[..i], p);
      if p >= 1 && IsTest(c0[p - 1]) {
        assert p - 1 !in ps[..i];
        assert Spared(c0, ps[..i], p - 1);
      }
    }
  }

  /** The targets of a list to be patched, and where they lead. */
  datatype Targets = Targets(reg: Reg, vtarget: nat, dtarget: int, gv: Regs -> Regs, gd: Regs -> Regs)

  function TargetOf(t: Targets, c0: seq<Instr>, p: nat): int
    requires p < |c0|
  {
    if c0[Control(c0, p)].TestSet? then t.vtarget else t.dtarget
  }

  /** Every jump of the list can go forward to its target. */
  ghost predicate Aimed(w: World, c: seq<Instr>, pend: set<nat>, ps: seq<nat>, t: Targets) {
    && (forall j {:trigger ps[j]} :: 0 <= j < |ps| ==> ps[j] < |c| && c[ps[j]].Jmp? && ps[j] in pend && ps[j] < TargetOf(t, c, ps[j]) <= |c|)
    && (forall j {:trigger ps[j]} :: 0 <= j < |ps| && ps[j] < |c| ==>
          if c[Control(c, ps[j])].TestSet? then Leads(w, c, pend, t.vtarget, t.gv) else Leads(w, c, pend, t.dtarget, t.gd))
  }

  /** The first `i` jumps of the list have been patched. */
  ghost predicate Patching(w: World, c0: seq<Instr>, pend0: set<nat>, c: seq<Instr>, pend: set<nat>,
        ps: seq<nat>, i: nat, t: Targets)
    requires i <= |ps|
  {
    && |c| == |c0| && OnlyPatched(c0, c, ps[..i]) && pend == pend0 - Places(ps[..i])
    && (forall j {:trigger ps[j]} :: 0 <= j < i ==> ps[j] < |c0| && c[ps[j]] == Jmp(TargetOf(t, c0, ps[j]) - (ps[j] + 1)))
    && (forall x, g {:trigger Leads(w, c0, pend0, x, g)} :: Leads(w, c0, pend0, x, g) ==> Leads(w, c, pend, x, g))
    && (forall pc: nat, r: Regs {:trigger Run(w, c0, pend0, pc, r)} ::
          AfterPatch(c0, ps[..i], t.reg, t.gv, t.gd, Run(w, c0, pend0, pc, r), Run(w, c, pend, pc, r)))
  }

  lemma PatchingStarts(w: World, c: seq<Instr>, pend: set<nat>, ps: seq<nat>, t: Targets)
    ensures Patching(w, c, pend, c, pend, ps, 0, t)
  {
    hide Run, Leads;
    assert ps[..0] == [] && Places([]) == {};
  }

  lemma PatchingPlace(w: World, c0: seq<Instr>, pend0: set<nat>, c: seq<Instr>, pend: set<nat>, ps: seq<nat>,
        i: nat, t: Targets)
    requires i < |ps| && Unique(ps) && Aimed(w, c0, pend0, ps, t) && Patching(w, c0, pend0, c, pend, ps, i, t)
    ensures var p := ps[i];
            && p < |c| == |c0| && c[p].Jmp? && p in pend && p !in ps[..i] && p < TargetOf(t, c0, p) <= |c|
            && c[p] == c0[p] && Control(c, p) == Control(c0, p) && c[Control(c, p)] == c0[Control(c0, p)]
            && (if c[Control(c, p)].TestSet? then Leads(w, c, pend, TargetOf(t, c0, p), t.gv) else Leads(w, c, pend, TargetOf(t, c0, p), t.gd))
  {
    hide Run, Leads, AfterPatch, OnlyPatched;
    var p := ps[i];
    assert p < |c0|;
    RestKept(c0, c, ps, i);
    forall j | 0 <= j < i
      ensures ps[j] != p
    {
    }
    assert c0[p].Jmp?;
  }

  lemma PatchingRuns(w: World, c0: seq<Instr>, pend0: set<nat>, c: seq<Instr>, pend: set<nat>, ps: seq<nat>,
        i: nat, t: Targets, to: nat)
    requires i < |ps| && Unique(ps) && Aimed(w, c0, pend0, ps, t) && Patching(w, c0, pend0, c, pend, ps, i, t)
    requires ps[i] < |c0| && to == TargetOf(t, c0, ps[i])
    ensures ps[i] < |c| && c[ps[i]].Jmp?
    ensures var c' := Patched(c, ps[i], t.reg, to); var pend' := pend - {ps[i]};
            && (forall x, g {:trigger Leads(w, c0, pend0, x, g)} :: Leads(w, c0, pend0, x, g) ==> Leads(w, c', pend', x, g))
            && (forall pc: nat, r: Regs {:trigger Run(w, c0, pend0, pc, r)} ::
                  AfterPatch(c0, ps[..i + 1], t.reg, t.gv, t.gd, Run(w, c0, pend0, pc, r), Run(w, c', pend', pc, r)))
  {
    PatchingPlace(w, c0, pend0, c, pend, ps, i, t);
    hide Run, Leads, AfterPatch, OnlyPatched, Patched, Control, Aimed;
    var p := ps[i];
    var c' := Patched(c, p, t.reg, to);
    forall x, g | Leads(w, c0, pend0, x, g)
      ensures Leads(w, c', pend - {p}, x, g)
    {
      LeadsStays(w, c, pend, p, t.reg, to, x, g);
    }
    assert ps[..i + 1] == ps[..i] + [p];
    forall pc: nat, r: Regs
      ensures AfterPatch(c0, ps[..i + 1], t.reg, t.gv, t.gd, Run(w, c0, pend0, pc, r), Run(w, c', pend - {p}, pc, r))
    {
      PatchStep(w, c0, c, pend, ps[..i], p, t.reg, to, t.gv, t.gd, pc, r, Run(w, c0, pend0, pc, r));
    }
  }

  lemma PatchingStep(w: World, c0: seq<Instr>, pend0: set<nat>, c: seq<Instr>, pend: set<nat>, ps: seq<nat>,
        i: nat, t: Targets)
    requires i < |ps| && Unique(ps) && Aimed(w, c0, pend0, ps, t) && Patching(w, c0, pend0, c, pend, ps, i, t)
    ensures ps[i] < |c| == |c0| && c[ps[i]].Jmp? && c[ps[i]] == c0[ps[i]]
    ensures c[Control(c, ps[i])].TestSet? <==> c0[Control(c0, ps[i])].TestSet?
    ensures 0 <= TargetOf(t, c0, ps[i]) <= |c0|
    ensures Patching(w, c0, pend0, Patched(c, ps[i], t.reg, TargetOf(t, c0, ps[i])), pend - {ps[i]}, ps, i + 1, t)
  {
    PatchingPlace(w, c0, pend0, c, pend, ps, i, t);
    var p := ps[i];
    var to: nat := TargetOf(t, c0, p);
    hide Run, Leads, AfterPatch, OnlyPatched, Patched, PatchedTest, Control, Aimed, TargetOf;
    PatchingRuns(w, c0, pend0, c, pend, ps, i, t, to);
    OnlyPatchedStep(c0, c, ps, i, t.reg, to);
    var c' := Patched(c, p, t.reg, to);
    assert ps[..i + 1] == ps[..i] + [p] && Places(ps[..i + 1]) == Places(ps[..i]) + {p};
    TargetsSet(c0, c, ps, i, t, to);
  }

  lemma TargetsSet(c0: seq<Instr>, c: seq<Instr>, ps: seq<nat>, i: nat, t: Targets, to: nat)
    requires i < |ps| && Unique(ps) && |c| == |c0| && ps[i] < |c0| && c[ps[i]].Jmp? && to == TargetOf(t, c0, ps[i])
    requires forall j {:trigger ps[j]} :: 0 <= j < i ==> ps[j] < |c0| && c[ps[j]] == Jmp(TargetOf(t, c0, ps[j]) - (ps[j] + 1))
    ensures var c' := Patched(c, ps[i], t.reg, to);
            forall j {:trigger ps[j]} :: 0 <= j < i + 1 ==> ps[j] < |c0| && c'[ps[j]] == Jmp(TargetOf(t, c0, ps[j]) - (ps[j] + 1))
  {
    hide Patched, PatchedTest, Control, TargetOf;
    var p := ps[i];
    var c' := Patched(c, p, t.reg, to);
    JumpIsNoControl(c, p);
    forall j | 0 <= j < i + 1
      ensures ps[j] < |c0| && c'[ps[j]] == Jmp(TargetOf(t, c0, ps[j]) - (ps[j] + 1))
    {
      PatchedAt(c, p, t.reg, to, ps[j]);
      if j < i {
        assert ps[j] != p;
      }
    }
  }

  lemma JumpIsNoControl(c: seq<Instr>, p: nat)
    requires p < |c|
    ensures forall q :: 0 <= q < |c| && c[q].Jmp? && q != p ==> q != Control(c, p)
  {
  }

  // ------------------------------------------------------- values not wanted

  /** The tests of the first `i` jumps of the list keep no value; up to `n` the code
      runs as before. */
  ghost predicate Untested(w: World, c0: seq<Instr>, pend: set<nat>, c: seq<Instr>, ps: seq<nat>, i: nat, n: nat)
    requires i <= |ps|
  {
    && |c| == |c0| && n <= |c| && OnlyPatched(c0, c, ps[..i])
    && (forall q :: 0 <= q < |c| && c0[q].Jmp? ==> c[q] == c0[q])
    && (forall q :: 0 <= q < |c| ==> c[q] == c0[q] || (c0[q].TestSet? && c[q] == Test(c0[q].b, c0[q].k)))
    && (forall j {:trigger ps[j]} :: 0 <= j < i ==> ps[j] < |c| && !c[Control(c, ps[j])].TestSet?)
    && (forall pc: nat, r: Regs :: Run(w, c[..n], pend, pc, r) == Run(w, c0[..n], pend, pc, r))
  }

  lemma UntestedStarts(w: World, c: seq<Instr>, pend: set<nat>, ps: seq<nat>, n: nat)
    requires n <= |c|
    ensures Untested(w, c, pend, c, ps, 0, n)
  {
    hide Run;
  }

  lemma UntestedRuns(w: World, c: seq<Instr>, pend: set<nat>, p: nat, n: nat, pc: nat, r: Regs)
    requires p < n <= |c| && c[p].Jmp? && p in pend
    ensures Run(w, c[Control(c, p) := PatchedTest(c[Control(c, p)], NO_REG)][..n], pend, pc, r) == Run(w, c[..n], pend, pc, r)
  {
    var q := Control(c, p);
    var c' := c[q := PatchedTest(c[q], NO_REG)];
    if c[q].TestSet? {
      assert c'[..n] == c[..n][p - 1 := Test(c[q].b, c[q].k)];
      RunUntest(w, c[..n], pend, p, pc, r);
    } else {
      assert c' == c;
    }
  }

  lemma UntestedStep(w: World, c0: seq<Instr>, pend: set<nat>, c: seq<Instr>, ps: seq<nat>, i: nat, n: nat)
    requires i < |ps| && Untested(w, c0, pend, c, ps, i, n)
    requires forall j {:trigger ps[j]} :: 0 <= j < |ps| ==> ps[j] < n && ps[j] in pend && ps[j] < |c0| && c0[ps[j]].Jmp?
    ensures ps[i] < |c| && c[ps[i]].Jmp? && c[ps[i]] == c0[ps[i]]
    ensures var q := Control(c, ps[i]); Untested(w, c0, pend, c[q := PatchedTest(c[q], NO_REG)], ps, i + 1, n)
  {
    hide Run;
    var p := ps[i];
    var q := Control(c, p);
    var c' := c[q := PatchedTest(c[q], NO_REG)];
    assert ps[..i + 1] == ps[..i] + [p];
    forall pc: nat, r: Regs
      ensures Run(w, c'[..n], pend, pc, r) == Run(w, c0[..n], pend, pc, r)
    {
      UntestedRuns(w, c, pend, p, n, pc, r);
    }
    assert forall x :: 0 <= x < |c| ==> c'[x] == c[x] || (c[x].TestSet? && c'[x] == Test(c[x].b, c[x].k));
    forall j {:trigger ps[j]} | 0 <= j < i + 1
      ensures ps[j] < |c'| && !c'[Control(c', ps[j])].TestSet?
    {
      if j < i {
        assert !c[Control(c, ps[j])].TestSet?;
      }
    }
    forall x | 0 <= x < |c0| && Spared(c0, ps[..i + 1], x)
      ensures c'[x] == c0[x]
    {
      assert p in ps[..i + 1];
      assert Spared(c0, ps[..i], x);
    }
  }

  // ------------------------------------------------------------- the code so far

  /** The function being compiled. `fail` is set by a compile-time error. The ghost
      fields say which jumps are pending, and where runs of the code begin. */
  class FuncState {
    var code: seq<Instr>
    var lasttarget: nat
    var freereg: nat
    var k: seq<Val>
    var fail: bool
    const nactvar: nat
    ghost var pend: set<nat>
    ghost const world: World
    ghost const entry: nat

    constructor (nactvar: nat, ghost world: World)
      ensures this.nactvar == nactvar && this.world == world && entry == 0
      ensures code == [] && lasttarget == 0 && freereg == nactvar && !fail && pend == {}
    {
      this.nactvar, this.world, entry := nactvar, world, 0;
      code, lasttarget, freereg, k, fail, pend := [], 0, nactvar, [], false, {};
    }

    /** Emit an instruction; its place is returned. */
    method Code(i: Instr) returns (pc: nat)
      modifies `code
      ensures code == old(code) + [i] && pc == |old(code)|
    {
      pc := |code|;
      code := code + [i];
    }

    /** Mark the current place as a jump target. */
    method GetLabel() returns (pc: nat)
      modifies `lasttarget
      ensures pc == lasttarget == |code|
    {
      lasttarget := |code|;
      pc := lasttarget;
    }

    /** Reserve one register. */
    method ReserveReg()
      modifies `freereg, `fail
      ensures old(fail) ==> fail
      ensures !fail ==> freereg == old(freereg) + 1 <= MAX_FSTACK
      ensures fail <==> old(fail) || old(freereg) >= MAX_FSTACK
    {
      if freereg + 1 > MAX_FSTACK {
        fail := true;
        return;
      }
      freereg := freereg + 1;
    }

    /** Free a register, unless it holds a local variable. */
    method FreeReg(r: nat)
      requires r >= nactvar ==> freereg == r + 1
      modifies `freereg
      ensures freereg == if r >= nactvar then r else old(freereg)
    {
      if r >= nactvar {
        freereg := freereg - 1;
      }
    }

    /** The index of a constant. */
    method AddK(v: Val) returns (i: nat)
      modifies `k
      ensures i < |k| && k[i] == v && old(k) <= k
    {
      i := 0;
      while i < |k|
        invariant 0 <= i <= |k|
      {
        if k[i] == v {
          return;
        }
        i := i + 1;
      }
      k := k + [v];
    }

    /** Make the jump at `p` go to `dest`. */
    method FixJump(p: nat, dest: nat)
      requires p < |code| && code[p].Jmp?
      modifies `code, `fail
      ensures old(fail) ==> fail
      ensures code == if fail then old(code) else old(code)[p := Jmp(dest - (p + 1))]
      ensures dest <= |code| <= OFFSET_sJ ==> fail == old(fail)
    {
      var offset: int := dest - (p + 1);
      if !(-OFFSET_sJ <= offset <= MAXARG_sJ - OFFSET_sJ) || fail {
        fail := true;
        return;
      }
      code := code[p := Jmp(offset)];
    }

    /** Append list `l2` to list `l1`. */
    method Concat(l1: int, l2: int, ghost a: seq<nat>, ghost b: seq<nat>) returns (l: int)
      requires IsList(code, l1, a) && IsList(code, l2, b) && Unique(a + b) && !fail
      modifies `code, `fail
      ensures !fail ==> IsList(code, l, a + b)
      ensures !fail ==> Relinked(old(code), code, a)
      ensures |code| == |old(code)| && (|code| <= OFFSET_sJ ==> !fail)
    {
      if l2 == NO_JUMP {
        assert a + b == a;
        return l1;
      }
      if l1 == NO_JUMP {
        assert a + b == b;
        return l2;
      }
      var list: nat := l1;
      var next := GetJump(code, list);
      ghost var i := 0;
      while next != NO_JUMP
        invariant 0 <= i < |a| && list == a[i] && list < |code| && code[list].Jmp? && next == GetJump(code, list)
        invariant IsList(code, next, a[i + 1..])
        decreases |a| - i
      {
        assert a[i + 1..][1..] == a[i + 2..];
        i := i + 1;
        list := next;
        next := GetJump(code, list);
      }
      assert i == |a| - 1;
      ListJoin(code, l1, l2, a, b);
      FixJump(list, l2);
      l := l1;
    }

    /** Tell the test of the jump at `node` where to keep its value. */
    method PatchTestReg(node: nat, reg: Reg) returns (b: bool)
      requires node < |code| && code[node].Jmp?
      modifies `code
      ensures b == old(code[Control(code, node)]).TestSet?
      ensures code == old(code[Control(code, node) := PatchedTest(code[Control(code, node)], reg)])
      ensures !b ==> code == old(code)
    {
      var i := Control(code, node);
      if !code[i].TestSet? {
        assert code[i := code[i]] == code;
        return false;
      }
      code := code[i := PatchedTest(code[i], reg)];
      b := true;
    }

    lemma PatchedIs(c: seq<Instr>, p: nat, reg: Reg, to: nat)
      requires p < |c| && c[p].Jmp?
      ensures Patched(c, p, reg, to) == c[Control(c, p) := PatchedTest(c[Control(c, p)], reg)][p := Jmp(to - (p + 1))]
    {
    }

    /** Give every jump of the list a target: tests that keep a value, with the register
        to keep it in, get `vtarget`, the others `dtarget`. */
    method PatchListAux(list0: int, vtarget: nat, reg: Reg, dtarget: int, ghost ps: seq<nat>,
          ghost gv: Regs -> Regs, ghost gd: Regs -> Regs)
      requires IsList(code, list0, ps) && Unique(ps) && !fail
      requires Aimed(world, code, pend, ps, Targets(reg, vtarget, dtarget, gv, gd))
      modifies `code, `pend, `fail
      ensures !fail ==> Patching(world, old(code), old(pend), code, pend, ps, |ps|, Targets(reg, vtarget, dtarget, gv, gd))
      ensures |code| == |old(code)| && (|code| <= OFFSET_sJ ==> !fail)
    {
      ghost var c0, pend0, t := code, pend, Targets(reg, vtarget, dtarget, gv, gd);
      hide Patching, Aimed, Run, Patched, PatchedTest;
      ListInside(code, list0, ps);
      PatchingStarts(world, c0, pend0, ps, t);
      var list := list0;
      ghost var i := 0;
      while list != NO_JUMP
        invariant 0 <= i <= |ps| && IsList(c0, list, ps[i..]) && !fail && |code| == |c0|
        invariant Patching(world, c0, pend0, code, pend, ps, i, t)
        decreases |ps| - i
      {
        PatchingStep(world, c0, pend0, code, pend, ps, i, t);
        var next := GetJump(code, list);
        ghost var c := code;
        var keeps := PatchTestReg(list, reg);
        JumpIsNoControl(c, list);
        if keeps {
          FixJump(list, vtarget);
        } else {
          FixJump(list, dtarget);
        }
        if fail {
          return;
        }
        PatchedIs(c, list, reg, if keeps then vtarget else dtarget);
        pend := pend - {ps[i]};
        assert ps[i..][1..] == ps[i + 1..];
        i := i + 1;
        list := next;
      }
      assert i == |ps|;
    }

    /** No test of the list keeps its value any more. The jumps stay pending. */
    method RemoveValues(list0: int, ghost ps: seq<nat>, ghost n: nat)
      requires IsList(code, list0, ps) && Unique(ps) && n <= |code|
      requires forall j {:trigger ps[j]} :: 0 <= j < |ps| ==> ps[j] < n && ps[j] in pend
      modifies `code
      ensures Untested(world, old(code), pend, code, ps, |ps|, n)
      ensures |code| == |old(code)|
    {
      ghost var c0 := code;
      hide Untested, Run;
      ListInside(code, list0, ps);
      UntestedStarts(world, c0, pend, ps, n);
      var list := list0;
      ghost var i := 0;
      while list != NO_JUMP
        invariant 0 <= i <= |ps| && IsList(c0, list, ps[i..]) && |code| == |c0|
        invariant Untested(world, c0, pend, code, ps, i, n)
        decreases |ps| - i
      {
        UntestedStep(world, c0, pend, code, ps, i, n);
        var next := GetJump(code, list);
        var keeps := PatchTestReg(list, NO_REG);
        assert ps[i..][1..] == ps[i + 1..];
        i := i + 1;
        list := next;
      }
      assert i == |ps|;
    }

    /** Is there a jump in the list whose test does not keep a value? */
    method NeedValue(list0: int, ghost ps: seq<nat>) returns (b: bool)
      requires IsList(code, list0, ps)
      ensures b <==> exists p :: p in ps && p < |code| && !code[Control(code, p)].TestSet?
    {
      ListInside(code, list0, ps);
      var list := list0;
      ghost var i := 0;
      while list != NO_JUMP
        invariant 0 <= i <= |ps| && IsList(code, list, ps[i..])
        invariant forall j :: 0 <= j < i ==> ps[j] < |code| && code[Control(code, ps[j])].TestSet?
        decreases |ps| - i
      {
        if !code[Control(code, list)].TestSet? {
          assert ps[i] in ps;
          return true;
        }
        assert ps[i..][1..] == ps[i + 1..];
        list := GetJump(code, list);
        i := i + 1;
      }
      b := false;
    }
  }
}
