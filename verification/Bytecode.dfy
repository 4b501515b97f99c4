// The instructions that short-circuit expressions compile to, and what running a
// stretch of them does while some of its jumps are still waiting for a target.
module Bytecode {

  datatype Val = Nil | False | True | Int(i: int) | Str(s: nat) | Obj(o: nat)

  predicate Truthy(v: Val) {
    v != Nil && v != False
  }

  function Bool(b: bool): Val {
    if b then True else False
  }

  const NO_REG: nat := 255
  const MAX_FSTACK: nat := 255

  type Reg = r: nat | r < 256

  function Blank(): (s: seq<Val>)
    ensures |s| == 256
  {
    seq(256, i => Nil)
  }

  type Regs = s: seq<Val> | |s| == 256 ghost witness Blank()

  datatype Relation = EQ | LT | LE | GT | GE

  /** The second operand of a comparison: a register, a constant, or an immediate. */
  datatype Operand = R(r: Reg) | K(v: Val) | I(i: int)

  /** A jump's operand is relative to the next instruction. */
  datatype Instr =
    | Jmp(sj: int)
    | Test(a: Reg, k: bool)
    | TestSet(a: Reg, b: Reg, k: bool)
    | Compare(op: Relation, a: Reg, o: Operand, k: bool)
    | Move(a: Reg, b: Reg)
    | LoadNil(a: Reg, last: nat)
    | LoadFalse(a: Reg)
    | LFalseSkip(a: Reg)
    | LoadTrue(a: Reg)
    | LoadConst(a: Reg, v: Val)
    | GetUpval(a: Reg, u: nat)
    | Not(a: Reg, b: Reg)

  /** How the machine compares values, and what the upvalues hold. */
  datatype World = World(lt: (Val, Val) -> bool, le: (Val, Val) -> bool, eq: (Val, Val) -> bool, up: nat -> Val)

  /** Only two objects can be compared by a metamethod; other equality is symmetric. */
  ghost predicate PlainEquality(w: World) {
    forall x: Val, y: Val {:trigger w.eq(x, y)} :: !x.Obj? || !y.Obj? ==> w.eq(x, y) == w.eq(y, x)
  }

  predicate IsTest(i: Instr) {
    i.Test? || i.TestSet? || i.Compare?
  }

  function OperandVal(o: Operand, r: Regs): Val {
    match o
    case R(x) => r[x]
    case K(v) => v
    case I(i) => Int(i)
  }

  function Holds(w: World, op: Relation, x: Val, y: Val): bool {
    match op
    case EQ => w.eq(x, y)
    case LT => w.lt(x, y)
    case LE => w.le(x, y)
    case GT => w.lt(y, x)
    case GE => w.le(y, x)
  }

  /** Does the jump after this test get taken? */
  function Taken(w: World, i: Instr, r: Regs): bool
    requires IsTest(i)
  {
    match i
    case Test(a, k) => Truthy(r[a]) == k
    case TestSet(_, b, k) => Truthy(r[b]) == k
    case Compare(op, a, o, k) => Holds(w, op, r[a], OperandVal(o, r)) == k
  }

  function SetNil(r: Regs, from: nat, last: nat): (r': Regs)
    ensures forall i :: 0 <= i < 256 ==> r'[i] == if from <= i <= last then Nil else r[i]
  {
    seq(256, i requires 0 <= i < 256 => if from <= i <= last then Nil else r[i])
  }

  /** The registers after an instruction that is neither a jump nor a test. */
  function Effect(w: World, i: Instr, r: Regs): Regs
    requires !i.Jmp? && !IsTest(i)
  {
    match i
    case Move(a, b) => r[a := r[b]]
    case LoadNil(a, last) => SetNil(r, a, last)
    case LoadFalse(a) => r[a := False]
    case LFalseSkip(a) => r[a := False]
    case LoadTrue(a) => r[a := True]
    case LoadConst(a, v) => r[a := v]
    case GetUpval(a, u) => r[a := w.up(u)]
    case Not(a, b) => r[a := Bool(!Truthy(r[b]))]
  }

  /** What a taken test leaves behind. */
  function Landed(i: Instr, r: Regs): Regs {
    if i.TestSet? then r[i.a := r[i.b]] else r
  }

  /** A run ends at the end of the code, or at a jump that has no target yet. */
  datatype Outcome = Fall(r: Regs) | Exit(p: nat, r: Regs) | Stuck

  /** Run from `pc` to the end of `c`. The jumps at the places of `pend` have no target
      yet: their operands link them into lists. Running is only defined forward, and
      into the middle of a test and its jump it is not. */
  ghost function Run(w: World, c: seq<Instr>, pend: set<nat>, pc: nat, r: Regs): Outcome
    decreases |c| - pc
  {
    if pc == |c| then Fall(r)
    else if pc > |c| || (pc > 0 && IsTest(c[pc - 1])) then Stuck
    else
      var i := c[pc];
      if i.Jmp? then Follow(w, c, pend, pc, pc, r, r)
      else if IsTest(i) then
        if !Taken(w, i, r) then (if pc + 2 <= |c| then Run(w, c, pend, pc + 2, r) else Stuck)
        else if pc + 1 < |c| && c[pc + 1].Jmp? then Follow(w, c, pend, pc, pc + 1, r, Landed(i, r))
        else Stuck
      else Run(w, c, pend, if i.LFalseSkip? then pc + 2 else pc + 1, Effect(w, i, r))
  }

  /** Take the jump at `q`: the registers are `r` if it is still pending, and `landed` if not. */
  ghost function Follow(w: World, c: seq<Instr>, pend: set<nat>, pc: nat, q: nat, r: Regs, landed: Regs): Outcome
    requires pc <= q < |c| && c[q].Jmp?
    decreases |c| - pc, 0
  {
    if q in pend then Exit(q, r)
    else
      var to := q + 1 + c[q].sj;
      if pc < to <= |c| then Run(w, c, pend, to, landed) else Stuck
  }

  // --------------------------------------------------------------- appending

  /** The pending jumps of `c` are the same in both sets. */
  ghost predicate SameBelow(p: set<nat>, q: set<nat>, n: nat) {
    forall x :: x < n ==> (x in p <==> x in q)
  }

  /** Running on into appended code. */
  lemma {:induction false} RunAppend(w: World, c: seq<Instr>, d: seq<Instr>, p: set<nat>, q: set<nat>, pc: nat, r: Regs)
    requires SameBelow(p, q, |c|)
    ensures var y := Run(w, c, p, pc, r); var z := Run(w, c + d, q, pc, r);
            match y
            case Fall(r1) => z == Run(w, c + d, q, |c|, r1)
            case Exit(_, _) => z == y
            case Stuck => true
    decreases |c| - pc
  {
    if pc < |c| && !(pc > 0 && IsTest(c[pc - 1])) {
      var i := c[pc];
      assert (c + d)[pc] == i;
      if i.Jmp? {
        FollowAppend(w, c, d, p, q, pc, pc, r, r);
      } else if IsTest(i) {
        if !Taken(w, i, r) {
          if pc + 2 <= |c| {
            RunAppend(w, c, d, p, q, pc + 2, r);
          }
        } else if pc + 1 < |c| && c[pc + 1].Jmp? {
          FollowAppend(w, c, d, p, q, pc, pc + 1, r, Landed(i, r));
        }
      } else {
        RunAppend(w, c, d, p, q, if i.LFalseSkip? then pc + 2 else pc + 1, Effect(w, i, r));
      }
    }
  }

  lemma {:induction false} FollowAppend(w: World, c: seq<Instr>, d: seq<Instr>, p: set<nat>, q: set<nat>,
        pc: nat, at: nat, r: Regs, landed: Regs)
    requires SameBelow(p, q, |c|) && pc <= at < |c| && c[at].Jmp?
    ensures var y := Follow(w, c, p, pc, at, r, landed); var z := Follow(w, c + d, q, pc, at, r, landed);
            match y
            case Fall(r1) => z == Run(w, c + d, q, |c|, r1)
            case Exit(_, _) => z == y
            case Stuck => true
    decreases |c| - pc, 0
  {
    assert (c + d)[at] == c[at];
    var to := at + 1 + c[at].sj;
    if at !in p && pc < to <= |c| {
      RunAppend(w, c, d, p, q, to, landed);
    }
  }

  // ----------------------------------------------------------------- patching

  /** The instruction that decides whether the jump at `p` is taken: the test before it,
      or the jump itself. */
  function Control(c: seq<Instr>, p: nat): (q: nat)
    requires p < |c|
    ensures q <= p && (q == p || (q + 1 == p && IsTest(c[q])))
  {
    if p >= 1 && IsTest(c[p - 1]) then p - 1 else p
  }

  /** A test that keeps a value, told which register to keep it in. */
  function PatchedTest(i: Instr, reg: Reg): Instr {
    if !i.TestSet? then i
    else if reg != NO_REG && reg != i.b then TestSet(reg, i.b, i.k)
    else Test(i.b, i.k)
  }

  /** The jump at `p` made to go to `to`, and its test told to keep its value in `reg`. */
  function Patched(c: seq<Instr>, p: nat, reg: Reg, to: nat): (c': seq<Instr>)
    requires p < |c| && c[p].Jmp?
    ensures |c'| == |c|
  {
    c[Control(c, p) := PatchedTest(c[Control(c, p)], reg)][p := Jmp(to - (p + 1))]
  }

  /** The registers after a patched jump. */
  function LandedIn(i: Instr, r: Regs, reg: Reg): Regs {
    if i.TestSet? && reg != NO_REG then r[reg := r[i.b]] else r
  }

  lemma PatchedAt(c: seq<Instr>, p: nat, reg: Reg, to: nat, x: nat)
    requires p < |c| && c[p].Jmp? && x < |c|
    ensures var c' := Patched(c, p, reg, to);
            && (x == p ==> c'[x] == Jmp(to - (p + 1)))
            && (x != p && x == Control(c, p) ==> c'[x] == PatchedTest(c[x], reg))
            && (x != p && x != Control(c, p) ==> c'[x] == c[x])
            && (IsTest(c'[x]) <==> IsTest(c[x])) && (c'[x].Jmp? <==> c[x].Jmp?)
  {
  }

  lemma TestStays(w: World, i: Instr, reg: Reg, r: Regs)
    requires IsTest(i)
    ensures IsTest(PatchedTest(i, reg)) && Taken(w, PatchedTest(i, reg), r) == Taken(w, i, r)
    ensures Landed(PatchedTest(i, reg), r) == if i.TestSet? then LandedIn(i, r, reg) else r
  {
    if i.TestSet? && reg == i.b {
      assert r[reg := r[i.b]] == r;
    }
  }

  /** Patching one pending jump changes only the runs that leave at it: they go on from
      its target. */
  lemma {:induction false} RunPatch(w: World, c: seq<Instr>, pend: set<nat>, p: nat, reg: Reg, to: nat, pc: nat,
        r: Regs)
    requires p < |c| && c[p].Jmp? && p in pend && p < to <= |c|
    ensures var c' := Patched(c, p, reg, to); var y := Run(w, c, pend, pc, r); var z := Run(w, c', pend - {p}, pc, r);
            match y
            case Fall(_) => z == y
            case Exit(q, r1) => if q == p then z == Run(w, c', pend - {p}, to, LandedIn(c[Control(c, p)], r1, reg)) else z == y
            case Stuck => true
    decreases |c| - pc
  {
    var c' := Patched(c, p, reg, to);
    if pc < |c| && !(pc > 0 && IsTest(c[pc - 1])) {
      PatchedAt(c, p, reg, to, pc);
      if pc > 0 {
        PatchedAt(c, p, reg, to, pc - 1);
      }
      var i := c[pc];
      if i.Jmp? {
        FollowPatch(w, c, pend, p, reg, to, pc, pc, r);
      } else if IsTest(i) {
        TestStays(w, i, reg, r);
        if !Taken(w, i, r) {
          if pc + 2 <= |c| {
            RunPatch(w, c, pend, p, reg, to, pc + 2, r);
          }
        } else if pc + 1 < |c| && c[pc + 1].Jmp? {
          PatchedAt(c, p, reg, to, pc + 1);
          FollowPatch(w, c, pend, p, reg, to, pc, pc + 1, r);
        }
      } else {
        RunPatch(w, c, pend, p, reg, to, if i.LFalseSkip? then pc + 2 else pc + 1, Effect(w, i, r));
      }
    }
  }

  /** The registers after the jump at `at`, reached from `pc`. */
  function After(c: seq<Instr>, pc: nat, at: nat, r: Regs): Regs
    requires pc <= at < |c|
  {
    if pc == at then r else Landed(c[pc], r)
  }

  lemma {:induction false} FollowPatch(w: World, c: seq<Instr>, pend: set<nat>, p: nat, reg: Reg, to: nat,
        pc: nat, at: nat, r: Regs)
    requires p < |c| && c[p].Jmp? && p in pend && p < to <= |c|
    requires pc <= at <= pc + 1 && at < |c| && c[at].Jmp? && (at == pc + 1 ==> IsTest(c[pc])) && (at == pc && pc > 0 ==> !IsTest(c[pc - 1]))
    ensures var c' := Patched(c, p, reg, to);
            var y := Follow(w, c, pend, pc, at, r, After(c, pc, at, r)); var z := Follow(w, c', pend - {p}, pc, at, r, After(c', pc, at, r));
            match y
            case Fall(_) => z == y
            case Exit(q, r1) => if q == p then z == Run(w, c', pend - {p}, to, LandedIn(c[Control(c, p)], r1, reg)) else z == y
            case Stuck => true
    decreases |c| - pc, 0
  {
    hide Patched, PatchedTest;
    var c' := Patched(c, p, reg, to);
    PatchedAt(c, p, reg, to, at);
    PatchedAt(c, p, reg, to, pc);
    if at == p {
      if at == pc + 1 {
        TestStays(w, c[pc], reg, r);
      }
    } else {
      var t := at + 1 + c[at].sj;
      if at !in pend && pc < t <= |c| {
        RunPatch(w, c, pend, p, reg, to, t, After(c, pc, at, r));
      }
    }
  }

  /** The operand of a pending jump has no meaning to the machine. */
  lemma {:induction false} RunRelink(w: World, c: seq<Instr>, pend: set<nat>, p: nat, sj: int, pc: nat, r: Regs)
    requires p < |c| && c[p].Jmp? && p in pend
    ensures Run(w, c[p := Jmp(sj)], pend, pc, r) == Run(w, c, pend, pc, r)
    decreases |c| - pc
  {
    var c' := c[p := Jmp(sj)];
    if pc < |c| && !(pc > 0 && IsTest(c[pc - 1])) {
      var i := c[pc];
      if i.Jmp? {
        if pc !in pend && pc < pc + 1 + i.sj <= |c| {
          RunRelink(w, c, pend, p, sj, pc + 1 + i.sj, r);
        }
      } else if IsTest(i) {
        if !Taken(w, i, r) {
          if pc + 2 <= |c| {
            RunRelink(w, c, pend, p, sj, pc + 2, r);
          }
        } else if pc + 1 < |c| && c[pc + 1].Jmp? && pc + 1 !in pend && pc < pc + 2 + c[pc + 1].sj <= |c| {
          RunRelink(w, c, pend, p, sj, pc + 2 + c[pc + 1].sj, Landed(i, r));
        }
      } else {
        RunRelink(w, c, pend, p, sj, if i.LFalseSkip? then pc + 2 else pc + 1, Effect(w, i, r));
      }
    }
  }

  /** Whether the test before a pending jump keeps its value does not matter either. */
  lemma {:induction false} RunUntest(w: World, c: seq<Instr>, pend: set<nat>, p: nat, pc: nat, r: Regs)
    requires 1 <= p < |c| && c[p - 1].TestSet? && p in pend
    ensures var i := c[p - 1]; Run(w, c[p - 1 := Test(i.b, i.k)], pend, pc, r) == Run(w, c, pend, pc, r)
    decreases |c| - pc
  {
    var c' := c[p - 1 := Test(c[p - 1].b, c[p - 1].k)];
    if pc < |c| && !(pc > 0 && IsTest(c[pc - 1])) {
      var i := c[pc];
      if i.Jmp? {
        if pc !in pend && pc < pc + 1 + i.sj <= |c| {
          RunUntest(w, c, pend, p, pc + 1 + i.sj, r);
        }
      } else if IsTest(i) {
        if !Taken(w, i, r) {
          if pc + 2 <= |c| {
            RunUntest(w, c, pend, p, pc + 2, r);
          }
        } else if pc + 1 < |c| && c[pc + 1].Jmp? && pc + 1 !in pend && pc < pc + 2 + c[pc + 1].sj <= |c| {
          RunUntest(w, c, pend, p, pc + 2 + c[pc + 1].sj, Landed(i, r));
        }
      } else {
        RunUntest(w, c, pend, p, if i.LFalseSkip? then pc + 2 else pc + 1, Effect(w, i, r));
      }
    }
  }

  // ------------------------------------------------------------------ labels

  /** Resolved jumps go to known labels; tests and skips are followed by what they skip. */
  ghost predicate TidyAt(c: seq<Instr>, pend: set<nat>, target: nat, q: nat)
    requires q < |c|
  {
    && (c[q].LFalseSkip? ==> q + 1 < |c| && c[q + 1].LoadTrue?)
    && (IsTest(c[q]) ==> q + 1 < |c| && c[q + 1].Jmp?)
    && (c[q].Jmp? && q !in pend ==> q + 1 + c[q].sj <= target)
  }

  ghost predicate Tidy(c: seq<Instr>, pend: set<nat>, target: nat) {
    target <= |c| && forall q :: 0 <= q < |c| ==> TidyAt(c, pend, target, q)
  }

  lemma TidyEach(c: seq<Instr>, pend: set<nat>, target: nat)
    requires Tidy(c, pend, target)
    ensures forall q {:trigger TidyAt(c, pend, target, q)} :: 0 <= q < |c| ==> TidyAt(c, pend, target, q)
  {
  }

  lemma NilTwice(r: Regs, a: nat, b: nat, from: nat)
    requires a <= from + 1 && from <= b + 1
    ensures var lo := if a < from then a else from; var hi := if b > from then b else from;
            from < 256 && a <= b ==> SetNil(r, lo, hi) == SetNil(r, a, b)[from := Nil]
  {
  }

  /** The LOADNIL that loads `reg` along with what `i` loads. */
  function MergedNil(i: Instr, reg: Reg): Instr
    requires i.LoadNil?
  {
    LoadNil(if i.a < reg then i.a else reg, if i.last > reg then i.last else reg)
  }

  lemma MergeLast(w: World, c: seq<Instr>, pend: set<nat>, reg: Reg, r: Regs)
    requires c != [] && c[|c| - 1].LoadNil? && !(|c| > 1 && IsTest(c[|c| - 2]))
    requires var i := c[|c| - 1]; i.a <= i.last && i.a <= reg + 1 && reg <= i.last + 1
    ensures var k := |c| - 1;
            Run(w, c[k := MergedNil(c[k], reg)], pend, k, r) == Fall(Effect(w, c[k], r)[reg := Nil])
            && Run(w, c, pend, k, r) == Fall(Effect(w, c[k], r))
  {
    var k := |c| - 1;
    var last := c[k];
    var c' := c[k := MergedNil(last, reg)];
    NilTwice(r, last.a, last.last, reg);
    assert Run(w, c, pend, k + 1, Effect(w, last, r)) == Fall(Effect(w, last, r));
    assert Run(w, c', pend, k + 1, Effect(w, c'[k], r)) == Fall(Effect(w, c'[k], r));
  }

  /** When no label separates them, a nil loaded after a LOADNIL can be loaded with it. */
  lemma {:induction false} RunMergeNil(w: World, c: seq<Instr>, pend: set<nat>, target: nat, reg: Reg, pc: nat, r: Regs)
    requires Tidy(c, pend, target) && target < |c| && pc < |c| && c[|c| - 1].LoadNil?
    requires var i := c[|c| - 1]; i.a <= i.last && i.a <= reg + 1 && reg <= i.last + 1
    ensures var i := c[|c| - 1];
            var j := MergedNil(i, reg);
            var y := Run(w, c, pend, pc, r); var z := Run(w, c[|c| - 1 := j], pend, pc, r);
            match y
            case Fall(r1) => z == Fall(r1[reg := Nil])
            case Exit(_, _) => z == y
            case Stuck => true
    decreases |c| - pc
  {
    hide Tidy, Effect, Taken, Landed;
    TidyEach(c, pend, target);
    var c' := c[|c| - 1 := MergedNil(c[|c| - 1], reg)];
    var i := c[pc];
    assert TidyAt(c, pend, target, pc);
    if !(pc > 0 && IsTest(c[pc - 1])) {
      if pc == |c| - 1 {
        MergeLast(w, c, pend, reg, r);
      } else {
        assert TidyAt(c, pend, target, pc + 1) && c'[pc] == i;
        if i.Jmp? {
          if pc !in pend && pc < pc + 1 + i.sj <= |c| {
            RunMergeNil(w, c, pend, target, reg, pc + 1 + i.sj, r);
          }
        } else if IsTest(i) {
          if !Taken(w, i, r) {
            RunMergeNil(w, c, pend, target, reg, pc + 2, r);
          } else if pc + 1 !in pend && pc < pc + 2 + c[pc + 1].sj <= |c| {
            RunMergeNil(w, c, pend, target, reg, pc + 2 + c[pc + 1].sj, Landed(i, r));
          }
        } else {
          RunMergeNil(w, c, pend, target, reg, if i.LFalseSkip? then pc + 2 else pc + 1, Effect(w, i, r));
        }
      }
    }
  }

  // ---------------------------------------------------------------- emitting

  predicate Plain(i: Instr) {
    !i.Jmp? && !IsTest(i) && !i.LFalseSkip?
  }

  /** One more instruction runs after what came before. */
  lemma RunPlain(w: World, c: seq<Instr>, pend: set<nat>, target: nat, i: Instr, pc: nat, r: Regs)
    requires Tidy(c, pend, target) && Plain(i)
    ensures match Run(w, c, pend, pc, r)
            case Fall(r1) => Run(w, c + [i], pend, pc, r) == Fall(Effect(w, i, r1))
            case Exit(_, _) => Run(w, c + [i], pend, pc, r) == Run(w, c, pend, pc, r)
            case Stuck => true
  {
    RunAppend(w, c, [i], pend, pend, pc, r);
    var y := Run(w, c, pend, pc, r);
    if |c| > 0 {
      assert TidyAt(c, pend, target, |c| - 1);
    }
    if y.Fall? {
      assert (c + [i])[|c|] == i;
      assert Run(w, c + [i], pend, |c| + 1, Effect(w, i, y.r)) == Fall(Effect(w, i, y.r));
    }
  }

  /** A test with a new pending jump leaves there, or falls through. */
  lemma RunTest(w: World, c: seq<Instr>, pend: set<nat>, target: nat, t: Instr, sj: int, pc: nat, r: Regs)
    requires Tidy(c, pend, target) && IsTest(t) && forall p :: p in pend ==> p < |c|
    ensures var c' := c + [t, Jmp(sj)];
            match Run(w, c, pend, pc, r)
            case Fall(r1) => Run(w, c', pend + {|c| + 1}, pc, r) == if Taken(w, t, r1) then Exit(|c| + 1, r1) else Fall(r1)
            case Exit(_, _) => Run(w, c', pend + {|c| + 1}, pc, r) == Run(w, c, pend, pc, r)
            case Stuck => true
  {
    RunAppend(w, c, [t, Jmp(sj)], pend, pend + {|c| + 1}, pc, r);
    var y := Run(w, c, pend, pc, r);
    if |c| > 0 {
      assert TidyAt(c, pend, target, |c| - 1);
    }
    if y.Fall? {
      var c' := c + [t, Jmp(sj)];
      assert c'[|c|] == t && c'[|c| + 1] == Jmp(sj);
    }
  }

  lemma TidyPlain(c: seq<Instr>, pend: set<nat>, target: nat, i: Instr)
    requires Tidy(c, pend, target) && Plain(i)
    ensures Tidy(c + [i], pend, target)
  {
    var c' := c + [i];
    forall q | 0 <= q < |c'|
      ensures TidyAt(c', pend, target, q)
    {
      if q < |c| {
        assert TidyAt(c, pend, target, q);
      }
    }
  }

  lemma TidyTest(c: seq<Instr>, pend: set<nat>, target: nat, t: Instr, sj: int)
    requires Tidy(c, pend, target) && IsTest(t)
    ensures Tidy(c + [t, Jmp(sj)], pend + {|c| + 1}, target)
  {
    var c', pend' := c + [t, Jmp(sj)], pend + {|c| + 1};
    forall q | 0 <= q < |c'|
      ensures TidyAt(c', pend', target, q)
    {
      if q < |c| {
        assert TidyAt(c, pend, target, q);
      }
    }
  }
}
