// Getting the value of an expression into a register.
module ExprLoad {
  import opened Bytecode
  import opened JumpLists
  import opened ExprCode

  /** The state of the code being compiled. */
  ghost function Now(fs: FuncState): St
    reads fs
  {
    St(fs.code, fs.pend, fs.lasttarget)
  }

  // ----------------------------------------------------- appending instructions

  lemma FrameAppend(s0: St, s: St, d: seq<Instr>)
    requires Frame(s0, s)
    ensures Frame(s0, St(s.c + d, s.pend, s.last))
  {
  }

  lemma ListsAppend(s0: St, s: St, e: Exp, k: Kind, ts: seq<nat>, fs: seq<nat>, d: seq<Instr>)
    requires Lists(s0, s, e, ts, fs)
    ensures Lists(s0, St(s.c + d, s.pend, s.last), e.(k := k), ts, fs)
  {
    ListKept(s.c, s.c + d, e.t, ts);
    ListKept(s.c, s.c + d, e.f, fs);
  }

  lemma ReadyPlain(s: St, i: Instr)
    requires Ready(s) && Plain(i)
    ensures Ready(St(s.c + [i], s.pend, s.last))
  {
    TidyPlain(s.c, s.pend, s.last, i);
  }

  /** A description by another kind that yields the same value. */
  lemma SameValue(w: World, entry: nat, s0: St, s: St, ast: Expr, base: nat, ex: Reg, e: Exp, ts: seq<nat>,
        fs: seq<nat>, k: Kind)
    requires Holding(w, entry, s0, s, ast, base, ex, e, ts, fs) && Core(s.c, e) == |s.c|
    requires !k.KReloc? && !k.KJmp? && forall r: Regs :: Produced(w, s.c, e.k, r) == Produced(w, s.c, k, r)
    ensures Holding(w, entry, s0, s, ast, base, ex, e.(k := k), ts, fs)
  {
    hide Run, Ready, Frame, Same, LeavesWith, Eval, Produced;
    assert s.c[..|s.c|] == s.c;
    forall r: Regs
      ensures Compiled(w, ast, s.c, k, ts, fs, base, ex, Run(w, s0.c, s0.pend, entry, r), Run(w, s.c, s.pend, entry, r))
    {
      assert Compiled(w, ast, s.c, e.k, ts, fs, base, ex, Run(w, s0.c, s0.pend, entry, r), Run(w, s.c, s.pend, entry, r));
    }
  }

  /** An instruction that will put the value anywhere has been emitted. */
  lemma Relocatable(w: World, entry: nat, s0: St, s: St, ast: Expr, base: nat, ex: Reg, e: Exp, ts: seq<nat>,
        fs: seq<nat>, i: Instr)
    requires Holding(w, entry, s0, s, ast, base, ex, e, ts, fs) && Core(s.c, e) == |s.c|
    requires (i.GetUpval? || i.Not?) && forall r: Regs :: Produced(w, s.c, e.k, r) == Result(w, i, r)
    ensures Holding(w, entry, s0, St(s.c + [i], s.pend, s.last), ast, base, ex, e.(k := KReloc(|s.c|)), ts, fs)
  {
    hide Run, Ready, Frame, Same, LeavesWith, Eval, Lists;
    var s' := St(s.c + [i], s.pend, s.last);
    var e' := e.(k := KReloc(|s.c|));
    FrameAppend(s0, s, [i]);
    ListsAppend(s0, s, e, e'.k, ts, fs, [i]);
    assert s.c[..|s.c|] == s.c && s'.c[..|s.c|] == s.c;
    forall r: Regs
      ensures Compiled(w, ast, s'.c, e'.k, ts, fs, base, ex, Run(w, s0.c, s0.pend, entry, r), Run(w, s.c, s.pend, entry, r))
    {
      assert Compiled(w, ast, s.c, e.k, ts, fs, base, ex, Run(w, s0.c, s0.pend, entry, r), Run(w, s.c, s.pend, entry, r));
      LeavesStill(w, s.c, [i], ts, fs, base, Run(w, s.c, s.pend, entry, r));
    }
  }

  /** What leaves before the end of the code leaves with the same value. */
  lemma LeavesStill(w: World, c: seq<Instr>, d: seq<Instr>, ts: seq<nat>, fs: seq<nat>, base: nat, y: Outcome)
    ensures y.Exit? ==> forall b: bool, v :: LeavesWith(c, y.p, b, y.r, v) ==> LeavesWith(c + d, y.p, b, y.r, v)
  {
  }

  /** Every LOADNIL loads at least one register. */
  ghost predicate NilsInRange(c: seq<Instr>) {
    forall q :: 0 <= q < |c| && c[q].LoadNil? ==> c[q].a <= c[q].last
  }

  /** Make the expression a value: a constant, a register, a jump or an instruction. */
  method DischargeVars(fs: FuncState, e: Exp, ghost s0: St, ghost ast: Expr, ghost base: nat,
        ghost ts: seq<nat>, ghost fls: seq<nat>)
    returns (e': Exp)
    requires !fs.fail && Holding(fs.world, fs.entry, s0, Now(fs), ast, base, NO_REG, e, ts, fls)
    modifies fs`code
    ensures Holding(fs.world, fs.entry, s0, Now(fs), ast, base, NO_REG, e', ts, fls)
    ensures !e'.k.KLocal? && !e'.k.KUpval? && e'.t == e.t && e'.f == e.f
    ensures e.k.KLocal? ==> e'.k == KNonReloc(e.k.r)
    ensures e.k.KUpval? ==> e'.k.KReloc?
    ensures NilsInRange(old(fs.code)) ==> NilsInRange(fs.code)
    ensures !e.k.KLocal? && !e.k.KUpval? ==> e' == e && fs.code == old(fs.code)
    ensures |fs.code| <= |old(fs.code)| + 1
  {
    hide Holding, Run;
    ghost var s := Now(fs);
    match e.k {
      case KLocal(r) =>
        e' := e.(k := KNonReloc(r));
        SameValue(fs.world, fs.entry, s0, s, ast, base, NO_REG, e, ts, fls, e'.k);
      case KUpval(u) =>
        var pc := fs.Code(GetUpval(0, u));
        e' := e.(k := KReloc(pc));
        Relocatable(fs.world, fs.entry, s0, s, ast, base, NO_REG, e, ts, fls, GetUpval(0, u));
      case _ =>
        e' := e;
    }
  }

  // --------------------------------------------------------- values in registers

  /** The run `z` has done what `y` did, and then put the value of `k` into `reg`. */
  ghost predicate Puts(w: World, c: seq<Instr>, k: Kind, reg: Reg, y: Outcome, z: Outcome) {
    match y
    case Fall(r) => Shape(c, k) && z == Fall(r[reg := Produced(w, c, k, r)])
    case Exit(_, _) => z == y
    case Stuck => true
  }

  lemma PutOne(w: World, c: seq<Instr>, c': seq<Instr>, ast: Expr, base: nat, k: Kind, ts: seq<nat>,
        fs: seq<nat>, reg: Reg, y0: Outcome, y: Outcome, z: Outcome)
    requires Compiled(w, ast, c, k, ts, fs, base, NO_REG, y0, y) && Puts(w, c, k, reg, y, z) && base <= NO_REG
    requires forall p :: p in ts + fs && 1 <= p < |c| ==> p < |c'| && c'[p - 1] == c[p - 1]
    ensures Compiled(w, ast, c', KNonReloc(reg), ts, fs, base, reg, y0, z)
  {
    hide Eval;
    if y0.Fall? && y.Exit? {
      assert y.p in ts || y.p in fs ==> y.p in ts + fs;
    }
  }

  /** Code that puts the value of `e` into `reg`. */
  lemma PutBy(w: World, entry: nat, s0: St, s: St, s': St, ast: Expr, base: nat, e: Exp, ts: seq<nat>,
        fs: seq<nat>, reg: Reg)
    requires Holding(w, entry, s0, s, ast, base, NO_REG, e, ts, fs)
    requires Ready(s') && Frame(s0, s') && Lists(s0, s', e, ts, fs) && |s0.c| <= |s'.c|
    requires forall p :: p in ts + fs && 1 <= p < |s.c| ==> p < |s'.c| && s'.c[p - 1] == s.c[p - 1]
    requires forall r: Regs {:trigger Run(w, s0.c, s0.pend, entry, r)} ::
               Puts(w, s.c, e.k, reg, Run(w, s.c[..Core(s.c, e)], s.pend, entry, r), Run(w, s'.c, s'.pend, entry, r))
    ensures Holding(w, entry, s0, s', ast, base, reg, Exp(KNonReloc(reg), e.t, e.f), ts, fs)
  {
    hide Run, Ready, Frame, Eval, Lists, IsList;
    var k' := KNonReloc(reg);
    assert s'.c[..|s'.c|] == s'.c;
    assert Lists(s0, s', e, ts, fs) ==> Lists(s0, s', Exp(k', e.t, e.f), ts, fs) by {
      SameLists(s0, s', e, k', ts, fs);
    }
    forall r: Regs
      ensures Compiled(w, ast, s'.c, k', ts, fs, base, reg, Run(w, s0.c, s0.pend, entry, r), Run(w, s'.c, s'.pend, entry, r))
    {
      PutOne(w, s.c, s'.c, ast, base, e.k, ts, fs, reg, Run(w, s0.c, s0.pend, entry, r), Run(w, s.c[..Core(s.c, e)], s.pend, entry, r),
             Run(w, s'.c, s'.pend, entry, r));
    }
  }

  lemma SameLists(s0: St, s: St, e: Exp, k: Kind, ts: seq<nat>, fs: seq<nat>)
    ensures Lists(s0, s, e, ts, fs) ==> Lists(s0, s, Exp(k, e.t, e.f), ts, fs)
  {
    hide IsList;
  }

  /** The jumps of the lists are inside the core of the code. */
  lemma ListsInCore(w: World, entry: nat, s0: St, s: St, ast: Expr, base: nat, ex: Reg, e: Exp, ts: seq<nat>,
        fs: seq<nat>)
    requires Holding(w, entry, s0, s, ast, base, ex, e, ts, fs)
    ensures forall p :: p in ts + fs ==> |s0.c| < p < Core(s.c, e) && p in s.pend && s.c[p].Jmp? && IsTest(s.c[p - 1])
    ensures forall p :: p in s0.pend ==> 1 <= p < |s0.c| && p in s.pend
    ensures Ready(St(s.c[..Core(s.c, e)], s.pend, s.last)) && s.last <= Core(s.c, e)
    ensures |s0.c| <= Core(s.c, e) && entry <= s.last
  {
    hide Run, Eval, IsList;
    var n := Core(s.c, e);
    forall p | p in ts + fs
      ensures |s0.c| < p < n && p in s.pend && s.c[p].Jmp? && IsTest(s.c[p - 1])
    {
      assert p in Places(ts + fs);
      assert s.c[..n][p] == s.c[p] && s.c[..n][p - 1] == s.c[p - 1];
    }
  }

  lemma PutPlain(w: World, entry: nat, s0: St, s: St, ast: Expr, base: nat, e: Exp, ts: seq<nat>, fs: seq<nat>,
        i: Instr, reg: Reg)
    requires Holding(w, entry, s0, s, ast, base, NO_REG, e, ts, fs) && Core(s.c, e) == |s.c|
    requires Plain(i) && forall r: Regs :: Effect(w, i, r) == r[reg := Produced(w, s.c, e.k, r)]
    ensures Holding(w, entry, s0, St(s.c + [i], s.pend, s.last), ast, base, reg, Exp(KNonReloc(reg), e.t, e.f), ts, fs)
  {
    ListsInCore(w, entry, s0, s, ast, base, NO_REG, e, ts, fs);
    var s' := St(s.c + [i], s.pend, s.last);
    assert s.c[..Core(s.c, e)] == s.c;
    FrameAppend(s0, s, [i]);
    ListsAppend(s0, s, e, e.k, ts, fs, [i]);
    hide Run, Frame, Lists, Delivers;
    ReadyPlain(s, i);
    forall r: Regs
      ensures Puts(w, s.c, e.k, reg, Run(w, s.c[..Core(s.c, e)], s.pend, entry, r), Run(w, s'.c, s'.pend, entry, r))
    {
      RunPlain(w, s.c, s.pend, s.last, i, entry, r);
    }
    assert e.(k := e.k) == e;
    PutBy(w, entry, s0, s, s', ast, base, e, ts, fs, reg);
  }

  /** The instruction told where to put its result. */
  function Moved(i: Instr, reg: Reg): Instr {
    match i
    case GetUpval(_, u) => GetUpval(reg, u)
    case Not(_, b) => Not(reg, b)
    case _ => i
  }

  /** The result of an instruction put into `reg`. */
  lemma PutReloc(w: World, entry: nat, s0: St, s: St, ast: Expr, base: nat, e: Exp, ts: seq<nat>, fs: seq<nat>,
        i: Instr, reg: Reg)
    requires Holding(w, entry, s0, s, ast, base, NO_REG, e, ts, fs) && e.k.KReloc? && |s.c| >= 1
    requires i == Moved(s.c[|s.c| - 1], reg)
    ensures Holding(w, entry, s0, St(s.c[..|s.c| - 1] + [i], s.pend, s.last), ast, base, reg, Exp(KNonReloc(reg), e.t, e.f), ts, fs)
  {
    ListsInCore(w, entry, s0, s, ast, base, NO_REG, e, ts, fs);
    var core := St(s.c[..|s.c| - 1], s.pend, s.last);
    var s' := St(core.c + [i], s.pend, s.last);
    assert s.c[..Core(s.c, e)] == core.c;
    FrameShorter(s0, s, s'.c);
    ListKept(s.c, s'.c, e.t, ts);
    ListKept(s.c, s'.c, e.f, fs);
    hide Run, Frame, Delivers, IsList, LeavesWith, Eval;
    ReadyPlain(core, i);
    forall r: Regs
      ensures Puts(w, s.c, e.k, reg, Run(w, s.c[..Core(s.c, e)], s.pend, entry, r), Run(w, s'.c, s'.pend, entry, r))
    {
      RunPlain(w, core.c, s.pend, s.last, i, entry, r);
    }
    PutBy(w, entry, s0, s, s', ast, base, e, ts, fs, reg);
  }

  lemma FrameShorter(s0: St, s: St, c: seq<Instr>)
    requires Frame(s0, s) && |s0.c| <= |c| && forall q :: 0 <= q < |s0.c| ==> c[q] == s.c[q]
    ensures Frame(s0, St(c, s.pend, s.last))
  {
  }

  function Merged(i: Instr, reg: Reg): Instr {
    if i.LoadNil? then LoadNil(if i.a < reg then i.a else reg, if i.last > reg then i.last else reg) else i
  }

  predicate Connects(i: Instr, reg: Reg) {
    i.LoadNil? && ((i.a <= reg <= i.last + 1) || (reg <= i.a <= reg + 1))
  }

  /** Nil put into `reg` by the LOADNIL that comes just before. */
  lemma PutNil(w: World, entry: nat, s0: St, s: St, ast: Expr, base: nat, e: Exp, ts: seq<nat>, fs: seq<nat>, reg: Reg)
    requires Holding(w, entry, s0, s, ast, base, NO_REG, e, ts, fs) && e.k.KNil?
    requires s.last < |s.c| && Connects(s.c[|s.c| - 1], reg) && s.c[|s.c| - 1].a <= s.c[|s.c| - 1].last
    ensures Holding(w, entry, s0, St(s.c[|s.c| - 1 := Merged(s.c[|s.c| - 1], reg)], s.pend, s.last), ast, base, reg, Exp(KNonReloc(reg), e.t, e.f), ts, fs)
  {
    ListsInCore(w, entry, s0, s, ast, base, NO_REG, e, ts, fs);
    assert s.c[..Core(s.c, e)] == s.c;
    var j := Merged(s.c[|s.c| - 1], reg);
    var s' := St(s.c[|s.c| - 1 := j], s.pend, s.last);
    ListKept(s.c, s'.c, e.t, ts);
    ListKept(s.c, s'.c, e.f, fs);
    NilFrame(s0, s, j);
    NilReady(s, j);
    hide Run, Frame, Delivers, IsList, LeavesWith, Eval, Ready;
    forall r: Regs
      ensures Puts(w, s.c, e.k, reg, Run(w, s.c[..Core(s.c, e)], s.pend, entry, r), Run(w, s'.c, s'.pend, entry, r))
    {
      RunMergeNil(w, s.c, s.pend, s.last, reg, entry, r);
    }
    PutBy(w, entry, s0, s, s', ast, base, e, ts, fs, reg);
  }

  lemma NilFrame(s0: St, s: St, j: Instr)
    requires Frame(s0, s) && |s.c| > 0 && s.c[|s.c| - 1].LoadNil?
    requires forall p :: p in s0.pend ==> p < |s.c| && s.c[p].Jmp? && IsTest(s.c[p - 1])
    ensures Frame(s0, St(s.c[|s.c| - 1 := j], s.pend, s.last))
  {
  }

  lemma NilReady(s: St, j: Instr)
    requires Ready(s) && |s.c| > 0 && s.c[|s.c| - 1].LoadNil? && j.LoadNil?
    ensures Ready(St(s.c[|s.c| - 1 := j], s.pend, s.last))
  {
    var c' := s.c[|s.c| - 1 := j];
    forall q | 0 <= q < |c'|
      ensures TidyAt(c', s.pend, s.last, q)
    {
      assert TidyAt(s.c, s.pend, s.last, q);
    }
  }

  /** A value put into a register that no one looks at below `base`. */
  lemma ExceptNone(w: World, entry: nat, s0: St, s: St, ast: Expr, base: nat, reg: Reg, e: Exp, ts: seq<nat>,
        fs: seq<nat>)
    requires Holding(w, entry, s0, s, ast, base, reg, e, ts, fs) && reg >= base
    ensures Holding(w, entry, s0, s, ast, base, NO_REG, e, ts, fs)
  {
    hide Run, Ready, Frame, Lists, LeavesWith, Eval, Produced;
    forall r: Regs
      ensures Compiled(w, ast, s.c, e.k, ts, fs, base, NO_REG, Run(w, s0.c, s0.pend, entry, r), Run(w, s.c[..Core(s.c, e)], s.pend, entry, r))
    {
      assert Compiled(w, ast, s.c, e.k, ts, fs, base, reg, Run(w, s0.c, s0.pend, entry, r), Run(w, s.c[..Core(s.c, e)], s.pend, entry, r));
    }
  }

  lemma ExceptSome(w: World, entry: nat, s0: St, s: St, ast: Expr, base: nat, reg: Reg, e: Exp, ts: seq<nat>,
        fs: seq<nat>)
    requires Holding(w, entry, s0, s, ast, base, NO_REG, e, ts, fs)
    ensures Holding(w, entry, s0, s, ast, base, reg, e, ts, fs)
  {
    hide Run, Ready, Frame, Lists, LeavesWith, Eval, Produced;
    forall r: Regs
      ensures Compiled(w, ast, s.c, e.k, ts, fs, base, reg, Run(w, s0.c, s0.pend, entry, r), Run(w, s.c[..Core(s.c, e)], s.pend, entry, r))
    {
      assert Compiled(w, ast, s.c, e.k, ts, fs, base, NO_REG, Run(w, s0.c, s0.pend, entry, r), Run(w, s.c[..Core(s.c, e)], s.pend, entry, r));
    }
  }

  /** Load nil, with the LOADNIL just before if no jump comes between. */
  method LoadNilInto(fs: FuncState, e: Exp, reg: Reg, ghost s0: St, ghost ast: Expr, ghost base: nat,
        ghost ts: seq<nat>, ghost fls: seq<nat>)
    requires !fs.fail && Holding(fs.world, fs.entry, s0, Now(fs), ast, base, NO_REG, e, ts, fls) && e.k.KNil?
    requires NilsInRange(fs.code)
    modifies fs`code
    ensures Holding(fs.world, fs.entry, s0, Now(fs), ast, base, reg, Exp(KNonReloc(reg), e.t, e.f), ts, fls)
    ensures NilsInRange(fs.code)
    ensures |fs.code| <= |old(fs.code)| + 1
  {
    hide Holding, Run;
    ghost var s := Now(fs);
    if |fs.code| > fs.lasttarget && Connects(fs.code[|fs.code| - 1], reg) {
      PutNil(fs.world, fs.entry, s0, s, ast, base, e, ts, fls, reg);
      fs.code := fs.code[|fs.code| - 1 := Merged(fs.code[|fs.code| - 1], reg)];
    } else {
      NilIsOne(fs.world, reg);
      PutPlain(fs.world, fs.entry, s0, s, ast, base, e, ts, fls, LoadNil(reg, reg), reg);
      var pc := fs.Code(LoadNil(reg, reg));
    }
  }

  lemma NilIsOne(w: World, reg: Reg)
    ensures forall r: Regs :: Effect(w, LoadNil(reg, reg), r) == r[reg := Nil]
  {
  }

  /** Put the value in `reg`; a comparison stays a pending jump. */
  method Discharge2Reg(fs: FuncState, e0: Exp, reg: Reg, ghost s0: St, ghost ast: Expr, ghost base: nat,
        ghost ts: seq<nat>, ghost fls: seq<nat>)
    returns (e: Exp)
    requires !fs.fail && Holding(fs.world, fs.entry, s0, Now(fs), ast, base, NO_REG, e0, ts, fls)
    requires NilsInRange(fs.code)
    modifies fs`code
    ensures Holding(fs.world, fs.entry, s0, Now(fs), ast, base, reg, e, ts, fls) && NilsInRange(fs.code)
    ensures e.k == if e0.k.KJmp? then e0.k else KNonReloc(reg)
    ensures e0.k.KJmp? ==> fs.code == old(fs.code)
    ensures e.t == e0.t && e.f == e0.f
    ensures |fs.code| <= |old(fs.code)| + 2
  {
    hide Holding, Run;
    e := DischargeVars(fs, e0, s0, ast, base, ts, fls);
    ghost var s := Now(fs);
    if e.k.KJmp? {
      ExceptSome(fs.world, fs.entry, s0, s, ast, base, reg, e, ts, fls);
      return;
    } else if e.k.KReloc? {
      HoldingShape(fs.world, fs.entry, s0, s, ast, base, NO_REG, e, ts, fls);
      var i := Moved(fs.code[e.k.pc], reg);
      PutReloc(fs.world, fs.entry, s0, s, ast, base, e, ts, fls, i, reg);
      assert fs.code[e.k.pc := i] == fs.code[..|fs.code| - 1] + [i];
      fs.code := fs.code[e.k.pc := i];
    } else if e.k.KNonReloc? {
      if e.k.reg != reg {
        PutPlain(fs.world, fs.entry, s0, s, ast, base, e, ts, fls, Move(reg, e.k.reg), reg);
        var pc := fs.Code(Move(reg, e.k.reg));
      } else {
        ExceptSome(fs.world, fs.entry, s0, s, ast, base, reg, e, ts, fls);
      }
    } else if e.k.KNil? {
      LoadNilInto(fs, e, reg, s0, ast, base, ts, fls);
    } else {
      var i := if e.k.KFalse? then LoadFalse(reg) else if e.k.KTrue? then LoadTrue(reg) else LoadConst(reg, ConstVal(e.k));
      PutPlain(fs.world, fs.entry, s0, s, ast, base, e, ts, fls, i, reg);
      var pc := fs.Code(i);
    }
    e := e.(k := KNonReloc(reg));
  }

  lemma HoldingShape(w: World, entry: nat, s0: St, s: St, ast: Expr, base: nat, ex: Reg, e: Exp, ts: seq<nat>,
        fs: seq<nat>)
    requires Holding(w, entry, s0, s, ast, base, ex, e, ts, fs)
    ensures Shape(s.c, e.k) && |s0.c| <= Core(s.c, e) && base <= NO_REG
    ensures IsList(s.c, e.t, ts) && IsList(s.c, e.f, fs) && Unique(ts + fs)
  {
  }

  /** Put the value in some register: its own, or the next free one. */
  method Discharge2AnyReg(fs: FuncState, e0: Exp, ghost s0: St, ghost ast: Expr, ghost base: nat,
        ghost ts: seq<nat>, ghost fls: seq<nat>)
    returns (e: Exp)
    requires !fs.fail && Holding(fs.world, fs.entry, s0, Now(fs), ast, base, NO_REG, e0, ts, fls)
    requires NilsInRange(fs.code)
    requires FreeOk(e0.k, base, fs.freereg, fs.nactvar) && !e0.k.KJmp? && !e0.k.KLocal? && !e0.k.KUpval?
    modifies fs`code, fs`freereg, fs`fail
    ensures !fs.fail ==> Holding(fs.world, fs.entry, s0, Now(fs), ast, base, NO_REG, e, ts, fls) && NilsInRange(fs.code)
    ensures !fs.fail ==> e.k.KNonReloc? && FreeOk(e.k, base, fs.freereg, fs.nactvar) && e.t == e0.t && e.f == e0.f
    ensures |fs.code| <= |old(fs.code)| + 2
    ensures base < MAX_FSTACK && |old(fs.code)| + 2 <= OFFSET_sJ ==> !fs.fail
  {
    hide Holding, Run;
    e := e0;
    if !e.k.KNonReloc? {
      fs.ReserveReg();
      if fs.fail {
        return;
      }
      e := Discharge2Reg(fs, e, fs.freereg - 1, s0, ast, base, ts, fls);
      ExceptNone(fs.world, fs.entry, s0, Now(fs), ast, base, fs.freereg - 1, e, ts, fls);
    }
  }
}
