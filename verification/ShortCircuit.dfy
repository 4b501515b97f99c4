// Compiling whole expressions: operands into registers, comparisons, and the logical
// operators; the emitted code leaves Lua's value in the target register.
module ShortCircuit {
  import opened Bytecode
  import opened JumpLists
  import opened ExprCode
  import opened ExprLoad
  import opened ExprJumps
  import opened ExprNot
  import opened ExprReg

  // ------------------------------------------------------- some register or other

  lemma ListsEmpty(w: World, entry: nat, s0: St, s: St, ast: Expr, base: nat, ex: Reg, e: Exp, ts: seq<nat>,
        fs: seq<nat>)
    requires Holding(w, entry, s0, s, ast, base, ex, e, ts, fs) && !HasJumps(e)
    ensures ts == [] && fs == [] && e.t == NO_JUMP && e.f == NO_JUMP
  {
    hide Run, Compiled, Ready, Frame;
    HeadsDiffer(ts, fs);
  }

  /** The value in the next free register. */
  method Exp2NextReg(fs: FuncState, e0: Exp, ghost s0: St, ghost ast: Expr, ghost base: nat, ghost ts: seq<nat>,
        ghost fls: seq<nat>)
    returns (e: Exp)
    requires !fs.fail && Holding(fs.world, fs.entry, s0, Now(fs), ast, base, NO_REG, e0, ts, fls)
    requires NilsInRange(fs.code)
    requires FreeOk(e0.k, base, fs.freereg, fs.nactvar)
    modifies fs`code, fs`pend, fs`fail, fs`lasttarget, fs`freereg
    ensures !fs.fail ==> Holding(fs.world, fs.entry, s0, Now(fs), ast, base, NO_REG, e, [], []) && NilsInRange(fs.code)
    ensures !fs.fail ==> fs.freereg == base + 1 <= NO_REG && e == Exp(KNonReloc(base), NO_JUMP, NO_JUMP)
    ensures |fs.code| <= |old(fs.code)| + 6
    ensures base < MAX_FSTACK && |old(fs.code)| + 6 <= OFFSET_sJ ==> !fs.fail
  {
    hide Holding, Run;
    e := DischargeVars(fs, e0, s0, ast, base, ts, fls);
    FreeSame(e0.k, e.k, base, fs.freereg, fs.nactvar);
    if e.k.KNonReloc? {
      fs.FreeReg(e.k.reg);
    }
    fs.ReserveReg();
    if fs.fail {
      return;
    }
    var reg: Reg := fs.freereg - 1;
    e := Exp2Reg(fs, e, reg, s0, ast, base, ts, fls);
    if !fs.fail {
      ExceptNone(fs.world, fs.entry, s0, Now(fs), ast, base, reg, e, [], []);
    }
  }

  /** The value in some register: its own, if no jump would have to change a variable. */
  method Exp2AnyReg(fs: FuncState, e0: Exp, ghost s0: St, ghost ast: Expr, ghost base: nat, ghost ts: seq<nat>,
        ghost fls: seq<nat>)
    returns (e: Exp)
    requires !fs.fail && Holding(fs.world, fs.entry, s0, Now(fs), ast, base, NO_REG, e0, ts, fls)
    requires NilsInRange(fs.code)
    requires FreeOk(e0.k, base, fs.freereg, fs.nactvar) && fs.freereg <= NO_REG
    modifies fs`code, fs`pend, fs`fail, fs`lasttarget, fs`freereg
    ensures !fs.fail ==> Holding(fs.world, fs.entry, s0, Now(fs), ast, base, NO_REG, e, [], []) && NilsInRange(fs.code)
    ensures !fs.fail ==> e.k.KNonReloc? && e.t == e.f == NO_JUMP && FreeOk(e.k, base, fs.freereg, fs.nactvar) && fs.freereg <= NO_REG
    ensures |fs.code| <= |old(fs.code)| + 7
    ensures base < MAX_FSTACK && |old(fs.code)| + 7 <= OFFSET_sJ ==> !fs.fail
  {
    hide Holding, Run;
    e := DischargeVars(fs, e0, s0, ast, base, ts, fls);
    FreeSame(e0.k, e.k, base, fs.freereg, fs.nactvar);
    if e.k.KNonReloc? {
      if !HasJumps(e) {
        ListsEmpty(fs.world, fs.entry, s0, Now(fs), ast, base, NO_REG, e, ts, fls);
        return;
      }
      if e.k.reg >= fs.nactvar {
        var reg := e.k.reg;
        e := Exp2Reg(fs, e, reg, s0, ast, base, ts, fls);
        if !fs.fail {
          ExceptNone(fs.world, fs.entry, s0, Now(fs), ast, base, reg, e, [], []);
        }
        return;
      }
    }
    e := Exp2NextReg(fs, e, s0, ast, base, ts, fls);
  }

  // -------------------------------------------------------------- two operands

  /** The operand that stands for a value in a register or a constant. */
  predicate Stands(k: Kind, o: Operand) {
    (k.KNonReloc? && o == R(k.reg)) || (IsConst(k) && (o == K(ConstVal(k)) || (k.KInt? && o == I(k.i))))
  }

  /** The values of two expressions are at hand after the run `y`. */
  ghost predicate AtHand(w: World, a: Expr, b: Expr, base: nat, o1: Operand, o2: Operand, y0: Outcome, y: Outcome) {
    match y0
    case Fall(r0) =>
      y.Fall? && Same(r0, y.r, base, NO_REG) && OperandVal(o1, y.r) == Eval(w, a, r0) && OperandVal(o2, y.r) == Eval(w, b, r0)
    case Exit(_, _) => y == y0
    case Stuck => true
  }

  ghost predicate Operands(w: World, entry: nat, s0: St, s: St, a: Expr, b: Expr, base: nat, o1: Operand, o2: Operand) {
    && entry <= s0.last && Ready(s) && Frame(s0, s) && base <= NO_REG && s.pend == s0.pend
    && forall r: Regs {:trigger Run(w, s0.c, s0.pend, entry, r)} ::
         AtHand(w, a, b, base, o1, o2, Run(w, s0.c, s0.pend, entry, r), Run(w, s.c, s.pend, entry, r))
  }

  lemma HeldParts(w: World, entry: nat, s0: St, s: St, ast: Expr, base: nat, e: Exp)
    requires Holding(w, entry, s0, s, ast, base, NO_REG, e, [], []) && !e.k.KReloc? && !e.k.KJmp?
    ensures entry <= s0.last <= s.last && Ready(s) && Frame(s0, s) && base <= NO_REG && s.pend == s0.pend
    ensures forall r: Regs {:trigger Run(w, s0.c, s0.pend, entry, r)} ::
              Compiled(w, ast, s.c, e.k, [], [], base, NO_REG, Run(w, s0.c, s0.pend, entry, r), Run(w, s.c, s.pend, entry, r))
  {
    hide Run, Eval, Ready, Compiled, IsList;
    assert s.c[..Core(s.c, e)] == s.c;
    assert Places([] + []) == {};
  }

  lemma FrameTrans(s0: St, s1: St, s2: St)
    requires Frame(s0, s1) && Frame(s1, s2) && s0.pend <= s1.pend
    ensures Frame(s0, s2)
  {
  }

  lemma PairFall(w: World, a: Expr, b: Expr, c1: seq<Instr>, k1: Kind, c2: seq<Instr>, k2: Kind, base: nat,
        base1: nat, o1: Operand, o2: Operand, r0: Regs, r1: Regs, r2: Regs)
    requires Same(r0, r1, base, NO_REG) && Same(r1, r2, base1, NO_REG) && Stands(k1, o1) && Stands(k2, o2)
    requires Shape(c1, k1) && Shape(c2, k2)
    requires Produced(w, c1, k1, r1) == Eval(w, a, r0) && Produced(w, c2, k2, r2) == Eval(w, b, r1)
    requires base <= base1 <= NO_REG && Scoped(b, base) == true && (k1.KNonReloc? ==> k1.reg < base1)
    ensures Same(r0, r2, base, NO_REG) && OperandVal(o1, r2) == Eval(w, a, r0) && OperandVal(o2, r2) == Eval(w, b, r0)
  {
    hide Eval, Stands, OperandVal, Produced, Scoped, Same, Shape;
    EvalSame(w, b, r0, r1, base);
    StandsVal(w, c1, k1, o1, r1);
    StandsVal(w, c2, k2, o2, r2);
    StandsKept(k1, o1, r1, r2, base1);
    SameLess(r1, r2, base, base1);
    SameTrans(r0, r1, r2, base, NO_REG);
  }

  lemma PairOne(w: World, a: Expr, b: Expr, c1: seq<Instr>, k1: Kind, c2: seq<Instr>, k2: Kind, base: nat,
        base1: nat, o1: Operand, o2: Operand, y0: Outcome, y1: Outcome, y2: Outcome)
    requires Compiled(w, a, c1, k1, [], [], base, NO_REG, y0, y1)
    requires Compiled(w, b, c2, k2, [], [], base1, NO_REG, y1, y2)
    requires Stands(k1, o1) && Stands(k2, o2) && base <= base1 <= NO_REG && Scoped(b, base) == true && (k1.KNonReloc? ==> k1.reg < base1)
    ensures AtHand(w, a, b, base, o1, o2, y0, y2)
  {
    hide Eval, Stands, OperandVal, Produced, Scoped, Same, Compiled, Shape, AtHand;
    CompiledVal(w, a, c1, k1, base, y0, y1);
    CompiledVal(w, b, c2, k2, base1, y1, y2);
    if y0.Fall? {
      PairFall(w, a, b, c1, k1, c2, k2, base, base1, o1, o2, y0.r, y1.r, y2.r);
    }
    IsAtHand(w, a, b, base, o1, o2, y0, y2);
  }

  lemma IsAtHand(w: World, a: Expr, b: Expr, base: nat, o1: Operand, o2: Operand, y0: Outcome, y: Outcome)
    requires y0.Fall? ==> y.Fall? && Same(y0.r, y.r, base, NO_REG) && OperandVal(o1, y.r) == Eval(w, a, y0.r) && OperandVal(o2, y.r) == Eval(w, b, y0.r)
    requires y0.Exit? ==> y == y0
    ensures AtHand(w, a, b, base, o1, o2, y0, y)
  {
    hide Eval, OperandVal, Same;
  }

  /** Without pending jumps of its own, the code of an expression falls through. */
  lemma CompiledVal(w: World, a: Expr, c: seq<Instr>, k: Kind, base: nat, y0: Outcome, y: Outcome)
    requires Compiled(w, a, c, k, [], [], base, NO_REG, y0, y)
    ensures y0.Fall? ==> y.Fall? && Same(y0.r, y.r, base, NO_REG) && Shape(c, k) && Produced(w, c, k, y.r) == Eval(w, a, y0.r)
    ensures y0.Exit? ==> y == y0
  {
    hide Eval, Produced, Same, Shape;
  }

  lemma SameLess(a: Regs, b: Regs, base: nat, base1: nat)
    requires Same(a, b, base1, NO_REG) && base <= base1
    ensures Same(a, b, base, NO_REG)
  {
  }

  lemma StandsVal(w: World, c: seq<Instr>, k: Kind, o: Operand, r: Regs)
    requires Stands(k, o)
    ensures Shape(c, k) && OperandVal(o, r) == Produced(w, c, k, r)
  {
  }

  lemma StandsKept(k: Kind, o: Operand, a: Regs, b: Regs, base: nat)
    requires Stands(k, o) && Same(a, b, base, NO_REG) && base <= NO_REG && (k.KNonReloc? ==> k.reg < base)
    ensures OperandVal(o, a) == OperandVal(o, b)
  {
  }

  /** The first value stays at hand while the second is computed. */
  lemma Pair(w: World, entry: nat, s0: St, s1: St, s2: St, a: Expr, b: Expr, base: nat, base1: nat, e1: Exp,
        e2: Exp, o1: Operand, o2: Operand)
    requires Holding(w, entry, s0, s1, a, base, NO_REG, e1, [], [])
    requires Holding(w, entry, s1, s2, b, base1, NO_REG, e2, [], [])
    requires Stands(e1.k, o1) && Stands(e2.k, o2) && base <= base1 && Scoped(b, base) && (e1.k.KNonReloc? ==> e1.k.reg < base1)
    ensures Operands(w, entry, s0, s2, a, b, base, o1, o2)
  {
    hide Run, Eval, Ready, Compiled, Holding, AtHand, Stands, Frame;
    StandsPlain(e1.k, o1);
    StandsPlain(e2.k, o2);
    HeldParts(w, entry, s0, s1, a, base, e1);
    HeldParts(w, entry, s1, s2, b, base1, e2);
    FrameTrans(s0, s1, s2);
    forall r: Regs
      ensures AtHand(w, a, b, base, o1, o2, Run(w, s0.c, s0.pend, entry, r), Run(w, s2.c, s2.pend, entry, r))
    {
      PairOne(w, a, b, s1.c, e1.k, s2.c, e2.k, base, base1, o1, o2, Run(w, s0.c, s0.pend, entry, r), Run(w, s1.c, s1.pend, entry, r), Run(w, s2.c, s2.pend, entry, r));
    }
  }

  lemma StandsPlain(k: Kind, o: Operand)
    requires Stands(k, o)
    ensures !k.KReloc? && !k.KJmp?
  {
  }

  /** The constant as an expression of its own. */
  function ConstExpr(v: Val): (e: Expr)
    ensures forall w: World, r: Regs :: !v.Obj? ==> Eval(w, e, r) == v
    ensures forall n: nat :: Scoped(e, n)
  {
    match v
    case Nil => ENil
    case False => EFalse
    case True => ETrue
    case Int(i) => EInt(i)
    case Str(s) => EStr(s)
    case Obj(_) => ENil
  }

  /** Before its first instruction, a constant is described by itself. */
  lemma StartConst(w: World, entry: nat, s: St, base: nat, k: Kind, ast: Expr)
    requires Ready(s) && entry <= s.last && base <= NO_REG && IsConst(k) && forall r: Regs :: Eval(w, ast, r) == ConstVal(k)
    ensures Holding(w, entry, s, s, ast, base, NO_REG, Exp(k, NO_JUMP, NO_JUMP), [], [])
  {
    hide Run, Eval, Tidy;
    var e := Exp(k, NO_JUMP, NO_JUMP);
    assert s.c[..|s.c|] == s.c && Places([] + []) == {};
    ExitsAll(w, s, entry);
    forall r: Regs
      ensures Compiled(w, ast, s.c, k, [], [], base, NO_REG, Run(w, s.c, s.pend, entry, r), Run(w, s.c, s.pend, entry, r))
    {
    }
  }

  lemma ExitsAll(w: World, s: St, entry: nat)
    ensures forall r: Regs :: Run(w, s.c, s.pend, entry, r).Exit? ==> Run(w, s.c, s.pend, entry, r).p in s.pend
  {
    hide Run;
    forall r: Regs
      ensures Run(w, s.c, s.pend, entry, r).Exit? ==> Run(w, s.c, s.pend, entry, r).p in s.pend
    {
      ExitsPending(w, s.c, s.pend, entry, r);
    }
  }

  /** A leaf expression, before its first instruction. */
  lemma StartLeaf(w: World, entry: nat, s: St, base: nat, k: Kind, ast: Expr)
    requires Ready(s) && entry <= s.last && base <= NO_REG && !k.KReloc? && !k.KJmp?
    requires forall r: Regs :: Eval(w, ast, r) == Produced(w, s.c, k, r)
    ensures Holding(w, entry, s, s, ast, base, NO_REG, Exp(k, NO_JUMP, NO_JUMP), [], [])
  {
    hide Run, Eval, Tidy, Produced;
    var e := Exp(k, NO_JUMP, NO_JUMP);
    assert s.c[..|s.c|] == s.c && Places([] + []) == {};
    forall r: Regs
      ensures Compiled(w, ast, s.c, k, [], [], base, NO_REG, Run(w, s.c, s.pend, entry, r), Run(w, s.c, s.pend, entry, r))
    {
    }
  }

  lemma SkipOne(w: World, a: Expr, x: Expr, y: Expr, c1: seq<Instr>, k1: Kind, base: nat, base1: nat,
        o1: Operand, o2: Operand, y0: Outcome, y1: Outcome, y2: Outcome)
    requires Compiled(w, a, c1, k1, [], [], base, NO_REG, y0, y1) && AtHand(w, x, y, base1, o1, o2, y1, y2)
    requires base <= base1 <= NO_REG && Scoped(x, base) && Scoped(y, base) && IsConst(k1)
    ensures AtHand(w, x, y, base, o1, o2, y0, y2) && (y0.Fall? ==> Eval(w, a, y0.r) == ConstVal(k1))
  {
    hide Eval, OperandVal, Scoped, Same, Compiled, AtHand;
    CompiledVal(w, a, c1, k1, base, y0, y1);
    AtHandParts(w, x, y, base1, o1, o2, y1, y2);
    if y0.Fall? {
      SkipFall(w, x, y, base, base1, y0.r, y1.r, y2.r);
    }
    IsAtHand(w, x, y, base, o1, o2, y0, y2);
  }

  lemma AtHandParts(w: World, a: Expr, b: Expr, base: nat, o1: Operand, o2: Operand, y0: Outcome, y: Outcome)
    requires AtHand(w, a, b, base, o1, o2, y0, y)
    ensures y0.Fall? ==> y.Fall? && Same(y0.r, y.r, base, NO_REG) && OperandVal(o1, y.r) == Eval(w, a, y0.r) && OperandVal(o2, y.r) == Eval(w, b, y0.r)
    ensures y0.Exit? ==> y == y0
  {
    hide Eval, OperandVal, Same;
  }

  lemma SkipFall(w: World, x: Expr, y: Expr, base: nat, base1: nat, r0: Regs, r1: Regs, r2: Regs)
    requires Same(r0, r1, base, NO_REG) && Same(r1, r2, base1, NO_REG) && base <= base1 <= NO_REG
    requires Scoped(x, base) == true && Scoped(y, base) == true
    ensures Same(r0, r2, base, NO_REG) && Eval(w, x, r0) == Eval(w, x, r1) && Eval(w, y, r0) == Eval(w, y, r1)
  {
    hide Eval, Scoped, Same;
    EvalSame(w, x, r0, r1, base);
    EvalSame(w, y, r0, r1, base);
    SameLess(r1, r2, base, base1);
    SameTrans(r0, r1, r2, base, NO_REG);
  }

  /** A constant first operand, loaded only after the second one. */
  lemma PairLate(w: World, entry: nat, s0: St, s1: St, s2: St, a: Expr, b: Expr, v: Val, base: nat, base1: nat,
        e1: Exp, o1: Operand, o2: Operand)
    requires Holding(w, entry, s0, s1, a, base, NO_REG, e1, [], []) && IsConst(e1.k) && v == ConstVal(e1.k) && !v.Obj?
    requires Operands(w, entry, s1, s2, b, ConstExpr(v), base1, o2, o1) && base <= base1 && Scoped(b, base)
    ensures Operands(w, entry, s0, s2, a, b, base, o1, o2)
  {
    hide Run, Eval, Ready, Compiled, Holding, AtHand, Frame;
    HeldParts(w, entry, s0, s1, a, base, e1);
    FrameTrans(s0, s1, s2);
    forall r: Regs
      ensures AtHand(w, a, b, base, o1, o2, Run(w, s0.c, s0.pend, entry, r), Run(w, s2.c, s2.pend, entry, r))
    {
      var y0, y1, y2 := Run(w, s0.c, s0.pend, entry, r), Run(w, s1.c, s1.pend, entry, r), Run(w, s2.c, s2.pend, entry, r);
      SkipOne(w, a, b, ConstExpr(v), s1.c, e1.k, base, base1, o2, o1, y0, y1, y2);
      Swapped(w, a, b, v, base, o1, o2, y0, y2);
    }
  }

  lemma Swapped(w: World, a: Expr, b: Expr, v: Val, base: nat, o1: Operand, o2: Operand, y0: Outcome, y: Outcome)
    requires AtHand(w, b, ConstExpr(v), base, o2, o1, y0, y) && (y0.Fall? ==> Eval(w, a, y0.r) == v) && !v.Obj?
    ensures AtHand(w, a, b, base, o1, o2, y0, y)
  {
    hide Eval;
  }

  // ------------------------------------------------------------- comparisons

  /** The comparison `i` of operands `o1` and `o2` decides `op`, as long as the first is
      not an object if `plain` says so. */
  ghost predicate Means(w: World, i: Instr, op: CmpOp, o1: Operand, o2: Operand, plain: bool) {
    i.Compare? && forall r: Regs {:trigger Taken(w, i, r)} ::
      (plain ==> !OperandVal(o1, r).Obj?) ==> Taken(w, i, r) == Compares(w, op, OperandVal(o1, r), OperandVal(o2, r))
  }

  /** Wherever the code for `a` is started, its value is not an object. */
  ghost predicate NoObject(w: World, entry: nat, s0: St, a: Expr) {
    forall r: Regs {:trigger Run(w, s0.c, s0.pend, entry, r)} ::
      var y0 := Run(w, s0.c, s0.pend, entry, r); y0.Fall? ==> !Eval(w, a, y0.r).Obj?
  }

  lemma ConstNoObject(w: World, entry: nat, s0: St, s: St, a: Expr, base: nat, e: Exp)
    requires Holding(w, entry, s0, s, a, base, NO_REG, e, [], []) && IsConst(e.k) && !ConstVal(e.k).Obj?
    ensures NoObject(w, entry, s0, a)
  {
    hide Run, Eval, Ready, Compiled, Holding;
    HeldParts(w, entry, s0, s, a, base, e);
    forall r: Regs
      ensures Run(w, s0.c, s0.pend, entry, r).Fall? ==> !Eval(w, a, Run(w, s0.c, s0.pend, entry, r).r).Obj?
    {
      CompiledVal(w, a, s.c, e.k, base, Run(w, s0.c, s0.pend, entry, r), Run(w, s.c, s.pend, entry, r));
    }
  }

  lemma ComparedOne(w: World, c': seq<Instr>, a: Expr, b: Expr, base: nat, o1: Operand, o2: Operand, op: CmpOp,
        q: nat, plain: bool, y0: Outcome, y: Outcome)
    requires AtHand(w, a, b, base, o1, o2, y0, y) && Shape(c', KJmp(q)) && Means(w, c'[q - 1], op, o1, o2, plain)
    requires plain && y0.Fall? ==> !Eval(w, a, y0.r).Obj?
    ensures Compiled(w, ECmp(op, a, b), c', KJmp(q), [], [], base, NO_REG, y0, y)
  {
    AtHandParts(w, a, b, base, o1, o2, y0, y);
    hide AtHand, Same, Taken, OperandVal;
    if y0.Fall? {
      assert Eval(w, ECmp(op, a, b), y0.r) == Bool(Compares(w, op, Eval(w, a, y0.r), Eval(w, b, y0.r)));
      hide Eval;
      assert Taken(w, c'[q - 1], y.r) == Compares(w, op, OperandVal(o1, y.r), OperandVal(o2, y.r));
    }
  }

  /** A comparison and its jump after two operands describe the compared value. */
  lemma Compared(w: World, entry: nat, s0: St, s: St, a: Expr, b: Expr, base: nat, o1: Operand, o2: Operand,
        op: CmpOp, i: Instr, plain: bool)
    requires Operands(w, entry, s0, s, a, b, base, o1, o2) && Means(w, i, op, o1, o2, plain)
    requires plain ==> NoObject(w, entry, s0, a)
    ensures Holding(w, entry, s0, St(s.c + [i, Jmp(NO_JUMP)], s.pend, s.last), ECmp(op, a, b), base, NO_REG, Exp(KJmp(|s.c| + 1), NO_JUMP, NO_JUMP), [], [])
  {
    hide Run, Ready, Frame, Taken, Eval, AtHand, Compiled, Means;
    var c' := s.c + [i, Jmp(NO_JUMP)];
    var e := Exp(KJmp(|s.c| + 1), NO_JUMP, NO_JUMP);
    MeansCompare(w, i, op, o1, o2, plain);
    FrameAppend(s0, s, [i, Jmp(NO_JUMP)]);
    assert c'[..Core(c', e)] == s.c && c'[|s.c|] == i && Places([] + []) == {};
    forall r: Regs
      ensures Compiled(w, ECmp(op, a, b), c', e.k, [], [], base, NO_REG, Run(w, s0.c, s0.pend, entry, r), Run(w, s.c, s.pend, entry, r))
    {
      ComparedOne(w, c', a, b, base, o1, o2, op, |s.c| + 1, plain, Run(w, s0.c, s0.pend, entry, r), Run(w, s.c, s.pend, entry, r));
    }
    FrameSize(s0, s);
  }

  lemma MeansCompare(w: World, i: Instr, op: CmpOp, o1: Operand, o2: Operand, plain: bool)
    requires Means(w, i, op, o1, o2, plain)
    ensures i.Compare?
  {
  }

  lemma FrameSize(s0: St, s: St)
    requires Frame(s0, s)
    ensures |s0.c| <= |s.c| && s0.last <= s.last
  {
  }

  // ---------------------------------------------------------- `and` and `or`

  /** The logical operator that goes through when its first operand is `want`. */
  function Logical(want: bool, a: Expr, b: Expr): Expr {
    if want then EAnd(a, b) else EOr(a, b)
  }

  lemma LogicalOne(w: World, want: bool, a: Expr, b: Expr, c1: seq<Instr>, js: seq<nat>, c2: seq<Instr>,
        k: Kind, ts: seq<nat>, fs: seq<nat>, base: nat,
                   y0: Outcome, y1: Outcome, y2: Outcome)
    requires Gated(w, a, c1, js, base, want, y0, y1) && Compiled(w, b, c2, k, ts, fs, base, NO_REG, y1, y2)
    requires base <= NO_REG && Scoped(b, base) == true
    requires forall p :: p in js && 1 <= p < |c1| ==> p < |c2| && c2[p - 1] == c1[p - 1]
    ensures Compiled(w, Logical(want, a, b), c2, k, if want then ts else ts + js, if want then fs + js else fs, base, NO_REG, y0, y2)
  {
    if y0.Fall? {
      var v := Eval(w, a, y0.r);
      assert Eval(w, Logical(want, a, b), y0.r) == if Truthy(v) == want then Eval(w, b, y0.r) else v;
      hide Eval, Scoped, Shape, Produced;
      if Truthy(v) == want {
        EvalSame(w, b, y0.r, y1.r, base);
        if y2.Fall? || y2.Exit? {
          SameTrans(y0.r, y1.r, y2.r, base, NO_REG);
        }
      }
    }
  }

  lemma ListsJoined(s0: St, s1: St, s: St, e: Exp, e': Exp, ts: seq<nat>, fs: seq<nat>, js: seq<nat>,
        want: bool, c': seq<Instr>)
    requires Lists(s1, s, e, ts, fs) && s1.pend == s0.pend + Places(js) && s0.pend !! Places(js) && Unique(js)
    requires |s0.c| <= |s1.c|
    requires forall p :: p in js ==> |s0.c| < p
    requires if want then IsList(c', e'.t, ts) && IsList(c', e'.f, fs + js) else IsList(c', e'.t, ts + js) && IsList(c', e'.f, fs)
    ensures Lists(s0, St(c', s.pend, s.last), e', if want then ts else ts + js, if want then fs + js else fs)
  {
    hide IsList, Unique;
    var ts', fs' := if want then ts else ts + js, if want then fs + js else fs;
    assert Places(ts + fs) !! Places(js) by {
      assert s1.pend !! Places(ts + fs);
    }
    JoinedUnique(ts, fs, js, want);
    forall p | p in ts' + fs'
      ensures |s0.c| < p
    {
      assert p in ts + fs || p in js;
    }
  }

  lemma JoinedUnique(ts: seq<nat>, fs: seq<nat>, js: seq<nat>, want: bool)
    requires Unique(ts + fs) && Unique(js) && Places(ts + fs) !! Places(js)
    ensures var ts', fs' := if want then ts else ts + js, if want then fs + js else fs;
            Unique(ts' + fs') && Places(ts' + fs') == Places(ts + fs) + Places(js)
  {
    hide Unique;
    UniqueParts(ts, fs);
    if want {
      UniqueJoin(ts + fs, js);
      assert (ts + fs) + js == ts + (fs + js);
      UniqueParts(ts + fs, js);
    } else {
      UniqueJoin(fs + ts, js);
      UniqueParts(fs + ts, js);
      assert (fs + ts) + js == fs + (ts + js);
      UniqueParts(fs, ts + js);
      UniqueParts(ts + js, fs);
    }
  }

  /** Relinking inside the core changes no run of it, and nothing before the expression. */
  lemma RelinkCore(w: World, s1: St, s: St, n: nat, c': seq<Instr>, a: seq<nat>)
    requires n <= |s.c| && Ready(St(s.c[..n], s.pend, s.last)) && Relinked(s.c, c', a)
    requires a != [] ==> a[|a| - 1] in s.pend && |s1.c| < a[|a| - 1] < n
    ensures |c'| == |s.c| && Ready(St(c'[..n], s.pend, s.last))
    ensures forall q :: 0 <= q <= |s1.c| && q < |c'| ==> c'[q] == s.c[q]
    ensures forall q :: 0 <= q < |c'| && !s.c[q].Jmp? ==> c'[q] == s.c[q]
    ensures forall q :: n <= q < |c'| ==> c'[q] == s.c[q]
    ensures forall pc: nat, r: Regs :: Run(w, c'[..n], s.pend, pc, r) == Run(w, s.c[..n], s.pend, pc, r)
  {
    hide Run, Ready;
    if c' != s.c {
      var p := a[|a| - 1];
      var sj :| c' == s.c[p := Jmp(sj)];
      assert c'[..n] == s.c[..n][p := Jmp(sj)];
    }
    RelinkKeeps(w, St(s.c[..n], s.pend, s.last), c'[..n], a);
  }

  lemma KindKept(w: World, c: seq<Instr>, c': seq<Instr>, e: Exp)
    requires Shape(c, e.k) && |c'| == |c| && 0 <= Core(c, e) && forall q :: Core(c, e) <= q < |c| ==> c'[q] == c[q]
    ensures Shape(c', e.k) && forall r: Regs :: Produced(w, c', e.k, r) == Produced(w, c, e.k, r)
  {
  }

  lemma CompiledKept(w: World, ast: Expr, c: seq<Instr>, c': seq<Instr>, k: Kind, ts: seq<nat>, fs: seq<nat>,
        base: nat, y0: Outcome, y: Outcome)
    requires Compiled(w, ast, c, k, ts, fs, base, NO_REG, y0, y) && |c'| == |c| && Shape(c, k) && Shape(c', k)
    requires forall r: Regs :: Produced(w, c', k, r) == Produced(w, c, k, r)
    requires forall p :: p in ts + fs && 1 <= p < |c| ==> c'[p - 1] == c[p - 1]
    ensures Compiled(w, ast, c', k, ts, fs, base, NO_REG, y0, y)
  {
    hide Eval, Produced, Same;
    InBoth(ts, fs);
  }

  lemma OwnList(s1: St, s: St, e: Exp, ts: seq<nat>, fs: seq<nat>, want: bool)
    requires Lists(s1, s, e, ts, fs)
    ensures var a := if want then fs else ts; a != [] ==> a[|a| - 1] in s.pend && |s1.c| < a[|a| - 1] && a[|a| - 1] in ts + fs
    ensures Places(ts + fs) <= s.pend && Unique(ts + fs) && IsList(s.c, e.t, ts) && IsList(s.c, e.f, fs)
  {
    hide IsList;
    InBoth(ts, fs);
    var a := if want then fs else ts;
    if a != [] {
      assert a[|a| - 1] in Places(ts + fs);
    }
  }

  lemma FrameOut(s0: St, s1: St, s: St, c': seq<Instr>)
    requires Frame(s0, s1) && Frame(s1, s) && s0.pend <= s1.pend && |c'| == |s.c|
    requires forall q :: 0 <= q <= |s1.c| && q < |c'| ==> c'[q] == s.c[q]
    ensures Frame(s0, St(c', s.pend, s.last))
  {
    FrameTrans(s0, s1, s);
  }

  lemma LogicalRuns(w: World, entry: nat, s0: St, s1: St, s: St, c': seq<Instr>, want: bool, a: Expr, b: Expr,
        base: nat, j: int, js: seq<nat>, e: Exp, ts: seq<nat>, fs: seq<nat>)
    requires Gate(w, entry, s0, s1, a, base, want, j, js)
    requires Holding(w, entry, s1, s, b, base, NO_REG, e, ts, fs) && Scoped(b, base) == true
    requires |c'| == |s.c| && Shape(c', e.k) && forall r: Regs :: Produced(w, c', e.k, r) == Produced(w, s.c, e.k, r)
    requires forall pc: nat, r: Regs :: Run(w, c'[..Core(s.c, e)], s.pend, pc, r) == Run(w, s.c[..Core(s.c, e)], s.pend, pc, r)
    requires forall p :: p in ts + fs && 1 <= p < |s.c| ==> c'[p - 1] == s.c[p - 1]
    requires forall p :: p in js && 1 <= p < |s1.c| ==> p < |c'| && c'[p - 1] == s1.c[p - 1]
    ensures forall r: Regs {:trigger Run(w, s0.c, s0.pend, entry, r)} ::
              Compiled(w, Logical(want, a, b), c', e.k, if want then ts else ts + js, if want then fs + js else fs, base, NO_REG,
                       Run(w, s0.c, s0.pend, entry, r), Run(w, c'[..Core(s.c, e)], s.pend, entry, r))
  {
    hide Run, Eval, Ready, Compiled, Gated, Lists, IsList, Frame, Produced, Scoped, Logical;
    assert base <= NO_REG;
    forall r: Regs
      ensures Compiled(w, Logical(want, a, b), c', e.k, if want then ts else ts + js, if want then fs + js else fs, base, NO_REG,
                       Run(w, s0.c, s0.pend, entry, r), Run(w, c'[..Core(s.c, e)], s.pend, entry, r))
    {
      var y0, y1, y2 := Run(w, s0.c, s0.pend, entry, r), Run(w, s1.c, s1.pend, entry, r), Run(w, s.c[..Core(s.c, e)], s.pend, entry, r);
      CompiledKept(w, b, s.c, c', e.k, ts, fs, base, y1, y2);
      LogicalOne(w, want, a, b, s1.c, js, c', e.k, ts, fs, base, y0, y1, y2);
    }
  }

  /** The second operand of `and` or `or` has been compiled, and the lists joined. */
  lemma LogicalOk(w: World, entry: nat, s0: St, s1: St, s: St, c': seq<Instr>, want: bool, a: Expr, b: Expr,
        base: nat, j: int, js: seq<nat>, e: Exp, e': Exp, ts: seq<nat>, fs: seq<nat>)
    requires Gate(w, entry, s0, s1, a, base, want, j, js)
    requires Holding(w, entry, s1, s, b, base, NO_REG, e, ts, fs) && Scoped(b, base) == true
    requires Relinked(s.c, c', if want then fs else ts) && e'.k == e.k
    requires if want then IsList(c', e'.t, ts) && IsList(c', e'.f, fs + js) else IsList(c', e'.t, ts + js) && IsList(c', e'.f, fs)
    ensures Holding(w, entry, s0, St(c', s.pend, s.last), Logical(want, a, b), base, NO_REG, e', if want then ts else ts + js, if want then fs + js else fs)
  {
    hide Run, Eval, Compiled, Gated, IsList, Produced, Scoped, Shape;
    ListsInCore(w, entry, s1, s, b, base, NO_REG, e, ts, fs);
    OwnList(s1, s, e, ts, fs, want);
    var n := Core(s.c, e);
    RelinkCore(w, s1, s, n, c', if want then fs else ts);
    KindKept(w, s.c, c', e);
    FrameOut(s0, s1, s, c');
    FrameSize(s0, s1);
    hide Ready, Frame, Relinked;
    ListsJoined(s0, s1, s, e, e', ts, fs, js, want, c');
    GatePlaces(w, entry, s0, s1, a, base, want, j, js);
    forall p | p in ts + fs && 1 <= p < |s.c|
      ensures c'[p - 1] == s.c[p - 1]
    {
    }
    LogicalRuns(w, entry, s0, s1, s, c', want, a, b, base, j, js, e, ts, fs);
    assert Core(c', e') == n;
  }

  lemma GatePlaces(w: World, entry: nat, s0: St, s1: St, a: Expr, base: nat, want: bool, j: int, js: seq<nat>)
    requires Gate(w, entry, s0, s1, a, base, want, j, js)
    ensures forall p :: p in js ==> p in s1.pend && p < |s1.c| && s1.c[p].Jmp? && IsTest(s1.c[p - 1])
    ensures Ready(s1) && entry <= s1.last && IsList(s1.c, j, js)
  {
    hide Run, Gated, IsList, Tidy;
    forall p | p in js
      ensures p in s1.pend
    {
      assert p in Places(js);
    }
  }

  lemma ListsOfBoth(w: World, entry: nat, s0: St, s1: St, s: St, want: bool, a: Expr, b: Expr, base: nat,
        j: int, js: seq<nat>, e: Exp, ts: seq<nat>, fs: seq<nat>)
    requires Gate(w, entry, s0, s1, a, base, want, j, js) && Holding(w, entry, s1, s, b, base, NO_REG, e, ts, fs)
    ensures IsList(s.c, e.t, ts) && IsList(s.c, e.f, fs) && IsList(s.c, j, js) && Unique((if want then fs else ts) + js)
    ensures want ==> forall p :: p in ts ==> fs == [] || p != fs[|fs| - 1]
    ensures !want ==> forall p :: p in fs ==> ts == [] || p != ts[|ts| - 1]
  {
    GatePlaces(w, entry, s0, s1, a, base, want, j, js);
    OwnList(s1, s, e, ts, fs, want);
    hide Run, Compiled, Ready, IsList, Gated;
    ListKept(s1.c, s.c, j, js);
    UniqueParts(ts, fs);
    OtherPlaces(fs, ts);
    OtherPlaces(ts, fs);
    assert Places(ts + fs) !! Places(js) by {
      assert s1.pend !! Places(ts + fs);
      assert Places(js) <= s1.pend;
    }
    UniqueJoin(if want then fs else ts, js);
  }

  /** Append the jumps of the first operand to those of the second. */
  method JoinLogical(fs: FuncState, e0: Exp, want: bool, j: int, ghost s0: St, ghost s1: St, ghost a: Expr,
        ghost b: Expr, ghost base: nat, ghost js: seq<nat>, ghost ts: seq<nat>, ghost fls: seq<nat>)
      returns (e: Exp)
    requires !fs.fail && NilsInRange(fs.code) && Scoped(b, base) == true
    requires Gate(fs.world, fs.entry, s0, s1, a, base, want, j, js)
    requires Holding(fs.world, fs.entry, s1, Now(fs), b, base, NO_REG, e0, ts, fls)
    modifies fs`code, fs`fail
    ensures !fs.fail ==> NilsInRange(fs.code) && e.k == e0.k
    ensures !fs.fail ==> Holding(fs.world, fs.entry, s0, Now(fs), Logical(want, a, b), base, NO_REG, e, if want then ts else ts + js, if want then fls + js else fls)
    ensures |fs.code| <= |old(fs.code)|
    ensures |old(fs.code)| <= OFFSET_sJ ==> !fs.fail
  {
    hide Holding, Gate, Run, IsList, Relinked, Logical, Unique;
    ghost var s := Now(fs);
    ListsOfBoth(fs.world, fs.entry, s0, s1, s, want, a, b, base, j, js, e0, ts, fls);
    var l := fs.Concat(if want then e0.f else e0.t, j, if want then fls else ts, js);
    e := if want then e0.(f := l) else e0.(t := l);
    if !fs.fail {
      NilsRelinked(s.c, fs.code, if want then fls else ts);
      RelinkedOthers(s.c, fs.code, if want then fls else ts, if want then ts else fls);
      ListKept(s.c, fs.code, if want then e0.t else e0.f, if want then ts else fls);
      LogicalOk(fs.world, fs.entry, s0, s1, s, fs.code, want, a, b, base, j, js, e0, e, ts, fls);
    }
  }

  lemma RelinkedOthers(c: seq<Instr>, c': seq<Instr>, a: seq<nat>, b: seq<nat>)
    requires Relinked(c, c', a) && forall p :: p in b ==> a == [] || p != a[|a| - 1]
    ensures forall p :: p in b && p < |c| ==> p < |c'| && c'[p] == c[p]
  {
  }

  // ---------------------------------------------------- operands of comparisons

  const MAXINDEXRK: nat := 255

  /** A numeral that fits the operand of an instruction. */
  predicate FitsC(i: int) {
    -127 <= i <= 128
  }

  predicate IsSCNumber(e: Exp) {
    e.k.KInt? && !HasJumps(e) && FitsC(e.k.i)
  }

  predicate ToNumeral(e: Exp) {
    e.k.KInt? && !HasJumps(e)
  }

  /** A constant that is not an object, or a register. */
  predicate Ready1(k: Kind) {
    k.KNonReloc? || (IsConst(k) && !ConstVal(k).Obj?)
  }

  /** Make the expression a constant operand, if it is a constant with a small index. */
  method Exp2K(fs: FuncState, e0: Exp, ghost s0: St, ghost ast: Expr, ghost base: nat, ghost ts: seq<nat>,
        ghost fls: seq<nat>)
    returns (ok: bool, e: Exp)
    requires Holding(fs.world, fs.entry, s0, Now(fs), ast, base, NO_REG, e0, ts, fls) && (e0.k.KK? ==> !e0.k.v.Obj?)
    modifies fs`k
    ensures Holding(fs.world, fs.entry, s0, Now(fs), ast, base, NO_REG, e, ts, fls)
    ensures if ok then !HasJumps(e0) && IsConst(e0.k) && e == Exp(KK(ConstVal(e0.k)), e0.t, e0.f) && !e.k.v.Obj? else e == e0
  {
    hide Holding, Run;
    e := e0;
    ok := false;
    if !HasJumps(e) && IsConst(e.k) {
      var info := fs.AddK(ConstVal(e.k));
      if info <= MAXINDEXRK {
        e := e.(k := KK(ConstVal(e.k)));
        SameValue(fs.world, fs.entry, s0, Now(fs), ast, base, NO_REG, e0, ts, fls, e.k);
        ok := true;
      }
    }
  }

  /** Make the expression a constant operand or put it in a register. */
  method Exp2RK(fs: FuncState, e0: Exp, ghost s0: St, ghost ast: Expr, ghost base: nat, ghost ts: seq<nat>,
        ghost fls: seq<nat>)
    returns (e: Exp)
    requires !fs.fail && Holding(fs.world, fs.entry, s0, Now(fs), ast, base, NO_REG, e0, ts, fls)
    requires NilsInRange(fs.code)
    requires FreeOk(e0.k, base, fs.freereg, fs.nactvar) && fs.freereg <= NO_REG && (e0.k.KK? ==> !e0.k.v.Obj?)
    modifies fs`code, fs`pend, fs`fail, fs`lasttarget, fs`freereg, fs`k
    ensures !fs.fail ==> Holding(fs.world, fs.entry, s0, Now(fs), ast, base, NO_REG, e, [], []) && NilsInRange(fs.code)
    ensures !fs.fail ==> (e.k.KNonReloc? || e.k.KK?) && Ready1(e.k) && e.t == e.f == NO_JUMP && FreeOk(e.k, base, fs.freereg, fs.nactvar) && fs.freereg <= NO_REG
    ensures |fs.code| <= |old(fs.code)| + 7
    ensures base < MAX_FSTACK && |old(fs.code)| + 7 <= OFFSET_sJ ==> !fs.fail
  {
    hide Holding, Run;
    var ok;
    ok, e := Exp2K(fs, e0, s0, ast, base, ts, fls);
    if ok {
      ListsEmpty(fs.world, fs.entry, s0, Now(fs), ast, base, NO_REG, e, ts, fls);
      return;
    }
    e := Exp2AnyReg(fs, e, s0, ast, base, ts, fls);
  }

  /** The first operand of a comparison, before the second one is read. */
  method InfixCompare(fs: FuncState, op: CmpOp, e0: Exp, ghost s0: St, ghost ast: Expr, ghost base: nat,
        ghost ts: seq<nat>, ghost fls: seq<nat>)
    returns (e: Exp)
    requires !fs.fail && Holding(fs.world, fs.entry, s0, Now(fs), ast, base, NO_REG, e0, ts, fls)
    requires NilsInRange(fs.code)
    requires FreeOk(e0.k, base, fs.freereg, fs.nactvar) && fs.freereg <= NO_REG && (e0.k.KK? ==> !e0.k.v.Obj?)
    modifies fs`code, fs`pend, fs`fail, fs`lasttarget, fs`freereg, fs`k
    ensures !fs.fail ==> Holding(fs.world, fs.entry, s0, Now(fs), ast, base, NO_REG, e, [], []) && NilsInRange(fs.code)
    ensures !fs.fail ==> Ready1(e.k) && e.t == e.f == NO_JUMP && FreeOk(e.k, base, fs.freereg, fs.nactvar) && fs.freereg <= NO_REG
    ensures !fs.fail && !op.Eq? && !op.Ne? ==> e.k.KNonReloc? || IsSCNumber(e)
    ensures |fs.code| <= |old(fs.code)| + 8
    ensures base < MAX_FSTACK && |old(fs.code)| + 8 <= OFFSET_sJ ==> !fs.fail
  {
    hide Holding, Run;
    e := DischargeVars(fs, e0, s0, ast, base, ts, fls);
    FreeSame(e0.k, e.k, base, fs.freereg, fs.nactvar);
    if if op.Eq? || op.Ne? then ToNumeral(e) else IsSCNumber(e) {
      ListsEmpty(fs.world, fs.entry, s0, Now(fs), ast, base, NO_REG, e, ts, fls);
    } else if op.Eq? || op.Ne? {
      e := Exp2RK(fs, e, s0, ast, base, ts, fls);
    } else {
      e := Exp2AnyReg(fs, e, s0, ast, base, ts, fls);
    }
  }

  /** The state after the first operand `ea` and the second operand `eb`, which may still
      have jumps. */
  ghost predicate Both(w: World, entry: nat, s0: St, s1: St, s: St, a: Expr, b: Expr, base: nat, base1: nat,
        ea: Exp, eb: Exp, ts: seq<nat>, fs: seq<nat>) {
    && Holding(w, entry, s0, s1, a, base, NO_REG, ea, [], []) && Holding(w, entry, s1, s, b, base1, NO_REG, eb, ts, fs)
    && Ready1(ea.k) && base <= base1 <= NO_REG && Scoped(b, base) == true && (ea.k.KNonReloc? ==> ea.k.reg < base1) && (eb.k.KK? ==> !eb.k.v.Obj?)
  }

  /** The second operand put in a register. */
  method SecondToReg(fs: FuncState, ea: Exp, eb: Exp, oa: Operand, ghost s0: St, ghost s1: St, ghost a: Expr,
        ghost b: Expr, ghost base: nat, ghost base1: nat, ghost ts: seq<nat>, ghost fls: seq<nat>)
      returns (r: Reg)
    requires !fs.fail && Both(fs.world, fs.entry, s0, s1, Now(fs), a, b, base, base1, ea, eb, ts, fls)
    requires NilsInRange(fs.code)
    requires FreeOk(eb.k, base1, fs.freereg, fs.nactvar) && fs.freereg <= NO_REG && Stands(ea.k, oa)
    modifies fs`code, fs`pend, fs`fail, fs`lasttarget, fs`freereg
    ensures !fs.fail ==> Operands(fs.world, fs.entry, s0, Now(fs), a, b, base, oa, R(r)) && NilsInRange(fs.code)
    ensures !fs.fail ==> Holding(fs.world, fs.entry, s1, Now(fs), b, base1, NO_REG, Exp(KNonReloc(r), NO_JUMP, NO_JUMP), [], [])
    ensures !fs.fail ==> FreeOk(KNonReloc(r), base1, fs.freereg, fs.nactvar) && fs.freereg <= NO_REG
    ensures |fs.code| <= |old(fs.code)| + 7
    ensures base1 < MAX_FSTACK && |old(fs.code)| + 7 <= OFFSET_sJ ==> !fs.fail
  {
    hide Holding, Run, Operands, Scoped;
    var e := Exp2AnyReg(fs, eb, s1, b, base1, ts, fls);
    r := 0;
    if !fs.fail {
      r := e.k.reg;
      assert e == Exp(KNonReloc(r), NO_JUMP, NO_JUMP);
      Pair(fs.world, fs.entry, s0, s1, Now(fs), a, b, base, base1, ea, e, oa, R(r));
    }
  }

  /** A constant first operand loaded into a register, with the second one at hand. */
  method FirstToReg(fs: FuncState, ea: Exp, eb: Exp, ob: Operand, ghost s0: St, ghost s1: St, ghost a: Expr,
        ghost b: Expr, ghost base: nat, ghost base1: nat)
      returns (r: Reg)
    requires !fs.fail && Both(fs.world, fs.entry, s0, s1, Now(fs), a, b, base, base1, ea, eb, [], [])
    requires NilsInRange(fs.code)
    requires FreeOk(eb.k, base1, fs.freereg, fs.nactvar) && fs.freereg <= NO_REG && Stands(eb.k, ob) && (eb.k.KNonReloc? ==> eb.k.reg < fs.freereg)
    modifies fs`code, fs`pend, fs`fail, fs`lasttarget, fs`freereg
    ensures !fs.fail ==> Operands(fs.world, fs.entry, s0, Now(fs), a, b, base, R(r), ob) && NilsInRange(fs.code)
    ensures !fs.fail ==> if ea.k.KNonReloc? then r == ea.k.reg && fs.freereg == old(fs.freereg) else r == old(fs.freereg) && fs.freereg == r + 1 <= NO_REG
    ensures |fs.code| <= |old(fs.code)| + 6
    ensures (ea.k.KNonReloc? || old(fs.freereg) < MAX_FSTACK) && |old(fs.code)| + 6 <= OFFSET_sJ ==> !fs.fail
  {
    hide Holding, Run, Operands, Scoped, Eval, Ready;
    ghost var s2 := Now(fs);
    if ea.k.KNonReloc? {
      r := ea.k.reg;
      Pair(fs.world, fs.entry, s0, s1, s2, a, b, base, base1, ea, eb, R(r), ob);
      return;
    }
    ghost var v := ConstVal(ea.k);
    ghost var base2 := fs.freereg;
    StandsPlain(eb.k, ob);
    HeldParts(fs.world, fs.entry, s1, s2, b, base1, eb);
    HeldParts(fs.world, fs.entry, s0, s1, a, base, ea);
    ConstFacts(fs.world, v);
    StartConst(fs.world, fs.entry, s2, base2, ea.k, ConstExpr(v));
    var e := Exp2NextReg(fs, Exp(ea.k, NO_JUMP, NO_JUMP), s2, ConstExpr(v), base2, [], []);
    r := 0;
    if !fs.fail {
      r := e.k.reg;
      Pair(fs.world, fs.entry, s1, s2, Now(fs), b, ConstExpr(v), base1, base2, eb, e, ob, R(r));
      PairLate(fs.world, fs.entry, s0, s1, Now(fs), a, b, v, base, base1, ea, R(r), ob);
    }
  }

  lemma ConstFacts(w: World, v: Val)
    ensures !v.Obj? ==> forall r: Regs :: Eval(w, ConstExpr(v), r) == v
    ensures forall n: nat :: Scoped(ConstExpr(v), n)
  {
  }

  // ------------------------------------------------------------- comparisons

  /** The registers of two operands freed in the proper order; -1 stands for none. */
  method FreeExps(fs: FuncState, r1: int, r2: int, ghost base: nat)
    requires base >= fs.nactvar && (r1 == r2 ==> r1 < fs.nactvar)
    requires (r1 >= fs.nactvar ==> base <= r1) && (r2 >= fs.nactvar ==> base <= r2)
    requires fs.freereg == base + (if r1 >= fs.nactvar then 1 else 0) + (if r2 >= fs.nactvar then 1 else 0)
    requires (r1 >= fs.nactvar ==> r1 < fs.freereg) && (r2 >= fs.nactvar ==> r2 < fs.freereg)
    modifies fs`freereg
    ensures fs.freereg == base
  {
    var hi, lo := if r1 > r2 then r1 else r2, if r1 > r2 then r2 else r1;
    if hi >= 0 {
      fs.FreeReg(hi);
    }
    if lo >= 0 {
      fs.FreeReg(lo);
    }
  }

  /** Emit the comparison of two operands at hand; its jump waits for a target. */
  method CodeCompare(fs: FuncState, op: CmpOp, i: Instr, plain: bool, oa: Operand, ob: Operand, ghost s0: St,
        ghost a: Expr, ghost b: Expr, ghost base: nat)
    returns (e: Exp)
    requires !fs.fail && Operands(fs.world, fs.entry, s0, Now(fs), a, b, base, oa, ob) && NilsInRange(fs.code)
    requires Means(fs.world, i, op, oa, ob, plain) && (plain ==> NoObject(fs.world, fs.entry, s0, a))
    modifies fs`code
    ensures Holding(fs.world, fs.entry, s0, Now(fs), ECmp(op, a, b), base, NO_REG, e, [], []) && NilsInRange(fs.code)
    ensures e.k.KJmp? && e.t == e.f == NO_JUMP
    ensures |fs.code| <= |old(fs.code)| + 2
  {
    hide Holding, Operands, Run, Means, NoObject;
    MeansCompare(fs.world, i, op, oa, ob, plain);
    Compared(fs.world, fs.entry, s0, Now(fs), a, b, base, oa, ob, op, i, plain);
    NilsCut(fs.code, |fs.code|, i, Jmp(NO_JUMP));
    assert fs.code[..|fs.code|] == fs.code;
    var at := fs.Code(i);
    var pc := fs.Code(Jmp(NO_JUMP));
    assert fs.code == old(fs.code) + [i, Jmp(NO_JUMP)];
    e := Exp(KJmp(pc), NO_JUMP, NO_JUMP);
  }

  function Less(op: CmpOp): Relation {
    if op.Lt? || op.Gt? then LT else LE
  }

  function Greater(op: CmpOp): Relation {
    if op.Lt? || op.Gt? then GT else GE
  }

  lemma OrderMeans(w: World, op: CmpOp, x: Reg, y: Operand)
    requires !op.Eq? && !op.Ne?
    ensures op.Lt? || op.Le? ==> Means(w, Compare(Less(op), x, y, true), op, R(x), y, false) && Means(w, Compare(Greater(op), x, y, true), op, y, R(x), false)
    ensures op.Gt? || op.Ge? ==> Means(w, Compare(Less(op), x, y, true), op, y, R(x), false) && Means(w, Compare(Greater(op), x, y, true), op, R(x), y, false)
  {
    var i, j := Compare(Less(op), x, y, true), Compare(Greater(op), x, y, true);
    forall r: Regs
      ensures op.Lt? || op.Le? ==> Taken(w, i, r) == Compares(w, op, r[x], OperandVal(y, r)) && Taken(w, j, r) == Compares(w, op, OperandVal(y, r), r[x])
      ensures op.Gt? || op.Ge? ==> Taken(w, i, r) == Compares(w, op, OperandVal(y, r), r[x]) && Taken(w, j, r) == Compares(w, op, r[x], OperandVal(y, r))
    {
    }
  }

  lemma EqMeans(w: World, op: CmpOp, x: Reg, y: Operand)
    requires (op.Eq? || op.Ne?) && PlainEquality(w)
    ensures Means(w, Compare(EQ, x, y, op.Eq?), op, R(x), y, false)
    ensures Means(w, Compare(EQ, x, y, op.Eq?), op, y, R(x), true)
  {
    var i := Compare(EQ, x, y, op.Eq?);
    forall r: Regs
      ensures Taken(w, i, r) == Compares(w, op, r[x], OperandVal(y, r))
      ensures !OperandVal(y, r).Obj? ==> Taken(w, i, r) == Compares(w, op, OperandVal(y, r), r[x])
    {
    }
  }

  lemma BothEmpty(w: World, entry: nat, s0: St, s1: St, s: St, a: Expr, b: Expr, base: nat, base1: nat, ea: Exp,
        eb: Exp, ts: seq<nat>, fs: seq<nat>)
    requires Both(w, entry, s0, s1, s, a, b, base, base1, ea, eb, ts, fs) && !HasJumps(eb)
    ensures ts == [] && fs == [] && eb.t == eb.f == NO_JUMP
  {
    hide Run, Compiled, Ready, Frame, Scoped, Holding;
    ListsEmpty(w, entry, s1, s, b, base1, NO_REG, eb, ts, fs);
  }

  /** Order comparisons. `a > b` is compiled as `b < a`; a small numeral is an immediate. */
  method CodeOrder(fs: FuncState, op: CmpOp, ea: Exp, eb: Exp, ghost s0: St, ghost s1: St, ghost a: Expr,
        ghost b: Expr, ghost base: nat, ghost base1: nat, ghost ts: seq<nat>, ghost fls: seq<nat>)
      returns (e: Exp)
    requires !fs.fail && Both(fs.world, fs.entry, s0, s1, Now(fs), a, b, base, base1, ea, eb, ts, fls)
    requires NilsInRange(fs.code)
    requires FreeOk(ea.k, base, base1, fs.nactvar) && FreeOk(eb.k, base1, fs.freereg, fs.nactvar)
    requires fs.freereg <= NO_REG
    requires !op.Eq? && !op.Ne? && (ea.k.KNonReloc? || IsSCNumber(ea))
    modifies fs`code, fs`pend, fs`fail, fs`lasttarget, fs`freereg
    ensures !fs.fail ==> Holding(fs.world, fs.entry, s0, Now(fs), ECmp(op, a, b), base, NO_REG, e, [], []) && NilsInRange(fs.code)
    ensures !fs.fail ==> e.k.KJmp? && e.t == e.f == NO_JUMP && fs.freereg == base
    ensures |fs.code| <= |old(fs.code)| + 9
    ensures base + 1 < MAX_FSTACK && |old(fs.code)| + 9 <= OFFSET_sJ ==> !fs.fail
  {
    hide Holding, Operands, Run, Means, Both;
    var swapped := op.Gt? || op.Ge?;
    var oa, ob := I(0), I(0);
    var ra: int, rb: int := -1, -1;
    if IsSCNumber(eb) && (!swapped || !IsSCNumber(ea)) {
      BothEmpty(fs.world, fs.entry, s0, s1, Now(fs), a, b, base, base1, ea, eb, ts, fls);
      ob := I(eb.k.i);
      var r := FirstToReg(fs, ea, eb, ob, s0, s1, a, b, base, base1);
      oa, ra := R(r), r;
    } else {
      oa := if IsSCNumber(ea) then I(ea.k.i) else R(ea.k.reg);
      ra := if ea.k.KNonReloc? then ea.k.reg else -1;
      var r := SecondToReg(fs, ea, eb, oa, s0, s1, a, b, base, base1, ts, fls);
      ob, rb := R(r), r;
    }
    e := eb;
    if fs.fail {
      return;
    }
    var i;
    if swapped {
      OrderMeans(fs.world, op, if rb >= 0 then ob.r else oa.r, if rb >= 0 then oa else ob);
      i := if rb >= 0 then Compare(Less(op), ob.r, oa, true) else Compare(Greater(op), oa.r, ob, true);
    } else if IsSCNumber(eb) || !IsSCNumber(ea) {
      OrderMeans(fs.world, op, oa.r, ob);
      i := Compare(Less(op), oa.r, ob, true);
    } else {
      OrderMeans(fs.world, op, ob.r, oa);
      i := Compare(Greater(op), ob.r, oa, true);
    }
    FreeExps(fs, ra, rb, base);
    e := CodeCompare(fs, op, i, false, oa, ob, s0, a, b, base);
  }

  lemma KeepsSecond(w: World, entry: nat, s0: St, s1: St, s: St, s': St, a: Expr, b: Expr, base: nat,
        base1: nat, ea: Exp, eb: Exp, eb': Exp, ts: seq<nat>, fs: seq<nat>)
    requires Both(w, entry, s0, s1, s, a, b, base, base1, ea, eb, ts, fs) && Holding(w, entry, s1, s', b, base1, NO_REG, eb', [], []) && (eb'.k.KK? ==> !eb'.k.v.Obj?)
    ensures Both(w, entry, s0, s1, s', a, b, base, base1, ea, eb', [], [])
  {
    hide Holding;
  }

  lemma BothParts(w: World, entry: nat, s0: St, s1: St, s: St, a: Expr, b: Expr, base: nat, base1: nat, ea: Exp,
        eb: Exp, ts: seq<nat>, fs: seq<nat>)
    requires Both(w, entry, s0, s1, s, a, b, base, base1, ea, eb, ts, fs)
    ensures Holding(w, entry, s0, s1, a, base, NO_REG, ea, [], [])
    ensures Holding(w, entry, s1, s, b, base1, NO_REG, eb, ts, fs)
    ensures Ready1(ea.k) && (eb.k.KK? ==> !eb.k.v.Obj?) && base <= base1 <= NO_REG
  {
    hide Holding, Scoped;
  }

  /** Equality. A constant goes second; if it has no operand form, it gets a register. */
  method CodeEq(fs: FuncState, op: CmpOp, ea: Exp, eb: Exp, ghost s0: St, ghost s1: St, ghost a: Expr,
        ghost b: Expr, ghost base: nat, ghost base1: nat, ghost ts: seq<nat>, ghost fls: seq<nat>)
      returns (e: Exp)
    requires !fs.fail && Both(fs.world, fs.entry, s0, s1, Now(fs), a, b, base, base1, ea, eb, ts, fls)
    requires NilsInRange(fs.code) && PlainEquality(fs.world)
    requires FreeOk(ea.k, base, base1, fs.nactvar) && FreeOk(eb.k, base1, fs.freereg, fs.nactvar)
    requires fs.freereg <= NO_REG
    requires (op.Eq? || op.Ne?) && ea.t == ea.f == NO_JUMP
    modifies fs`code, fs`pend, fs`fail, fs`lasttarget, fs`freereg, fs`k
    ensures !fs.fail ==> Holding(fs.world, fs.entry, s0, Now(fs), ECmp(op, a, b), base, NO_REG, e, [], []) && NilsInRange(fs.code)
    ensures !fs.fail ==> e.k.KJmp? && e.t == e.f == NO_JUMP && fs.freereg == base
    ensures |fs.code| <= |old(fs.code)| + 15
    ensures base + 1 < MAX_FSTACK && |old(fs.code)| + 15 <= OFFSET_sJ ==> !fs.fail
  {
    hide Holding, Operands, Run, Means, Both, NoObject, PlainEquality;
    BothParts(fs.world, fs.entry, s0, s1, Now(fs), a, b, base, base1, ea, eb, ts, fls);
    if ea.k.KNonReloc? {
      e := CodeEqReg(fs, op, ea, eb, s0, s1, a, b, base, base1, ts, fls);
    } else {
      e := CodeEqConst(fs, op, ea, eb, s0, s1, a, b, base, base1, ts, fls);
    }
  }

  /** The first operand is in a register. */
  method CodeEqReg(fs: FuncState, op: CmpOp, ea: Exp, eb: Exp, ghost s0: St, ghost s1: St, ghost a: Expr,
        ghost b: Expr, ghost base: nat, ghost base1: nat, ghost ts: seq<nat>, ghost fls: seq<nat>)
      returns (e: Exp)
    requires !fs.fail && Both(fs.world, fs.entry, s0, s1, Now(fs), a, b, base, base1, ea, eb, ts, fls)
    requires NilsInRange(fs.code) && PlainEquality(fs.world)
    requires FreeOk(ea.k, base, base1, fs.nactvar) && FreeOk(eb.k, base1, fs.freereg, fs.nactvar)
    requires fs.freereg <= NO_REG
    requires (op.Eq? || op.Ne?) && ea.k.KNonReloc?
    modifies fs`code, fs`pend, fs`fail, fs`lasttarget, fs`freereg, fs`k
    ensures !fs.fail ==> Holding(fs.world, fs.entry, s0, Now(fs), ECmp(op, a, b), base, NO_REG, e, [], []) && NilsInRange(fs.code)
    ensures !fs.fail ==> e.k.KJmp? && e.t == e.f == NO_JUMP && fs.freereg == base
    ensures |fs.code| <= |old(fs.code)| + 15
    ensures base + 1 < MAX_FSTACK && |old(fs.code)| + 15 <= OFFSET_sJ ==> !fs.fail
  {
    hide Holding, Operands, Run, Means, Both, NoObject, PlainEquality;
    BothParts(fs.world, fs.entry, s0, s1, Now(fs), a, b, base, base1, ea, eb, ts, fls);
    ghost var s := Now(fs);
    var ob;
    var rb: int := -1;
    e := eb;
    if IsSCNumber(eb) {
      BothEmpty(fs.world, fs.entry, s0, s1, s, a, b, base, base1, ea, eb, ts, fls);
      ob := I(eb.k.i);
    } else {
      e := Exp2RK(fs, eb, s1, b, base1, ts, fls);
      if fs.fail {
        return;
      }
      KeepsSecond(fs.world, fs.entry, s0, s1, s, Now(fs), a, b, base, base1, ea, eb, e, ts, fls);
      ob := if e.k.KK? then K(e.k.v) else R(e.k.reg);
      rb := if e.k.KK? then -1 else e.k.reg;
    }
    var ra := FirstToReg(fs, ea, e, ob, s0, s1, a, b, base, base1);
    if fs.fail {
      return;
    }
    FreeExps(fs, ra, rb, base);
    EqMeans(fs.world, op, ra, ob);
    e := CodeCompare(fs, op, Compare(EQ, ra, ob, op.Eq?), false, R(ra), ob, s0, a, b, base);
  }

  /** The first operand is a constant: the operands change places. */
  method CodeEqConst(fs: FuncState, op: CmpOp, ea: Exp, eb: Exp, ghost s0: St, ghost s1: St, ghost a: Expr,
        ghost b: Expr, ghost base: nat, ghost base1: nat, ghost ts: seq<nat>, ghost fls: seq<nat>)
      returns (e: Exp)
    requires !fs.fail && Both(fs.world, fs.entry, s0, s1, Now(fs), a, b, base, base1, ea, eb, ts, fls)
    requires NilsInRange(fs.code) && PlainEquality(fs.world)
    requires FreeOk(ea.k, base, base1, fs.nactvar) && FreeOk(eb.k, base1, fs.freereg, fs.nactvar)
    requires fs.freereg <= NO_REG
    requires (op.Eq? || op.Ne?) && !ea.k.KNonReloc? && ea.t == ea.f == NO_JUMP
    modifies fs`code, fs`pend, fs`fail, fs`lasttarget, fs`freereg, fs`k
    ensures !fs.fail ==> Holding(fs.world, fs.entry, s0, Now(fs), ECmp(op, a, b), base, NO_REG, e, [], []) && NilsInRange(fs.code)
    ensures !fs.fail ==> e.k.KJmp? && e.t == e.f == NO_JUMP && fs.freereg == base
    ensures |fs.code| <= |old(fs.code)| + 15
    ensures base + 1 < MAX_FSTACK && |old(fs.code)| + 15 <= OFFSET_sJ ==> !fs.fail
  {
    hide Holding, Operands, Run, Means, Both, NoObject, PlainEquality;
    ghost var s := Now(fs);
    BothParts(fs.world, fs.entry, s0, s1, s, a, b, base, base1, ea, eb, ts, fls);
    ConstNoObject(fs.world, fs.entry, s0, s1, a, base, ea);
    var oa := if IsSCNumber(ea) then I(ea.k.i) else K(ConstVal(ea.k));
    var rb := SecondToReg(fs, ea, eb, oa, s0, s1, a, b, base, base1, ts, fls);
    e := Exp(KNonReloc(rb), NO_JUMP, NO_JUMP);
    if fs.fail {
      return;
    }
    var ra: int := -1;
    if !IsSCNumber(ea) {
      var info := fs.AddK(ConstVal(ea.k));
      if info > MAXINDEXRK {
        KeepsSecond(fs.world, fs.entry, s0, s1, s, Now(fs), a, b, base, base1, ea, eb, e, ts, fls);
        var r := FirstToReg(fs, ea, e, R(rb), s0, s1, a, b, base, base1);
        oa, ra := R(r), r;
        if fs.fail {
          return;
        }
      }
    }
    FreeExps(fs, rb, ra, base);
    EqMeans(fs.world, op, rb, oa);
    e := CodeCompare(fs, op, Compare(EQ, rb, oa, op.Eq?), true, oa, R(rb), s0, a, b, base);
  }

  // ------------------------------------------------------- whole expressions

  /** How many registers above those in use the code of an expression may take. */
  function Need(e: Expr): nat {
    match e
    case EAnd(a, b) => Most(1, Most(Need(a), Need(b)))
    case EOr(a, b) => Most(1, Most(Need(a), Need(b)))
    case ENot(a) => Most(1, Need(a))
    case ECmp(_, a, b) => Most(2, Most(Need(a), Need(b) + 1))
    case _ => 0
  }

  function Most(x: nat, y: nat): nat {
    if x > y then x else y
  }

  /** A bound on the number of its instructions. */
  function Cost(e: Expr): nat {
    match e
    case EAnd(a, b) => Cost(a) + Cost(b) + 6
    case EOr(a, b) => Cost(a) + Cost(b) + 6
    case ENot(a) => Cost(a) + 4
    case ECmp(_, a, b) => Cost(a) + Cost(b) + 24
    case _ => 0
  }

  function Operators(e: Expr): nat {
    match e
    case EAnd(a, b) => Operators(a) + Operators(b) + 1
    case EOr(a, b) => Operators(a) + Operators(b) + 1
    case ENot(a) => Operators(a) + 1
    case ECmp(_, a, b) => Operators(a) + Operators(b) + 1
    case _ => 0
  }

  /** Neither registers nor instructions grow faster than the expression. */
  lemma {:induction false} Linear(e: Expr)
    ensures Need(e) <= Operators(e) + 1 && Cost(e) <= 24 * Operators(e)
    ensures Operators(e) == 0 ==> Need(e) == 0
  {
    match e
    case EAnd(a, b) => Linear(a); Linear(b);
    case EOr(a, b) => Linear(a); Linear(b);
    case ENot(a) => Linear(a);
    case ECmp(_, a, b) => Linear(a); Linear(b);
    case _ =>
  }

  /** Compile an expression: operands, operators, and the jumps between them. */
  method Expression(fs: FuncState, ast: Expr) returns (e: Exp, ghost ts: seq<nat>, ghost fls: seq<nat>)
    requires !fs.fail && Ready(Now(fs)) && fs.entry <= fs.lasttarget && NilsInRange(fs.code) && PlainEquality(fs.world)
    requires Scoped(ast, fs.nactvar) == true && fs.nactvar <= fs.freereg <= NO_REG
    modifies fs`code, fs`pend, fs`fail, fs`lasttarget, fs`freereg, fs`k
    ensures !fs.fail ==> Holding(fs.world, fs.entry, old(Now(fs)), Now(fs), ast, old(fs.freereg), NO_REG, e, ts, fls) && NilsInRange(fs.code)
    ensures !fs.fail ==> FreeOk(e.k, old(fs.freereg), fs.freereg, fs.nactvar) && fs.freereg <= NO_REG && !e.k.KK?
    ensures |fs.code| <= |old(fs.code)| + Cost(ast)
    ensures old(fs.freereg) + Need(ast) <= MAX_FSTACK && |old(fs.code)| + Cost(ast) <= OFFSET_sJ ==> !fs.fail
    decreases ast, 1
  {
    hide Holding, Gate, Run, Ready, PlainEquality;
    ghost var s0, base := Now(fs), fs.freereg;
    ts, fls := [], [];
    match ast {
      case EAnd(a, b) =>
        e, ts, fls := Logic(fs, true, a, b, ast);
      case EOr(a, b) =>
        e, ts, fls := Logic(fs, false, a, b, ast);
      case ENot(a) =>
        e, ts, fls := Expression(fs, a);
        if fs.fail {
          return;
        }
        var e1 := DischargeVars(fs, e, s0, a, base, ts, fls);
        FreeSame(e.k, e1.k, base, fs.freereg, fs.nactvar);
        e := CodeNot(fs, e1, s0, a, base, ts, fls);
        ts, fls := fls, ts;
      case ECmp(op, a, b) =>
        e := Comparison(fs, op, a, b, ast);
      case _ =>
        var k := Leaf(ast);
        e := Exp(k, NO_JUMP, NO_JUMP);
        LeafValue(fs.world, fs.code, ast, fs.nactvar);
        ReadySize(s0);
        StartLeaf(fs.world, fs.entry, s0, base, k, ast);
    }
  }

  /** The description of a constant or a variable. */
  function Leaf(ast: Expr): Kind
    requires !ast.EAnd? && !ast.EOr? && !ast.ENot? && !ast.ECmp?
  {
    match ast
    case ENil => KNil
    case EFalse => KFalse
    case ETrue => KTrue
    case EInt(i) => KInt(i)
    case EStr(s) => KStr(s)
    case ELocal(r) => KLocal(r)
    case EUpval(u) => KUpval(u)
  }

  lemma LeafValue(w: World, c: seq<Instr>, ast: Expr, nact: nat)
    requires !ast.EAnd? && !ast.EOr? && !ast.ENot? && !ast.ECmp? && Scoped(ast, nact)
    ensures forall r: Regs :: Eval(w, ast, r) == Produced(w, c, Leaf(ast), r)
    ensures var k := Leaf(ast); !k.KReloc? && !k.KJmp? && !k.KNonReloc? && !k.KK? && (k.KLocal? ==> k.r < nact)
  {
  }

  lemma GateReady(w: World, entry: nat, s0: St, s1: St, a: Expr, base: nat, want: bool, j: int, js: seq<nat>)
    requires Gate(w, entry, s0, s1, a, base, want, j, js)
    ensures Ready(s1) && entry <= s1.last
  {
    hide Run, Gated, IsList, Ready;
  }

  lemma LogicSize(a: Expr, b: Expr, e: Expr)
    requires e == EAnd(a, b) || e == EOr(a, b)
    ensures Cost(e) == Cost(a) + Cost(b) + 6 && Need(e) >= 1 && Need(e) >= Need(a) && Need(e) >= Need(b)
  {
  }

  lemma ComparisonSize(op: CmpOp, a: Expr, b: Expr)
    ensures var e := ECmp(op, a, b);
            Cost(e) == Cost(a) + Cost(b) + 24 && Need(e) >= 2 && Need(e) >= Need(a) && Need(e) >= Need(b) + 1
  {
  }

  /** `a and b` when `want`, `a or b` when not. */
  method Logic(fs: FuncState, want: bool, a: Expr, b: Expr, ghost ast: Expr)
    returns (e: Exp, ghost ts: seq<nat>, ghost fls: seq<nat>)
    requires !fs.fail && Ready(Now(fs)) && fs.entry <= fs.lasttarget && NilsInRange(fs.code) && PlainEquality(fs.world)
    requires ast == EAnd(a, b) || ast == EOr(a, b)
    requires Scoped(a, fs.nactvar) == true && Scoped(b, fs.nactvar) == true && fs.nactvar <= fs.freereg <= NO_REG
    modifies fs`code, fs`pend, fs`fail, fs`lasttarget, fs`freereg, fs`k
    ensures !fs.fail ==> Holding(fs.world, fs.entry, old(Now(fs)), Now(fs), Logical(want, a, b), old(fs.freereg), NO_REG, e, ts, fls) && NilsInRange(fs.code)
    ensures !fs.fail ==> FreeOk(e.k, old(fs.freereg), fs.freereg, fs.nactvar) && fs.freereg <= NO_REG && !e.k.KK?
    ensures |fs.code| <= |old(fs.code)| + Cost(ast)
    ensures old(fs.freereg) + Need(ast) <= MAX_FSTACK && |old(fs.code)| + Cost(ast) <= OFFSET_sJ ==> !fs.fail
    decreases ast, 0
  {
    hide Holding, Gate, Run, Ready, PlainEquality, Logical, Scoped, Need, Cost;
    LogicSize(a, b, ast);
    ghost var s0, base := Now(fs), fs.freereg;
    e, ts, fls := Expression(fs, a);
    if fs.fail {
      return;
    }
    var j;
    ghost var js;
    if want {
      j, js := GoIfTrue(fs, e, s0, a, base, ts, fls);
    } else {
      j, js := GoIfFalse(fs, e, s0, a, base, ts, fls);
    }
    if fs.fail {
      return;
    }
    ghost var s1 := Now(fs);
    GateReady(fs.world, fs.entry, s0, s1, a, base, want, j, js);
    var e1;
    e1, ts, fls := Expression(fs, b);
    if fs.fail {
      return;
    }
    e := DischargeVars(fs, e1, s1, b, base, ts, fls);
    FreeSame(e1.k, e.k, base, fs.freereg, fs.nactvar);
    ScopedMore(b, fs.nactvar, base);
    var e2 := JoinLogical(fs, e, want, j, s0, s1, a, b, base, js, ts, fls);
    e := e2;
    if want {
      fls := fls + js;
    } else {
      ts := ts + js;
    }
  }

  /** A comparison of two expressions. */
  method Comparison(fs: FuncState, op: CmpOp, a: Expr, b: Expr, ghost ast: Expr) returns (e: Exp)
    requires !fs.fail && Ready(Now(fs)) && fs.entry <= fs.lasttarget && NilsInRange(fs.code) && PlainEquality(fs.world)
    requires ast == ECmp(op, a, b)
    requires Scoped(a, fs.nactvar) == true && Scoped(b, fs.nactvar) == true && fs.nactvar <= fs.freereg <= NO_REG
    modifies fs`code, fs`pend, fs`fail, fs`lasttarget, fs`freereg, fs`k
    ensures !fs.fail ==> Holding(fs.world, fs.entry, old(Now(fs)), Now(fs), ECmp(op, a, b), old(fs.freereg), NO_REG, e, [], []) && NilsInRange(fs.code)
    ensures !fs.fail ==> FreeOk(e.k, old(fs.freereg), fs.freereg, fs.nactvar) && fs.freereg <= NO_REG && !e.k.KK?
    ensures |fs.code| <= |old(fs.code)| + Cost(ast)
    ensures old(fs.freereg) + Need(ast) <= MAX_FSTACK && |old(fs.code)| + Cost(ast) <= OFFSET_sJ ==> !fs.fail
    decreases ast, 0
  {
    hide Holding, Run, Ready, PlainEquality, Scoped, Need, Cost;
    ComparisonSize(op, a, b);
    ghost var s0, base := Now(fs), fs.freereg;
    ghost var ts, fls;
    var e1;
    e1, ts, fls := Expression(fs, a);
    e := e1;
    if fs.fail {
      return;
    }
    var ea := InfixCompare(fs, op, e1, s0, a, base, ts, fls);
    if fs.fail {
      return;
    }
    ghost var s1, base1 := Now(fs), fs.freereg;
    FirstHeld(fs.world, fs.entry, s0, s1, a, base, ea);
    var e2;
    e2, ts, fls := Expression(fs, b);
    if fs.fail {
      return;
    }
    var eb := DischargeVars(fs, e2, s1, b, base1, ts, fls);
    FreeSame(e2.k, eb.k, base1, fs.freereg, fs.nactvar);
    ScopedMore(b, fs.nactvar, base);
    if op.Eq? || op.Ne? {
      e := CodeEq(fs, op, ea, eb, s0, s1, a, b, base, base1, ts, fls);
    } else {
      e := CodeOrder(fs, op, ea, eb, s0, s1, a, b, base, base1, ts, fls);
    }
  }

  lemma FirstHeld(w: World, entry: nat, s0: St, s1: St, a: Expr, base: nat, ea: Exp)
    requires Holding(w, entry, s0, s1, a, base, NO_REG, ea, [], []) && Ready1(ea.k)
    ensures Ready(s1) && entry <= s1.last && base <= NO_REG
  {
    hide Run, Ready, Compiled, Holding;
    HeldParts(w, entry, s0, s1, a, base, ea);
  }

  // --------------------------------------------------------------- the result

  /** The run goes on to the end with the value of `ast` in `reg` and every other
      register in use as it was. */
  ghost predicate Stores(w: World, ast: Expr, base: nat, reg: Reg, y0: Outcome, y: Outcome) {
    match y0
    case Fall(r0) => y.Fall? && y.r[reg] == Eval(w, ast, r0) && Same(r0, y.r, base, reg)
    case Exit(_, _) => y == y0
    case Stuck => true
  }

  lemma HeldStores(w: World, entry: nat, s0: St, s: St, ast: Expr, base: nat, reg: Reg)
    requires Holding(w, entry, s0, s, ast, base, reg, Exp(KNonReloc(reg), NO_JUMP, NO_JUMP), [], [])
    ensures s.pend == s0.pend && Ready(s) && Frame(s0, s)
    ensures forall r: Regs {:trigger Run(w, s0.c, s0.pend, entry, r)} ::
              Stores(w, ast, base, reg, Run(w, s0.c, s0.pend, entry, r), Run(w, s.c, s.pend, entry, r))
  {
    hide Run, Eval, Ready, IsList, Frame;
    var e := Exp(KNonReloc(reg), NO_JUMP, NO_JUMP);
    assert s.c[..Core(s.c, e)] == s.c && Places([] + []) == {};
    forall r: Regs
      ensures Stores(w, ast, base, reg, Run(w, s0.c, s0.pend, entry, r), Run(w, s.c, s.pend, entry, r))
    {
      assert Compiled(w, ast, s.c, e.k, [], [], base, reg, Run(w, s0.c, s0.pend, entry, r), Run(w, s.c, s.pend, entry, r));
    }
  }

  /** Assign an expression to a local variable, behind any code and amid any pending
      jumps. */
  method StoreVar(fs: FuncState, ast: Expr, reg: Reg)
    requires !fs.fail && Ready(Now(fs)) && fs.entry <= fs.lasttarget && NilsInRange(fs.code) && PlainEquality(fs.world)
    requires Scoped(ast, fs.nactvar) == true && fs.nactvar <= fs.freereg <= NO_REG && reg < fs.nactvar
    modifies fs`code, fs`pend, fs`fail, fs`lasttarget, fs`freereg, fs`k
    ensures !fs.fail ==> fs.pend == old(fs.pend) && fs.freereg == old(fs.freereg) && Ready(Now(fs)) && Frame(old(Now(fs)), Now(fs))
    ensures !fs.fail ==> forall r: Regs ::
              Stores(fs.world, ast, old(fs.freereg), reg, old(Run(fs.world, fs.code, fs.pend, fs.entry, r)), Run(fs.world, fs.code, fs.pend, fs.entry, r))
    ensures |fs.code| <= |old(fs.code)| + Cost(ast) + 5
    ensures old(fs.freereg) + Need(ast) <= MAX_FSTACK && |old(fs.code)| + Cost(ast) + 5 <= OFFSET_sJ ==> !fs.fail
  {
    hide Holding, Run, Ready, PlainEquality, Scoped, Stores;
    ghost var s0, base := Now(fs), fs.freereg;
    var e;
    ghost var ts, fls;
    e, ts, fls := Expression(fs, ast);
    if fs.fail {
      return;
    }
    if e.k.KNonReloc? {
      fs.FreeReg(e.k.reg);
    }
    e := Exp2Reg(fs, e, reg, s0, ast, base, ts, fls);
    if !fs.fail {
      HeldStores(fs.world, fs.entry, s0, Now(fs), ast, base, reg);
    }
  }

  /** The code of one assignment on its own: run from its start, it ends with Lua's value
      of the expression in the variable, and the other variables untouched. The code is at most
      linear in the number of operators, and expressions of up to two hundred operators always
      compile beside fifty variables: the limits are those of registers and of jump distances. */
  method CompileAssignment(ast: Expr, nactvar: nat, reg: Reg, ghost w: World) returns (ok: bool, code: seq<Instr>)
    requires PlainEquality(w) && Scoped(ast, nactvar) == true && reg < nactvar <= NO_REG
    ensures ok ==> forall r: Regs :: Stores(w, ast, nactvar, reg, Fall(r), Run(w, code, {}, 0, r))
    ensures nactvar + Need(ast) <= MAX_FSTACK && Cost(ast) + 5 <= OFFSET_sJ ==> ok
    ensures nactvar + Operators(ast) < MAX_FSTACK ==> ok
    ensures |code| <= 24 * Operators(ast) + 5
  {
    Linear(ast);
    var fs := new FuncState(nactvar, w);
    assert Ready(Now(fs)) && NilsInRange(fs.code);
    assert forall r: Regs :: Run(w, [], {}, 0, r) == Fall(r);
    StoreVar(fs, ast, reg);
    ok, code := !fs.fail, fs.code;
  }
}
