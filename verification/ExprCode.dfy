// Expressions, how the code generator describes one that is being compiled, and what
// the code emitted for it must do.
module ExprCode {
  import opened Bytecode
  import opened JumpLists

  datatype CmpOp = Eq | Ne | Lt | Le | Gt | Ge

  datatype Expr =
    | ENil | EFalse | ETrue | EInt(i: int) | EStr(s: nat)
    | ELocal(r: Reg) | EUpval(u: nat)
    | EAnd(a: Expr, b: Expr) | EOr(a: Expr, b: Expr) | ENot(a: Expr)
    | ECmp(op: CmpOp, a: Expr, b: Expr)

  predicate Compares(w: World, op: CmpOp, x: Val, y: Val) {
    match op
    case Eq => w.eq(x, y)
    case Ne => !w.eq(x, y)
    case Lt => w.lt(x, y)
    case Le => w.le(x, y)
    case Gt => w.lt(y, x)
    case Ge => w.le(y, x)
  }

  /** The value that Lua gives to the expression. */
  function Eval(w: World, e: Expr, r: Regs): Val {
    match e
    case ENil => Nil
    case EFalse => False
    case ETrue => True
    case EInt(i) => Int(i)
    case EStr(s) => Str(s)
    case ELocal(x) => r[x]
    case EUpval(u) => w.up(u)
    case EAnd(a, b) => if Truthy(Eval(w, a, r)) then Eval(w, b, r) else Eval(w, a, r)
    case EOr(a, b) => if Truthy(Eval(w, a, r)) then Eval(w, a, r) else Eval(w, b, r)
    case ENot(a) => Bool(!Truthy(Eval(w, a, r)))
    case ECmp(op, a, b) => Bool(Compares(w, op, Eval(w, a, r), Eval(w, b, r)))
  }

  /** The locals of the expression are active variables. */
  predicate Scoped(e: Expr, nact: nat) {
    match e
    case ELocal(x) => x < nact
    case EAnd(a, b) => Scoped(a, nact) && Scoped(b, nact)
    case EOr(a, b) => Scoped(a, nact) && Scoped(b, nact)
    case ENot(a) => Scoped(a, nact)
    case ECmp(_, a, b) => Scoped(a, nact) && Scoped(b, nact)
    case _ => true
  }

  // --------------------------------------------------- expression descriptions

  datatype Kind =
    | KNil | KFalse | KTrue | KInt(i: int) | KStr(s: nat) | KK(v: Val)
    | KLocal(r: Reg) | KUpval(u: nat)
    | KNonReloc(reg: Reg) | KReloc(pc: nat) | KJmp(jmp: nat)

  /** `t` and `f` start the lists of jumps that leave when the value is true and false. */
  datatype Exp = Exp(k: Kind, t: int, f: int)

  predicate HasJumps(e: Exp) {
    e.t != e.f
  }

  predicate IsConst(k: Kind) {
    k.KNil? || k.KFalse? || k.KTrue? || k.KInt? || k.KStr? || k.KK?
  }

  function ConstVal(k: Kind): Val
    requires IsConst(k)
  {
    match k
    case KNil => Nil
    case KFalse => False
    case KTrue => True
    case KInt(i) => Int(i)
    case KStr(s) => Str(s)
    case KK(v) => v
  }

  /** The code, its pending jumps, and the last place marked as a jump target. */
  datatype St = St(c: seq<Instr>, pend: set<nat>, last: nat)

  /** The code without the instructions that yield the value of `e`. */
  function Core(c: seq<Instr>, e: Exp): (n: int)
    ensures n <= |c|
  {
    if e.k.KReloc? then |c| - 1 else if e.k.KJmp? then |c| - 2 else |c|
  }

  /** An unfinished value is at the very end of the code. */
  predicate Shape(c: seq<Instr>, k: Kind) {
    match k
    case KReloc(pc) => |c| >= 1 && pc == |c| - 1 && (c[pc].GetUpval? || c[pc].Not?)
    case KJmp(pc) => |c| >= 2 && pc == |c| - 1 && c[pc] == Jmp(NO_JUMP) && c[pc - 1].Compare?
    case _ => true
  }

  /** What an instruction that can put its result anywhere computes. */
  function Result(w: World, i: Instr, r: Regs): Val
    requires i.GetUpval? || i.Not?
  {
    match i
    case GetUpval(_, u) => w.up(u)
    case Not(_, b) => Bool(!Truthy(r[b]))
  }

  /** The value that `k` stands for, at the end of the core of the code. */
  function Produced(w: World, c: seq<Instr>, k: Kind, r: Regs): Val
    requires Shape(c, k)
  {
    match k
    case KLocal(x) => r[x]
    case KUpval(u) => w.up(u)
    case KNonReloc(x) => r[x]
    case KReloc(pc) => Result(w, c[pc], r)
    case KJmp(pc) => Bool(Taken(w, c[pc - 1], r))
    case _ => ConstVal(k)
  }

  /** Below `base`, the registers are the same, but for `ex`. */
  ghost predicate Same(a: Regs, b: Regs, base: nat, ex: Reg) {
    forall x :: 0 <= x < 256 && x < base && x != ex ==> a[x] == b[x]
  }

  lemma SameTrans(a: Regs, b: Regs, c: Regs, base: nat, ex: Reg)
    requires Same(a, b, base, ex) && Same(b, c, base, ex)
    ensures Same(a, c, base, ex)
  {
  }

  lemma {:induction false} EvalSame(w: World, e: Expr, a: Regs, b: Regs, base: nat)
    requires Scoped(e, base) == true && Same(a, b, base, NO_REG) && base <= NO_REG
    ensures Eval(w, e, a) == Eval(w, e, b)
  {
    match e
    case EAnd(x, y) =>
      EvalSame(w, x, a, b, base);
      EvalSame(w, y, a, b, base);
    case EOr(x, y) =>
      EvalSame(w, x, a, b, base);
      EvalSame(w, y, a, b, base);
    case ENot(x) => EvalSame(w, x, a, b, base);
    case ECmp(_, x, y) =>
      EvalSame(w, x, a, b, base);
      EvalSame(w, y, a, b, base);
    case _ =>
  }

  lemma {:induction false} ScopedMore(e: Expr, n: nat, m: nat)
    requires Scoped(e, n) && n <= m
    ensures Scoped(e, m)
  {
    match e
    case EAnd(x, y) =>
      ScopedMore(x, n, m);
      ScopedMore(y, n, m);
    case EOr(x, y) =>
      ScopedMore(x, n, m);
      ScopedMore(y, n, m);
    case ENot(x) => ScopedMore(x, n, m);
    case ECmp(_, x, y) =>
      ScopedMore(x, n, m);
      ScopedMore(y, n, m);
    case _ =>
  }

  // ------------------------------------------------------ what the code must do

  /** Leaving at `p` with the value `v`: a test that keeps a value has it in its register,
      another one leaves only with a boolean. */
  ghost predicate LeavesWith(c: seq<Instr>, p: nat, onTrue: bool, r: Regs, v: Val) {
    && 1 <= p < |c| && Truthy(v) == onTrue
    && if c[p - 1].TestSet? then r[c[p - 1].b] == v else v == Bool(onTrue)
  }

  /** Reached with registers `r0`, the code for an expression of value `v` ended in `y`. */
  ghost predicate Delivers(w: World, c: seq<Instr>, k: Kind, ts: seq<nat>, fs: seq<nat>, base: nat, ex: Reg,
        r0: Regs, v: Val, y: Outcome) {
    match y
    case Fall(r) => Same(r0, r, base, ex) && Shape(c, k) && Produced(w, c, k, r) == v
    case Exit(p, r) =>
      && Same(r0, r, base, NO_REG)
      && ((p in ts && LeavesWith(c, p, true, r, v)) || (p in fs && LeavesWith(c, p, false, r, v)))
    case Stuck => false
  }

  /** After the start `y0`, the run of the code for `ast` has come to `y`. */
  ghost predicate Compiled(w: World, ast: Expr, c: seq<Instr>, k: Kind, ts: seq<nat>, fs: seq<nat>, base: nat,
        ex: Reg, y0: Outcome, y: Outcome) {
    match y0
    case Fall(r0) => Delivers(w, c, k, ts, fs, base, ex, r0, Eval(w, ast, r0), y)
    case Exit(_, _) => y == y0
    case Stuck => true
  }

  /** Pending jumps follow their tests; resolved ones go to known labels. */
  ghost predicate Ready(s: St) {
    && Tidy(s.c, s.pend, s.last)
    && forall p :: p in s.pend ==> 1 <= p < |s.c| && s.c[p].Jmp? && IsTest(s.c[p - 1])
  }

  /** The pending jumps of `s0` and their tests are as they were. */
  ghost predicate Frame(s0: St, s: St) {
    && s0.last <= s.last && |s0.c| <= |s.c|
    && forall p :: p in s0.pend ==> 1 <= p < |s0.c| && s.c[p] == s0.c[p] && s.c[p - 1] == s0.c[p - 1]
  }

  /** The jump lists of an expression: disjoint, without cycles, and its own. */
  ghost predicate Lists(s0: St, s: St, e: Exp, ts: seq<nat>, fs: seq<nat>) {
    && IsList(s.c, e.t, ts) && IsList(s.c, e.f, fs) && Unique(ts + fs)
    && s.pend == s0.pend + Places(ts + fs) && s0.pend !! Places(ts + fs)
    && forall p :: p in ts + fs ==> |s0.c| < p
  }

  /** `e` describes the value of `ast`, with `s0` the state before its code. */
  ghost predicate Holding(w: World, entry: nat, s0: St, s: St, ast: Expr, base: nat, ex: Reg, e: Exp,
        ts: seq<nat>, fs: seq<nat>) {
    && Shape(s.c, e.k) && entry <= s0.last && |s0.c| <= Core(s.c, e) && base <= NO_REG
    && Ready(St(s.c[..Core(s.c, e)], s.pend, s.last))
    && Frame(s0, s) && Lists(s0, s, e, ts, fs)
    && forall r: Regs {:trigger Run(w, s0.c, s0.pend, entry, r)} ::
         Compiled(w, ast, s.c, e.k, ts, fs, base, ex, Run(w, s0.c, s0.pend, entry, r), Run(w, s.c[..Core(s.c, e)], s.pend, entry, r))
  }

  /** The code goes through when the value of `ast` is `want`, and leaves by the jumps of
      `js` when it is not. */
  ghost predicate Gated(w: World, ast: Expr, c: seq<Instr>, js: seq<nat>, base: nat, want: bool, y0: Outcome,
        y: Outcome) {
    match y0
    case Fall(r0) =>
      var v := Eval(w, ast, r0);
      if Truthy(v) == want then y.Fall? && Same(r0, y.r, base, NO_REG)
      else y.Exit? && y.p in js && Same(r0, y.r, base, NO_REG) && LeavesWith(c, y.p, !want, y.r, v)
    case Exit(_, _) => y == y0
    case Stuck => true
  }

  /** `j` starts the list of the jumps taken when `ast` is not `want`. */
  ghost predicate Gate(w: World, entry: nat, s0: St, s: St, ast: Expr, base: nat, want: bool, j: int, js: seq<nat>) {
    && entry <= s0.last && Ready(s) && Frame(s0, s) && base <= NO_REG
    && IsList(s.c, j, js) && Unique(js)
    && s.pend == s0.pend + Places(js) && s0.pend !! Places(js)
    && (forall p :: p in js ==> |s0.c| < p)
    && forall r: Regs {:trigger Run(w, s0.c, s0.pend, entry, r)} ::
         Gated(w, ast, s.c, js, base, want, Run(w, s0.c, s0.pend, entry, r), Run(w, s.c, s.pend, entry, r))
  }

  /** Which registers are in use: those below `base`, and the one that holds `k`. */
  predicate FreeOk(k: Kind, base: nat, freereg: nat, nact: nat) {
    nact <= base && (k.KLocal? ==> k.r < nact) &&
    if k.KNonReloc? && k.reg >= nact then k.reg == base && freereg == base + 1
    else freereg == base
  }
}
