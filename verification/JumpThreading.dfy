// The final pass over a function's code: every jump is sent directly to where a chain
// of jumps ends, in place, without changing what is executed.
module JumpThreading {

  /** A jump's operand is relative to the next instruction. */
  datatype Op<+T> = Jump(sj: int) | Other(op: T)

  const MAX_HOPS: nat := 100
  const OFFSET_sJ: int := 0xFF_FFFF
  const MAXARG_sJ: int := 0x1FF_FFFF

  function Hop<T>(c: seq<Op<T>>, pc: nat): int
    requires pc < |c| && c[pc].Jump?
  {
    pc + c[pc].sj + 1
  }

  ghost predicate InRange<T>(c: seq<Op<T>>) {
    forall pc :: 0 <= pc < |c| && c[pc].Jump? ==> 0 <= Hop(c, pc) < |c|
  }

  /** `n` jumps lead from `pc` to `q`. */
  ghost predicate Leads<T>(c: seq<Op<T>>, pc: nat, q: nat, n: nat)
    requires InRange(c)
    decreases n
  {
    if n == 0 then pc == q else pc < |c| && c[pc].Jump? && Leads(c, Hop(c, pc), q, n - 1)
  }

  /** Following jumps from `pc` leads to the instruction at `q`, which is not a jump. In a
      cycle of jumps there is no such place. */
  ghost predicate Lands<T>(c: seq<Op<T>>, pc: nat, q: nat)
    requires InRange(c)
  {
    q < |c| && !c[q].Jump? && exists n :: Leads(c, pc, q, n)
  }

  /** Both codes have the same instructions other than jumps, and land at the same ones. */
  ghost predicate Equivalent<T(!new)>(c: seq<Op<T>>, d: seq<Op<T>>)
    requires InRange(c) && InRange(d)
  {
    && |c| == |d|
    && (forall pc :: 0 <= pc < |c| ==> (c[pc].Jump? <==> d[pc].Jump?) && (!c[pc].Jump? ==> c[pc] == d[pc]))
    && (forall pc: nat, q: nat :: Lands(c, pc, q) <==> Lands(d, pc, q))
  }

  // ------------------------------------------------------------- one redirection

  function Redirected<T>(c: seq<Op<T>>, i: nat, t: nat): seq<Op<T>>
    requires i < |c|
  {
    c[i := Jump(t - (i + 1))]
  }

  lemma RedirectInRange<T>(c: seq<Op<T>>, i: nat, t: nat)
    requires InRange(c) && i < |c| && c[i].Jump? && t < |c|
    ensures InRange(Redirected(c, i, t))
  {
    var d := Redirected(c, i, t);
    forall pc | 0 <= pc < |d| && d[pc].Jump?
      ensures 0 <= Hop(d, pc) < |d|
    {
      assert pc != i ==> Hop(d, pc) == Hop(c, pc);
    }
  }

  lemma {:induction false} LeadsOn<T>(c: seq<Op<T>>, pc: nat, q: nat, r: nat, n: nat, m: nat)
    requires InRange(c) && Leads(c, pc, q, n) && Leads(c, q, r, m)
    ensures Leads(c, pc, r, n + m)
    decreases n
  {
    if n > 0 {
      LeadsOn(c, Hop(c, pc), q, r, n - 1, m);
    }
  }

  /** A chain of jumps that ends at an instruction passes every place that a shorter chain
      of jumps leads to. */
  lemma {:induction false} Passes<T>(c: seq<Op<T>>, pc: nat, q: nat, n: nat, t: nat, k: nat)
    requires InRange(c) && Leads(c, pc, q, n) && q < |c| && !c[q].Jump? && Leads(c, pc, t, k)
    ensures k <= n && Leads(c, t, q, n - k)
    decreases k
  {
    if k > 0 {
      Passes(c, Hop(c, pc), q, n - 1, t, k - 1);
    }
  }

  /** What the redirected code leads to, the code leads to. */
  lemma {:induction false} Backward<T>(c: seq<Op<T>>, i: nat, t: nat, k: nat, pc: nat, q: nat, m: nat) returns (n: nat)
    requires InRange(c) && i < |c| && c[i].Jump? && t < |c| && Leads(c, i, t, k)
    requires InRange(Redirected(c, i, t)) && Leads(Redirected(c, i, t), pc, q, m)
    ensures Leads(c, pc, q, n)
    decreases m
  {
    var d := Redirected(c, i, t);
    if m == 0 {
      n := 0;
    } else {
      n := Backward(c, i, t, k, Hop(d, pc), q, m - 1);
      if pc == i {
        LeadsOn(c, i, t, q, k, n);
        n := k + n;
      } else {
        n := n + 1;
      }
    }
  }

  /** What the code lands at, the redirected code lands at. */
  lemma {:induction false} Forward<T>(c: seq<Op<T>>, i: nat, t: nat, k: nat, pc: nat, q: nat, n: nat) returns (m: nat)
    requires InRange(c) && i < |c| && c[i].Jump? && t < |c| && k > 0 && Leads(c, i, t, k)
    requires InRange(Redirected(c, i, t)) && Leads(c, pc, q, n) && q < |c| && !c[q].Jump?
    ensures Leads(Redirected(c, i, t), pc, q, m) && m <= n
    decreases n
  {
    var d := Redirected(c, i, t);
    if n == 0 {
      m := 0;
    } else if pc == i {
      Passes(c, i, q, n, t, k);
      m := Forward(c, i, t, k, t, q, n - k);
      m := m + 1;
    } else {
      m := Forward(c, i, t, k, Hop(c, pc), q, n - 1);
      m := m + 1;
    }
  }

  /** Sending one jump to a place that a chain of jumps leads to changes nothing. */
  lemma RedirectKeeps<T(!new)>(c: seq<Op<T>>, i: nat, t: nat, k: nat)
    requires InRange(c) && i < |c| && c[i].Jump? && t < |c| && k > 0 && Leads(c, i, t, k)
    ensures InRange(Redirected(c, i, t)) && Equivalent(c, Redirected(c, i, t))
  {
    RedirectInRange(c, i, t);
    var d := Redirected(c, i, t);
    forall pc: nat, q: nat
      ensures Lands(c, pc, q) <==> Lands(d, pc, q)
    {
      if Lands(c, pc, q) {
        var n :| Leads(c, pc, q, n);
        var m := Forward(c, i, t, k, pc, q, n);
      }
      if Lands(d, pc, q) {
        var m :| Leads(d, pc, q, m);
        var n := Backward(c, i, t, k, pc, q, m);
      }
    }
  }

  /** No chain of jumps that ends at an instruction gets longer. */
  ghost predicate NoLonger<T(!new)>(c: seq<Op<T>>, d: seq<Op<T>>)
    requires InRange(c) && InRange(d)
  {
    forall pc: nat, q: nat, n: nat :: q < |c| && !c[q].Jump? && Leads(c, pc, q, n) ==> Within(d, pc, q, n)
  }

  ghost predicate Within<T>(c: seq<Op<T>>, pc: nat, q: nat, n: nat)
    requires InRange(c)
  {
    exists m: nat :: m <= n && Leads(c, pc, q, m)
  }

  lemma RedirectShortens<T(!new)>(c: seq<Op<T>>, i: nat, t: nat, k: nat)
    requires InRange(c) && i < |c| && c[i].Jump? && t < |c| && k > 0 && Leads(c, i, t, k)
    requires InRange(Redirected(c, i, t))
    ensures NoLonger(c, Redirected(c, i, t))
  {
    forall pc: nat, q: nat, n: nat | q < |c| && !c[q].Jump? && Leads(c, pc, q, n)
      ensures Within(Redirected(c, i, t), pc, q, n)
    {
      var m := Forward(c, i, t, k, pc, q, n);
    }
  }

  lemma NoLongerTrans<T(!new)>(c: seq<Op<T>>, d: seq<Op<T>>, e: seq<Op<T>>)
    requires InRange(c) && InRange(d) && InRange(e) && NoLonger(c, d) && NoLonger(d, e) && Equivalent(c, d)
    ensures NoLonger(c, e)
  {
    forall pc: nat, q: nat, n: nat | q < |c| && !c[q].Jump? && Leads(c, pc, q, n)
      ensures Within(e, pc, q, n)
    {
      assert Within(d, pc, q, n);
      var m: nat :| m <= n && Leads(d, pc, q, m);
      assert Within(e, pc, q, m);
      var l: nat :| l <= m && Leads(e, pc, q, l);
    }
  }

  /** The jump at `pc` goes straight to the instruction that at most MAX_HOPS jumps led to. */
  ghost predicate Straight<T(!new)>(c0: seq<Op<T>>, c: seq<Op<T>>, pc: nat)
    requires InRange(c0) && InRange(c) && pc < |c| == |c0|
  {
    forall q: nat, n: nat :: n <= MAX_HOPS && q < |c0| && !c0[q].Jump? && c[pc].Jump? && Leads(c0, pc, q, n) ==> Hop(c, pc) == q
  }

  lemma IsStraight<T(!new)>(c0: seq<Op<T>>, c: seq<Op<T>>, i: nat, t: nat, k: nat)
    requires InRange(c0) && InRange(c) && Equivalent(c0, c) && NoLonger(c0, c) && i < |c| && c[i].Jump?
    requires t < |c| && k > 0
    requires Leads(c, i, t, k) && k <= MAX_HOPS && (c[t].Jump? ==> k == MAX_HOPS) && InRange(Redirected(c, i, t))
    ensures Straight(c0, Redirected(c, i, t), i)
  {
    forall q: nat, n: nat | n <= MAX_HOPS && q < |c0| && !c0[q].Jump? && Leads(c0, i, q, n)
      ensures t == q
    {
      assert Within(c, i, q, n);
      var m: nat :| m <= n && Leads(c, i, q, m);
      Passes(c, i, q, m, t, k);
      if m == k {
        assert Leads(c, t, q, 0);
      }
    }
  }

  lemma EquivalentTrans<T(!new)>(c: seq<Op<T>>, d: seq<Op<T>>, e: seq<Op<T>>)
    requires InRange(c) && InRange(d) && InRange(e) && Equivalent(c, d) && Equivalent(d, e)
    ensures Equivalent(c, e)
  {
    hide Lands;
  }

  // -------------------------------------------------------------- the pass

  /** Where the jump at `i0` leads, after at most MAX_HOPS jumps. */
  method FinalTarget<T>(code: array<Op<T>>, i0: nat) returns (i: nat, ghost k: nat)
    requires InRange(code[..]) && i0 < code.Length
    ensures i < code.Length && Leads(code[..], i0, i, k) && k <= MAX_HOPS
    ensures code[i].Jump? ==> k == MAX_HOPS
    ensures code[i0].Jump? ==> k > 0
  {
    i, k := i0, 0;
    for count := 0 to MAX_HOPS
      invariant i < code.Length && k == count && Leads(code[..], i0, i, k)
      invariant i == i0 || k > 0
    {
      if !code[i].Jump? {
        break;
      }
      ghost var at := i;
      assert Leads(code[..], Hop(code[..], i), Hop(code[..], i), 0);
      LeadsOn(code[..], i0, i, Hop(code[..], i), k, 1);
      i := i + code[i].sj + 1;
      k := k + 1;
    }
  }

  /** Every jump of the function redirected, in place and in order: later jumps see the
      targets already given to earlier ones. `ok` is false if a target is out of reach. */
  method Finish<T(!new)>(code: array<Op<T>>) returns (ok: bool)
    requires InRange(code[..])
    modifies code
    ensures InRange(code[..]) && Equivalent(old(code[..]), code[..])
    ensures ok ==> forall pc :: 0 <= pc < code.Length ==> Straight(old(code[..]), code[..], pc)
    ensures code.Length <= OFFSET_sJ ==> ok
  {
    hide Equivalent, NoLonger, Straight, Leads;
    ghost var c0 := code[..];
    Same(c0);
    for i := 0 to code.Length
      invariant InRange(code[..]) && Equivalent(c0, code[..]) && NoLonger(c0, code[..])
      invariant forall pc :: 0 <= pc < i ==> Straight(c0, code[..], pc)
    {
      ghost var c := code[..];
      if code[i].Jump? {
        var target, k := FinalTarget(code, i);
        var offset := target - (i + 1);
        if !(-OFFSET_sJ <= offset <= MAXARG_sJ - OFFSET_sJ) {
          return false;
        }
        RedirectKeeps(c, i, target, k);
        RedirectShortens(c, i, target, k);
        IsStraight(c0, c, i, target, k);
        code[i] := Jump(offset);
        assert code[..] == Redirected(c, i, target);
        EquivalentTrans(c0, c, code[..]);
        NoLongerTrans(c0, c, code[..]);
        StayStraight(c0, c, code[..], i);
      } else {
        NoJump(c0, c, i);
      }
    }
    ok := true;
  }

  lemma Same<T(!new)>(c: seq<Op<T>>)
    requires InRange(c)
    ensures Equivalent(c, c) && NoLonger(c, c)
  {
    forall pc: nat, q: nat, n: nat | Leads(c, pc, q, n)
      ensures Within(c, pc, q, n)
    {
    }
  }

  lemma NoJump<T(!new)>(c0: seq<Op<T>>, c: seq<Op<T>>, i: nat)
    requires InRange(c0) && InRange(c) && |c0| == |c| && i < |c| && !c[i].Jump?
    ensures Straight(c0, c, i)
  {
  }

  lemma StayStraight<T(!new)>(c0: seq<Op<T>>, c: seq<Op<T>>, d: seq<Op<T>>, i: nat)
    requires InRange(c0) && InRange(c) && InRange(d) && |c0| == |c| == |d| && i < |c| && forall j :: 0 <= j < |c| && j != i ==> d[j] == c[j]
    ensures forall pc :: 0 <= pc < i && Straight(c0, c, pc) ==> Straight(c0, d, pc)
  {
  }

  // ------------------------------------------------------------- executions

  /** How the machine goes on after an instruction that is not a jump: the next place
      and state, or the end. A test whose jump is taken goes on at the jump. */
  type Machine<!T, !S> = (nat, T, S) -> Next<S>

  datatype Next<+S> = Go(pc: nat, s: S) | Stop

  /** From `pc` in state `s`, the machine executes the instructions at the places of
      `trace`, not counting jumps. */
  ghost predicate Executes<T(!new), S(!new)>(c: seq<Op<T>>, machine: Machine<T, S>, pc: nat, s: S, trace: seq<(nat, S)>)
    requires InRange(c)
    decreases |trace|
  {
    trace == [] ||
    (&& Lands(c, pc, trace[0].0) && trace[0].1 == s
     && match machine(trace[0].0, c[trace[0].0].op, s)
        case Go(next, s') => Executes(c, machine, next, s', trace[1..])
        case Stop => |trace| == 1)
  }

  /** Equivalent codes execute the same instructions in the same states, from any place. */
  lemma {:induction false} SameExecution<T(!new), S(!new)>(c: seq<Op<T>>, d: seq<Op<T>>, machine: Machine<T, S>,
        pc: nat, s: S, trace: seq<(nat, S)>)
    requires InRange(c) && InRange(d) && Equivalent(c, d)
    ensures Executes(c, machine, pc, s, trace) <==> Executes(d, machine, pc, s, trace)
    decreases |trace|
  {
    if trace != [] && Lands(c, pc, trace[0].0) {
      match machine(trace[0].0, c[trace[0].0].op, s)
      case Go(next, s') => SameExecution(c, d, machine, next, s', trace[1..]);
      case Stop =>
    }
  }
}
