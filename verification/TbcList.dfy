// The list of to-be-closed variables: a stack of levels, kept as 16-bit differences in the slots.
module TbcList {
  /** USHRT_MAX */
  const MAXDELTA: nat := 0xFFFF

  /** Dummy nodes lead from `at` down to `prev`, in steps of the greatest difference. */
  ghost predicate Dummies(delta: seq<nat>, at: nat, prev: nat)
    decreases at
  {
    at == prev || (prev + MAXDELTA <= at < |delta| && delta[at] == 0 && Dummies(delta, at - MAXDELTA, prev))
  }

  function Top(levels: seq<nat>): nat {
    if levels == [] then 0 else levels[0]
  }

  /** The slots of `levels`, topmost first, are linked down to the bottom of the stack. */
  ghost predicate Linked(delta: seq<nat>, levels: seq<nat>)
    decreases |levels|
  {
    levels == [] ||
    (&& Top(levels[1..]) < levels[0] < |delta|
     && 0 < delta[levels[0]] <= MAXDELTA && delta[levels[0]] <= levels[0]
     && Dummies(delta, levels[0] - delta[levels[0]], Top(levels[1..]))
     && Linked(delta, levels[1..]))
  }

  ghost predicate Agree(d: seq<nat>, d': seq<nat>, top: nat) {
    |d'| == |d| && forall i :: 0 <= i <= top && i < |d| ==> d'[i] == d[i]
  }

  lemma {:induction false} DummiesKept(d: seq<nat>, d': seq<nat>, at: nat, prev: nat)
    requires Dummies(d, at, prev) && Agree(d, d', at)
    ensures Dummies(d', at, prev)
    decreases at
  {
    if at != prev {
      DummiesKept(d, d', at - MAXDELTA, prev);
    }
  }

  /** What is above the top of the list does not matter. */
  lemma {:induction false} LinkedKept(d: seq<nat>, d': seq<nat>, levels: seq<nat>)
    requires Linked(d, levels) && Agree(d, d', Top(levels))
    ensures Linked(d', levels)
    decreases |levels|
  {
    if levels != [] {
      DummiesKept(d, d', levels[0] - d[levels[0]], Top(levels[1..]));
      LinkedKept(d, d', levels[1..]);
    }
  }

  lemma {:induction false} Descends(d: seq<nat>, levels: seq<nat>, i: nat, j: nat)
    requires Linked(d, levels) && i < j < |levels|
    ensures levels[i] > levels[j]
    decreases i + j
  {
    if i > 0 {
      Descends(d, levels[1..], i - 1, j - 1);
    } else if j > 1 {
      Descends(d, levels[1..], 0, j - 1);
    }
  }

  class Tbc {
    const delta: array<nat>
    var tbc: nat
    ghost var levels: seq<nat>

    ghost predicate Valid()
      reads this, delta
    {
      tbc == Top(levels) && Linked(delta[..], levels) && tbc < delta.Length
    }

    constructor (size: nat)
      requires size > 0
      ensures Valid() && levels == [] && delta.Length == size && fresh(delta)
    {
      delta := new nat[size];
      tbc, levels := 0, [];
    }

    /** luaF_newtbcupval, for a value that has to be closed. */
    method Push(level: nat)
      requires Valid() && tbc < level < delta.Length
      modifies this, delta
      ensures Valid() && levels == [level] + old(levels)
    {
      var prev := tbc;
      while level - tbc > MAXDELTA
        invariant prev <= tbc < level
        invariant Dummies(delta[..], tbc, prev) && Agree(old(delta[..]), delta[..], prev) && levels == old(levels)
        decreases level - tbc
      {
        ghost var d := delta[..];
        tbc := tbc + MAXDELTA;
        delta[tbc] := 0;
        DummiesKept(d, delta[..], tbc - MAXDELTA, prev);
      }
      ghost var d := delta[..];
      delta[level] := level - tbc;
      DummiesKept(d, delta[..], tbc, prev);
      LinkedKept(old(delta[..]), delta[..], levels);
      tbc := level;
      levels := [level] + levels;
    }

    /** poptbclist, with the level it takes off. */
    method Pop() returns (level: nat)
      requires Valid() && levels != []
      modifies this
      ensures Valid() && level == old(levels)[0] && levels == old(levels)[1..]
    {
      level := tbc;
      levels := levels[1..];
      tbc := tbc - delta[tbc];
      while tbc > 0 && delta[tbc] == 0
        invariant Dummies(delta[..], tbc, Top(levels)) && Linked(delta[..], levels) && tbc < delta.Length
        invariant levels == old(levels)[1..]
        decreases tbc
      {
        tbc := tbc - MAXDELTA;
      }
    }

    /** The loop of luaF_close: takes off exactly the levels from `level` up, topmost first. */
    method CloseFrom(level: nat) returns (closed: seq<nat>)
      requires Valid() && level > 0
      modifies this
      ensures Valid() && closed + levels == old(levels)
      ensures forall i :: 0 <= i < |closed| ==> closed[i] >= level
      ensures forall i :: 0 <= i < |levels| ==> levels[i] < level
    {
      closed := [];
      while tbc >= level
        invariant Valid() && closed + levels == old(levels)
        invariant forall i :: 0 <= i < |closed| ==> closed[i] >= level
        decreases |levels|
      {
        var l := Pop();
        closed := closed + [l];
      }
      forall i | 0 <= i < |levels|
        ensures levels[i] < level
      {
        if i > 0 { Descends(delta[..], levels, 0, i); }
      }
    }
  }
}
