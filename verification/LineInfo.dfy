// Line information: mostly one-byte differences, with absolute entries in between.
module LineInfo {

  type SByte = x: int | -0x80 <= x < 0x80

  const ABSLINEINFO: SByte := -0x80
  const LIMLINEDIFF: int := 0x80
  const MAXIWTHABS: nat := 128

  datatype AbsLineInfo = AbsLineInfo(pc: nat, line: int)

  /** The line before the first instruction's difference, or the line of the instruction before. */
  function LineBefore(linedefined: int, lines: seq<int>, pc: nat): int
    requires pc <= |lines|
  {
    if pc == 0 then linedefined else lines[pc - 1]
  }

  ghost predicate EncodedAt(linedefined: int, lines: seq<int>, info: seq<SByte>, pc: nat)
    requires pc < |lines| == |info|
  {
    info[pc] != ABSLINEINFO ==> lines[pc] == LineBefore(linedefined, lines, pc) + info[pc]
  }

  ghost predicate HasEntry(abs: seq<AbsLineInfo>, pc: nat) {
    exists i :: 0 <= i < |abs| && abs[i].pc == pc
  }

  ghost predicate EntryAt(lines: seq<int>, info: seq<SByte>, abs: seq<AbsLineInfo>, i: nat)
    requires i < |abs| && |lines| == |info|
  {
    && abs[i].pc < |lines| && info[abs[i].pc] == ABSLINEINFO && abs[i].line == lines[abs[i].pc]
    && abs[i].pc <= MAXIWTHABS * (i + 1)
  }

  /** The two tables say that instruction `pc` is on line `lines[pc]`. The `i`th absolute
      entry comes no later than instruction MAXIWTHABS * (i + 1). */
  ghost predicate Encodes(linedefined: int, lines: seq<int>, info: seq<SByte>, abs: seq<AbsLineInfo>) {
    && |info| == |lines| <= MAXIWTHABS * (|abs| + 1)
    && (forall pc :: 0 <= pc < |lines| ==> EncodedAt(linedefined, lines, info, pc))
    && (forall pc {:trigger info[pc]} :: 0 <= pc < |lines| && info[pc] == ABSLINEINFO ==> HasEntry(abs, pc))
    && (forall i :: 0 <= i < |abs| ==> EntryAt(lines, info, abs, i))
    && (forall i, j :: 0 <= i < j < |abs| ==> abs[i].pc < abs[j].pc)
  }

  /** The code generator's side. `lines` is what it has been told so far. */
  class Encoder {
    const linedefined: int
    ghost var lines: seq<int>
    var lineinfo: seq<SByte>
    var abslineinfo: seq<AbsLineInfo>
    var previousline: int
    var iwthabs: nat

    /** Instructions since the last absolute entry. */
    ghost function Since(): int
      reads this
    {
      if abslineinfo == [] then |lineinfo| else |lineinfo| - abslineinfo[|abslineinfo| - 1].pc
    }

    /** After an absolute entry has been removed, the next one is going to be absolute
        and the previous line does not matter. */
    ghost predicate Valid()
      reads this
    {
      && Encodes(linedefined, lines, lineinfo, abslineinfo)
      && (iwthabs == MAXIWTHABS + 1 || (iwthabs == Since() <= MAXIWTHABS && previousline == LineBefore(linedefined, lines, |lines|)))
    }

    constructor (linedefined: int)
      ensures Valid() && lines == [] && this.linedefined == linedefined && iwthabs == 0
    {
      this.linedefined, previousline := linedefined, linedefined;
      lineinfo, abslineinfo, iwthabs, lines := [], [], 0, [];
    }

    /** Record the line of the instruction that follows those recorded. */
    method SaveLineInfo(line: int)
      requires Valid()
      modifies this
      ensures Valid() && lines == old(lines) + [line] && iwthabs <= MAXIWTHABS
    {
      var linedif := line - previousline;
      var absolute := linedif <= -LIMLINEDIFF || linedif >= LIMLINEDIFF;
      if !absolute {
        absolute := iwthabs >= MAXIWTHABS;
        iwthabs := iwthabs + 1;
      }
      var pc := |lineinfo|;
      ghost var l0, i0, a0 := lines, lineinfo, abslineinfo;
      if absolute {
        abslineinfo := abslineinfo + [AbsLineInfo(pc, line)];
        linedif := ABSLINEINFO;
        iwthabs := 1;
        ExtendAbsolute(linedefined, l0, i0, a0, line);
      } else {
        assert a0 != [] ==> EntryAt(l0, i0, a0, |a0| - 1);
        ExtendRelative(linedefined, l0, i0, a0, line, linedif);
      }
      lineinfo := lineinfo + [linedif];
      lines := lines + [line];
      previousline := line;
    }

    /** Forget the line of the last instruction. */
    method RemoveLastLineInfo()
      requires Valid() && |lines| > 0 && iwthabs <= MAXIWTHABS
      modifies this
      ensures Valid() && lines == old(lines)[..|old(lines)| - 1]
    {
      var pc := |lineinfo| - 1;
      Shorten(linedefined, lines, lineinfo, abslineinfo);
      if lineinfo[pc] != ABSLINEINFO {
        assert EncodedAt(linedefined, lines, lineinfo, pc);
        previousline := previousline - lineinfo[pc];
        iwthabs := iwthabs - 1;
      } else {
        abslineinfo := abslineinfo[..|abslineinfo| - 1];
        iwthabs := MAXIWTHABS + 1;
      }
      lineinfo := lineinfo[..pc];
      lines := lines[..pc];
    }

    /** Emit an instruction. */
    method Code(line: int)
      requires Valid()
      modifies this
      ensures Valid() && lines == old(lines) + [line] && iwthabs <= MAXIWTHABS
    {
      SaveLineInfo(line);
    }

    /** Change the line of the last instruction. */
    method FixLine(line: int)
      requires Valid() && |lines| > 0 && iwthabs <= MAXIWTHABS
      modifies this
      ensures Valid() && lines == old(lines)[|old(lines)| - 1 := line] && iwthabs <= MAXIWTHABS
    {
      RemoveLastLineInfo();
      SaveLineInfo(line);
    }

    /** Remove the last instruction and emit another in its place. */
    method ReplaceLast(line: int)
      requires Valid() && |lines| > 0 && iwthabs <= MAXIWTHABS
      modifies this
      ensures Valid() && lines == old(lines)[|old(lines)| - 1 := line] && iwthabs <= MAXIWTHABS
    {
      RemoveLastLineInfo();
      Code(line);
    }
  }

  lemma ExtendAbsolute(linedefined: int, lines: seq<int>, info: seq<SByte>, abs: seq<AbsLineInfo>, line: int)
    requires Encodes(linedefined, lines, info, abs)
    ensures Encodes(linedefined, lines + [line], info + [ABSLINEINFO], abs + [AbsLineInfo(|info|, line)])
  {
    var ls, ds, bs := lines + [line], info + [ABSLINEINFO], abs + [AbsLineInfo(|info|, line)];
    forall pc | 0 <= pc < |ls|
      ensures EncodedAt(linedefined, ls, ds, pc)
    {
      assert pc < |lines| ==> EncodedAt(linedefined, lines, info, pc);
    }
    forall pc | 0 <= pc < |ls| && ds[pc] == ABSLINEINFO
      ensures HasEntry(bs, pc)
    {
      if pc < |lines| {
        assert info[pc] == ABSLINEINFO && HasEntry(abs, pc);
        var i :| 0 <= i < |abs| && abs[i].pc == pc;
        assert bs[i].pc == pc;
      } else {
        assert bs[|abs|].pc == pc;
      }
    }
    forall i | 0 <= i < |bs|
      ensures EntryAt(ls, ds, bs, i) && (i < |abs| ==> bs[i].pc < |info|)
    {
      assert i < |abs| ==> EntryAt(lines, info, abs, i);
    }
  }

  lemma ExtendRelative(linedefined: int, lines: seq<int>, info: seq<SByte>, abs: seq<AbsLineInfo>, line: int, d: SByte)
    requires Encodes(linedefined, lines, info, abs) && d != ABSLINEINFO
    requires line == LineBefore(linedefined, lines, |lines|) + d
    requires |lines| < MAXIWTHABS * (|abs| + 1)
    ensures Encodes(linedefined, lines + [line], info + [d], abs)
  {
    var ls, ds := lines + [line], info + [d];
    forall pc | 0 <= pc < |ls|
      ensures EncodedAt(linedefined, ls, ds, pc)
    {
      assert pc < |lines| ==> EncodedAt(linedefined, lines, info, pc);
    }
    forall pc | 0 <= pc < |ls| && ds[pc] == ABSLINEINFO
      ensures HasEntry(abs, pc)
    {
      assert info[pc] == ABSLINEINFO;
    }
    forall i | 0 <= i < |abs|
      ensures EntryAt(ls, ds, abs, i)
    {
      assert EntryAt(lines, info, abs, i);
    }
  }

  /** No entry stands for `q`, if it lies between two neighbouring entries. */
  lemma NoEntry(abs: seq<AbsLineInfo>, i: nat, q: nat)
    requires i <= |abs| && forall j, k :: 0 <= j < k < |abs| ==> abs[j].pc < abs[k].pc
    requires (i < |abs| ==> q < abs[i].pc) && (i > 0 ==> abs[i - 1].pc < q)
    ensures !HasEntry(abs, q)
  {
    forall j | 0 <= j < |abs|
      ensures abs[j].pc != q
    {
      if j < i {
        assert j < i - 1 ==> abs[j].pc < abs[i - 1].pc;
      } else {
        assert j > i ==> abs[i].pc < abs[j].pc;
      }
    }
  }

  lemma LastEntry(linedefined: int, lines: seq<int>, info: seq<SByte>, abs: seq<AbsLineInfo>)
    requires Encodes(linedefined, lines, info, abs) && |lines| > 0
    ensures var n := |lines| - 1;
            if info[n] == ABSLINEINFO then |abs| > 0 && abs[|abs| - 1].pc == n
            else abs != [] ==> abs[|abs| - 1].pc < n
  {
    var n := |lines| - 1;
    hide EncodedAt;
    if abs != [] {
      assert EntryAt(lines, info, abs, |abs| - 1);
      if abs[|abs| - 1].pc < n {
        NoEntry(abs, |abs|, n);
      }
    } else {
      assert !HasEntry(abs, n);
    }
  }

  lemma Prefix(linedefined: int, lines: seq<int>, info: seq<SByte>, abs: seq<AbsLineInfo>, n: nat, m: nat)
    requires Encodes(linedefined, lines, info, abs) && n <= |lines| && m <= |abs| && n <= MAXIWTHABS * (m + 1)
    requires forall i :: 0 <= i < |abs| ==> (abs[i].pc < n <==> i < m)
    ensures Encodes(linedefined, lines[..n], info[..n], abs[..m])
  {
    var ls, ds, bs := lines[..n], info[..n], abs[..m];
    forall pc | 0 <= pc < n
      ensures EncodedAt(linedefined, ls, ds, pc)
    {
      assert EncodedAt(linedefined, lines, info, pc);
    }
    forall pc | 0 <= pc < n && ds[pc] == ABSLINEINFO
      ensures HasEntry(bs, pc)
    {
      assert info[pc] == ABSLINEINFO && HasEntry(abs, pc);
      var i :| 0 <= i < |abs| && abs[i].pc == pc;
      assert bs[i].pc == pc;
    }
    forall i | 0 <= i < |bs|
      ensures EntryAt(ls, ds, bs, i)
    {
      assert EntryAt(lines, info, abs, i);
    }
  }

  /** Without its last instruction, and its absolute entry if it has one, the encoding
      stays an encoding. */
  lemma Shorten(linedefined: int, lines: seq<int>, info: seq<SByte>, abs: seq<AbsLineInfo>)
    requires Encodes(linedefined, lines, info, abs) && |lines| > 0
    ensures var n := |lines| - 1;
            if info[n] == ABSLINEINFO
            then |abs| > 0 && abs[|abs| - 1].pc == n && Encodes(linedefined, lines[..n], info[..n], abs[..|abs| - 1])
            else Encodes(linedefined, lines[..n], info[..n], abs) && (abs != [] ==> abs[|abs| - 1].pc < n)
  {
    var n := |lines| - 1;
    var m := if info[n] == ABSLINEINFO then |abs| - 1 else |abs|;
    LastEntry(linedefined, lines, info, abs);
    hide EncodedAt, HasEntry;
    assert abs != [] ==> EntryAt(lines, info, abs, |abs| - 1);
    hide EntryAt;
    Prefix(linedefined, lines, info, abs, n, m);
    assert abs[..|abs|] == abs;
  }

  // ---------------------------------------------------------------- decoding

  /** The debug information of a finished function. */
  datatype Proto = Proto(linedefined: int, lineinfo: seq<SByte>, abslineinfo: seq<AbsLineInfo>)

  ghost predicate Describes(p: Proto, lines: seq<int>) {
    Encodes(p.linedefined, lines, p.lineinfo, p.abslineinfo)
  }

  /** The last absolute line at or before `pc`. Its search starts from an estimate that is
      never past it. */
  method GetBaseLine(p: Proto, pc: nat, ghost lines: seq<int>) returns (line: int, basepc: int)
    requires Describes(p, lines) && pc < |lines|
    ensures -1 <= basepc <= pc && line == LineBefore(p.linedefined, lines, basepc + 1)
    ensures forall q :: basepc < q <= pc ==> p.lineinfo[q] != ABSLINEINFO
  {
    var abs := p.abslineinfo;
    if |abs| == 0 || pc < abs[0].pc {
      forall q | 0 <= q <= pc
        ensures p.lineinfo[q] != ABSLINEINFO
      {
        NotBefore(p, lines, pc, 0, q);
      }
      return p.linedefined, -1;
    }
    var i: int := pc / MAXIWTHABS - 1;
    EstimateIsLow(p, lines, pc);
    while i + 1 < |abs| && pc >= abs[i + 1].pc
      invariant -1 <= i < |abs| && (i >= 0 ==> abs[i].pc <= pc)
      decreases |abs| - i
    {
      i := i + 1;
    }
    assert EntryAt(lines, p.lineinfo, abs, i);
    forall q | abs[i].pc < q <= pc
      ensures p.lineinfo[q] != ABSLINEINFO
    {
      NotBefore(p, lines, pc, i + 1, q);
    }
    return abs[i].line, abs[i].pc;
  }

  /** The estimate is an entry at or before `pc`. */
  lemma EstimateIsLow(p: Proto, lines: seq<int>, pc: nat)
    requires Describes(p, lines) && pc < |lines|
    ensures var i := pc / MAXIWTHABS - 1; -1 <= i < |p.abslineinfo| && (i >= 0 ==> p.abslineinfo[i].pc <= pc)
  {
    var i := pc / MAXIWTHABS - 1;
    assert MAXIWTHABS * (pc / MAXIWTHABS) <= pc < MAXIWTHABS * (|p.abslineinfo| + 1);
    if i >= 0 {
      assert EntryAt(lines, p.lineinfo, p.abslineinfo, i);
    }
  }

  /** Between two entries no instruction has an absolute line. */
  lemma NotBefore(p: Proto, lines: seq<int>, pc: nat, i: nat, q: nat)
    requires Describes(p, lines) && q <= pc < |lines| && i <= |p.abslineinfo|
    requires (i < |p.abslineinfo| ==> pc < p.abslineinfo[i].pc) && (i > 0 ==> p.abslineinfo[i - 1].pc < q)
    ensures p.lineinfo[q] != ABSLINEINFO
  {
    NoEntry(p.abslineinfo, i, q);
  }

  /** The line of an instruction: the last line it was given. */
  method GetFuncLine(p: Proto, pc: nat, ghost lines: seq<int>) returns (line: int)
    requires Describes(p, lines) && pc < |lines|
    ensures line == lines[pc]
  {
    var basepc;
    line, basepc := GetBaseLine(p, pc, lines);
    while basepc < pc
      invariant -1 <= basepc <= pc && line == LineBefore(p.linedefined, lines, basepc + 1)
      invariant forall q :: basepc < q <= pc ==> p.lineinfo[q] != ABSLINEINFO
    {
      basepc := basepc + 1;
      assert EncodedAt(p.linedefined, lines, p.lineinfo, basepc);
      line := line + p.lineinfo[basepc];
    }
  }

  /** Is a later instruction on another line? */
  method ChangedLine(p: Proto, oldpc: nat, newpc: nat, ghost lines: seq<int>) returns (b: bool)
    requires Describes(p, lines) && oldpc < newpc < |lines|
    ensures b <==> lines[oldpc] != lines[newpc]
  {
    if newpc - oldpc < MAXIWTHABS / 2 {
      var delta: int, pc: nat := 0, oldpc;
      while true
        invariant oldpc <= pc < newpc && delta == lines[pc] - lines[oldpc]
        decreases newpc - pc
      {
        pc := pc + 1;
        if p.lineinfo[pc] == ABSLINEINFO {
          break;
        }
        assert EncodedAt(p.linedefined, lines, p.lineinfo, pc);
        delta := delta + p.lineinfo[pc];
        if pc == newpc {
          return delta != 0;
        }
      }
    }
    var l1 := GetFuncLine(p, oldpc, lines);
    var l2 := GetFuncLine(p, newpc, lines);
    return l1 != l2;
  }
}
