// The table of short strings: buckets of strings linked through themselves, rehashed in place.
module StringTable {
  import opened Words

  /** A string object; 0 is NULL. */
  type Ref = nat

  type Links = map<Ref, Ref>

  const MINSTRTABSIZE: nat := 128

  /** As many buckets as an int counts pointers to. */
  const MAXSTRTB: nat := 0x7FFF_FFFF

  /** The strings `rs`, linked from `head` on. */
  ghost predicate IsChain(next: Links, head: Ref, rs: seq<Ref>)
    decreases |rs|
  {
    if rs == [] then head == 0
    else head != 0 && head == rs[0] && head in next && IsChain(next, next[head], rs[1..])
  }

  ghost predicate Chains(next: Links, vect: seq<Ref>, chains: seq<seq<Ref>>) {
    |vect| == |chains| && forall b :: 0 <= b < |vect| ==> IsChain(next, vect[b], chains[b])
  }

  /** All strings of all buckets. */
  ghost function Flat(chains: seq<seq<Ref>>): multiset<Ref> {
    if chains == [] then multiset{} else multiset(chains[0]) + Flat(chains[1..])
  }

  ghost predicate Once(rs: multiset<Ref>) {
    forall r :: rs[r] <= 1
  }

  lemma {:induction false} ChainKept(next: Links, next': Links, head: Ref, rs: seq<Ref>)
    requires IsChain(next, head, rs) && forall r :: r in rs && r in next ==> r in next' && next'[r] == next[r]
    ensures IsChain(next', head, rs)
    decreases |rs|
  {
    if rs != [] {
      assert rs[0] in rs && forall r :: r in rs[1..] ==> r in rs;
      ChainKept(next, next', next[head], rs[1..]);
    }
  }

  lemma {:induction false} FlatUpdate(chains: seq<seq<Ref>>, b: nat, c: seq<Ref>)
    requires b < |chains|
    ensures Flat(chains[b := c]) == Flat(chains) - multiset(chains[b]) + multiset(c)
    ensures multiset(chains[b]) <= Flat(chains)
    decreases |chains|
  {
    if b == 0 {
      assert chains[b := c][1..] == chains[1..];
    } else {
      FlatUpdate(chains[1..], b - 1, c);
      assert chains[b := c][1..] == chains[1..][b - 1 := c];
      assert multiset(chains[1..][b - 1]) <= Flat(chains[1..]);
    }
  }

  /** A string lies in one bucket only. */
  lemma FlatApart(chains: seq<seq<Ref>>, b: nat, d: nat, r: Ref)
    requires b < |chains| && d < |chains| && b != d && Once(Flat(chains))
    ensures r in chains[b] ==> r !in chains[d]
  {
    FlatTwo(chains, b, d, r);
  }

  lemma FlatTwo(chains: seq<seq<Ref>>, b: nat, d: nat, r: Ref)
    requires b < |chains| && d < |chains| && b != d
    ensures r in chains[b] && r in chains[d] ==> Flat(chains)[r] >= 2
  {
    FlatUpdate(chains, b, []);
    FlatUpdate(chains[b := []], d, []);
    if r in chains[b] && r in chains[d] {
      assert multiset(chains[b])[r] >= 1 && multiset(chains[d])[r] >= 1;
    }
  }

  lemma {:induction false} FlatEmpty(chains: seq<seq<Ref>>, n: nat)
    requires n <= |chains| && forall b :: n <= b < |chains| ==> chains[b] == []
    ensures Flat(chains) == Flat(chains[..n])
    decreases |chains|
  {
    if chains != [] {
      if n > 0 {
        FlatEmpty(chains[1..], n - 1);
        assert chains[..n][1..] == chains[1..][..n - 1];
      } else {
        FlatEmpty(chains[1..], 0);
        assert chains[..0] == [] && chains[1..][..0] == [];
      }
    }
  }

  lemma {:induction false} FlatIn(chains: seq<seq<Ref>>, r: Ref) returns (b: nat)
    requires r in Flat(chains)
    ensures b < |chains| && r in chains[b]
    decreases |chains|
  {
    if r in chains[0] {
      b := 0;
    } else {
      var d := FlatIn(chains[1..], r);
      b := d + 1;
    }
  }

  lemma FlatHas(chains: seq<seq<Ref>>, b: nat, r: Ref)
    requires b < |chains| && r in chains[b]
    ensures r in Flat(chains)
  {
    FlatUpdate(chains, b, []);
  }

  lemma TodoTwice(chains: seq<seq<Ref>>, todo: seq<Ref>, b: nat)
    requires b < |chains| && todo != []
    ensures todo[0] in chains[b] ==> (Flat(chains) + multiset(todo))[todo[0]] >= 2
    ensures todo[0] in todo[1..] ==> multiset(todo)[todo[0]] >= 2
  {
    FlatUpdate(chains, b, []);
    assert todo == [todo[0]] + todo[1..];
    assert multiset(todo) == multiset{todo[0]} + multiset(todo[1..]);
    if todo[0] in chains[b] {
      assert multiset(chains[b])[todo[0]] >= 1;
    }
  }

  lemma FirstAlone(chains: seq<seq<Ref>>, todo: seq<Ref>)
    requires todo != [] && chains != [] && Once(Flat(chains) + multiset(todo))
    ensures forall b :: 0 <= b < |chains| ==> todo[0] !in chains[b]
    ensures todo[0] !in todo[1..]
  {
    forall b | 0 <= b < |chains| ensures todo[0] !in chains[b] {
      TodoTwice(chains, todo, b);
    }
    TodoTwice(chains, todo, 0);
    assert (Flat(chains) + multiset(todo))[todo[0]] >= multiset(todo)[todo[0]];
  }

  lemma LinksPushed(next: Links, vect: seq<Ref>, chains: seq<seq<Ref>>, todo: seq<Ref>, q: Ref, h: nat)
    requires Chains(next, vect, chains) && IsChain(next, q, todo) && q != 0 && h < |vect| && todo != []
    requires forall b :: 0 <= b < |chains| ==> todo[0] !in chains[b]
    requires todo[0] !in todo[1..]
    ensures q == todo[0] && q in next
    ensures Chains(next[q := vect[h]], vect[h := q], chains[h := [q] + chains[h]])
    ensures IsChain(next[q := vect[h]], next[q], todo[1..])
  {
    var next' := next[q := vect[h]];
    forall b | 0 <= b < |vect|
      ensures IsChain(next', vect[b], chains[b])
    {
      ChainKept(next, next', vect[b], chains[b]);
    }
    ChainKept(next, next', next[q], todo[1..]);
    assert ([q] + chains[h])[1..] == chains[h];
  }

  lemma StringsPushed(chains: seq<seq<Ref>>, todo: seq<Ref>, h: nat)
    requires h < |chains| && todo != []
    ensures Flat(chains[h := [todo[0]] + chains[h]]) + multiset(todo[1..]) == Flat(chains) + multiset(todo)
  {
    var q := todo[0];
    assert todo == [q] + todo[1..];
    assert multiset(todo) == multiset{q} + multiset(todo[1..]);
    FlatUpdate(chains, h, [q] + chains[h]);
    assert multiset([q] + chains[h]) == multiset{q} + multiset(chains[h]);
  }

  /** The first of the strings `todo` goes to the front of bucket `h`. */
  lemma PushFirst(next: Links, vect: seq<Ref>, chains: seq<seq<Ref>>, todo: seq<Ref>, q: Ref, h: nat)
    requires Chains(next, vect, chains) && IsChain(next, q, todo) && Once(Flat(chains) + multiset(todo))
    requires q != 0 && h < |vect|
    ensures todo != [] && q == todo[0] && q in next
    ensures Chains(next[q := vect[h]], vect[h := q], chains[h := [q] + chains[h]])
    ensures IsChain(next[q := vect[h]], next[q], todo[1..])
    ensures Flat(chains[h := [q] + chains[h]]) + multiset(todo[1..]) == Flat(chains) + multiset(todo)
  {
    FirstAlone(chains, todo);
    LinksPushed(next, vect, chains, todo, q, h);
    StringsPushed(chains, todo, h);
  }

  // ---------------------------------------------------------------- bucket arithmetic

  lemma ChainOnce(chains: seq<seq<Ref>>, b: nat)
    requires b < |chains| && Once(Flat(chains))
    ensures forall i, j :: 0 <= i < j < |chains[b]| ==> chains[b][i] != chains[b][j]
  {
    FlatUpdate(chains, b, []);
    var rs := chains[b];
    forall i, j | 0 <= i < j < |rs| ensures rs[i] != rs[j] {
      assert multiset(rs)[rs[i]] <= Flat(chains)[rs[i]] <= 1;
      assert rs == rs[..j] + rs[j..];
      assert rs[..j][i] == rs[i] && rs[j..][0] == rs[j];
      assert multiset(rs) == multiset(rs[..j]) + multiset(rs[j..]);
    }
  }

  lemma InternedMore(text: map<Ref, seq<bv8>>, r: Ref, str: seq<bv8>)
    requires Interned(text) && r !in text && forall s :: s in text ==> text[s] != str
    ensures Interned(text[r := str]) && |text[r := str]| == |text| + 1
  {
    assert text[r := str].Keys == text.Keys + {r};
    assert |text.Keys| == |text| && |text[r := str].Keys| == |text[r := str]|;
  }

  lemma InternedLess(text: map<Ref, seq<bv8>>, r: Ref)
    requires Interned(text) && r in text
    ensures Interned(text - {r}) && |text - {r}| == |text| - 1
  {
    assert (text - {r}).Keys == text.Keys - {r};
    assert |text.Keys| == |text| && |(text - {r}).Keys| == |text - {r}|;
  }

  /** The links of `rs` with its `k`-th string taken out: the one before it, if any, skips it. */
  lemma {:induction false} ChainCut(next: Links, next': Links, head: Ref, rs: seq<Ref>, k: nat)
    requires IsChain(next, head, rs) && 0 < k < |rs|
    requires forall i, j :: 0 <= i < j < |rs| ==> rs[i] != rs[j]
    requires rs[k] in next && next' == next[rs[k - 1] := next[rs[k]]]
    ensures IsChain(next', head, rs[..k] + rs[k + 1..])
    decreases k
  {
    var cut := rs[..k] + rs[k + 1..];
    assert cut[0] == rs[0];
    if k == 1 {
      assert cut[1..] == rs[2..] && rs[1..][1..] == rs[2..];
      ChainKept(next, next', next[rs[1]], rs[2..]);
    } else {
      assert rs[1..][..k - 1] + rs[1..][k..] == cut[1..];
      assert next'[rs[0]] == next[rs[0]];
      ChainCut(next, next', next[head], rs[1..], k - 1);
    }
  }

  function Without(rs: seq<Ref>, k: nat): seq<Ref>
    requires k < |rs|
  {
    rs[..k] + rs[k + 1..]
  }

  lemma {:induction false} InChain(next: Links, head: Ref, rs: seq<Ref>, k: nat)
    requires IsChain(next, head, rs) && k < |rs|
    ensures rs[k] in next && rs[k] != 0
    decreases k
  {
    if k > 0 {
      InChain(next, next[head], rs[1..], k - 1);
    }
  }

  lemma CutMultiset(rs: seq<Ref>, k: nat)
    requires k < |rs|
    ensures multiset(rs) == multiset(Without(rs, k)) + multiset{rs[k]}
    ensures forall r :: r in Without(rs, k) ==> r in rs
  {
    assert rs == rs[..k] + [rs[k]] + rs[k + 1..];
    assert multiset(rs) == multiset(rs[..k]) + multiset{rs[k]} + multiset(rs[k + 1..]);
    assert multiset(Without(rs, k)) == multiset(rs[..k]) + multiset(rs[k + 1..]);
  }

  /** Taking a string out of its bucket takes it, and nothing else, out of the table. */
  lemma CutStrings(chains: seq<seq<Ref>>, b: nat, k: nat)
    requires b < |chains| && k < |chains[b]| && Once(Flat(chains))
    ensures Once(Flat(chains[b := Without(chains[b], k)]))
    ensures forall r :: r in Flat(chains[b := Without(chains[b], k)]) <==> r in Flat(chains) && r != chains[b][k]
    ensures forall r :: r in Without(chains[b], k) ==> r in chains[b]
  {
    hide Without, Flat;
    var ts := chains[b][k];
    FlatUpdate(chains, b, Without(chains[b], k));
    CutMultiset(chains[b], k);
    MinusOne(Flat(chains), multiset(chains[b]), multiset(Without(chains[b], k)), ts);
  }

  lemma MinusOne(all: multiset<Ref>, was: multiset<Ref>, now: multiset<Ref>, r: Ref)
    requires was <= all && was == now + multiset{r} && Once(all)
    ensures Once(all - was + now)
    ensures forall s :: s in all - was + now <==> s in all && s != r
  {
    assert all - was + now == all - multiset{r};
    assert all[r] == 1;
  }

  lemma DoubleSize(n: nat)
    ensures PowerOfTwo(n) ==> PowerOfTwo(n * 2)
  {
    if PowerOfTwo(n) {
      Doubles(n);
    }
  }

  lemma HashPlace(hash: nat, b: nat, size: nat)
    requires b < size
    ensures InPlace(hash, b, 0, size, size) <==> hash % size == b
  {
  }

  /** A string outside the table is a list of its own. */
  lemma NewLinked(next: Links, vect: seq<Ref>, chains: seq<seq<Ref>>, r: Ref)
    requires Chains(next, vect, chains) && Once(Flat(chains)) && r !in Flat(chains) && r != 0
    ensures Chains(next[r := 0], vect, chains) && IsChain(next[r := 0], r, [r])
    ensures Once(Flat(chains) + multiset([r]))
  {
    forall b | 0 <= b < |vect| ensures IsChain(next[r := 0], vect[b], chains[b]) {
      assert r in chains[b] ==> r in Flat(chains) by {
        if r in chains[b] { FlatHas(chains, b, r); }
      }
      ChainKept(next, next[r := 0], vect[b], chains[b]);
    }
    assert multiset([r]) == multiset{r};
  }

  lemma EmptyChain(next: Links)
    ensures IsChain(next, 0, [])
  {
  }

  lemma FirstKnown(next: Links, q: Ref, todo: seq<Ref>)
    requires IsChain(next, q, todo) && q != 0
    ensures todo != [] && q == todo[0] && q in next && q in multiset(todo)
  {
  }

  /** With sizes that are powers of two, a string of old bucket `b` never goes to an old bucket
      that is still to be emptied. */
  lemma NewBucket(hash: nat, osize: nat, nsize: nat)
    requires PowerOfTwo(osize) && PowerOfTwo(nsize)
    ensures osize > 0 && nsize > 0
    ensures hash % nsize <= hash % osize || hash % nsize >= osize
  {
    var j: nat :| osize == Pow2(j);
    var k: nat :| nsize == Pow2(k);
    if k <= j {
      Pow2Adds(j - k, k);
      ModBelow(hash, Pow2(j - k), nsize);
    } else {
      Pow2Adds(k - j, j);
      ModAbove(hash, Pow2(k - j), osize);
    }
  }

  lemma ModBelow(h: nat, c: nat, n: nat)
    requires c > 0 && n > 0
    ensures c * n > 0 && h % n <= h % (c * n)
  {
    ModMod(h, c, n);
    ModAtMost(h % (c * n), n);
  }

  lemma ModAbove(h: nat, c: nat, o: nat)
    requires c > 0 && o > 0
    ensures c * o > 0 && (h % (c * o) == h % o || h % (c * o) >= o)
  {
    ModMod(h, c, o);
    ModSmall(h % (c * o), o);
  }

  lemma ModAtMost(a: nat, n: nat)
    requires n > 0
    ensures a % n <= a
  {
  }

  lemma ModLess(a: nat, n: nat)
    requires n > 0
    ensures 0 <= a % n < n
  {
  }

  lemma ModSmall(a: nat, n: nat)
    requires n > 0
    ensures a < n ==> a % n == a
  {
  }

  lemma ModMod(h: nat, c: nat, n: nat)
    requires c > 0 && n > 0
    ensures c * n > 0 && (h % (c * n)) % n == h % n
  {
    Positive(c, n);
    var m := c * n;
    Split(h, m);
    Split(h % m, n);
    Regroup(c, n, h / m, h % m / n, h % m % n);
    DivModUnique(h, n, c * (h / m) + h % m / n, h % m % n);
  }

  lemma Positive(c: nat, n: nat)
    requires c > 0 && n > 0
    ensures c * n > 0
  {
  }

  lemma Split(h: nat, m: nat)
    requires m > 0
    ensures h == m * (h / m) + h % m && 0 <= h % m < m && h / m >= 0
  {
  }

  lemma Regroup(c: nat, n: nat, a: nat, q: nat, r: nat)
    ensures (c * n) * a + (n * q + r) == n * (c * a + q) + r
  {
    assert (c * n) * a == n * (c * a);
    assert n * (c * a + q) == n * (c * a) + n * q;
  }

  // ---------------------------------------------------------------- the table

  /** No two strings have the same contents. */
  ghost predicate Interned(text: map<Ref, seq<bv8>>) {
    forall r, s :: r in text && s in text && r != s ==> text[r] != text[s]
  }

  lemma PowerPositive(n: nat)
    requires PowerOfTwo(n)
    ensures n > 0
  {
  }

  /** The bucket of a string with hash `hash`, in a rehash that has emptied the first `i` buckets. */
  predicate InPlace(hash: nat, b: nat, i: nat, osize: nat, nsize: nat)
    requires osize > 0 && nsize > 0
  {
    if i <= b < osize then hash % osize == b else hash % nsize == b
  }

  class Strt {
    const hashOf: seq<bv8> -> nat
    var text: map<Ref, seq<bv8>>
    var next: Links
    var vect: seq<Ref>
    var nuse: nat
    ghost var chains: seq<seq<Ref>>

    ghost function HashOf(r: Ref): nat
      reads this`text
    {
      if r in text then hashOf(text[r]) else 0
    }

    /** Buckets, and the list `rest` outside of them, hold linked strings, each once. */
    ghost predicate Linked(rest: seq<Ref>)
      reads this
    {
      && Chains(next, vect, chains)
      && Once(Flat(chains) + multiset(rest))
      && forall r :: r in Flat(chains) + multiset(rest) ==> r in text
    }

    /** During a rehash: old buckets from `i` on are as they were, all others as they shall be. */
    ghost predicate Rehashing(i: nat, osize: nat, nsize: nat)
      requires osize > 0 && nsize > 0
      reads this
    {
      forall b, r :: 0 <= b < |chains| && r in chains[b] ==> InPlace(HashOf(r), b, i, osize, nsize)
    }

    /** p->u.hnext = vect[h]; vect[h] = p */
    method LinkFront(q: Ref, h: nat, ghost todo: seq<Ref>)
      requires Linked(todo) && IsChain(next, q, todo) && q != 0 && h < |vect|
      modifies this`next, this`vect, this`chains
      ensures todo != [] && q == todo[0] && q in old(next) && Linked(todo[1..])
      ensures chains == old(chains)[h := [q] + old(chains)[h]] && |vect| == old(|vect|)
      ensures IsChain(next, old(next)[q], todo[1..])
      ensures Flat(chains) + multiset(todo[1..]) == old(Flat(chains)) + multiset(todo)
    {
      PushFirst(next, vect, chains, todo, q, h);
      next := next[q := vect[h]];
      vect := vect[h := q];
      chains := chains[h := [q] + chains[h]];
    }

    /** The strings `rest`, unlinked from old bucket `i`, go to their new buckets. */
    method Relink(p: Ref, i: nat, osize: nat, nsize: nat, ghost rest: seq<Ref>)
      requires PowerOfTwo(osize) && PowerOfTwo(nsize) && osize > 0 && nsize > 0
      requires i < osize <= |vect| && nsize <= |vect| && Linked(rest) && IsChain(next, p, rest)
      requires Rehashing(i + 1, osize, nsize) && forall r :: r in rest ==> HashOf(r) % osize == i
      modifies this`next, this`vect, this`chains
      ensures Linked([]) && |vect| == old(|vect|) && Rehashing(i + 1, osize, nsize)
      ensures Flat(chains) == old(Flat(chains)) + multiset(rest)
    {
      var q := p;
      ghost var todo := rest;
      while q != 0
        invariant Linked(todo) && IsChain(next, q, todo) && |vect| == old(|vect|)
        invariant Rehashing(i + 1, osize, nsize) && forall r :: r in todo ==> HashOf(r) % osize == i
        invariant Flat(chains) + multiset(todo) == old(Flat(chains)) + multiset(rest)
        decreases |todo|
      {
        FirstKnown(next, q, todo);
        var hnext := next[q];
        var h := hashOf(text[q]) % nsize;
        NewBucket(HashOf(q), osize, nsize);
        LinkFront(q, h, todo);
        q := hnext;
        todo := todo[1..];
      }
    }

    /** A table of `size` buckets at the front of `vect`, each string in the bucket of its hash. */
    ghost predicate Table(size: nat)
      reads this
    {
      && size > 0 && size <= |vect| && |chains| == size
      && Chains(next, vect[..size], chains) && Once(Flat(chains))
      && (forall r :: r in Flat(chains) ==> r in text)
      && Rehashing(0, size, size)
    }

    lemma SizeAtMost(size: nat)
      requires Table(size)
      ensures 0 < size <= |vect|
    {
    }

    method ClearNew(osize: nat, nsize: nat)
      requires Table(osize) && |vect| == if osize < nsize then nsize else osize
      modifies this`vect
      ensures Table(osize) && |vect| == old(|vect|) && forall j :: osize <= j < nsize ==> vect[j] == 0
    {
      var i := osize;
      while i < nsize
        invariant osize <= i && (i <= nsize || i == osize) && |vect| == old(|vect|)
        invariant vect[..osize] == old(vect[..osize]) && forall j :: osize <= j < i ==> vect[j] == 0
      {
        vect := vect[i := 0];
        i := i + 1;
      }
    }

    /** tablerehash: from `osize` to `nsize` buckets, in an array with room for both. */
    method Rehash(osize: nat, nsize: nat)
      requires PowerOfTwo(osize) && PowerOfTwo(nsize) && nsize > 0
      requires Table(osize) && |vect| == if osize < nsize then nsize else osize
      modifies this`next, this`vect, this`chains
      ensures Table(nsize) && |vect| == old(|vect|) && Flat(chains) == old(Flat(chains))
    {
      hide PowerOfTwo, Linked, Table, Rehashing, Flat;
      SizeAtMost(osize);
      ClearNew(osize, nsize);
      Widen(osize, nsize);
      var i := 0;
      while i < osize
        invariant i <= osize && |vect| == old(|vect|) && Linked([]) && Rehashing(i, osize, nsize)
        invariant Flat(chains) == old(Flat(chains))
      {
        RehashBucket(i, osize, nsize);
        i := i + 1;
      }
      AllPlaced(osize, nsize);
      Narrow(nsize);
    }

    /** Buckets that were cleared are empty. */
    ghost method Widen(osize: nat, nsize: nat)
      requires Table(osize) && nsize > 0 && |vect| == (if osize < nsize then nsize else osize)
      requires forall j :: osize <= j < nsize ==> vect[j] == 0
      modifies this`chains
      ensures Linked([]) && Rehashing(0, osize, nsize) && Flat(chains) == old(Flat(chains)) && |chains| == |vect|
    {
      var more := if osize < nsize then seq(nsize - osize, _ => []) else [];
      var wide := chains + more;
      FlatEmpty(wide, osize);
      assert wide[..osize] == chains;
      forall b | 0 <= b < |vect|
        ensures IsChain(next, vect[b], wide[b])
      {
        if b < osize { assert vect[b] == vect[..osize][b]; }
      }
      chains := wide;
      assert Flat(chains) + multiset([]) == Flat(chains);
    }

    lemma PlacesNext(i: nat, osize: nat, nsize: nat)
      requires osize > 0 && nsize > 0 && i < osize && i < |chains| && Rehashing(i, osize, nsize)
      ensures forall r :: r in chains[i] ==> HashOf(r) % osize == i
      ensures forall b, r :: 0 <= b < |chains| && b != i && r in chains[b] ==>
                InPlace(HashOf(r), b, i + 1, osize, nsize)
    {
      forall r | r in chains[i] ensures HashOf(r) % osize == i {
        assert InPlace(HashOf(r), i, i, osize, nsize);
      }
      forall b, r | 0 <= b < |chains| && b != i && r in chains[b]
        ensures InPlace(HashOf(r), b, i + 1, osize, nsize)
      {
        assert InPlace(HashOf(r), b, i, osize, nsize);
      }
    }

    /** The strings of old bucket `i` are taken out. */
    method Detach(i: nat, osize: nat, nsize: nat)
      requires osize > 0 && nsize > 0 && i < osize <= |vect| && Linked([]) && Rehashing(i, osize, nsize)
      modifies this`vect, this`chains
      ensures |vect| == old(|vect|) && i < |old(chains)| && Linked(old(chains)[i])
      ensures IsChain(next, old(vect)[i], old(chains)[i])
      ensures Rehashing(i + 1, osize, nsize) && forall r :: r in old(chains)[i] ==> HashOf(r) % osize == i
      ensures Flat(chains) + multiset(old(chains)[i]) == old(Flat(chains))
    {
      hide IsChain, InPlace, HashOf, Flat;
      FlatUpdate(chains, i, []);
      EmptyChain(next);
      PlacesNext(i, osize, nsize);
      assert Flat(chains) + multiset([]) == Flat(chains);
      assert Flat(chains[i := []]) + multiset(chains[i]) == Flat(chains);
      vect := vect[i := 0];
      chains := chains[i := []];
    }

    /** Old bucket `i` is emptied, and its strings go where they belong. */
    method RehashBucket(i: nat, osize: nat, nsize: nat)
      requires PowerOfTwo(osize) && PowerOfTwo(nsize) && osize > 0 && nsize > 0
      requires i < osize <= |vect| && nsize <= |vect| && Linked([]) && Rehashing(i, osize, nsize)
      modifies this`next, this`vect, this`chains
      ensures |vect| == old(|vect|) && Linked([]) && Rehashing(i + 1, osize, nsize)
      ensures Flat(chains) == old(Flat(chains))
    {
      hide PowerOfTwo, IsChain, Once, Rehashing, Flat;
      var p := vect[i];
      ghost var rest := chains[i];
      Detach(i, osize, nsize);
      Relink(p, i, osize, nsize, rest);
    }

    /** After the last old bucket only the first `nsize` buckets hold strings. */
    ghost method Narrow(nsize: nat)
      requires Linked([]) && nsize > 0 && nsize <= |vect| && Placed(nsize)
      modifies this`chains
      ensures Table(nsize) && Flat(chains) == old(Flat(chains))
    {
      forall b | nsize <= b < |chains|
        ensures chains[b] == []
      {
        NoneBeyond(b, nsize);
      }
      FlatEmpty(chains, nsize);
      assert Flat(chains) + multiset([]) == Flat(chains);
      chains := chains[..nsize];
    }

    lemma AllPlaced(osize: nat, nsize: nat)
      requires osize > 0 && nsize > 0 && Rehashing(osize, osize, nsize)
      ensures Placed(nsize)
    {
      forall b, r | 0 <= b < |chains| && r in chains[b] ensures HashOf(r) % nsize == b {
        assert InPlace(HashOf(r), b, osize, osize, nsize);
      }
    }

    lemma NoneBeyond(b: nat, nsize: nat)
      requires nsize > 0 && Placed(nsize) && b < |chains|
      ensures chains[b] != [] ==> b < nsize
    {
      if chains[b] != [] {
        assert chains[b][0] in chains[b];
        ModLess(HashOf(chains[b][0]), nsize);
      }
    }

    ghost predicate Placed(nsize: nat)
      requires nsize > 0
      reads this
    {
      forall b, r :: 0 <= b < |chains| && r in chains[b] ==> HashOf(r) % nsize == b
    }

    /** The table between operations: every string is in the bucket of its hash, and no two strings
        have the same contents. */
    ghost predicate Valid()
      reads this
    {
      && PowerOfTwo(|vect|) && Table(|vect|)
      && (forall r :: r in text <==> r in Flat(chains))
      && 0 !in text && nuse == |text|
      && Interned(text)
    }

    /** luaS_init */
    constructor (hash: seq<bv8> -> nat)
      ensures Valid() && text == map[] && |vect| == MINSTRTABSIZE && hashOf == hash
    {
      hashOf := hash;
      text, next, nuse := map[], map[], 0;
      vect := seq(MINSTRTABSIZE, _ => 0);
      chains := seq(MINSTRTABSIZE, _ => []);
      new;
      EmptyTable();
    }

    lemma EmptyTable()
      requires text == map[] && next == map[] && |vect| == |chains| == MINSTRTABSIZE
      requires forall b :: 0 <= b < |vect| ==> vect[b] == 0 && chains[b] == []
      ensures PowerOfTwo(|vect|) && Table(|vect|) && Flat(chains) == multiset{}
    {
      assert Pow2(7) == 128;
      FlatEmpty(chains, 0);
    }

    /** luaS_resize; `fails` tells whether the allocation of the array does. */
    method Resize(nsize: nat, fails: bool)
      requires Valid() && PowerOfTwo(nsize)
      modifies this`next, this`vect, this`chains
      ensures Valid() && |vect| == if fails then old(|vect|) else nsize
    {
      hide Table, Flat, Interned, PowerOfTwo;
      var osize := |vect|;
      SizeAtMost(osize);
      PowerPositive(nsize);
      if nsize < osize {
        Rehash(osize, nsize);
      }
      if fails {
        if nsize < osize {
          Rehash(nsize, osize);
        }
      } else {
        Reallocate(osize, nsize);
        if nsize > osize {
          Rehash(osize, nsize);
        }
      }
    }

    /** luaM_reallocvector: what is beyond the old array is arbitrary. */
    method Reallocate(osize: nat, nsize: nat)
      requires osize == |vect| && nsize > 0 && Table(if nsize < osize then nsize else osize)
      modifies this`vect
      ensures |vect| == nsize && Table(if nsize < osize then nsize else osize)
    {
      if nsize <= osize {
        assert vect[..nsize][..nsize] == vect[..nsize];
        vect := vect[..nsize];
      } else {
        assert |seq<Ref>(nsize - osize, _ => 0)| == nsize - osize;
        var garbage: seq<Ref> :| |garbage| == nsize - osize;
        assert (vect + garbage)[..osize] == vect[..osize];
        vect := vect + garbage;
      }
    }

    /** Where a string is: in the bucket of its hash. */
    lemma Bucket(r: Ref)
      requires Valid() && r in text
      ensures r in chains[HashOf(r) % |vect|]
    {
      var b := FlatIn(chains, r);
      assert InPlace(HashOf(r), b, 0, |vect|, |vect|);
    }

    lemma ChainText(b: nat)
      requires Valid() && b < |vect|
      ensures b < |chains| && IsChain(next, vect[b], chains[b]) && forall r :: r in chains[b] ==> r in text
      ensures forall i, j :: 0 <= i < j < |chains[b]| ==> chains[b][i] != chains[b][j]
    {
      assert vect[..|vect|] == vect;
      forall r | r in chains[b] ensures r in text {
        FlatHas(chains, b, r);
      }
      ChainOnce(chains, b);
    }

    /** The search of internshrstr: the string with contents `str`, or NULL if there is none. */
    method Find(str: seq<bv8>) returns (ts: Ref)
      requires Valid()
      ensures ts == 0 ==> forall r :: r in text ==> text[r] != str
      ensures ts != 0 ==> ts in text && text[ts] == str
    {
      hide Table, Flat, Interned;
      SizeAtMost(|vect|);
      var h := hashOf(str) % |vect|;
      ModLess(hashOf(str), |vect|);
      ChainText(h);
      ts := vect[h];
      ghost var todo := chains[h];
      while ts != 0 && text[ts] != str
        invariant IsChain(next, ts, todo) && forall r :: r in todo ==> r in text
        invariant ts != 0 ==> ts in text
        invariant forall r :: r in chains[h] && r !in todo && r in text ==> text[r] != str
        decreases |todo|
      {
        ts := next[ts];
        todo := todo[1..];
      }
      if ts == 0 {
        forall r | r in text ensures text[r] != str {
          if text[r] == str {
            Bucket(r);
          }
        }
      }
    }

    /** Every string in the table is known, and in the bucket of its hash. */
    lemma Places(r: Ref)
      requires Valid() && r !in text
      ensures forall b, s :: 0 <= b < |chains| && s in chains[b] ==>
                s != r && s in text && InPlace(hashOf(text[s]), b, 0, |vect|, |vect|)
    {
      forall b, s | 0 <= b < |chains| && s in chains[b]
        ensures s != r && s in text && InPlace(hashOf(text[s]), b, 0, |vect|, |vect|)
      {
        FlatHas(chains, b, s);
        assert InPlace(HashOf(s), b, 0, |vect|, |vect|);
      }
    }

    /** A new string goes to the front of its bucket. */
    method Insert(str: seq<bv8>, r: Ref)
      requires Valid() && r !in text && r != 0 && forall s :: s in text ==> text[s] != str
      modifies this
      ensures Valid() && text == old(text)[r := str] && |vect| == old(|vect|) && nuse == old(nuse) + 1
    {
      hide Flat, IsChain, InPlace, PowerOfTwo, Chains, Once, Interned;
      SizeAtMost(|vect|);
      var h := hashOf(str) % |vect|;
      ModLess(hashOf(str), |vect|);
      Places(r);
      InternedMore(text, r, str);
      LinkNew(str, r, h);
      nuse := nuse + 1;
      forall b, s | 0 <= b < |chains| && s in chains[b]
        ensures InPlace(HashOf(s), b, 0, |vect|, |vect|)
      {
        if s == r {
          HashPlace(hashOf(str), b, |vect|);
        }
      }
    }

    /** The string is linked to the front of bucket `h`. */
    method LinkNew(str: seq<bv8>, r: Ref, h: nat)
      requires Valid() && r !in text && r != 0 && h < |vect|
      modifies this`text, this`next, this`vect, this`chains
      ensures text == old(text)[r := str] && |vect| == old(|vect|)
      ensures chains == old(chains)[h := [r] + old(chains)[h]] && |chains| == |vect|
      ensures Chains(next, vect[..|vect|], chains) && Once(Flat(chains))
      ensures forall s :: s in text <==> s in Flat(chains)
    {
      hide Flat, IsChain, Interned, PowerOfTwo, Rehashing;
      NewLinked(next, vect, chains, r) by { assert vect[..|vect|] == vect; }
      assert vect[..|vect|] == vect;
      ghost var flat := Flat(chains);
      assert forall s :: s in flat + multiset([r]) <==> s in flat || s == r;
      text := text[r := str];
      next := next[r := 0];
      LinkFront(r, h, [r]);
      assert [r][1..] == [] && Flat(chains) + multiset([]) == Flat(chains);
      assert vect[..|vect|] == vect;
    }

    /** internshrstr: the string with these contents, a new one (at the free address `r`) only if
        there was none. A full table grows first; `fails` tells whether the allocation does. */
    method Intern(str: seq<bv8>, r: Ref, fails: bool) returns (ts: Ref)
      requires Valid() && r !in text && r != 0
      modifies this
      ensures Valid() && ts in text && text[ts] == str
      ensures (exists s :: s in old(text) && old(text)[s] == str) ==> text == old(text)
      ensures !(exists s :: s in old(text) && old(text)[s] == str) ==> ts == r && text == old(text)[r := str]
      ensures |vect| == if ts == r && old(nuse) >= old(|vect|) && old(|vect|) <= MAXSTRTB / 2 && !fails
                        then 2 * old(|vect|) else old(|vect|)
      ensures old(nuse) <= old(|vect|) <= MAXSTRTB / 2 && !fails ==> nuse <= |vect|
    {
      hide Table, Flat, Interned, PowerOfTwo;
      ts := Find(str);
      if ts == 0 {
        PowerPositive(|vect|);
        if nuse >= |vect| && |vect| <= MAXSTRTB / 2 {
          DoubleSize(|vect|);
          Resize(|vect| * 2, fails);
        }
        Insert(str, r);
        ts := r;
      }
    }

    /** The place of a string in its bucket: the walk of luaS_remove. */
    method Walk(ts: Ref, b: nat) returns (prev: Ref, ghost k: nat)
      requires Valid() && ts in text && b < |vect| && b < |chains| && ts in chains[b] && vect[b] != ts
      ensures 0 < k < |chains[b]| && chains[b][k] == ts && chains[b][k - 1] == prev
      ensures prev in next && next[prev] == ts
    {
      hide Table, Flat, Interned, PowerOfTwo;
      ChainText(b);
      prev := vect[b];
      k := 1;
      ghost var todo := chains[b];
      while next[prev] != ts
        invariant 0 < k <= |chains[b]| && todo == chains[b][k - 1..] && prev != 0 && prev != ts
        invariant IsChain(next, prev, todo) && ts in todo
        decreases |todo|
      {
        FirstKnown(next, prev, todo);
        assert todo == [prev] + todo[1..];
        prev := next[prev];
        todo := todo[1..];
        k := k + 1;
      }
      FirstKnown(next, prev, todo);
      assert todo == [prev] + todo[1..] && todo[1..] != [] && todo[1] == ts;
    }

    /** The links of bucket `b` without the string `ts`. */
    method CutOut(ts: Ref, b: nat) returns (ghost k: nat)
      requires Valid() && ts in text && b < |vect| && b < |chains| && ts in chains[b]
      modifies this`next, this`vect, this`chains
      ensures k < |old(chains)[b]| && old(chains)[b][k] == ts && |vect| == old(|vect|)
      ensures chains == old(chains)[b := Without(old(chains)[b], k)]
      ensures Chains(next, vect, chains)
    {
      hide Table, Flat, Interned, PowerOfTwo;
      ChainText(b);
      ghost var rs := chains[b];
      ghost var next0, vect0, chains0 := next, vect, chains;
      if vect[b] == ts {
        k := 0;
        assert Without(rs, 0) == rs[1..];
        LinksAre();
        vect := vect[b := next[ts]];
      } else {
        var prev;
        prev, k := Walk(ts, b);
        InChain(next, vect[b], rs, k);
        LinksAre();
        next := next[prev := next[ts]];
        ChainCut(next0, next, vect[b], rs, k);
        forall d | 0 <= d < |chains| && d != b
          ensures IsChain(next, vect[d], chains[d])
        {
          Apart(b, d, prev);
          ChainKept(next0, next, vect[d], chains[d]);
        }
      }
      chains := chains[b := Without(rs, k)];
    }

    lemma LinksAre()
      requires Valid()
      ensures Chains(next, vect, chains) && Once(Flat(chains))
    {
      assert vect[..|vect|] == vect;
    }

    lemma Apart(b: nat, d: nat, r: Ref)
      requires Once(Flat(chains)) && b < |chains| && d < |chains| && b != d && r in chains[b]
      ensures r !in chains[d]
    {
      FlatApart(chains, b, d, r);
    }

    /** luaS_remove */
    method Remove(ts: Ref)
      requires Valid() && ts in text
      modifies this
      ensures Valid() && text == old(text) - {ts} && |vect| == old(|vect|)
    {
      hide Flat, IsChain, InPlace, PowerOfTwo, Interned, Once, Chains, Without;
      SizeAtMost(|vect|);
      var b := hashOf(text[ts]) % |vect|;
      ModLess(hashOf(text[ts]), |vect|);
      Bucket(ts);
      TextPlaces();
      LinksAre();
      InternedLess(text, ts);
      ghost var c0 := chains;
      ghost var k := CutOut(ts, b);
      CutStrings(c0, b, k);
      text := text - {ts};
      nuse := nuse - 1;
      Replaced(c0, b, k, ts);
    }

    /** Every remaining string is still in the bucket of its hash. */
    lemma Replaced(c0: seq<seq<Ref>>, b: nat, k: nat, ts: Ref)
      requires |vect| > 0 && |c0| == |vect| && b < |c0| && k < |c0[b]| && chains == c0[b := Without(c0[b], k)]
      requires forall r :: r in Flat(chains) ==> r in text
      requires forall d, s :: 0 <= d < |c0| && s in c0[d] && s in text ==> InPlace(hashOf(text[s]), d, 0, |vect|, |vect|)
      requires Chains(next, vect, chains) && Once(Flat(chains))
      ensures Table(|vect|)
    {
      hide Flat, IsChain, InPlace, Without;
      CutMultiset(c0[b], k);
      assert vect[..|vect|] == vect;
      forall d, s | 0 <= d < |chains| && s in chains[d]
        ensures InPlace(HashOf(s), d, 0, |vect|, |vect|)
      {
        FlatHas(chains, d, s);
        assert s in c0[d];
      }
    }

    lemma TextPlaces()
      requires Valid()
      ensures forall b, s :: 0 <= b < |chains| && s in chains[b] ==>
                s in text && InPlace(hashOf(text[s]), b, 0, |vect|, |vect|)
    {
      forall b, s | 0 <= b < |chains| && s in chains[b]
        ensures s in text && InPlace(hashOf(text[s]), b, 0, |vect|, |vect|)
      {
        FlatHas(chains, b, s);
        assert InPlace(HashOf(s), b, 0, |vect|, |vect|);
      }
    }
  }
}
