/** The candidate orderings of the brute-force planner (`Route` in
    data/router.py): the recursive permutation generator, the "return trip"
    orderings in which one waypoint is visited twice, the filter that drops
    orderings with a self-loop, and the step that wraps every ordering with
    the home index 0. */
module Permutations {

  function Fact(n: nat): (r: nat)
    ensures r >= 1
  {
    if n <= 1 then 1 else n * Fact(n - 1)
  }

  predicate Distinct<T(==)>(xs: seq<T>) {
    forall a, b :: 0 <= a < b < |xs| ==> xs[a] != xs[b]
  }

  /** `lst[:i] + lst[i+1:]` */
  function Remove(s: seq<int>, i: nat): (r: seq<int>)
    requires i < |s|
    ensures |r| == |s| - 1
  {
    s[..i] + s[i + 1..]
  }

  /** `[x] + perm` for every `perm` of `ps`, in order. */
  function Prepend(x: int, ps: seq<seq<int>>): (r: seq<seq<int>>)
    ensures |r| == |ps|
    ensures forall k :: 0 <= k < |ps| ==> r[k] == [x] + ps[k]
  {
    seq(|ps|, k requires 0 <= k < |ps| => [x] + ps[k])
  }

  // ---------------------------------------------------------------------
  // Route.permutations
  // ---------------------------------------------------------------------

  /** The orderings `Route.permutations(lst)` yields, in the order it yields
      them: `[lst]` itself when `lst` has at most one element, otherwise one
      block per index `i` of `lst`, holding `[lst[i]] + p` for every
      ordering `p` of the other elements. */
  function Perms(s: seq<int>): seq<seq<int>>
    decreases |s|, 1
  {
    if |s| <= 1 then [s] else Blocks(s, |s|)
  }

  /** The first `k` blocks of `Perms(s)`. */
  function Blocks(s: seq<int>, k: nat): seq<seq<int>>
    requires k <= |s|
    decreases |s|, 0, k
  {
    if k == 0 then [] else Blocks(s, k - 1) + Prepend(s[k - 1], Perms(Remove(s, k - 1)))
  }

  lemma MultisetRemove(s: seq<int>, i: nat)
    requires i < |s|
    ensures multiset(Remove(s, i)) + multiset{s[i]} == multiset(s)
  {
    assert s == s[..i] + [s[i]] + s[i + 1..];
  }

  lemma DistinctRemove(s: seq<int>, i: nat)
    requires i < |s| && Distinct(s)
    ensures Distinct(Remove(s, i))
  {
    var r := Remove(s, i);
    forall a, b | 0 <= a < b < |r|
      ensures r[a] != r[b]
    {
      var a' := if a < i then a else a + 1;
      var b' := if b < i then b else b + 1;
      assert r[a] == s[a'] && r[b] == s[b'];
    }
  }

  /** There are `len(lst)!` orderings (one when `len(lst) <= 1`). */
  lemma {:induction false} PermsCount(s: seq<int>)
    ensures |Perms(s)| == Fact(|s|)
    decreases |s|, 1
  {
    if |s| > 1 {
      BlocksCount(s, |s|);
    }
  }

  lemma {:induction false} BlocksCount(s: seq<int>, k: nat)
    requires 2 <= |s| && k <= |s|
    ensures |Blocks(s, k)| == k * Fact(|s| - 1)
    decreases |s|, 0, k
  {
    if k > 0 {
      BlocksCount(s, k - 1);
      PermsCount(Remove(s, k - 1));
      assert (k - 1) * Fact(|s| - 1) + Fact(|s| - 1) == k * Fact(|s| - 1);
    }
  }

  /** Every ordering rearranges `lst`: same length, same elements with the
      same multiplicities. */
  lemma {:induction false} PermsAreRearrangements(s: seq<int>)
    ensures forall q :: 0 <= q < |Perms(s)| ==>
      |Perms(s)[q]| == |s| && multiset(Perms(s)[q]) == multiset(s)
    decreases |s|, 1
  {
    if |s| > 1 {
      BlocksAreRearrangements(s, |s|);
    }
  }

  /** What block `i` of `Perms(s)` holds: rearrangements of `s` headed by `s[i]`. */
  lemma BlockIsRearrangement(s: seq<int>, i: nat)
    requires 2 <= |s| && i < |s|
    ensures forall q :: 0 <= q < |Perms(Remove(s, i))| ==>
      |Prepend(s[i], Perms(Remove(s, i)))[q]| == |s|
      && multiset(Prepend(s[i], Perms(Remove(s, i)))[q]) == multiset(s)
      && Prepend(s[i], Perms(Remove(s, i)))[q][0] == s[i]
    decreases |s|, 0, i
  {
    var r := Remove(s, i);
    PermsAreRearrangements(r);
    MultisetRemove(s, i);
    var block := Prepend(s[i], Perms(r));
    forall q | 0 <= q < |block|
      ensures |block[q]| == |s| && multiset(block[q]) == multiset(s) && block[q][0] == s[i]
    {
      var p := Perms(r)[q];
      assert block[q] == [s[i]] + p;
      assert multiset([s[i]] + p) == multiset{s[i]} + multiset(p);
    }
  }

  lemma {:induction false} BlocksAreRearrangements(s: seq<int>, k: nat)
    requires 2 <= |s| && k <= |s|
    ensures forall q :: 0 <= q < |Blocks(s, k)| ==>
      |Blocks(s, k)[q]| == |s| && multiset(Blocks(s, k)[q]) == multiset(s)
      && exists m :: 0 <= m < k && Blocks(s, k)[q][0] == s[m]
    decreases |s|, 0, k
  {
    if k > 0 {
      BlocksAreRearrangements(s, k - 1);
      BlockIsRearrangement(s, k - 1);
      var prev := Blocks(s, k - 1);
      var block := Prepend(s[k - 1], Perms(Remove(s, k - 1)));
      var all := Blocks(s, k);
      assert all == prev + block;
      forall q | 0 <= q < |all|
        ensures |all[q]| == |s| && multiset(all[q]) == multiset(s)
          && exists m :: 0 <= m < k && all[q][0] == s[m]
      {
        if q < |prev| {
          assert all[q] == prev[q];
          var m :| 0 <= m < k - 1 && prev[q][0] == s[m];
        } else {
          assert all[q] == block[q - |prev|];
          assert all[q][0] == s[k - 1];
        }
      }
    }
  }

  /** Blocks already produced are never changed by later blocks. */
  lemma {:induction false} BlocksPrefix(s: seq<int>, k: nat, k': nat)
    requires k <= k' <= |s|
    ensures |Blocks(s, k)| <= |Blocks(s, k')|
    ensures forall q :: 0 <= q < |Blocks(s, k)| ==> Blocks(s, k')[q] == Blocks(s, k)[q]
    decreases k' - k
  {
    if k < k' {
      BlocksPrefix(s, k, k' - 1);
    }
  }

  /** The orderings are grouped by first element, in input order: the
      `j`-th ordering of block `i` is `[lst[i]]` followed by the `j`-th
      ordering of the remaining elements. */
  lemma PermsBlockAt(s: seq<int>, i: nat, j: nat)
    requires 2 <= |s| && i < |s| && j < Fact(|s| - 1)
    ensures |Perms(Remove(s, i))| == Fact(|s| - 1)
    ensures i * Fact(|s| - 1) + j < |Perms(s)|
    ensures Perms(s)[i * Fact(|s| - 1) + j] == [s[i]] + Perms(Remove(s, i))[j]
  {
    PermsCount(Remove(s, i));
    BlockAtOffset(s, i, j);
    BlocksCount(s, i);
  }

  /** Block `i` of `Perms(s)` starts right after the first `i` blocks. */
  lemma BlockAtOffset(s: seq<int>, i: nat, j: nat)
    requires 2 <= |s| && i < |s| && j < |Perms(Remove(s, i))|
    ensures |Blocks(s, i)| + j < |Perms(s)|
    ensures Perms(s)[|Blocks(s, i)| + j] == [s[i]] + Perms(Remove(s, i))[j]
  {
    BlocksPrefix(s, i + 1, |s|);
    var prev := Blocks(s, i);
    var block := Prepend(s[i], Perms(Remove(s, i)));
    assert Blocks(s, i + 1) == prev + block;
    assert (prev + block)[|prev| + j] == block[j];
  }

  lemma ConcatDistinct(a: seq<seq<int>>, b: seq<seq<int>>)
    requires Distinct(a) && Distinct(b)
    requires forall x, y :: 0 <= x < |a| && 0 <= y < |b| ==> a[x] != b[y]
    ensures Distinct(a + b)
  {
    var c := a + b;
    forall x, y | 0 <= x < y < |c|
      ensures c[x] != c[y]
    {
      if y < |a| {
        assert c[x] == a[x] && c[y] == a[y];
      } else if x >= |a| {
        assert c[x] == b[x - |a|] && c[y] == b[y - |a|];
      } else {
        assert c[x] == a[x] && c[y] == b[y - |a|];
      }
    }
  }

  /** No ordering is produced twice when `lst` has distinct elements. */
  lemma {:induction false} PermsDistinct(s: seq<int>)
    requires Distinct(s)
    ensures Distinct(Perms(s))
    decreases |s|, 1
  {
    if |s| > 1 {
      BlocksDistinct(s, |s|);
    }
  }

  lemma {:induction false} BlocksDistinct(s: seq<int>, k: nat)
    requires 2 <= |s| && k <= |s| && Distinct(s)
    ensures Distinct(Blocks(s, k))
    decreases |s|, 0, k
  {
    if k > 0 {
      var r := Remove(s, k - 1);
      BlocksDistinct(s, k - 1);
      DistinctRemove(s, k - 1);
      PermsDistinct(r);
      BlocksAreRearrangements(s, k - 1);
      var prev := Blocks(s, k - 1);
      var block := Prepend(s[k - 1], Perms(r));
      forall x, y | 0 <= x < y < |block|
        ensures block[x] != block[y]
      {
        assert block[x][1..] == Perms(r)[x];
        assert block[y][1..] == Perms(r)[y];
      }
      forall x, y | 0 <= x < |prev| && 0 <= y < |block|
        ensures prev[x] != block[y]
      {
        var m :| 0 <= m < k - 1 && prev[x][0] == s[m];
        assert block[y][0] == s[k - 1];
      }
      ConcatDistinct(prev, block);
    }
  }

  // ---------------------------------------------------------------------
  // Route.specialPerms
  // ---------------------------------------------------------------------

  /** The first `k` blocks of `specialPerms(lst)`: block `i` is
      `permutations([lst[i]] + lst)`. */
  function SpecialBlocks(s: seq<int>, k: nat): seq<seq<int>>
    requires k <= |s|
  {
    if k == 0 then [] else SpecialBlocks(s, k - 1) + Perms([s[k - 1]] + s)
  }

  /** `Route.specialPerms`: the loop concatenating one block per index. */
  method SpecialPerms(lst: seq<int>) returns (res: seq<seq<int>>)
    ensures res == SpecialBlocks(lst, |lst|)
  {
    res := [];
    for i := 0 to |lst|
      invariant res == SpecialBlocks(lst, i)
    {
      var current := Perms([lst[i]] + lst);
      res := res + current;
    }
  }

  /** There are `len(lst) * (len(lst)+1)!` return-trip orderings. */
  lemma {:induction false} SpecialCount(s: seq<int>, k: nat)
    requires k <= |s|
    ensures |SpecialBlocks(s, k)| == k * Fact(|s| + 1)
  {
    if k > 0 {
      SpecialCount(s, k - 1);
      PermsCount([s[k - 1]] + s);
      assert (k - 1) * Fact(|s| + 1) + Fact(|s| + 1) == k * Fact(|s| + 1);
    }
  }

  /** Every return-trip ordering has `len(lst) + 1` elements: those of
      `lst` with exactly one of them duplicated. */
  lemma {:induction false} SpecialElements(s: seq<int>, k: nat)
    requires k <= |s|
    ensures forall q :: 0 <= q < |SpecialBlocks(s, k)| ==>
      |SpecialBlocks(s, k)[q]| == |s| + 1
      && exists i :: 0 <= i < k && multiset(SpecialBlocks(s, k)[q]) == multiset(s) + multiset{s[i]}
  {
    if k > 0 {
      SpecialElements(s, k - 1);
      var prev := SpecialBlocks(s, k - 1);
      var all := SpecialBlocks(s, k);
      assert all == prev + Perms([s[k - 1]] + s);
      forall q | 0 <= q < |all|
        ensures |all[q]| == |s| + 1
          && exists i :: 0 <= i < k && multiset(all[q]) == multiset(s) + multiset{s[i]}
      {
        if q < |prev| {
          assert all[q] == prev[q];
          var i :| 0 <= i < k - 1 && multiset(prev[q]) == multiset(s) + multiset{s[i]};
          assert 0 <= i < k && multiset(all[q]) == multiset(s) + multiset{s[i]};
        } else {
          SpecialBlockEntry(s, k - 1, all[q]);
        }
      }
    }
  }

  /** An ordering of `[lst[i]] + lst` has `lst` with `lst[i]` duplicated. */
  lemma SpecialBlockEntry(s: seq<int>, i: nat, p: seq<int>)
    requires i < |s| && p in Perms([s[i]] + s)
    ensures |p| == |s| + 1 && multiset(p) == multiset(s) + multiset{s[i]}
  {
    var t := [s[i]] + s;
    PermsAreRearrangements(t);
    assert multiset(t) == multiset{s[i]} + multiset(s);
  }

  lemma {:induction false} SpecialBlocksPrefix(s: seq<int>, k: nat, k': nat)
    requires k <= k' <= |s|
    ensures |SpecialBlocks(s, k)| <= |SpecialBlocks(s, k')|
    ensures forall q :: 0 <= q < |SpecialBlocks(s, k)| ==> SpecialBlocks(s, k')[q] == SpecialBlocks(s, k)[q]
    decreases k' - k
  {
    if k < k' {
      SpecialBlocksPrefix(s, k, k' - 1);
    }
  }

  /** The blocks are concatenated in index order: the `j`-th ordering of
      block `i` is the `j`-th ordering of `permutations([lst[i]] + lst)`. */
  lemma SpecialBlockAt(s: seq<int>, i: nat, j: nat)
    requires i < |s| && j < Fact(|s| + 1)
    ensures |Perms([s[i]] + s)| == Fact(|s| + 1)
    ensures i * Fact(|s| + 1) + j < |SpecialBlocks(s, |s|)|
    ensures SpecialBlocks(s, |s|)[i * Fact(|s| + 1) + j] == Perms([s[i]] + s)[j]
  {
    SpecialCount(s, i);
    PermsCount([s[i]] + s);
    SpecialBlockAtOffset(s, i, j);
  }

  /** Block `i` of the return-trip orderings starts right after the first
      `i` blocks. */
  lemma SpecialBlockAtOffset(s: seq<int>, i: nat, j: nat)
    requires i < |s| && j < |Perms([s[i]] + s)|
    ensures |SpecialBlocks(s, i)| + j < |SpecialBlocks(s, |s|)|
    ensures SpecialBlocks(s, |s|)[|SpecialBlocks(s, i)| + j] == Perms([s[i]] + s)[j]
  {
    SpecialBlocksPrefix(s, i + 1, |s|);
    var prev := SpecialBlocks(s, i);
    var block := Perms([s[i]] + s);
    assert SpecialBlocks(s, i + 1) == prev + block;
    assert (prev + block)[|prev| + j] == block[j];
  }

  // ---------------------------------------------------------------------
  // Route.removeAdjacent
  // ---------------------------------------------------------------------

  /** Some position `k` has `l[k] == l[k+1]`: the ordering flies a leg from a
      waypoint to itself. */
  predicate HasSelfLoop(l: seq<int>) {
    exists k :: 0 <= k < |l| - 1 && l[k] == l[k + 1]
  }

  /** The orderings of `ls` without a self-loop, in their original order. */
  function WithoutSelfLoops(ls: seq<seq<int>>): seq<seq<int>>
    decreases |ls|
  {
    if ls == [] then []
    else WithoutSelfLoops(ls[..|ls| - 1]) + (if HasSelfLoop(ls[|ls| - 1]) then [] else [ls[|ls| - 1]])
  }

  /** `Route.removeAdjacent`: scan each ordering for an adjacent repeat,
      stopping at the first one, and keep the ordering if there is none. */
  method RemoveAdjacent(lst: seq<seq<int>>) returns (res: seq<seq<int>>)
    ensures res == WithoutSelfLoops(lst)
  {
    res := [];
    for i := 0 to |lst|
      invariant res == WithoutSelfLoops(lst[..i])
    {
      var l := lst[i];
      var duplicate := false;
      var idx := 0;
      while idx < |l|
        invariant 0 <= idx <= |l|
        invariant forall k :: 0 <= k < idx && k < |l| - 1 ==> l[k] != l[k + 1]
      {
        if idx != |l| - 1 && l[idx] == l[idx + 1] {
          duplicate := true;
          break;
        }
        idx := idx + 1;
      }
      assert duplicate == HasSelfLoop(l);
      if !duplicate {
        res := res + [l];
      }
      assert lst[..i + 1][..i] == lst[..i];
    }
    assert lst[..|lst|] == lst;
  }

  /** Exactly the orderings without a self-loop are kept. */
  lemma {:induction false} WithoutSelfLoopsMembers(ls: seq<seq<int>>, l: seq<int>)
    ensures l in WithoutSelfLoops(ls) <==> l in ls && !HasSelfLoop(l)
    decreases |ls|
  {
    if ls != [] {
      var init := ls[..|ls| - 1];
      WithoutSelfLoopsMembers(init, l);
      assert ls == init + [ls[|ls| - 1]];
    }
  }

  /** Filtering commutes with concatenation, so the kept orderings keep their
      relative order. */
  lemma {:induction false} WithoutSelfLoopsConcat(a: seq<seq<int>>, b: seq<seq<int>>)
    ensures WithoutSelfLoops(a + b) == WithoutSelfLoops(a) + WithoutSelfLoops(b)
    decreases |b|
  {
    if b == [] {
      assert a + b == a;
    } else {
      var init := b[..|b| - 1];
      WithoutSelfLoopsConcat(a, init);
      assert (a + b)[..|a + b| - 1] == a + init;
    }
  }

  // ---------------------------------------------------------------------
  // Route.__addHome
  // ---------------------------------------------------------------------

  /** One ordering with home added: 0 in front, and 0 at the end when the
      route is closed. */
  function HomeWrapped(r: seq<int>, closed: bool): (w: seq<int>)
    ensures |w| == |r| + (if closed then 2 else 1)
    ensures w[0] == 0 && w[1..|r| + 1] == r
    ensures closed ==> w[|w| - 1] == 0
  {
    [0] + r + (if closed then [0] else [])
  }

  function WithHome(rs: seq<seq<int>>, closed: bool): seq<seq<int>> {
    seq(|rs|, k requires 0 <= k < |rs| => HomeWrapped(rs[k], closed))
  }

  /** `Route.__addHome`: inserts 0 at the front of every ordering in place,
      and appends 0 when the route is closed. */
  method AddHome(routes: array<seq<int>>, closed: bool)
    modifies routes
    ensures routes[..] == WithHome(old(routes[..]), closed)
  {
    for i := 0 to routes.Length
      invariant forall k :: 0 <= k < i ==> routes[k] == HomeWrapped(old(routes[k]), closed)
      invariant forall k :: i <= k < routes.Length ==> routes[k] == old(routes[k])
    {
      routes[i] := [0] + routes[i];
      if closed {
        routes[i] := routes[i] + [0];
      }
    }
  }
}
