/** `ORDER BY` on a key: the members of a set, smallest first, and the first few of them. */
module Ascending {

  predicate Increasing(xs: seq<int>) {
    forall i, j | 0 <= i < j < |xs| :: xs[i] < xs[j]
  }

  function Members(xs: seq<int>): (s: set<int>)
    ensures forall x :: x in s <==> x in xs
  {
    set x | x in xs
  }

  lemma HasMember(s: set<int>)
    ensures s == {} || exists x :: x in s
  {
    if forall x :: x !in s {
      assert s == {};
    }
  }

  lemma {:induction false} FindLeast(s: set<int>) returns (least: int)
    requires s != {}
    ensures least in s && forall x | x in s :: least <= x
    decreases |s|
  {
    HasMember(s);
    least :| least in s;
    if s != {least} {
      var n := FindLeast(s - {least});
      assert forall x | x in s :: x == least || x in s - {least};
      least := if least <= n then least else n;
    }
  }

  function Least(s: set<int>): (least: int)
    requires s != {}
    ensures least in s && forall x | x in s :: least <= x
  {
    assert exists m :: m in s && forall x | x in s :: m <= x by {
      var m := FindLeast(s);
    }
    var m :| m in s && forall x | x in s :: m <= x;
    m
  }

  lemma ConsMembers(x: int, xs: seq<int>)
    ensures Members([x] + xs) == {x} + Members(xs)
  {
  }

  lemma ConsIncreasing(x: int, xs: seq<int>)
    requires Increasing(xs) && forall y | y in xs :: x < y
    ensures Increasing([x] + xs)
  {
    var all := [x] + xs;
    forall i, j | 0 <= i < j < |all| ensures all[i] < all[j] {
      assert all[j] == xs[j - 1] && xs[j - 1] in xs;
      if i > 0 {
        assert all[i] == xs[i - 1];
      }
    }
  }

  lemma LeastFirst(s: set<int>, m: int, rest: seq<int>)
    requires m in s && forall x | x in s :: m <= x
    requires Increasing(rest) && Members(rest) == s - {m} && |rest| == |s - {m}|
    ensures Increasing([m] + rest) && Members([m] + rest) == s && |[m] + rest| == |s|
  {
    assert forall y | y in rest :: y in Members(rest);
    ConsIncreasing(m, rest);
    ConsMembers(m, rest);
  }

  function Sorted(s: set<int>): (xs: seq<int>)
    ensures Increasing(xs) && Members(xs) == s && |xs| == |s|
    decreases |s|
  {
    if s == {} then []
    else
      var m := Least(s);
      var rest := Sorted(s - {m});
      LeastFirst(s, m, rest);
      [m] + rest
  }

  lemma FirstIsLeast(xs: seq<int>)
    requires Increasing(xs) && xs != []
    ensures forall x | x in Members(xs) :: xs[0] <= x
    ensures Increasing(xs[1..]) && Members(xs[1..]) == Members(xs) - {xs[0]}
  {
    assert xs == [xs[0]] + xs[1..];
    ConsMembers(xs[0], xs[1..]);
  }

  lemma NoMembers(xs: seq<int>)
    ensures xs == [] <==> Members(xs) == {}
  {
    if xs != [] {
      assert xs[0] in Members(xs);
    }
  }

  /** An increasing listing is determined by what it lists. */
  lemma {:induction false} IncreasingIsUnique(xs: seq<int>, ys: seq<int>)
    requires Increasing(xs) && Increasing(ys) && Members(xs) == Members(ys)
    ensures xs == ys
    decreases |xs|
  {
    if xs == [] || ys == [] {
      NoMembers(xs);
      NoMembers(ys);
    } else {
      FirstIsLeast(xs);
      FirstIsLeast(ys);
      assert xs[0] in Members(ys) && ys[0] in Members(xs);
      IncreasingIsUnique(xs[1..], ys[1..]);
      assert xs == [xs[0]] + xs[1..] && ys == [ys[0]] + ys[1..];
    }
  }

  lemma IndexOf(xs: seq<int>, x: int) returns (i: nat)
    requires x in xs
    ensures i < |xs| && xs[i] == x
  {
    i :| 0 <= i < |xs| && xs[i] == x;
  }

  lemma SubsetSize(small: set<int>, big: set<int>)
    requires small <= big
    ensures |small| <= |big|
    ensures |small| == |big| ==> small == big
  {
    assert big == small + (big - small);
  }

  function AtMost(n: nat, size: nat): (k: nat) {
    if size <= n then size else n
  }

  /** The `n` smallest members: `ORDER BY … LIMIT n`. */
  function Lowest(s: set<int>, n: nat): (xs: seq<int>)
    ensures Increasing(xs) && |xs| == AtMost(n, |s|)
  {
    Sorted(s)[..AtMost(n, |s|)]
  }

  /** It lists members only, and whatever it leaves out is above everything it lists. */
  lemma LowestTakesTheSmallest(s: set<int>, n: nat)
    ensures forall x | x in Lowest(s, n) :: x in s
    ensures forall x, y | x in s && y in Lowest(s, n) && x <= y :: x in Lowest(s, n)
  {
    var all, k := Sorted(s), AtMost(n, |s|);
    assert forall x :: x in s <==> x in all;
    forall x, y | x in s && y in all[..k] && x <= y ensures x in all[..k] {
      var i := IndexOf(all, x);
      var j := IndexOf(all[..k], y);
      assert all[j] == y;
      assert i <= j;
      assert all[..k][i] == x;
    }
  }
  lemma PrefixGrows(xs: seq<int>, k: nat)
    requires Increasing(xs) && k < |xs|
    ensures xs[k] !in Members(xs[..k]) && Members(xs[..k + 1]) == Members(xs[..k]) + {xs[k]}
  {
    assert xs[..k + 1] == xs[..k] + [xs[k]];
  }

  lemma {:induction false} IncreasingCount(xs: seq<int>, k: nat)
    requires Increasing(xs) && k <= |xs|
    ensures |Members(xs[..k])| == k
  {
    if k == 0 {
      assert Members(xs[..0]) == {};
    } else {
      IncreasingCount(xs, k - 1);
      PrefixGrows(xs, k - 1);
    }
  }

  function Below(s: set<int>, x: int): set<int> {
    set y | y in s && y < x
  }

  /** Taking the lowest `n` takes exactly those with fewer than `n` below them. */
  lemma LowestByRank(s: set<int>, n: nat, x: int)
    ensures x in Lowest(s, n) <==> x in s && |Below(s, x)| < n
  {
    var all, k := Sorted(s), AtMost(n, |s|);
    assert forall y :: y in s <==> y in all;
    if x in s {
      var i := IndexOf(all, x);
      IncreasingCount(all, i);
      forall y ensures y in Below(s, x) <==> y in Members(all[..i]) {
        if y in Below(s, x) {
          var j := IndexOf(all, y);
          assert all[..i][j] == y;
        }
      }
      assert Below(s, x) == Members(all[..i]);
      if i < k {
        assert all[..k][i] == x;
      }
    }
  }
}
