/** Sequence notions used across components: stable sorting by a key, filtering, membership. */
module Sequences {

  ghost predicate SortedBy<T>(key: T -> nat, xs: seq<T>) {
    forall i, j :: 0 <= i < j < |xs| ==> key(xs[i]) <= key(xs[j])
  }

  ghost predicate DistinctBy<T>(key: T -> nat, xs: seq<T>) {
    forall i, j :: 0 <= i < j < |xs| ==> key(xs[i]) != key(xs[j])
  }

  ghost predicate Distinct<T>(xs: seq<T>) {
    forall i, j :: 0 <= i < j < |xs| ==> xs[i] != xs[j]
  }

  /** Insert behind every element whose key is not greater: later equals stay later. */
  function InsertBy<T>(key: T -> nat, xs: seq<T>, x: T): (ys: seq<T>)
    ensures |ys| == |xs| + 1
  {
    if xs == [] || key(xs[|xs| - 1]) <= key(x) then xs + [x]
    else InsertBy(key, xs[..|xs| - 1], x) + [xs[|xs| - 1]]
  }

  /** `sort_by_key`: a stable sort. */
  function SortBy<T>(key: T -> nat, xs: seq<T>): (ys: seq<T>)
    ensures |ys| == |xs|
  {
    if xs == [] then [] else InsertBy(key, SortBy(key, xs[..|xs| - 1]), xs[|xs| - 1])
  }

  lemma {:induction false} InsertByKeeps<T>(key: T -> nat, xs: seq<T>, x: T)
    requires SortedBy(key, xs)
    ensures SortedBy(key, InsertBy(key, xs, x))
    ensures multiset(InsertBy(key, xs, x)) == multiset(xs) + multiset{x}
    ensures forall y :: y in InsertBy(key, xs, x) <==> y == x || y in xs
  {
    if xs == [] || key(xs[|xs| - 1]) <= key(x) {
      assert InsertBy(key, xs, x) == xs + [x];
    } else {
      var front, last := xs[..|xs| - 1], xs[|xs| - 1];
      InsertByKeeps(key, front, x);
      assert xs == front + [last];
      var ys := InsertBy(key, front, x);
      forall i | 0 <= i < |ys| ensures key(ys[i]) <= key(last) {
        var y := ys[i];
        assert y in multiset(front) + multiset{x};
        if y != x {
          assert y in front;
          var j :| 0 <= j < |front| && front[j] == ys[i];
          assert key(xs[j]) <= key(xs[|xs| - 1]);
        }
      }
      assert InsertBy(key, xs, x) == ys + [last];
    }
  }

  lemma {:induction false} SortBySorts<T>(key: T -> nat, xs: seq<T>)
    ensures SortedBy(key, SortBy(key, xs))
    ensures multiset(SortBy(key, xs)) == multiset(xs)
    ensures forall y :: y in SortBy(key, xs) <==> y in xs
  {
    if xs == [] {
    } else {
      var front, last := xs[..|xs| - 1], xs[|xs| - 1];
      assert xs == front + [last];
      SortBySorts(key, front);
      InsertByKeeps(key, SortBy(key, front), last);
    }
  }

  lemma {:induction false} SortByIdentity<T>(key: T -> nat, xs: seq<T>)
    requires SortedBy(key, xs)
    ensures SortBy(key, xs) == xs
  {
    if xs == [] {
    } else {
      var front := xs[..|xs| - 1];
      SortByIdentity(key, front);
      assert xs == front + [xs[|xs| - 1]];
    }
  }

  /** With distinct keys the sorted order of a collection does not depend on how it was listed. */
  lemma {:induction false} SortedUnique<T>(key: T -> nat, xs: seq<T>, ys: seq<T>)
    requires SortedBy(key, xs) && SortedBy(key, ys) && DistinctBy(key, xs)
    requires multiset(xs) == multiset(ys)
    ensures xs == ys
  {
    assert |xs| == |multiset(xs)| == |multiset(ys)| == |ys|;
    if xs == [] {
    } else {
      var n := |xs| - 1;
      SameLast(key, xs, ys);
      DropLast(key, xs);
      DropLast(key, ys);
      DistinctPrefix(key, xs);
      SortedUnique(key, xs[..n], ys[..n]);
      AppendLast(xs, ys);
    }
  }

  lemma AppendLast<T>(xs: seq<T>, ys: seq<T>)
    requires |xs| == |ys| > 0 && xs[..|xs| - 1] == ys[..|ys| - 1] && xs[|xs| - 1] == ys[|ys| - 1]
    ensures xs == ys
  {
    assert xs == xs[..|xs| - 1] + [xs[|xs| - 1]];
    assert ys == ys[..|ys| - 1] + [ys[|ys| - 1]];
  }

  lemma DistinctPrefix<T>(key: T -> nat, xs: seq<T>)
    requires xs != [] && DistinctBy(key, xs)
    ensures DistinctBy(key, xs[..|xs| - 1])
  {
  }

  lemma DropLast<T>(key: T -> nat, xs: seq<T>)
    requires xs != [] && SortedBy(key, xs)
    ensures SortedBy(key, xs[..|xs| - 1])
    ensures multiset(xs[..|xs| - 1]) == multiset(xs) - multiset{xs[|xs| - 1]}
  {
    assert xs == xs[..|xs| - 1] + [xs[|xs| - 1]];
  }

  lemma SameLast<T>(key: T -> nat, xs: seq<T>, ys: seq<T>)
    requires SortedBy(key, xs) && SortedBy(key, ys) && DistinctBy(key, xs)
    requires multiset(xs) == multiset(ys) && |xs| == |ys| > 0
    ensures xs[|xs| - 1] == ys[|ys| - 1]
  {
    var n := |xs| - 1;
    assert xs[n] in multiset(ys) && ys[n] in multiset(xs);
    var i :| 0 <= i < |xs| && xs[i] == ys[n];
    var j :| 0 <= j < |ys| && ys[j] == xs[n];
    assert key(xs[i]) <= key(xs[n]);
    assert key(ys[j]) <= key(ys[n]);
    assert i == n;
  }

  /** Cross out the last element of one listing in another listing of the same elements. */
  lemma CrossOut<T>(xs: seq<T>, ys: seq<T>) returns (j: nat)
    requires xs != [] && multiset(xs) == multiset(ys)
    ensures |xs| == |ys| && j < |ys| && ys[j] == xs[|xs| - 1]
    ensures ys == ys[..j] + [ys[j]] + ys[j + 1..]
    ensures multiset(xs[..|xs| - 1]) == multiset(ys[..j] + ys[j + 1..])
  {
    var x := xs[|xs| - 1];
    assert |xs| == |multiset(xs)| == |multiset(ys)| == |ys|;
    assert x in multiset(ys);
    j :| 0 <= j < |ys| && ys[j] == x;
    assert xs == xs[..|xs| - 1] + [x];
    assert ys == ys[..j] + [ys[j]] + ys[j + 1..];
    assert multiset(ys) == multiset(ys[..j]) + multiset{x} + multiset(ys[j + 1..]);
    assert multiset(xs) == multiset(xs[..|xs| - 1]) + multiset{x};
    assert multiset(ys[..j] + ys[j + 1..]) == multiset(ys[..j]) + multiset(ys[j + 1..]) == multiset(ys) - multiset{x};
    assert multiset(xs[..|xs| - 1]) == multiset(xs) - multiset{x};
  }

  lemma {:induction false} MapPermutes<T, U>(f: T -> U, xs: seq<T>, ys: seq<T>)
    requires multiset(xs) == multiset(ys)
    ensures multiset(Map(f, xs)) == multiset(Map(f, ys))
  {
    if xs == [] {
      assert |ys| == |multiset(ys)| == 0;
    } else {
      var n := |xs| - 1;
      var j := CrossOut(xs, ys);
      MapPermutes(f, xs[..n], ys[..j] + ys[j + 1..]);
      MapSplit(f, ys, j);
      MapSplit(f, xs, n);
      assert xs[..n] + xs[n + 1..] == xs[..n];
    }
  }

  lemma MapSplit<T, U>(f: T -> U, ys: seq<T>, j: nat)
    requires j < |ys|
    ensures multiset(Map(f, ys)) == multiset(Map(f, ys[..j] + ys[j + 1..])) + multiset{f(ys[j])}
  {
    assert Map(f, ys) == Map(f, ys[..j]) + [f(ys[j])] + Map(f, ys[j + 1..]);
    assert Map(f, ys[..j] + ys[j + 1..]) == Map(f, ys[..j]) + Map(f, ys[j + 1..]);
  }

  lemma {:induction false} FilterPermutes<T>(p: T -> bool, xs: seq<T>, ys: seq<T>)
    requires multiset(xs) == multiset(ys)
    ensures multiset(Filter(p, xs)) == multiset(Filter(p, ys))
    ensures |Filter(p, xs)| == |Filter(p, ys)|
  {
    if xs == [] {
      assert |ys| == |multiset(ys)| == 0;
    } else {
      var n := |xs| - 1;
      var j := CrossOut(xs, ys);
      FilterPermutes(p, xs[..n], ys[..j] + ys[j + 1..]);
      FilterSplit(p, ys, j);
      FilterSplit(p, xs, n);
      assert xs[..n] + xs[n + 1..] == xs[..n];
    }
  }

  lemma FilterSplit<T>(p: T -> bool, ys: seq<T>, j: nat)
    requires j < |ys|
    ensures
      var rest := Filter(p, ys[..j] + ys[j + 1..]);
      && |Filter(p, ys)| == |rest| + (if p(ys[j]) then 1 else 0)
      && multiset(Filter(p, ys)) == multiset(rest) + (if p(ys[j]) then multiset{ys[j]} else multiset{})
  {
    assert ys == ys[..j] + ([ys[j]] + ys[j + 1..]);
    FilterConcat(p, ys[..j], [ys[j]] + ys[j + 1..]);
    FilterConcat(p, [ys[j]], ys[j + 1..]);
    FilterConcat(p, ys[..j], ys[j + 1..]);
    var one := [ys[j]];
    assert one[..|one| - 1] == [] && Filter(p, one) == if p(ys[j]) then one else [];
  }

  lemma {:induction false} DistinctByPermutes<T>(key: T -> nat, xs: seq<T>, ys: seq<T>)
    requires DistinctBy(key, xs) && multiset(xs) == multiset(ys)
    ensures DistinctBy(key, ys)
  {
    forall i, j | 0 <= i < j < |ys| ensures key(ys[i]) != key(ys[j]) {
      var x, y := ys[i], ys[j];
      if key(x) == key(y) {
        assert x in multiset(xs) && y in multiset(xs);
        var a :| 0 <= a < |xs| && xs[a] == x;
        var b :| 0 <= b < |xs| && xs[b] == y;
        assert a == b;
        TwiceInMultiset(ys, i, j);
        OnceInMultiset(key, xs, a);
        assert false;
      }
    }
  }

  lemma TwiceInMultiset<T>(xs: seq<T>, i: nat, j: nat)
    requires i < j < |xs| && xs[i] == xs[j]
    ensures multiset(xs)[xs[i]] >= 2
  {
    assert xs == xs[..j] + [xs[j]] + xs[j + 1..];
    assert xs[i] in multiset(xs[..j]) by { assert xs[..j][i] == xs[i]; }
  }

  lemma OnceInMultiset<T>(key: T -> nat, xs: seq<T>, a: nat)
    requires DistinctBy(key, xs) && a < |xs|
    ensures multiset(xs)[xs[a]] == 1
  {
    assert xs == xs[..a] + [xs[a]] + xs[a + 1..];
    assert xs[a] !in xs[..a] && xs[a] !in xs[a + 1..];
  }

  lemma {:induction false} SortByPermutation<T>(key: T -> nat, xs: seq<T>, ys: seq<T>)
    requires DistinctBy(key, xs) && multiset(xs) == multiset(ys)
    ensures SortBy(key, xs) == SortBy(key, ys)
  {
    SortBySorts(key, xs);
    SortBySorts(key, ys);
    DistinctByPermutes(key, xs, SortBy(key, xs));
    SortedUnique(key, SortBy(key, xs), SortBy(key, ys));
  }

  /** The elements that satisfy `p`, in order. */
  function Filter<T>(p: T -> bool, xs: seq<T>): (ys: seq<T>)
    ensures |ys| <= |xs|
  {
    if xs == [] then []
    else
      var front := Filter(p, xs[..|xs| - 1]);
      if p(xs[|xs| - 1]) then front + [xs[|xs| - 1]] else front
  }

  lemma {:induction false} FilterConcat<T>(p: T -> bool, xs: seq<T>, ys: seq<T>)
    ensures Filter(p, xs + ys) == Filter(p, xs) + Filter(p, ys)
  {
    if ys == [] {
      assert xs + ys == xs;
    } else {
      var n := |ys| - 1;
      FilterConcat(p, xs, ys[..n]);
      assert (xs + ys)[..|xs| + n] == xs + ys[..n];
      assert (xs + ys)[|xs| + n] == ys[n];
    }
  }

  lemma {:induction false} FilterNone<T>(p: T -> bool, xs: seq<T>)
    requires forall x :: x in xs ==> !p(x)
    ensures Filter(p, xs) == []
  {
    if xs == [] {
    } else {
      FilterNone(p, xs[..|xs| - 1]);
    }
  }

  lemma {:induction false} FilterAll<T>(p: T -> bool, xs: seq<T>)
    requires forall x :: x in xs ==> p(x)
    ensures Filter(p, xs) == xs
  {
    if xs == [] {
    } else {
      FilterAll(p, xs[..|xs| - 1]);
      assert xs == xs[..|xs| - 1] + [xs[|xs| - 1]];
    }
  }

  lemma {:induction false} FilterMember<T>(p: T -> bool, xs: seq<T>, x: T)
    ensures x in Filter(p, xs) <==> x in xs && p(x)
  {
    if xs == [] {
    } else {
      FilterMember(p, xs[..|xs| - 1], x);
      assert xs == xs[..|xs| - 1] + [xs[|xs| - 1]];
    }
  }

  /** Two filters of which every element passes exactly one split the elements. */
  lemma {:induction false} FilterPartition<T>(p: T -> bool, q: T -> bool, xs: seq<T>)
    requires forall x :: x in xs ==> (p(x) <==> !q(x))
    ensures multiset(xs) == multiset(Filter(p, xs)) + multiset(Filter(q, xs))
  {
    if xs == [] {
    } else {
      FilterPartition(p, q, xs[..|xs| - 1]);
      assert xs == xs[..|xs| - 1] + [xs[|xs| - 1]];
    }
  }

  /** The sequence with elements i and j exchanged. */
  function Swapped<T>(xs: seq<T>, i: nat, j: nat): (ys: seq<T>)
    requires i < j < |xs|
    ensures |ys| == |xs| && ys[i] == xs[j] && ys[j] == xs[i]
    ensures forall k :: 0 <= k < |xs| && k != i && k != j ==> ys[k] == xs[k]
  {
    xs[i := xs[j]][j := xs[i]]
  }

  lemma SwapPermutes<T>(xs: seq<T>, i: nat, j: nat)
    requires i < j < |xs|
    ensures multiset(Swapped(xs, i, j)) == multiset(xs)
  {
    assert xs == xs[..i] + [xs[i]] + xs[i + 1..j] + [xs[j]] + xs[j + 1..];
    assert Swapped(xs, i, j) == xs[..i] + [xs[j]] + xs[i + 1..j] + [xs[i]] + xs[j + 1..];
  }

  function Map<T, U>(f: T -> U, xs: seq<T>): (ys: seq<U>)
    ensures |ys| == |xs| && forall i :: 0 <= i < |xs| ==> ys[i] == f(xs[i])
  {
    seq(|xs|, i requires 0 <= i < |xs| => f(xs[i]))
  }
}
