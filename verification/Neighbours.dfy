/** Two neighbouring arrivals for a key that change places: exactly when that shows. */
module Neighbours {
  import opened Wrappers
  import opened Float64
  import opened InputBuffering
  import opened ArrivalOrder
  import opened Duplicates

  function Crossed(j: nat, n: nat): nat { if j == n then n + 1 else if j == n + 1 then n else j }

  lemma CrossedAt<T>(a: seq<T>, c: T, d: T, b: seq<T>, j: nat)
    requires j < |a| + 2 + |b|
    ensures Crossed(j, |a|) < |a| + 2 + |b| && (a + [d, c] + b)[Crossed(j, |a|)] == (a + [c, d] + b)[j]
  {
  }

  lemma CrossedPermutes<T>(a: seq<T>, c: T, d: T, b: seq<T>)
    ensures multiset(a + [c, d] + b) == multiset(a + [d, c] + b)
  {
    SwapLast(a, c, d);
  }

  /** An untied newest command is where its place was moved to. */
  lemma CrossedBest<F>(a: seq<InputCmd<F>>, c: InputCmd<F>, d: InputCmd<F>, b: seq<InputCmd<F>>)
    requires !Tied(a + [c, d] + b)
    ensures !Tied(a + [d, c] + b) && Best(a + [d, c] + b) == Crossed(Best(a + [c, d] + b), |a|)
    ensures (a + [d, c] + b)[Best(a + [d, c] + b)] == (a + [c, d] + b)[Best(a + [c, d] + b)]
  {
    var cs, ds, k := a + [c, d] + b, a + [d, c] + b, Best(a + [c, d] + b);
    CrossedAt(a, c, d, b, k);
    forall j | 0 <= j < |ds| && j != Crossed(k, |a|) ensures ds[j].inputSeq < cs[k].inputSeq {
      CrossedAt(a, d, c, b, j);
      AloneOnTop(cs, Crossed(j, |a|));
    }
    LoneIndex(ds, Crossed(k, |a|));
  }

  /** Both are admitted: the newest is neither of the two, or the clamp it gains or loses does not show. */
  ghost predicate HarmlessBoth<F>(ar: Arith<F>, a: seq<InputCmd<F>>, c: InputCmd<F>, d: InputCmd<F>, b: seq<InputCmd<F>>) {
    var cs := a + [c, d] + b;
    var k := Best(cs);
    var least := ClampTimes(ar, 1 + |b|, cs[k].moveDir);
    Tied(cs) || k < |a| || k > |a| + 1 || Clamp(ar, least) == least
  }

  /** Only the first of the two is admitted: both would win, alike, or neither, or all choices are tied. */
  ghost predicate HarmlessChoice<F>(ar: Arith<F>, a: seq<InputCmd<F>>, c: InputCmd<F>, d: InputCmd<F>) {
    if a == [] then Arrived(ar, c) == Arrived(ar, d)
    else
      var top := a[Best(a)].inputSeq;
      if c.inputSeq > top || d.inputSeq > top then Arrived(ar, c) == Arrived(ar, d)
      else Tied(a) || (c.inputSeq == top <==> d.inputSeq == top)
  }

  /** What a caller can check of two neighbours c and d between the arrivals a and b. */
  ghost predicate HarmlessSwap<F>(
    ar: Arith<F>, limit: nat, a: seq<InputCmd<F>>, c: InputCmd<F>, d: InputCmd<F>, b: seq<InputCmd<F>>)
  {
    var m := Max(1, limit);
    if |a| >= m then true
    else if |a| + 1 == m then HarmlessChoice(ar, a, c, d)
    else HarmlessBoth(ar, a, c, d, b[..Min(|b|, m - 2 - |a|)])
  }

  lemma ClampedBy<F>(ar: Arith<F>, cs: seq<InputCmd<F>>, k: nat, cmd: InputCmd<F>, n: nat)
    requires cs != [] && !Tied(cs) && k == Best(cs) && cmd == cs[k] && n == |cs| - k
    ensures Winner(ar, cs).Some? && Winner(ar, cs).value == cmd.(moveDir := ClampTimes(ar, n, cmd.moveDir))
  {
    SelectedAt(ar, cs, k, cmd, n);
  }

  lemma SameClamps<F>(ar: Arith<F>, cmd: InputCmd<F>, n: nat)
    ensures cmd.(moveDir := ClampTimes(ar, n + 1, cmd.moveDir)) == cmd.(moveDir := ClampTimes(ar, n, cmd.moveDir))
      <==> Clamp(ar, ClampTimes(ar, n, cmd.moveDir)) == ClampTimes(ar, n, cmd.moveDir)
  {
    assert ClampTimes(ar, n + 1, cmd.moveDir) == Clamp(ar, ClampTimes(ar, n, cmd.moveDir));
  }

  /** The winner is clamped |cs| - k times, and as often as its new place says after the swap. */
  lemma CrossedWinner<F>(
    ar: Arith<F>, a: seq<InputCmd<F>>, c: InputCmd<F>, d: InputCmd<F>, b: seq<InputCmd<F>>, k: nat, cmd: InputCmd<F>)
    requires !Tied(a + [c, d] + b) && k == Best(a + [c, d] + b) && cmd == (a + [c, d] + b)[k]
    ensures
      var n := |a| + 2 + |b|;
      && Winner(ar, a + [c, d] + b) == Some(cmd.(moveDir := ClampTimes(ar, n - k, cmd.moveDir)))
      && Crossed(k, |a|) <= n
      && Winner(ar, a + [d, c] + b) == Some(cmd.(moveDir := ClampTimes(ar, n - Crossed(k, |a|), cmd.moveDir)))
  {
    var cs, ds := a + [c, d] + b, a + [d, c] + b;
    CrossedBest(a, c, d, b);
    ClampedBy(ar, cs, k, cmd, |cs| - k);
    ClampedBy(ar, ds, Best(ds), cmd, |ds| - Best(ds));
  }

  lemma CrossedExact<F>(ar: Arith<F>, a: seq<InputCmd<F>>, c: InputCmd<F>, d: InputCmd<F>, b: seq<InputCmd<F>>, k: nat, cmd: InputCmd<F>)
    requires !Tied(a + [c, d] + b) && k == Best(a + [c, d] + b) && cmd == (a + [c, d] + b)[k]
    ensures
      var least := ClampTimes(ar, 1 + |b|, cmd.moveDir);
      Winner(ar, a + [c, d] + b) == Winner(ar, a + [d, c] + b) <==> k < |a| || k > |a| + 1 || Clamp(ar, least) == least
  {
    CrossedWinner(ar, a, c, d, b, k, cmd);
    SameClamps(ar, cmd, 1 + |b|);
  }

  lemma BothExact<F>(ar: Arith<F>, a: seq<InputCmd<F>>, c: InputCmd<F>, d: InputCmd<F>, b: seq<InputCmd<F>>)
    ensures Winner(ar, a + [c, d] + b) == Winner(ar, a + [d, c] + b) <==> HarmlessBoth(ar, a, c, d, b)
  {
    var cs := a + [c, d] + b;
    if !Tied(cs) {
      CrossedExact(ar, a, c, d, b, Best(cs), cs[Best(cs)]);
    } else if !Tied(a + [d, c] + b) {
      CrossedBest(a, d, c, b);
    }
  }

  lemma ChoiceExact<F>(ar: Arith<F>, a: seq<InputCmd<F>>, c: InputCmd<F>, d: InputCmd<F>)
    ensures Winner(ar, a + [c]) == Winner(ar, a + [d]) <==> HarmlessChoice(ar, a, c, d)
  {
    if a == [] {
      LoneArrival(ar, a + [c]);
      LoneArrival(ar, a + [d]);
    } else {
      AppendedWinner(ar, a, c);
      AppendedWinner(ar, a, d);
    }
  }

  lemma LoneArrival<F>(ar: Arith<F>, cs: seq<InputCmd<F>>)
    requires |cs| == 1
    ensures Winner(ar, cs) == Some(Arrived(ar, cs[0]))
  {
    LoneBest(ar, cs, 0);
    ClampTimesOne(ar, cs[0].moveDir);
  }

  lemma AdmittedCrossed<F>(limit: nat, a: seq<InputCmd<F>>, c: InputCmd<F>, d: InputCmd<F>, b: seq<InputCmd<F>>)
    ensures
      var m, cs := Max(1, limit), Admitted(limit, a + [c, d] + b);
      if |a| >= m then cs == Admitted(limit, a)
      else if |a| + 1 == m then cs == a + [c]
      else cs == a + [c, d] + b[..Min(|b|, m - 2 - |a|)]
  {
  }

  /** Two neighbours that change places leave the selection as it was exactly when that is harmless. */
  lemma SwapExact<F>(ar: Arith<F>, limit: nat, a: seq<InputCmd<F>>, c: InputCmd<F>, d: InputCmd<F>, b: seq<InputCmd<F>>)
    ensures Selection(EntryAfter(ar, limit, a + [c, d] + b)) == Selection(EntryAfter(ar, limit, a + [d, c] + b))
      <==> HarmlessSwap(ar, limit, a, c, d, b)
  {
    var m := Max(1, limit);
    SelectionMeetsSpec(ar, limit, a + [c, d] + b);
    SelectionMeetsSpec(ar, limit, a + [d, c] + b);
    AdmittedCrossed(limit, a, c, d, b);
    AdmittedCrossed(limit, a, d, c, b);
    if |a| + 1 == m {
      ChoiceExact(ar, a, c, d);
    } else if |a| < m {
      BothExact(ar, a, c, d, b[..Min(|b|, m - 2 - |a|)]);
    }
  }
}
