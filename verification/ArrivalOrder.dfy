/**
 Arrival order: what the order in which commands reach a buffer entry can change.

 A stored selection is clamped again on every later arrival, so the answers depend on
 whether clamping the winner twice is clamping it once. `OrderFreeExact` holds for
 every list of commands, limit and arithmetic.
 */
module ArrivalOrder {
  import opened Wrappers
  import opened Sequences
  import opened Float64
  import opened Plane
  import opened InputBuffering

  /** A direction the server lets through to the buffer. */
  predicate Usable<F>(ar: Arith<F>, dir: seq<F>) {
    |dir| == 2 && ar.IsFinite(dir[0]) && ar.IsFinite(dir[1])
  }

  ghost predicate AllUsable<F>(ar: Arith<F>, cs: seq<InputCmd<F>>) {
    forall i :: 0 <= i < |cs| ==> Usable(ar, cs[i].moveDir)
  }

  /** Clamping the direction a second time leaves it as the first time did. */
  ghost predicate ClampStable<F>(ar: Arith<F>, dir: seq<F>) {
    Clamp(ar, Clamp(ar, dir)) == Clamp(ar, dir)
  }

  ghost predicate ClampIdempotent<F(!new)>(ar: Arith<F>) {
    forall dir: seq<F> :: Usable(ar, dir) ==> ClampStable(ar, dir)
  }

  lemma {:induction false} ClampOnce<F>(ar: Arith<F>, n: nat, dir: seq<F>)
    requires ClampStable(ar, dir) && n > 0
    ensures ClampTimes(ar, n, dir) == Clamp(ar, dir)
  {
    if n == 1 {
      ClampTimesOne(ar, dir);
    } else {
      ClampOnce(ar, n - 1, dir);
    }
  }

  lemma ClampTimesOne<F>(ar: Arith<F>, dir: seq<F>)
    ensures ClampTimes(ar, 1, dir) == Clamp(ar, dir)
    ensures ClampTimes(ar, 2, dir) == Clamp(ar, Clamp(ar, dir))
  {
    assert ClampTimes(ar, 0, dir) == dir;
    assert ClampTimes(ar, 1, dir) == Clamp(ar, ClampTimes(ar, 0, dir));
    assert ClampTimes(ar, 2, dir) == Clamp(ar, ClampTimes(ar, 1, dir));
  }

  /** Over the reals, clamping twice is clamping once: what was clamped has length one. */
  lemma RealsClampIdempotent(ar: Arith<real>)
    requires Exact(ar)
    ensures ClampIdempotent(ar)
  {
    forall dir: seq<real> | Usable(ar, dir) ensures ClampStable(ar, dir) {
      if NeedsClamp(ar, dir) {
        ClampedToUnit(ar, dir);
      }
    }
  }

  lemma ClampedToUnit(ar: Arith<real>, dir: seq<real>)
    requires Exact(ar) && |dir| == 2 && NeedsClamp(ar, dir)
    ensures !NeedsClamp(ar, Clamp(ar, dir))
  {
    var v := Vec2(dir[0], dir[1]);
    var root := ar.sqrt(ar.MagnitudeSquared(v));
    assert ar.MagnitudeSquared(v) == NormSq(v) > 1.0;
    UnitScale(v, root);
    Quotient(v.x, root);
    Quotient(v.y, root);
    var clamped := Clamp(ar, dir);
    assert clamped[0] == v.x * (1.0 / root) && clamped[1] == v.y * (1.0 / root);
    assert ar.MagnitudeSquared(Vec2(clamped[0], clamped[1])) == NormSq(Vec2(clamped[0], clamped[1]));
  }

  lemma Quotient(x: real, root: real)
    requires root != 0.0
    ensures x / root == x * (1.0 / root)
  {
  }

  // Permutations.

  /** A member of a permutation whose number is not below the best one is the untied best. */
  lemma OnlyBest<F>(ps: seq<InputCmd<F>>, cmd: InputCmd<F>)
    requires ps != [] && !Tied(ps) && cmd in ps && cmd.inputSeq >= ps[Best(ps)].inputSeq
    ensures cmd == ps[Best(ps)]
  {
    var k :| 0 <= k < |ps| && ps[k] == cmd;
    assert k == Best(ps);
  }

  lemma OccursOnceBetween<T>(a: seq<T>, x: T, b: seq<T>)
    requires x !in a && x !in b
    ensures multiset(a + [x] + b)[x] == 1
  {
  }

  lemma BestOccursOnce<F>(ps: seq<InputCmd<F>>)
    requires ps != [] && !Tied(ps)
    ensures multiset(ps)[ps[Best(ps)]] == 1
  {
    var b := Best(ps);
    assert ps == ps[..b] + [ps[b]] + ps[b + 1..];
    OccursOnceBetween(ps[..b], ps[b], ps[b + 1..]);
  }

  lemma SameWinner<F>(ps: seq<InputCmd<F>>, qs: seq<InputCmd<F>>)
    requires ps != [] && qs != [] && multiset(ps) == multiset(qs) && !Tied(ps)
    ensures !Tied(qs) && qs[Best(qs)] == ps[Best(ps)]
  {
    var b, c := Best(ps), Best(qs);
    assert ps[b] in multiset(qs);
    var m :| 0 <= m < |qs| && qs[m] == ps[b];
    assert qs[c] in multiset(ps);
    OnlyBest(ps, qs[c]);
    if Tied(qs) {
      var i :| c < i < |qs| && qs[i].inputSeq == qs[c].inputSeq;
      assert qs[i] in multiset(ps);
      OnlyBest(ps, qs[i]);
      TwiceInMultiset(qs, c, i);
      BestOccursOnce(ps);
    }
  }

  /** Feeding commands to an entry, in terms of the admitted ones. */
  lemma AdmitAllSelects<F>(ar: Arith<F>, limit: nat, cs: seq<InputCmd<F>>)
    ensures Selection(AdmitAll(ar, limit, cs)) == Selection(EntryAfter(ar, limit, cs)) == Winner(ar, Admitted(limit, cs))
  {
    AdmitAllMeetsSpec(ar, limit, cs);
    SelectionMeetsSpec(ar, limit, cs);
  }

  // When order does not matter for a list of commands.

  /** The newest command of the list is tied, or clamped alike however often. */
  ghost predicate StableWinner<F>(ar: Arith<F>, cs: seq<InputCmd<F>>) {
    cs == [] || Tied(cs) || ClampStable(ar, cs[Best(cs)].moveDir)
  }

  /** The winning command clamped once, or nothing. */
  lemma WinnerClampedOnce<F>(ar: Arith<F>, cs: seq<InputCmd<F>>)
    requires cs != [] && StableWinner(ar, cs)
    ensures Winner(ar, cs) == if Tied(cs) then None else Some(Arrived(ar, cs[Best(cs)]))
  {
    if !Tied(cs) {
      ClampOnce(ar, |cs| - Best(cs), cs[Best(cs)].moveDir);
    }
  }

  /** A command as its own arrival leaves it. */
  function Arrived<F>(ar: Arith<F>, cmd: InputCmd<F>): InputCmd<F> { cmd.(moveDir := Clamp(ar, cmd.moveDir)) }

  lemma SameWinnerOfAll<F>(ar: Arith<F>, ps: seq<InputCmd<F>>, qs: seq<InputCmd<F>>)
    requires StableWinner(ar, ps) && ps != [] && qs != [] && multiset(ps) == multiset(qs)
    ensures Winner(ar, ps) == Winner(ar, qs) && (Tied(ps) <==> Tied(qs))
  {
    if !Tied(ps) {
      SameWinner(ps, qs);
    } else if !Tied(qs) {
      SameWinner(qs, ps);
    }
    WinnerClampedOnce(ar, ps);
    WinnerClampedOnce(ar, qs);
  }

  lemma SameLength<T>(ps: seq<T>, qs: seq<T>)
    requires multiset(ps) == multiset(qs)
    ensures |ps| == |qs|
  {
    assert |ps| == |multiset(ps)| == |multiset(qs)| == |qs|;
  }

  /**
   Arrival order does not matter where clamping the winner twice is clamping it once: any
   reordering of at most max(1, limit) commands for a key selects the same command, and
   selects none exactly when the greatest sequence number is shared.
   */
  lemma ArrivalOrderIndependence<F>(ar: Arith<F>, limit: nat, ps: seq<InputCmd<F>>, qs: seq<InputCmd<F>>)
    requires StableWinner(ar, ps) && multiset(ps) == multiset(qs) && |ps| <= Max(1, limit)
    ensures Selection(AdmitAll(ar, limit, ps)) == Selection(AdmitAll(ar, limit, qs))
    ensures ps != [] ==> (Selection(AdmitAll(ar, limit, ps)).None? <==> Tied(ps))
  {
    SameLength(ps, qs);
    assert Admitted(limit, ps) == ps && Admitted(limit, qs) == qs;
    AdmitAllSelects(ar, limit, ps);
    AdmitAllSelects(ar, limit, qs);
    if ps != [] {
      SameWinnerOfAll(ar, ps, qs);
    }
  }

  // Exactly when order does not matter for a list of commands.

  /** No reordering of the commands for a key changes what is selected. */
  ghost predicate OrderFree<F(!new)>(ar: Arith<F>, limit: nat, ps: seq<InputCmd<F>>) {
    forall qs: seq<InputCmd<F>> :: multiset(ps) == multiset(qs) ==>
      Selection(AdmitAll(ar, limit, ps)) == Selection(AdmitAll(ar, limit, qs))
  }

  lemma TwoOrders<F(!new)>(ar: Arith<F>, limit: nat, ps: seq<InputCmd<F>>, qs: seq<InputCmd<F>>, rs: seq<InputCmd<F>>)
    requires multiset(ps) == multiset(qs) == multiset(rs)
    requires Selection(AdmitAll(ar, limit, qs)) != Selection(AdmitAll(ar, limit, rs))
    ensures !OrderFree(ar, limit, ps)
  {
  }

  lemma SelectedAt<F>(ar: Arith<F>, cs: seq<InputCmd<F>>, b: nat, cmd: InputCmd<F>, n: nat)
    requires cs != [] && b == Best(cs) && cmd == cs[b] && n == |cs| - b
    ensures EntryFor(ar, cs).selected == cmd.(moveDir := ClampTimes(ar, n, cmd.moveDir))
  {
  }

  /** A lone greatest sequence number wins, clamped once for its arrival and once for each later one. */
  lemma LoneBest<F>(ar: Arith<F>, cs: seq<InputCmd<F>>, b: nat)
    requires b < |cs| && forall j :: 0 <= j < |cs| && j != b ==> cs[j].inputSeq < cs[b].inputSeq
    ensures Winner(ar, cs) == Some(cs[b].(moveDir := ClampTimes(ar, |cs| - b, cs[b].moveDir)))
  {
    LoneIndex(cs, b);
    SelectedAt(ar, cs, b, cs[b], |cs| - b);
  }

  lemma LoneIndex<F>(cs: seq<InputCmd<F>>, b: nat)
    requires b < |cs| && forall j :: 0 <= j < |cs| && j != b ==> cs[j].inputSeq < cs[b].inputSeq
    ensures Best(cs) == b && !Tied(cs)
  {
    var k := Best(cs);
    assert cs[b].inputSeq <= cs[k].inputSeq;
  }

  // Within the limit.

  lemma SwapLast<T>(xs: seq<T>, a: T, b: T)
    ensures multiset(xs + [a, b]) == multiset(xs + [b, a])
  {
    assert multiset([a, b]) == multiset([b, a]);
  }

  /** Within the limit, the newest command is clamped once more if it comes second to last. */
  lemma LastTwo<F>(ar: Arith<F>, limit: nat, front: seq<InputCmd<F>>, low: InputCmd<F>, high: InputCmd<F>)
    requires |front| + 2 <= Max(1, limit) && low.inputSeq < high.inputSeq
    requires forall i :: 0 <= i < |front| ==> front[i].inputSeq < high.inputSeq
    ensures multiset(front + [low, high]) == multiset(front + [high, low])
    ensures Selection(AdmitAll(ar, limit, front + [low, high])) == Selection(AdmitAll(ar, limit, front + [high, low]))
      <==> ClampStable(ar, high.moveDir)
  {
    var ps, qs := front + [low, high], front + [high, low];
    assert Admitted(limit, ps) == ps && Admitted(limit, qs) == qs;
    AdmitAllSelects(ar, limit, ps);
    AdmitAllSelects(ar, limit, qs);
    LoneBest(ar, ps, |front| + 1);
    LoneBest(ar, qs, |front|);
    ClampTimesOne(ar, high.moveDir);
    SwapLast(front, low, high);
  }

  lemma MoveToEnd<T>(xs: seq<T>, b: nat)
    requires b < |xs|
    ensures multiset(xs[..b] + xs[b + 1..] + [xs[b]]) == multiset(xs)
  {
    assert xs == xs[..b] + [xs[b]] + xs[b + 1..];
  }

  lemma AloneOnTop<F>(ps: seq<InputCmd<F>>, i: nat)
    requires i < |ps| && !Tied(ps) && i != Best(ps)
    ensures ps[i].inputSeq < ps[Best(ps)].inputSeq
  {
  }

  /** The list with its untied newest command moved to the end. */
  lemma NewestLast<F>(ps: seq<InputCmd<F>>) returns (front: seq<InputCmd<F>>)
    requires |ps| >= 2 && !Tied(ps)
    ensures |front| == |ps| - 1 && multiset(ps) == multiset(front + [ps[Best(ps)]])
    ensures forall i :: 0 <= i < |front| ==> front[i].inputSeq < ps[Best(ps)].inputSeq
  {
    var b := Best(ps);
    front := ps[..b] + ps[b + 1..];
    MoveToEnd(ps, b);
    forall i | 0 <= i < |front| ensures front[i].inputSeq < ps[b].inputSeq {
      AloneOnTop(ps, if i < b then i else i + 1);
    }
  }

  lemma UnstableWinner<F(!new)>(ar: Arith<F>, limit: nat, ps: seq<InputCmd<F>>)
    requires 2 <= |ps| <= Max(1, limit) && !StableWinner(ar, ps)
    ensures !OrderFree(ar, limit, ps)
  {
    var high, n := ps[Best(ps)], |ps| - 2;
    var front := NewestLast(ps);
    assert front == front[..n] + [front[n]];
    assert front + [high] == front[..n] + [front[n], high];
    LastTwo(ar, limit, front[..n], front[n], high);
    TwoOrders(ar, limit, ps, front[..n] + [front[n], high], front[..n] + [high, front[n]]);
  }

  // Past a limit of one: the first arrival is selected.

  lemma FirstSelected<F>(ar: Arith<F>, limit: nat, ps: seq<InputCmd<F>>)
    requires ps != [] && limit <= 1
    ensures Selection(AdmitAll(ar, limit, ps)) == Some(Arrived(ar, ps[0]))
  {
    AdmitAllSelects(ar, limit, ps);
    LoneBest(ar, Admitted(limit, ps), 0);
    ClampTimesOne(ar, ps[0].moveDir);
  }

  ghost predicate ArriveAlike<F>(ar: Arith<F>, ps: seq<InputCmd<F>>) {
    forall i, j :: 0 <= i < |ps| && 0 <= j < |ps| ==> Arrived(ar, ps[i]) == Arrived(ar, ps[j])
  }

  lemma FirstDecides<F(!new)>(ar: Arith<F>, limit: nat, ps: seq<InputCmd<F>>)
    requires ps != [] && limit <= 1
    ensures OrderFree(ar, limit, ps) <==> ArriveAlike(ar, ps)
  {
    FirstSelected(ar, limit, ps);
    if ArriveAlike(ar, ps) {
      forall qs: seq<InputCmd<F>> | multiset(ps) == multiset(qs)
        ensures Selection(AdmitAll(ar, limit, ps)) == Selection(AdmitAll(ar, limit, qs))
      {
        SameLength(ps, qs);
        FirstSelected(ar, limit, qs);
        assert qs[0] in multiset(ps);
      }
    }
    if OrderFree(ar, limit, ps) {
      forall i | 0 < i < |ps| ensures Arrived(ar, ps[i]) == Arrived(ar, ps[0]) {
        SwapPermutes(ps, 0, i);
        FirstSelected(ar, limit, Swapped(ps, 0, i));
      }
    }
  }

  // Past a greater limit: which commands are admitted decides, unless all choices are tied.

  function IsBelow<F>(n: nat): InputCmd<F> -> bool { (c: InputCmd<F>) => c.inputSeq < n }

  function NotBelow<F>(n: nat): InputCmd<F> -> bool { (c: InputCmd<F>) => c.inputSeq >= n }

  /** The commands older than number n. */
  function Below<F>(cs: seq<InputCmd<F>>, n: nat): seq<InputCmd<F>> { Filter(IsBelow(n), cs) }

  /** A lone best command has all others below it. */
  lemma LoneAbove<F>(cs: seq<InputCmd<F>>)
    requires cs != [] && !Tied(cs)
    ensures |Below(cs, cs[Best(cs)].inputSeq)| == |cs| - 1
  {
    var b := Best(cs);
    var p := IsBelow<F>(cs[b].inputSeq);
    assert cs == cs[..b] + ([cs[b]] + cs[b + 1..]);
    FilterConcat(p, cs[..b], [cs[b]] + cs[b + 1..]);
    FilterConcat(p, [cs[b]], cs[b + 1..]);
    FilterAll(p, cs[..b]);
    FilterNone(p, [cs[b]]);
    FilterAll(p, cs[b + 1..]);
  }

  /** No m commands of the list have an untied greatest sequence number. */
  ghost predicate Crowded<F>(ps: seq<InputCmd<F>>, m: nat) {
    forall i :: 0 <= i < |ps| ==> |Below(ps, ps[i].inputSeq)| + 1 < m
  }

  lemma CrowdedTies<F>(ps: seq<InputCmd<F>>, qs: seq<InputCmd<F>>, m: nat)
    requires 1 <= m <= |qs| && multiset(ps) == multiset(qs) && Crowded(ps, m)
    ensures Tied(qs[..m])
  {
    var cs := qs[..m];
    if !Tied(cs) {
      var best := cs[Best(cs)];
      assert qs[Best(cs)] in multiset(ps);
      var i :| 0 <= i < |ps| && ps[i] == best;
      assert qs == cs + qs[m..];
      FilterConcat(IsBelow(best.inputSeq), cs, qs[m..]);
      FilterPermutes(IsBelow(best.inputSeq), ps, qs);
      LoneAbove(cs);
    }
  }

  /** The list reordered so that command i comes as number m, behind m - 1 older ones. */
  lemma Foremost<F>(ps: seq<InputCmd<F>>, i: nat, m: nat) returns (qs: seq<InputCmd<F>>)
    requires i < |ps| && 1 <= m <= |Below(ps, ps[i].inputSeq)| + 1
    ensures multiset(qs) == multiset(ps) && |qs| == |ps| && m <= |qs| && qs[m - 1] == ps[i]
    ensures forall k :: 0 <= k < m - 1 ==> qs[k].inputSeq < ps[i].inputSeq
  {
    var n := ps[i].inputSeq;
    var older, rest, j := OlderAndRest(ps, i);
    qs := older[..m - 1] + [rest[j]] + (older[m - 1..] + rest[..j] + rest[j + 1..]);
    Reassembled(older, m - 1, rest, j);
    SameLength(ps, qs);
    assert forall k :: 0 <= k < m - 1 ==> qs[k] == older[k];
  }

  lemma OlderAndRest<F>(ps: seq<InputCmd<F>>, i: nat)
    returns (older: seq<InputCmd<F>>, rest: seq<InputCmd<F>>, j: nat)
    requires i < |ps|
    ensures older == Below(ps, ps[i].inputSeq) && multiset(ps) == multiset(older) + multiset(rest)
    ensures j < |rest| && rest[j] == ps[i] && forall k :: 0 <= k < |older| ==> older[k].inputSeq < ps[i].inputSeq
  {
    var n := ps[i].inputSeq;
    older, rest := Below(ps, n), Filter(NotBelow(n), ps);
    OlderMembers(ps, n);
    FilterMember(NotBelow(n), ps, ps[i]);
    FilterPartition(IsBelow(n), NotBelow(n), ps);
    j :| 0 <= j < |rest| && rest[j] == ps[i];
  }

  lemma OlderMembers<F>(ps: seq<InputCmd<F>>, n: nat)
    ensures forall k :: 0 <= k < |Below(ps, n)| ==> Below(ps, n)[k].inputSeq < n
  {
    forall k | 0 <= k < |Below(ps, n)| ensures Below(ps, n)[k].inputSeq < n {
      FilterMember(IsBelow(n), ps, Below(ps, n)[k]);
    }
  }

  lemma Reassembled<T>(xs: seq<T>, k: nat, ys: seq<T>, j: nat)
    requires k <= |xs| && j < |ys|
    ensures multiset(xs[..k] + [ys[j]] + (xs[k..] + ys[..j] + ys[j + 1..])) == multiset(xs) + multiset(ys)
  {
    assert xs == xs[..k] + xs[k..];
    assert ys == ys[..j] + [ys[j]] + ys[j + 1..];
  }

  lemma SharedTop<F>(cs: seq<InputCmd<F>>)
    requires |cs| >= 2 && cs[|cs| - 2].inputSeq == cs[|cs| - 1].inputSeq
    requires forall k :: 0 <= k < |cs| - 2 ==> cs[k].inputSeq < cs[|cs| - 1].inputSeq
    ensures Tied(cs)
  {
    var b := Best(cs);
    assert cs[|cs| - 2].inputSeq <= cs[b].inputSeq;
    assert cs[|cs| - 1].inputSeq == cs[b].inputSeq;
  }

  lemma OtherTop<F>(ar: Arith<F>, cs: seq<InputCmd<F>>, n: nat)
    requires cs != [] && cs[|cs| - 1].inputSeq != n
    requires forall k :: 0 <= k < |cs| - 1 ==> cs[k].inputSeq < n
    ensures Winner(ar, cs).Some? ==> Winner(ar, cs).value.inputSeq != n
  {
    var b := Best(cs);
    assert cs[|cs| - 1].inputSeq <= cs[b].inputSeq;
  }

  /** A different choice of m commands that does not select the one at m - 1. */
  lemma OtherChoice<F>(ar: Arith<F>, qs: seq<InputCmd<F>>, m: nat) returns (rs: seq<InputCmd<F>>)
    requires 2 <= m < |qs| && forall k :: 0 <= k < m - 1 ==> qs[k].inputSeq < qs[m - 1].inputSeq
    ensures multiset(rs) == multiset(qs) && |rs| == |qs|
    ensures Winner(ar, rs[..m]).Some? ==> Winner(ar, rs[..m]).value.inputSeq != qs[m - 1].inputSeq
  {
    if qs[m].inputSeq == qs[m - 1].inputSeq {
      rs := Swapped(qs, m - 2, m);
      SwapPermutes(qs, m - 2, m);
      SharedTop(rs[..m]);
    } else {
      rs := Swapped(qs, m - 1, m);
      SwapPermutes(qs, m - 1, m);
      OtherTop(ar, rs[..m], qs[m - 1].inputSeq);
    }
  }

  lemma ChoiceDecides<F(!new)>(ar: Arith<F>, limit: nat, ps: seq<InputCmd<F>>)
    requires 2 <= limit < |ps| && !Crowded(ps, limit)
    ensures !OrderFree(ar, limit, ps)
  {
    var i :| 0 <= i < |ps| && |Below(ps, ps[i].inputSeq)| + 1 >= limit;
    var qs := Foremost(ps, i, limit);
    var rs := OtherChoice(ar, qs, limit);
    AdmitAllSelects(ar, limit, qs);
    AdmitAllSelects(ar, limit, rs);
    LoneBest(ar, qs[..limit], limit - 1);
    TwoOrders(ar, limit, ps, qs, rs);
  }

  lemma CrowdedSelectsNone<F(!new)>(ar: Arith<F>, limit: nat, ps: seq<InputCmd<F>>)
    requires 2 <= limit < |ps| && Crowded(ps, limit)
    ensures OrderFree(ar, limit, ps)
  {
    forall qs: seq<InputCmd<F>> | multiset(ps) == multiset(qs)
      ensures Selection(AdmitAll(ar, limit, qs)).None?
    {
      SameLength(ps, qs);
      CrowdedTies(ps, qs, limit);
      AdmitAllSelects(ar, limit, qs);
    }
  }

  /**
   What a caller can check of a list of commands for one key. Within the limit: the newest
   is tied, or clamped alike however often. Past a limit of one: all arrive alike. Past a
   greater limit: any choice of that many is tied.
   */
  ghost predicate Insensitive<F>(ar: Arith<F>, limit: nat, ps: seq<InputCmd<F>>) {
    if |ps| <= 1 then true
    else if |ps| <= Max(1, limit) then StableWinner(ar, ps)
    else if limit <= 1 then ArriveAlike(ar, ps)
    else Crowded(ps, limit)
  }

  /** Exactly when arrival order is irrelevant, for every list of commands, limit and arithmetic. */
  lemma OrderFreeExact<F(!new)>(ar: Arith<F>, limit: nat, ps: seq<InputCmd<F>>)
    ensures OrderFree(ar, limit, ps) <==> Insensitive(ar, limit, ps)
  {
    if |ps| <= 1 {
      forall qs: seq<InputCmd<F>> | multiset(ps) == multiset(qs)
        ensures Selection(AdmitAll(ar, limit, ps)) == Selection(AdmitAll(ar, limit, qs))
      {
        FewAreEqual(ps, qs);
      }
    } else if |ps| <= Max(1, limit) {
      if StableWinner(ar, ps) {
        forall qs: seq<InputCmd<F>> | multiset(ps) == multiset(qs)
          ensures Selection(AdmitAll(ar, limit, ps)) == Selection(AdmitAll(ar, limit, qs))
        {
          ArrivalOrderIndependence(ar, limit, ps, qs);
        }
      } else {
        UnstableWinner(ar, limit, ps);
      }
    } else if limit <= 1 {
      FirstDecides(ar, limit, ps);
    } else if Crowded(ps, limit) {
      CrowdedSelectsNone(ar, limit, ps);
    } else {
      ChoiceDecides(ar, limit, ps);
    }
  }

  lemma FewAreEqual<T>(ps: seq<T>, qs: seq<T>)
    requires multiset(ps) == multiset(qs) && |ps| <= 1
    ensures ps == qs
  {
    SameLength(ps, qs);
    if |ps| == 1 {
      assert qs[0] in multiset(ps);
    }
  }

  // Exactly when order does not matter for any n commands.

  /** No reordering of n usable commands for a key changes what is selected. */
  ghost predicate OrderIndependent<F(!new)>(ar: Arith<F>, limit: nat, n: nat) {
    forall ps: seq<InputCmd<F>> :: |ps| == n && AllUsable(ar, ps) ==> OrderFree(ar, limit, ps)
  }

  function Copies<F>(n: nat, cmd: InputCmd<F>): (cs: seq<InputCmd<F>>)
    ensures |cs| == n && forall i :: 0 <= i < n ==> cs[i] == cmd
  {
    seq(n, _ => cmd)
  }

  /** Past the limit, a late arrival of the newest command is not seen. */
  lemma LimitDecides<F>(ar: Arith<F>, limit: nat, n: nat, low: InputCmd<F>, high: InputCmd<F>)
    requires n > Max(1, limit) && low.inputSeq < high.inputSeq
    ensures
      var ps, qs := Copies(n - 1, low) + [high], [high] + Copies(n - 1, low);
      multiset(ps) == multiset(qs) && Selection(AdmitAll(ar, limit, ps)) != Selection(AdmitAll(ar, limit, qs))
  {
    var m, ps, qs := Max(1, limit), Copies(n - 1, low) + [high], [high] + Copies(n - 1, low);
    AdmitAllSelects(ar, limit, ps);
    AdmitAllSelects(ar, limit, qs);
    LoneBest(ar, Admitted(limit, qs), 0);
    assert Admitted(limit, ps) == Copies(m, low);
    assert Copies(m, low)[Best(Copies(m, low))] == low;
  }

  /** Within the limit, a newest command that clamping twice changes tells the last two places apart. */
  lemma ClampDecides<F>(ar: Arith<F>, limit: nat, n: nat, low: InputCmd<F>, high: InputCmd<F>)
    requires 2 <= n <= Max(1, limit) && low.inputSeq < high.inputSeq && !ClampStable(ar, high.moveDir)
    ensures
      var ps, qs := Copies(n - 2, low) + [low, high], Copies(n - 2, low) + [high, low];
      multiset(ps) == multiset(qs) && Selection(AdmitAll(ar, limit, ps)) != Selection(AdmitAll(ar, limit, qs))
  {
    LastTwo(ar, limit, Copies(n - 2, low), low, high);
  }

  lemma ListMatters<F(!new)>(ar: Arith<F>, limit: nat, ps: seq<InputCmd<F>>, qs: seq<InputCmd<F>>)
    requires AllUsable(ar, ps) && multiset(ps) == multiset(qs)
    requires Selection(AdmitAll(ar, limit, ps)) != Selection(AdmitAll(ar, limit, qs))
    ensures !OrderIndependent(ar, limit, |ps|)
  {
    TwoOrders(ar, limit, ps, ps, qs);
  }

  lemma OrderMatters<F(!new)>(ar: Arith<F>, limit: nat, n: nat)
    requires ar.IsFinite(ar.Zero()) && n >= 2 && (n > Max(1, limit) || !ClampIdempotent(ar))
    ensures !OrderIndependent(ar, limit, n)
  {
    if n > Max(1, limit) {
      var low, high := InputCmd(0, 0, [ar.Zero(), ar.Zero()]), InputCmd(0, 1, [ar.Zero(), ar.Zero()]);
      LimitDecides(ar, limit, n, low, high);
      ListMatters(ar, limit, Copies(n - 1, low) + [high], [high] + Copies(n - 1, low));
    } else {
      var dir: seq<F> :| Usable(ar, dir) && !ClampStable(ar, dir);
      var low, high := InputCmd(0, 0, dir), InputCmd(0, 1, dir);
      ClampDecides(ar, limit, n, low, high);
      ListMatters(ar, limit, Copies(n - 2, low) + [low, high], Copies(n - 2, low) + [high, low]);
    }
  }

  /**
   Exactly when arrival order is irrelevant for all lists of n commands to one key: when
   there is at most one, or when all of them are admitted and clamping twice is clamping once.
   */
  lemma OrderIndependenceExact<F(!new)>(ar: Arith<F>, limit: nat, n: nat)
    requires ar.IsFinite(ar.Zero())
    ensures OrderIndependent(ar, limit, n) <==> n <= 1 || (n <= Max(1, limit) && ClampIdempotent(ar))
  {
    if n <= 1 || (n <= Max(1, limit) && ClampIdempotent(ar)) {
      forall ps: seq<InputCmd<F>> | |ps| == n && AllUsable(ar, ps) ensures OrderFree(ar, limit, ps) {
        OrderFreeExact(ar, limit, ps);
      }
    } else {
      OrderMatters(ar, limit, n);
    }
  }
}
