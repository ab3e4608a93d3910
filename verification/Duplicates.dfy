/**
 Duplicates: what a second copy of a command, arriving anywhere behind the first, changes.

 A copy can tie with itself, it can have the stored direction clamped once more, and it can
 use up a place under the limit so that a later command is shut out. `RepeatExact` says
 when none of this shows, for every list of commands, limit and arithmetic.
 */
module Duplicates {
  import opened Wrappers
  import opened Float64
  import opened InputBuffering
  import opened ArrivalOrder
  import opened ServerModel

  // One more command in a list that is admitted as a whole.

  lemma BestIs<F>(cs: seq<InputCmd<F>>, j: nat)
    requires j < |cs| && forall i :: 0 <= i < j ==> cs[i].inputSeq < cs[j].inputSeq
    requires forall i :: j <= i < |cs| ==> cs[i].inputSeq <= cs[j].inputSeq
    ensures Best(cs) == j
  {
    var k := Best(cs);
    assert cs[j].inputSeq <= cs[k].inputSeq;
  }

  /** Where index k is after a copy was put in at n. */
  function Shifted(k: nat, n: nat): nat { if k < n then k else k + 1 }

  lemma InsertedAt<T>(a: seq<T>, c: T, b: seq<T>, k: nat)
    requires k < |a| + |b|
    ensures Shifted(k, |a|) < |a| + 1 + |b| && (a + [c] + b)[Shifted(k, |a|)] == (a + b)[k]
  {
  }

  lemma InsertedFrom<T>(a: seq<T>, c: T, b: seq<T>, j: nat) returns (k: nat)
    requires j < |a| + 1 + |b| && j != |a|
    ensures k < |a| + |b| && j == Shifted(k, |a|) && (a + [c] + b)[j] == (a + b)[k]
  {
    k := if j < |a| then j else j - 1;
  }

  lemma OriginalAt<F>(a: seq<InputCmd<F>>, c: InputCmd<F>, b: seq<InputCmd<F>>) returns (i: nat)
    requires c in a
    ensures i < |a| && (a + b)[i] == c && c.inputSeq <= (a + b)[Best(a + b)].inputSeq
    ensures c.inputSeq == (a + b)[Best(a + b)].inputSeq ==> Best(a + b) <= i
  {
    i :| 0 <= i < |a| && a[i] == c;
    assert (a + b)[i] == c;
  }

  lemma InsertedBest<F>(a: seq<InputCmd<F>>, c: InputCmd<F>, b: seq<InputCmd<F>>)
    requires c in a
    ensures c.inputSeq <= (a + b)[Best(a + b)].inputSeq
    ensures Best(a + [c] + b) == Shifted(Best(a + b), |a|)
    ensures (a + [c] + b)[Shifted(Best(a + b), |a|)] == (a + b)[Best(a + b)]
  {
    var cs, ds, k := a + b, a + [c] + b, Best(a + b);
    var i := OriginalAt(a, c, b);
    InsertedAt(a, c, b, k);
    forall j | 0 <= j < |ds|
      ensures if j < Shifted(k, |a|) then ds[j].inputSeq < cs[k].inputSeq else ds[j].inputSeq <= cs[k].inputSeq
    {
      if j != |a| {
        var from := InsertedFrom(a, c, b, j);
      }
    }
    BestIs(ds, Shifted(k, |a|));
  }

  lemma TieKept<F>(a: seq<InputCmd<F>>, c: InputCmd<F>, b: seq<InputCmd<F>>)
    requires c in a && (Tied(a + b) || c.inputSeq == (a + b)[Best(a + b)].inputSeq)
    ensures Tied(a + [c] + b)
  {
    var cs, ds, k := a + b, a + [c] + b, Best(a + b);
    InsertedBest(a, c, b);
    if Tied(cs) {
      var i :| k < i < |cs| && cs[i].inputSeq == cs[k].inputSeq;
      InsertedAt(a, c, b, i);
      assert ds[Shifted(i, |a|)].inputSeq == ds[Shifted(k, |a|)].inputSeq;
    } else {
      var i := OriginalAt(a, c, b);
      assert ds[|a|].inputSeq == ds[Shifted(k, |a|)].inputSeq;
    }
  }

  lemma TieNotMade<F>(a: seq<InputCmd<F>>, c: InputCmd<F>, b: seq<InputCmd<F>>)
    requires c in a && Tied(a + [c] + b) && c.inputSeq != (a + b)[Best(a + b)].inputSeq
    ensures Tied(a + b)
  {
    var cs, ds, k := a + b, a + [c] + b, Best(a + b);
    InsertedBest(a, c, b);
    var j :| Shifted(k, |a|) < j < |ds| && ds[j].inputSeq == cs[k].inputSeq;
    var i := InsertedFrom(a, c, b, j);
    assert k < i && cs[i].inputSeq == cs[k].inputSeq;
  }

  lemma InsertedTie<F>(a: seq<InputCmd<F>>, c: InputCmd<F>, b: seq<InputCmd<F>>)
    requires c in a
    ensures Tied(a + [c] + b) <==> Tied(a + b) || c.inputSeq == (a + b)[Best(a + b)].inputSeq
  {
    if Tied(a + b) || c.inputSeq == (a + b)[Best(a + b)].inputSeq {
      TieKept(a, c, b);
    } else if Tied(a + [c] + b) {
      TieNotMade(a, c, b);
    }
  }

  /** What the entry has stored for a list of admitted commands. */
  function Stored<F>(ar: Arith<F>, cs: seq<InputCmd<F>>): seq<F>
    requires cs != []
  {
    EntryFor(ar, cs).selected.moveDir
  }

  /** The selection with its direction clamped once more, or left alone. */
  function Reclamped<F>(ar: Arith<F>, cs: seq<InputCmd<F>>, again: bool): InputCmd<F>
    requires cs != []
  {
    var selected := EntryFor(ar, cs).selected;
    if again then selected.(moveDir := Clamp(ar, selected.moveDir)) else selected
  }

  lemma ReclampedAt<F>(ar: Arith<F>, cs: seq<InputCmd<F>>, ds: seq<InputCmd<F>>, again: bool)
    requires cs != [] && ds != [] && cs[Best(cs)] == ds[Best(ds)]
    requires |ds| - Best(ds) == |cs| - Best(cs) + if again then 1 else 0
    ensures EntryFor(ar, ds).selected == Reclamped(ar, cs, again)
  {
    var cmd, n := cs[Best(cs)], |cs| - Best(cs);
    SelectedAt(ar, cs, Best(cs), cmd, n);
    SelectedAt(ar, ds, Best(ds), cmd, |ds| - Best(ds));
    assert ClampTimes(ar, n + 1, cmd.moveDir) == Clamp(ar, ClampTimes(ar, n, cmd.moveDir));
  }

  /** The winner after a copy was put in: a copy behind the winner has it clamped once more. */
  lemma InsertedWinner<F>(ar: Arith<F>, a: seq<InputCmd<F>>, c: InputCmd<F>, b: seq<InputCmd<F>>)
    requires c in a
    ensures
      var cs := a + b;
      Winner(ar, a + [c] + b) ==
        if Tied(cs) || c.inputSeq == cs[Best(cs)].inputSeq then None else Some(Reclamped(ar, cs, Best(cs) < |a|))
  {
    InsertedBest(a, c, b);
    InsertedTie(a, c, b);
    ReclampedAt(ar, a + b, a + [c] + b, Best(a + b) < |a|);
  }

  /** The winner after one more command has arrived. */
  lemma AppendedWinner<F>(ar: Arith<F>, cs: seq<InputCmd<F>>, x: InputCmd<F>)
    requires cs != []
    ensures
      var top := cs[Best(cs)].inputSeq;
      Winner(ar, cs + [x]) ==
        if x.inputSeq > top then Some(Arrived(ar, x))
        else if x.inputSeq == top || Tied(cs) then None
        else Some(Reclamped(ar, cs, true))
  {
    var ds, k := cs + [x], Best(cs);
    BestOfExtension(cs, x);
    if x.inputSeq > cs[k].inputSeq {
      LoneBest(ar, ds, |cs|);
      ClampTimesOne(ar, x.moveDir);
    } else {
      AppendedTie(cs, x);
      ReclampedAt(ar, cs, ds, true);
    }
  }

  lemma AppendedTie<F>(cs: seq<InputCmd<F>>, x: InputCmd<F>)
    requires cs != [] && x.inputSeq <= cs[Best(cs)].inputSeq
    ensures Tied(cs + [x]) <==> Tied(cs) || x.inputSeq == cs[Best(cs)].inputSeq
  {
    var ds, k := cs + [x], Best(cs);
    BestOfExtension(cs, x);
    assert forall i :: 0 <= i < |cs| ==> ds[i] == cs[i];
    assert ds[|cs|] == x;
    if Tied(cs) {
      var i :| k < i < |cs| && cs[i].inputSeq == cs[k].inputSeq;
      assert ds[i].inputSeq == ds[k].inputSeq;
    }
  }

  // Exactly when a copy is harmless.

  /** With the copy, all commands are still admitted. */
  ghost predicate HarmlessWithin<F>(ar: Arith<F>, a: seq<InputCmd<F>>, c: InputCmd<F>, b: seq<InputCmd<F>>)
    requires a != []
  {
    var cs := a + b;
    var k := Best(cs);
    Tied(cs) || (c.inputSeq < cs[k].inputSeq && (k >= |a| || Clamp(ar, Stored(ar, cs)) == Stored(ar, cs)))
  }

  /** With the copy, x is not admitted any more. */
  ghost predicate HarmlessShut<F>(ar: Arith<F>, a: seq<InputCmd<F>>, c: InputCmd<F>, b: seq<InputCmd<F>>, x: InputCmd<F>)
    requires a != []
  {
    var cs := a + b;
    var k := Best(cs);
    var top := cs[k].inputSeq;
    if x.inputSeq > top then false
    else if x.inputSeq == top then Tied(cs) || c.inputSeq == top
    else Tied(cs) || (c.inputSeq < top && (k < |a| || Clamp(ar, Stored(ar, cs)) == Stored(ar, cs)))
  }

  /**
   What a caller can check of a copy of c behind the arrivals a and before the arrivals b.
   It is harmless if it is not admitted. If all are admitted, it must not be the newest,
   and the stored direction must survive the clamp if the newest arrived before the copy.
   If it shuts out x, then x must not be the newest, and the winner must be the same.
   */
  ghost predicate HarmlessCopy<F>(ar: Arith<F>, limit: nat, a: seq<InputCmd<F>>, c: InputCmd<F>, b: seq<InputCmd<F>>)
    requires a != []
  {
    var m := Max(1, limit);
    if |a| >= m then true
    else if |a| + |b| < m then HarmlessWithin(ar, a, c, b)
    else HarmlessShut(ar, a, c, b[..m - 1 - |a|], b[m - 1 - |a|])
  }

  lemma WithinExact<F>(ar: Arith<F>, a: seq<InputCmd<F>>, c: InputCmd<F>, b: seq<InputCmd<F>>)
    requires c in a
    ensures Winner(ar, a + [c] + b) == Winner(ar, a + b) <==> HarmlessWithin(ar, a, c, b)
  {
    InsertedBest(a, c, b);
    InsertedWinner(ar, a, c, b);
  }

  lemma ShutExact<F>(ar: Arith<F>, a: seq<InputCmd<F>>, c: InputCmd<F>, b: seq<InputCmd<F>>, x: InputCmd<F>)
    requires c in a
    ensures Winner(ar, a + [c] + b) == Winner(ar, a + b + [x]) <==> HarmlessShut(ar, a, c, b, x)
  {
    InsertedBest(a, c, b);
    InsertedWinner(ar, a, c, b);
    AppendedWinner(ar, a + b, x);
  }

  /** What is admitted with and without one more command between a and b. */
  lemma AdmittedInserted<F>(limit: nat, a: seq<InputCmd<F>>, c: InputCmd<F>, b: seq<InputCmd<F>>)
    ensures
      var m, with, without := Max(1, limit), Admitted(limit, a + [c] + b), Admitted(limit, a + b);
      if |a| >= m then with == without
      else if |a| + |b| < m then with == a + [c] + b && without == a + b
      else with == a + [c] + b[..m - 1 - |a|] && without == a + b[..m - 1 - |a|] + [b[m - 1 - |a|]]
  {
  }

  /** A second copy of a command leaves the selection as it was exactly when it is harmless. */
  lemma RepeatExact<F>(ar: Arith<F>, limit: nat, a: seq<InputCmd<F>>, c: InputCmd<F>, b: seq<InputCmd<F>>)
    requires c in a
    ensures Selection(EntryAfter(ar, limit, a + [c] + b)) == Selection(EntryAfter(ar, limit, a + b))
      <==> HarmlessCopy(ar, limit, a, c, b)
  {
    var m := Max(1, limit);
    SelectionMeetsSpec(ar, limit, a + [c] + b);
    SelectionMeetsSpec(ar, limit, a + b);
    AdmittedInserted(limit, a, c, b);
    if |a| + |b| < m {
      WithinExact(ar, a, c, b);
    } else if |a| < m {
      ShutExact(ar, a, c, b[..m - 1 - |a|], b[m - 1 - |a|]);
    }
  }

  // The three ways in which a copy shows.

  /** A channel that repeats the newest command within the limit makes the server drop both copies. */
  lemma RepeatedWinnerDropped<F>(ar: Arith<F>, limit: nat, cs: seq<InputCmd<F>>)
    requires cs != [] && |cs| < limit
    ensures Selection(EntryAfter(ar, limit, cs + [cs[Best(cs)]])).None?
  {
    var c := cs[Best(cs)];
    SelectionMeetsSpec(ar, limit, cs + [c]);
    assert Admitted(limit, cs + [c]) == cs + [c];
    AppendedWinner(ar, cs, c);
  }

  /** Repeating an older command changes the selection if the newest one is clamped differently twice. */
  lemma RepeatedLoserShows<F>(ar: Arith<F>, limit: nat, low: InputCmd<F>, high: InputCmd<F>)
    requires limit >= 3 && low.inputSeq < high.inputSeq && !ClampStable(ar, high.moveDir)
    ensures Selection(EntryAfter(ar, limit, [low, high] + [low])) != Selection(EntryAfter(ar, limit, [low, high]))
  {
    var cs := [low, high];
    LoneBest(ar, cs, 1);
    LoneIndex(cs, 1);
    ClampTimesOne(ar, high.moveDir);
    RepeatExact(ar, limit, cs, low, []);
    assert cs + [low] + [] == cs + [low] && cs + [] == cs;
  }

  lemma DefaultLimit()
    ensures DEFAULTS.Limit() == 4
  {
    DivCeilLeast(120, 30);
  }

  /**
   With default settings, a copy of the first of three commands shuts out the fourth:
   without the copy the fourth is selected, with it the third.
   */
  lemma RepeatShutsOut<F>(ar: Arith<F>, c1: InputCmd<F>, c2: InputCmd<F>, c3: InputCmd<F>, c4: InputCmd<F>)
    requires c1.inputSeq < c2.inputSeq < c3.inputSeq < c4.inputSeq
    ensures
      var limit := DEFAULTS.Limit();
      && Selection(EntryAfter(ar, limit, [c1, c2, c3] + [c4])) == Some(Arrived(ar, c4))
      && Selection(EntryAfter(ar, limit, [c1, c2, c3] + [c1] + [c4])).Some?
      && Selection(EntryAfter(ar, limit, [c1, c2, c3] + [c1] + [c4])).value.inputSeq == c3.inputSeq
  {
    DefaultLimit();
    var without, with := [c1, c2, c3] + [c4], [c1, c2, c3] + [c1];
    SelectionMeetsSpec(ar, 4, without);
    SelectionMeetsSpec(ar, 4, with + [c4]);
    assert Admitted(4, without) == without && Admitted(4, with + [c4]) == with;
    LoneBest(ar, without, 3);
    ClampTimesOne(ar, c4.moveDir);
    LoneBest(ar, with, 2);
  }
}
