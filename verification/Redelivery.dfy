/**
 A command delivered twice, or after its neighbour instead of before it, in a whole run:
 exactly when the recording shows it.
 */
module Redelivery {
  import opened Wrappers
  import opened Float64
  import opened Simulation
  import opened InputBuffering
  import opened Duplicates
  import opened Neighbours
  import opened ServerModel
  import opened ServerRuns
  import opened RecordThenVerify
  import opened InputTrace
  import opened Deliveries

  // What a part of a run offers.

  /** What `post` offers behind `base`, in order of arrival. */
  function Later<F>(ar: Arith<F>, config: ServerConfig, base: seq<Event<F>>, post: seq<Event<F>>, p: PlayerId, t: nat): seq<InputCmd<F>> {
    if post == [] then []
    else
      var before := Later(ar, config, base, Front(post), p, t);
      if Offers(ar, config, base + Front(post), Last(post), p, t) then before + [Last(post).cmd] else before
  }

  lemma {:induction false} OfferedSplit<F>(ar: Arith<F>, config: ServerConfig, base: seq<Event<F>>, post: seq<Event<F>>, p: PlayerId, t: nat)
    ensures Offered(ar, config, base + post, p, t) == Offered(ar, config, base, p, t) + Later(ar, config, base, post, p, t)
  {
    if post == [] {
      assert base + post == base;
    } else {
      OfferedSplit(ar, config, base, Front(post), p, t);
      assert base + post == base + Front(post) + [Last(post)];
      LastOf(base + Front(post), Last(post));
    }
  }

  lemma {:induction false} SkeletonAppend<F>(base: seq<Event<F>>, other: seq<Event<F>>, post: seq<Event<F>>)
    requires Skeleton(base) == Skeleton(other)
    ensures Skeleton(base + post) == Skeleton(other + post)
  {
    if post == [] {
      assert base + post == base && other + post == other;
    } else {
      SkeletonAppend(base, other, Front(post));
      assert base + post == base + Front(post) + [Last(post)] && other + post == other + Front(post) + [Last(post)];
      LastOf(base + Front(post), Last(post));
      LastOf(other + Front(post), Last(post));
    }
  }

  /** What follows is offered alike behind two runs with one skeleton. */
  lemma {:induction false} LaterAlike<F>(
    ar: Arith<F>, config: ServerConfig, base: seq<Event<F>>, other: seq<Event<F>>, post: seq<Event<F>>, p: PlayerId, t: nat)
    requires Skeleton(base) == Skeleton(other)
    ensures Later(ar, config, base, post, p, t) == Later(ar, config, other, post, p, t)
  {
    if post == [] {
    } else {
      LaterAlike(ar, config, base, other, Front(post), p, t);
      SkeletonAppend(base, other, Front(post));
      SameOffer(ar, config, base + Front(post), other + Front(post), Last(post), p, t);
    }
  }

  /** All that is offered for a key is for its tick, and has a direction in the plane. */
  lemma {:induction false} OfferedKey<F>(ar: Arith<F>, config: ServerConfig, evs: seq<Event<F>>, p: PlayerId, t: nat)
    ensures forall i :: 0 <= i < |Offered(ar, config, evs, p, t)| ==>
      Offered(ar, config, evs, p, t)[i].tick == t && |Offered(ar, config, evs, p, t)[i].moveDir| == 2
  {
    if evs == [] {
    } else {
      OfferedKey(ar, config, Front(evs), p, t);
    }
  }

  lemma WinnerKey<F>(ar: Arith<F>, config: ServerConfig, evs: seq<Event<F>>, p: PlayerId, t: nat)
    requires config.tickRateHz > 0 && WinnerAt(ar, config, evs, p, t).Some?
    ensures
      var w := WinnerAt(ar, config, evs, p, t).value;
      w.tick == t && |w.moveDir| == 2
  {
    OfferedKey(ar, config, evs, p, t);
  }

  /** Two different commands won, and point the same way. */
  ghost predicate SameWay<F>(ar: Arith<F>, v: Option<InputCmd<F>>, w: Option<InputCmd<F>>) {
    v.Some? && w.Some? && v.value.inputSeq != w.value.inputSeq && Direction(ar, v.value) == Direction(ar, w.value)
  }

  lemma SameCommand<F>(ar: Arith<F>, v: InputCmd<F>, w: InputCmd<F>)
    requires v.tick == w.tick && v.inputSeq == w.inputSeq && |v.moveDir| == |w.moveDir| == 2
    requires Direction(ar, v) == Direction(ar, w)
    ensures v == w
  {
    assert v.moveDir == [v.moveDir[0], v.moveDir[1]] && w.moveDir == [w.moveDir[0], w.moveDir[1]];
  }

  lemma HeadingOfKey<F>(ar: Arith<F>, config: ServerConfig, evs: seq<Event<F>>, fs: seq<Event<F>>, p: PlayerId, t: nat)
    requires config.tickRateHz > 0
    ensures
      var v, w := WinnerAt(ar, config, evs, p, t), WinnerAt(ar, config, fs, p, t);
      SameHeading(ar, config, evs, fs, p, t) <==> v == w || SameWay(ar, v, w)
  {
    var v, w := WinnerAt(ar, config, evs, p, t), WinnerAt(ar, config, fs, p, t);
    if v.Some? && w.Some? && SameHeading(ar, config, evs, fs, p, t) && v.value.inputSeq == w.value.inputSeq {
      WinnerKey(ar, config, evs, p, t);
      WinnerKey(ar, config, fs, p, t);
      SameCommand(ar, v.value, w.value);
    }
  }

  /** Two runs that offer the same for all keys but one differ at that key or nowhere. */
  lemma OneKeyDecides<F>(ar: Arith<F>, config: ServerConfig, evs: seq<Event<F>>, fs: seq<Event<F>>, p: PlayerId, t: nat)
    requires config.tickRateHz > 0
    requires forall q: PlayerId, u: nat :: (q, u) != (p, t) ==> Offered(ar, config, evs, q, u) == Offered(ar, config, fs, q, u)
    ensures SameHeadings(ar, config, evs, fs) <==> t >= Steps(evs) || SameHeading(ar, config, evs, fs, p, t)
  {
    forall q: PlayerId, u: nat | (q, u) != (p, t) ensures SameHeading(ar, config, evs, fs, q, u) {
      assert Offered(ar, config, evs, q, u) == Offered(ar, config, fs, q, u);
    }
  }

  /** The player a session commands. */
  function PlayerOf(config: ServerConfig, sid: SessionId): PlayerId { if sid == 0 then 0 else IdAt(config, sid - 1) }

  lemma OnlyKey<F>(ar: Arith<F>, config: ServerConfig, evs: seq<Event<F>>, sid: SessionId, c: InputCmd<F>, q: PlayerId, u: nat)
    requires (q, u) != (PlayerOf(config, sid), c.tick)
    ensures !Offers(ar, config, evs, Receive(sid, c), q, u)
  {
  }

  // One more delivery.

  lemma InsertedOffers<F>(
    ar: Arith<F>, config: ServerConfig, base: seq<Event<F>>, sid: SessionId, c: InputCmd<F>, post: seq<Event<F>>, q: PlayerId, u: nat)
    ensures Skeleton(base + [Receive(sid, c)] + post) == Skeleton(base + post)
    ensures Offered(ar, config, base + post, q, u) == Offered(ar, config, base, q, u) + Later(ar, config, base, post, q, u)
    ensures Offered(ar, config, base + [Receive(sid, c)] + post, q, u) ==
      Offered(ar, config, base, q, u) + (if Offers(ar, config, base, Receive(sid, c), q, u) then [c] else [])
      + Later(ar, config, base, post, q, u)
  {
    var with := base + [Receive(sid, c)];
    LastOf(base, Receive(sid, c));
    SkeletonAppend(with, base, post);
    OfferedSplit(ar, config, base, post, q, u);
    OfferedSplit(ar, config, with, post, q, u);
    LaterAlike(ar, config, with, base, post, q, u);
  }

  /** The recordings of two runs. */
  ghost predicate RecordAlike<F>(ar: Arith<F>, config: ServerConfig, evs: seq<Event<F>>, fs: seq<Event<F>>)
    requires Legal(ar, config, evs) && Legal(ar, config, fs)
  {
    After(ar, config, evs).recorder.inputs == After(ar, config, fs).recorder.inputs
  }

  /** Two runs that differ in what is offered for one key. */
  lemma OneKeyRuns<F>(ar: Arith<F>, config: ServerConfig, evs: seq<Event<F>>, fs: seq<Event<F>>, p: PlayerId, t: nat)
    requires Legal(ar, config, evs) && DistinctPlayers(config, evs) && Skeleton(evs) == Skeleton(fs)
    requires forall q: PlayerId, u: nat :: (q, u) != (p, t) ==> Offered(ar, config, evs, q, u) == Offered(ar, config, fs, q, u)
    ensures Legal(ar, config, fs)
    ensures
      var v, w := WinnerAt(ar, config, evs, p, t), WinnerAt(ar, config, fs, p, t);
      RecordAlike(ar, config, evs, fs) <==> t >= Steps(evs) || v == w || SameWay(ar, v, w)
    ensures RecordAlike(ar, config, evs, fs) ==> EqualButBuffer(After(ar, config, evs), After(ar, config, fs))
  {
    DeliveriesExact(ar, config, evs, fs);
    OneKeyDecides(ar, config, evs, fs, p, t);
    HeadingOfKey(ar, config, evs, fs, p, t);
  }

  /** The command passes every check but the rate limit, and its tick is among those stepped. */
  predicate Counts<F>(ar: Arith<F>, config: ServerConfig, base: seq<Event<F>>, sid: SessionId, c: InputCmd<F>, steps: nat) {
    Offers(ar, config, base, Receive(sid, c), PlayerOf(config, sid), c.tick) && c.tick < steps
  }

  lemma SelectedOffers<F>(ar: Arith<F>, config: ServerConfig, evs: seq<Event<F>>, p: PlayerId, t: nat, cs: seq<InputCmd<F>>)
    requires config.tickRateHz > 0 && Offered(ar, config, evs, p, t) == cs
    ensures WinnerAt(ar, config, evs, p, t) == Selection(EntryAfter(ar, config.Limit(), cs))
  {
    SelectionMeetsSpec(ar, config.Limit(), cs);
  }

  lemma InsertedElsewhere<F>(
    ar: Arith<F>, config: ServerConfig, base: seq<Event<F>>, sid: SessionId, c: InputCmd<F>, post: seq<Event<F>>, p: PlayerId)
    requires p == PlayerOf(config, sid)
    ensures forall q: PlayerId, u: nat :: (q, u) != (p, c.tick) ==>
      Offered(ar, config, base + post, q, u) == Offered(ar, config, base + [Receive(sid, c)] + post, q, u)
  {
    forall q: PlayerId, u: nat | (q, u) != (p, c.tick)
      ensures Offered(ar, config, base + post, q, u) == Offered(ar, config, base + [Receive(sid, c)] + post, q, u)
    {
      OnlyKey(ar, config, base, sid, c, q, u);
      InsertedOffers(ar, config, base, sid, c, post, q, u);
    }
  }

  /** The winners with and without the copy of an offered command. */
  lemma CopyWinners<F>(
    ar: Arith<F>, config: ServerConfig, base: seq<Event<F>>, sid: SessionId, c: InputCmd<F>, post: seq<Event<F>>,
    p: PlayerId, a: seq<InputCmd<F>>, b: seq<InputCmd<F>>)
    requires config.tickRateHz > 0 && p == PlayerOf(config, sid) && a == Offered(ar, config, base, p, c.tick) && c in a
    requires b == Later(ar, config, base, post, p, c.tick)
    ensures WinnerAt(ar, config, base + post, p, c.tick) == WinnerAt(ar, config, base + [Receive(sid, c)] + post, p, c.tick)
      <==> !Offers(ar, config, base, Receive(sid, c), p, c.tick) || HarmlessCopy(ar, config.Limit(), a, c, b)
  {
    var evs, fs, offered := base + post, base + [Receive(sid, c)] + post, Offers(ar, config, base, Receive(sid, c), p, c.tick);
    InsertedOffers(ar, config, base, sid, c, post, p, c.tick);
    SelectedOffers(ar, config, evs, p, c.tick, a + b);
    if offered {
      SelectedOffers(ar, config, fs, p, c.tick, a + [c] + b);
      RepeatExact(ar, config.Limit(), a, c, b);
    } else {
      assert a + [] + b == a + b;
      SelectedOffers(ar, config, fs, p, c.tick, a + b);
    }
  }

  /**
   A second delivery of a command, anywhere behind the first, shows in the recording
   unless it fails a check, its tick is never stepped, it is harmless for its key, or a
   different command wins that happens to point the same way. Where the recording does
   not show it, nothing but the buffer does.
   */
  lemma RepeatInRun<F>(ar: Arith<F>, config: ServerConfig, base: seq<Event<F>>, sid: SessionId, c: InputCmd<F>, post: seq<Event<F>>)
    requires Legal(ar, config, base + post) && DistinctPlayers(config, base + post)
    requires c in Offered(ar, config, base, PlayerOf(config, sid), c.tick)
    ensures Legal(ar, config, base + [Receive(sid, c)] + post)
    ensures
      var p, evs, fs := PlayerOf(config, sid), base + post, base + [Receive(sid, c)] + post;
      RecordAlike(ar, config, evs, fs) <==>
        !Counts(ar, config, base, sid, c, Steps(evs))
        || HarmlessCopy(ar, config.Limit(), Offered(ar, config, base, p, c.tick), c, Later(ar, config, base, post, p, c.tick))
        || SameWay(ar, WinnerAt(ar, config, evs, p, c.tick), WinnerAt(ar, config, fs, p, c.tick))
    ensures RecordAlike(ar, config, base + post, base + [Receive(sid, c)] + post) ==>
      EqualButBuffer(After(ar, config, base + post), After(ar, config, base + [Receive(sid, c)] + post))
  {
    var p, evs, fs := PlayerOf(config, sid), base + post, base + [Receive(sid, c)] + post;
    InsertedOffers(ar, config, base, sid, c, post, p, c.tick);
    InsertedElsewhere(ar, config, base, sid, c, post, p);
    OneKeyRuns(ar, config, evs, fs, p, c.tick);
    CopyWinners(ar, config, base, sid, c, post, p, Offered(ar, config, base, p, c.tick), Later(ar, config, base, post, p, c.tick));
  }

  // Two neighbours that change places.

  function IfOffered<F>(
    ar: Arith<F>, config: ServerConfig, base: seq<Event<F>>, sid: SessionId, c: InputCmd<F>, q: PlayerId, u: nat): seq<InputCmd<F>>
  {
    if Offers(ar, config, base, Receive(sid, c), q, u) then [c] else []
  }

  lemma PairOffers<F>(
    ar: Arith<F>, config: ServerConfig, base: seq<Event<F>>, sid: SessionId, c: InputCmd<F>, other: SessionId, d: InputCmd<F>,
    post: seq<Event<F>>, q: PlayerId, u: nat)
    ensures
      var pair := base + [Receive(sid, c)] + [Receive(other, d)];
      && Skeleton(pair) == Skeleton(base)
      && Offered(ar, config, pair + post, q, u) ==
           Offered(ar, config, base, q, u) + IfOffered(ar, config, base, sid, c, q, u) + IfOffered(ar, config, base, other, d, q, u)
           + Later(ar, config, base, post, q, u)
  {
    var first := base + [Receive(sid, c)];
    var pair := first + [Receive(other, d)];
    LastOf(base, Receive(sid, c));
    LastOf(first, Receive(other, d));
    SameOffer(ar, config, first, base, Receive(other, d), q, u);
    OfferedSplit(ar, config, pair, post, q, u);
    LaterAlike(ar, config, pair, base, post, q, u);
  }

  /** Both commands pass the checks for one key. */
  predicate Meet<F>(
    ar: Arith<F>, config: ServerConfig, base: seq<Event<F>>, sid: SessionId, c: InputCmd<F>, other: SessionId, d: InputCmd<F>)
  {
    && Offers(ar, config, base, Receive(sid, c), PlayerOf(config, sid), c.tick)
    && Offers(ar, config, base, Receive(other, d), PlayerOf(config, sid), c.tick)
  }

  lemma CrossedOffers<F>(
    ar: Arith<F>, config: ServerConfig, base: seq<Event<F>>, sid: SessionId, c: InputCmd<F>, other: SessionId, d: InputCmd<F>,
    post: seq<Event<F>>, q: PlayerId, u: nat)
    requires (q, u) != (PlayerOf(config, sid), c.tick) || !Meet(ar, config, base, sid, c, other, d)
    ensures Offered(ar, config, base + [Receive(sid, c)] + [Receive(other, d)] + post, q, u)
         == Offered(ar, config, base + [Receive(other, d)] + [Receive(sid, c)] + post, q, u)
  {
    PairOffers(ar, config, base, sid, c, other, d, post, q, u);
    PairOffers(ar, config, base, other, d, sid, c, post, q, u);
    if (q, u) != (PlayerOf(config, sid), c.tick) {
      OnlyKey(ar, config, base, sid, c, q, u);
    }
  }

  /** What is offered for the key where the two meet. */
  lemma MetOffers<F>(
    ar: Arith<F>, config: ServerConfig, base: seq<Event<F>>, sid: SessionId, c: InputCmd<F>, other: SessionId, d: InputCmd<F>,
    post: seq<Event<F>>, p: PlayerId, t: nat)
    requires Offers(ar, config, base, Receive(sid, c), p, t) && Offers(ar, config, base, Receive(other, d), p, t)
    ensures Offered(ar, config, base + [Receive(sid, c)] + [Receive(other, d)] + post, p, t)
         == Offered(ar, config, base, p, t) + [c, d] + Later(ar, config, base, post, p, t)
  {
    PairOffers(ar, config, base, sid, c, other, d, post, p, t);
    assert Offered(ar, config, base, p, t) + [c] + [d] == Offered(ar, config, base, p, t) + [c, d];
  }

  /** The winners of the two orders. */
  lemma CrossedWinners<F>(
    ar: Arith<F>, config: ServerConfig, base: seq<Event<F>>, sid: SessionId, c: InputCmd<F>, other: SessionId, d: InputCmd<F>,
    post: seq<Event<F>>, p: PlayerId, a: seq<InputCmd<F>>, b: seq<InputCmd<F>>)
    requires config.tickRateHz > 0 && p == PlayerOf(config, sid) && Meet(ar, config, base, sid, c, other, d)
    requires a == Offered(ar, config, base, p, c.tick) && b == Later(ar, config, base, post, p, c.tick)
    ensures WinnerAt(ar, config, base + [Receive(sid, c)] + [Receive(other, d)] + post, p, c.tick)
         == WinnerAt(ar, config, base + [Receive(other, d)] + [Receive(sid, c)] + post, p, c.tick)
      <==> HarmlessSwap(ar, config.Limit(), a, c, d, b)
  {
    MetOffers(ar, config, base, sid, c, other, d, post, p, c.tick);
    MetOffers(ar, config, base, other, d, sid, c, post, p, c.tick);
    SelectedOffers(ar, config, base + [Receive(sid, c)] + [Receive(other, d)] + post, p, c.tick, a + [c, d] + b);
    SelectedOffers(ar, config, base + [Receive(other, d)] + [Receive(sid, c)] + post, p, c.tick, a + [d, c] + b);
    SwapExact(ar, config.Limit(), a, c, d, b);
  }

  lemma CrossedSkeleton<F>(base: seq<Event<F>>, sid: SessionId, c: InputCmd<F>, other: SessionId, d: InputCmd<F>, post: seq<Event<F>>)
    ensures Skeleton(base + [Receive(sid, c)] + [Receive(other, d)] + post)
         == Skeleton(base + [Receive(other, d)] + [Receive(sid, c)] + post)
    ensures Steps(base + [Receive(sid, c)] + [Receive(other, d)] + post)
         == Steps(base + [Receive(other, d)] + [Receive(sid, c)] + post)
  {
    var first, second := base + [Receive(sid, c)], base + [Receive(other, d)];
    LastOf(base, Receive(sid, c));
    LastOf(base, Receive(other, d));
    LastOf(first, Receive(other, d));
    LastOf(second, Receive(sid, c));
    SkeletonAppend(first + [Receive(other, d)], second + [Receive(sid, c)], post);
    SameClock(first + [Receive(other, d)] + post, second + [Receive(sid, c)] + post);
  }

  /**
   Two neighbouring commands that arrive in the other order show in the recording unless
   they are not both for one player and tick, that tick is never stepped, it is harmless
   for their key, or different commands win that happen to point the same way. Where the
   recording does not show it, nothing but the buffer does.
   */
  lemma SwapInRun<F>(
    ar: Arith<F>, config: ServerConfig, base: seq<Event<F>>, sid: SessionId, c: InputCmd<F>, other: SessionId, d: InputCmd<F>,
    post: seq<Event<F>>, evs: seq<Event<F>>, fs: seq<Event<F>>)
    requires evs == base + [Receive(sid, c)] + [Receive(other, d)] + post && Legal(ar, config, evs) && DistinctPlayers(config, evs)
    requires fs == base + [Receive(other, d)] + [Receive(sid, c)] + post
    ensures Legal(ar, config, fs)
    ensures
      var p, t := PlayerOf(config, sid), c.tick;
      RecordAlike(ar, config, evs, fs) <==>
        !Meet(ar, config, base, sid, c, other, d)
        || t >= Steps(evs)
        || HarmlessSwap(ar, config.Limit(), Offered(ar, config, base, p, t), c, d, Later(ar, config, base, post, p, t))
        || SameWay(ar, WinnerAt(ar, config, evs, p, t), WinnerAt(ar, config, fs, p, t))
    ensures RecordAlike(ar, config, evs, fs) ==> EqualButBuffer(After(ar, config, evs), After(ar, config, fs))
  {
    var p, t := PlayerOf(config, sid), c.tick;
    CrossedSkeleton(base, sid, c, other, d, post);
    forall q: PlayerId, u: nat | (q, u) != (p, t) ensures Offered(ar, config, evs, q, u) == Offered(ar, config, fs, q, u) {
      CrossedOffers(ar, config, base, sid, c, other, d, post, q, u);
    }
    OneKeyRuns(ar, config, evs, fs, p, t);
    if Meet(ar, config, base, sid, c, other, d) {
      CrossedWinners(ar, config, base, sid, c, other, d, post, p, Offered(ar, config, base, p, t), Later(ar, config, base, post, p, t));
    } else {
      CrossedOffers(ar, config, base, sid, c, other, d, post, p, t);
    }
  }
}
