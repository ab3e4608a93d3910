/**
 The server's input buffer: at most one selected command per (player, tick).

 `Admit` is what one arrival does to one buffer entry. The specification of a whole
 key is `EntryFor`: the entry after a list of admitted commands, stated by which
 command has the greatest sequence number rather than by how arrivals update it.
 */
module InputBuffering {
  import opened Wrappers
  import opened Words
  import opened Float64
  import opened Simulation

  datatype InputCmd<F> = InputCmd(tick: nat, inputSeq: nat, moveDir: seq<F>)

  datatype ValidationConfig = ValidationConfig(maxFutureTicks: nat, inputRateLimitPerSec: nat, tickRateHz: nat)

  datatype BufferEntry<F> = BufferEntry(selected: InputCmd<F>, maxInputSeq: nat, maxSeqTied: bool, receiveCount: nat)

  /** `InputSeqTie` exists in the source but no code produces it. */
  datatype BufferResult = Accepted(clamped: bool) | RateLimited | InputSeqTie

  type Key = (PlayerId, nat)

  type Entries<F> = map<Key, BufferEntry<F>>

  predicate NeedsClamp<F>(ar: Arith<F>, dir: seq<F>) {
    |dir| == 2 && ar.lt(ar.One(), ar.MagnitudeSquared(Vec2(dir[0], dir[1])))
  }

  /** `clamp_magnitude`: scale to length one when longer than one. */
  function Clamp<F>(ar: Arith<F>, dir: seq<F>): (r: seq<F>)
    ensures |r| == |dir|
  {
    if NeedsClamp(ar, dir) then
      var magnitude := ar.sqrt(ar.MagnitudeSquared(Vec2(dir[0], dir[1])));
      [ar.div(dir[0], magnitude), ar.div(dir[1], magnitude)]
    else dir
  }

  /** `div_ceil`, counted out. */
  function DivCeil(a: nat, b: nat): nat
    requires b > 0
  {
    if a == 0 then 0 else if a <= b then 1 else 1 + DivCeil(a - b, b)
  }

  /** `div_ceil` is the least number of `b`s that cover `a`. */
  lemma {:induction false} DivCeilLeast(a: nat, b: nat)
    requires b > 0
    ensures a <= DivCeil(a, b) * b < a + b
    ensures DivCeil(a, b) == (a + b - 1) / b
  {
    var n := DivCeil(a, b);
    if a <= b {
      assert n == if a == 0 then 0 else 1;
    } else {
      DivCeilLeast(a - b, b);
      assert n * b == DivCeil(a - b, b) * b + b;
    }
    RemainderUnique(a + b - 1, b, n, a + b - 1 - n * b);
  }

  function PerTickLimit(config: ValidationConfig): nat
    requires config.tickRateHz > 0
  {
    DivCeil(config.inputRateLimitPerSec, config.tickRateHz)
  }

  function Max(a: nat, b: nat): nat { if a < b then b else a }

  function Min(a: nat, b: nat): nat { if a < b then a else b }

  /** One arrival for a key whose entry, if any, is `e`. */
  function Admit<F>(ar: Arith<F>, limit: nat, e: Option<BufferEntry<F>>, cmd: InputCmd<F>): (r: (Option<BufferEntry<F>>, BufferResult))
    ensures r.0.Some?
  {
    match e
    case None =>
      var selected := cmd.(moveDir := Clamp(ar, cmd.moveDir));
      (Some(BufferEntry(selected, cmd.inputSeq, false, 1)), Accepted(NeedsClamp(ar, cmd.moveDir)))
    case Some(entry) =>
      if entry.receiveCount >= limit then (e, RateLimited)
      else
        var replaced :=
          if cmd.inputSeq > entry.maxInputSeq then BufferEntry(cmd, cmd.inputSeq, false, entry.receiveCount + 1)
          else BufferEntry(entry.selected, entry.maxInputSeq,
                           entry.maxSeqTied || cmd.inputSeq == entry.maxInputSeq, entry.receiveCount + 1);
        var dir := replaced.selected.moveDir;
        (Some(replaced.(selected := replaced.selected.(moveDir := Clamp(ar, dir)))), Accepted(NeedsClamp(ar, dir)))
  }

  function Lookup<F>(entries: Entries<F>, key: Key): Option<BufferEntry<F>> {
    if key in entries then Some(entries[key]) else None
  }

  function TryBuffer<F>(ar: Arith<F>, limit: nat, entries: Entries<F>, p: PlayerId, cmd: InputCmd<F>): (Entries<F>, BufferResult) {
    var r := Admit(ar, limit, Lookup(entries, (p, cmd.tick)), cmd);
    (entries[(p, cmd.tick) := r.0.value], r.1)
  }

  /** What `take_input` hands out for an entry: nothing if its greatest sequence number is tied. */
  function Selection<F>(e: Option<BufferEntry<F>>): Option<InputCmd<F>> {
    if e.Some? && !e.value.maxSeqTied then Some(e.value.selected) else None
  }

  function EvictBefore<F>(entries: Entries<F>, tick: nat): Entries<F> {
    map k | k in entries && k.1 >= tick :: entries[k]
  }

  class InputBuffer<F> {
    const ar: Arith<F>
    const config: ValidationConfig
    const perTickLimit: nat
    var buffer: Entries<F>

    constructor (ar: Arith<F>, config: ValidationConfig)
      requires config.tickRateHz > 0
      ensures this.ar == ar && this.config == config && perTickLimit == PerTickLimit(config)
      ensures buffer == map[]
    {
      this.ar := ar;
      this.config := config;
      this.perTickLimit := PerTickLimit(config);
      this.buffer := map[];
    }

    method TryBufferInput(playerId: PlayerId, input: InputCmd<F>) returns (result: BufferResult)
      modifies this
      ensures (buffer, result) == TryBuffer(ar, perTickLimit, old(buffer), playerId, input)
    {
      var key := (playerId, input.tick);
      if key in buffer {
        var entry := buffer[key];
        if entry.receiveCount >= perTickLimit {
          assert buffer[key := entry] == buffer;
          return RateLimited;
        }
        entry := entry.(receiveCount := entry.receiveCount + 1);
        if input.inputSeq > entry.maxInputSeq {
          entry := entry.(maxInputSeq := input.inputSeq, maxSeqTied := false, selected := input);
        } else if input.inputSeq == entry.maxInputSeq {
          entry := entry.(maxSeqTied := true);
        }
        var clamped := NeedsClamp(ar, entry.selected.moveDir);
        if clamped {
          entry := entry.(selected := entry.selected.(moveDir := Clamp(ar, entry.selected.moveDir)));
        }
        buffer := buffer[key := entry];
        result := Accepted(clamped);
      } else {
        var clamped := NeedsClamp(ar, input.moveDir);
        var selected := input;
        if clamped {
          selected := selected.(moveDir := Clamp(ar, selected.moveDir));
        }
        buffer := buffer[key := BufferEntry(selected, input.inputSeq, false, 1)];
        result := Accepted(clamped);
      }
    }

    method TakeInput(playerId: PlayerId, tick: nat) returns (cmd: Option<InputCmd<F>>)
      modifies this
      ensures buffer == old(buffer) - {(playerId, tick)}
      ensures cmd == Selection(Lookup(old(buffer), (playerId, tick)))
    {
      var key := (playerId, tick);
      if key !in buffer {
        assert buffer - {key} == buffer;
        return None;
      }
      var entry := buffer[key];
      buffer := buffer - {key};
      cmd := if entry.maxSeqTied then None else Some(entry.selected);
    }

    method EvictBeforeTick(tick: nat)
      modifies this
      ensures buffer == EvictBefore(old(buffer), tick)
    {
      buffer := map k | k in buffer && k.1 >= tick :: buffer[k];
    }
  }

  // What a list of commands for one key selects.

  /** The first command with the greatest sequence number. */
  function Best<F>(cs: seq<InputCmd<F>>): (b: nat)
    requires cs != []
    ensures b < |cs|
    ensures forall i :: 0 <= i < b ==> cs[i].inputSeq < cs[b].inputSeq
    ensures forall i :: b <= i < |cs| ==> cs[i].inputSeq <= cs[b].inputSeq
  {
    var n := |cs| - 1;
    if n == 0 then 0
    else
      var b := Best(cs[..n]);
      if cs[n].inputSeq > cs[b].inputSeq then n else b
  }

  /** The greatest sequence number occurs more than once. */
  predicate Tied<F>(cs: seq<InputCmd<F>>)
    requires cs != []
  {
    exists i :: Best(cs) < i < |cs| && cs[i].inputSeq == cs[Best(cs)].inputSeq
  }

  function ClampTimes<F>(ar: Arith<F>, n: nat, dir: seq<F>): (r: seq<F>)
    ensures |r| == |dir|
  {
    if n == 0 then dir else Clamp(ar, ClampTimes(ar, n - 1, dir))
  }

  /**
   The entry after the commands `cs` were admitted: the winner was clamped on its own
   arrival and again on every later one.
   */
  function EntryFor<F>(ar: Arith<F>, cs: seq<InputCmd<F>>): BufferEntry<F>
    requires cs != []
  {
    var b := Best(cs);
    BufferEntry(cs[b].(moveDir := ClampTimes(ar, |cs| - b, cs[b].moveDir)), cs[b].inputSeq, Tied(cs), |cs|)
  }

  /** The entry after a list of arrivals, counting only the first max(1, limit) of them. */
  function EntryAfter<F>(ar: Arith<F>, limit: nat, arrivals: seq<InputCmd<F>>): Option<BufferEntry<F>> {
    if arrivals == [] then None else Some(EntryFor(ar, Admitted(limit, arrivals)))
  }

  function Admitted<F>(limit: nat, arrivals: seq<InputCmd<F>>): seq<InputCmd<F>> {
    arrivals[..Min(|arrivals|, Max(1, limit))]
  }

  /** The command a list of admitted commands selects, if its greatest sequence number is unique. */
  function Winner<F>(ar: Arith<F>, cs: seq<InputCmd<F>>): Option<InputCmd<F>> {
    if cs == [] || Tied(cs) then None else Some(EntryFor(ar, cs).selected)
  }

  lemma BestOfExtension<F>(cs: seq<InputCmd<F>>, cmd: InputCmd<F>)
    requires cs != []
    ensures Best(cs + [cmd]) == if cmd.inputSeq > cs[Best(cs)].inputSeq then |cs| else Best(cs)
  {
    assert (cs + [cmd])[..|cs|] == cs;
  }

  /** An arrival within the limit takes the entry for `cs` to the entry for `cs + [cmd]`. */
  lemma AdmitExtends<F>(ar: Arith<F>, limit: nat, cs: seq<InputCmd<F>>, cmd: InputCmd<F>)
    requires cs != [] && |cs| < limit
    ensures Admit(ar, limit, Some(EntryFor(ar, cs)), cmd).0 == Some(EntryFor(ar, cs + [cmd]))
  {
    var ds, b := cs + [cmd], Best(cs);
    BestOfExtension(cs, cmd);
    if cmd.inputSeq > cs[b].inputSeq {
      assert ClampTimes(ar, 1, cmd.moveDir) == Clamp(ar, ClampTimes(ar, 0, cmd.moveDir)) == Clamp(ar, cmd.moveDir);
      assert !Tied(ds);
    } else {
      assert ClampTimes(ar, |ds| - b, cs[b].moveDir) == Clamp(ar, ClampTimes(ar, |cs| - b, cs[b].moveDir));
      assert ds[b] == cs[b];
      if Tied(cs) {
        var i :| b < i < |cs| && cs[i].inputSeq == cs[b].inputSeq;
        assert ds[i] == cs[i];
      }
      if cmd.inputSeq == cs[b].inputSeq {
        assert ds[|cs|].inputSeq == ds[b].inputSeq;
      }
      assert Tied(ds) == (Tied(cs) || cmd.inputSeq == cs[b].inputSeq);
    }
  }

  /** The buffer follows the specification of a key arrival by arrival. */
  lemma AdmitMeetsSpec<F>(ar: Arith<F>, limit: nat, arrivals: seq<InputCmd<F>>, cmd: InputCmd<F>)
    ensures
      var r := Admit(ar, limit, EntryAfter(ar, limit, arrivals), cmd);
      && r.0 == EntryAfter(ar, limit, arrivals + [cmd])
      && (r.1.Accepted? <==> |arrivals| < Max(1, limit))
      && (r.1.RateLimited? <==> |arrivals| >= Max(1, limit))
  {
    var next := arrivals + [cmd];
    if arrivals == [] {
      assert Admitted(limit, next) == [cmd];
      assert ClampTimes(ar, 1, cmd.moveDir) == Clamp(ar, ClampTimes(ar, 0, cmd.moveDir)) == Clamp(ar, cmd.moveDir);
    } else if |arrivals| < Max(1, limit) {
      assert Admitted(limit, arrivals) == arrivals && Admitted(limit, next) == next;
      AdmitExtends(ar, limit, arrivals, cmd);
    } else {
      assert Admitted(limit, next) == Admitted(limit, arrivals);
    }
  }

  /** Feed a list of commands for one key through the buffer. */
  function AdmitAll<F>(ar: Arith<F>, limit: nat, cs: seq<InputCmd<F>>): Option<BufferEntry<F>> {
    if cs == [] then None else Admit(ar, limit, AdmitAll(ar, limit, cs[..|cs| - 1]), cs[|cs| - 1]).0
  }

  lemma {:induction false} AdmitAllMeetsSpec<F>(ar: Arith<F>, limit: nat, cs: seq<InputCmd<F>>)
    ensures AdmitAll(ar, limit, cs) == EntryAfter(ar, limit, cs)
  {
    if cs == [] {
    } else {
      var n := |cs| - 1;
      AdmitAllMeetsSpec(ar, limit, cs[..n]);
      AdmitMeetsSpec(ar, limit, cs[..n], cs[n]);
      assert cs[..n] + [cs[n]] == cs;
    }
  }

  /** What is handed out for an entry is the winner of the admitted commands. */
  lemma SelectionMeetsSpec<F>(ar: Arith<F>, limit: nat, arrivals: seq<InputCmd<F>>)
    ensures Selection(EntryAfter(ar, limit, arrivals)) == Winner(ar, Admitted(limit, arrivals))
  {
  }
}
