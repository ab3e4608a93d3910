/** The checks a received command passes, in order, ending in the buffer. */
module Validation {
  import opened Words
  import opened Float64
  import opened Simulation
  import opened InputBuffering

  /** `DroppedInputSeqTie` exists in the source but no code produces it. */
  datatype ValidationResult =
    | Accepted
    | AcceptedWithClamp
    | DroppedNanInf
    | DroppedBelowFloor(tick: nat, floor: nat)
    | DroppedLate(tick: nat, current: nat)
    | DroppedTooFuture(tick: nat, max: nat)
    | DroppedRateLimit
    | DroppedInputSeqTie
    | DroppedUnknownSession
  {
    predicate IsAccepted() { Accepted? || AcceptedWithClamp? }
  }

  /** Whether a command may reach the buffer at all: everything but the rate limit. */
  predicate Admissible<F>(ar: Arith<F>, cmd: InputCmd<F>, current: nat, floor: nat, maxFuture: nat) {
    && |cmd.moveDir| == 2 && ar.IsFinite(cmd.moveDir[0]) && ar.IsFinite(cmd.moveDir[1])
    && floor <= cmd.tick && current <= cmd.tick <= current + maxFuture
  }

  /** The reason an inadmissible command is dropped: the first check it fails. */
  function DropReason<F>(ar: Arith<F>, cmd: InputCmd<F>, current: nat, floor: nat, maxFuture: nat): (r: ValidationResult)
    requires !Admissible(ar, cmd, current, floor, maxFuture)
    ensures !r.IsAccepted()
  {
    if |cmd.moveDir| != 2 || !ar.IsFinite(cmd.moveDir[0]) || !ar.IsFinite(cmd.moveDir[1]) then DroppedNanInf
    else if cmd.tick < floor then DroppedBelowFloor(cmd.tick, floor)
    else if cmd.tick < current then DroppedLate(cmd.tick, current)
    else DroppedTooFuture(cmd.tick, current + maxFuture)
  }

  function FromBuffer(r: BufferResult): ValidationResult {
    match r
    case Accepted(clamped) => if clamped then AcceptedWithClamp else ValidationResult.Accepted
    case RateLimited => DroppedRateLimit
    case InputSeqTie => DroppedInputSeqTie
  }

  /** The new buffer entries and the verdict for one command. */
  function Validate<F>(
    ar: Arith<F>, limit: nat, maxFuture: nat, entries: Entries<F>, cmd: InputCmd<F>, current: nat, floor: nat, p: PlayerId)
    : (Entries<F>, ValidationResult)
  {
    if !Admissible(ar, cmd, current, floor, maxFuture) then (entries, DropReason(ar, cmd, current, floor, maxFuture))
    else
      var r := TryBuffer(ar, limit, entries, p, cmd);
      (r.0, FromBuffer(r.1))
  }

  // The verdict spelled out.

  /** Neither NaN nor infinite: IEEE 754 section 3.4. */
  predicate Finite(u: U64) { u % 0x8000_0000_0000_0000 < 0x7ff0_0000_0000_0000 }

  /** A two-component direction is longer than one. */
  predicate Long<F>(ar: Arith<F>, dir: seq<F>)
    requires |dir| == 2
  {
    ar.lt(ar.ofInt(1), ar.add(ar.mul(dir[0], dir[0]), ar.mul(dir[1], dir[1])))
  }

  /** The direction `to` is `from`, divided by its length if that is more than one. */
  ghost predicate Shortened<F>(ar: Arith<F>, from: seq<F>, to: seq<F>)
    requires |from| == 2
  {
    var length := ar.sqrt(ar.add(ar.mul(from[0], from[0]), ar.mul(from[1], from[1])));
    to == if Long(ar, from) then [ar.div(from[0], length), ar.div(from[1], length)] else from
  }

  /** A fresh key selects the command, shortened. */
  ghost predicate StartsEntry<F>(ar: Arith<F>, cmd: InputCmd<F>, e: BufferEntry<F>, r: ValidationResult)
    requires |cmd.moveDir| == 2
  {
    && e == BufferEntry(cmd.(moveDir := e.selected.moveDir), cmd.inputSeq, false, 1)
    && Shortened(ar, cmd.moveDir, e.selected.moveDir)
    && r == if Long(ar, cmd.moveDir) then AcceptedWithClamp else ValidationResult.Accepted
  }

  /** A further command wins if its sequence number is greater; equal greatest numbers tie; the winner is shortened. */
  ghost predicate ExtendsEntry<F>(ar: Arith<F>, was: BufferEntry<F>, cmd: InputCmd<F>, e: BufferEntry<F>, r: ValidationResult)
    requires |was.selected.moveDir| == 2 && |cmd.moveDir| == 2
  {
    var newer := cmd.inputSeq > was.maxInputSeq;
    var winner := if newer then cmd else was.selected;
    && e.selected == winner.(moveDir := e.selected.moveDir) && Shortened(ar, winner.moveDir, e.selected.moveDir)
    && e.maxInputSeq == (if newer then cmd.inputSeq else was.maxInputSeq)
    && e.maxSeqTied == (!newer && (was.maxSeqTied || cmd.inputSeq == was.maxInputSeq))
    && e.receiveCount == was.receiveCount + 1
    && r == if Long(ar, winner.moveDir) then AcceptedWithClamp else ValidationResult.Accepted
  }

  /** What becomes of a command: the first check it fails, with the values compared, or its place in the buffer. */
  ghost predicate Judged<F>(
    ar: Arith<F>, limit: nat, maxFuture: nat, entries: Entries<F>, cmd: InputCmd<F>, current: nat, floor: nat, p: PlayerId,
    after: Entries<F>, r: ValidationResult)
    requires forall k :: k in entries ==> |entries[k].selected.moveDir| == 2
  {
    var key := (p, cmd.tick);
    if |cmd.moveDir| != 2 || !Finite(ar.bits(cmd.moveDir[0])) || !Finite(ar.bits(cmd.moveDir[1])) then r == DroppedNanInf && after == entries
    else if cmd.tick < floor then r == DroppedBelowFloor(cmd.tick, floor) && after == entries
    else if cmd.tick < current then r == DroppedLate(cmd.tick, current) && after == entries
    else if cmd.tick > current + maxFuture then r == DroppedTooFuture(cmd.tick, current + maxFuture) && after == entries
    else if key in entries && entries[key].receiveCount >= limit then r == DroppedRateLimit && after == entries
    else
      && key in after && after == entries[key := after[key]]
      && if key in entries then ExtendsEntry(ar, entries[key], cmd, after[key], r) else StartsEntry(ar, cmd, after[key], r)
  }

  lemma FiniteBits<F>(ar: Arith<F>, x: F)
    ensures ar.IsFinite(x) <==> Finite(ar.bits(x))
  {
    Classes(ar.bits(x));
  }

  lemma ClampShortens<F>(ar: Arith<F>, dir: seq<F>)
    requires |dir| == 2
    ensures Shortened(ar, dir, Clamp(ar, dir)) && (NeedsClamp(ar, dir) <==> Long(ar, dir))
  {
  }

  /** The verdict on every command that meets every buffer. */
  lemma VerdictExplained<F>(
    ar: Arith<F>, limit: nat, maxFuture: nat, entries: Entries<F>, cmd: InputCmd<F>, current: nat, floor: nat, p: PlayerId)
    requires forall k :: k in entries ==> |entries[k].selected.moveDir| == 2
    ensures
      var v := Validate(ar, limit, maxFuture, entries, cmd, current, floor, p);
      Judged(ar, limit, maxFuture, entries, cmd, current, floor, p, v.0, v.1)
  {
    if |cmd.moveDir| == 2 {
      FiniteBits(ar, cmd.moveDir[0]);
      FiniteBits(ar, cmd.moveDir[1]);
    }
    if Admissible(ar, cmd, current, floor, maxFuture) {
      BufferJudged(ar, limit, entries, cmd, p);
    }
  }

  lemma BufferJudged<F>(ar: Arith<F>, limit: nat, entries: Entries<F>, cmd: InputCmd<F>, p: PlayerId)
    requires |cmd.moveDir| == 2 && forall k :: k in entries ==> |entries[k].selected.moveDir| == 2
    ensures
      var key, r := (p, cmd.tick), TryBuffer(ar, limit, entries, p, cmd);
      if key in entries && entries[key].receiveCount >= limit then FromBuffer(r.1) == DroppedRateLimit && r.0 == entries
      else
        && key in r.0 && r.0 == entries[key := r.0[key]]
        && if key in entries then ExtendsEntry(ar, entries[key], cmd, r.0[key], FromBuffer(r.1)) else StartsEntry(ar, cmd, r.0[key], FromBuffer(r.1))
  {
    var key := (p, cmd.tick);
    if key in entries && entries[key].receiveCount >= limit {
      assert entries[key := entries[key]] == entries;
    } else if key in entries {
      ClampShortens(ar, if cmd.inputSeq > entries[key].maxInputSeq then cmd.moveDir else entries[key].selected.moveDir);
    } else {
      ClampShortens(ar, cmd.moveDir);
    }
  }

  method ValidateInput<F>(input: InputCmd<F>, currentTick: nat, targetTickFloor: nat, buffer: InputBuffer<F>, playerId: PlayerId)
    returns (result: ValidationResult)
    requires currentTick + buffer.config.maxFutureTicks < 0x1_0000_0000_0000_0000
    modifies buffer
    ensures (buffer.buffer, result) == Validate(buffer.ar, buffer.perTickLimit, buffer.config.maxFutureTicks,
                                                old(buffer.buffer), input, currentTick, targetTickFloor, playerId)
    ensures (forall k :: k in old(buffer.buffer) ==> |old(buffer.buffer)[k].selected.moveDir| == 2) ==>
      Judged(buffer.ar, buffer.perTickLimit, buffer.config.maxFutureTicks, old(buffer.buffer), input, currentTick, targetTickFloor, playerId,
        buffer.buffer, result)
  {
    if forall k :: k in buffer.buffer ==> |buffer.buffer[k].selected.moveDir| == 2 {
      VerdictExplained(buffer.ar, buffer.perTickLimit, buffer.config.maxFutureTicks, buffer.buffer, input, currentTick, targetTickFloor, playerId);
    }
    if |input.moveDir| != 2 {
      return DroppedNanInf;
    }
    var x, y := input.moveDir[0], input.moveDir[1];
    var ar := buffer.ar;
    if IsNan(ar.bits(x)) || IsInfinite(ar.bits(x)) || IsNan(ar.bits(y)) || IsInfinite(ar.bits(y)) {
      return DroppedNanInf;
    }
    if input.tick < targetTickFloor {
      return DroppedBelowFloor(input.tick, targetTickFloor);
    }
    if input.tick < currentTick {
      return DroppedLate(input.tick, currentTick);
    }
    var maxTick := currentTick + buffer.config.maxFutureTicks;
    if input.tick > maxTick {
      return DroppedTooFuture(input.tick, maxTick);
    }
    var r := buffer.TryBufferInput(playerId, input);
    match r {
      case Accepted(clamped) => result := if clamped then AcceptedWithClamp else ValidationResult.Accepted;
      case RateLimited => result := DroppedRateLimit;
      case InputSeqTie => result := DroppedInputSeqTie;
    }
  }
}
