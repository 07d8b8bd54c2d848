/**
 * The sender-side ring of audio frames with its mirrored counters, and the refill rule
 * of the streaming loop that keeps it from overflowing.
 */
module SenderBuffer {
  import opened Bytes

  datatype AudioFrame = AudioFrame(samples: seq<int>, timestamp: nat)

  // ------------------------------------------------------------------
  // The ring
  // ------------------------------------------------------------------

  function SamplesPerChannel(f: AudioFrame, channels: nat): nat {
    if channels == 0 then 0 else |f.samples| / channels
  }

  function TotalSamples(frames: seq<AudioFrame>, channels: nat): nat {
    if frames == [] then 0 else SamplesPerChannel(frames[0], channels) + TotalSamples(frames[1..], channels)
  }

  lemma {:induction false} TotalOfConcat(a: seq<AudioFrame>, b: seq<AudioFrame>, channels: nat)
    ensures TotalSamples(a + b, channels) == TotalSamples(a, channels) + TotalSamples(b, channels)
  {
    if a == [] {
      assert a + b == b;
    } else {
      TotalOfConcat(a[1..], b, channels);
      assert (a + b)[1..] == a[1..] + b;
    }
  }

  /** Whole frames of `framesPerPacket` that fit into `capacityMs`, and at least one. */
  function CapacityFrames(sampleRate: nat, framesPerPacket: nat, capacityMs: nat): (frames: nat)
    ensures frames >= 1
  {
    var frames := if framesPerPacket > 0 then sampleRate / 1000 * capacityMs / framesPerPacket else 1;
    if frames < 1 then 1 else frames
  }

  /** The largest number of whole packets whose samples fit the configured time, and at least one. */
  lemma CapacityIsWholePackets(sampleRate: nat, framesPerPacket: nat, capacityMs: nat)
    requires framesPerPacket > 0
    ensures var n, samples := CapacityFrames(sampleRate, framesPerPacket, capacityMs), sampleRate / 1000 * capacityMs;
            n >= 1 && (n == 1 || n * framesPerPacket <= samples) && samples < (n + 1) * framesPerPacket
  {
    var samples := sampleRate / 1000 * capacityMs;
    var q := samples / framesPerPacket;
    assert samples == q * framesPerPacket + samples % framesPerPacket;
    assert (q + 1) * framesPerPacket == q * framesPerPacket + framesPerPacket;
  }

  /** For whole frames the mirrored sample counter is samples divided by channels. */
  lemma {:induction false} TotalCountsSamples(frames: seq<AudioFrame>, channels: nat)
    requires channels > 0 && forall i :: 0 <= i < |frames| ==> |frames[i].samples| % channels == 0
    ensures TotalSamples(frames, channels) * channels == AllSamples(frames)
  {
    if frames != [] {
      TotalCountsSamples(frames[1..], channels);
      var n, m := SamplesPerChannel(frames[0], channels), TotalSamples(frames[1..], channels);
      assert n * channels == |frames[0].samples|;
      assert (n + m) * channels == n * channels + m * channels;
    }
  }

  function AllSamples(frames: seq<AudioFrame>): nat {
    if frames == [] then 0 else |frames[0].samples| + AllSamples(frames[1..])
  }

  class AudioBuffer {
    const capacityFrames: nat
    const channels: nat
    var frames: seq<AudioFrame>
    var queuedFrames: nat
    var queuedSamples: nat
    var samplesWritten: nat
    var samplesRead: nat
    var underruns: nat
    /** Samples per channel that left by clear or flush. */
    ghost var discarded: nat

    /** The mirrors are exact and every written sample is read, queued or discarded. */
    ghost predicate Valid()
      reads this
    {
      && |frames| <= capacityFrames && (channels == 0 ==> frames == [])
      && queuedFrames == |frames| && queuedSamples == TotalSamples(frames, channels)
      && samplesWritten == samplesRead + queuedSamples + discarded
    }

    constructor (sampleRate: nat, framesPerPacket: nat, channels: nat, capacityMs: nat)
      ensures Valid() && frames == [] && this.channels == channels
      ensures capacityFrames == CapacityFrames(sampleRate, framesPerPacket, capacityMs)
    {
      this.capacityFrames := CapacityFrames(sampleRate, framesPerPacket, capacityMs);
      this.channels, frames, queuedFrames, queuedSamples := channels, [], 0, 0;
      samplesWritten, samplesRead, underruns, discarded := 0, 0, 0, 0;
    }

    /** Counts samples per channel, so a format without channels cannot be pushed. */
    method Push(f: AudioFrame) returns (ok: bool)
      requires Valid() && channels > 0
      modifies this
      ensures Valid() && samplesRead == old(samplesRead) && discarded == old(discarded) && underruns == old(underruns)
      ensures ok <==> |old(frames)| < capacityFrames
      ensures frames == if ok then old(frames) + [f] else old(frames)
    {
      if |frames| >= capacityFrames {
        return false;
      }
      var n := |f.samples| / channels;
      samplesWritten, queuedSamples := samplesWritten + n, queuedSamples + n;
      TotalOfConcat(frames, [f], channels);
      frames := frames + [f];
      queuedFrames := |frames|;
      ok := true;
    }

    method Pop() returns (f: Option<AudioFrame>)
      requires Valid()
      modifies this
      ensures Valid() && samplesWritten == old(samplesWritten) && discarded == old(discarded)
      ensures f.None? <==> old(frames) == []
      ensures f.None? ==> frames == [] && underruns == old(underruns) + 1
      ensures f.Some? ==> old(frames) == [f.value] + frames && underruns == old(underruns)
    {
      if frames == [] {
        underruns := underruns + 1;
        return None;
      }
      var head := frames[0];
      var n := |head.samples| / channels;
      samplesRead, queuedSamples := samplesRead + n, queuedSamples - n;
      frames := frames[1..];
      queuedFrames := |frames|;
      f := Some(head);
    }

    method Flush() returns (flushed: seq<AudioFrame>)
      requires Valid()
      modifies this
      ensures Valid() && frames == [] && flushed == old(frames)
      ensures samplesWritten == old(samplesWritten) && samplesRead == old(samplesRead)
    {
      flushed := frames;
      discarded := discarded + queuedSamples;
      frames, queuedFrames, queuedSamples := [], 0, 0;
    }
  }

  // ------------------------------------------------------------------
  // The refill rule
  // ------------------------------------------------------------------

  /** `Both`: a live start prefills while the loop of an earlier start still runs. */
  datatype Stage = NotStarted | Prefilling | Running | Both

  /** `level` frames are buffered; `overflowed` tells that a refill met a full buffer. */
  datatype Level = Level(stage: Stage, level: nat, overflowed: bool)

  /** Frames a refill of three decodes can find, then what the loop does. */
  datatype Move =
    | StartFile(available: nat)
    | StartLive
    | Prefill(available: nat, timedOut: bool)
    | Pass(available: nat, popped: bool)
    | FlushBuffer
    | Stop

  predicate IsStart(m: Move) {
    m.StartFile? || m.StartLive?
  }

  predicate Fills(stage: Stage) {
    stage == Prefilling || stage == Both
  }

  predicate Loops(stage: Stage) {
    stage == Running || stage == Both
  }

  predicate BelowPercent(level: nat, capacity: nat, percent: nat) {
    level * 100 < capacity * percent
  }

  /** Three decodes at most; the push that meets a full buffer ends the stream. */
  function Refill(l: Level, capacity: nat, available: nat): Level {
    var n := if available < 3 then available else 3;
    if l.level + n <= capacity then l.(level := l.level + n) else l.(level := capacity, overflowed := true)
  }

  /** Level of a running stream after a loop pass has refilled it, if it does. */
  function Filled(l: Level, capacity: nat, available: nat): Level {
    if BelowPercent(l.level, capacity, 40) then Refill(l, capacity, available) else l
  }

  /** Whether a move takes a frame out of the ring for encoding. */
  predicate Pops(l: Level, capacity: nat, m: Move) {
    && m.Pass? && m.popped && Loops(l.stage) && !l.overflowed
    && !Filled(l, capacity, m.available).overflowed && Filled(l, capacity, m.available).level > 0
  }

  /**
   * A file start refills at once, whatever the level; a live start prefills until half full or out of
   * patience; a stop ends the loop and flushes.
   */
  function Moved(l: Level, capacity: nat, m: Move): Level {
    if l.overflowed then l
    else
      match m
      case StartFile(n) => Refill(l, capacity, n).(stage := if Fills(l.stage) then Both else Running)
      case StartLive => l.(stage := if Loops(l.stage) then Both else Prefilling)
      case Prefill(n, timedOut) =>
        if !Fills(l.stage) then l
        else
          var filled := Refill(l, capacity, n);
          if timedOut || !BelowPercent(filled.level, capacity, 50) then filled.(stage := Running) else filled
      case Pass(n, popped) =>
        if !Loops(l.stage) then l
        else
          var filled := Filled(l, capacity, n);
          if Pops(l, capacity, m) then filled.(level := filled.level - 1) else filled
      case FlushBuffer => l.(level := 0)
      case Stop => l.(stage := NotStarted, level := 0)
  }

  const EMPTY: Level := Level(NotStarted, 0, false)

  function LevelAfter(capacity: nat, moves: seq<Move>): Level {
    if moves == [] then EMPTY
    else Moved(LevelAfter(capacity, moves[..|moves| - 1]), capacity, moves[|moves| - 1])
  }

  /** No start since the beginning or the last stop. */
  predicate Stopped(moves: seq<Move>) {
    if moves == [] then true
    else
      var last := moves[|moves| - 1];
      last.Stop? || (!IsStart(last) && Stopped(moves[..|moves| - 1]))
  }

  /** Every start but the first comes after a stop. */
  predicate StopsBeforeStarts(moves: seq<Move>) {
    moves == []
    || (StopsBeforeStarts(moves[..|moves| - 1])
        && (IsStart(moves[|moves| - 1]) ==> Stopped(moves[..|moves| - 1])))
  }

  /** No run that stops before it starts again overflows. */
  ghost predicate NeverOverflows(capacity: nat) {
    forall moves :: StopsBeforeStarts(moves) ==> !LevelAfter(capacity, moves).overflowed
  }

  /** Nothing overflowed, nothing is buffered before a start, and a prefill stops at half full. */
  ghost predicate Safe(l: Level, capacity: nat) {
    && !l.overflowed && l.level <= capacity && l.stage != Both
    && (l.stage == NotStarted ==> l.level == 0)
    && (l.stage == Prefilling ==> BelowPercent(l.level, capacity, 50))
  }

  lemma MoveKeepsSafe(l: Level, capacity: nat, m: Move)
    requires capacity >= 4 && Safe(l, capacity) && (IsStart(m) ==> l.stage == NotStarted)
    ensures Safe(Moved(l, capacity, m), capacity)
  {
  }

  /** With room for four frames no restart after a stop can overflow the ring. */
  lemma {:induction false} FourFramesSuffice(capacity: nat, moves: seq<Move>)
    requires capacity >= 4 && StopsBeforeStarts(moves)
    ensures Safe(LevelAfter(capacity, moves), capacity)
    ensures Stopped(moves) <==> LevelAfter(capacity, moves).stage == NotStarted
  {
    if moves != [] {
      FourFramesSuffice(capacity, moves[..|moves| - 1]);
      MoveKeepsSafe(LevelAfter(capacity, moves[..|moves| - 1]), capacity, moves[|moves| - 1]);
    }
  }

  /** The refill rule can never overflow the ring exactly when the ring holds at least four frames. */
  lemma {:induction false} OverflowUnreachableExactly(capacity: nat)
    ensures NeverOverflows(capacity) <==> capacity >= 4
  {
    if capacity >= 4 {
      forall moves | StopsBeforeStarts(moves) ensures !LevelAfter(capacity, moves).overflowed {
        FourFramesSuffice(capacity, moves);
      }
    } else {
      var one, two, three := [StartFile(1)], [StartFile(1), Pass(3, false)], [StartFile(3)];
      assert two[..1] == one && one[..0] == [] && three[..0] == [];
      assert LevelAfter(capacity, []) == EMPTY;
      assert StopsBeforeStarts([]) && StopsBeforeStarts(one) && StopsBeforeStarts(two) && StopsBeforeStarts(three);
      assert LevelAfter(capacity, two) == Moved(LevelAfter(capacity, one), capacity, Pass(3, false));
      assert capacity < 3 ==> LevelAfter(capacity, three).overflowed;
      assert capacity == 3 ==> LevelAfter(capacity, two).overflowed;
    }
  }

  /**
   * The thresholds: a loop pass refills exactly below 40 percent, a prefill ends exactly at half full
   * or when patience runs out, and a refill with enough to decode raises the level by three.
   */
  lemma ThresholdsExactly(l: Level, capacity: nat, timedOut: bool)
    requires capacity >= 4 && !l.overflowed && l.level + 3 <= capacity
    ensures l.stage == Running ==>
              Moved(l, capacity, Pass(3, false)).level == l.level + (if 100 * l.level < 40 * capacity then 3 else 0)
    ensures l.stage == Prefilling ==>
              var after := Moved(l, capacity, Prefill(3, timedOut));
              && after.level == l.level + 3
              && (after.stage == Running <==> timedOut || 100 * after.level >= 50 * capacity)
  {
  }

  /** `n` file starts in a row. */
  function Starts(n: nat): (moves: seq<Move>)
    ensures |moves| == n
  {
    if n == 0 then [] else Starts(n - 1) + [StartFile(3)]
  }

  lemma {:induction false} StartsPileUp(capacity: nat, n: nat)
    ensures var l := LevelAfter(capacity, Starts(n));
            l.overflowed || (l.level == 3 * n <= capacity && !Fills(l.stage))
  {
    if n > 0 {
      StartsPileUp(capacity, n - 1);
      assert Starts(n)[..n - 1] == Starts(n - 1);
    }
  }

  /** Starting again without a stop refills whatever the level, so it overflows a ring of any size. */
  lemma RepeatedStartsOverflow(capacity: nat)
    ensures LevelAfter(capacity, Starts(capacity + 1)).overflowed
  {
    StartsPileUp(capacity, capacity + 1);
  }

  /** Both sample rates and every permitted buffer length leave room for packets of up to 1100 frames. */
  lemma StockFormatsAreSafe(sampleRate: nat, framesPerPacket: nat, capacityMs: nat)
    requires sampleRate == 44100 || sampleRate == 48000
    requires 1 <= framesPerPacket <= 1100 && 100 <= capacityMs <= 10_000
    ensures NeverOverflows(CapacityFrames(sampleRate, framesPerPacket, capacityMs))
  {
    var samples := sampleRate / 1000 * capacityMs;
    assert samples >= 4400;
    FourFit(samples, framesPerPacket);
    OverflowUnreachableExactly(CapacityFrames(sampleRate, framesPerPacket, capacityMs));
  }

  lemma FourFit(a: nat, b: nat)
    requires b > 0 && 4 * b <= a
    ensures a / b >= 4
  {
    var q := a / b;
    assert a == q * b + a % b;
    assert q == 0 || q == 1 || q == 2 || q == 3 || q >= 4;
  }

  // ------------------------------------------------------------------
  // The loop on the ring
  // ------------------------------------------------------------------

  /** One refill of the ring from a decoder that has `available` frames ready; `decoded(k)` is its k-th. */
  method DecodeSome(buffer: AudioBuffer, available: nat, decoded: nat -> AudioFrame) returns (ok: bool)
    requires buffer.Valid() && buffer.channels > 0
    modifies buffer
    ensures buffer.Valid() && buffer.samplesRead == old(buffer.samplesRead) && buffer.discarded == old(buffer.discarded)
    ensures var l := Refill(Level(Running, |old(buffer.frames)|, false), buffer.capacityFrames, available);
            |buffer.frames| == l.level && (ok <==> !l.overflowed)
    ensures old(buffer.frames) <= buffer.frames
    ensures forall k :: |old(buffer.frames)| <= k < |buffer.frames| ==>
              buffer.frames[k] == decoded(k - |old(buffer.frames)|)
  {
    ghost var before := |buffer.frames|;
    for k := 0 to 3
      invariant buffer.Valid() && buffer.samplesRead == old(buffer.samplesRead) && buffer.discarded == old(buffer.discarded)
      invariant |buffer.frames| == before + k && k <= available
      invariant old(buffer.frames) <= buffer.frames
      invariant forall j :: before <= j < |buffer.frames| ==> buffer.frames[j] == decoded(j - before)
    {
      if k == available {
        return true;
      }
      var pushed := buffer.Push(decoded(k));
      if !pushed {
        return false;
      }
    }
    ok := true;
  }

  /** One pass of the streaming loop: refill below the threshold, then perhaps take a frame. */
  method LoopPass(buffer: AudioBuffer, l: Level, available: nat, popped: bool, decoded: nat -> AudioFrame)
    returns (after: Level)
    requires buffer.Valid() && buffer.channels > 0 && |buffer.frames| == l.level && Loops(l.stage) && !l.overflowed
    modifies buffer
    ensures buffer.Valid() && |buffer.frames| == after.level
    ensures after == Moved(l, buffer.capacityFrames, Pass(available, popped))
  {
    var ok := true;
    if |buffer.frames| * 100 < buffer.capacityFrames * 40 {
      ok := DecodeSome(buffer, available, decoded);
    }
    if popped && ok {
      var _ := buffer.Pop();
    }
    after := l.(level := |buffer.frames|, overflowed := !ok);
  }

  /** One step of the streamer on its ring. */
  method MoveOn(buffer: AudioBuffer, l: Level, m: Move, decoded: nat -> AudioFrame) returns (after: Level)
    requires buffer.Valid() && buffer.channels > 0 && |buffer.frames| == l.level
    modifies buffer
    ensures buffer.Valid() && |buffer.frames| == after.level && after == Moved(l, buffer.capacityFrames, m)
  {
    after := l;
    if l.overflowed {
      return;
    }
    match m {
      case StartLive =>
        after := after.(stage := if Loops(l.stage) then Both else Prefilling);
      case FlushBuffer =>
        var _ := buffer.Flush();
      case Stop =>
        var _ := buffer.Flush();
        after := after.(stage := NotStarted);
      case Pass(n, popped) =>
        if Loops(l.stage) {
          after := LoopPass(buffer, l, n, popped, decoded);
        }
      case Prefill(n, timedOut) =>
        if Fills(l.stage) {
          var ok := DecodeSome(buffer, n, decoded);
          if timedOut || |buffer.frames| * 100 >= buffer.capacityFrames * 50 {
            after := after.(stage := Running);
          }
          after := after.(overflowed := !ok);
        }
      case StartFile(n) =>
        var ok := DecodeSome(buffer, n, decoded);
        after := after.(stage := if Fills(l.stage) then Both else Running, overflowed := !ok);
    }
    after := after.(level := |buffer.frames|);
  }

  /**
   * Any run of the streamer on a new ring follows the level machine, so with room for four frames
   * and a stop before every further start no push fails; every written sample stays accounted for.
   */
  method RunMoves(buffer: AudioBuffer, moves: seq<Move>, decoded: (nat, nat) -> AudioFrame) returns (l: Level)
    requires buffer.Valid() && buffer.channels > 0 && buffer.frames == []
    modifies buffer
    ensures buffer.Valid() && |buffer.frames| == l.level && l == LevelAfter(buffer.capacityFrames, moves)
    ensures buffer.capacityFrames >= 4 && StopsBeforeStarts(moves) ==> !l.overflowed
  {
    l := EMPTY;
    assert moves[..0] == [];
    for i := 0 to |moves|
      invariant buffer.Valid() && |buffer.frames| == l.level && l == LevelAfter(buffer.capacityFrames, moves[..i])
    {
      l := MoveOn(buffer, l, moves[i], (k: nat) => decoded(i, k));
      assert moves[..i + 1][..i] == moves[..i];
    }
    assert moves[..|moves|] == moves;
    if buffer.capacityFrames >= 4 && StopsBeforeStarts(moves) {
      FourFramesSuffice(buffer.capacityFrames, moves);
    }
  }
}
