/**
 * From received capture frames to encoded packets: resampling, residual re-chunking, the sender
 * ring with its refill rule, and the encoder's buffering and time stamps.
 */
module Pipeline {
  import opened Bytes
  import opened CaptureQueue
  import opened SenderBuffer

  // ------------------------------------------------------------------
  // Concatenation of chunks
  // ------------------------------------------------------------------

  function Flat(chunks: seq<seq<int>>): seq<int> {
    if chunks == [] then [] else Flat(chunks[..|chunks| - 1]) + chunks[|chunks| - 1]
  }

  lemma FlatSnoc(chunks: seq<seq<int>>, chunk: seq<int>)
    ensures Flat(chunks + [chunk]) == Flat(chunks) + chunk
  {
    assert (chunks + [chunk])[..|chunks|] == chunks;
  }

  ghost predicate AllOfSize(chunks: seq<seq<int>>, size: nat) {
    forall i :: 0 <= i < |chunks| ==> |chunks[i]| == size
  }

  /** Equal chunks are the consecutive slices of their concatenation. */
  lemma {:induction false} FlatSlices(chunks: seq<seq<int>>, size: nat, k: nat)
    requires AllOfSize(chunks, size) && k < |chunks|
    ensures |Flat(chunks)| == |chunks| * size && 0 <= k * size <= (k + 1) * size <= |Flat(chunks)|
    ensures Flat(chunks)[k * size..(k + 1) * size] == chunks[k]
  {
    var init, last := chunks[..|chunks| - 1], chunks[|chunks| - 1];
    if init == [] {
      assert Flat(chunks) == last;
    } else {
      FlatSlices(init, size, if k < |init| then k else |init| - 1);
      assert |init| * size + size == (|init| + 1) * size;
      if k < |init| {
        SliceOfPrefix(Flat(init), last, k * size, (k + 1) * size);
      }
    }
  }

  lemma SliceOfPrefix(a: seq<int>, b: seq<int>, lo: nat, hi: nat)
    requires lo <= hi <= |a|
    ensures (a + b)[lo..hi] == a[lo..hi]
  {
  }

  // ------------------------------------------------------------------
  // The live decoder
  // ------------------------------------------------------------------

  /** A frame from the queue, and what the resampler would make of it; `None` is its error. */
  datatype Received = Received(frame: PcmFrame, resampled: Option<seq<int>>)

  datatype DecodeError = NoResampler | ResampleFailed

  /** What one received frame adds to the collected samples. */
  function Contribution(r: Received, direct: bool): seq<int> {
    if direct then r.frame.samples else if r.resampled.Some? then r.resampled.value else []
  }

  function Delivered(supply: seq<Received>, direct: bool): seq<int> {
    if supply == [] then []
    else Delivered(supply[..|supply| - 1], direct) + Contribution(supply[|supply| - 1], direct)
  }

  /** Frames with at least one channel; counting a frame without channels divides by zero. */
  predicate Countable(supply: seq<Received>) {
    forall i :: 0 <= i < |supply| ==> supply[i].frame.channels > 0
  }

  function PerChannel(samples: nat, channels: nat): nat
    requires channels > 0
  {
    samples / channels
  }

  function FramesIn(r: Received): nat
    requires r.frame.channels > 0
  {
    PerChannel(|r.frame.samples|, r.frame.channels)
  }

  function FrameCount(supply: seq<Received>): nat
    requires Countable(supply)
  {
    if supply == [] then 0 else FrameCount(supply[..|supply| - 1]) + FramesIn(supply[|supply| - 1])
  }

  lemma NothingSupplied(supply: seq<Received>, direct: bool)
    ensures Delivered(supply[..0], direct) == [] && FrameCount(supply[..0]) == 0
  {
    assert supply[..0] == [];
  }

  lemma OneMoreFrame(supply: seq<Received>, used: nat, direct: bool)
    requires used < |supply| && Countable(supply)
    ensures Delivered(supply[..used + 1], direct) == Delivered(supply[..used], direct) + Contribution(supply[used], direct)
    ensures FrameCount(supply[..used + 1]) == FrameCount(supply[..used]) + FramesIn(supply[used])
  {
    hide FramesIn, Contribution;
    assert supply[..used + 1][..used] == supply[..used];
  }

  lemma DeliveredSnoc(supply: seq<Received>, r: Received, direct: bool)
    ensures Delivered(supply + [r], direct) == Delivered(supply, direct) + Contribution(r, direct)
  {
    hide Contribution;
    assert (supply + [r])[..|supply|] == supply;
  }

  lemma {:induction false} DeliveredConcat(a: seq<Received>, b: seq<Received>, direct: bool)
    ensures Delivered(a + b, direct) == Delivered(a, direct) + Delivered(b, direct)
  {
    hide Delivered, Contribution;
    if b == [] {
      NoneDelivered(direct);
      assert a + b == a && Delivered(a, direct) + [] == Delivered(a, direct);
    } else {
      var init, last := b[..|b| - 1], b[|b| - 1];
      assert b == init + [last] && a + b == (a + init) + [last];
      DeliveredConcat(a, init, direct);
      DeliveredSnoc(a + init, last, direct);
      DeliveredSnoc(init, last, direct);
    }
  }

  lemma NoneDelivered(direct: bool)
    ensures Delivered([], direct) == []
  {
  }

  /** What counts as delivered: the frames' own samples at equal rates, the resampler's output otherwise. */
  lemma {:induction false} DeliveredIsSamples(supply: seq<Received>)
    ensures Delivered(supply, true)
         == Flat(seq(|supply|, i requires 0 <= i < |supply| => supply[i].frame.samples))
    ensures (forall i :: 0 <= i < |supply| ==> supply[i].resampled.Some?) ==>
              Delivered(supply, false)
              == Flat(seq(|supply|, i requires 0 <= i < |supply| && supply[i].resampled.Some? => supply[i].resampled.value))
  {
    if supply != [] {
      var init, last := supply[..|supply| - 1], supply[|supply| - 1];
      DeliveredIsSamples(init);
      var own := seq(|supply|, i requires 0 <= i < |supply| => supply[i].frame.samples);
      assert own[..|init|] == seq(|init|, i requires 0 <= i < |init| => init[i].frame.samples);
      if forall i :: 0 <= i < |supply| ==> supply[i].resampled.Some? {
        var made := seq(|supply|, i requires 0 <= i < |supply| && supply[i].resampled.Some? => supply[i].resampled.value);
        assert made[..|init|] == seq(|init|, i requires 0 <= i < |init| && init[i].resampled.Some? => init[i].resampled.value);
      }
    }
  }

  /** Positions count frames: for whole frames of `channels` samples each, samples divided by channels. */
  lemma {:induction false} PositionCountsFrames(supply: seq<Received>, channels: nat)
    requires channels > 0 && forall i :: 0 <= i < |supply| ==> supply[i].frame.channels == channels
    requires forall i :: 0 <= i < |supply| ==> |supply[i].frame.samples| % channels == 0
    ensures FrameCount(supply) * channels == |Delivered(supply, true)|
  {
    if supply != [] {
      var init, last := supply[..|supply| - 1], supply[|supply| - 1];
      PositionCountsFrames(init, channels);
      var n := |last.frame.samples|;
      WholeFrames(n, channels);
      Distribute(FrameCount(init), PerChannel(n, channels), channels);
    }
  }

  lemma WholeFrames(n: nat, channels: nat)
    requires channels > 0 && n % channels == 0
    ensures PerChannel(n, channels) * channels == n
  {
  }

  lemma Distribute(a: nat, b: nat, c: nat)
    ensures (a + b) * c == a * c + b * c
  {
  }

  class LiveAudioDecoder {
    const sourceRate: nat
    const targetRate: nat
    var hasResampler: bool
    var residual: seq<int>
    var position: nat

    predicate Direct() {
      sourceRate == targetRate
    }

    constructor (sourceRate: nat, targetRate: nat)
      ensures residual == [] && position == 0 && !hasResampler
      ensures this.sourceRate == sourceRate && this.targetRate == targetRate
    {
      this.sourceRate, this.targetRate := sourceRate, targetRate;
      hasResampler, residual, position := false, [], 0;
    }

    /** Receive until `size` samples are there or the queue is empty. */
    method Collect(size: nat, supply: seq<Received>) returns (collected: seq<int>, used: nat, failed: bool)
      requires Countable(supply)
      modifies `residual, `position
      ensures used <= |supply| && residual == []
      ensures collected == old(residual) + Delivered(supply[..used], Direct())
      ensures used > 0 ==> |old(residual) + Delivered(supply[..used - 1], Direct())| < size
      ensures position == old(position) + FrameCount(supply[..used])
      ensures failed <==> !Direct() && used > 0 && supply[used - 1].resampled.None?
      ensures !failed && |collected| < size ==> used == |supply|
      ensures !Direct() ==> forall i :: 0 <= i < used - 1 ==> supply[i].resampled.Some?
    {
      hide Delivered, FrameCount, FramesIn, Contribution;
      collected, used, failed := residual, 0, false;
      residual := [];
      NothingSupplied(supply, Direct());
      while |collected| < size && used < |supply|
        invariant used <= |supply| && residual == []
        invariant collected == old(residual) + Delivered(supply[..used], Direct())
        invariant used > 0 ==> |old(residual) + Delivered(supply[..used - 1], Direct())| < size
        invariant position == old(position) + FrameCount(supply[..used])
        invariant !Direct() ==> forall i :: 0 <= i < used ==> supply[i].resampled.Some?
        decreases |supply| - used
      {
        var r := supply[used];
        OneMoreFrame(supply, used, Direct());
        position := position + FramesIn(r);
        collected := collected + Contribution(r, Direct());
        used := used + 1;
        if !Direct() && r.resampled.None? {
          return collected, used, true;
        }
      }
    }

    /**
     * Collect one packet of `size` samples. `supply` are the frames the queue hands out before it
     * first comes back empty; `used` of them are received. Too few samples are kept for later; a
     * resampler error loses what was collected.
     */
    method DecodeResampled(size: nat, supply: seq<Received>, resamplerBuilds: bool)
      returns (result: Result<Option<seq<int>>, DecodeError>, used: nat)
      requires Countable(supply)
      modifies this
      ensures used <= |supply|
      ensures position == old(position) + FrameCount(supply[..used])
      ensures result == Err(NoResampler) <==> !Direct() && !old(hasResampler) && !resamplerBuilds
      ensures result.Err? ==> !Direct()
      ensures hasResampler == (old(hasResampler) || (!Direct() && resamplerBuilds))
      ensures result == Err(NoResampler) ==> used == 0 && residual == old(residual)
      ensures result == Err(ResampleFailed) ==>
                && !Direct() && used > 0 && supply[used - 1].resampled.None? && residual == []
                && (forall i :: 0 <= i < used - 1 ==> supply[i].resampled.Some?)
                && |old(residual) + Delivered(supply[..used - 1], Direct())| < size
      ensures result.Ok? && !Direct() ==> forall i :: 0 <= i < used ==> supply[i].resampled.Some?
      ensures result.Ok? && result.value.Some? ==>
                && |result.value.value| == size
                && result.value.value + residual == old(residual) + Delivered(supply[..used], Direct())
                && (used > 0 ==> |old(residual) + Delivered(supply[..used - 1], Direct())| < size)
      ensures result.Ok? && result.value.None? ==>
                && residual == old(residual) + Delivered(supply[..used], Direct())
                && (if size > 0 then used == |supply| && |residual| < size else residual == [])
    {
      hide Delivered, FrameCount;
      NothingSupplied(supply, Direct());
      if !Direct() && !hasResampler {
        if !resamplerBuilds {
          return Err(NoResampler), 0;
        }
        hasResampler := true;
      }
      var collected, failed;
      collected, used, failed := Collect(size, supply);
      if failed {
        return Err(ResampleFailed), used;
      }
      if |collected| < size {
        residual := collected;
        return Ok(None), used;
      }
      if collected == [] {
        return Ok(None), used;
      }
      if |collected| > size {
        residual := collected[size..];
        collected := collected[..size];
      }
      result := Ok(Some(collected));
    }
  }

  // ------------------------------------------------------------------
  // The encoder
  // ------------------------------------------------------------------

  /** What the codec is given, and the sample count at its start. */
  datatype Encoded = Encoded(samples: seq<int>, timestamp: nat)

  class AlacEncoder {
    const framesPerPacket: nat
    const channels: nat
    /** Samples of one full frame. */
    const size: nat
    var timestamp: nat
    var buffer: seq<int>

    ghost predicate Sized() {
      channels > 0 && size == framesPerPacket * channels
    }

    constructor (framesPerPacket: nat, channels: nat)
      requires channels > 0
      ensures Sized() && timestamp == 0 && buffer == []
      ensures this.framesPerPacket == framesPerPacket && this.channels == channels
    {
      this.framesPerPacket, this.channels, size := framesPerPacket, channels, framesPerPacket * channels;
      timestamp, buffer := 0, [];
    }

    /** Encode one full frame if there is one, else whatever is buffered. */
    method Encode(samples: seq<int>) returns (packet: Encoded)
      requires Sized()
      modifies this
      ensures packet.samples + buffer == old(buffer) + samples
      ensures |packet.samples| == if |old(buffer) + samples| < size then |old(buffer) + samples| else size
      ensures packet.timestamp == old(timestamp) && timestamp == old(timestamp) + PerChannel(|packet.samples|, channels)
    {
      hide PerChannel;
      buffer := buffer + samples;
      if |buffer| >= size {
        packet := Encoded(buffer[..size], timestamp);
        buffer := buffer[size..];
      } else {
        packet := Encoded(buffer, timestamp);
        buffer := [];
      }
      timestamp := timestamp + PerChannel(|packet.samples|, channels);
    }
  }

  // ------------------------------------------------------------------
  // The pipeline
  // ------------------------------------------------------------------

  /** Packet `k` starts at sample `k * framesPerPacket`, and the clock stands after the last one. */
  ghost predicate Stamped(encoded: seq<Encoded>, timestamp: nat, framesPerPacket: nat) {
    && timestamp == |encoded| * framesPerPacket
    && forall k :: 0 <= k < |encoded| ==> encoded[k].timestamp == k * framesPerPacket
  }

  lemma NextStamp(encoded: seq<Encoded>, timestamp: nat, framesPerPacket: nat, channels: nat, samples: seq<int>)
    requires Stamped(encoded, timestamp, framesPerPacket)
    requires channels > 0 && |samples| == framesPerPacket * channels
    ensures Stamped(encoded + [Encoded(samples, timestamp)], timestamp + PerChannel(|samples|, channels), framesPerPacket)
  {
    QuotientOfProduct(framesPerPacket, channels);
    assert (|encoded| + 1) * framesPerPacket == |encoded| * framesPerPacket + framesPerPacket;
  }

  lemma QuotientOfProduct(a: nat, b: nat)
    requires b > 0
    ensures a * b / b == a
  {
    var n := a * b;
    var q, r := n / b, n % b;
    assert q * b + r == n;
    assert (a - q) * b == r by {
      assert (a - q) * b == a * b - q * b;
    }
    SmallMultiple(a - q, b);
  }

  lemma SmallMultiple(x: int, b: int)
    requires 0 <= x * b < b
    ensures x == 0
  {
    assert x >= 1 ==> x * b == (x - 1) * b + b;
  }

  /** `n` whole packets fit into `total` samples, and no more. */
  lemma WholePackets(total: nat, size: nat, n: nat)
    requires size > 0 && n * size <= total
    ensures total / size >= n
    ensures total < n * size + size ==> total / size == n
  {
    var q := total / size;
    assert total == q * size + total % size;
    assert (q + 1) * size == q * size + size && (n + 1) * size == n * size + size;
    if q + 1 <= n {
      AtLeastProduct(q + 1, n, size);
    } else if n + 1 <= q {
      AtLeastProduct(n + 1, q, size);
    }
  }

  lemma AtLeastProduct(a: nat, b: nat, c: nat)
    requires a <= b
    ensures a * c <= b * c
  {
  }

  function SamplesOf(frames: seq<AudioFrame>): (r: seq<seq<int>>)
    ensures |r| == |frames| && forall i :: 0 <= i < |r| ==> r[i] == frames[i].samples
  {
    seq(|frames|, i requires 0 <= i < |frames| => frames[i].samples)
  }

  // ------------------------------------------------------------------
  // What a live stream takes from the queue
  // ------------------------------------------------------------------

  /** `used` frames are just enough to reach `target` samples, or all there are. */
  ghost predicate JustEnough(have: nat, target: nat, supply: seq<Received>, used: nat) {
    && used <= |supply|
    && (used > 0 ==> have + |Delivered(supply[..used - 1], true)| < target)
    && (used == |supply| || have + |Delivered(supply[..used], true)| >= target)
  }

  /** The number of frames, from the `i`-th on, after which `target` samples are there. */
  function NeedFrom(have: nat, target: nat, supply: seq<Received>, i: nat): nat
    requires i <= |supply|
    decreases |supply| - i
  {
    if i == |supply| || have + |Delivered(supply[..i], true)| >= target then i
    else NeedFrom(have, target, supply, i + 1)
  }

  function Need(have: nat, target: nat, supply: seq<Received>): nat {
    NeedFrom(have, target, supply, 0)
  }

  lemma DeliveredGrows(supply: seq<Received>, i: nat, j: nat)
    requires i <= j <= |supply|
    ensures |Delivered(supply[..i], true)| <= |Delivered(supply[..j], true)|
  {
    hide Delivered;
    DeliveredConcat(supply[..i], supply[i..j], true);
    assert supply[..j] == supply[..i] + supply[i..j];
  }

  lemma {:induction false} JustEnoughIsNeed(have: nat, target: nat, supply: seq<Received>, used: nat, i: nat)
    requires JustEnough(have, target, supply, used) && i <= used
    ensures NeedFrom(have, target, supply, i) == used
    decreases used - i
  {
    hide Delivered;
    if i < used {
      DeliveredGrows(supply, i, used - 1);
      JustEnoughIsNeed(have, target, supply, used, i + 1);
    }
  }

  /** Decoding packet after packet takes as little as decoding them all at once. */
  lemma EnoughForNext(have: nat, target: nat, size: nat, supply: seq<Received>, used: nat, more: nat)
    requires JustEnough(have, target, supply, used) && have + |Delivered(supply[..used], true)| >= target
    requires JustEnough(have + |Delivered(supply[..used], true)| - target, size, supply[used..], more)
    ensures JustEnough(have, target + size, supply, used + more)
  {
    hide Delivered;
    TakeMore(supply, used, more);
    if more > 0 {
      TakeMore(supply, used, more - 1);
    }
  }

  /** All there is stays all there is for a higher target. */
  lemma EnoughForMore(have: nat, target: nat, higher: nat, supply: seq<Received>, used: nat)
    requires JustEnough(have, target, supply, used) && used == |supply| && target <= higher
    ensures JustEnough(have, higher, supply, used)
  {
  }

  /** What happens to a started live stream: a prefill round, and a pass of the streaming loop. */
  datatype Event =
    | Fill(supply: seq<Received>, timedOut: bool)
    | Loop(supply: seq<Received>, pops: bool)

  /** A stream as a value: its ring's level, the packets encoded, and all samples captured. */
  datatype Flow = Flow(height: Level, packets: nat, captured: seq<int>)

  /** Samples captured that are in no packet yet. */
  function Residue(f: Flow, size: nat): nat {
    var packed := (f.packets + f.height.level) * size;
    if packed <= |f.captured| then |f.captured| - packed else 0
  }

  /** Whole packets of `total` samples. */
  function Packets(total: nat, size: nat): nat {
    if size == 0 then 0 else total / size
  }

  /** The event as the level machine sees it. */
  function MoveOf(f: Flow, size: nat, event: Event): Move {
    var available := Packets(Residue(f, size) + |Delivered(event.supply, true)|, size);
    match event
    case Fill(_, timedOut) => Prefill(available, timedOut)
    case Loop(_, pops) => Pass(available, pops)
  }

  predicate Refills(l: Level, capacity: nat, event: Event) {
    && !l.overflowed
    && (if event.Fill? then Fills(l.stage) else Loops(l.stage) && BelowPercent(l.level, capacity, 40))
  }

  /** Packets a refill tries to make: three, or one more than the ring has room for. */
  function Attempts(level: nat, capacity: nat): nat {
    if level + 3 <= capacity + 1 then 3 else if level <= capacity then capacity + 1 - level else 0
  }

  /** Frames an event receives. */
  function Intake(f: Flow, size: nat, capacity: nat, event: Event): (n: nat)
    ensures n <= |event.supply|
  {
    if !Refills(f.height, capacity, event) then 0
    else
      var n := Need(Residue(f, size), Attempts(f.height.level, capacity) * size, event.supply);
      if n <= |event.supply| then n else 0
  }

  /** One event: the level moves, a popped frame is encoded, and received samples are captured. */
  function Flowed(f: Flow, size: nat, capacity: nat, event: Event): Flow {
    var move := MoveOf(f, size, event);
    Flow(
      Moved(f.height, capacity, move),
      f.packets + (if Pops(f.height, capacity, move) then 1 else 0),
      f.captured + Delivered(event.supply[..Intake(f, size, capacity, event)], true))
  }

  function FlowAfter(f: Flow, size: nat, capacity: nat, events: seq<Event>): Flow {
    if events == [] then f
    else Flowed(FlowAfter(f, size, capacity, events[..|events| - 1]), size, capacity, events[|events| - 1])
  }

  lemma {:induction false} FlatLength(chunks: seq<seq<int>>, size: nat)
    requires AllOfSize(chunks, size)
    ensures |Flat(chunks)| == |chunks| * size
  {
    if chunks != [] {
      FlatLength(chunks[..|chunks| - 1], size);
      assert |chunks| * size == (|chunks| - 1) * size + size;
    }
  }

  class Stream {
    const decoder: LiveAudioDecoder
    const encoder: AlacEncoder
    const buffer: AudioBuffer
    var stage: Stage
    /** A push met a full ring: the streaming task has ended with an error. */
    var failed: bool
    var encoded: seq<Encoded>
    /** Samples of every received frame, in order. */
    ghost var captured: seq<int>

    ghost function Height(): Level
      reads this, buffer
    {
      Level(stage, |buffer.frames|, failed)
    }

    ghost function AsFlow(): Flow
      reads this, buffer
    {
      Flow(Height(), |encoded|, captured)
    }

    /** Equal rates; whole packets; nothing captured is lost, doubled or moved. */
    ghost predicate Lossless()
      reads `failed, `encoded, `captured, decoder, encoder, buffer
    {
      && decoder.Direct() && buffer.Valid() && buffer.channels > 0
      && encoder.Sized() && encoder.size > 0 && encoder.buffer == []
      && Stamped(encoded, encoder.timestamp, encoder.framesPerPacket)
      && AllOfSize(SamplesOf(buffer.frames), encoder.size) && AllOfSize(Payloads(encoded), encoder.size)
      && (!failed ==> Flat(Payloads(encoded) + SamplesOf(buffer.frames)) + decoder.residual == captured)
    }

    /** Between events the ring also obeys its refill rule. */
    ghost predicate Valid()
      reads this, decoder, encoder, buffer
    {
      && Lossless() && (stage == Prefilling || stage == Running)
      && (buffer.capacityFrames >= 4 ==> Safe(Height(), buffer.capacityFrames))
    }

    /** A live start on an empty ring. */
    constructor (rate: nat, framesPerPacket: nat, channels: nat, capacityMs: nat)
      requires framesPerPacket * channels > 0
      ensures Valid() && AsFlow() == Flow(Moved(EMPTY, buffer.capacityFrames, StartLive), 0, [])
      ensures encoder.framesPerPacket == framesPerPacket && encoder.channels == channels
      ensures buffer.capacityFrames == CapacityFrames(rate, framesPerPacket, capacityMs)
      ensures fresh(decoder) && fresh(encoder) && fresh(buffer)
    {
      decoder := new LiveAudioDecoder(rate, rate);
      encoder := new AlacEncoder(framesPerPacket, channels);
      buffer := new AudioBuffer(rate, framesPerPacket, channels, capacityMs);
      stage, failed, encoded, captured := Prefilling, false, [], [];
      new;
      assert Payloads(encoded) + SamplesOf(buffer.frames) == [];
    }

    /**
     * The decoding half: with a packet's worth of samples in hand or in the queue it takes just the
     * frames it needs and returns the next packet; otherwise it takes everything and keeps it.
     */
    method DecodeNext(supply: seq<Received>) returns (packet: Option<seq<int>>, used: nat)
      requires decoder.Direct() && encoder.size > 0 && Countable(supply)
      modifies decoder
      ensures used <= |supply| && JustEnough(|old(decoder.residual)|, encoder.size, supply, used)
      ensures Chunk(packet) + decoder.residual == old(decoder.residual) + Delivered(supply[..used], true)
      ensures var pool := old(decoder.residual) + Delivered(supply, true);
              && (packet.Some? <==> |pool| >= encoder.size)
              && (packet.Some? ==> packet.value == pool[..encoder.size])
              && (packet.None? ==> used == |supply|)
              && decoder.residual + Delivered(supply[used..], true) == pool[|Chunk(packet)|..]
    {
      hide Delivered, FrameCount;
      ghost var residue := decoder.residual;
      var result;
      result, used := decoder.DecodeResampled(encoder.size, supply, true);
      packet := result.value;
      ghost var taken, left := Delivered(supply[..used], true), Delivered(supply[used..], true);
      DeliveredConcat(supply[..used], supply[used..], true);
      assert supply[..used] + supply[used..] == supply;
      assert [] + decoder.residual == decoder.residual;
      PacketFirst(Chunk(packet), decoder.residual, residue, taken, left);
      if packet.None? {
        assert supply[used..] == [];
        NoneDelivered(true);
      }
      if used > 0 {
        DeliveredGrows(supply, used - 1, used);
      }
    }

    /** One decode and the push of its packet; a full ring fails the stream. */
    method DecodeIntoRing(supply: seq<Received>) returns (got: bool, used: nat)
      requires Lossless() && !failed && Countable(supply)
      modifies this`failed, this`captured, decoder, buffer
      ensures Lossless() && used <= |supply| && JustEnough(|old(decoder.residual)|, encoder.size, supply, used)
      ensures captured == old(captured) + Delivered(supply[..used], true)
      ensures var pool := old(decoder.residual) + Delivered(supply, true);
              && (got <==> |pool| >= encoder.size)
              && (failed <==> got && |old(buffer.frames)| == buffer.capacityFrames)
              && decoder.residual + Delivered(supply[used..], true) == (if got then pool[encoder.size..] else pool)
              && (!got ==> used == |supply|)
              && SamplesOf(buffer.frames)
                 == old(SamplesOf(buffer.frames)) + if got && !failed then [pool[..encoder.size]] else []
    {
      hide Stamped, Delivered, JustEnough, Flat, Payloads, Countable, SamplesOf, AllOfSize;
      ghost var frames := buffer.frames;
      ghost var residue, before := decoder.residual, Payloads(encoded) + SamplesOf(buffer.frames);
      var packet;
      packet, used := DecodeNext(supply);
      captured := captured + Delivered(supply[..used], true);
      Regrouped(Flat(before), residue, Delivered(supply[..used], true), Chunk(packet), decoder.residual);
      got := packet.Some?;
      if !got {
        return;
      }
      var frame := AudioFrame(packet.value, decoder.position);
      var pushed := buffer.Push(frame);
      if pushed {
        TailPushed(Payloads(encoded), frames, frame, encoder.size);
        SamplesOfSnoc(frames, frame);
        FlatSnoc(before, packet.value);
      } else {
        failed := true;
      }
    }

    /** A refill: three decodes at most, ended early by an empty queue or a full ring. */
    method Refill(supply: seq<Received>)
      requires Lossless() && !failed && Countable(supply)
      modifies this`failed, this`captured, decoder, buffer
      ensures Lossless()
      ensures var have := old(|decoder.residual|);
              var used := Need(have, Attempts(old(|buffer.frames|), buffer.capacityFrames) * encoder.size, supply);
              && Height() == SenderBuffer.Refill(
                   old(Height()), buffer.capacityFrames, Packets(have + |Delivered(supply, true)|, encoder.size))
              && used <= |supply| && captured == old(captured) + Delivered(supply[..used], true)
    {
      hide Lossless, Delivered, JustEnough, Need;
      var used: nat := 0;
      NothingSupplied(supply, true);
      SizeIsPositive();
      assert supply[0..] == supply;
      ghost var have := |decoder.residual|;
      ghost var total := have + |Delivered(supply, true)|;
      ghost var height := |buffer.frames|;
      NothingNeeded(have, supply);
      for k := 0 to 3
        invariant Lossless() && !failed && used <= |supply|
        invariant captured == old(captured) + Delivered(supply[..used], true)
        invariant |buffer.frames| == height + k <= buffer.capacityFrames
        invariant total == k * encoder.size + |decoder.residual| + |Delivered(supply[used..], true)|
        invariant JustEnough(have, k * encoder.size, supply, used)
      {
        WholePackets(total, encoder.size, k);
        SplitSupply(supply, used);
        var got, more := DecodeIntoRing(supply[used..]);
        TakeMore(supply, used, more);
        EnoughForNext(have, k * encoder.size, encoder.size, supply, used, more);
        assert (k + 1) * encoder.size == k * encoder.size + encoder.size;
        used := used + more;
        if !got {
          AtLeastProduct(k + 1, Attempts(height, buffer.capacityFrames), encoder.size);
          EnoughForMore(have, (k + 1) * encoder.size, Attempts(height, buffer.capacityFrames) * encoder.size, supply, used);
          NeedIs(have, Attempts(height, buffer.capacityFrames) * encoder.size, supply, used);
          return;
        }
        WholePackets(total, encoder.size, k + 1);
        if failed {
          NeedIs(have, (k + 1) * encoder.size, supply, used);
          return;
        }
      }
      WholePackets(total, encoder.size, 3);
      NeedIs(have, 3 * encoder.size, supply, used);
    }

    lemma SizeIsPositive()
      requires Lossless()
      ensures encoder.size > 0 && |buffer.frames| <= buffer.capacityFrames
    {
    }

    /** Take the oldest frame out of the ring and encode it; an empty ring yields nothing. */
    method PopIntoEncoder() returns (packet: Option<Encoded>)
      requires Lossless() && !failed
      modifies this`encoded, encoder, buffer
      ensures Lossless() && captured == old(captured)
      ensures packet.Some? <==> old(buffer.frames) != []
      ensures packet.Some? ==> packet.value.samples == old(buffer.frames)[0].samples
      ensures encoded == old(encoded) + if packet.Some? then [packet.value] else []
      ensures buffer.frames == if packet.Some? then old(buffer.frames)[1..] else []
    {
      hide Stamped, Flat, PerChannel, Payloads, SamplesOf, AllOfSize;
      ghost var frames := buffer.frames;
      var frame := buffer.Pop();
      if frame.None? {
        return None;
      }
      var samples := frame.value.samples;
      HeadSize(frames, encoder.size);
      NextStamp(encoded, encoder.timestamp, encoder.framesPerPacket, encoder.channels, samples);
      var p := encoder.Encode(samples);
      assert [] + samples == samples;
      assert p.samples == (p.samples + encoder.buffer)[..|samples|] == samples;
      HeadMoves(encoded, p, frames, encoder.size);
      encoded := encoded + [p];
      packet := Some(p);
    }

    /** What is in no packet yet is the residual. */
    lemma ResidueIsResidual()
      requires Lossless() && !failed
      ensures Residue(AsFlow(), encoder.size) == |decoder.residual|
    {
      hide Stamped, Flat;
      FlatLength(Payloads(encoded) + SamplesOf(buffer.frames), encoder.size);
    }

    /** One event of a live stream; a failed stream does nothing any more. */
    method Advance(event: Event)
      requires Valid() && Countable(event.supply)
      modifies this, decoder, encoder, buffer
      ensures Valid() && AsFlow() == Flowed(old(AsFlow()), encoder.size, buffer.capacityFrames, event)
      ensures old(encoded) <= encoded
    {
      hide Lossless, Delivered, Safe, Need, Attempts, Residue, Countable, Packets;
      ghost var flow := AsFlow();
      NothingSupplied(event.supply, true);
      assert captured + [] == captured;
      if !failed {
        ResidueIsResidual();
        match event {
          case Fill(supply, timedOut) =>
            if stage == Prefilling {
              Refill(supply);
              if timedOut || |buffer.frames| * 100 >= buffer.capacityFrames * 50 {
                stage := Running;
              }
            }
          case Loop(supply, pops) =>
            if stage == Running {
              if |buffer.frames| * 100 < buffer.capacityFrames * 40 {
                Refill(supply);
              }
              if pops && !failed {
                var _ := PopIntoEncoder();
              }
            }
        }
      }
      if buffer.capacityFrames >= 4 {
        MoveKeepsSafe(flow.height, buffer.capacityFrames, MoveOf(flow, encoder.size, event));
      }
    }

    /**
     * Every run of a live stream is the fold of its events: which frames it receives, how the ring moves
     * and how many packets it encodes. With room for four packets the ring never overflows, so every
     * packet is the next slice of what was captured, under the next time stamp.
     */
    method Run(events: seq<Event>)
      requires Valid() && forall i :: 0 <= i < |events| ==> Countable(events[i].supply)
      modifies this, decoder, encoder, buffer
      ensures Valid() && AsFlow() == FlowAfter(old(AsFlow()), encoder.size, buffer.capacityFrames, events)
      ensures old(encoded) <= encoded
      ensures buffer.capacityFrames >= 4 ==> !failed
      ensures !failed ==> forall k :: 0 <= k < |encoded| ==> IsSlice(k)
    {
      hide Lossless, AsFlow, Flowed;
      assert events[..0] == [];
      for i := 0 to |events|
        invariant Valid() && old(encoded) <= encoded
        invariant AsFlow() == FlowAfter(old(AsFlow()), encoder.size, buffer.capacityFrames, events[..i])
      {
        Advance(events[i]);
        assert events[..i + 1][..i] == events[..i];
      }
      assert events[..|events|] == events;
      SafeHasNotFailed();
      if !failed {
        forall k | 0 <= k < |encoded| ensures IsSlice(k) {
          EncodedIsCaptured(k);
        }
      }
    }

    lemma SafeHasNotFailed()
      requires Valid()
      ensures buffer.capacityFrames >= 4 ==> !failed
    {
    }

    /** Packet `k` carries the `k`-th slice of the captured samples and its RTP time stamp. */
    ghost predicate IsSlice(k: nat)
      reads this, encoder
    {
      && k < |encoded| && encoder.size * (k + 1) <= |captured|
      && encoded[k].samples == captured[encoder.size * k..encoder.size * (k + 1)]
      && RtpTimestamp(encoded[k]) == k * encoder.framesPerPacket % POW32
    }

    lemma EncodedIsCaptured(k: nat)
      requires Lossless() && !failed && k < |encoded|
      ensures IsSlice(k)
    {
      hide Stamped, Flat, Payloads;
      PacketsAreCapturedSlices(
        encoded, SamplesOf(buffer.frames), decoder.residual, captured,
        encoder.timestamp, encoder.framesPerPacket, encoder.size, k);
    }
  }

  lemma SamplesOfHead(frames: seq<AudioFrame>)
    requires frames != []
    ensures SamplesOf(frames) == [frames[0].samples] + SamplesOf(frames[1..])
  {
  }

  lemma SamplesOfSnoc(frames: seq<AudioFrame>, f: AudioFrame)
    ensures SamplesOf(frames + [f]) == SamplesOf(frames) + [f.samples]
  {
  }

  lemma PayloadsSnoc(encoded: seq<Encoded>, p: Encoded)
    ensures Payloads(encoded + [p]) == Payloads(encoded) + [p.samples]
  {
  }

  lemma SizesOfParts(a: seq<seq<int>>, b: seq<seq<int>>, size: nat)
    ensures AllOfSize(a + b, size) <==> AllOfSize(a, size) && AllOfSize(b, size)
  {
    if AllOfSize(a + b, size) {
      forall i | 0 <= i < |b| ensures |b[i]| == size {
        assert b[i] == (a + b)[|a| + i];
      }
      forall i | 0 <= i < |a| ensures |a[i]| == size {
        assert a[i] == (a + b)[i];
      }
    }
  }

  lemma OneOfSize(chunk: seq<int>, size: nat)
    ensures AllOfSize([chunk], size) <==> |chunk| == size
  {
    assert [chunk][0] == chunk;
  }

  lemma HeadSize(frames: seq<AudioFrame>, size: nat)
    requires frames != [] && AllOfSize(SamplesOf(frames), size)
    ensures |frames[0].samples| == size
  {
    assert SamplesOf(frames)[0] == frames[0].samples;
  }

  /** Encoding the oldest frame of the ring moves it from the ring to the packets. */
  lemma HeadMoves(encoded: seq<Encoded>, p: Encoded, frames: seq<AudioFrame>, size: nat)
    requires frames != [] && p.samples == frames[0].samples
    requires AllOfSize(Payloads(encoded), size) && AllOfSize(SamplesOf(frames), size)
    ensures Payloads(encoded + [p]) + SamplesOf(frames[1..]) == Payloads(encoded) + SamplesOf(frames)
    ensures AllOfSize(Payloads(encoded + [p]), size) && AllOfSize(SamplesOf(frames[1..]), size)
  {
    hide Payloads, SamplesOf, AllOfSize;
    SamplesOfHead(frames);
    PayloadsSnoc(encoded, p);
    SizesOfParts([p.samples], SamplesOf(frames[1..]), size);
    SizesOfParts(Payloads(encoded), [p.samples], size);
  }

  /** A pushed frame is the last of the ring. */
  lemma TailPushed(done: seq<seq<int>>, frames: seq<AudioFrame>, f: AudioFrame, size: nat)
    requires |f.samples| == size && AllOfSize(SamplesOf(frames), size)
    ensures done + SamplesOf(frames + [f]) == (done + SamplesOf(frames)) + [f.samples]
    ensures AllOfSize(SamplesOf(frames + [f]), size)
  {
    hide SamplesOf, AllOfSize;
    SamplesOfSnoc(frames, f);
    OneOfSize(f.samples, size);
    SizesOfParts(SamplesOf(frames), [f.samples], size);
  }

  function Chunk(packet: Option<seq<int>>): seq<int> {
    if packet.Some? then packet.value else []
  }

  lemma NothingNeeded(have: nat, supply: seq<Received>)
    ensures JustEnough(have, 0, supply, 0)
  {
  }

  lemma NeedIs(have: nat, target: nat, supply: seq<Received>, used: nat)
    requires JustEnough(have, target, supply, used)
    ensures Need(have, target, supply) == used
  {
    hide Delivered;
    JustEnoughIsNeed(have, target, supply, used, 0);
  }

  lemma SplitSupply(supply: seq<Received>, used: nat)
    requires used <= |supply|
    ensures |Delivered(supply, true)| == |Delivered(supply[..used], true)| + |Delivered(supply[used..], true)|
  {
    hide Delivered;
    DeliveredConcat(supply[..used], supply[used..], true);
    assert supply[..used] + supply[used..] == supply;
  }

  lemma TakeMore(supply: seq<Received>, used: nat, more: nat)
    requires used + more <= |supply|
    ensures Delivered(supply[..used + more], true) == Delivered(supply[..used], true) + Delivered(supply[used..][..more], true)
    ensures supply[used..][more..] == supply[used + more..]
  {
    hide Delivered;
    assert supply[..used + more] == supply[..used] + supply[used..][..more];
    DeliveredConcat(supply[..used], supply[used..][..more], true);
  }

  lemma PacketFirst(packet: seq<int>, rest: seq<int>, residue: seq<int>, taken: seq<int>, left: seq<int>)
    requires packet + rest == residue + taken
    ensures residue + (taken + left) == packet + (rest + left)
    ensures (residue + (taken + left))[..|packet|] == packet && (residue + (taken + left))[|packet|..] == rest + left
  {
    assert residue + (taken + left) == (residue + taken) + left;
  }

  lemma Regrouped(done: seq<int>, residue: seq<int>, more: seq<int>, packet: seq<int>, rest: seq<int>)
    requires packet + rest == residue + more
    ensures done + packet + rest == done + residue + more
  {
    assert done + packet + rest == done + (packet + rest);
    assert done + residue + more == done + (residue + more);
  }

  /**
   * As long as no push failed, the k-th encoded packet carries exactly the captured samples
   * `[k * size, (k + 1) * size)` and the RTP time stamp `k * framesPerPacket` modulo 2^32.
   */
  lemma PacketsAreCapturedSlices(
    encoded: seq<Encoded>, ring: seq<seq<int>>, residual: seq<int>, captured: seq<int>,
    timestamp: nat, framesPerPacket: nat, size: nat, k: nat)
    requires Stamped(encoded, timestamp, framesPerPacket) && AllOfSize(Payloads(encoded), size) && AllOfSize(ring, size)
    requires Flat(Payloads(encoded) + ring) + residual == captured && k < |encoded|
    ensures 0 <= k * size <= (k + 1) * size <= |captured|
    ensures encoded[k].samples == captured[k * size..(k + 1) * size]
    ensures RtpTimestamp(encoded[k]) == k * framesPerPacket % POW32
  {
    hide Flat;
    var chunks := Payloads(encoded) + ring;
    assert AllOfSize(chunks, size);
    FlatSlices(chunks, size, k);
    SliceOfPrefix(Flat(chunks), residual, k * size, (k + 1) * size);
  }

  /** The 64-bit sample count truncated to the RTP field. */
  function RtpTimestamp(p: Encoded): u32 {
    p.timestamp % POW32
  }

  function Payloads(packets: seq<Encoded>): (r: seq<seq<int>>)
    ensures |r| == |packets| && forall i :: 0 <= i < |r| ==> r[i] == packets[i].samples
  {
    seq(|packets|, i requires 0 <= i < |packets| => packets[i].samples)
  }
}
