/**
 * The bounded capture queue between one producer and a concurrent consumer. Between any two
 * atomic channel operations of the producer the consumer may receive frames and may go away.
 */
module CaptureQueue {
  datatype PcmFrame = PcmFrame(samples: seq<int>, channels: nat, sampleRate: nat)

  datatype SendOutcome = Enqueued | ReplacedOldest | Disconnected

  /**
   * What happens between two steps of the producer: frames are received, the decoder may be dropped,
   * and afterwards a receiver may stand waiting, which matters to a channel without slots.
   */
  datatype Interference = Interference(takes: nat, drops: bool, waits: bool)

  /** How many of `queued` frames a consumer that takes up to `takes` receives. */
  function Taken(queued: nat, takes: nat): nat {
    if takes < queued then takes else queued
  }

  /** The oldest frames of `queue` that the consumer receives, and those it leaves. */
  function TakenFrom(queue: seq<PcmFrame>, takes: nat): seq<PcmFrame> {
    queue[..Taken(|queue|, takes)]
  }

  function Left(queue: seq<PcmFrame>, takes: nat): seq<PcmFrame> {
    queue[Taken(|queue|, takes)..]
  }

  function WithoutOldest(queue: seq<PcmFrame>): seq<PcmFrame> {
    if queue == [] then [] else queue[1..]
  }

  /** A retry pass on `queue`: the consumer takes, the oldest frame goes, the consumer takes again. */
  function LeftByPass(queue: seq<PcmFrame>, before: nat, between: nat): seq<PcmFrame> {
    Left(WithoutOldest(Left(queue, before)), between)
  }

  function ReceivedInPass(queue: seq<PcmFrame>, before: nat, between: nat): seq<PcmFrame> {
    TakenFrom(queue, before) + TakenFrom(WithoutOldest(Left(queue, before)), between)
  }

  lemma PassLeavesRoom(queue: seq<PcmFrame>, before: nat, between: nat)
    ensures Left(queue, before) == [] <==> |queue| <= before
    ensures |LeftByPass(queue, before, between)| <= |queue|
    ensures queue != [] ==> |LeftByPass(queue, before, between)| < |queue|
  {
  }

  function Min(a: nat, b: nat): nat {
    if a <= b then a else b
  }

  /**
   * Position by position: the consumer takes the first frames, in two goes around the pass; the first
   * frame it has not taken before the pass is the one that is lost.
   */
  ghost predicate LosesOldest(
    queue: seq<PcmFrame>, takenBefore: nat, takenAfter: nat, left: seq<PcmFrame>, received: seq<PcmFrame>)
  {
    var x := Min(|queue|, takenBefore);
    if x == |queue| then left == [] && received == queue
    else
      var y := Min(|queue|, x + 1 + takenAfter);
      left == queue[y..] && received == queue[..x] + queue[x + 1..y]
  }

  lemma TakenByIndex(queue: seq<PcmFrame>, takes: nat)
    ensures var k := Min(|queue|, takes); Left(queue, takes) == queue[k..] && TakenFrom(queue, takes) == queue[..k]
  {
  }

  lemma PassLosesOldest(queue: seq<PcmFrame>, takes: nat, before: nat, between: nat)
    ensures LosesOldest(
              queue, takes + before, between,
              LeftByPass(Left(queue, takes), before, between),
              TakenFrom(queue, takes) + ReceivedInPass(Left(queue, takes), before, between))
  {
    hide Left, TakenFrom;
    TakenByIndex(queue, takes);
    var q := Left(queue, takes);
    TakenByIndex(q, before);
    var kept := WithoutOldest(Left(q, before));
    TakenByIndex(kept, between);
    var x := Min(|queue|, takes + before);
    assert Left(q, before) == queue[x..];
    assert TakenFrom(queue, takes) + TakenFrom(q, before) == queue[..x];
    if x < |queue| {
      assert kept == queue[x + 1..];
      var y := Min(|queue|, x + 1 + between);
      assert Left(kept, between) == queue[y..];
      assert TakenFrom(kept, between) == queue[x + 1..y];
    } else {
      assert kept == [] && queue[..x] == queue;
    }
    JoinThree(TakenFrom(queue, takes), TakenFrom(q, before), TakenFrom(kept, between));
  }

  lemma WaitMakesRoom(queue: seq<PcmFrame>, takes: nat)
    ensures Left(queue, 0) == queue && TakenFrom(queue, 0) == []
    ensures queue != [] ==> |Left(queue, takes + 1)| < |queue|
  {
  }

  lemma NothingToTake(before: nat, between: nat)
    ensures LeftByPass([], before, between) == [] && ReceivedInPass([], before, between) == []
  {
  }

  lemma JoinThree(a: seq<PcmFrame>, b: seq<PcmFrame>, c: seq<PcmFrame>)
    ensures a + b + c == a + (b + c)
  {
  }

  /** Indices into the submissions, strictly increasing: an in-order subsequence. */
  ghost predicate Increasing(at: seq<nat>, bound: nat) {
    && (forall i :: 0 <= i < |at| ==> at[i] < bound)
    && (forall i, j :: 0 <= i < j < |at| ==> at[i] < at[j])
  }

  ghost predicate Selects(frames: seq<PcmFrame>, at: seq<nat>, submissions: seq<PcmFrame>) {
    |frames| == |at| && forall i :: 0 <= i < |at| ==> at[i] < |submissions| && frames[i] == submissions[at[i]]
  }

  /** A retry pass succeeds: the channel has a slot, or the pass meets a waiting receiver. */
  predicate PassSends(capacity: nat, between: Interference) {
    capacity >= 1 || between.waits
  }

  /** Some retry pass succeeds, so the loop ends; pass `n` runs between interferences 2n + 2 and 2n + 3. */
  ghost predicate Returns(capacity: nat, env: nat -> Interference) {
    exists n: nat :: PassSends(capacity, env(2 * n + 3))
  }

  /** The retry loop ends whatever the consumer does exactly when the channel has a slot. */
  lemma AlwaysReturnsExactly(capacity: nat)
    ensures (forall env: nat -> Interference :: Returns(capacity, env)) <==> capacity >= 1
  {
    if capacity >= 1 {
      forall env: nat -> Interference ensures Returns(capacity, env) {
        assert PassSends(capacity, env(2 * 0 + 3));
      }
    } else {
      NobodyComes();
    }
  }

  /** Without slots, and with a consumer that never waits, every pass fails. */
  lemma NobodyComes()
    ensures !Returns(0, (i: nat) => Interference(0, false, false))
  {
  }

  class LiveFrameSender {
    const capacity: nat
    var queue: seq<PcmFrame>
    var decoderAlive: bool
    var submittedTotal: nat
    var fullQueueDrops: nat
    var disconnectedDrops: nat
    /** Everything submitted and received so far, and where each such frame was submitted. */
    ghost var submissions: seq<PcmFrame>
    ghost var received: seq<PcmFrame>
    ghost var receivedAt: seq<nat>
    ghost var queuedAt: seq<nat>

    /**
     * `inFlight` submitted frames are in the producer's hands. All others were received, are
     * queued, or were dropped and counted; received and queued frames are in submission order.
     */
    ghost predicate Accounts(inFlight: nat)
      reads this
    {
      && |queue| <= capacity && submittedTotal == |submissions| && inFlight <= 1
      && submittedTotal == |received| + |queue| + fullQueueDrops + disconnectedDrops + inFlight
      && Selects(received, receivedAt, submissions) && Selects(queue, queuedAt, submissions)
      && Increasing(receivedAt + queuedAt, |submissions| - inFlight)
    }

    /** At producer boundaries no frame is in flight. */
    ghost predicate Valid()
      reads this
    {
      Accounts(0)
    }

    /** The newest frame of the queue, or of the received ones when the channel has no slots. */
    ghost predicate IsNewest(frame: PcmFrame)
      reads this
    {
      var last := if capacity > 0 then queue else received;
      last != [] && last[|last| - 1] == frame
    }

    /** The channel takes a frame: a slot is free, or there are none and a receiver waits. */
    predicate HasRoom(queued: nat, waits: bool) {
      queued < capacity || (capacity == 0 && waits)
    }

    constructor (capacity: nat)
      ensures Valid() && this.capacity == capacity && submissions == [] && decoderAlive
    {
      this.capacity, queue, decoderAlive := capacity, [], true;
      submittedTotal, fullQueueDrops, disconnectedDrops := 0, 0, 0;
      submissions, received, receivedAt, queuedAt := [], [], [], [];
    }

    /** The consumer receives up to `takes` frames, oldest first; the decoder may be dropped. */
    method Interfere(env: Interference, ghost inFlight: nat)
      requires Accounts(inFlight)
      modifies `queue, `received, `receivedAt, `queuedAt, `decoderAlive
      ensures Accounts(inFlight) && |queue| <= capacity
      ensures queue == Left(old(queue), env.takes) && received == old(received) + TakenFrom(old(queue), env.takes)
      ensures var k := if env.takes < |old(queue)| then env.takes else |old(queue)|;
              queue == old(queue)[k..] && received == old(received) + old(queue)[..k]
      ensures decoderAlive == (old(decoderAlive) && !env.drops)
    {
      var k := Taken(|queue|, env.takes);
      received, receivedAt := received + queue[..k], receivedAt + queuedAt[..k];
      ghost var at := queuedAt;
      queue, queuedAt := queue[k..], queuedAt[k..];
      assert receivedAt + queuedAt == old(receivedAt) + at;
      decoderAlive := decoderAlive && !env.drops;
    }

    method CountSubmission(frame: PcmFrame)
      requires Accounts(0)
      modifies `submittedTotal, `submissions
      ensures Accounts(1) && submissions == old(submissions) + [frame]
    {
      submittedTotal := submittedTotal + 1;
      submissions := submissions + [frame];
    }

    method CountDisconnectedDrop()
      requires Accounts(1)
      modifies `disconnectedDrops
      ensures Accounts(0) && disconnectedDrops == old(disconnectedDrops) + 1
    {
      disconnectedDrops := disconnectedDrops + 1;
    }

    method CountFullQueueDrop()
      requires Accounts(1)
      modifies `fullQueueDrops
      ensures Accounts(0) && fullQueueDrops == old(fullQueueDrops) + 1
    {
      fullQueueDrops := fullQueueDrops + 1;
    }

    method Enqueue(frame: PcmFrame)
      requires Accounts(1) && submissions != [] && submissions[|submissions| - 1] == frame && |queue| < capacity
      modifies `queue, `queuedAt
      ensures Accounts(0) && queue == old(queue) + [frame]
    {
      ghost var before := receivedAt + queuedAt;
      queue, queuedAt := queue + [frame], queuedAt + [|submissions| - 1];
      assert receivedAt + queuedAt == before + [|submissions| - 1];
    }

    /** A channel without slots passes the frame straight to the waiting receiver. */
    method HandOver(frame: PcmFrame)
      requires Accounts(1) && submissions != [] && submissions[|submissions| - 1] == frame && capacity == 0
      modifies `received, `receivedAt
      ensures Accounts(0) && received == old(received) + [frame]
    {
      ghost var before := receivedAt + queuedAt;
      received, receivedAt := received + [frame], receivedAt + [|submissions| - 1];
      assert queuedAt == [] && receivedAt + queuedAt == before + [|submissions| - 1];
    }

    /** The channel's own non-blocking send. */
    method Push(frame: PcmFrame, waits: bool) returns (ok: bool)
      requires Accounts(1) && submissions != [] && submissions[|submissions| - 1] == frame
      modifies `queue, `queuedAt, `received, `receivedAt
      ensures ok <==> HasRoom(|old(queue)|, waits)
      ensures if ok then Accounts(0) && IsNewest(frame) else Accounts(1) && |queue| == capacity
      ensures queue == old(queue) + if ok && capacity > 0 then [frame] else []
      ensures received == old(received) + if ok && capacity == 0 then [frame] else []
    {
      hide Accounts;
      QueueFits(1);
      ok := HasRoom(|queue|, waits);
      if ok && capacity > 0 {
        Enqueue(frame);
      } else if ok {
        HandOver(frame);
      }
    }

    method EvictOldest() returns (evicted: bool)
      requires Accounts(1)
      modifies `queue, `queuedAt, `fullQueueDrops
      ensures Accounts(1) && (evicted <==> old(queue) != [])
      ensures queue == WithoutOldest(old(queue))
      ensures fullQueueDrops == old(fullQueueDrops) + if evicted then 1 else 0
    {
      evicted := queue != [];
      if evicted {
        ghost var at := queuedAt;
        queue, queuedAt, fullQueueDrops := queue[1..], queuedAt[1..], fullQueueDrops + 1;
        assert forall i :: 0 <= i < |receivedAt + queuedAt| ==>
            (receivedAt + queuedAt)[i] == (receivedAt + at)[if i < |receivedAt| then i else i + 1];
      }
    }

    /** What every send starts with: count the submission, then look at the liveness latch. */
    method Begin(frame: PcmFrame, before: Interference, after: Interference) returns (alive: bool)
      requires Accounts(0)
      modifies this
      ensures submissions == old(submissions) + [frame] && fullQueueDrops == old(fullQueueDrops)
      ensures alive <==> old(decoderAlive) && !before.drops
      ensures var takes := if alive then before.takes + after.takes else before.takes;
              queue == Left(old(queue), takes) && received == old(received) + TakenFrom(old(queue), takes)
      ensures alive ==> Accounts(1) && |queue| <= capacity && disconnectedDrops == old(disconnectedDrops)
      ensures !alive ==> Accounts(0) && disconnectedDrops == old(disconnectedDrops) + 1
    {
      hide Accounts;
      CountSubmission(frame);
      Interfere(before, 1);
      alive := decoderAlive;
      if alive {
        Interfere(after, 1);
      } else {
        CountDisconnectedDrop();
      }
    }

    /** Drop the new frame when the queue is full. */
    method TrySend(frame: PcmFrame, env: nat -> Interference) returns (sent: bool)
      requires Valid()
      modifies this
      ensures Valid() && submissions == old(submissions) + [frame]
      ensures var alive := old(decoderAlive) && !env(0).drops;
              var takes := if alive then env(0).takes + env(1).takes else env(0).takes;
              && (sent <==> alive && HasRoom(|Left(old(queue), takes)|, env(1).waits))
              && queue == Left(old(queue), takes) + (if sent && capacity > 0 then [frame] else [])
              && received
                 == old(received) + TakenFrom(old(queue), takes) + (if sent && capacity == 0 then [frame] else [])
              && disconnectedDrops == old(disconnectedDrops) + (if alive then 0 else 1)
              && fullQueueDrops == old(fullQueueDrops) + (if alive && !sent then 1 else 0)
    {
      hide Accounts;
      var alive := Begin(frame, env(0), env(1));
      if !alive {
        return false;
      }
      sent := Push(frame, env(1).waits);
      if !sent {
        CountFullQueueDrop();
      }
    }

    /**
     * One retry: make room by evicting the oldest frame, unless the consumer already did. It succeeds
     * exactly when the channel has a slot at all, or a receiver waits.
     */
    method EvictAndPush(frame: PcmFrame, before: Interference, between: Interference) returns (sent: bool)
      requires Accounts(1) && submissions != [] && submissions[|submissions| - 1] == frame
      modifies this
      ensures sent <==> PassSends(capacity, between)
      ensures if sent then Accounts(0) && IsNewest(frame) else Accounts(1) && |queue| == capacity
      ensures submissions == old(submissions) && disconnectedDrops == old(disconnectedDrops)
      ensures queue == LeftByPass(old(queue), before.takes, between.takes) + if sent && capacity > 0 then [frame] else []
      ensures received == old(received) + ReceivedInPass(old(queue), before.takes, between.takes)
                          + if sent && capacity == 0 then [frame] else []
      ensures fullQueueDrops == old(fullQueueDrops) + if before.takes < |old(queue)| then 1 else 0
    {
      hide Accounts, Left, TakenFrom, WithoutOldest;
      QueueFits(1);
      PassLeavesRoom(queue, before.takes, between.takes);
      ghost var start := queue;
      Interfere(before, 1);
      var _ := EvictOldest();
      ghost var kept := queue;
      Interfere(between, 1);
      JoinThree(old(received), TakenFrom(start, before.takes), TakenFrom(kept, between.takes));
      assert queue == LeftByPass(start, before.takes, between.takes);
      assert received == old(received) + ReceivedInPass(start, before.takes, between.takes);
      assert queue + [] == queue && received + [] == received;
      sent := Push(frame, between.waits);
    }

    lemma QueueFits(inFlight: nat)
      requires Accounts(inFlight)
      ensures |queue| <= capacity
    {
    }

    /** The retry loop on a full queue. */
    method RetryUntilSent(frame: PcmFrame, env: nat -> Interference)
      requires Accounts(1) && submissions != [] && submissions[|submissions| - 1] == frame
      requires |queue| == capacity && Returns(capacity, env)
      modifies this
      ensures Accounts(0) && IsNewest(frame)
      ensures submissions == old(submissions) && disconnectedDrops == old(disconnectedDrops)
      ensures queue == LeftByPass(old(queue), env(2).takes, env(3).takes) + if capacity > 0 then [frame] else []
      ensures received == old(received) + ReceivedInPass(old(queue), env(2).takes, env(3).takes)
                          + if capacity == 0 then [frame] else []
      ensures fullQueueDrops == old(fullQueueDrops) + if env(2).takes < capacity then 1 else 0
    {
      hide Accounts, IsNewest, LeftByPass, ReceivedInPass;
      var sent := EvictAndPush(frame, env(2), env(3));
      ghost var last: nat := 0;
      if capacity == 0 {
        last :| PassSends(capacity, env(2 * last + 3));
      }
      ghost var dropped := fullQueueDrops;
      var pass: nat := 1;
      while !sent
        invariant capacity >= 1 ==> sent
        invariant !sent ==> queue == []
        invariant pass <= last + 1 && (pass == last + 1 ==> sent)
        invariant if sent then Accounts(0) && IsNewest(frame) else Accounts(1) && |queue| == capacity
        invariant submissions == old(submissions)
        invariant queue == LeftByPass(old(queue), env(2).takes, env(3).takes) + if capacity > 0 then [frame] else []
        invariant received == old(received) + ReceivedInPass(old(queue), env(2).takes, env(3).takes)
                              + if sent && capacity == 0 then [frame] else []
        invariant disconnectedDrops == old(disconnectedDrops) && fullQueueDrops == dropped
        decreases last + 1 - pass
      {
        NothingToTake(env(2 * pass + 2).takes, env(2 * pass + 3).takes);
        ghost var before := received;
        assert before + [] == before && [] + [] == queue;
        sent := EvictAndPush(frame, env(2 * pass + 2), env(2 * pass + 3));
        pass := pass + 1;
      }
    }

    /**
     * Never drop the new frame: a full queue loses its oldest one. With at least one slot the retry
     * loop ends after its first pass, because this is the only producer; without slots it ends only
     * when a pass meets a waiting receiver, so a call that needs the loop returns if one ever does.
     */
    method TrySendLatest(frame: PcmFrame, env: nat -> Interference) returns (outcome: SendOutcome)
      requires Valid()
      requires var queued := Left(queue, env(0).takes + env(1).takes);
               decoderAlive && !env(0).drops && !HasRoom(|queued|, env(1).waits) ==> Returns(capacity, env)
      modifies this
      ensures Valid() && submissions == old(submissions) + [frame]
      ensures var alive := old(decoderAlive) && !env(0).drops;
              var takes := if alive then env(0).takes + env(1).takes else env(0).takes;
              var queued, gone := Left(old(queue), takes), TakenFrom(old(queue), takes);
              && (outcome.Disconnected? <==> !alive)
              && (outcome.Enqueued? <==> alive && HasRoom(|queued|, env(1).waits))
              && (alive ==> IsNewest(frame))
              && disconnectedDrops == old(disconnectedDrops) + (if alive then 0 else 1)
              && fullQueueDrops ==
                 old(fullQueueDrops) + (if outcome.ReplacedOldest? && env(2).takes < capacity then 1 else 0)
              && queue == (if outcome.ReplacedOldest? then LeftByPass(queued, env(2).takes, env(3).takes) else queued)
                          + (if alive && capacity > 0 then [frame] else [])
              && received == old(received) + gone
                             + (if outcome.ReplacedOldest? then ReceivedInPass(queued, env(2).takes, env(3).takes) else [])
                             + (if alive && capacity == 0 then [frame] else [])
      ensures outcome.ReplacedOldest? && capacity >= 1 ==>
                && queue != [] && queue[|queue| - 1] == frame && old(received) <= received
                && LosesOldest(
                     old(queue), env(0).takes + env(1).takes + env(2).takes, env(3).takes,
                     queue[..|queue| - 1], received[|old(received)|..])
    {
      hide Accounts, IsNewest, Left, TakenFrom, LeftByPass, ReceivedInPass;
      var alive := Begin(frame, env(0), env(1));
      ghost var queued, gone := queue, received;
      assert queued + [] == queued && gone + [] == gone && gone + [] + [] == gone;
      if !alive {
        return Disconnected;
      }
      var sent := Push(frame, env(1).waits);
      if sent {
        return Enqueued;
      }
      assert queue == queued && received == gone;
      RetryUntilSent(frame, env);
      PassLosesOldest(old(queue), env(0).takes + env(1).takes, env(2).takes, env(3).takes);
      ghost var kept, taken := LeftByPass(queued, env(2).takes, env(3).takes), ReceivedInPass(queued, env(2).takes, env(3).takes);
      JoinThree(old(received), TakenFrom(old(queue), env(0).takes + env(1).takes), taken);
      if capacity >= 1 {
        assert queue[..|queue| - 1] == kept;
        assert received == gone + taken;
      }
      outcome := ReplacedOldest;
    }

    /** Block until there is room; the wait ends when the consumer takes a frame or comes for this one. */
    method Send(frame: PcmFrame, env: nat -> Interference) returns (sent: bool)
      requires Valid()
      modifies this
      ensures Valid() && submissions == old(submissions) + [frame]
      ensures sent <==> old(decoderAlive) && !env(0).drops
      ensures sent ==> IsNewest(frame)
      ensures fullQueueDrops == old(fullQueueDrops)
      ensures disconnectedDrops == old(disconnectedDrops) + if sent then 0 else 1
      ensures var takes := if sent then env(0).takes + env(1).takes else env(0).takes;
              var queued := Left(old(queue), takes);
              var waited := if sent && |queued| == capacity then env(2).takes + 1 else 0;
              && queue == Left(queued, waited) + (if sent && capacity > 0 then [frame] else [])
              && received == old(received) + TakenFrom(old(queue), takes) + TakenFrom(queued, waited)
                             + (if sent && capacity == 0 then [frame] else [])
    {
      hide Accounts, IsNewest, Left, TakenFrom;
      var alive := Begin(frame, env(0), env(1));
      ghost var queued, gone := queue, received;
      WaitMakesRoom(queued, env(2).takes);
      assert queued + [] == queued && gone + [] == gone;
      if !alive {
        return false;
      }
      if |queue| == capacity {
        Interfere(env(2).(takes := env(2).takes + 1), 1);
      }
      sent := Push(frame, true);
    }
  }
}
