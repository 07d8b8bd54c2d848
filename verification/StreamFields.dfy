/**
 * Where the streamer's settings and marks come from: over every run, each field holds what the
 * last step that concerns it left there. Which steps concern a field is said here by the calls
 * of the run alone.
 */
module StreamFields {
  import opened Bytes
  import opened RtpWire
  import opened RtpSending
  import opened Streaming
  import opened StreamRuns

  // ------------------------------------------------------------------
  // The last of a sequence of writes
  // ------------------------------------------------------------------

  /** Step `j` writes, and no later step before `k` does. */
  ghost predicate LastWrite<V(!new)>(writes: nat -> Option<V>, j: nat, k: nat) {
    j < k && writes(j).Some? && forall r: nat :: j < r < k ==> writes(r).None?
  }

  /** `v` is what the last step before `k` wrote, or `initial` without one. */
  ghost predicate Holds<V(!new)>(v: V, writes: nat -> Option<V>, k: nat, initial: V) {
    && (forall j: nat :: LastWrite(writes, j, k) ==> writes(j) == Some(v))
    && ((forall j: nat :: j < k ==> writes(j).None?) ==> v == initial)
  }

  lemma HoldsAtStart<V(!new)>(writes: nat -> Option<V>, initial: V)
    ensures Holds(initial, writes, 0, initial)
  {
  }

  lemma LastWriteNext<V(!new)>(writes: nat -> Option<V>, j: nat, k: nat, next: nat)
    requires next == k + 1
    ensures LastWrite(writes, j, next) <==> if writes(k).Some? then j == k else LastWrite(writes, j, k)
  {
    if LastWrite(writes, j, k) && writes(k).None? {
      forall r: nat | j < r < next ensures writes(r).None? {
        assert r < k || r == k;
      }
    }
  }

  lemma NoWriteNext<V(!new)>(writes: nat -> Option<V>, k: nat, next: nat)
    requires next == k + 1
    ensures (forall j: nat :: j < next ==> writes(j).None?)
            <==> writes(k).None? && forall j: nat :: j < k ==> writes(j).None?
  {
    if writes(k).None? && forall j: nat :: j < k ==> writes(j).None? {
      forall j: nat | j < next ensures writes(j).None? {
        assert j < k || j == k;
      }
    }
  }

  lemma HoldsNext<V(!new)>(v: V, writes: nat -> Option<V>, k: nat, initial: V, next: V)
    requires Holds(v, writes, k, initial) && next == if writes(k).Some? then writes(k).value else v
    ensures Holds(next, writes, k + 1, initial)
  {
    hide LastWrite;
    forall j: nat | LastWrite(writes, j, k + 1) ensures writes(j) == Some(next) {
      LastWriteNext(writes, j, k, k + 1);
    }
    NoWriteNext(writes, k, k + 1);
  }

  // ------------------------------------------------------------------
  // Senders
  // ------------------------------------------------------------------

  function Identity(s: Sender): SenderConfig {
    SenderConfig(s.ssrc, s.cipher, s.controlPort)
  }

  function Identities(senders: seq<Sender>): (r: seq<SenderConfig>)
    ensures |r| == |senders| && forall i :: 0 <= i < |r| ==> r[i] == Identity(senders[i])
  {
    seq(|senders|, i requires 0 <= i < |senders| => Identity(senders[i]))
  }

  function ConfigWrites(ops: seq<Op>): nat -> Option<seq<SenderConfig>> {
    (j: nat) => if j < |ops| && ops[j].SetSenders? then Some(ops[j].configs) else None
  }

  lemma PrepareKeepsIdentities(senders: seq<Sender>, delays: seq<u64>, plan: FramePlan)
    ensures Identities(PrepareFrame(senders, delays, plan).senders) == Identities(senders)
  {
    hide AudioWire, SyncWire;
  }

  lemma ConsumeKeepsIdentities(s: Streamer)
    ensures Identities(ConsumeGenerations(s).senders) == Identities(s.senders)
  {
  }

  lemma StepIdentities(s: Streamer, op: Op)
    ensures Identities(Step(s, op).senders) == if op.SetSenders? then op.configs else Identities(s.senders)
  {
    hide PrepareFrame, ActualPlan, ConsumeGenerations, SetupStep, ClockStep, PhaseStep;
    match op
    case Frame(f) =>
      ConsumeKeepsIdentities(s);
      var c := ConsumeGenerations(s);
      PrepareKeepsIdentities(c.senders, c.delays, ActualPlan(c, f));
    case Poll =>
      ConsumeKeepsIdentities(s);
    case SubscribeGenerations(current) =>
      ConsumeKeepsIdentities(Disconnected(s, current));
    case _ =>
      PlainStep(s, op);
  }

  /** A target's ssrc, cipher and control port are those of the last call that set the senders. */
  lemma {:induction false} SendersAreLastSet(s0: Streamer, ops: seq<Op>, k: nat)
    requires s0 == NewStreamer(s0.sampleRate) && k <= |ops|
    ensures Holds(Identities(StateAt(s0, ops, k).senders), ConfigWrites(ops), k, [])
  {
    hide Step, Holds, Identities;
    if k == 0 {
      NoIdentities();
      HoldsAtStart(ConfigWrites(ops), []);
    } else {
      SendersAreLastSet(s0, ops, k - 1);
      StepIdentities(StateAt(s0, ops, k - 1), ops[k - 1]);
      HoldsNext(
        Identities(StateAt(s0, ops, k - 1).senders), ConfigWrites(ops), k - 1, [], Identities(StateAt(s0, ops, k).senders));
    }
  }

  lemma NoIdentities()
    ensures Identities([]) == []
  {
  }

  // ------------------------------------------------------------------
  // Settings: delays, render lead, sync format, and whether the stream is still idle
  // ------------------------------------------------------------------

  /** Everything a clock update and the marks of a frame leave alone. */
  ghost predicate SameSettings(a: Streamer, b: Streamer) {
    && a.sampleRate == b.sampleRate && a.delays == b.delays && a.renderDelayNs == b.renderDelayNs
    && a.usePtpSync == b.usePtpSync
  }

  lemma ConsumeKeepsSettings(s: Streamer)
    ensures var c := ConsumeGenerations(s);
            SameSettings(s, c) && c.phase == s.phase && c.firstPacketSent == s.firstPacketSent
  {
  }

  lemma FrameKeepsSettings(s: Streamer, f: FrameInput)
    ensures var t := FrameStep(s, f); SameSettings(s, t) && (t.phase == s.phase || t.phase == Failed)
  {
    hide PrepareFrame, ActualPlan, ConsumeGenerations, ClockReady;
    ConsumeKeepsSettings(s);
  }

  lemma StepSettings(s: Streamer, op: Op)
    ensures var t := Step(s, op);
            && t.sampleRate == s.sampleRate
            && t.renderDelayNs == (if op.SetRenderDelay? then op.ms * 1_000_000 else s.renderDelayNs)
            && t.usePtpSync == (s.usePtpSync || op.SetPtpSyncMode? || op.SubscribeGenerations?)
            && t.delays == (if op.SetSenders? then Zeros(|op.configs|)
                            else if op.SetDelays? && s.phase == Idle && |op.delays| == |s.senders| then op.delays
                            else s.delays)
  {
    hide FrameStep, ConsumeGenerations;
    match op
    case Frame(f) => FrameKeepsSettings(s, f);
    case Poll => ConsumeKeepsSettings(s);
    case SubscribeGenerations(current) => ConsumeKeepsSettings(Disconnected(s, current));
    case _ =>
  }

  lemma StepIdle(s: Streamer, op: Op)
    ensures Step(s, op).phase == Idle <==> s.phase == Idle && !op.Start? && !op.Stop?
  {
    hide FrameStep, ConsumeGenerations;
    match op
    case Frame(f) => FrameKeepsSettings(s, f);
    case Poll => ConsumeKeepsSettings(s);
    case SubscribeGenerations(current) => ConsumeKeepsSettings(Disconnected(s, current));
    case _ =>
  }

  /** Neither started nor stopped before step `k`. */
  predicate BeforeStart(ops: seq<Op>, k: nat)
    requires k <= |ops|
  {
    forall r :: 0 <= r < k ==> !ops[r].Start? && !ops[r].Stop?
  }

  /** A streamer is idle exactly until its first start or stop. */
  lemma {:induction false} IdleExactly(s0: Streamer, ops: seq<Op>, k: nat)
    requires s0 == NewStreamer(s0.sampleRate) && k <= |ops|
    ensures StateAt(s0, ops, k).phase == Idle <==> BeforeStart(ops, k)
  {
    hide Step;
    if k > 0 {
      IdleExactly(s0, ops, k - 1);
      StepIdle(StateAt(s0, ops, k - 1), ops[k - 1]);
    }
  }

  /** How many targets the last call that set the senders named. */
  function TargetCount(ops: seq<Op>, k: nat): nat
    requires k <= |ops|
  {
    if k == 0 then 0 else if ops[k - 1].SetSenders? then |ops[k - 1].configs| else TargetCount(ops, k - 1)
  }

  lemma {:induction false} CountIsTargetCount(s0: Streamer, ops: seq<Op>, k: nat)
    requires s0 == NewStreamer(s0.sampleRate) && k <= |ops|
    ensures |StateAt(s0, ops, k).senders| == TargetCount(ops, k)
  {
    hide Step, Identities;
    if k > 0 {
      CountIsTargetCount(s0, ops, k - 1);
      var s, op := StateAt(s0, ops, k - 1), ops[k - 1];
      StepIdentities(s, op);
      assert |Identities(Step(s, op).senders)| == |Step(s, op).senders| && |Identities(s.senders)| == |s.senders|;
    }
  }

  /** The delays step `j` puts in place: zeros with new senders; a request only before the first start, one per target. */
  function DelayWrites(ops: seq<Op>): nat -> Option<seq<u64>> {
    (j: nat) =>
      if j >= |ops| then None
      else if ops[j].SetSenders? then Some(seq(|ops[j].configs|, _ => 0))
      else if ops[j].SetDelays? && |ops[j].delays| == TargetCount(ops, j) && BeforeStart(ops, j) then Some(ops[j].delays)
      else None
  }

  /** The delays are those last accepted since the senders were set, else zeros. */
  lemma {:induction false} DelaysAreLastAccepted(s0: Streamer, ops: seq<Op>, k: nat)
    requires s0 == NewStreamer(s0.sampleRate) && k <= |ops|
    ensures Holds(StateAt(s0, ops, k).delays, DelayWrites(ops), k, [])
  {
    hide Step, Holds;
    if k == 0 {
      HoldsAtStart(DelayWrites(ops), []);
    } else {
      DelaysAreLastAccepted(s0, ops, k - 1);
      IdleExactly(s0, ops, k - 1);
      CountIsTargetCount(s0, ops, k - 1);
      StepSettings(StateAt(s0, ops, k - 1), ops[k - 1]);
      HoldsNext(StateAt(s0, ops, k - 1).delays, DelayWrites(ops), k - 1, [], StateAt(s0, ops, k).delays);
    }
  }

  function LeadWrites(ops: seq<Op>): nat -> Option<int> {
    (j: nat) => if j < |ops| && ops[j].SetRenderDelay? then Some(ops[j].ms * 1_000_000) else None
  }

  /** The render lead is the last one set, in nanoseconds, and the sample rate never changes. */
  lemma {:induction false} LeadIsLastSet(s0: Streamer, ops: seq<Op>, k: nat)
    requires s0 == NewStreamer(s0.sampleRate) && k <= |ops|
    ensures Holds(StateAt(s0, ops, k).renderDelayNs, LeadWrites(ops), k, 0)
    ensures StateAt(s0, ops, k).sampleRate == s0.sampleRate
  {
    hide Step, Holds;
    if k == 0 {
      HoldsAtStart(LeadWrites(ops), 0);
    } else {
      LeadIsLastSet(s0, ops, k - 1);
      StepSettings(StateAt(s0, ops, k - 1), ops[k - 1]);
      HoldsNext(StateAt(s0, ops, k - 1).renderDelayNs, LeadWrites(ops), k - 1, 0, StateAt(s0, ops, k).renderDelayNs);
    }
  }

  /** PT=87 is in use exactly after a call that asked for it. */
  lemma {:induction false} PtpModeExactly(s0: Streamer, ops: seq<Op>, k: nat)
    requires s0 == NewStreamer(s0.sampleRate) && k <= |ops|
    ensures StateAt(s0, ops, k).usePtpSync
            <==> exists j :: 0 <= j < k && (ops[j].SetPtpSyncMode? || ops[j].SubscribeGenerations?)
  {
    hide Step;
    if k > 0 {
      PtpModeExactly(s0, ops, k - 1);
      StepSettings(StateAt(s0, ops, k - 1), ops[k - 1]);
    }
  }

  // ------------------------------------------------------------------
  // Marks
  // ------------------------------------------------------------------

  function FirstPacketWrites(s0: Streamer, ops: seq<Op>): nat -> Option<bool> {
    (j: nat) =>
      if j >= |ops| then None
      else if ops[j].ResetAfterFlush? then Some(false)
      else if Output(StateAt(s0, ops, j), ops[j]).Some? then Some(true) else None
  }

  lemma StepFirstPacket(s: Streamer, op: Op)
    ensures Step(s, op).firstPacketSent == (!op.ResetAfterFlush? && (s.firstPacketSent || Output(s, op).Some?))
  {
    hide PrepareFrame, ActualPlan, ConsumeGenerations, ClockReady;
    match op
    case Frame(f) => ConsumeKeepsSettings(s);
    case Poll => ConsumeKeepsSettings(s);
    case SubscribeGenerations(current) => ConsumeKeepsSettings(Disconnected(s, current));
    case _ =>
  }

  /** The next audio packet is marked exactly when none was handed on since the last flush. */
  lemma {:induction false} FirstPacketIsLastEvent(s0: Streamer, ops: seq<Op>, k: nat)
    requires s0 == NewStreamer(s0.sampleRate) && k <= |ops|
    ensures Holds(StateAt(s0, ops, k).firstPacketSent, FirstPacketWrites(s0, ops), k, false)
  {
    hide Step, Holds, Output;
    if k == 0 {
      HoldsAtStart(FirstPacketWrites(s0, ops), false);
    } else {
      FirstPacketIsLastEvent(s0, ops, k - 1);
      StepFirstPacket(StateAt(s0, ops, k - 1), ops[k - 1]);
      HoldsNext(
        StateAt(s0, ops, k - 1).firstPacketSent, FirstPacketWrites(s0, ops), k - 1, false, StateAt(s0, ops, k).firstPacketSent);
    }
  }

  // ------------------------------------------------------------------
  // The legacy clock, before any subscription to generations
  // ------------------------------------------------------------------

  ghost predicate Unsubscribed(ops: seq<Op>, k: nat)
    requires k <= |ops|
  {
    forall r :: 0 <= r < k ==> !ops[r].SubscribeGenerations?
  }

  function ClockIdWrites(ops: seq<Op>): nat -> Option<ClockId> {
    (j: nat) => if j < |ops| && ops[j].SetPtpSyncMode? then Some(ops[j].clockId) else None
  }

  /** Whether the legacy offset channel was ever subscribed before step `k`. */
  function HasChannel(ops: seq<Op>, k: nat): bool
    requires k <= |ops|
  {
    exists r :: 0 <= r < k && ops[r].SubscribeOffsets?
  }

  /** The newest offset on the legacy channel that no poll before step `k` has seen. */
  function UnseenOffset(ops: seq<Op>, k: nat): Option<ClockOffset>
    requires k <= |ops|
  {
    if k == 0 then None
    else
      match ops[k - 1]
      case Poll => None
      case SubscribeOffsets(watch) => if watch.unseen then Some(watch.latest) else None
      case PublishOffset(offset) => if HasChannel(ops, k - 1) then Some(offset) else None
      case _ => UnseenOffset(ops, k - 1)
  }

  /** A legacy offset comes from a call, or from a poll that finds one unseen. */
  function OffsetWrites(ops: seq<Op>): nat -> Option<Option<ClockOffset>> {
    (j: nat) =>
      if j >= |ops| then None
      else if ops[j].SetTimingOffset? then Some(Some(ops[j].offset))
      else if ops[j].Poll? && UnseenOffset(ops, j).Some? then Some(UnseenOffset(ops, j)) else None
  }

  /** The clock part of a step without a generation channel. */
  lemma LegacyStep(s: Streamer, op: Op)
    requires s.generationRx.None? && !op.SubscribeGenerations?
    ensures var t := Step(s, op);
            && t.generationRx.None?
            && t.masterClockId == (if op.SetPtpSyncMode? then op.clockId else s.masterClockId)
            && t.clockOffset == (if op.SetTimingOffset? then Some(op.offset)
                                 else if op.Poll? && s.timingRx.Some? && s.timingRx.value.unseen
                                 then Some(s.timingRx.value.latest) else s.clockOffset)
            && t.timingRx == (match op
                              case SubscribeOffsets(watch) => Some(watch)
                              case PublishOffset(offset) =>
                                if s.timingRx.Some? then Some(OffsetWatch(offset, true)) else None
                              case Poll => if s.timingRx.Some? then Some(s.timingRx.value.(unseen := false)) else None
                              case _ => s.timingRx)
  {
    hide PrepareFrame, ActualPlan, ClockReady;
    match op
    case Frame(_) =>
    case Poll =>
    case _ =>
  }

  lemma {:induction false} LegacyChannel(s0: Streamer, ops: seq<Op>, k: nat)
    requires s0 == NewStreamer(s0.sampleRate) && k <= |ops| && Unsubscribed(ops, k)
    ensures var s := StateAt(s0, ops, k);
            && s.generationRx.None? && (s.timingRx.Some? <==> HasChannel(ops, k))
            && UnseenOffset(ops, k) ==
               (if s.timingRx.Some? && s.timingRx.value.unseen then Some(s.timingRx.value.latest) else None)
  {
    hide Step;
    if k > 0 {
      LegacyChannel(s0, ops, k - 1);
      LegacyStep(StateAt(s0, ops, k - 1), ops[k - 1]);
    }
  }

  /** Without generations, identity and offset are the last ones set, or polled from the legacy channel. */
  lemma {:induction false} LegacyClockIsLastSet(s0: Streamer, ops: seq<Op>, k: nat)
    requires s0 == NewStreamer(s0.sampleRate) && k <= |ops| && Unsubscribed(ops, k)
    ensures var zero: ClockId := [0, 0, 0, 0, 0, 0, 0, 0];
            Holds(StateAt(s0, ops, k).masterClockId, ClockIdWrites(ops), k, zero)
    ensures Holds(StateAt(s0, ops, k).clockOffset, OffsetWrites(ops), k, None)
  {
    hide Step, Holds;
    var zero: ClockId := [0, 0, 0, 0, 0, 0, 0, 0];
    assert zero == NO_CLOCK;
    if k == 0 {
      HoldsAtStart(ClockIdWrites(ops), zero);
      HoldsAtStart(OffsetWrites(ops), None);
    } else {
      var s, op := StateAt(s0, ops, k - 1), ops[k - 1];
      LegacyClockIsLastSet(s0, ops, k - 1);
      LegacyChannel(s0, ops, k - 1);
      LegacyStep(s, op);
      HoldsNext(s.masterClockId, ClockIdWrites(ops), k - 1, zero, Step(s, op).masterClockId);
      HoldsNext(s.clockOffset, OffsetWrites(ops), k - 1, None, Step(s, op).clockOffset);
    }
  }

  // ------------------------------------------------------------------
  // Phases
  // ------------------------------------------------------------------

  ghost predicate SinceAt(starts: nat -> bool, ends: nat -> bool, j: nat, k: nat) {
    j < k && starts(j) && forall r: nat :: j < r < k ==> !ends(r)
  }

  /** Some step before `k` starts what no later one has ended. */
  ghost predicate Since(starts: nat -> bool, ends: nat -> bool, k: nat) {
    exists j: nat :: SinceAt(starts, ends, j, k)
  }

  lemma SinceAtNext(starts: nat -> bool, ends: nat -> bool, j: nat, k: nat, next: nat)
    requires next == k + 1
    ensures SinceAt(starts, ends, j, next) <==> (j == k && starts(k)) || (SinceAt(starts, ends, j, k) && !ends(k))
  {
    if SinceAt(starts, ends, j, k) && !ends(k) {
      forall r: nat | j < r < next ensures !ends(r) {
        assert r < k || r == k;
      }
    }
  }

  lemma SinceNext(starts: nat -> bool, ends: nat -> bool, k: nat, next: nat)
    requires next == k + 1
    ensures Since(starts, ends, next) <==> starts(k) || (Since(starts, ends, k) && !ends(k))
  {
    hide SinceAt;
    forall j: nat
      ensures SinceAt(starts, ends, j, next) <==> (j == k && starts(k)) || (SinceAt(starts, ends, j, k) && !ends(k))
    {
      SinceAtNext(starts, ends, j, k, next);
    }
    if starts(k) {
      assert SinceAt(starts, ends, k, next);
    } else if Since(starts, ends, k) && !ends(k) {
      var j: nat :| SinceAt(starts, ends, j, k);
      assert SinceAt(starts, ends, j, next);
    }
  }

  lemma NeverYet(starts: nat -> bool, ends: nat -> bool)
    ensures !Since(starts, ends, 0)
  {
  }

  /** A frame that its targets needed and that could not be prepared. */
  predicate Breaks(s: Streamer, op: Op) {
    op.Frame? && Dispatching(s) && s.senders != [] && Output(s, op).None?
  }

  lemma StepPhase(s: Streamer, op: Op)
    ensures Step(s, op).phase == if Breaks(s, op) then Failed else NextPhase(s.phase, op)
  {
    hide PrepareFrame, ActualPlan, ConsumeGenerations, ClockReady;
    match op
    case Frame(_) => ConsumeKeepsSettings(s);
    case Poll => ConsumeKeepsSettings(s);
    case SubscribeGenerations(current) => ConsumeKeepsSettings(Disconnected(s, current));
    case _ =>
  }

  predicate Interrupts(s: Streamer, op: Op) {
    op.Start? || op.Stop? || op.Underrun? || Breaks(s, op)
  }

  /** Streaming begins out of buffering. */
  function Begins(s0: Streamer, ops: seq<Op>): nat -> bool {
    (j: nat) => j < |ops| && ops[j].BeginStreaming? && StateAt(s0, ops, j).phase == Buffering
  }

  function Interruptions(s0: Streamer, ops: seq<Op>): nat -> bool {
    (j: nat) => j < |ops| && Interrupts(StateAt(s0, ops, j), ops[j])
  }

  /** Buffering begins with a start, or with an underrun while packets are being handed on. */
  function BufferingBegins(s0: Streamer, ops: seq<Op>): nat -> bool {
    (j: nat) =>
      && j < |ops|
      && ((ops[j].Start? && StateAt(s0, ops, j).phase != Failed) || (ops[j].Underrun? && Dispatching(StateAt(s0, ops, j))))
  }

  function BufferingEnds(ops: seq<Op>): nat -> bool {
    (j: nat) => j < |ops| && (ops[j].BeginStreaming? || ops[j].Stop?)
  }

  function Pauses(s0: Streamer, ops: seq<Op>): nat -> bool {
    (j: nat) => j < |ops| && ops[j].Pause? && Dispatching(StateAt(s0, ops, j))
  }

  function PauseEnds(s0: Streamer, ops: seq<Op>): nat -> bool {
    (j: nat) => j < |ops| && (ops[j].Resume? || Interrupts(StateAt(s0, ops, j), ops[j]))
  }

  function Breakages(s0: Streamer, ops: seq<Op>): nat -> bool {
    (j: nat) => j < |ops| && Breaks(StateAt(s0, ops, j), ops[j])
  }

  function Nothing(): nat -> bool {
    (j: nat) => false
  }

  /** Packets are handed on from the begin of streaming to a start, stop, underrun or breakage. */
  lemma {:induction false} DispatchingExactly(s0: Streamer, ops: seq<Op>, k: nat)
    requires s0 == NewStreamer(s0.sampleRate) && k <= |ops|
    ensures Dispatching(StateAt(s0, ops, k)) <==> Since(Begins(s0, ops), Interruptions(s0, ops), k)
  {
    hide Step, Since, Output;
    var starts, ends := Begins(s0, ops), Interruptions(s0, ops);
    if k == 0 {
      NeverYet(starts, ends);
    } else {
      DispatchingExactly(s0, ops, k - 1);
      StepPhase(StateAt(s0, ops, k - 1), ops[k - 1]);
      SinceNext(starts, ends, k - 1, k);
    }
  }

  /** Buffering lasts from a start or underrun to the next begin of streaming or stop. */
  lemma {:induction false} BufferingExactly(s0: Streamer, ops: seq<Op>, k: nat)
    requires s0 == NewStreamer(s0.sampleRate) && k <= |ops|
    ensures StateAt(s0, ops, k).phase == Buffering <==> Since(BufferingBegins(s0, ops), BufferingEnds(ops), k)
  {
    hide Step, Since, Output;
    var starts, ends := BufferingBegins(s0, ops), BufferingEnds(ops);
    if k == 0 {
      NeverYet(starts, ends);
    } else {
      BufferingExactly(s0, ops, k - 1);
      StepPhase(StateAt(s0, ops, k - 1), ops[k - 1]);
      SinceNext(starts, ends, k - 1, k);
    }
  }

  /** A pause lasts to a resume or an interruption. */
  lemma {:induction false} PausedExactly(s0: Streamer, ops: seq<Op>, k: nat)
    requires s0 == NewStreamer(s0.sampleRate) && k <= |ops|
    ensures StateAt(s0, ops, k).phase == Paused <==> Since(Pauses(s0, ops), PauseEnds(s0, ops), k)
  {
    hide Step, Since, Output;
    var starts, ends := Pauses(s0, ops), PauseEnds(s0, ops);
    if k == 0 {
      NeverYet(starts, ends);
    } else {
      PausedExactly(s0, ops, k - 1);
      StepPhase(StateAt(s0, ops, k - 1), ops[k - 1]);
      SinceNext(starts, ends, k - 1, k);
    }
  }

  /** Only a breakage fails the stream, for good. */
  lemma {:induction false} FailedExactly(s0: Streamer, ops: seq<Op>, k: nat)
    requires s0 == NewStreamer(s0.sampleRate) && k <= |ops|
    ensures StateAt(s0, ops, k).phase == Failed <==> Since(Breakages(s0, ops), Nothing(), k)
  {
    hide Step, Since, Output;
    var starts, ends := Breakages(s0, ops), Nothing();
    if k == 0 {
      NeverYet(starts, ends);
    } else {
      FailedExactly(s0, ops, k - 1);
      StepPhase(StateAt(s0, ops, k - 1), ops[k - 1]);
      SinceNext(starts, ends, k - 1, k);
    }
  }
}
