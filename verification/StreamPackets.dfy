/**
 * What the packets of every run contain, read octet by octet, and exactly which frames carry
 * sync packets.
 */
module StreamPackets {
  import opened Bytes
  import opened RtpWire
  import opened RtpSending
  import opened Streaming
  import opened StreamRuns
  import opened StreamFields
  import opened StreamHistory

  /** The frame reaches all targets: the stream dispatches and every cipher accepts it. */
  ghost predicate Reaches(s: Streamer, f: FrameInput) {
    && Dispatching(s) && s.senders != []
    && forall i :: 0 <= i < |s.senders| ==>
         AudioWire(s.senders[i], AudioFrame(f.payloadType, f.rtp, f.payload, !s.firstPacketSent)).Some?
  }

  // ------------------------------------------------------------------
  // Which frames carry sync packets
  // ------------------------------------------------------------------

  /** `t` is local time seen on the master's timeline, or local time itself where that is no 64-bit time. */
  ghost predicate OnMasterTimeline(t: int, localNs: u64, offset: Option<ClockOffset>) {
    if offset.Some? && 0 <= localNs - offset.value.offsetNs < 0x1_0000_0000_0000_0000
    then t + offset.value.offsetNs == localNs
    else t == localNs
  }

  lemma AnchorIsOnTimeline(localNs: u64, offset: Option<ClockOffset>)
    ensures OnMasterTimeline(MasterAnchor(localNs, offset), localNs, offset)
  {
  }

  /** A clock is usable, and it is the first packet, nothing is marked, or a second of ticks has passed. */
  predicate SyncWanted(c: Streamer, rtp: u32) {
    && (c.usePtpSync && c.generationRx.Some? ==> c.generation.Some?)
    && (!c.firstPacketSent || c.lastSyncRtp == 0 || (rtp - c.lastSyncRtp) % 0x1_0000_0000 >= c.sampleRate)
  }

  /** Every target presents after the recorded anchor, at a 64-bit time. */
  ghost predicate TimesFit(c: Streamer, t: int) {
    forall j :: 0 <= j < |c.delays| ==>
      c.lastAnchorNs < t + c.renderDelayNs + c.delays[j] < 0x1_0000_0000_0000_0000
  }

  lemma FitsExactly(plan: FramePlan, delays: seq<u64>)
    ensures FirstBadDelay(plan, delays) == |delays| <==>
            forall j :: 0 <= j < |delays| ==>
              plan.referenceNs < plan.commonNs + plan.leadNs + delays[j] < 0x1_0000_0000_0000_0000
  {
    forall j | 0 <= j < |delays|
      ensures PlanTime(plan, delays[j]).Ok?
              <==> plan.referenceNs < plan.commonNs + plan.leadNs + delays[j] < 0x1_0000_0000_0000_0000
    {
    }
    var n := FirstBadDelay(plan, delays);
  }

  /** The plan a frame is prepared with has its sync exactly when one is wanted and all times fit. */
  lemma PlanSyncsExactly(c: Streamer, f: FrameInput, t: int)
    requires |c.senders| == |c.delays| && OnMasterTimeline(t, f.localNs, c.clockOffset)
    ensures ActualPlan(c, f).syncDue <==> SyncWanted(c, f.rtp) && TimesFit(c, t)
    ensures PlanFor(c, f).commonNs == t
  {
    hide PrepareFrame, ActualPlan, MasterAnchor, FirstBadDelay;
    AnchorIsOnTimeline(f.localNs, c.clockOffset);
    ActualPlanIsUsable(c, f);
    FitsExactly(PlanFor(c, f), c.delays);
  }

  /** The packets of a frame that reaches its targets. */
  lemma FramePackets(s: Streamer, f: FrameInput, i: nat)
    requires Coherent(s) && Reaches(s, f) && i < |s.senders|
    ensures var c, out := ConsumeGenerations(s), Output(s, Frame(f));
            var plan := ActualPlan(c, f);
            && |c.senders| == |c.delays| == |s.senders| && c.delays == s.delays && c.renderDelayNs == s.renderDelayNs
            && SameAudioState(s.senders[i], c.senders[i])
            && out.Some? && |out.value.wirePackets| == |out.value.syncPackets| == |s.senders|
            && Some(out.value.wirePackets[i]) == AudioWire(c.senders[i], plan.audio)
            && (plan.syncDue ==> plan == PlanFor(c, f) && PlanTime(plan, c.delays[i]).Ok?)
            && out.value.syncPackets[i] ==
               (if plan.syncDue then SyncWire(c.senders[i], SyncRequestFor(plan, c.delays[i])) else None)
  {
    hide AudioWire, SyncWire, PrepareFrame, ActualPlan, ConsumeGenerations, PlanFor;
    ConsumeKeepsCoherence(s);
    ConsumeKeepsAudio(s);
    ConsumeKeepsSettings(s);
    var c := ConsumeGenerations(s);
    ActualPlanIsUsable(c, f);
    SharedPlanParts(c, f);
    forall j | 0 <= j < |s.senders| ensures AudioWire(c.senders[j], ActualPlan(c, f).audio).Some? {
      AudioIgnoresSyncState(s.senders[j], c.senders[j], ActualPlan(c, f).audio);
    }
    PreparedPackets(c.senders, c.delays, ActualPlan(c, f));
  }

  /**
   * A frame brings a target a sync packet if and only if the target has a control port, a sync is
   * wanted and every target's presentation time fits.
   */
  lemma SyncExactly(s: Streamer, f: FrameInput, i: nat, t: int)
    requires Coherent(s) && Reaches(s, f) && i < |s.senders|
    requires OnMasterTimeline(t, f.localNs, ConsumeGenerations(s).clockOffset)
    ensures var c, out := ConsumeGenerations(s), Output(s, Frame(f));
            && out.Some? && i < |out.value.syncPackets|
            && (out.value.syncPackets[i].Some? <==> s.senders[i].controlPort != 0 && SyncWanted(c, f.rtp) && TimesFit(c, t))
  {
    hide AudioWire, SyncWire, Output, ActualPlan, ConsumeGenerations, SyncWanted, TimesFit, OnMasterTimeline, PlanFor, Reaches;
    FramePackets(s, f, i);
    var c := ConsumeGenerations(s);
    PlanSyncsExactly(c, f, t);
    var plan := ActualPlan(c, f);
    if plan.syncDue {
      SyncShowsFlag(c.senders[i], SyncRequestFor(plan, c.delays[i]));
    }
  }

  // ------------------------------------------------------------------
  // What sync packets say
  // ------------------------------------------------------------------

  /** A receiver of this PT=87 packet reads these values. */
  ghost predicate PtpSyncReads(b: Octets, sequence: int, rtp: u32, due: int, next: int, clock: ClockId) {
    && |b| == 28 && b[1] == 0xD7 && U16At(b, 2) == sequence && U32At(b, 4) == rtp
    && (due < 0x1_0000_0000 * 1_000_000_000 ==> ReadClockField(b[8..16]) == due)
    && U32At(b, 16) == next && b[20..28] == clock
  }

  /** A receiver of this PT=84 packet reads these values: seconds since 1900, and the nanosecond rounded up. */
  ghost predicate NtpSyncReads(b: Octets, sequence: int, rtp: u32, due: int) {
    && |b| == 20 && b[1] == 0xD4 && U16At(b, 2) == sequence && U32At(b, 4) == rtp && U32At(b, 16) == rtp
    && U32At(b, 8) == (due / 1_000_000_000 + 2_208_988_800) % 0x1_0000_0000
    && (U32At(b, 12) * 1_000_000_000 + 0xFFFF_FFFF) / 0x1_0000_0000 == due % 1_000_000_000
  }

  lemma PtpSyncIsRead(first: bool, sequence: u16, rtp: u32, ns: u64, next: u32, id: ClockId)
    ensures PtpSyncReads(PtpSyncPacket(first, sequence, rtp, ns, next, id), sequence, rtp, ns, next, id)
  {
    hide PtpClockField, ReadClockField;
    SyncPacketsReadBack(first, sequence, rtp, 0, ns, next, id);
    if ns < POW32 * NANOS_PER_SECOND {
      PtpClockFieldIsExact(ns);
    }
  }

  lemma NtpSyncIsRead(first: bool, sequence: u16, rtp: u32, ns: u64)
    ensures NtpSyncReads(NtpSyncPacket(first, sequence, rtp, UnixToNtp(ns)), sequence, rtp, ns)
  {
    hide UnixToNtp;
    var ntp := UnixToNtp(ns);
    SyncPacketsReadBack(first, sequence, rtp, ntp, 0, 0, NO_CLOCK);
    NtpTimeReadsBack(ns);
    var b := NtpSyncPacket(first, sequence, rtp, ntp);
    Halves(ntp, U32At(b, 8), U32At(b, 12));
  }

  lemma Halves(n: nat, high: int, low: int)
    requires 0 <= low < 0x1_0000_0000 && high * 0x1_0000_0000 + low == n
    ensures n / 0x1_0000_0000 == high && n % 0x1_0000_0000 == low
  {
  }

  lemma SyncWireReads(s: Sender, r: SyncRequest)
    requires SyncWire(s, r).Some?
    ensures r.PtpSync? ==>
              PtpSyncReads(SyncWire(s, r).value, s.syncSequence, r.rtp, r.presentationNs, r.nextRtp, r.masterClockId)
    ensures r.NtpSync? ==> NtpSyncReads(SyncWire(s, r).value, s.syncSequence, r.rtp, r.presentationNs)
  {
    hide PtpSyncReads, NtpSyncReads, PtpSyncPacket, NtpSyncPacket, UnixToNtp;
    match r
    case PtpSync(rtp, ns, next, id) => PtpSyncIsRead(!s.firstSyncSent, s.syncSequence, rtp, ns, next, id);
    case NtpSync(rtp, ns) => NtpSyncIsRead(!s.firstSyncSent, s.syncSequence, rtp, ns);
  }

  /**
   * Every sync packet a frame brings: its presentation time is the frame's local time on the master's
   * timeline plus the render lead plus the target's delay.
   */
  lemma SyncSays(s: Streamer, f: FrameInput, i: nat, t: int)
    requires Coherent(s) && Reaches(s, f) && i < |s.senders|
    requires OnMasterTimeline(t, f.localNs, ConsumeGenerations(s).clockOffset)
    ensures var c, out := ConsumeGenerations(s), Output(s, Frame(f));
            && out.Some? && i < |out.value.syncPackets|
            && (out.value.syncPackets[i].Some? ==>
                  var b, due := out.value.syncPackets[i].value, t + s.renderDelayNs + s.delays[i];
                  if c.usePtpSync then
                    PtpSyncReads(b, c.senders[i].syncSequence, f.rtp, due,
                                 (f.rtp + c.sampleRate / 44100 * 352) % 0x1_0000_0000, c.masterClockId)
                  else NtpSyncReads(b, c.senders[i].syncSequence, f.rtp, due))
  {
    hide AudioWire, SyncWire, Output, ActualPlan, ConsumeGenerations, OnMasterTimeline, Reaches, MasterAnchor, PtpSyncReads, NtpSyncReads;
    FramePackets(s, f, i);
    var c := ConsumeGenerations(s);
    PlanSyncsExactly(c, f, t);
    var plan := ActualPlan(c, f);
    if Output(s, Frame(f)).value.syncPackets[i].Some? {
      SyncWireReads(c.senders[i], SyncRequestFor(plan, c.delays[i]));
    }
  }

  /**
   * A PT=87 packet of a subscribed streamer, read below 2^32 seconds: clock field plus published offset
   * is local time plus render lead plus delay, or without the offset where local time cannot be shifted.
   */
  lemma SubscribedSyncSays(s: Streamer, f: FrameInput, i: nat)
    requires Coherent(s) && s.generationRx.Some? && Reaches(s, f) && i < |s.senders|
    ensures var out := Output(s, Frame(f));
            && out.Some? && i < |out.value.syncPackets|
            && (out.value.syncPackets[i].Some? ==>
                  var b := out.value.syncPackets[i].value;
                  && s.generationRx.value.Some? && |b| == 28 && b[1] == 0xD7
                  && var g := s.generationRx.value.value;
                     var read, base := ReadClockField(b[8..16]), s.renderDelayNs + s.delays[i];
                     && b[20..28] == g.masterClockId
                     && (if 0 <= f.localNs - g.offset.offsetNs < 0x1_0000_0000_0000_0000 then
                           f.localNs - g.offset.offsetNs + base < 0x1_0000_0000 * 1_000_000_000 ==>
                             read + g.offset.offsetNs == f.localNs + base
                         else f.localNs + base < 0x1_0000_0000 * 1_000_000_000 ==> read == f.localNs + base))
  {
    hide Output, ConsumeGenerations, Reaches, ReadClockField, Coherent, SyncWanted, TimesFit;
    ConsumedClock(s);
    var c := ConsumeGenerations(s);
    AnchorIsOnTimeline(f.localNs, c.clockOffset);
    var t := MasterAnchor(f.localNs, c.clockOffset);
    SyncExactly(s, f, i, t);
    SyncSays(s, f, i, t);
    WantsGeneration(c, f.rtp);
  }

  lemma WantsGeneration(c: Streamer, rtp: u32)
    ensures SyncWanted(c, rtp) && c.usePtpSync && c.generationRx.Some? ==> c.generation.Some?
  {
  }

  // ------------------------------------------------------------------
  // Marks and numbers over runs
  // ------------------------------------------------------------------

  /** A step that hands packets on and is due for sync packets. */
  ghost predicate Syncs(s: Streamer, op: Op) {
    var c := ConsumeGenerations(s);
    && Output(s, op).Some? && op.Frame? && SyncWanted(c, op.input.rtp)
    && exists t :: OnMasterTimeline(t, op.input.localNs, c.clockOffset) && TimesFit(c, t)
  }

  lemma FrameSyncMark(s: Streamer, f: FrameInput)
    requires Coherent(s) && Dispatching(s)
    ensures FrameStep(s, f).lastSyncRtp ==
            if Syncs(s, Frame(f)) then f.rtp
            else if s.senders != [] && SeesNewMaster(s) then 0 else s.lastSyncRtp
  {
    hide PrepareFrame, ActualPlan, ConsumeGenerations, SyncWanted, TimesFit, MasterAnchor, ClockReady;
    ConsumeMayForgetMark(s);
    ConsumeKeepsCoherence(s);
    var c := ConsumeGenerations(s);
    var t := MasterAnchor(f.localNs, c.clockOffset);
    AnchorIsOnTimeline(f.localNs, c.clockOffset);
    PlanSyncsExactly(c, f, t);
  }

  lemma ConsumeMayForgetMark(s: Streamer)
    ensures ConsumeGenerations(s).lastSyncRtp == if SeesNewMaster(s) then 0 else s.lastSyncRtp
  {
  }

  lemma StepSyncMark(s: Streamer, op: Op)
    requires Coherent(s)
    ensures Step(s, op).lastSyncRtp ==
            if Syncs(s, op) then op.input.rtp else if ForgetsAnchor(s, op) then 0 else s.lastSyncRtp
  {
    hide FrameStep, PreparedStreamFrame, ConsumeGenerations, SyncWanted, TimesFit, OnMasterTimeline;
    match op
    case Frame(f) =>
      if Dispatching(s) {
        FrameSyncMark(s, f);
      }
    case Poll => ConsumeMayForgetMark(s);
    case SubscribeGenerations(current) => ConsumeMayForgetMark(Disconnected(s, current));
    case _ =>
  }

  ghost function SyncMarkWrites(s0: Streamer, ops: seq<Op>): nat -> Option<int> {
    (j: nat) =>
      if j >= |ops| then None
      else if Syncs(StateAt(s0, ops, j), ops[j]) then Some(ops[j].input.rtp)
      else if ForgetsAnchor(StateAt(s0, ops, j), ops[j]) then Some(0) else None
  }

  /**
   * Over every run the mark that paces the syncs is the RTP time of the last frame that carried them,
   * or zero after a subscription or a change of master clock.
   */
  lemma {:induction false} SyncMarkIsLastSync(s0: Streamer, ops: seq<Op>, k: nat)
    requires s0 == NewStreamer(s0.sampleRate) && k <= |ops|
    ensures Holds(StateAt(s0, ops, k).lastSyncRtp, SyncMarkWrites(s0, ops), k, 0)
  {
    hide Step, Holds, Syncs, ForgetsAnchor, Coherent;
    if k == 0 {
      HoldsAtStart(SyncMarkWrites(s0, ops), 0);
    } else {
      SyncMarkIsLastSync(s0, ops, k - 1);
      EveryRunIsCoherent(s0.sampleRate, ops, k - 1);
      StepSyncMark(StateAt(s0, ops, k - 1), ops[k - 1]);
      HoldsNext(StateAt(s0, ops, k - 1).lastSyncRtp, SyncMarkWrites(s0, ops), k - 1, 0, StateAt(s0, ops, k).lastSyncRtp);
    }
  }

  /** Sync packets a target got before step `k`, since the senders were last set. */
  function SyncsSent(s0: Streamer, ops: seq<Op>, k: nat, target: nat): nat
    requires k <= |ops|
  {
    if k == 0 || ops[k - 1].SetSenders? then 0
    else SyncsSent(s0, ops, k - 1, target) + (if SyncAt(s0, ops, k - 1, target).Some? then 1 else 0)
  }

  lemma FrameSyncNumber(s: Streamer, f: FrameInput, i: nat)
    requires Coherent(s) && Dispatching(s) && i < |FrameStep(s, f).senders| && FrameStep(s, f).phase != Failed
    ensures i < |s.senders|
    ensures FrameStep(s, f).senders[i].syncSequence ==
            (s.senders[i].syncSequence + (if SyncOf(s, Frame(f), i).Some? then 1 else 0)) % 65536
  {
    hide AudioWire, SyncWire, PrepareFrame, ActualPlan, ConsumeGenerations;
    FrameKeepsCount(s, f);
    ConsumeKeepsCoherence(s);
    ConsumeKeepsNumber(s, i);
    var c := ConsumeGenerations(s);
    var plan := ActualPlan(c, f);
    ActualPlanIsUsable(c, f);
    PreparedPackets(c.senders, c.delays, plan);
    if plan.syncDue {
      SyncShowsFlag(c.senders[i], SyncRequestFor(plan, c.delays[i]));
    }
  }

  lemma ConsumeKeepsNumber(s: Streamer, i: nat)
    requires i < |s.senders|
    ensures var c := ConsumeGenerations(s);
            |c.senders| == |s.senders| && c.phase == s.phase && c.senders[i].syncSequence == s.senders[i].syncSequence
  {
  }

  lemma StepSyncNumber(s: Streamer, op: Op, i: nat)
    requires Coherent(s) && Running(Step(s, op)) && i < |Step(s, op).senders|
    ensures !op.SetSenders? ==> i < |s.senders|
    ensures Step(s, op).senders[i].syncSequence ==
            if op.SetSenders? then 0
            else (s.senders[i].syncSequence + (if SyncOf(s, op, i).Some? then 1 else 0)) % 65536
  {
    hide FrameStep, PreparedStreamFrame, ConsumeGenerations, SetupStep, ClockStep, PhaseStep;
    StepIdentities(s, op);
    match op
    case Frame(f) =>
      if Dispatching(s) {
        FrameSyncNumber(s, f, i);
      }
    case Poll => ConsumeKeepsNumber(s, i);
    case SubscribeGenerations(current) => ConsumeKeepsNumber(Disconnected(s, current), i);
    case _ => PlainStep(s, op);
  }

  /** Over every run not yet failed, a target's syncs are numbered from zero since its senders were set. */
  lemma {:induction false} SyncsAreNumbered(s0: Streamer, ops: seq<Op>, k: nat, i: nat)
    requires s0 == NewStreamer(s0.sampleRate)
    requires k <= |ops| && Running(StateAt(s0, ops, k)) && i < |StateAt(s0, ops, k).senders|
    ensures StateAt(s0, ops, k).senders[i].syncSequence == SyncsSent(s0, ops, k, i) % 65536
  {
    hide Step, Output;
    if k > 0 {
      var s, op := StateAt(s0, ops, k - 1), ops[k - 1];
      EveryRunIsCoherent(s0.sampleRate, ops, k - 1);
      RunningBefore(s, op);
      StepSyncNumber(s, op, i);
      if !op.SetSenders? {
        SyncsAreNumbered(s0, ops, k - 1, i);
      }
    }
  }

  // ------------------------------------------------------------------
  // What audio packets say
  // ------------------------------------------------------------------

  /** A frame that hands packets on reached all its targets. */
  lemma OutputReaches(s: Streamer, f: FrameInput)
    requires Coherent(s) && Output(s, Frame(f)).Some?
    ensures Reaches(s, f)
  {
    hide AudioWire, SyncWire, PrepareFrame, ActualPlan, ConsumeGenerations, PlanFor;
    ConsumeKeepsCoherence(s);
    ConsumeKeepsAudio(s);
    var c := ConsumeGenerations(s);
    ActualPlanIsUsable(c, f);
    SharedPlanParts(c, f);
    var audio := ActualPlan(c, f).audio;
    PreparedPackets(c.senders, c.delays, ActualPlan(c, f));
    forall j | 0 <= j < |s.senders| ensures AudioWire(s.senders[j], audio).Some? {
      AudioIgnoresSyncState(s.senders[j], c.senders[j], audio);
    }
  }

  /**
   * Every audio packet of every run: RTP version 2, the frame's payload type and time, the target's
   * ssrc, the target's packets numbered from zero since its senders were set, the marker on the first
   * packet after creation or a flush, and the payload.
   */
  lemma AudioPacketSays(s0: Streamer, ops: seq<Op>, k: nat, i: nat)
    requires s0 == NewStreamer(s0.sampleRate) && k < |ops| && ops[k].Frame?
    requires Output(StateAt(s0, ops, k), ops[k]).Some? && i < |StateAt(s0, ops, k).senders|
    ensures var s, f, out := StateAt(s0, ops, k), ops[k].input, Output(StateAt(s0, ops, k), ops[k]);
            && i < |out.value.wirePackets|
            && var b := out.value.wirePackets[i];
               && |b| >= 12 && b[0] == 0x80
               && b[1] == (if s.firstPacketSent then 0 else 128) + f.payloadType % 128
               && U16At(b, 2) == |TargetLog(s0, ops, k, i)| % 65536
               && U32At(b, 4) == f.rtp && U32At(b, 8) == s.senders[i].ssrc
               && (s.senders[i].cipher.None? ==> b[12..] == f.payload)
  {
    hide StateAt, Output, AudioWire, Step, ActualPlan, ConsumeGenerations, Reaches, Coherent, NewStreamer, TargetLog, SyncWire;
    var s, f := StateAt(s0, ops, k), ops[k].input;
    EveryRunIsCoherent(s0.sampleRate, ops, k);
    OutputReaches(s, f);
    FramePackets(s, f, i);
    var c := ConsumeGenerations(s);
    SharedPlanParts(c, f);
    ConsumeKeepsSettings(s);
    AudioPacketFields(c.senders[i], ActualPlan(c, f).audio);
    OutputMeansRunning(s, ops[k]);
    HistoryIsWhatWasSent(s0, ops, k, i);
  }

  lemma OutputMeansRunning(s: Streamer, op: Op)
    requires Output(s, op).Some?
    ensures Running(s)
  {
  }
}
