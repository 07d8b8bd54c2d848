/** What holds over every run of a streamer. */
module StreamRuns {
  import opened Bytes
  import opened RtpWire
  import opened RtpSending
  import opened Streaming

  /** Two senders that differ at most in their sync counter and first-sync flag. */
  ghost predicate SameAudioState(a: Sender, b: Sender) {
    b.(syncSequence := a.syncSequence, firstSyncSent := a.firstSyncSent) == a
  }

  lemma AudioIgnoresSyncState(a: Sender, b: Sender, f: AudioFrame)
    requires SameAudioState(a, b)
    ensures AudioWire(a, f) == AudioWire(b, f)
    ensures SameAudioState(AfterAudio(a, f), AfterAudio(b, f))
  {
  }

  // ------------------------------------------------------------------
  // Clock coherence
  // ------------------------------------------------------------------

  /**
   * With a generation channel, offset and clock identity belong to one generation or are both
   * cleared, and no legacy source is connected. Every target always has its delay.
   */
  ghost predicate Coherent(s: Streamer) {
    && |s.delays| == |s.senders|
    && (s.generationRx.None? ==> s.generation.None?)
    && (s.generationRx.Some? ==>
          && s.usePtpSync && s.timingRx.None?
          && s.clockOffset == (if s.generation.Some? then Some(s.generation.value.offset) else None)
          && s.masterClockId == (if s.generation.Some? then s.generation.value.masterClockId else NO_CLOCK))
  }

  lemma PrepareKeepsCount(senders: seq<Sender>, delays: seq<u64>, plan: FramePlan)
    ensures var p := PrepareFrame(senders, delays, plan);
            && |p.senders| == |senders|
            && (p.result.Ok? ==> |p.result.value.syncPackets| == |p.result.value.wirePackets| == |senders|)
  {
    hide AudioWire, SyncWire;
  }

  lemma ConsumeKeepsCoherence(s: Streamer)
    requires Coherent(s)
    ensures Coherent(ConsumeGenerations(s))
  {
  }

  lemma FrameKeepsCoherence(s: Streamer, f: FrameInput)
    requires Coherent(s)
    ensures Coherent(FrameStep(s, f))
  {
    hide PrepareFrame, ActualPlan, ClockReady, ConsumeGenerations;
    ConsumeKeepsCoherence(s);
    var c := ConsumeGenerations(s);
    PrepareKeepsCount(c.senders, c.delays, ActualPlan(c, f));
  }

  lemma NewIsCoherent(sampleRate: u32)
    ensures var s := NewStreamer(sampleRate); Coherent(s) && s.generation.None? && s.generationRx.None?
  {
  }

  lemma StepKeepsCoherence(s: Streamer, op: Op)
    requires Coherent(s)
    ensures Coherent(Step(s, op))
  {
    hide FrameStep, ConsumeGenerations;
    match op
    case Frame(f) => FrameKeepsCoherence(s, f);
    case Poll => ConsumeKeepsCoherence(s);
    case SubscribeGenerations(current) => ConsumeKeepsCoherence(Disconnected(s, current));
    case _ =>
  }

  /** Generation `g` was published at step `j`, on the channel still subscribed before step `k`. */
  ghost predicate PublishedAt(ops: seq<Op>, j: nat, k: nat, g: Generation)
    requires k <= |ops|
  {
    && j < k
    && (ops[j] == SubscribeGenerations(Some(g)) || ops[j] == PublishGeneration(Some(g)))
    && forall r: nat :: j < r < k ==> !ops[r].SubscribeGenerations?
  }

  ghost predicate FollowsPublished(s: Streamer, ops: seq<Op>, k: nat)
    requires k <= |ops|
  {
    forall g :: s.generation == Some(g) || s.generationRx == Some(Some(g)) ==> exists j: nat :: PublishedAt(ops, j, k, g)
  }

  /** In every reachable state the clock is coherent and its generation was really published. */
  lemma {:induction false} EveryRunIsCoherent(sampleRate: u32, ops: seq<Op>, k: nat)
    requires k <= |ops|
    ensures Coherent(StateAt(NewStreamer(sampleRate), ops, k))
    ensures FollowsPublished(StateAt(NewStreamer(sampleRate), ops, k), ops, k)
  {
    hide Step, Coherent, NewStreamer;
    if k == 0 {
      NewIsCoherent(sampleRate);
    } else {
      EveryRunIsCoherent(sampleRate, ops, k - 1);
      var s, op := StateAt(NewStreamer(sampleRate), ops, k - 1), ops[k - 1];
      StepKeepsCoherence(s, op);
      var s' := Step(s, op);
      forall g | s'.generation == Some(g) || s'.generationRx == Some(Some(g))
        ensures exists j: nat :: PublishedAt(ops, j, k, g)
      {
        StepFollows(s, op, g);
        if op == SubscribeGenerations(Some(g)) || op == PublishGeneration(Some(g)) {
          assert PublishedAt(ops, k - 1, k, g);
        } else {
          var j: nat :| PublishedAt(ops, j, k - 1, g);
          assert PublishedAt(ops, j, k, g);
        }
      }
    }
  }

  lemma SetupLeaves(s: Streamer, op: Op)
    ensures var t := SetupStep(s, op);
            && t.generation == s.generation && t.lastAnchorNs == s.lastAnchorNs && t.generationRx == s.generationRx
            && t.phase == s.phase
            && t.senders == (if op.SetSenders? then FreshSenders(op.configs)
                             else if op.ResetAfterFlush? then ResetSenders(s.senders) else s.senders)
  {
    hide FreshSenders, ResetSenders;
  }

  lemma ClockLeaves(s: Streamer, op: Op)
    ensures var t := ClockStep(s, op);
            && t.generation == s.generation && t.lastAnchorNs == s.lastAnchorNs && t.senders == s.senders
            && t.phase == s.phase
            && (t.generationRx == s.generationRx || (op.PublishGeneration? && t.generationRx == Some(op.next)))
  {
  }

  lemma PhaseLeaves(s: Streamer, op: Op)
    ensures PhaseStep(s, op) == s.(phase := PhaseStep(s, op).phase)
    ensures s.phase == Failed ==> PhaseStep(s, op).phase == Failed
  {
  }

  /** What the steps that neither poll, subscribe nor take a frame leave alone. */
  lemma PlainStep(s: Streamer, op: Op)
    requires !op.SubscribeGenerations? && !op.Poll? && !op.Frame?
    ensures var t := Step(s, op);
            && t.generation == s.generation && t.lastAnchorNs == s.lastAnchorNs
            && (t.generationRx == s.generationRx || (op.PublishGeneration? && t.generationRx == Some(op.next)))
            && t.senders == (if op.SetSenders? then FreshSenders(op.configs)
                             else if op.ResetAfterFlush? then ResetSenders(s.senders) else s.senders)
            && (s.phase == Failed ==> t.phase == Failed)
  {
    hide FreshSenders, ResetSenders, SetupStep, ClockStep, PhaseStep;
    SetupLeaves(s, op);
    ClockLeaves(SetupStep(s, op), op);
    PhaseLeaves(ClockStep(SetupStep(s, op), op), op);
  }

  /** A step can only bring in the generation it publishes itself. */
  lemma StepFollows(s: Streamer, op: Op, g: Generation)
    requires Step(s, op).generation == Some(g) || Step(s, op).generationRx == Some(Some(g))
    ensures
      || op == SubscribeGenerations(Some(g)) || op == PublishGeneration(Some(g))
      || (!op.SubscribeGenerations? && (s.generation == Some(g) || s.generationRx == Some(Some(g))))
  {
    hide PreparedStreamFrame, ActualPlan, ConsumeGenerations, SetupStep, ClockStep, PhaseStep;
    match op
    case SubscribeGenerations(current) => ConsumeTakesChannel(Disconnected(s, current));
    case Poll => ConsumeTakesChannel(s);
    case Frame(_) => ConsumeTakesChannel(s);
    case _ => PlainStep(s, op);
  }

  lemma ConsumeTakesChannel(s: Streamer)
    ensures var c := ConsumeGenerations(s);
            && c.generationRx == s.generationRx && c.phase == s.phase && |c.senders| == |s.senders|
            && c.generation == (if s.generationRx.Some? then s.generationRx.value else s.generation)
            && forall i :: 0 <= i < |s.senders| ==>
                 c.senders[i].firstSyncSent == (s.senders[i].firstSyncSent && !SeesNewMaster(s))
  {
  }

  /** The PT=87 packet of one target names generation `g` and carries the anchor converted with it. */
  ghost predicate CarriesGeneration(packet: Octets, g: Generation, localNs: u64, leadNs: u64, delayNs: u64) {
    var ns := MasterAnchor(localNs, Some(g.offset)) + leadNs + delayNs;
    && |packet| == 28 && packet[1] == 0xD7
    && packet[20..28] == g.masterClockId
    && ns < POW64 && packet[8..16] == PtpClockField(ns)
  }

  /** What a prepared frame holds for each target. */
  lemma PreparedPackets(senders: seq<Sender>, delays: seq<u64>, plan: FramePlan)
    requires |senders| == |delays|
    requires plan.syncDue ==> FirstBadDelay(plan, delays) == |delays|
    ensures var p := PrepareFrame(senders, delays, plan);
            && (p.result.Ok? <==> forall i :: 0 <= i < |senders| ==> AudioWire(senders[i], plan.audio).Some?)
            && (p.result.Err? ==> p.result.error == PacketError)
            && (p.result.Ok? ==>
                  && |p.senders| == |p.result.value.wirePackets| == |p.result.value.syncPackets| == |senders|
                  && forall i :: 0 <= i < |senders| ==>
                       && Some(p.result.value.wirePackets[i]) == AudioWire(senders[i], plan.audio)
                       && (plan.syncDue ==> PlanTime(plan, delays[i]).Ok?)
                       && p.result.value.syncPackets[i] ==
                          (if plan.syncDue then SyncWire(senders[i], SyncRequestFor(plan, delays[i])) else None)
                       && p.senders[i] ==
                          AfterAudio(if plan.syncDue then AfterSync(senders[i]) else senders[i], plan.audio))
  {
    hide AudioWire, SyncWire;
    var synced := if plan.syncDue then AfterSyncs(senders) else senders;
    forall i | 0 <= i < |senders| ensures AudioWire(senders[i], plan.audio) == AudioWire(synced[i], plan.audio) {
      AudioIgnoresSyncState(senders[i], synced[i], plan.audio);
    }
  }

  /** A streaming frame never fails on its presentation times: those only cost it the sync. */
  lemma ActualPlanIsUsable(s: Streamer, f: FrameInput)
    requires |s.senders| == |s.delays|
    ensures var plan := ActualPlan(s, f);
            && plan.audio == PlanFor(s, f).audio
            && (plan.syncDue ==> plan == PlanFor(s, f) && FirstBadDelay(plan, s.delays) == |s.delays|)
    ensures SyncRejected(s, f) <==> PlanFor(s, f).syncDue && FirstBadDelay(PlanFor(s, f), s.delays) < |s.delays|
  {
    hide AudioWire, SyncWire, PlanFor;
  }

  /**
   * A frame of a subscribed streamer: every sync packet is built from the one generation
   * published last; with none published there is no sync packet, and the audio flows anyway.
   */
  lemma SyncFollowsOneGeneration(s: Streamer, f: FrameInput)
    requires Coherent(s) && s.generationRx.Some? && Dispatching(s) && s.senders != []
    requires forall i :: 0 <= i < |s.senders| ==>
               AudioWire(s.senders[i], AudioFrame(f.payloadType, f.rtp, f.payload, !s.firstPacketSent)).Some?
    ensures var out := Output(s, Frame(f));
            && out.Some?
            && |out.value.wirePackets| == |out.value.syncPackets| == |s.senders|
            && (forall i :: 0 <= i < |s.senders| && out.value.syncPackets[i].Some? ==>
                  && s.generationRx.value.Some?
                  && CarriesGeneration(out.value.syncPackets[i].value, s.generationRx.value.value,
                                       f.localNs, s.renderDelayNs, s.delays[i]))
  {
    hide AudioWire, SyncWire, PrepareFrame, ActualPlan, PtpClockField, InstallGeneration;
    ConsumedClock(s);
    var c := ConsumeGenerations(s);
    var plan := ActualPlan(c, f);
    ActualPlanIsUsable(c, f);
    PreparedPackets(c.senders, c.delays, plan);
    forall i | 0 <= i < |s.senders| ensures AudioWire(c.senders[i], plan.audio).Some? {
      AudioIgnoresSyncState(s.senders[i], c.senders[i], plan.audio);
    }
    forall i | 0 <= i < |s.senders| && plan.syncDue
      ensures var packet := SyncWire(c.senders[i], SyncRequestFor(plan, c.delays[i]));
              packet.Some? ==>
                CarriesGeneration(packet.value, c.generation.value, f.localNs, c.renderDelayNs, c.delays[i])
    {
      PtpSyncContent(c.senders[i], SyncRequestFor(plan, c.delays[i]));
    }
  }

  /** After a clock update of a coherent streamer, its clock is exactly the published generation. */
  lemma ConsumedClock(s: Streamer)
    requires Coherent(s) && s.generationRx.Some?
    ensures var c, g := ConsumeGenerations(s), s.generationRx.value;
            && c.generation == g && c.generationRx == s.generationRx && c.usePtpSync && c.phase == s.phase
            && c.clockOffset == (if g.Some? then Some(g.value.offset) else None)
            && c.masterClockId == (if g.Some? then g.value.masterClockId else NO_CLOCK)
            && c.delays == s.delays && c.renderDelayNs == s.renderDelayNs && c.firstPacketSent == s.firstPacketSent
            && |c.senders| == |s.senders|
            && forall i :: 0 <= i < |s.senders| ==> SameAudioState(s.senders[i], c.senders[i])
  {
  }

  lemma PtpSyncContent(s: Sender, r: SyncRequest)
    requires r.PtpSync?
    ensures var packet := SyncWire(s, r);
            packet.Some? ==>
              && |packet.value| == 28 && packet.value[1] == 0xD7
              && packet.value[8..16] == PtpClockField(r.presentationNs)
              && packet.value[20..28] == r.masterClockId
  {
    hide PtpClockField;
  }

  /** Whatever happens to its sync, a live frame reaches every target as audio unless a cipher fails. */
  lemma AudioAlwaysFlows(s: Streamer, f: FrameInput)
    requires Coherent(s) && Dispatching(s) && s.senders != []
    requires forall i :: 0 <= i < |s.senders| ==>
               AudioWire(s.senders[i], AudioFrame(f.payloadType, f.rtp, f.payload, !s.firstPacketSent)).Some?
    ensures var out := Output(s, Frame(f));
            && out.Some? && |out.value.wirePackets| == |s.senders|
            && forall i :: 0 <= i < |s.senders| ==>
                 Some(out.value.wirePackets[i])
                 == AudioWire(s.senders[i], AudioFrame(f.payloadType, f.rtp, f.payload, !s.firstPacketSent))
  {
    hide AudioWire, SyncWire, PrepareFrame, ActualPlan, ConsumeGenerations;
    var audio := AudioFrame(f.payloadType, f.rtp, f.payload, !s.firstPacketSent);
    var c := ConsumeGenerations(s);
    ConsumeKeepsAudio(s);
    ConsumeKeepsCoherence(s);
    ActualPlanIsUsable(c, f);
    PreparedPackets(c.senders, c.delays, ActualPlan(c, f));
    forall i | 0 <= i < |s.senders| ensures AudioWire(c.senders[i], audio) == AudioWire(s.senders[i], audio) {
      AudioIgnoresSyncState(s.senders[i], c.senders[i], audio);
    }
  }

  lemma ConsumeKeepsAudio(s: Streamer)
    ensures var c := ConsumeGenerations(s);
            && c.phase == s.phase && c.firstPacketSent == s.firstPacketSent && |c.senders| == |s.senders|
            && forall i :: 0 <= i < |s.senders| ==> SameAudioState(s.senders[i], c.senders[i])
  {
  }

  // ------------------------------------------------------------------
  // Sync cadence and the first-sync marking
  // ------------------------------------------------------------------

  /** After a clock-ready frame whose sync was not refused, the last mark is under a second old. */
  lemma SyncMarkIsRecent(s: Streamer, f: FrameInput)
    requires s.sampleRate > 0 && Output(s, Frame(f)).Some?
    requires ClockReady(ConsumeGenerations(s)) && !SyncRejected(ConsumeGenerations(s), f)
    ensures TicksSince(f.rtp, Step(s, Frame(f)).lastSyncRtp) < s.sampleRate
  {
    hide PrepareFrame, MasterAnchor;
    assert TicksSince(f.rtp, f.rtp) == 0;
  }

  /**
   * A due sync of a streaming frame whose sums fit is refused exactly when the master anchor fell,
   * since the recorded one, by at least the render lead plus the smallest delay.
   */
  lemma SyncRefusedExactly(s: Streamer, f: FrameInput)
    requires Coherent(s) && s.senders != [] && PlanFor(ConsumeGenerations(s), f).syncDue
    requires var anchor := MasterAnchor(f.localNs, ConsumeGenerations(s).clockOffset);
             forall i :: 0 <= i < |s.delays| ==> anchor + s.renderDelayNs + s.delays[i] < POW64
    ensures var c := ConsumeGenerations(s);
            SyncRejected(c, f)
            <==> c.lastAnchorNs - MasterAnchor(f.localNs, c.clockOffset) >= s.renderDelayNs + MinDelay(s.delays)
  {
    hide PrepareFrame, ActualPlan, SyncRejected, MasterAnchor, FirstBadDelay;
    var c := ConsumeGenerations(s);
    ActualPlanIsUsable(c, f);
    SmallestDelayDecides(PlanFor(c, f), c.delays);
  }

  lemma SharedPlanParts(s: Streamer, f: FrameInput)
    ensures ActualPlan(s, f).commonNs == MasterAnchor(f.localNs, s.clockOffset)
    ensures ActualPlan(s, f).audio == AudioFrame(f.payloadType, f.rtp, f.payload, !s.firstPacketSent)
  {
    hide PrepareFrame, MasterAnchor;
  }

  /** The anchor a step records: that of a prepared frame with a usable clock. */
  function AnchorOf(s: Streamer, op: Op): Option<u64> {
    var c := ConsumeGenerations(s);
    if Output(s, op).Some? && ClockReady(c) then Some(MasterAnchor(op.input.localNs, c.clockOffset)) else None
  }

  /** Steps that forget the recorded anchor; a frame may do so and then record its own. */
  predicate ForgetsAnchor(s: Streamer, op: Op) {
    op.SubscribeGenerations? || (ReadsGenerations(s, op) && SeesNewMaster(s))
  }

  function AnchorAt(s: Streamer, ops: seq<Op>, k: nat): Option<u64>
    requires k < |ops|
  {
    AnchorOf(StateAt(s, ops, k), ops[k])
  }

  predicate ForgetsAt(s: Streamer, ops: seq<Op>, k: nat) {
    k < |ops| && ForgetsAnchor(StateAt(s, ops, k), ops[k])
  }

  /** Step `j` recorded an anchor, and until step `k` none was recorded or forgotten. */
  ghost predicate LastAnchorAt(s: Streamer, ops: seq<Op>, j: nat, k: nat)
    requires k <= |ops|
  {
    && j < k && AnchorAt(s, ops, j).Some?
    && forall r: nat :: j < r < k ==> AnchorAt(s, ops, r).None? && !ForgetsAt(s, ops, r)
  }

  lemma AnchorAfterStep(s: Streamer, op: Op)
    ensures Step(s, op).lastAnchorNs ==
            if AnchorOf(s, op).Some? then AnchorOf(s, op).value
            else if ForgetsAnchor(s, op) then 0 else s.lastAnchorNs
  {
    hide PreparedStreamFrame, ActualPlan, MasterAnchor, ConsumeGenerations, ClockReady, SetupStep, ClockStep, PhaseStep;
    match op
    case SubscribeGenerations(current) => ConsumeMayForget(Disconnected(s, current));
    case Poll => ConsumeMayForget(s);
    case Frame(f) =>
      ConsumeMayForget(s);
      SharedPlanParts(ConsumeGenerations(s), f);
    case _ => PlainStep(s, op);
  }

  lemma ConsumeMayForget(s: Streamer)
    ensures ConsumeGenerations(s).lastAnchorNs == if SeesNewMaster(s) then 0 else s.lastAnchorNs
  {
  }

  /** Over every run, the recorded anchor is that of the last usable frame not forgotten since, or zero. */
  lemma {:induction false} AnchorIsLastRecorded(s0: Streamer, ops: seq<Op>, k: nat)
    requires s0 == NewStreamer(s0.sampleRate) && k <= |ops|
    ensures var recorded := StateAt(s0, ops, k).lastAnchorNs;
            && (forall j: nat :: LastAnchorAt(s0, ops, j, k) ==> AnchorAt(s0, ops, j) == Some(recorded))
            && ((forall j: nat :: !LastAnchorAt(s0, ops, j, k)) ==> recorded == 0)
  {
    hide Step, AnchorOf, ForgetsAnchor;
    if k > 0 {
      AnchorIsLastRecorded(s0, ops, k - 1);
      AnchorAfterStep(StateAt(s0, ops, k - 1), ops[k - 1]);
      if AnchorAt(s0, ops, k - 1).Some? {
        assert LastAnchorAt(s0, ops, k - 1, k);
      } else if !ForgetsAt(s0, ops, k - 1) {
        AnchorStillLast(s0, ops, k - 1, k);
      }
    }
  }

  /** A step that neither records nor forgets leaves the last anchor where it was. */
  lemma AnchorStillLast(s0: Streamer, ops: seq<Op>, k: nat, next: nat)
    requires k < |ops| && AnchorAt(s0, ops, k).None? && !ForgetsAt(s0, ops, k) && next == k + 1
    ensures forall j: nat :: LastAnchorAt(s0, ops, j, k) <==> LastAnchorAt(s0, ops, j, next)
  {
    hide AnchorAt, ForgetsAt;
    forall j: nat ensures LastAnchorAt(s0, ops, j, k) <==> LastAnchorAt(s0, ops, j, next) {}
  }

  /** The channel now publishes another master clock, or withdrew or announced one. */
  predicate SeesNewMaster(s: Streamer) {
    s.generationRx.Some? && MasterId(s.generationRx.value) != MasterId(s.generation)
  }

  /** Steps that take over what the generation channel publishes. */
  predicate ReadsGenerations(s: Streamer, op: Op) {
    op.Poll? || (op.Frame? && Dispatching(s) && s.senders != [])
  }

  /** Steps after which the next sync of every target counts as its first. */
  predicate Resets(s: Streamer, op: Op) {
    || op.SetSenders? || op.ResetAfterFlush? || op.SubscribeGenerations?
    || (ReadsGenerations(s, op) && SeesNewMaster(s))
  }

  function SyncOf(s: Streamer, op: Op, target: nat): Option<Octets> {
    var out := Output(s, op);
    if out.Some? && target < |out.value.syncPackets| then out.value.syncPackets[target] else None
  }

  predicate ResetAt(s: Streamer, ops: seq<Op>, k: nat) {
    k < |ops| && Resets(StateAt(s, ops, k), ops[k])
  }

  function SyncAt(s: Streamer, ops: seq<Op>, k: nat, target: nat): Option<Octets>
    requires k < |ops|
  {
    SyncOf(StateAt(s, ops, k), ops[k], target)
  }

  predicate Running(s: Streamer) {
    s.phase != Failed
  }

  /** A sync of the target at step `j` that no reset before step `k` has made obsolete. */
  ghost predicate CountsAt(s: Streamer, ops: seq<Op>, j: nat, k: nat, target: nat)
    requires k <= |ops|
  {
    j < k && SyncAt(s, ops, j, target).Some? && forall r: nat :: j < r < k ==> !ResetAt(s, ops, r)
  }

  /** The first octet of a sync packet tells whether the target's flag was clear. */
  lemma SyncShowsFlag(s: Sender, r: SyncRequest)
    ensures SyncWire(s, r).Some? <==> s.controlPort != 0
    ensures SyncWire(s, r).Some? ==>
              |SyncWire(s, r).value| > 0 && SyncWire(s, r).value[0] == SyncType(!s.firstSyncSent)
  {
    hide PtpClockField, UnixToNtp;
  }

  /** A live frame on one target: the clock update may clear its flag, its own sync sets it. */
  lemma FlagAfterFrame(s: Streamer, f: FrameInput, i: nat)
    requires Coherent(s) && Dispatching(s) && i < |FrameStep(s, f).senders|
    requires FrameStep(s, f).phase != Failed
    ensures i < |s.senders|
    ensures var cleared := SeesNewMaster(s) || !s.senders[i].firstSyncSent;
            var sync := SyncOf(s, Frame(f), i);
            && FrameStep(s, f).senders[i].firstSyncSent == (sync.Some? || !cleared)
            && (sync.Some? ==> sync.value != [] && sync.value[0] == SyncType(cleared))
  {
    hide AudioWire, SyncWire, PrepareFrame, ActualPlan, ConsumeGenerations;
    ConsumeTakesChannel(s);
    ConsumeKeepsCoherence(s);
    var c := ConsumeGenerations(s);
    var plan := ActualPlan(c, f);
    PrepareKeepsCount(c.senders, c.delays, plan);
    assert c.senders[i].firstSyncSent == !(SeesNewMaster(s) || !s.senders[i].firstSyncSent);
    ActualPlanIsUsable(c, f);
    PreparedPackets(c.senders, c.delays, plan);
    if plan.syncDue {
      SyncShowsFlag(c.senders[i], SyncRequestFor(plan, c.delays[i]));
    }
  }

  /** One step on one target's flag: reset first, then set by a sync. */
  lemma FlagAfterStep(s: Streamer, op: Op, i: nat)
    requires Coherent(s) && Running(Step(s, op)) && i < |Step(s, op).senders|
    ensures i < |s.senders| || Resets(s, op)
    ensures var cleared := Resets(s, op) || !s.senders[i].firstSyncSent;
            var sync := SyncOf(s, op, i);
            && Step(s, op).senders[i].firstSyncSent == (sync.Some? || !cleared)
            && (sync.Some? ==> sync.value != [] && sync.value[0] == SyncType(cleared))
  {
    hide FrameStep, PreparedStreamFrame, ConsumeGenerations, SetupStep, ClockStep, PhaseStep;
    match op
    case Frame(f) =>
      if Dispatching(s) {
        FlagAfterFrame(s, f, i);
      }
    case Poll => ConsumeTakesChannel(s);
    case SubscribeGenerations(current) => ConsumeTakesChannel(Disconnected(s, current));
    case _ => PlainStep(s, op);
  }

  /** A run that is still running was running before, so it never lost a prepared packet. */
  lemma RunningBefore(s: Streamer, op: Op)
    requires Running(Step(s, op))
    ensures Running(s)
  {
    hide PreparedStreamFrame;
  }

  /** A target's flag is set exactly when some earlier sync of it was not followed by a reset. */
  lemma {:induction false} FlagTellsUnclearedSync(s0: Streamer, ops: seq<Op>, k: nat, i: nat)
    requires s0 == NewStreamer(s0.sampleRate)
    requires k <= |ops| && Running(StateAt(s0, ops, k)) && i < |StateAt(s0, ops, k).senders|
    ensures StateAt(s0, ops, k).senders[i].firstSyncSent <==> exists j: nat :: CountsAt(s0, ops, j, k, i)
  {
    hide Step, Output, Resets;
    if k > 0 {
      var s, op := StateAt(s0, ops, k - 1), ops[k - 1];
      EveryRunIsCoherent(s0.sampleRate, ops, k - 1);
      RunningBefore(s, op);
      FlagAfterStep(s, op, i);
      if SyncAt(s0, ops, k - 1, i).Some? {
        assert CountsAt(s0, ops, k - 1, k, i);
      } else if !ResetAt(s0, ops, k - 1) {
        FlagTellsUnclearedSync(s0, ops, k - 1, i);
        SyncStillCounts(s0, ops, k - 1, k, i);
      } else {
        assert forall j: nat :: CountsAt(s0, ops, j, k, i) ==> j == k - 1;
      }
    }
  }

  /** A step without sync and reset leaves the uncleared syncs as they were. */
  lemma SyncStillCounts(s0: Streamer, ops: seq<Op>, k: nat, next: nat, i: nat)
    requires k < |ops| && SyncAt(s0, ops, k, i).None? && !ResetAt(s0, ops, k) && next == k + 1
    ensures (exists j: nat :: CountsAt(s0, ops, j, k, i)) <==> (exists j: nat :: CountsAt(s0, ops, j, next, i))
  {
    hide SyncAt, ResetAt;
    forall j: nat | CountsAt(s0, ops, j, k, i) ensures CountsAt(s0, ops, j, k + 1, i) {}
    forall j: nat | CountsAt(s0, ops, j, next, i) ensures CountsAt(s0, ops, j, k, i) {}
  }

  /**
   * Over every run, a sync packet starts with 0x90 exactly when every earlier sync of that target
   * was followed by a reset: new senders, a flush, a subscription or another master clock. All
   * others start with 0x80.
   */
  lemma FirstSyncIsMarked(s0: Streamer, ops: seq<Op>, k: nat, i: nat)
    requires s0 == NewStreamer(s0.sampleRate)
    requires k < |ops| && SyncAt(s0, ops, k, i).Some?
    ensures var packet := SyncAt(s0, ops, k, i).value;
            && packet != [] && (packet[0] == 0x90 || packet[0] == 0x80)
            && (packet[0] == 0x90 <==>
                forall j: nat :: j < k && SyncAt(s0, ops, j, i).Some? ==> exists r: nat :: j < r <= k && ResetAt(s0, ops, r))
  {
    hide Step, Output, Resets;
    var s := StateAt(s0, ops, k);
    EveryRunIsCoherent(s0.sampleRate, ops, k);
    SyncMeansDispatching(s, ops[k], i);
    FlagAfterStep(s, ops[k], i);
    if !ResetAt(s0, ops, k) {
      FlagTellsUnclearedSync(s0, ops, k, i);
      if s.senders[i].firstSyncSent {
        var j: nat :| CountsAt(s0, ops, j, k, i);
        assert forall r: nat :: j < r <= k ==> !ResetAt(s0, ops, r);
      } else {
        forall j: nat | j < k && SyncAt(s0, ops, j, i).Some? ensures exists r: nat :: j < r <= k && ResetAt(s0, ops, r) {
          assert !CountsAt(s0, ops, j, k, i);
        }
      }
    }
  }

  lemma SyncMeansDispatching(s: Streamer, op: Op, i: nat)
    requires Coherent(s) && SyncOf(s, op, i).Some?
    ensures Dispatching(s) && Running(Step(s, op)) && i < |Step(s, op).senders|
  {
    hide PrepareFrame, ActualPlan;
    var c := ConsumeGenerations(s);
    PrepareKeepsCount(c.senders, c.delays, ActualPlan(c, op.input));
  }
}
