/** The streamer as the object that is updated in place, proved against the steps of `Streaming`. */
module StreamerObject {
  import opened Bytes
  import opened RtpWire
  import opened RtpSending
  import opened Streaming

  ghost function Models(senders: seq<RtpSender>): (models: seq<Sender>)
    reads senders
    ensures |models| == |senders|
    ensures forall i :: 0 <= i < |senders| ==> models[i] == senders[i].Model()
  {
    seq(|senders|, i requires 0 <= i < |senders| reads senders => senders[i].Model())
  }

  ghost predicate Distinct(senders: seq<RtpSender>) {
    forall i, j :: 0 <= i < j < |senders| ==> senders[i] != senders[j]
  }

  method ResetAll(senders: seq<RtpSender>)
    requires Distinct(senders)
    modifies senders
    ensures Models(senders) == ResetSenders(old(Models(senders)))
  {
    ghost var before := Models(senders);
    for k := 0 to |senders|
      invariant forall i :: 0 <= i < k ==> senders[i].Model() == AfterReset(before[i])
      invariant forall i :: k <= i < |senders| ==> senders[i].Model() == before[i]
    {
      senders[k].ResetSyncState();
    }
  }

  /** First phase: a presentation time for every target, or the first target without one. */
  method ValidateTimes(delays: seq<u64>, plan: FramePlan) returns (times: seq<u64>, bad: Option<PrepareError>)
    ensures bad.Some? <==> FirstBadDelay(plan, delays) < |delays|
    ensures bad.Some? ==>
              var n := FirstBadDelay(plan, delays);
              bad.value == BadPresentationTime(n, PlanTime(plan, delays[n]).error)
    ensures bad.None? ==>
              |times| == |delays| && forall i :: 0 <= i < |times| ==> PlanTime(plan, delays[i]) == Ok(times[i])
  {
    times := [];
    for k := 0 to |delays|
      invariant k <= FirstBadDelay(plan, delays)
      invariant |times| == k && forall i :: 0 <= i < k ==> PlanTime(plan, delays[i]) == Ok(times[i])
    {
      match PresentationTime(plan.commonNs, plan.leadNs, delays[k], plan.referenceNs) {
        case Ok(ns) =>
          times := times + [ns];
        case Err(source) =>
          return times, Some(BadPresentationTime(k, source));
      }
    }
    bad := None;
  }

  /** Second phase: every target builds its own sync packet from its own time. */
  method BuildSyncs(senders: seq<RtpSender>, ghost delays: seq<u64>, times: seq<u64>, plan: FramePlan)
    returns (packets: seq<Option<Octets>>)
    requires Distinct(senders) && |senders| == |times| == |delays|
    requires FirstBadDelay(plan, delays) == |delays|
    requires forall i :: 0 <= i < |times| ==> PlanTime(plan, delays[i]) == Ok(times[i])
    modifies senders
    ensures Models(senders) == AfterSyncs(old(Models(senders)))
    ensures packets == SyncWires(old(Models(senders)), delays, plan)
  {
    hide SyncWire;
    ghost var before := Models(senders);
    packets := [];
    for k := 0 to |senders|
      invariant |packets| == k
      invariant forall i :: 0 <= i < k ==>
                  && senders[i].Model() == AfterSync(before[i])
                  && packets[i] == SyncWire(before[i], SyncRequestFor(plan, delays[i]))
      invariant forall i :: k <= i < |senders| ==> senders[i].Model() == before[i]
    {
      var request := if plan.usePtpSync
        then PtpSync(plan.audio.timestamp, times[k], plan.nextRtp, plan.masterClockId)
        else NtpSync(plan.audio.timestamp, times[k]);
      var packet := senders[k].PrepareSync(request);
      packets := packets + [packet];
    }
  }

  /** Third phase: one shared frame, serialized by every sender until a cipher fails. */
  method BuildAudio(senders: seq<RtpSender>, f: AudioFrame) returns (wires: Option<seq<Octets>>)
    requires Distinct(senders)
    modifies senders
    ensures Models(senders) == AfterAudios(old(Models(senders)), f)
    ensures wires.Some? <==> Encrypting(old(Models(senders)), f) == |senders|
    ensures wires.Some? ==> wires.value == AudioWires(old(Models(senders)), f)
  {
    hide AudioWire, AfterAudio, Encrypting;
    ghost var before := Models(senders);
    var packets: seq<Octets> := [];
    for k := 0 to |senders|
      invariant k <= Encrypting(before, f)
      invariant |packets| == k
      invariant forall i :: 0 <= i < k ==>
                  && senders[i].Model() == AfterAudio(before[i], f)
                  && AudioWire(before[i], f) == Some(packets[i])
      invariant forall i :: k <= i < |senders| ==> senders[i].Model() == before[i]
    {
      var wire := senders[k].PrepareAudio(f);
      if wire.None? {
        return None;
      }
      packets := packets + [wire.value];
    }
    wires := Some(packets);
  }

  /** Serialize one frame for every target; validation precedes the first change of a sender. */
  method PrepareFrameForTargets(senders: seq<RtpSender>, delays: seq<u64>, plan: FramePlan)
    returns (result: Result<PreparedFrame, PrepareError>)
    requires Distinct(senders)
    modifies senders
    ensures Prepared(Models(senders), result) == PrepareFrame(old(Models(senders)), delays, plan)
  {
    hide AudioWire, SyncWire;
    if |senders| != |delays| {
      return Err(TargetCountMismatch(|senders|, |delays|));
    }
    var syncs := NoSyncs(|senders|);
    if plan.syncDue {
      var times, bad := ValidateTimes(delays, plan);
      if bad.Some? {
        return Err(bad.value);
      }
      syncs := BuildSyncs(senders, delays, times, plan);
    }
    var wires := BuildAudio(senders, plan.audio);
    result := if wires.Some? then Ok(PreparedFrame(wires.value, syncs)) else Err(PacketError);
  }

  lemma PhaseOnly(s: Streamer, op: Op)
    requires op.Start? || op.BeginStreaming? || op.Pause? || op.Resume? || op.Stop? || op.Underrun?
    ensures Step(s, op) == s.(phase := NextPhase(s.phase, op))
  {
    hide NextPhase;
  }

  /** A fresh sender per configuration. */
  method BuildSenders(configs: seq<SenderConfig>) returns (senders: seq<RtpSender>)
    ensures Distinct(senders) && Models(senders) == FreshSenders(configs)
    ensures forall r :: r in senders ==> fresh(r)
  {
    senders := [];
    for k := 0 to |configs|
      invariant |senders| == k && Distinct(senders)
      invariant forall i :: 0 <= i < k ==>
                  && fresh(senders[i])
                  && senders[i].Model() == NewSender(configs[i].ssrc, configs[i].cipher, configs[i].controlPort)
    {
      var sender := new RtpSender(configs[k].ssrc, configs[k].cipher, configs[k].controlPort);
      senders := senders + [sender];
    }
  }

  class StreamerInner {
    var phase: Phase
    const sampleRate: u32
    var rtpSenders: seq<RtpSender>
    var delays: seq<u64>
    var lastSyncRtp: u32
    var clockOffset: Option<ClockOffset>
    var timingRx: Option<OffsetWatch>
    var generation: Option<Generation>
    var generationRx: Option<Option<Generation>>
    var firstPacketSent: bool
    var renderDelayNs: u64
    var usePtpSync: bool
    var masterClockId: ClockId
    var lastAnchorNs: u64

    ghost predicate Valid()
      reads this
    {
      Distinct(rtpSenders)
    }

    /** The streamer's own fields, without its senders. */
    ghost function Shell(): Streamer
      reads this
    {
      Streamer(
        phase, sampleRate, [], delays, lastSyncRtp, clockOffset, timingRx, generation,
        generationRx, firstPacketSent, renderDelayNs, usePtpSync, masterClockId, lastAnchorNs)
    }

    ghost function Model(): Streamer
      reads this, rtpSenders
    {
      Shell().(senders := Models(rtpSenders))
    }

    constructor (sampleRate: u32)
      ensures Valid() && Model() == NewStreamer(sampleRate)
    {
      this.phase, this.sampleRate, this.rtpSenders, this.delays, this.lastSyncRtp := Idle, sampleRate, [], [], 0;
      this.clockOffset, this.timingRx, this.generation, this.generationRx := None, None, None, None;
      this.firstPacketSent, this.renderDelayNs, this.usePtpSync := false, 0, false;
      this.masterClockId, this.lastAnchorNs := NO_CLOCK, 0;
    }

    /** Everything but the senders; returns whether the master clock is another one. */
    method RecordGeneration(g: Option<Generation>) returns (changed: bool)
      modifies this
      ensures rtpSenders == old(rtpSenders) && Shell() == WithGeneration(old(Shell()), g)
      ensures changed <==> MasterId(old(Shell()).generation) != MasterId(g)
    {
      changed := MasterId(generation) != MasterId(g);
      generation := g;
      match g {
        case Some(next) =>
          clockOffset, masterClockId := Some(next.offset), next.masterClockId;
        case None =>
          clockOffset, masterClockId := None, NO_CLOCK;
      }
      if changed {
        lastAnchorNs, lastSyncRtp := 0, 0;
      }
    }

    method InstallPtpClockState(g: Option<Generation>)
      requires Valid()
      modifies this, rtpSenders
      ensures Valid() && rtpSenders == old(rtpSenders)
      ensures Model() == InstallGeneration(old(Model()), g)
    {
      hide ResetSenders, Models, Shell;
      ghost var senders := Models(rtpSenders);
      var changed := RecordGeneration(g);
      assert Models(rtpSenders) == senders;
      if changed {
        ResetAll(rtpSenders);
      }
    }

    method ConsumePtpClockUpdates()
      requires Valid()
      modifies this, rtpSenders
      ensures Valid() && rtpSenders == old(rtpSenders)
      ensures Model() == ConsumeGenerations(old(Model()))
    {
      if generationRx.Some? && generationRx.value != generation {
        InstallPtpClockState(generationRx.value);
      }
    }

    method Resubscribe(current: Option<Generation>)
      modifies this
      ensures rtpSenders == old(rtpSenders) && Shell() == Resubscribed(old(Shell()), current)
    {
      usePtpSync, timingRx, generationRx, generation := true, None, Some(current), None;
    }

    method ClearClock()
      modifies this
      ensures rtpSenders == old(rtpSenders) && Shell() == Cleared(old(Shell()))
    {
      clockOffset, masterClockId, lastAnchorNs, lastSyncRtp := None, NO_CLOCK, 0, 0;
    }

    method DisconnectClocks(current: Option<Generation>)
      requires Valid()
      modifies this, rtpSenders
      ensures Valid() && rtpSenders == old(rtpSenders)
      ensures Model() == Disconnected(old(Model()), current)
    {
      hide ResetSenders, Models, Shell;
      ghost var senders := Models(rtpSenders);
      Resubscribe(current);
      ClearClock();
      assert Models(rtpSenders) == senders;
      ResetAll(rtpSenders);
    }

    method SetPtpClockUpdates(current: Option<Generation>)
      requires Valid()
      modifies this, rtpSenders
      ensures Valid() && rtpSenders == old(rtpSenders)
      ensures Model() == ConsumeGenerations(Disconnected(old(Model()), current))
    {
      hide ConsumeGenerations, Disconnected;
      DisconnectClocks(current);
      ConsumePtpClockUpdates();
    }

    method ResetStateAfterFlush()
      requires Valid()
      modifies this, rtpSenders
      ensures Valid() && rtpSenders == old(rtpSenders)
      ensures Model() == Step(old(Model()), ResetAfterFlush)
    {
      firstPacketSent := false;
      ResetAll(rtpSenders);
    }

    method SetTargetPresentationDelays(requested: seq<u64>) returns (accepted: bool)
      requires Valid()
      modifies this
      ensures Valid() && rtpSenders == old(rtpSenders) && Model() == Step(old(Model()), SetDelays(requested))
      ensures accepted <==> old(phase) == Idle && |requested| == |old(rtpSenders)|
    {
      accepted := phase == Idle && |requested| == |rtpSenders|;
      if accepted {
        delays := requested;
      }
    }

    /** Legacy sync mode: with a generation channel the given identity is ignored. */
    method SetPtpSync(clockId: ClockId)
      requires Valid()
      modifies this
      ensures Valid() && rtpSenders == old(rtpSenders) && Model() == Step(old(Model()), SetPtpSyncMode(clockId))
    {
      usePtpSync := true;
      if generationRx.None? {
        masterClockId := clockId;
      }
    }

    /** Legacy offset: ignored with a generation channel. */
    method SetOffset(offset: ClockOffset)
      requires Valid()
      modifies this
      ensures Valid() && rtpSenders == old(rtpSenders) && Model() == Step(old(Model()), SetTimingOffset(offset))
    {
      if generationRx.None? {
        clockOffset := Some(offset);
      }
    }

    /** Clock part of one loop pass. */
    method PollClocks()
      requires Valid()
      modifies this, rtpSenders
      ensures Valid() && rtpSenders == old(rtpSenders)
      ensures Model() == PollStep(old(Model()))
    {
      ConsumePtpClockUpdates();
      if generationRx.None? && timingRx.Some? && timingRx.value.unseen {
        clockOffset := Some(timingRx.value.latest);
        timingRx := Some(timingRx.value.(unseen := false));
      }
    }

    method PrepareStreamFrame(f: FrameInput)
      returns (result: Result<PreparedFrame, PrepareError>, syncEmitted: bool, anchor: Option<u64>)
      requires Valid()
      modifies this, rtpSenders
      ensures Valid() && rtpSenders == old(rtpSenders)
      ensures var s := ConsumeGenerations(old(Model()));
              && Model() == s.(senders := PreparedStreamFrame(s, f).senders)
              && result == PreparedStreamFrame(s, f).result
              && syncEmitted == ActualPlan(s, f).syncDue
              && anchor == if ClockReady(s) then Some(ActualPlan(s, f).commonNs) else None
    {
      hide PrepareFrame;
      ConsumePtpClockUpdates();
      ghost var s := Model();
      var master := MasterAnchor(f.localNs, clockOffset);
      var clockReady := !usePtpSync || generationRx.None? || generation.Some?;
      var marker := !firstPacketSent;
      var syncDue := clockReady
        && (marker || lastSyncRtp == 0 || TicksSince(f.rtp, lastSyncRtp) >= sampleRate);
      var plan := FramePlan(
        AudioFrame(f.payloadType, f.rtp, f.payload, marker), (f.rtp + sampleRate / 44100 * 352) % POW32,
        syncDue, usePtpSync, masterClockId, master, renderDelayNs, lastAnchorNs);
      assert plan == PlanFor(s, f);
      result := PrepareFrameForTargets(rtpSenders, delays, plan);
      if result.Err? && result.error.BadPresentationTime? {
        RefusedFrameChangesNothing(s.senders, delays, plan);
        plan := plan.(syncDue := false);
        result := PrepareFrameForTargets(rtpSenders, delays, plan);
      }
      syncEmitted := plan.syncDue;
      anchor := if clockReady then Some(master) else None;
    }

    method RecordMarks(rtp: u32, synced: bool, anchor: Option<u64>)
      modifies this
      ensures rtpSenders == old(rtpSenders) && Shell() == Marked(old(Shell()), rtp, synced, anchor)
    {
      if synced {
        lastSyncRtp := rtp;
      }
      firstPacketSent := true;
      if anchor.Some? {
        lastAnchorNs := anchor.value;
      }
    }

    method Fail()
      modifies this
      ensures rtpSenders == old(rtpSenders) && Shell() == old(Shell()).(phase := Failed)
    {
      phase := Failed;
    }

    /** One popped frame: prepare it and record the marks, or fail the stream. */
    method RunFrame(f: FrameInput) returns (frame: Option<PreparedFrame>)
      requires Valid() && (phase == Live || phase == Paused)
      modifies this, rtpSenders
      ensures Valid() && rtpSenders == old(rtpSenders)
      ensures Model() == FrameStep(old(Model()), f)
      ensures frame == Output(old(Model()), Frame(f))
    {
      hide PreparedStreamFrame, ActualPlan, ConsumeGenerations, ClockReady, Models, Shell;
      SameCount(rtpSenders);
      IsDispatching();
      if rtpSenders == [] {
        return None;
      }
      var result, syncEmitted, anchor := PrepareStreamFrame(f);
      ghost var senders := Models(rtpSenders);
      if result.Err? {
        Fail();
        assert Models(rtpSenders) == senders;
        return None;
      }
      RecordMarks(f.rtp, syncEmitted, anchor);
      assert Models(rtpSenders) == senders;
      frame := Some(result.value);
    }

    /** New senders with zero delays; they are positional. */
    method SetRtpSenders(configs: seq<SenderConfig>)
      requires Valid()
      modifies this
      ensures Valid() && Model() == Step(old(Model()), SetSenders(configs))
      ensures forall r :: r in rtpSenders ==> fresh(r)
    {
      var senders := BuildSenders(configs);
      rtpSenders, delays := senders, seq(|configs|, _ => 0);
    }

    method SetRenderDelayMs(ms: u32)
      requires Valid()
      modifies this
      ensures Valid() && rtpSenders == old(rtpSenders) && Model() == Step(old(Model()), SetRenderDelay(ms))
    {
      renderDelayNs := ms * 1_000_000;
    }

    /** Legacy offset subscription: ignored with a generation channel. */
    method SetTimingUpdates(watch: OffsetWatch)
      requires Valid()
      modifies this
      ensures Valid() && rtpSenders == old(rtpSenders) && Model() == Step(old(Model()), SubscribeOffsets(watch))
    {
      if generationRx.None? {
        timingRx := Some(watch);
      }
    }

    /** The other end of the generation channel publishes. */
    method GenerationPublished(next: Option<Generation>)
      requires Valid()
      modifies this
      ensures Valid() && rtpSenders == old(rtpSenders) && Model() == Step(old(Model()), PublishGeneration(next))
    {
      if generationRx.Some? {
        generationRx := Some(next);
      }
    }

    /** The other end of the legacy offset channel publishes. */
    method OffsetPublished(offset: ClockOffset)
      requires Valid()
      modifies this
      ensures Valid() && rtpSenders == old(rtpSenders) && Model() == Step(old(Model()), PublishOffset(offset))
    {
      if timingRx.Some? {
        timingRx := Some(OffsetWatch(offset, true));
      }
    }

    method SetPhase(next: Phase)
      requires Valid()
      modifies this
      ensures Valid() && rtpSenders == old(rtpSenders) && Shell() == old(Shell()).(phase := next)
    {
      phase := next;
    }

    /** The calls and events that only move the phase. */
    method ChangePhase(op: Op)
      requires Valid()
      requires op.Start? || op.BeginStreaming? || op.Pause? || op.Resume? || op.Stop? || op.Underrun?
      modifies this
      ensures Valid() && rtpSenders == old(rtpSenders) && Model() == Step(old(Model()), op)
    {
      hide Models, Shell, Step;
      PhaseIs();
      ghost var before, senders := Model(), Models(rtpSenders);
      match op {
        case Start =>
          if phase != Failed {
            SetPhase(Buffering);
          }
        case BeginStreaming =>
          if phase == Buffering {
            SetPhase(Live);
          }
        case Pause =>
          if phase == Live {
            SetPhase(Paused);
          }
        case Resume =>
          if phase == Paused {
            SetPhase(Live);
          }
        case Stop =>
          if phase != Failed {
            SetPhase(Stopped);
          }
        case Underrun =>
          if phase == Live || phase == Paused {
            SetPhase(Buffering);
          }
      }
      assert Models(rtpSenders) == senders;
      PhaseOnly(before, op);
    }

    /** The clock setters and publications. */
    method ChangeClock(op: Op)
      requires Valid()
      requires op.SetPtpSyncMode? || op.PublishGeneration? || op.SetTimingOffset? || op.SubscribeOffsets? || op.PublishOffset?
      modifies this
      ensures Valid() && rtpSenders == old(rtpSenders) && Model() == Step(old(Model()), op)
    {
      hide Step;
      match op {
        case SetPtpSyncMode(id) =>
          SetPtpSync(id);
        case PublishGeneration(next) =>
          GenerationPublished(next);
        case SetTimingOffset(offset) =>
          SetOffset(offset);
        case SubscribeOffsets(watch) =>
          SetTimingUpdates(watch);
        case PublishOffset(offset) =>
          OffsetPublished(offset);
      }
    }

    /** Any call, publication or pass of the loop. */
    method Perform(op: Op) returns (frame: Option<PreparedFrame>)
      requires Valid()
      modifies this, rtpSenders
      ensures Valid() && Model() == Step(old(Model()), op) && frame == Output(old(Model()), op)
      ensures forall r :: r in rtpSenders ==> r in old(rtpSenders) || fresh(r)
    {
      hide FrameStep, PreparedStreamFrame, ConsumeGenerations, PollStep, Disconnected, SetupStep, ClockStep, PhaseStep, Models, Shell;
      frame := None;
      PhaseIs();
      match op {
        case SetSenders(configs) =>
          SetRtpSenders(configs);
        case SetDelays(requested) =>
          var _ := SetTargetPresentationDelays(requested);
        case SetRenderDelay(ms) =>
          SetRenderDelayMs(ms);
        case ResetAfterFlush =>
          ResetStateAfterFlush();
        case SubscribeGenerations(current) =>
          SetPtpClockUpdates(current);
        case Poll =>
          PollClocks();
        case Frame(f) =>
          if phase == Live || phase == Paused {
            frame := RunFrame(f);
          }
        case Start =>
          ChangePhase(op);
        case BeginStreaming =>
          ChangePhase(op);
        case Pause =>
          ChangePhase(op);
        case Resume =>
          ChangePhase(op);
        case Stop =>
          ChangePhase(op);
        case Underrun =>
          ChangePhase(op);
        case _ =>
          ChangeClock(op);
      }
    }

    /** Every run of the object is a run of the state machine, with the same packets handed on. */
    method Run(ops: seq<Op>) returns (frames: seq<Option<PreparedFrame>>)
      requires Valid()
      modifies this, rtpSenders
      ensures Valid() && Model() == StateAt(old(Model()), ops, |ops|)
      ensures |frames| == |ops|
      ensures forall k :: 0 <= k < |ops| ==> frames[k] == Output(StateAt(old(Model()), ops, k), ops[k])
    {
      hide Step, Output, Model, Valid;
      frames := [];
      for k := 0 to |ops|
        invariant Valid() && Model() == StateAt(old(Model()), ops, k)
        invariant forall i :: 0 <= i < |rtpSenders| ==> rtpSenders[i] in old(rtpSenders) || fresh(rtpSenders[i])
        invariant |frames| == k
        invariant forall j :: 0 <= j < k ==> frames[j] == Output(StateAt(old(Model()), ops, j), ops[j])
      {
        ghost var before := rtpSenders;
        var frame := Perform(ops[k]);
        forall i | 0 <= i < |rtpSenders| ensures rtpSenders[i] in old(rtpSenders) || fresh(rtpSenders[i]) {
          var r := rtpSenders[i];
          assert r in rtpSenders;
          if r in before {
            var j :| 0 <= j < |before| && before[j] == r;
          }
        }
        frames := frames + [frame];
      }
    }

    lemma PhaseIs()
      ensures Model().phase == phase
    {
    }

    lemma IsDispatching()
      requires phase == Live || phase == Paused
      ensures Dispatching(Model())
    {
    }
  }

  lemma SameCount(senders: seq<RtpSender>)
    ensures |Models(senders)| == |senders|
  {
  }
}
