/**
 * Two runs that differ only in the per-target presentation delays: calibration can
 * move the clock field of sync packets and nothing else.
 */
module StreamPairs {
  import opened Bytes
  import opened RtpWire
  import opened RtpSending
  import opened Streaming
  import opened StreamRuns

  ghost predicate SameButDelays(a: Op, b: Op) {
    a == b || (a.SetDelays? && b.SetDelays? && |a.delays| == |b.delays|)
  }

  ghost predicate DifferInDelaysOnly(opsA: seq<Op>, opsB: seq<Op>) {
    |opsA| == |opsB| && forall j :: 0 <= j < |opsA| ==> SameButDelays(opsA[j], opsB[j])
  }

  // ------------------------------------------------------------------
  // Audio packets
  // ------------------------------------------------------------------

  ghost predicate SendersAlike(a: seq<Sender>, b: seq<Sender>) {
    |a| == |b| && forall i :: 0 <= i < |a| ==> SameAudioState(a[i], b[i])
  }

  /** States that agree on everything audio packets are made of. */
  ghost predicate AudioAlike(a: Streamer, b: Streamer) {
    && b.(senders := a.senders, delays := a.delays, lastSyncRtp := a.lastSyncRtp) == a
    && |a.delays| == |b.delays|
    && SendersAlike(a.senders, b.senders)
  }

  lemma AudiosAlike(a: seq<Sender>, b: seq<Sender>, f: AudioFrame)
    requires SendersAlike(a, b)
    ensures Encrypting(a, f) == Encrypting(b, f)
    ensures SendersAlike(AfterAudios(a, f), AfterAudios(b, f))
    ensures Encrypting(a, f) == |a| ==> AudioWires(a, f) == AudioWires(b, f)
  {
    hide AudioWire, AfterAudio;
    forall i | 0 <= i < |a|
      ensures AudioWire(a[i], f) == AudioWire(b[i], f) && SameAudioState(AfterAudio(a[i], f), AfterAudio(b[i], f))
    {
      AudioIgnoresSyncState(a[i], b[i], f);
    }
    var n, m := Encrypting(a, f), Encrypting(b, f);
    assert n == m;
  }

  lemma SyncsKeepAlike(a: seq<Sender>, b: seq<Sender>, syncA: bool, syncB: bool)
    requires SendersAlike(a, b)
    ensures SendersAlike(if syncA then AfterSyncs(a) else a, if syncB then AfterSyncs(b) else b)
  {
  }

  lemma PreparedAudioAlike(
    a: seq<Sender>, b: seq<Sender>, delaysA: seq<u64>, delaysB: seq<u64>, planA: FramePlan, planB: FramePlan)
    requires SendersAlike(a, b) && |delaysA| == |delaysB| && planA.audio == planB.audio
    requires planA.syncDue ==> FirstBadDelay(planA, delaysA) == |delaysA|
    requires planB.syncDue ==> FirstBadDelay(planB, delaysB) == |delaysB|
    ensures var p, q := PrepareFrame(a, delaysA, planA), PrepareFrame(b, delaysB, planB);
            && SendersAlike(p.senders, q.senders)
            && (p.result.Ok? <==> q.result.Ok?)
            && (p.result.Ok? ==> p.result.value.wirePackets == q.result.value.wirePackets)
  {
    hide SendersAlike, AudioWires, AfterAudios, SyncWires, Encrypting, FirstBadDelay, NoSyncs;
    AlikeCount(a, b);
    SyncsKeepAlike(a, b, planA.syncDue, planB.syncDue);
    AudiosAlike(
      if planA.syncDue then AfterSyncs(a) else a, if planB.syncDue then AfterSyncs(b) else b, planA.audio);
  }

  lemma AlikeCount(a: seq<Sender>, b: seq<Sender>)
    requires SendersAlike(a, b)
    ensures |a| == |b|
  {
  }

  lemma ConsumeKeepsAlike(a: Streamer, b: Streamer)
    requires AudioAlike(a, b)
    ensures AudioAlike(ConsumeGenerations(a), ConsumeGenerations(b))
  {
  }

  lemma FrameKeepsAlike(a: Streamer, b: Streamer, f: FrameInput)
    requires Coherent(a) && Coherent(b) && AudioAlike(a, b)
    ensures AudioAlike(FrameStep(a, f), FrameStep(b, f))
    ensures var p, q := Output(a, Frame(f)), Output(b, Frame(f));
            && (p.Some? <==> q.Some?)
            && (p.Some? ==> p.value.wirePackets == q.value.wirePackets)
  {
    hide PrepareFrame, ActualPlan, ConsumeGenerations;
    ConsumeKeepsAlike(a, b);
    var c, d := ConsumeGenerations(a), ConsumeGenerations(b);
    CoherentCounts(a);
    CoherentCounts(b);
    ActualPlanIsUsable(c, f);
    ActualPlanIsUsable(d, f);
    SharedPlanParts(c, f);
    SharedPlanParts(d, f);
    PreparedAudioAlike(c.senders, d.senders, c.delays, d.delays, ActualPlan(c, f), ActualPlan(d, f));
  }

  lemma CoherentCounts(s: Streamer)
    requires Coherent(s)
    ensures var c := ConsumeGenerations(s); |c.senders| == |c.delays| == |s.senders| && c.phase == s.phase
  {
  }

  lemma SetupStepKeepsAlike(a: Streamer, b: Streamer, opA: Op, opB: Op)
    requires AudioAlike(a, b) && SameButDelays(opA, opB)
    ensures AudioAlike(SetupStep(a, opA), SetupStep(b, opB))
  {
  }

  lemma SubscribeKeepsAlike(a: Streamer, b: Streamer, current: Option<Generation>)
    requires AudioAlike(a, b)
    ensures AudioAlike(ConsumeGenerations(Disconnected(a, current)), ConsumeGenerations(Disconnected(b, current)))
  {
    hide ConsumeGenerations;
    ConsumeKeepsAlike(Disconnected(a, current), Disconnected(b, current));
  }

  lemma PollKeepsAlike(a: Streamer, b: Streamer)
    requires AudioAlike(a, b)
    ensures AudioAlike(PollStep(a), PollStep(b))
  {
    hide ConsumeGenerations;
    ConsumeKeepsAlike(a, b);
  }

  lemma ClockStepKeepsAlike(a: Streamer, b: Streamer, opA: Op, opB: Op)
    requires AudioAlike(a, b) && SameButDelays(opA, opB)
    ensures AudioAlike(ClockStep(a, opA), ClockStep(b, opB))
  {
  }

  lemma PhaseStepKeepsAlike(a: Streamer, b: Streamer, opA: Op, opB: Op)
    requires AudioAlike(a, b) && SameButDelays(opA, opB)
    ensures AudioAlike(PhaseStep(a, opA), PhaseStep(b, opB))
  {
  }

  /** Only a frame taken while dispatching yields packets, and another frame changes nothing. */
  lemma SilentSteps(s: Streamer, op: Op)
    ensures !op.Frame? || !Dispatching(s) ==> Output(s, op).None?
    ensures op.Frame? ==> Step(s, op) == if Dispatching(s) then FrameStep(s, op.input) else s
  {
    hide FrameStep, PreparedStreamFrame;
  }

  lemma AlikePhases(a: Streamer, b: Streamer)
    requires AudioAlike(a, b)
    ensures a.phase == b.phase
  {
  }

  lemma QuietStepKeepsAlike(a: Streamer, b: Streamer, opA: Op, opB: Op)
    requires AudioAlike(a, b) && SameButDelays(opA, opB) && !opA.Frame?
    ensures AudioAlike(Step(a, opA), Step(b, opB))
  {
    hide AudioAlike, ConsumeGenerations, SetupStep, ClockStep, PhaseStep, PollStep, Disconnected;
    match opA
    case SubscribeGenerations(current) =>
      SubscribeKeepsAlike(a, b, current);
    case Poll =>
      PollKeepsAlike(a, b);
    case _ =>
      SetupStepKeepsAlike(a, b, opA, opB);
      var c, d := SetupStep(a, opA), SetupStep(b, opB);
      ClockStepKeepsAlike(c, d, opA, opB);
      PhaseStepKeepsAlike(ClockStep(c, opA), ClockStep(d, opB), opA, opB);
  }

  lemma StepKeepsAlike(a: Streamer, b: Streamer, opA: Op, opB: Op)
    requires Coherent(a) && Coherent(b) && AudioAlike(a, b) && SameButDelays(opA, opB)
    ensures AudioAlike(Step(a, opA), Step(b, opB))
    ensures var p, q := Output(a, opA), Output(b, opB);
            && (p.Some? <==> q.Some?)
            && (p.Some? ==> p.value.wirePackets == q.value.wirePackets)
  {
    hide Step, FrameStep, Output, AudioAlike, Coherent;
    SilentSteps(a, opA);
    SilentSteps(b, opB);
    AlikePhases(a, b);
    if opA.Frame? && Dispatching(a) {
      FrameKeepsAlike(a, b, opA.input);
    } else if !opA.Frame? {
      QuietStepKeepsAlike(a, b, opA, opB);
    }
  }

  lemma {:induction false} RunsStayAlike(s0: Streamer, opsA: seq<Op>, opsB: seq<Op>, k: nat)
    requires s0 == NewStreamer(s0.sampleRate) && DifferInDelaysOnly(opsA, opsB) && k <= |opsA|
    ensures AudioAlike(StateAt(s0, opsA, k), StateAt(s0, opsB, k))
  {
    hide Step;
    if k > 0 {
      RunsStayAlike(s0, opsA, opsB, k - 1);
      EveryRunIsCoherent(s0.sampleRate, opsA, k - 1);
      EveryRunIsCoherent(s0.sampleRate, opsB, k - 1);
      StepKeepsAlike(StateAt(s0, opsA, k - 1), StateAt(s0, opsB, k - 1), opsA[k - 1], opsB[k - 1]);
    }
  }

  /** Whatever the delays, and even where they cost a frame its sync, the audio packets are the same. */
  lemma DelaysNeverReachAudio(s0: Streamer, opsA: seq<Op>, opsB: seq<Op>, k: nat)
    requires s0 == NewStreamer(s0.sampleRate) && DifferInDelaysOnly(opsA, opsB) && k < |opsA|
    ensures var p, q := Output(StateAt(s0, opsA, k), opsA[k]), Output(StateAt(s0, opsB, k), opsB[k]);
            && (p.Some? <==> q.Some?)
            && (p.Some? ==> p.value.wirePackets == q.value.wirePackets)
  {
    hide Step, Output;
    RunsStayAlike(s0, opsA, opsB, k);
    EveryRunIsCoherent(s0.sampleRate, opsA, k);
    EveryRunIsCoherent(s0.sampleRate, opsB, k);
    StepKeepsAlike(StateAt(s0, opsA, k), StateAt(s0, opsB, k), opsA[k], opsB[k]);
  }

  // ------------------------------------------------------------------
  // Sync packets
  // ------------------------------------------------------------------

  /** States that agree on everything but the delays. */
  ghost predicate DelaysApart(a: Streamer, b: Streamer) {
    b.(delays := a.delays) == a && |a.delays| == |b.delays|
  }

  /** Both absent, or equally long and equal outside octets 8..16. */
  ghost predicate AgreeOutsideClock(p: Option<Octets>, q: Option<Octets>) {
    && (p.Some? <==> q.Some?)
    && (p.Some? ==>
          && |p.value| == |q.value| && |p.value| >= 16
          && p.value[..8] == q.value[..8] && p.value[16..] == q.value[16..])
  }

  ghost predicate FramesAgree(p: Option<PreparedFrame>, q: Option<PreparedFrame>) {
    && (p.Some? <==> q.Some?)
    && (p.Some? ==>
          && p.value.wirePackets == q.value.wirePackets
          && |p.value.syncPackets| == |q.value.syncPackets|
          && forall i :: 0 <= i < |p.value.syncPackets| ==>
               AgreeOutsideClock(p.value.syncPackets[i], q.value.syncPackets[i]))
  }

  lemma SyncsAgree(s: Sender, r: SyncRequest, ns: u64)
    ensures AgreeOutsideClock(SyncWire(s, r), SyncWire(s, r.(presentationNs := ns)))
  {
    hide PtpClockField, UnixToNtp, Be32, Be64;
  }

  predicate Rejects(s: Streamer, op: Op) {
    op.Frame? && SyncRejected(ConsumeGenerations(s), op.input)
  }

  lemma PreparedApart(senders: seq<Sender>, delaysA: seq<u64>, delaysB: seq<u64>, plan: FramePlan)
    requires |senders| == |delaysA| == |delaysB|
    requires plan.syncDue ==> FirstBadDelay(plan, delaysA) == |delaysA| && FirstBadDelay(plan, delaysB) == |delaysB|
    ensures var p, q := PrepareFrame(senders, delaysA, plan), PrepareFrame(senders, delaysB, plan);
            && p.senders == q.senders && (p.result.Ok? <==> q.result.Ok?)
            && (p.result.Ok? ==> FramesAgree(Some(p.result.value), Some(q.result.value)))
  {
    hide AudioWire, SyncWire;
    var p, q := PrepareFrame(senders, delaysA, plan), PrepareFrame(senders, delaysB, plan);
    if p.result.Ok? && plan.syncDue {
      forall i | 0 <= i < |senders|
        ensures AgreeOutsideClock(p.result.value.syncPackets[i], q.result.value.syncPackets[i])
      {
        var r := SyncRequestFor(plan, delaysA[i]);
        SyncsAgree(senders[i], r, SyncRequestFor(plan, delaysB[i]).presentationNs);
      }
    }
  }

  lemma PlansAgree(c: Streamer, d: Streamer, f: FrameInput)
    requires DelaysApart(c, d) && |c.senders| == |c.delays| && SyncRejected(c, f) == SyncRejected(d, f)
    ensures ActualPlan(c, f) == ActualPlan(d, f)
  {
    hide PrepareFrame, MasterAnchor;
    assert PlanFor(c, f) == PlanFor(d, f);
    ActualPlanIsUsable(c, f);
    ActualPlanIsUsable(d, f);
  }

  lemma ConsumeKeepsApart(a: Streamer, b: Streamer)
    requires DelaysApart(a, b)
    ensures DelaysApart(ConsumeGenerations(a), ConsumeGenerations(b))
  {
  }

  lemma FrameKeepsApart(a: Streamer, b: Streamer, f: FrameInput)
    requires Coherent(a) && Coherent(b) && DelaysApart(a, b)
    requires Rejects(a, Frame(f)) == Rejects(b, Frame(f))
    ensures DelaysApart(FrameStep(a, f), FrameStep(b, f))
    ensures FramesAgree(Output(a, Frame(f)), Output(b, Frame(f)))
  {
    hide PrepareFrame, ActualPlan, SyncRejected, ConsumeGenerations;
    ConsumeKeepsApart(a, b);
    CoherentCounts(a);
    CoherentCounts(b);
    var c, d := ConsumeGenerations(a), ConsumeGenerations(b);
    PlansAgree(c, d, f);
    ActualPlanIsUsable(c, f);
    ActualPlanIsUsable(d, f);
    PreparedApart(c.senders, c.delays, d.delays, ActualPlan(c, f));
  }

  lemma SetupStepKeepsApart(a: Streamer, b: Streamer, opA: Op, opB: Op)
    requires DelaysApart(a, b) && SameButDelays(opA, opB)
    ensures DelaysApart(SetupStep(a, opA), SetupStep(b, opB))
  {
  }

  lemma SubscribeKeepsApart(a: Streamer, b: Streamer, current: Option<Generation>)
    requires DelaysApart(a, b)
    ensures DelaysApart(ConsumeGenerations(Disconnected(a, current)), ConsumeGenerations(Disconnected(b, current)))
  {
    hide ConsumeGenerations;
    ConsumeKeepsApart(Disconnected(a, current), Disconnected(b, current));
  }

  lemma PollKeepsApart(a: Streamer, b: Streamer)
    requires DelaysApart(a, b)
    ensures DelaysApart(PollStep(a), PollStep(b))
  {
    hide ConsumeGenerations;
    ConsumeKeepsApart(a, b);
  }

  lemma ClockStepKeepsApart(a: Streamer, b: Streamer, opA: Op, opB: Op)
    requires DelaysApart(a, b) && SameButDelays(opA, opB)
    ensures DelaysApart(ClockStep(a, opA), ClockStep(b, opB))
  {
  }

  lemma PhaseStepKeepsApart(a: Streamer, b: Streamer, opA: Op, opB: Op)
    requires DelaysApart(a, b) && SameButDelays(opA, opB)
    ensures DelaysApart(PhaseStep(a, opA), PhaseStep(b, opB))
  {
  }

  lemma ApartPhases(a: Streamer, b: Streamer)
    requires DelaysApart(a, b)
    ensures a.phase == b.phase
  {
  }

  lemma QuietStepKeepsApart(a: Streamer, b: Streamer, opA: Op, opB: Op)
    requires DelaysApart(a, b) && SameButDelays(opA, opB) && !opA.Frame?
    ensures DelaysApart(Step(a, opA), Step(b, opB))
  {
    hide DelaysApart, ConsumeGenerations, SetupStep, ClockStep, PhaseStep, PollStep, Disconnected;
    match opA
    case SubscribeGenerations(current) =>
      SubscribeKeepsApart(a, b, current);
    case Poll =>
      PollKeepsApart(a, b);
    case _ =>
      SetupStepKeepsApart(a, b, opA, opB);
      var c, d := SetupStep(a, opA), SetupStep(b, opB);
      ClockStepKeepsApart(c, d, opA, opB);
      PhaseStepKeepsApart(ClockStep(c, opA), ClockStep(d, opB), opA, opB);
  }

  lemma StepKeepsApart(a: Streamer, b: Streamer, opA: Op, opB: Op)
    requires Coherent(a) && Coherent(b) && DelaysApart(a, b) && SameButDelays(opA, opB)
    requires Rejects(a, opA) == Rejects(b, opB)
    ensures DelaysApart(Step(a, opA), Step(b, opB))
    ensures FramesAgree(Output(a, opA), Output(b, opB))
  {
    hide Step, FrameStep, Output, Rejects, DelaysApart, Coherent;
    SilentSteps(a, opA);
    SilentSteps(b, opB);
    ApartPhases(a, b);
    if opA.Frame? && Dispatching(a) {
      FrameKeepsApart(a, b, opA.input);
    } else if !opA.Frame? {
      QuietStepKeepsApart(a, b, opA, opB);
    }
  }

  /** The two runs refuse the sync of the same frames, for instance of none. */
  ghost predicate RejectAlike(s0: Streamer, opsA: seq<Op>, opsB: seq<Op>)
    requires |opsA| == |opsB|
  {
    forall j :: 0 <= j < |opsA| ==> Rejects(StateAt(s0, opsA, j), opsA[j]) == Rejects(StateAt(s0, opsB, j), opsB[j])
  }

  lemma {:induction false} RunsStayApart(s0: Streamer, opsA: seq<Op>, opsB: seq<Op>, k: nat)
    requires s0 == NewStreamer(s0.sampleRate) && DifferInDelaysOnly(opsA, opsB) && k <= |opsA|
    requires RejectAlike(s0, opsA, opsB)
    ensures DelaysApart(StateAt(s0, opsA, k), StateAt(s0, opsB, k))
  {
    hide Step, Rejects;
    if k > 0 {
      RunsStayApart(s0, opsA, opsB, k - 1);
      EveryRunIsCoherent(s0.sampleRate, opsA, k - 1);
      EveryRunIsCoherent(s0.sampleRate, opsB, k - 1);
      StepKeepsApart(StateAt(s0, opsA, k - 1), StateAt(s0, opsB, k - 1), opsA[k - 1], opsB[k - 1]);
    }
  }

  /** Runs refusing the same syncs send identical packets but for octets 8..16 of sync packets. */
  lemma DelaysOnlyMoveSyncClock(s0: Streamer, opsA: seq<Op>, opsB: seq<Op>, k: nat)
    requires s0 == NewStreamer(s0.sampleRate) && DifferInDelaysOnly(opsA, opsB) && k < |opsA|
    requires RejectAlike(s0, opsA, opsB)
    ensures FramesAgree(Output(StateAt(s0, opsA, k), opsA[k]), Output(StateAt(s0, opsB, k), opsB[k]))
  {
    hide Step, Rejects, Output;
    RunsStayApart(s0, opsA, opsB, k);
    EveryRunIsCoherent(s0.sampleRate, opsA, k);
    EveryRunIsCoherent(s0.sampleRate, opsB, k);
    StepKeepsApart(StateAt(s0, opsA, k), StateAt(s0, opsB, k), opsA[k], opsB[k]);
  }
}
