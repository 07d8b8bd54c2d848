/**
 * One encoded frame for many targets: presentation clocks, sync cadence and the
 * PTP clock generations a streamer follows.
 *
 * `Streamer` is the streamer's state as a value; `Step` says what every call and
 * every pass of the streaming loop does to it, and the theorems quantify over
 * all runs of such steps.
 */
module Streaming {
  import opened Bytes
  import opened RtpWire
  import opened RtpSending

  // ------------------------------------------------------------------
  // Presentation times
  // ------------------------------------------------------------------

  datatype PresentationError = Overflow | NotInFuture

  /** Checked sum of anchor, render lead and delay; it must lie strictly after `referenceNs`. */
  function PresentationTime(commonNs: u64, leadNs: u64, delayNs: u64, referenceNs: u64)
    : Result<u64, PresentationError>
  {
    if commonNs + leadNs >= POW64 || commonNs + leadNs + delayNs >= POW64 then Err(Overflow)
    else if commonNs + leadNs + delayNs <= referenceNs then Err(NotInFuture)
    else Ok(commonNs + leadNs + delayNs)
  }

  /** Offsets are measured as local minus master. */
  datatype ClockOffset = ClockOffset(offsetNs: i64, errorNs: u64, rttNs: u64)

  /** One complete published view of the clock domain: identity and offset together. */
  datatype Generation = Generation(masterClockId: ClockId, offset: ClockOffset)

  function LocalToMaster(localNs: u64, offsetNs: i64): Option<u64> {
    if 0 <= localNs - offsetNs < POW64 then Some(localNs - offsetNs) else None
  }

  /** Local time on the master timeline; unconverted when there is no offset or no room. */
  function MasterAnchor(localNs: u64, offset: Option<ClockOffset>): u64 {
    if offset.None? then localNs
    else
      var master := LocalToMaster(localNs, offset.value.offsetNs);
      if master.Some? then master.value else localNs
  }

  // ------------------------------------------------------------------
  // One frame for every target
  // ------------------------------------------------------------------

  datatype FramePlan = FramePlan(
    audio: AudioFrame, nextRtp: u32, syncDue: bool, usePtpSync: bool, masterClockId: ClockId,
    commonNs: u64, leadNs: u64, referenceNs: u64)

  datatype PrepareError =
    | TargetCountMismatch(targets: nat, delays: nat)
    | BadPresentationTime(index: nat, source: PresentationError)
    | PacketError

  datatype PreparedFrame = PreparedFrame(wirePackets: seq<Octets>, syncPackets: seq<Option<Octets>>)

  datatype Prepared = Prepared(senders: seq<Sender>, result: Result<PreparedFrame, PrepareError>)

  function PlanTime(plan: FramePlan, delayNs: u64): Result<u64, PresentationError> {
    PresentationTime(plan.commonNs, plan.leadNs, delayNs, plan.referenceNs)
  }

  /** Index of the first delay without a presentation time, or the number of delays. */
  function FirstBadDelay(plan: FramePlan, delays: seq<u64>): (n: nat)
    ensures n <= |delays|
    ensures forall i :: 0 <= i < n ==> PlanTime(plan, delays[i]).Ok?
    ensures n < |delays| ==> PlanTime(plan, delays[n]).Err?
  {
    if delays == [] || PlanTime(plan, delays[0]).Err? then 0
    else 1 + FirstBadDelay(plan, delays[1..])
  }

  function SyncRequestFor(plan: FramePlan, delayNs: u64): SyncRequest
    requires PlanTime(plan, delayNs).Ok?
  {
    var ns := PlanTime(plan, delayNs).value;
    if plan.usePtpSync then PtpSync(plan.audio.timestamp, ns, plan.nextRtp, plan.masterClockId)
    else NtpSync(plan.audio.timestamp, ns)
  }

  function AfterSyncs(senders: seq<Sender>): seq<Sender> {
    seq(|senders|, i requires 0 <= i < |senders| => AfterSync(senders[i]))
  }

  function SyncWires(senders: seq<Sender>, delays: seq<u64>, plan: FramePlan): seq<Option<Octets>>
    requires |senders| == |delays| && FirstBadDelay(plan, delays) == |delays|
  {
    seq(|senders|, i requires 0 <= i < |senders| => SyncWire(senders[i], SyncRequestFor(plan, delays[i])))
  }

  /** Number of leading senders whose cipher accepts the frame. */
  function Encrypting(senders: seq<Sender>, f: AudioFrame): (n: nat)
    ensures n <= |senders|
    ensures forall i :: 0 <= i < n ==> AudioWire(senders[i], f).Some?
    ensures n < |senders| ==> AudioWire(senders[n], f).None?
  {
    if senders == [] || AudioWire(senders[0], f).None? then 0
    else 1 + Encrypting(senders[1..], f)
  }

  /** Serializing stops at the first encryption error: the senders before it have advanced. */
  function AfterAudios(senders: seq<Sender>, f: AudioFrame): seq<Sender> {
    seq(|senders|, i requires 0 <= i < |senders| =>
      if i < Encrypting(senders, f) then AfterAudio(senders[i], f) else senders[i])
  }

  function AudioWires(senders: seq<Sender>, f: AudioFrame): seq<Octets>
    requires Encrypting(senders, f) == |senders|
  {
    seq(|senders|, i requires 0 <= i < |senders| => AudioWire(senders[i], f).value)
  }

  function NoSyncs(n: nat): seq<Option<Octets>> {
    seq(n, _ => None)
  }

  /** Validate every presentation time, then build all sync packets, then all audio packets. */
  function PrepareFrame(senders: seq<Sender>, delays: seq<u64>, plan: FramePlan): Prepared {
    if |senders| != |delays| then
      Prepared(senders, Err(TargetCountMismatch(|senders|, |delays|)))
    else if plan.syncDue && FirstBadDelay(plan, delays) < |delays| then
      var bad := FirstBadDelay(plan, delays);
      Prepared(senders, Err(BadPresentationTime(bad, PlanTime(plan, delays[bad]).error)))
    else
      var syncs := if plan.syncDue then SyncWires(senders, delays, plan) else NoSyncs(|senders|);
      var synced := if plan.syncDue then AfterSyncs(senders) else senders;
      Prepared(
        AfterAudios(synced, plan.audio),
        if Encrypting(synced, plan.audio) < |synced| then Err(PacketError)
        else Ok(PreparedFrame(AudioWires(synced, plan.audio), syncs)))
  }

  /** A frame refused for its count or for a presentation time changes no sender. */
  lemma RefusedFrameChangesNothing(senders: seq<Sender>, delays: seq<u64>, plan: FramePlan)
    ensures var p := PrepareFrame(senders, delays, plan);
            p.result.Err? && p.result.error != PacketError ==> p.senders == senders
    ensures var p := PrepareFrame(senders, delays, plan);
            p.result == Err(TargetCountMismatch(|senders|, |delays|)) <==> |senders| != |delays|
  {
  }

  function MinDelay(delays: seq<u64>): (m: u64)
    requires delays != []
    ensures m in delays && forall i :: 0 <= i < |delays| ==> m <= delays[i]
  {
    if |delays| == 1 then delays[0]
    else
      var m := MinDelay(delays[1..]);
      if delays[0] <= m then delays[0] else m
  }

  /** Some delay is too early exactly when the smallest one is. */
  lemma {:induction false} SmallestDelayDecides(plan: FramePlan, delays: seq<u64>)
    requires delays != []
    requires forall i :: 0 <= i < |delays| ==> plan.commonNs + plan.leadNs + delays[i] < POW64
    ensures FirstBadDelay(plan, delays) < |delays|
            <==> plan.referenceNs - plan.commonNs >= plan.leadNs + MinDelay(delays)
    ensures forall i :: 0 <= i < |delays| ==> PlanTime(plan, delays[i]) != Err(Overflow)
  {
    var bad, m := FirstBadDelay(plan, delays), MinDelay(delays);
    var k :| 0 <= k < |delays| && delays[k] == m;
    assert plan.referenceNs - plan.commonNs >= plan.leadNs + m ==> PlanTime(plan, delays[k]).Err?;
  }

  /**
   * When no sum overflows, a sync-due frame is refused as not in the future exactly when the
   * master anchor fell by at least the render lead plus the smallest delay.
   */
  lemma {:induction false} NotInFutureExactly(senders: seq<Sender>, delays: seq<u64>, plan: FramePlan)
    requires plan.syncDue && |senders| == |delays| > 0
    requires forall i :: 0 <= i < |delays| ==> plan.commonNs + plan.leadNs + delays[i] < POW64
    ensures var result := PrepareFrame(senders, delays, plan).result;
            result.Err? && result.error.BadPresentationTime? && result.error.source == NotInFuture
            <==> plan.referenceNs - plan.commonNs >= plan.leadNs + MinDelay(delays)
  {
    SmallestDelayDecides(plan, delays);
    var bad := FirstBadDelay(plan, delays);
    if bad < |delays| {
      assert PlanTime(plan, delays[bad]) == Err(NotInFuture);
    }
  }

  // ------------------------------------------------------------------
  // The streamer
  // ------------------------------------------------------------------

  datatype Phase = Idle | Buffering | Live | Paused | Stopped | Failed

  /** The legacy offset channel: its latest value and whether that value is still unseen. */
  datatype OffsetWatch = OffsetWatch(latest: ClockOffset, unseen: bool)

  /** `generationRx` holds the value the generation channel currently publishes. */
  datatype Streamer = Streamer(
    phase: Phase, sampleRate: u32, senders: seq<Sender>, delays: seq<u64>, lastSyncRtp: u32,
    clockOffset: Option<ClockOffset>, timingRx: Option<OffsetWatch>,
    generation: Option<Generation>, generationRx: Option<Option<Generation>>,
    firstPacketSent: bool, renderDelayNs: u64, usePtpSync: bool, masterClockId: ClockId, lastAnchorNs: u64)

  const NO_CLOCK: ClockId := [0, 0, 0, 0, 0, 0, 0, 0]

  function NewStreamer(sampleRate: u32): Streamer {
    Streamer(Idle, sampleRate, [], [], 0, None, None, None, None, false, 0, false, NO_CLOCK, 0)
  }

  function ResetSenders(senders: seq<Sender>): seq<Sender> {
    seq(|senders|, i requires 0 <= i < |senders| => AfterReset(senders[i]))
  }

  function MasterId(g: Option<Generation>): Option<ClockId> {
    if g.Some? then Some(g.value.masterClockId) else None
  }

  /** Offset and identity change together; another identity also clears both marks. */
  function WithGeneration(s: Streamer, g: Option<Generation>): Streamer {
    var same := MasterId(s.generation) == MasterId(g);
    s.(
      generation := g,
      clockOffset := if g.Some? then Some(g.value.offset) else None,
      masterClockId := if g.Some? then g.value.masterClockId else NO_CLOCK,
      lastAnchorNs := if same then s.lastAnchorNs else 0,
      lastSyncRtp := if same then s.lastSyncRtp else 0)
  }

  function InstallGeneration(s: Streamer, g: Option<Generation>): Streamer {
    WithGeneration(s, g).(
      senders := if MasterId(s.generation) == MasterId(g) then s.senders else ResetSenders(s.senders))
  }

  function ConsumeGenerations(s: Streamer): Streamer {
    if s.generationRx.Some? && s.generationRx.value != s.generation
    then InstallGeneration(s, s.generationRx.value) else s
  }

  predicate ClockReady(s: Streamer) {
    !s.usePtpSync || s.generationRx.None? || s.generation.Some?
  }

  /** RTP ticks from `earlier` to `later`, modulo 2^32. */
  function TicksSince(later: u32, earlier: u32): u32 {
    (later - earlier) % POW32
  }

  datatype FrameInput = FrameInput(payloadType: byte, rtp: u32, payload: Octets, localNs: u64)

  function PlanFor(s: Streamer, f: FrameInput): FramePlan {
    var marker := !s.firstPacketSent;
    FramePlan(
      AudioFrame(f.payloadType, f.rtp, f.payload, marker),
      (f.rtp + s.sampleRate / 44100 * 352) % POW32,
      ClockReady(s) && (marker || s.lastSyncRtp == 0 || TicksSince(f.rtp, s.lastSyncRtp) >= s.sampleRate),
      s.usePtpSync, s.masterClockId,
      MasterAnchor(f.localNs, s.clockOffset), s.renderDelayNs, s.lastAnchorNs)
  }

  /** Bad presentation times cost the frame its sync packets, not its audio. */
  function ActualPlan(s: Streamer, f: FrameInput): FramePlan {
    var plan := PlanFor(s, f);
    if PrepareFrame(s.senders, s.delays, plan).result.Err?
       && PrepareFrame(s.senders, s.delays, plan).result.error.BadPresentationTime?
    then plan.(syncDue := false) else plan
  }

  predicate SyncRejected(s: Streamer, f: FrameInput) {
    PlanFor(s, f).syncDue && !ActualPlan(s, f).syncDue
  }

  function PreparedStreamFrame(s: Streamer, f: FrameInput): Prepared {
    PrepareFrame(s.senders, s.delays, ActualPlan(s, f))
  }

  /** The marks recorded after a prepared frame. */
  function Marked(s: Streamer, rtp: u32, synced: bool, anchor: Option<u64>): Streamer {
    s.(
      lastSyncRtp := if synced then rtp else s.lastSyncRtp,
      firstPacketSent := true,
      lastAnchorNs := if anchor.Some? then anchor.value else s.lastAnchorNs)
  }

  /** One frame of the streaming loop: clock update, preparation, then the recorded marks. */
  function FrameStep(s0: Streamer, f: FrameInput): Streamer {
    if s0.senders == [] then s0
    else
      var s := ConsumeGenerations(s0);
      var plan, p := ActualPlan(s, f), PreparedStreamFrame(s, f);
      if p.result.Err? then s.(senders := p.senders, phase := Failed)
      else Marked(s.(senders := p.senders), f.rtp, plan.syncDue, if ClockReady(s) then Some(plan.commonNs) else None)
  }

  datatype SenderConfig = SenderConfig(ssrc: u32, cipher: Option<Cipher>, controlPort: u16)

  function FreshSenders(configs: seq<SenderConfig>): seq<Sender> {
    seq(|configs|, i requires 0 <= i < |configs| =>
      NewSender(configs[i].ssrc, configs[i].cipher, configs[i].controlPort))
  }

  function Zeros(n: nat): seq<u64> {
    seq(n, _ => 0)
  }

  /** Calls into the streamer, publications on its channels, and passes of its loop. */
  datatype Op =
    | SetSenders(configs: seq<SenderConfig>)
    | SetDelays(delays: seq<u64>)
    | SetRenderDelay(ms: u32)
    | SetPtpSyncMode(clockId: ClockId)
    | SubscribeGenerations(current: Option<Generation>)
    | PublishGeneration(next: Option<Generation>)
    | SetTimingOffset(offset: ClockOffset)
    | SubscribeOffsets(watch: OffsetWatch)
    | PublishOffset(offset: ClockOffset)
    | ResetAfterFlush
    | Start
    | BeginStreaming
    | Pause
    | Resume
    | Stop
    | Poll
    | Underrun
    | Frame(input: FrameInput)

  function Resubscribed(s: Streamer, current: Option<Generation>): Streamer {
    s.(usePtpSync := true, timingRx := None, generationRx := Some(current), generation := None)
  }

  function Cleared(s: Streamer): Streamer {
    s.(clockOffset := None, masterClockId := NO_CLOCK, lastAnchorNs := 0, lastSyncRtp := 0)
  }

  /** A new subscription forgets every earlier clock source before its first value is read. */
  function Disconnected(s: Streamer, current: Option<Generation>): Streamer {
    Cleared(Resubscribed(s, current)).(senders := ResetSenders(s.senders))
  }

  /** Clock part of a loop pass; the legacy channel is read only without a generation channel. */
  function PollStep(s0: Streamer): Streamer {
    var s := ConsumeGenerations(s0);
    if s.generationRx.None? && s.timingRx.Some? && s.timingRx.value.unseen
    then s.(clockOffset := Some(s.timingRx.value.latest), timingRx := Some(s.timingRx.value.(unseen := false)))
    else s
  }

  /**
   * The loop checks for a pause and takes a frame under two separate locks, so a pause that falls
   * in between does not keep that frame, or an underrun, from happening.
   */
  predicate Dispatching(s: Streamer) {
    s.phase == Live || s.phase == Paused
  }

  /** The clock setters and publications that only store something. */
  function ClockStep(s: Streamer, op: Op): Streamer {
    match op
    case SetPtpSyncMode(id) =>
      s.(usePtpSync := true, masterClockId := if s.generationRx.None? then id else s.masterClockId)
    case PublishGeneration(next) => if s.generationRx.Some? then s.(generationRx := Some(next)) else s
    case SetTimingOffset(offset) => if s.generationRx.None? then s.(clockOffset := Some(offset)) else s
    case SubscribeOffsets(watch) => if s.generationRx.None? then s.(timingRx := Some(watch)) else s
    case PublishOffset(offset) =>
      if s.timingRx.Some? then s.(timingRx := Some(OffsetWatch(offset, true))) else s
    case _ => s
  }

  /** The calls and events that move the phase; a stream whose frame could not be prepared stays failed. */
  function NextPhase(phase: Phase, op: Op): Phase {
    match op
    case Start => if phase == Failed then phase else Buffering
    case BeginStreaming => if phase == Buffering then Live else phase
    case Pause => if phase == Live then Paused else phase
    case Resume => if phase == Paused then Live else phase
    case Stop => if phase == Failed then phase else Stopped
    case Underrun => if phase == Live || phase == Paused then Buffering else phase
    case _ => phase
  }

  function PhaseStep(s: Streamer, op: Op): Streamer {
    s.(phase := NextPhase(s.phase, op))
  }

  /** Senders, delays and flush; delays are taken only while idle. */
  function SetupStep(s: Streamer, op: Op): Streamer {
    match op
    case SetSenders(configs) => s.(senders := FreshSenders(configs), delays := Zeros(|configs|))
    case SetDelays(delays) =>
      if s.phase == Idle && |delays| == |s.senders| then s.(delays := delays) else s
    case SetRenderDelay(ms) => s.(renderDelayNs := ms * 1_000_000)
    case ResetAfterFlush => s.(firstPacketSent := false, senders := ResetSenders(s.senders))
    case _ => s
  }

  function Step(s: Streamer, op: Op): Streamer {
    match op
    case SubscribeGenerations(current) => ConsumeGenerations(Disconnected(s, current))
    case Poll => PollStep(s)
    case Frame(f) => if Dispatching(s) then FrameStep(s, f) else s
    case _ => PhaseStep(ClockStep(SetupStep(s, op), op), op)
  }

  /** The packets a step hands to the sender thread, if it prepares a frame. */
  function Output(s: Streamer, op: Op): Option<PreparedFrame> {
    if op.Frame? && Dispatching(s) && s.senders != []
       && PreparedStreamFrame(ConsumeGenerations(s), op.input).result.Ok?
    then Some(PreparedStreamFrame(ConsumeGenerations(s), op.input).result.value)
    else None
  }

  /** State before step `k` of a run, that is, after its first `k` steps. */
  function StateAt(s: Streamer, ops: seq<Op>, k: nat): Streamer
    requires k <= |ops|
  {
    if k == 0 then s else Step(StateAt(s, ops, k - 1), ops[k - 1])
  }
}
