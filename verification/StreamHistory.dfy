/**
 * What a streamer can retransmit: each target's history against the packets that were really
 * handed to that target.
 */
module StreamHistory {
  import opened Bytes
  import opened RtpWire
  import opened RtpSending
  import opened Streaming
  import opened StreamRuns

  /** The audio packet a step hands on for a target, if it does. */
  function AudioOf(s: Streamer, op: Op, target: nat): seq<Octets> {
    var out := Output(s, op);
    if out.Some? && target < |out.value.wirePackets| then [out.value.wirePackets[target]] else []
  }

  /** All audio packets handed on for a target before step `k`, since its senders were last set. */
  function TargetLog(s: Streamer, ops: seq<Op>, k: nat, target: nat): seq<Octets>
    requires k <= |ops|
  {
    if k == 0 || ops[k - 1].SetSenders? then []
    else TargetLog(s, ops, k - 1, target) + AudioOf(StateAt(s, ops, k - 1), ops[k - 1], target)
  }

  /** The ring does not depend on the sync state. */
  lemma SameRing(a: Sender, b: Sender, log: seq<Octets>)
    requires SameAudioState(a, b) && RingHolds(a, log)
    ensures RingHolds(b, log)
  {
  }

  lemma AudioKeepsRing(s: Sender, f: AudioFrame, log: seq<Octets>)
    requires RingHolds(s, log) && AudioWire(s, f).Some?
    ensures RingHolds(AfterAudio(s, f), log + [AudioWire(s, f).value])
  {
    hide RingHolds;
    StoreKeepsRing(s, log, AudioWire(s, f).value);
  }

  /** A prepared frame on one target. */
  lemma PreparedKeepsRing(s: Streamer, f: FrameInput, i: nat, log: seq<Octets>)
    requires Coherent(s) && i < |s.senders| && RingHolds(s.senders[i], log)
    requires PreparedStreamFrame(ConsumeGenerations(s), f).result.Ok?
    ensures var p := PreparedStreamFrame(ConsumeGenerations(s), f);
            && i < |p.senders| && i < |p.result.value.wirePackets|
            && RingHolds(p.senders[i], log + [p.result.value.wirePackets[i]])
  {
    hide AudioWire, PrepareFrame, ActualPlan, ConsumeGenerations, RingHolds;
    var c := ConsumeGenerations(s);
    var plan := ActualPlan(c, f);
    ConsumeKeepsCoherence(s);
    ConsumeKeepsAudio(s);
    ActualPlanIsUsable(c, f);
    PreparedPackets(c.senders, c.delays, plan);
    var t := if plan.syncDue then AfterSync(c.senders[i]) else c.senders[i];
    SameRing(s.senders[i], c.senders[i], log);
    SameRing(c.senders[i], t, log);
    AudioIgnoresSyncState(c.senders[i], t, plan.audio);
    AudioKeepsRing(t, plan.audio, log);
  }

  /** One step on one target's ring. */
  lemma StepKeepsRing(s: Streamer, op: Op, i: nat, log: seq<Octets>)
    requires Coherent(s) && Running(Step(s, op)) && i < |Step(s, op).senders|
    requires !op.SetSenders? && i < |s.senders| ==> RingHolds(s.senders[i], log)
    ensures !op.SetSenders? ==> i < |s.senders|
    ensures RingHolds(Step(s, op).senders[i], if op.SetSenders? then [] else log + AudioOf(s, op, i))
  {
    hide RingHolds, PreparedStreamFrame, ConsumeGenerations, SetupStep, ClockStep, PhaseStep;
    assert log + [] == log;
    match op
    case Frame(f) =>
      if Dispatching(s) && s.senders != [] {
        ConsumeKeepsAudio(s);
        FrameKeepsCount(s, f);
        PreparedKeepsRing(s, f, i, log);
      }
    case Poll =>
      ConsumeKeepsAudio(s);
      SameRing(s.senders[i], ConsumeGenerations(s).senders[i], log);
    case SubscribeGenerations(current) =>
      var d := Disconnected(s, current);
      ConsumeKeepsAudio(d);
      SameRing(s.senders[i], d.senders[i], log);
      SameRing(d.senders[i], ConsumeGenerations(d).senders[i], log);
    case SetSenders(_) =>
      PlainStep(s, op);
      NewSenderRing(Step(s, op).senders[i]);
    case _ =>
      PlainStep(s, op);
      SameRing(s.senders[i], Step(s, op).senders[i], log);
  }

  lemma FrameKeepsCount(s: Streamer, f: FrameInput)
    requires Coherent(s)
    ensures |FrameStep(s, f).senders| == |s.senders|
  {
    hide PrepareFrame, ActualPlan, ConsumeGenerations;
    ConsumeKeepsAudio(s);
    var c := ConsumeGenerations(s);
    PrepareKeepsCount(c.senders, c.delays, ActualPlan(c, f));
  }

  /** Over every run not yet failed, each target's ring holds the recent part of what it was sent. */
  lemma {:induction false} HistoryIsWhatWasSent(s0: Streamer, ops: seq<Op>, k: nat, i: nat)
    requires s0 == NewStreamer(s0.sampleRate)
    requires k <= |ops| && Running(StateAt(s0, ops, k)) && i < |StateAt(s0, ops, k).senders|
    ensures RingHolds(StateAt(s0, ops, k).senders[i], TargetLog(s0, ops, k, i))
  {
    hide Step, Output, RingHolds;
    if k > 0 {
      var s, op := StateAt(s0, ops, k - 1), ops[k - 1];
      EveryRunIsCoherent(s0.sampleRate, ops, k - 1);
      RunningBefore(s, op);
      if !op.SetSenders? && i < |s.senders| {
        HistoryIsWhatWasSent(s0, ops, k - 1, i);
        StepKeepsRing(s, op, i, TargetLog(s0, ops, k - 1, i));
      } else {
        StepKeepsRing(s, op, i, []);
      }
    }
  }

  /**
   * Over every run not yet failed, a retransmit request to a target is answered, in request order, by
   * exactly those of its last 512 packets since its senders were set whose sequence it names, each
   * octet for octet as it was handed to that target.
   */
  lemma RetransmitsWhatWasSent(s0: Streamer, ops: seq<Op>, k: nat, i: nat, first: u16, count: u16)
    requires s0 == NewStreamer(s0.sampleRate)
    requires k <= |ops| && Running(StateAt(s0, ops, k)) && i < |StateAt(s0, ops, k).senders|
    ensures ServedFrom(StateAt(s0, ops, k).senders[i], TargetLog(s0, ops, k, i), first, count)
  {
    hide RingHolds, ServedFrom;
    HistoryIsWhatWasSent(s0, ops, k, i);
    RingServes(StateAt(s0, ops, k).senders[i], TargetLog(s0, ops, k, i), first, count);
  }

  /** The counters of that request, as numbers of slots the target's own packets do or do not cover. */
  lemma RetransmitCountsWhatWasSent(
    s0: Streamer, ops: seq<Op>, k: nat, i: nat, first: u16, count: u16, bound: bool, net: nat -> SendResult)
    requires s0 == NewStreamer(s0.sampleRate)
    requires k <= |ops| && Running(StateAt(s0, ops, k)) && i < |StateAt(s0, ops, k).senders|
    ensures var o := RequestOutcome(StateAt(s0, ops, k).senders[i], first, count, bound, net);
            var served := Served(TargetLog(s0, ops, k, i), first, count);
            && o.misses == |Missed(TargetLog(s0, ops, k, i), first, count)|
            && o.accepted == |set n | n in served && bound && net(n).Sent? && net(n).octets > 0|
            && o.failures == |set n | n in served && (!bound || net(n).SendError?)|
  {
    hide RingHolds;
    HistoryIsWhatWasSent(s0, ops, k, i);
    OutcomeCountsSlots(StateAt(s0, ops, k).senders[i], TargetLog(s0, ops, k, i), first, count, bound, net);
  }
}
