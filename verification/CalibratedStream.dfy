/** Calibration as the receivers see it: from signed requests to the clock fields on the wire. */
module CalibratedStream {
  import opened Bytes
  import opened RtpWire
  import opened RtpSending
  import opened Streaming
  import opened StreamRuns
  import opened StreamFields
  import opened StreamPackets
  import opened Calibration
  import GroupConnect

  /** The delays of this call are the normalized calibration in sender order. */
  ghost predicate CarriesCalibration(op: Op, e: Effective, targets: seq<GroupConnect.DeviceId>) {
    && op.SetDelays? && |op.delays| == |targets|
    && forall i :: 0 <= i < |targets| ==> targets[i] in DelaysByDevice(e) && op.delays[i] == DelaysByDevice(e)[targets[i]]
  }

  /** A generation channel exists exactly after a subscription. */
  lemma {:induction false} SubscribedExactly(s0: Streamer, ops: seq<Op>, k: nat)
    requires s0 == NewStreamer(s0.sampleRate) && k <= |ops|
    ensures StateAt(s0, ops, k).generationRx.None? <==> Unsubscribed(ops, k)
  {
    hide Step;
    if k > 0 {
      SubscribedExactly(s0, ops, k - 1);
      StepSubscribes(StateAt(s0, ops, k - 1), ops[k - 1]);
    }
  }

  lemma StepSubscribes(s: Streamer, op: Op)
    ensures Step(s, op).generationRx.None? <==> s.generationRx.None? && !op.SubscribeGenerations?
  {
    hide PreparedStreamFrame, ActualPlan, ConsumeGenerations;
    match op
    case SubscribeGenerations(current) => ConsumeTakesChannel(Disconnected(s, current));
    case Poll => ConsumeTakesChannel(s);
    case Frame(_) => ConsumeTakesChannel(s);
    case _ =>
  }

  /** The accepted delays are the streamer's, as long as no later call replaces them. */
  lemma CalibrationArrives(s0: Streamer, ops: seq<Op>, k: nat, given: nat)
    requires s0 == NewStreamer(s0.sampleRate) && k <= |ops|
    requires LastWrite(DelayWrites(ops), given, k) && ops[given].SetDelays?
    ensures StateAt(s0, ops, k).delays == ops[given].delays
  {
    hide LastWrite;
    DelaysAreLastAccepted(s0, ops, k);
    assert DelayWrites(ops)(given) == Some(StateAt(s0, ops, k).delays);
  }

  /** A sync packet of a run, read below 2^32 seconds: local time on the master's timeline, lead and delay. */
  ghost predicate ReadsDue(packet: Octets, f: FrameInput, g: Generation, leadNs: int, delayNs: int) {
    |packet| == 28
    && forall t :: OnMasterTimeline(t, f.localNs, Some(g.offset)) && t + leadNs + delayNs < 0x1_0000_0000 * 1_000_000_000 ==>
         ReadClockField(packet[8..16]) == t + leadNs + delayNs
  }

  lemma SyncReadsDue(s: Streamer, f: FrameInput, i: nat)
    requires Coherent(s) && s.generationRx.Some? && Reaches(s, f) && i < |s.senders|
    ensures var out := Output(s, Frame(f));
            && out.Some? && i < |out.value.syncPackets|
            && (out.value.syncPackets[i].Some? ==>
                  && s.generationRx.value.Some?
                  && ReadsDue(out.value.syncPackets[i].value, f, s.generationRx.value.value, s.renderDelayNs, s.delays[i]))
  {
    hide Output, Reaches, Coherent, ReadClockField;
    SubscribedSyncSays(s, f, i);
  }

  /**
   * On every run, once calibration has been accepted, the clock fields of two targets of one PT=87
   * frame, decoded below 2^32 seconds, differ by exactly the difference of the signed requests; a
   * receiver without an entry counts as requesting zero.
   */
  lemma ReceiversReadRequestedDifference(
    s0: Streamer, ops: seq<Op>, k: nat, given: nat,
    active: set<ReceiverId>, profile: Profile, e: Effective, targets: seq<GroupConnect.DeviceId>, i: nat, j: nat)
    requires s0 == NewStreamer(s0.sampleRate) && k < |ops| && ops[k].Frame? && !Unsubscribed(ops, k)
    requires Output(StateAt(s0, ops, k), ops[k]).Some?
    requires IsNormalized(active, profile, e)
    requires LastWrite(DelayWrites(ops), given, k) && CarriesCalibration(ops[given], e, targets)
    requires i < |targets| && j < |targets|
    ensures var s, f, out := StateAt(s0, ops, k), ops[k].input, Output(StateAt(s0, ops, k), ops[k]).value;
            && i < |out.syncPackets| && j < |out.syncPackets|
            && (out.syncPackets[i].Some? && out.syncPackets[j].Some? ==>
                  var a, b, r, q := out.syncPackets[i].value, out.syncPackets[j].value, ReceiverId(targets[i]), ReceiverId(targets[j]);
                  && |a| == |b| == 28 && s.generationRx.Some? && s.generationRx.value.Some?
                  && forall t ::
                       && OnMasterTimeline(t, f.localNs, Some(s.generationRx.value.value.offset))
                       && t + s.renderDelayNs + ops[given].delays[i] < 0x1_0000_0000 * 1_000_000_000
                       && t + s.renderDelayNs + ops[given].delays[j] < 0x1_0000_0000 * 1_000_000_000 ==>
                         ReadClockField(a[8..16]) - ReadClockField(b[8..16])
                         == (if r in profile.requested then profile.requested[r] else 0)
                            - (if q in profile.requested then profile.requested[q] else 0))
  {
    hide StateAt, Output, ReadClockField, OnMasterTimeline, Coherent, NewStreamer, Requested, DelaysByDevice, Reaches, LastWrite, Unsubscribed;
    var s, f := StateAt(s0, ops, k), ops[k].input;
    EveryRunIsCoherent(s0.sampleRate, ops, k);
    SubscribedExactly(s0, ops, k);
    CalibrationArrives(s0, ops, k, given);
    CoherentCount(s);
    OutputReaches(s, f);
    SyncReadsDue(s, f, i);
    SyncReadsDue(s, f, j);
    DelayIsShiftedRequest(active, profile, e, targets[i]);
    DelayIsShiftedRequest(active, profile, e, targets[j]);
  }

  lemma CoherentCount(s: Streamer)
    requires Coherent(s)
    ensures |s.delays| == |s.senders|
  {
  }

  lemma DelayIsShiftedRequest(active: set<ReceiverId>, profile: Profile, e: Effective, id: GroupConnect.DeviceId)
    requires IsNormalized(active, profile, e) && id in DelaysByDevice(e)
    ensures DelaysByDevice(e)[id] ==
            (if ReceiverId(id) in profile.requested then profile.requested[ReceiverId(id)] else 0) - e.minimum
  {
    assert ReceiverId(id).mac in DelaysByDevice(e);
  }
}
