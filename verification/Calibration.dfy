/**
 * Signed calibration requests on their way to the receivers: normalized against the
 * active selection, re-keyed, mapped onto sender order and added to the anchor.
 */
module Calibration {
  import opened Bytes
  import opened Streaming
  import opened GroupConnect

  /** The backend's receiver identity; the same six MAC octets as a `DeviceId`. */
  datatype ReceiverId = ReceiverId(mac: DeviceId)

  datatype Profile = Profile(reference: Option<ReceiverId>, requested: map<ReceiverId, i64>)

  datatype Effective = Effective(minimum: i64, delays: map<ReceiverId, u64>)

  datatype CalibrationError = EmptySelection | ReferenceNotInSelection | ArithmeticOverflow

  function Requested(profile: Profile, r: ReceiverId): i64 {
    if r in profile.requested then profile.requested[r] else 0
  }

  /** `m` is the smallest request of the selection. */
  ghost predicate IsMinimum(active: set<ReceiverId>, profile: Profile, m: i64) {
    && (exists r :: r in active && Requested(profile, r) == m)
    && forall r :: r in active ==> m <= Requested(profile, r)
  }

  method MinimumRequested(active: set<ReceiverId>, profile: Profile) returns (m: i64)
    requires active != {}
    ensures IsMinimum(active, profile, m)
  {
    var first :| first in active;
    m := Requested(profile, first);
    var rest := active - {first};
    while rest != {}
      invariant rest <= active
      invariant exists r :: r in active && Requested(profile, r) == m
      invariant forall r :: r in active && r !in rest ==> m <= Requested(profile, r)
      decreases rest
    {
      var r :| r in rest;
      if Requested(profile, r) < m {
        m := Requested(profile, r);
      }
      rest := rest - {r};
    }
  }

  /** What success means: one delay per active receiver, each its request above the smallest. */
  ghost predicate IsNormalized(active: set<ReceiverId>, profile: Profile, e: Effective) {
    && IsMinimum(active, profile, e.minimum)
    && e.delays.Keys == active
    && forall r :: r in active ==> e.delays[r] == Requested(profile, r) - e.minimum
  }

  /**
   * Shift every active request so that the smallest becomes zero. The difference of two 64-bit
   * requests always fits, so the overflow answer is never given.
   */
  method NormalizeCalibration(active: set<ReceiverId>, profile: Profile)
    returns (result: Result<Effective, CalibrationError>)
    ensures result == Err(EmptySelection) <==> active == {}
    ensures result == Err(ReferenceNotInSelection) <==>
              active != {} && profile.reference.Some? && profile.reference.value !in active
    ensures result != Err(ArithmeticOverflow)
    ensures result.Ok? ==> IsNormalized(active, profile, result.value)
  {
    if active == {} {
      return Err(EmptySelection);
    }
    if profile.reference.Some? && profile.reference.value !in active {
      return Err(ReferenceNotInSelection);
    }
    var minimum := MinimumRequested(active, profile);
    var delays: map<ReceiverId, u64> := map[];
    var rest := active;
    while rest != {}
      invariant rest <= active && delays.Keys == active - rest
      invariant forall r :: r in delays ==> delays[r] == Requested(profile, r) - minimum
      decreases rest
    {
      var r :| r in rest;
      var shifted := Requested(profile, r) as int - minimum as int;
      if !(0 <= shifted < POW64) {
        return Err(ArithmeticOverflow);
      }
      delays := delays[r := shifted];
      rest := rest - {r};
    }
    result := Ok(Effective(minimum, delays));
  }

  /** Normalization has one answer, and it depends on the active requests up to a common shift. */
  lemma NormalizedUpToShift(active: set<ReceiverId>, p: Profile, q: Profile, shift: int, e: Effective, f: Effective)
    requires IsNormalized(active, p, e) && IsNormalized(active, q, f)
    requires forall r :: r in active ==> Requested(q, r) == Requested(p, r) + shift
    ensures e.delays == f.delays && f.minimum == e.minimum + shift
    ensures exists r :: r in active && e.delays[r] == 0
  {
    var r :| r in active && Requested(p, r) == e.minimum;
    var t :| t in active && Requested(q, t) == f.minimum;
    assert e.delays[r] == 0;
  }

  /** Re-keying loses no receiver: both identities wrap the same octets. */
  function DelaysByDevice(e: Effective): (m: map<DeviceId, u64>)
    ensures forall r :: r in e.delays <==> r.mac in m
    ensures forall r :: r in e.delays ==> m[r.mac] == e.delays[r]
    ensures |m| == |e.delays|
  {
    var m := map r | r in e.delays :: r.mac := e.delays[r];
    RekeyCount(m.Keys, e.delays.Keys);
    m
  }

  lemma {:induction false} RekeyCount(ids: set<DeviceId>, receivers: set<ReceiverId>)
    requires forall r :: r in receivers <==> r.mac in ids
    ensures |ids| == |receivers|
    decreases receivers
  {
    if receivers == {} {
      assert forall id :: id in ids ==> ReceiverId(id) in receivers;
      assert ids == {};
    } else {
      var r :| r in receivers;
      RekeyCount(ids - {r.mac}, receivers - {r});
    }
  }

  predicate NoDuplicates(targets: seq<DeviceId>) {
    forall i, j :: 0 <= i < j < |targets| ==> targets[i] != targets[j]
  }

  lemma {:induction false} IdSetSize(targets: seq<DeviceId>)
    ensures |IdSet(targets)| <= |targets|
    ensures |IdSet(targets)| == |targets| <==> NoDuplicates(targets)
  {
    if targets != [] {
      var init, last := targets[..|targets| - 1], targets[|targets| - 1];
      IdSetSize(init);
      assert targets == init + [last];
      assert IdSet(targets) == IdSet(init) + {last};
      if last in init {
        var i :| 0 <= i < |init| && init[i] == last;
        assert targets[i] == targets[|targets| - 1];
        assert IdSet(targets) == IdSet(init);
      }
    }
  }

  /**
   * Delays in sender order. A target without an entry, or an entry count that differs from the
   * target count, is refused.
   */
  method MapPresentationDelays(targets: seq<DeviceId>, delays: map<DeviceId, u64>)
    returns (result: Option<seq<u64>>)
    ensures result.Some? <==> IdSet(targets) <= delays.Keys && |delays| == |targets|
    ensures result.Some? ==>
              && |result.value| == |targets|
              && forall i :: 0 <= i < |targets| ==> targets[i] in delays && result.value[i] == delays[targets[i]]
  {
    var mapped: seq<u64> := [];
    var missing := 0;
    for k := 0 to |targets|
      invariant |mapped| == k && missing >= 0
      invariant missing == 0 <==> forall i :: 0 <= i < k ==> targets[i] in delays
      invariant forall i :: 0 <= i < k && targets[i] in delays ==> mapped[i] == delays[targets[i]]
    {
      if targets[k] in delays {
        mapped := mapped + [delays[targets[k]]];
      } else {
        missing := missing + 1;
        mapped := mapped + [0];
      }
    }
    if missing > 0 || |delays| != |targets| {
      return None;
    }
    result := Some(mapped);
  }

  /**
   * A mapping that was accepted has exactly the targets as keys if and only if no target is
   * listed twice; distinct targets are accepted exactly when the keys match them.
   */
  lemma AcceptedKeysAreTargets(targets: seq<DeviceId>, delays: map<DeviceId, u64>)
    ensures IdSet(targets) <= delays.Keys && |delays| == |targets| ==>
              (delays.Keys == IdSet(targets) <==> NoDuplicates(targets))
    ensures NoDuplicates(targets) ==>
              (IdSet(targets) <= delays.Keys && |delays| == |targets| <==> delays.Keys == IdSet(targets))
  {
    IdSetSize(targets);
    assert |delays| == |delays.Keys|;
    if IdSet(targets) <= delays.Keys && |IdSet(targets)| == |delays.Keys| {
      assert |delays.Keys - IdSet(targets)| == 0;
    }
  }

  /** Without distinctness the acceptance test lets a foreign receiver's entry through. */
  lemma RepeatedTargetHidesForeignEntry()
    ensures var targets, delays := [1, 1], map[1 := 5 as u64, 2 := 7];
            IdSet(targets) <= delays.Keys && |delays| == |targets| && delays.Keys != IdSet(targets)
  {
    var delays := map[1 := 5 as u64, 2 := 7];
    assert delays.Keys == {1, 2};
    assert IdSet([1, 1]) == {1};
    assert 2 in delays.Keys;
  }

  lemma TimesDifferAsDelays(commonNs: u64, leadNs: u64, d1: u64, d2: u64, referenceNs: u64)
    ensures var a, b := PresentationTime(commonNs, leadNs, d1, referenceNs), PresentationTime(commonNs, leadNs, d2, referenceNs);
            a.Ok? && b.Ok? ==> a.value - b.value == d1 - d2
  {
  }

  /**
   * End to end: after normalizing, re-keying, mapping and adding to the anchor, two receivers
   * present exactly as far apart as their signed requests, and some receiver at the bare lead.
   */
  lemma PresentationKeepsRequestedDifference(
    active: set<ReceiverId>, profile: Profile, e: Effective, targets: seq<DeviceId>, delays: seq<u64>,
    commonNs: u64, leadNs: u64, referenceNs: u64)
    requires IsNormalized(active, profile, e)
    requires IdSet(targets) <= DelaysByDevice(e).Keys && |DelaysByDevice(e)| == |targets| == |delays|
    requires forall i :: 0 <= i < |targets| ==> targets[i] in DelaysByDevice(e) && delays[i] == DelaysByDevice(e)[targets[i]]
    ensures forall i, j :: 0 <= i < |targets| && 0 <= j < |targets| ==>
              var a, b := PresentationTime(commonNs, leadNs, delays[i], referenceNs),
                          PresentationTime(commonNs, leadNs, delays[j], referenceNs);
              a.Ok? && b.Ok? ==>
                a.value - b.value
                == Requested(profile, ReceiverId(targets[i])) - Requested(profile, ReceiverId(targets[j]))
    ensures NoDuplicates(targets) ==> exists i :: 0 <= i < |targets| && delays[i] == 0
    ensures NoDuplicates(targets) ==> forall r :: r in active <==> r.mac in targets
  {
    hide PresentationTime, DelaysByDevice, Requested;
    forall i | 0 <= i < |targets|
      ensures delays[i] == Requested(profile, ReceiverId(targets[i])) - e.minimum
    {
      assert ReceiverId(targets[i]).mac in DelaysByDevice(e);
    }
    forall d1: u64, d2: u64 { TimesDifferAsDelays(commonNs, leadNs, d1, d2, referenceNs); }
    if NoDuplicates(targets) {
      AcceptedKeysAreTargets(targets, DelaysByDevice(e));
      var r :| r in active && Requested(profile, r) == e.minimum;
      assert r.mac in IdSet(targets);
      var i :| 0 <= i < |targets| && targets[i] == r.mac;
      assert ReceiverId(targets[i]) == r;
      assert delays[i] == 0;
    }
  }

  /**
   * The same for the session of a group connect, whose targets are the connected members, primary
   * first: no entry is foreign, two members present as far apart as requested, one at the bare lead.
   */
  lemma GroupPresentsAsRequested(
    devices: seq<Device>, preferred: Option<DeviceId>, w: World, attempt: nat,
    active: set<ReceiverId>, profile: Profile, e: Effective, delays: seq<u64>,
    commonNs: u64, leadNs: u64, referenceNs: u64)
    requires DistinctIds(devices) && IsNormalized(active, profile, e)
    requires var targets, m := ConnectOutcome(devices, preferred, w, attempt).report.connected, DelaysByDevice(e);
             && IdSet(targets) <= m.Keys && |m| == |targets| == |delays|
             && forall i :: 0 <= i < |targets| ==> targets[i] in m && delays[i] == m[targets[i]]
    ensures var targets := ConnectOutcome(devices, preferred, w, attempt).report.connected;
            && (forall r :: r in active <==> r.mac in targets)
            && (exists i :: 0 <= i < |targets| && delays[i] == 0)
            && forall i, j :: 0 <= i < |targets| && 0 <= j < |targets| ==>
                 var a, b := PresentationTime(commonNs, leadNs, delays[i], referenceNs),
                             PresentationTime(commonNs, leadNs, delays[j], referenceNs);
                 a.Ok? && b.Ok? ==>
                   a.value - b.value
                   == Requested(profile, ReceiverId(targets[i])) - Requested(profile, ReceiverId(targets[j]))
  {
    hide ConnectOutcome, IsNormalized, DelaysByDevice, PresentationTime, Requested;
    ConnectedAreDistinct(devices, preferred, w, attempt);
    var targets := ConnectOutcome(devices, preferred, w, attempt).report.connected;
    PresentationKeepsRequestedDifference(active, profile, e, targets, delays, commonNs, leadNs, referenceNs);
  }
}
