/**
 * In which order a report lists its failures: by the stage of the attempt in which a member
 * failed, and by input position only within one stage.
 */
module GroupFailures {
  import opened Bytes
  import opened GroupConnect

  // ------------------------------------------------------------------
  // Input order
  // ------------------------------------------------------------------

  /** `x` stands before `y` in `devices`. */
  ghost predicate Before(devices: seq<Device>, x: Device, y: Device) {
    exists i, j :: 0 <= i < j < |devices| && devices[i] == x && devices[j] == y
  }

  /** `some` lists its devices in the order of `devices`. */
  ghost predicate Follows(some: seq<Device>, devices: seq<Device>) {
    forall a, b :: 0 <= a < b < |some| ==> Before(devices, some[a], some[b])
  }

  lemma FollowsThrough(a: seq<Device>, b: seq<Device>, c: seq<Device>)
    requires Follows(a, b) && Follows(b, c)
    ensures Follows(a, c)
  {
    forall i, j | 0 <= i < j < |a| ensures Before(c, a[i], a[j]) {
      assert Before(b, a[i], a[j]);
      var k, l :| 0 <= k < l < |b| && b[k] == a[i] && b[l] == a[j];
      assert Before(c, b[k], b[l]);
    }
  }

  lemma BeforeOneWay(devices: seq<Device>, x: Device, y: Device)
    requires DistinctIds(devices) && Before(devices, x, y)
    ensures !Before(devices, y, x)
  {
  }

  lemma {:induction false} FilterFollows(devices: seq<Device>, p: Device -> bool)
    ensures Follows(Filter(devices, p), devices)
  {
    hide Filter;
    if devices == [] {
      FilterEmpty(p);
    } else {
      var init, last := devices[..|devices| - 1], devices[|devices| - 1];
      assert devices == init + [last];
      FilterFollows(init, p);
      FilterSnoc(init, last, p);
      var r := Filter(init, p);
      forall a, b | 0 <= a < b < |Filter(devices, p)|
        ensures Before(devices, Filter(devices, p)[a], Filter(devices, p)[b])
      {
        if b < |r| {
          var i, j :| 0 <= i < j < |init| && init[i] == r[a] && init[j] == r[b];
          assert devices[i] == r[a] && devices[j] == r[b];
        } else {
          assert r[a] in r;
          var i :| 0 <= i < |init| && init[i] == r[a];
          assert devices[i] == r[a] && devices[|init|] == last;
        }
      }
    }
  }

  lemma FilterStillFollows(members: seq<Device>, devices: seq<Device>, p: Device -> bool)
    requires Follows(members, devices)
    ensures Follows(Filter(members, p), devices)
  {
    hide Filter;
    FilterFollows(members, p);
    FollowsThrough(Filter(members, p), members, devices);
  }

  lemma {:induction false} ElectionFollows(
    members: seq<Device>, preferred: Option<DeviceId>, tries: nat, w: World, devices: seq<Device>)
    requires Follows(members, devices)
    ensures Follows(Elect(members, preferred, tries, w).members, devices)
    decreases tries
  {
    hide Filter, Elect, FailingChoice, Follows;
    ElectStep(members, preferred, tries, w);
    var failing := FailingChoice(members, preferred, tries, w);
    if failing.Some? {
      FilterStillFollows(members, devices, Not(Is(failing.value.id)));
      ElectionFollows(Without(members, failing.value), None, tries - 1, w, devices);
    }
  }

  /** At most `tries` candidates fail; each live member is a failed candidate or still a member. */
  lemma {:induction false} FailedCandidates(members: seq<Device>, preferred: Option<DeviceId>, tries: nat, w: World)
    requires DistinctIds(members)
    ensures var e := Elect(members, preferred, tries, w);
            && |e.failed| <= tries && DistinctIds(e.failed)
            && (forall d :: d in e.failed ==> d in members && d !in e.members)
            && (forall d :: d in members ==> d in e.failed || d in e.members)
    decreases tries
  {
    hide Elect, FailingChoice;
    ElectStep(members, preferred, tries, w);
    var failing := FailingChoice(members, preferred, tries, w);
    if failing.Some? {
      var left := Without(members, failing.value);
      FailedCandidates(left, None, tries - 1, w);
      ElectionKeepsMembers(left, None, tries - 1, w);
      forall d | d in members && d != failing.value ensures d in left {
        SameIdApart(members, d, failing.value);
      }
      var later := Elect(left, None, tries - 1, w).failed;
      forall i | 0 <= i < |later| ensures later[i].id != failing.value.id {
        assert later[i] in later;
      }
    }
  }

  lemma SameIdApart(devices: seq<Device>, x: Device, y: Device)
    requires DistinctIds(devices) && x in devices && y in devices && x != y
    ensures x.id != y.id
  {
  }

  /** What the election of an attempt on `devices` leaves behind. */
  ghost predicate Sound(devices: seq<Device>, e: Election, w: World) {
    && |e.failed| <= 2 && DistinctIds(e.failed) && DistinctIds(e.members) && Follows(e.members, devices)
    && (forall d :: d in e.failed ==> d in devices && Up(w)(d) && d !in e.members)
    && (forall d :: d in e.members ==> d in devices && Up(w)(d))
    && (forall d :: d in devices && Up(w)(d) ==> d in e.failed || d in e.members)
    && (e.primary.Some? ==> e.primary.value in e.members)
  }

  lemma ElectionIsSound(devices: seq<Device>, preferred: Option<DeviceId>, w: World)
    requires DistinctIds(devices)
    ensures Sound(devices, ElectionOf(devices, preferred, w), w)
  {
    hide Elect, Follows;
    var live := Filter(devices, Up(w));
    FilterFollows(devices, Up(w));
    ElectionFollows(live, preferred, 2, w, devices);
    ElectionKeepsMembers(live, preferred, 2, w);
    FailedCandidates(live, preferred, 2, w);
  }

  // ------------------------------------------------------------------
  // Who fails, and when
  // ------------------------------------------------------------------

  function ElectionOf(devices: seq<Device>, preferred: Option<DeviceId>, w: World): Election {
    Elect(Filter(devices, Up(w)), preferred, 2, w)
  }

  function Lost(e: Election, w: World): seq<Device> {
    if e.primary.None? then [] else Filter(Without(e.members, e.primary.value), Not(Joins(w)))
  }

  /** The elected primary is left alone and cannot be reconnected over NTP. */
  predicate SoloFails(e: Election, w: World) {
    && e.primary.Some?
    && Filter(Without(e.members, e.primary.value), Joins(w)) == []
    && SoloAttempt(e.primary.value, w, 0).link.None?
  }

  /** The failing devices in report order. */
  function FailedDevices(devices: seq<Device>, e: Election, w: World): seq<Device> {
    Filter(devices, Not(Up(w))) + e.failed + Lost(e, w) + (if SoloFails(e, w) then [e.primary.value] else [])
  }

  lemma SoloFailures(p: Device, w: World, attempt: nat)
    ensures var r := SoloAttempt(p, w, attempt);
            Receivers(r.failures) == if SoloAttempt(p, w, 0).link.None? then [p.id] else []
  {
  }

  lemma MapConcat<T>(a: seq<Device>, b: seq<Device>, f: Device -> T)
    ensures Map(a + b, f) == Map(a, f) + Map(b, f)
  {
  }

  lemma FailuresAreFailedDevices(devices: seq<Device>, preferred: Option<DeviceId>, w: World, attempt: nat)
    ensures Receivers(ConnectOutcome(devices, preferred, w, attempt).report.failures)
         == Map(FailedDevices(devices, ElectionOf(devices, preferred, w), w), IdOf())
  {
    hide Filter, Map, Elect, Failures, Receivers, SoloAttempt;
    var e := ElectionOf(devices, preferred, w);
    var o := Elected(devices, e, w, attempt);
    var down := Filter(devices, Not(Up(w)));
    FailuresNameMembers(devices, e, w);
    MapConcat(down, e.failed, IdOf());
    var failures := o.report.failures;
    if e.primary.Some? {
      var p := e.primary.value;
      LostReceivers(failures, Lost(e, w), w);
      MapConcat(down + e.failed, Lost(e, w), IdOf());
      SoloFailures(p, w, attempt);
      ReceiversConcat(failures + Map(Lost(e, w), JoinFailure(w)), SoloAttempt(p, w, attempt).failures);
      MapConcat(down + e.failed + Lost(e, w), [p], IdOf());
      MapHead(p, [], IdOf());
      assert [p] + [] == [p];
      assert Map([], IdOf()) == [];
    }
    var listed := down + e.failed + Lost(e, w);
    assert listed + [] == listed;
    assert e.primary.None? ==> listed == down + e.failed;
  }

  /**
   * The stage in which a device fails, if it does: establishing, the first and the second try as
   * primary, joining, and reconnecting alone.
   */
  function Stage(d: Device, e: Election, w: World): Option<nat> {
    if !w(d.id).establish.Established? then Some(0)
    else if |e.failed| > 0 && d == e.failed[0] then Some(1)
    else if |e.failed| > 1 && d == e.failed[1] then Some(2)
    else if e.primary.None? then None
    else if d == e.primary.value then if SoloFails(e, w) then Some(4) else None
    else if Joins(w)(d) then None else Some(3)
  }

  /** The four parts of the failure list, each of one stage and in input order. */
  lemma DownStage(devices: seq<Device>, e: Election, w: World, d: Device)
    ensures d in Filter(devices, Not(Up(w))) <==> d in devices && Stage(d, e, w) == Some(0)
  {
    hide SoloFails;
  }

  lemma TriedStage(devices: seq<Device>, e: Election, w: World, a: nat)
    requires Sound(devices, e, w) && a < |e.failed|
    ensures Stage(e.failed[a], e, w) == Some(1 + a) && e.failed[a] in devices
  {
    hide SoloFails, Follows;
    assert e.failed[a] in e.failed;
    assert a == 1 ==> e.failed[0].id != e.failed[1].id;
  }

  lemma CandidateStage(devices: seq<Device>, e: Election, w: World, d: Device)
    requires Sound(devices, e, w) && d in devices
    ensures d in e.failed <==> Stage(d, e, w) == Some(1) || Stage(d, e, w) == Some(2)
  {
    hide SoloFails, Follows, DistinctIds;
    assert |e.failed| > 0 ==> e.failed[0] in e.failed;
    assert |e.failed| > 1 ==> e.failed[1] in e.failed;
    if d in e.failed {
      var i :| 0 <= i < |e.failed| && e.failed[i] == d;
    }
  }

  lemma LostIsMember(e: Election, w: World, d: Device)
    requires DistinctIds(e.members) && (e.primary.Some? ==> e.primary.value in e.members)
    ensures d in Lost(e, w) <==> e.primary.Some? && d in e.members && d != e.primary.value && !Joins(w)(d)
  {
    if e.primary.Some? && d in e.members && d != e.primary.value {
      SameIdApart(e.members, d, e.primary.value);
    }
  }

  lemma LostStage(devices: seq<Device>, e: Election, w: World, d: Device)
    requires Sound(devices, e, w)
    ensures d in Lost(e, w) <==> d in devices && Stage(d, e, w) == Some(3)
  {
    hide SoloFails, Follows, DistinctIds, Lost;
    LostIsMember(e, w, d);
    if d in devices {
      CandidateStage(devices, e, w, d);
    }
  }

  lemma SoloStage(devices: seq<Device>, e: Election, w: World, d: Device)
    requires Sound(devices, e, w)
    ensures SoloFails(e, w) && d == e.primary.value <==> d in devices && Stage(d, e, w) == Some(4)
  {
    hide Filter, SoloAttempt, Follows;
    assert |e.failed| > 0 ==> e.failed[0] in e.failed;
    assert |e.failed| > 1 ==> e.failed[1] in e.failed;
  }

  /** The failure list, position by position. */
  lemma StageAt(devices: seq<Device>, e: Election, w: World, a: nat)
    requires Sound(devices, e, w) && a < |FailedDevices(devices, e, w)|
    ensures var failed := FailedDevices(devices, e, w);
            var n := |Filter(devices, Not(Up(w)))|;
            var m := n + |e.failed|;
            && failed[a] in devices
            && Stage(failed[a], e, w) ==
               if a < n then Some(0) else if a < m then Some(1 + a - n) else if a < m + |Lost(e, w)| then Some(3) else Some(4)
  {
    hide Filter, Lost, SoloFails, Stage, Sound;
    var failed, down := FailedDevices(devices, e, w), Filter(devices, Not(Up(w)));
    var n, m := |down|, |down| + |e.failed|;
    if a < n {
      assert failed[a] == down[a] && down[a] in down;
      DownStage(devices, e, w, failed[a]);
    } else if a < m {
      TriedStage(devices, e, w, a - n);
    } else if a < m + |Lost(e, w)| {
      assert failed[a] == Lost(e, w)[a - m] && failed[a] in Lost(e, w);
      LostStage(devices, e, w, failed[a]);
    } else {
      SoloStage(devices, e, w, failed[a]);
    }
  }

  lemma LostFollows(devices: seq<Device>, e: Election, w: World)
    requires Sound(devices, e, w)
    ensures Follows(Lost(e, w), devices)
  {
    hide Filter, Follows;
    if e.primary.Some? {
      FilterStillFollows(e.members, devices, Not(Is(e.primary.value.id)));
      FilterStillFollows(Without(e.members, e.primary.value), devices, Not(Joins(w)));
    } else {
      NothingFollows(devices);
    }
  }

  lemma NothingFollows(devices: seq<Device>)
    ensures Follows([], devices)
  {
  }

  /** Stage of a listed device. */
  function StageOf(d: Device, e: Election, w: World): nat {
    if Stage(d, e, w).Some? then Stage(d, e, w).value else 0
  }

  /** The failure list is sorted by stage, and by input position within a stage. */
  lemma ListedByStage(devices: seq<Device>, e: Election, w: World, a: nat, b: nat)
    requires Sound(devices, e, w) && a < b < |FailedDevices(devices, e, w)|
    ensures var x, y := FailedDevices(devices, e, w)[a], FailedDevices(devices, e, w)[b];
            StageOf(x, e, w) < StageOf(y, e, w) || (StageOf(x, e, w) == StageOf(y, e, w) && Before(devices, x, y))
  {
    hide Filter, Lost, SoloFails, Stage, Before;
    StageAt(devices, e, w, a);
    StageAt(devices, e, w, b);
    FilterFollows(devices, Not(Up(w)));
    LostFollows(devices, e, w);
    var failed, down := FailedDevices(devices, e, w), Filter(devices, Not(Up(w)));
    var m := |down| + |e.failed|;
    if b < |down| {
      assert failed[a] == down[a] && failed[b] == down[b];
    } else if m <= a && b < m + |Lost(e, w)| {
      assert failed[a] == Lost(e, w)[a - m] && failed[b] == Lost(e, w)[b - m];
    }
  }

  lemma StagedIsListed(devices: seq<Device>, e: Election, w: World, d: Device) returns (a: nat)
    requires Sound(devices, e, w) && d in devices && Stage(d, e, w).Some?
    ensures a < |FailedDevices(devices, e, w)| && FailedDevices(devices, e, w)[a] == d
  {
    hide Filter, Lost, Follows;
    DownStage(devices, e, w, d);
    LostStage(devices, e, w, d);
    SoloStage(devices, e, w, d);
    var failed := FailedDevices(devices, e, w);
    assert d in failed;
    a :| a < |failed| && failed[a] == d;
  }

  // ------------------------------------------------------------------
  // When the list is in input order
  // ------------------------------------------------------------------

  /** Receiver `x` was requested before receiver `y`. */
  ghost predicate RequestedBefore(devices: seq<Device>, x: DeviceId, y: DeviceId) {
    exists i, j :: 0 <= i < j < |devices| && devices[i].id == x && devices[j].id == y
  }

  /** The failures are listed in the order in which their receivers were requested. */
  ghost predicate InInputOrder(devices: seq<Device>, failures: seq<MemberFailure>) {
    forall a, b :: 0 <= a < b < |failures| ==> RequestedBefore(devices, failures[a].receiver, failures[b].receiver)
  }

  /** No device fails in an earlier stage than a device requested before it. */
  ghost predicate StagesAscend(devices: seq<Device>, e: Election, w: World) {
    forall i, j :: 0 <= i < j < |devices| && Stage(devices[i], e, w).Some? && Stage(devices[j], e, w).Some? ==>
      StageOf(devices[i], e, w) <= StageOf(devices[j], e, w)
  }

  lemma NamedInOrder(devices: seq<Device>, x: Device, y: Device)
    requires DistinctIds(devices) && x in devices && y in devices
    ensures RequestedBefore(devices, x.id, y.id) <==> Before(devices, x, y)
  {
    if RequestedBefore(devices, x.id, y.id) {
      var i, j :| 0 <= i < j < |devices| && devices[i].id == x.id && devices[j].id == y.id;
      SameIdSameDevice(devices, devices[i], x);
      SameIdSameDevice(devices, devices[j], y);
    }
    if Before(devices, x, y) {
      var i, j :| 0 <= i < j < |devices| && devices[i] == x && devices[j] == y;
      assert devices[i].id == x.id && devices[j].id == y.id;
    }
  }

  lemma OrderOfDevices(devices: seq<Device>, failed: seq<Device>, failures: seq<MemberFailure>)
    requires DistinctIds(devices) && Receivers(failures) == Map(failed, IdOf())
    requires forall d :: d in failed ==> d in devices
    ensures InInputOrder(devices, failures) <==> Follows(failed, devices)
  {
    hide RequestedBefore, Before, DistinctIds;
    assert |failures| == |failed|;
    forall a | 0 <= a < |failed| ensures failures[a].receiver == failed[a].id {
      assert Receivers(failures)[a] == Map(failed, IdOf())[a];
    }
    forall a, b | 0 <= a < b < |failed|
      ensures RequestedBefore(devices, failures[a].receiver, failures[b].receiver) <==> Before(devices, failed[a], failed[b])
    {
      assert failed[a] in failed && failed[b] in failed;
      NamedInOrder(devices, failed[a], failed[b]);
    }
  }

  lemma FollowsExactly(devices: seq<Device>, e: Election, w: World)
    requires DistinctIds(devices) && Sound(devices, e, w)
    ensures Follows(FailedDevices(devices, e, w), devices) <==> StagesAscend(devices, e, w)
  {
    hide FailedDevices, Stage, Sound;
    var failed := FailedDevices(devices, e, w);
    if Follows(failed, devices) {
      forall i, j | 0 <= i < j < |devices| && Stage(devices[i], e, w).Some? && Stage(devices[j], e, w).Some?
        ensures StageOf(devices[i], e, w) <= StageOf(devices[j], e, w)
      {
        var a := StagedIsListed(devices, e, w, devices[i]);
        var b := StagedIsListed(devices, e, w, devices[j]);
        assert Before(devices, devices[i], devices[j]);
        BeforeOneWay(devices, devices[i], devices[j]);
        if a < b {
          ListedByStage(devices, e, w, a, b);
        }
      }
    }
    if StagesAscend(devices, e, w) {
      forall a, b | 0 <= a < b < |failed| ensures Before(devices, failed[a], failed[b]) {
        ListedByStage(devices, e, w, a, b);
        StageAt(devices, e, w, a);
        StageAt(devices, e, w, b);
        var i :| 0 <= i < |devices| && devices[i] == failed[a];
        var j :| 0 <= j < |devices| && devices[j] == failed[b];
      }
    }
  }

  /**
   * The failures come in input order if and only if no device fails in an earlier stage of the
   * attempt than a device requested before it.
   */
  lemma InputOrderExactly(devices: seq<Device>, preferred: Option<DeviceId>, w: World, attempt: nat)
    requires DistinctIds(devices)
    ensures InInputOrder(devices, ConnectOutcome(devices, preferred, w, attempt).report.failures)
            <==> StagesAscend(devices, ElectionOf(devices, preferred, w), w)
  {
    hide ConnectOutcome, FailedDevices, StagesAscend, Sound, ElectionOf, InInputOrder, Follows, Stage;
    var e := ElectionOf(devices, preferred, w);
    ElectionIsSound(devices, preferred, w);
    FailuresAreFailedDevices(devices, preferred, w, attempt);
    var failed := FailedDevices(devices, e, w);
    forall d | d in failed ensures d in devices {
      var a :| 0 <= a < |failed| && failed[a] == d;
      StageAt(devices, e, w, a);
    }
    OrderOfDevices(devices, failed, ConnectOutcome(devices, preferred, w, attempt).report.failures);
    FollowsExactly(devices, e, w);
  }

  lemma FilterPair(x: Device, y: Device, p: Device -> bool)
    ensures Filter([x, y], p) == (if p(x) then [x] else []) + (if p(y) then [y] else [])
  {
    hide Filter;
    FilterEmpty(p);
    FilterSnoc([], x, p);
    FilterSnoc([x], y, p);
    assert [] + [x] == [x] && [x] + [y] == [x, y];
  }

  lemma LoneCandidateFails(d: Device, w: World)
    requires d.supportsPtp && CriticalFailure(w(d.id)).Some?
    ensures Elect([d], None, 2, w) == Election(None, [d], [])
  {
    hide Filter, CriticalFailure;
    FilterEmpty(Not(Is(d.id)));
    FilterSnoc([], d, Not(Is(d.id)));
    assert [] + [d] == [d];
    assert ChoosePrimary([d], None) == Some(d);
    assert Elect([], None, 1, w) == Election(None, [], []);
  }

  /** A failing primary requested before a device that does not establish is listed after it. */
  lemma LateConnectFailureComesFirst(x: Device, y: Device, w: World, attempt: nat)
    requires x.id != y.id && x.supportsPtp && Up(w)(x) && !Up(w)(y) && CriticalFailure(w(x.id)).Some?
    ensures var failures := ConnectOutcome([x, y], None, w, attempt).report.failures;
            && failures == [Failure(y.id, EstablishmentPhase(w(y.id).establish)), Failure(x.id, CriticalFailure(w(x.id)).value)]
            && !InInputOrder([x, y], failures)
  {
    hide Filter, Elect, CriticalFailure, EstablishmentPhase;
    FilterPair(x, y, Up(w));
    FilterPair(x, y, Not(Up(w)));
    assert [x] + [] == [x] && [] + [y] == [y];
    LoneCandidateFails(x, w);
    var failures := ConnectOutcome([x, y], None, w, attempt).report.failures;
    assert failures == Map([y], ConnectFailure(w)) + Map([x], PrimaryFailure(w));
    assert !RequestedBefore([x, y], failures[0].receiver, failures[1].receiver);
  }

  /** Device 0 refuses its setup, all others cannot be reached. */
  function FirstRefuses(id: DeviceId): Answers {
    Answers(if id == 0 then Established else TransportError, false, true, true, true, true, Established, true)
  }

  lemma FailuresOutOfInputOrder()
    ensures var devices := [Device(0, true), Device(1, true)];
            !InInputOrder(devices, ConnectOutcome(devices, None, FirstRefuses, 1).report.failures)
  {
    hide ConnectOutcome, InInputOrder;
    var w: World := FirstRefuses;
    assert w(0) == FirstRefuses(0) && w(1) == FirstRefuses(1);
    LateConnectFailureComesFirst(Device(0, true), Device(1, true), w, 1);
  }

  // ------------------------------------------------------------------
  // A member the report forgets
  // ------------------------------------------------------------------

  /** A lone live device without PTP is torn down and named in neither list. */
  lemma LiveMemberIsForgotten(d: Device, preferred: Option<DeviceId>, w: World, attempt: nat)
    requires !d.supportsPtp && Up(w)(d)
    ensures var o := ConnectOutcome([d], preferred, w, attempt);
            && o.report == Report(None, [], []) && Mentioned(o.report) == multiset{}
            && o.tornDown == [Link(d.id, Ptp, attempt)]
  {
    hide Filter;
    FilterEmpty(Up(w));
    FilterEmpty(Not(Up(w)));
    FilterSnoc([], d, Up(w));
    FilterSnoc([], d, Not(Up(w)));
    assert [] + [d] == [d];
    assert ChoosePrimary([d], preferred).None?;
    assert Elect([d], preferred, 2, w) == Election(None, [], [d]);
  }

  /** Every request of every device succeeds. */
  function AllWell(id: DeviceId): Answers {
    Answers(Established, true, true, true, true, true, Established, true)
  }

  lemma ReportForgetsMember()
    ensures var devices := [Device(7, false)];
            Mentioned(ConnectOutcome(devices, None, AllWell, 1).report) != multiset(Map(devices, IdOf()))
  {
    hide ConnectOutcome;
    var w: World := AllWell;
    assert w(7) == AllWell(7);
    LiveMemberIsForgotten(Device(7, false), None, w, 1);
    assert Map([Device(7, false)], IdOf())[0] == 7;
    assert 7 in multiset(Map([Device(7, false)], IdOf()));
  }
}
