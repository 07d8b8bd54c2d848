/** The client object that runs a best-effort group connect, proved against `GroupConnect`. */
module GroupClient {
  import opened Bytes
  import opened GroupConnect

  /** One requested device: not established, or established with its role flag and link. */
  datatype Slot = Gone | Member(device: Device, healthy: bool, link: Option<Link>)

  /** A slot is healthy while it holds a link, and that is the link of its device in this attempt. */
  ghost predicate Sound(slot: Slot, attempt: nat) {
    slot.Member? ==>
      && (slot.healthy <==> slot.link.Some?)
      && (slot.link.Some? ==> slot.link.value == Link(slot.device.id, Ptp, attempt))
  }

  ghost predicate AllSound(slots: seq<Slot>, attempt: nat) {
    forall i :: 0 <= i < |slots| ==> Sound(slots[i], attempt)
  }

  ghost predicate DistinctSlots(slots: seq<Slot>) {
    forall i, j :: 0 <= i < j < |slots| && slots[i].Member? && slots[j].Member? ==> slots[i].device.id != slots[j].device.id
  }

  predicate Holds(slot: Slot) {
    slot.Member? && slot.healthy && slot.link.Some?
  }

  function Held(slot: Slot): seq<Device> {
    if Holds(slot) then [slot.device] else []
  }

  /** Devices that hold a link and may still become primary, in input order. */
  function Candidates(slots: seq<Slot>): seq<Device> {
    if slots == [] then [] else Candidates(slots[..|slots| - 1]) + Held(slots[|slots| - 1])
  }

  lemma CandidatesSnoc(slots: seq<Slot>, i: nat)
    requires i < |slots|
    ensures Candidates(slots[..i + 1]) == Candidates(slots[..i]) + Held(slots[i])
  {
    assert slots[..i + 1][..i] == slots[..i];
  }

  /** Taking one link away removes exactly its device from the candidates. */
  lemma {:induction false} CandidatesAfterLoss(slots: seq<Slot>, i: nat, n: nat)
    requires DistinctSlots(slots) && i < |slots| && Holds(slots[i]) && n <= |slots|
    ensures var after := slots[i := Member(slots[i].device, false, None)];
            Candidates(after[..n]) == Without(Candidates(slots[..n]), slots[i].device)
  {
    hide Candidates, Filter;
    var d := slots[i].device;
    var after := slots[i := Member(d, false, None)];
    if n == 0 {
      CandidatesEmpty();
      assert after[..0] == [] && slots[..0] == [];
      FilterEmpty(Not(Is(d.id)));
    } else {
      CandidatesAfterLoss(slots, i, n - 1);
      CandidatesSnoc(slots, n - 1);
      CandidatesSnoc(after, n - 1);
      if Holds(slots[n - 1]) {
        FilterSnoc(Candidates(slots[..n - 1]), slots[n - 1].device, Not(Is(d.id)));
        assert slots[n - 1].device.id == d.id <==> n - 1 == i;
      } else {
        assert Candidates(slots[..n - 1]) + [] == Candidates(slots[..n - 1]);
      }
      assert Candidates(after[..n - 1]) + [] == Candidates(after[..n - 1]);
    }
  }

  lemma CandidatesEmpty()
    ensures Candidates([]) == []
  {
  }

  /** A candidate sits in exactly the slot of its identity. */
  lemma {:induction false} CandidateHasSlot(slots: seq<Slot>, n: nat, d: Device)
    requires n <= |slots| && d in Candidates(slots[..n])
    ensures exists i :: 0 <= i < n && Holds(slots[i]) && slots[i].device == d
  {
    hide Candidates;
    if n == 0 {
      assert slots[..0] == [];
      CandidatesEmpty();
    } else {
      CandidatesSnoc(slots, n - 1);
      if d in Candidates(slots[..n - 1]) {
        CandidateHasSlot(slots, n - 1, d);
      } else {
        assert Holds(slots[n - 1]) && slots[n - 1].device == d;
      }
    }
  }

  datatype ConnectError = NoDevicesFound | DuplicateMember(id: DeviceId) | DisconnectFailed | EncoderFailed

  datatype Group = Group(leader: DeviceId, members: set<DeviceId>)

  /** Identity of the first device that repeats an earlier one. */
  ghost function FirstDuplicate(devices: seq<Device>): DeviceId
    requires !DistinctIds(devices)
  {
    var init, last := devices[..|devices| - 1], devices[|devices| - 1];
    if DistinctIds(init) then last.id else FirstDuplicate(init)
  }

  lemma {:induction false} FirstDuplicateAt(devices: seq<Device>, i: nat)
    requires i < |devices| && DistinctIds(devices[..i]) && !DistinctIds(devices[..i + 1])
    ensures !DistinctIds(devices) && FirstDuplicate(devices) == devices[i].id
  {
    hide DistinctIds;
    if i + 1 == |devices| {
      assert devices[..i + 1] == devices;
    } else {
      var init := devices[..|devices| - 1];
      assert init[..i] == devices[..i] && init[..i + 1] == devices[..i + 1];
      FirstDuplicateAt(init, i);
      PrefixesAreDistinct(devices, |devices| - 1);
    }
  }

  lemma PrefixesAreDistinct(devices: seq<Device>, n: nat)
    requires n <= |devices|
    ensures DistinctIds(devices) ==> DistinctIds(devices[..n])
  {
  }

  /** The first device whose identity occurred before it. */
  method FindDuplicateMember(devices: seq<Device>) returns (duplicate: Option<DeviceId>)
    ensures duplicate == if DistinctIds(devices) then None else Some(FirstDuplicate(devices))
    ensures duplicate.Some? ==>
              exists i :: 0 <= i < |devices| && DistinctIds(devices[..i])
                && devices[i].id == duplicate.value && exists j :: 0 <= j < i && devices[j].id == devices[i].id
  {
    for i := 0 to |devices|
      invariant DistinctIds(devices[..i])
    {
      if exists j :: 0 <= j < i && devices[j].id == devices[i].id {
        FirstDuplicateAt(devices, i);
        return Some(devices[i].id);
      }
    }
    assert devices[..|devices|] == devices;
    return None;
  }

  /** Why a device list is refused before anything happens, if it is. */
  method RefuseDevices(devices: seq<Device>) returns (refused: Option<ConnectError>)
    ensures refused ==
            if devices == [] then Some(NoDevicesFound)
            else if DistinctIds(devices) then None else Some(DuplicateMember(FirstDuplicate(devices)))
  {
    if devices == [] {
      return Some(NoDevicesFound);
    }
    var duplicate := FindDuplicateMember(devices);
    refused := if duplicate.Some? then Some(DuplicateMember(duplicate.value)) else None;
  }

  function PrimaryLink(connection: Option<Link>): seq<Link> {
    if connection.Some? then [connection.value] else []
  }

  lemma NoPrimaryLink()
    ensures PrimaryLink(None) == []
  {
  }

  /** Every established link was torn down or is in the session, with multiplicity. */
  ghost predicate Conserved(established: seq<Link>, tornDown: seq<Link>, session: seq<Link>) {
    multiset(established) == multiset(tornDown) + multiset(session)
  }

  /** Links may move from the session to the torn down ones. */
  lemma TearDownConserves(established: seq<Link>, tornDown: seq<Link>, kept: seq<Link>, ended: seq<Link>)
    requires Conserved(established, tornDown, kept + ended)
    ensures Conserved(established, tornDown + ended, kept)
  {
  }

  class AirPlayClient {
    var connection: Option<Link>
    var groupConnections: seq<Link>
    var group: Option<Group>
    var primaryAttemptLog: seq<DeviceId>
    /** Number of connect attempts so far; tells the links of different attempts apart. */
    var attempts: nat
    /** Every link ever established and every link ever torn down, in order. */
    ghost var established: seq<Link>
    ghost var tornDown: seq<Link>

    ghost function Session(): seq<Link>
      reads `connection, `groupConnections
    {
      PrimaryLink(connection) + groupConnections
    }

    /** Over the life of the client, links are torn down or in the session. */
    ghost predicate Valid()
      reads `connection, `groupConnections, `established, `tornDown
    {
      Conserved(established, tornDown, Session())
    }

    constructor ()
      ensures Valid() && connection.None? && groupConnections == []
    {
      connection, groupConnections, group, primaryAttemptLog, attempts := None, [], None, [], 0;
      established, tornDown := [], [];
    }

    /** End the current session; `fails` is the answer of the primary connection's teardown. */
    method Disconnect(fails: bool) returns (ok: bool)
      requires Valid()
      modifies this
      ensures Valid() && groupConnections == [] && established == old(established)
      ensures ok <==> old(connection).None? || !fails
      ensures connection == if ok then None else old(connection)
      ensures tornDown == old(tornDown + groupConnections) + if ok then PrimaryLink(old(connection)) else []
      ensures group == old(group) && primaryAttemptLog == old(primaryAttemptLog) && attempts == old(attempts)
    {
      hide Conserved, PrimaryLink;
      ghost var primary := PrimaryLink(connection);
      TearDownConserves(established, tornDown, primary, groupConnections);
      tornDown := tornDown + groupConnections;
      groupConnections := [];
      assert Session() == primary;
      if connection.Some? && fails {
        return false;
      }
      assert [] + primary == primary;
      TearDownConserves(established, tornDown, [], primary);
      tornDown := tornDown + primary;
      connection := None;
      NoPrimaryLink();
      assert Session() == [];
      ok := true;
    }

    /** Establish every device on its own; results come back in input order. */
    method Establish(devices: seq<Device>, w: World) returns (slots: seq<Slot>, failures: seq<MemberFailure>)
      requires DistinctIds(devices)
      modifies `established
      ensures AllSound(slots, attempts) && DistinctSlots(slots)
      ensures Candidates(slots) == Filter(devices, Up(w))
      ensures failures == Map(Filter(devices, Not(Up(w))), ConnectFailure(w))
      ensures established == old(established) + Map(Filter(devices, Up(w)), LinkOf(attempts))
    {
      hide Filter, Map, Candidates;
      slots, failures := [], [];
      EstablishNone(w, attempts);
      assert devices[..0] == [];
      for i := 0 to |devices|
        invariant |slots| == i && AllSound(slots, attempts)
        invariant forall k :: 0 <= k < i && slots[k].Member? ==> slots[k].device == devices[k]
        invariant Candidates(slots) == Filter(devices[..i], Up(w))
        invariant failures == Map(Filter(devices[..i], Not(Up(w))), ConnectFailure(w))
        invariant established == old(established) + Map(Filter(devices[..i], Up(w)), LinkOf(attempts))
      {
        var d := devices[i];
        assert devices[..i + 1] == devices[..i] + [d];
        EstablishOne(devices[..i], d, w, attempts);
        ghost var before := slots;
        var answer := w(d.id).establish;
        if answer.Established? {
          var link := Link(d.id, Ptp, attempts);
          established := established + [link];
          slots := slots + [Member(d, true, Some(link))];
        } else {
          failures := failures + [Failure(d.id, EstablishmentPhase(answer))];
          slots := slots + [Gone];
        }
        CandidatesSnoc(slots, i);
        assert slots[..i] == before && slots[..i + 1] == slots;
      }
      assert devices[..|devices|] == devices;
    }

    /** Member-local teardown of a candidate that failed the primary role. */
    method DropCandidate(slots: seq<Slot>, index: nat) returns (after: seq<Slot>)
      requires AllSound(slots, attempts) && DistinctSlots(slots) && index < |slots| && Holds(slots[index])
      modifies `tornDown
      ensures AllSound(after, attempts) && DistinctSlots(after)
      ensures Candidates(after) == Without(Candidates(slots), slots[index].device)
      ensures tornDown == old(tornDown) + [LinkOf(attempts)(slots[index].device)]
    {
      hide Candidates, Without;
      tornDown := tornDown + [slots[index].link.value];
      LoseSlot(slots, index);
      after := slots[index := Member(slots[index].device, false, None)];
    }

    /** One try: choose, run the primary-critical requests, and drop the candidate if they fail. */
    method TryPrimary(slots: seq<Slot>, preference: Option<DeviceId>, w: World)
      returns (after: seq<Slot>, primary: Option<nat>, failure: Option<MemberFailure>)
      requires AllSound(slots, attempts) && DistinctSlots(slots)
      modifies `primaryAttemptLog, `tornDown
      ensures AllSound(after, attempts) && DistinctSlots(after)
      ensures var choice := ChoosePrimary(Candidates(slots), preference);
              if choice.None? then
                && after == slots && primary.None? && failure.None?
                && primaryAttemptLog == old(primaryAttemptLog) && tornDown == old(tornDown)
              else
                var d := choice.value;
                && primaryAttemptLog == old(primaryAttemptLog) + [d.id]
                && if CriticalFailure(w(d.id)).None? then
                     && after == slots && failure.None? && tornDown == old(tornDown)
                     && primary.Some? && primary.value < |slots|
                     && Holds(slots[primary.value]) && slots[primary.value].device == d
                   else
                     && primary.None? && failure == Some(PrimaryFailure(w)(d))
                     && Candidates(after) == Without(Candidates(slots), d)
                     && tornDown == old(tornDown) + [LinkOf(attempts)(d)]
    {
      hide Candidates, Without, ChoosePrimary;
      var choice := ChoosePrimary(Candidates(slots), preference);
      if choice.None? {
        return slots, None, None;
      }
      var d := choice.value;
      ChoiceIsCandidate(Candidates(slots), preference);
      var index := Position(slots, d);
      primaryAttemptLog := primaryAttemptLog + [d.id];
      var phase := CriticalFailure(w(d.id));
      if phase.None? {
        return slots, Some(index), None;
      }
      after := DropCandidate(slots, index);
      return after, None, Some(Failure(d.id, phase.value));
    }

    /**
     * Find a primary: try the choice, and after its failure exactly one more, ignoring the
     * preference. Returns the slot of the primary.
     */
    method ElectPrimary(slots0: seq<Slot>, preferred: Option<DeviceId>, w: World)
      returns (slots: seq<Slot>, primary: Option<nat>, failures: seq<MemberFailure>)
      requires AllSound(slots0, attempts) && DistinctSlots(slots0)
      modifies `primaryAttemptLog, `tornDown
      ensures AllSound(slots, attempts) && DistinctSlots(slots)
      ensures var e := Elect(Candidates(slots0), preferred, 2, w);
              && Candidates(slots) == e.members
              && (primary.Some? <==> e.primary.Some?)
              && (primary.Some? ==>
                    primary.value < |slots| && Holds(slots[primary.value]) && slots[primary.value].device == e.primary.value)
              && failures == Map(e.failed, PrimaryFailure(w))
              && tornDown == old(tornDown) + Map(e.failed, LinkOf(attempts))
              && primaryAttemptLog == old(primaryAttemptLog) + Tried(e)
    {
      hide Elect, Map, Candidates, ChoosePrimary, CriticalFailure, AllSound, DistinctSlots, Without, PrimaryFailure, LinkOf, Logged;
      slots, primary, failures := slots0, None, [];
      var preference := preferred;
      ghost var failed: seq<Device> := [];
      var round := 0;
      LoggedNone(w, tornDown, primaryAttemptLog, attempts);
      ghost var e := Elect(Candidates(slots0), preferred, 2, w);
      while round < 2
        invariant round <= 2 && primary.None? && AllSound(slots, attempts) && DistinctSlots(slots)
        invariant var rest := Elect(Candidates(slots), preference, 2 - round, w);
                  e == rest.(failed := failed + rest.failed)
        invariant Logged(failed, failures, tornDown, primaryAttemptLog, old(tornDown), old(primaryAttemptLog), w, attempts)
      {
        ElectStep(Candidates(slots), preference, 2 - round, w);
        ghost var choice := ChoosePrimary(Candidates(slots), preference);
        assert failed + [] == failed;
        ghost var torn, log := tornDown, primaryAttemptLog;
        var failure;
        slots, primary, failure := TryPrimary(slots, preference, w);
        if primary.Some? {
          LoggedMeans(failed, failures, torn, log, old(tornDown), old(primaryAttemptLog), w, attempts);
          return;
        } else if failure.None? {
          break;
        }
        LoggedNext(failed, choice.value, failures, torn, log, old(tornDown), old(primaryAttemptLog), w, attempts);
        ghost var later := Elect(Candidates(slots), None, 1 - round, w).failed;
        assert failed + ([choice.value] + later) == (failed + [choice.value]) + later;
        failures, failed := failures + [failure.value], failed + [choice.value];
        preference := None;
        round := round + 1;
      }
      ElectStep(Candidates(slots), preference, 2 - round, w);
      LoggedMeans(failed, failures, tornDown, primaryAttemptLog, old(tornDown), old(primaryAttemptLog), w, attempts);
      assert failed + [] == failed;
    }

    /** Without a primary every remaining link is torn down. */
    method TearDownMembers(slots: seq<Slot>)
      requires AllSound(slots, attempts)
      modifies `tornDown
      ensures tornDown == old(tornDown) + Map(Candidates(slots), LinkOf(attempts))
    {
      hide Map, Candidates;
      CandidatesEmpty();
      assert slots[..0] == [] && slots[..|slots|] == slots;
      for i := 0 to |slots|
        invariant tornDown == old(tornDown) + Map(Candidates(slots[..i]), LinkOf(attempts))
      {
        CandidatesSnoc(slots, i);
        assert Sound(slots[i], attempts);
        if slots[i].Member? && slots[i].link.Some? {
          MapSnoc(Candidates(slots[..i]), slots[i].device, LinkOf(attempts));
          tornDown := tornDown + [slots[i].link.value];
        } else {
          assert Candidates(slots[..i]) + [] == Candidates(slots[..i]);
        }
      }
    }

    /** Secondaries join the primary's clock; one that cannot is torn down alone. */
    method JoinSecondaries(slots: seq<Slot>, primary: nat, w: World)
      returns (survivors: seq<nat>, failures: seq<MemberFailure>)
      requires AllSound(slots, attempts) && DistinctSlots(slots) && primary < |slots| && Holds(slots[primary])
      modifies `tornDown
      ensures forall k :: 0 <= k < |survivors| ==> survivors[k] < |slots| && Holds(slots[survivors[k]])
      ensures var others := Without(Candidates(slots), slots[primary].device);
              && DevicesAt(slots, survivors) == Filter(others, Joins(w))
              && failures == Map(Filter(others, Not(Joins(w))), JoinFailure(w))
              && tornDown == old(tornDown) + Map(Filter(others, Not(Joins(w))), LinkOf(attempts))
    {
      hide Map, Candidates, Filter, Without;
      survivors, failures := [], [];
      ghost var p := slots[primary].device;
      JoinNone(slots, p, w, attempts);
      for i := 0 to |slots|
        invariant forall k :: 0 <= k < |survivors| ==> survivors[k] < i && Holds(slots[survivors[k]])
        invariant DevicesAt(slots, survivors) == Filter(Without(Candidates(slots[..i]), p), Joins(w))
        invariant failures == Map(Filter(Without(Candidates(slots[..i]), p), Not(Joins(w))), JoinFailure(w))
        invariant tornDown ==
                  old(tornDown) + Map(Filter(Without(Candidates(slots[..i]), p), Not(Joins(w))), LinkOf(attempts))
      {
        JoinOne(slots, i, p, w, attempts);
        assert Sound(slots[i], attempts);
        if i == primary || slots[i].Gone? || slots[i].link.None? {
          assert !(Holds(slots[i]) && slots[i].device.id != p.id);
          continue;
        }
        var d := slots[i].device;
        assert Holds(slots[i]) && d.id != p.id;
        if !w(d.id).join {
          failures := failures + [Failure(d.id, RtspSetup)];
          tornDown := tornDown + [slots[i].link.value];
        } else if !w(d.id).memberPeers {
          failures := failures + [Failure(d.id, SetPeers)];
          tornDown := tornDown + [slots[i].link.value];
        } else {
          DevicesAtSnoc(slots, survivors, i);
          survivors := survivors + [i];
        }
      }
      assert slots[..|slots|] == slots;
    }

    /** Reconnect the lone survivor over NTP, after tearing its group link down. */
    method FinishSingleSurvivor(p: Device, link: Link, w: World) returns (failures: seq<MemberFailure>)
      requires connection.None? && link == Link(p.id, Ptp, attempts)
      modifies `connection, `group, `established, `tornDown
      ensures var r := SoloAttempt(p, w, attempts);
              && established == old(established) + r.established && tornDown == old(tornDown) + r.tornDown
              && connection == r.link && failures == r.failures
              && group == (if connection.Some? then Some(Group(p.id, {p.id})) else old(group))
    {
      tornDown := tornDown + [link];
      var answer := w(p.id).reestablish;
      if !answer.Established? {
        return [Failure(p.id, EstablishmentPhase(answer))];
      }
      var solo := Link(p.id, Ntp, attempts);
      established := established + [solo];
      if !w(p.id).soloSetup {
        tornDown := tornDown + [solo];
        return [Failure(p.id, RtspSetup)];
      }
      connection := Some(solo);
      group := Some(Group(p.id, {p.id}));
      return [];
    }

    /** With a primary: join the others, then store the session or downgrade the lone survivor. */
    method Settle(slots: seq<Slot>, primary: nat, failures0: seq<MemberFailure>, w: World) returns (report: Report)
      requires AllSound(slots, attempts) && DistinctSlots(slots) && primary < |slots| && Holds(slots[primary])
      requires connection.None? && groupConnections == []
      modifies `connection, `groupConnections, `group, `established, `tornDown
      ensures var p := slots[primary].device;
              var others := Without(Candidates(slots), p);
              var o := Outcome(Report(None, [], failures0), None, [], [], old(established), old(tornDown));
              IsOutcome(report, SettledOutcome(o, p, others, w, attempts))
    {
      hide Map, Candidates, Filter, Without, AllSound, DistinctSlots, Joins, Not;
      var p := slots[primary].device;
      var survivors, joinFailures := JoinSecondaries(slots, primary, w);
      var failures := failures0 + joinFailures;
      SlotLink(slots, primary, attempts);
      if survivors == [] {
        var soloFailures := FinishSingleSurvivor(p, slots[primary].link.value, w);
        failures := failures + soloFailures;
        assert IdSet([p.id]) == {p.id};
        report := if connection.Some? then Report(Some(p.id), [p.id], failures) else Report(None, [], failures);
      } else {
        connection := slots[primary].link;
        groupConnections := LinksAt(slots, survivors, attempts);
        var connected := [p.id] + Map(DevicesAt(slots, survivors), IdOf());
        group := Some(Group(p.id, IdSet(connected)));
        report := Report(Some(p.id), connected, failures);
      }
    }

    /** The report and the client's links and group are those of `o`. */
    ghost predicate IsOutcome(report: Report, o: Outcome)
      reads this
    {
      && report == o.report && connection == o.primaryLink && groupConnections == o.groupLinks
      && established == o.established && tornDown == o.tornDown
      && (report.primary.Some? ==> group == Some(Group(report.primary.value, IdSet(report.connected))))
    }

    lemma SessionIsStored(o: Outcome)
      requires connection == o.primaryLink && groupConnections == o.groupLinks
      ensures Session() == Stored(o)
    {
    }

    /** The attempt proper, on a client without a session. */
    method RunAttempt(devices: seq<Device>, preferred: Option<DeviceId>, w: World) returns (report: Report)
      requires DistinctIds(devices) && connection.None? && groupConnections == [] && primaryAttemptLog == []
      modifies this
      ensures attempts == old(attempts) && primaryAttemptLog == ConnectOutcome(devices, preferred, w, attempts).tried
      ensures IsOutcome(report, Prefixed(old(established), old(tornDown), ConnectOutcome(devices, preferred, w, attempts)))
    {
      hide Map, Candidates, Filter, Without, Elect, AllSound, DistinctSlots, SettledOutcome, Up, Not;
      var slots, failures := Establish(devices, w);
      ghost var e := Elect(Candidates(slots), preferred, 2, w);
      ghost var o := Elected(devices, e, w, attempts);
      var primary, primaryFailures;
      slots, primary, primaryFailures := ElectPrimary(slots, preferred, w);
      failures := failures + primaryFailures;
      if primary.None? {
        TearDownMembers(slots);
        report := Report(None, [], failures);
      } else {
        report := Settle(slots, primary.value, failures, w);
        SettledPrefix(old(established), old(tornDown), o, e.primary.value, Without(e.members, e.primary.value), w, attempts);
      }
    }

    /** Which answer ends the call before any member is contacted, if one does. */
    ghost function Refusal(devices: seq<Device>, disconnectFails: bool, encoderFails: bool): (e: Option<ConnectError>)
      reads this
      ensures e.None? <==>
                && devices != [] && DistinctIds(devices)
                && (connection.None? || !disconnectFails) && !encoderFails
      ensures e == Some(NoDevicesFound) <==> devices == []
      ensures e.Some? && e.value.DuplicateMember? <==> !DistinctIds(devices)
      ensures e == Some(DisconnectFailed) <==>
                devices != [] && DistinctIds(devices) && connection.Some? && disconnectFails
      ensures e == Some(EncoderFailed) <==>
                devices != [] && DistinctIds(devices) && (connection.None? || !disconnectFails) && encoderFails
    {
      if devices == [] then Some(NoDevicesFound)
      else if !DistinctIds(devices) then Some(DuplicateMember(FirstDuplicate(devices)))
      else if connection.Some? && disconnectFails then Some(DisconnectFailed)
      else if encoderFails then Some(EncoderFailed)
      else None
    }

    /**
     * What is left of a session when an attempt stopped with `refused`: a refused list leaves it alone,
     * a failed teardown leaves the primary link, and otherwise nothing is left.
     */
    ghost predicate SessionAfter(
      refused: Option<ConnectError>, connection0: Option<Link>, groupConnections0: seq<Link>, tornDown0: seq<Link>)
      reads this
    {
      if refused.Some? && (refused.value.NoDevicesFound? || refused.value.DuplicateMember?) then
        connection == connection0 && groupConnections == groupConnections0 && tornDown == tornDown0
      else if refused == Some(DisconnectFailed) then
        connection == connection0 && groupConnections == [] && tornDown == tornDown0 + groupConnections0
      else
        && connection.None? && groupConnections == []
        && tornDown == tornDown0 + groupConnections0 + PrimaryLink(connection0)
    }

    /** Everything before the members: check the list, end the old session, build the encoder. */
    method BeginAttempt(devices: seq<Device>, disconnectFails: bool, encoderFails: bool)
      returns (refused: Option<ConnectError>)
      requires Valid()
      modifies this
      ensures Valid() && refused == old(Refusal(devices, disconnectFails, encoderFails))
      ensures established == old(established) && group == old(group)
      ensures refused.Some? ==> attempts == old(attempts)
      ensures SessionAfter(refused, old(connection), old(groupConnections), old(tornDown))
      ensures primaryAttemptLog == if refused.None? || refused == Some(EncoderFailed) then [] else old(primaryAttemptLog)
      ensures refused.None? ==> attempts == old(attempts) + 1
    {
      hide DistinctIds, Valid, FirstDuplicate;
      refused := RefuseDevices(devices);
      if refused.Some? {
        return;
      }
      var ended := Disconnect(disconnectFails);
      if !ended {
        return Some(DisconnectFailed);
      }
      primaryAttemptLog := [];
      if encoderFails {
        return Some(EncoderFailed);
      }
      attempts := attempts + 1;
    }

    /**
     * Connect a group best effort. `disconnectFails` and `encoderFails` are the answers of the
     * two steps that can end the call before any member is contacted.
     */
    method ConnectGroupBestEffort(
      devices: seq<Device>, preferred: Option<DeviceId>, w: World, disconnectFails: bool, encoderFails: bool)
      returns (result: Result<Report, ConnectError>)
      requires Valid()
      modifies this
      ensures Valid()
      ensures var refusal := old(Refusal(devices, disconnectFails, encoderFails));
              if refusal.Some? then
                && result == Err(refusal.value)
                && established == old(established) && group == old(group) && attempts == old(attempts)
                && primaryAttemptLog == (if refusal == Some(EncoderFailed) then [] else old(primaryAttemptLog))
                && SessionAfter(refusal, old(connection), old(groupConnections), old(tornDown))
              else
                var o := ConnectOutcome(devices, preferred, w, attempts);
                && result == Ok(o.report) && attempts == old(attempts) + 1 && primaryAttemptLog == o.tried
                && connection == o.primaryLink && groupConnections == o.groupLinks
                && established == old(established) + o.established
                && tornDown == old(tornDown + groupConnections) + PrimaryLink(old(connection)) + o.tornDown
                && (o.report.primary.Some? ==>
                      group == Some(Group(o.report.primary.value, IdSet(o.report.connected))))
    {
      hide ConnectOutcome, DistinctIds, Balanced, Stored, FirstDuplicate, Conserved;
      var refused := BeginAttempt(devices, disconnectFails, encoderFails);
      if refused.Some? {
        return Err(refused.value);
      }
      assert Session() == [];
      ghost var torn := tornDown;
      var report := RunAttempt(devices, preferred, w);
      ghost var o := ConnectOutcome(devices, preferred, w, attempts);
      LinksAreConserved(devices, preferred, w, attempts);
      LogsBalance(old(established), torn, o);
      SessionIsStored(o);
      result := Ok(report);
    }
  }

  /** The failures and the two logs tell exactly the candidates tried and dropped so far. */
  ghost predicate Logged(
    failed: seq<Device>, failures: seq<MemberFailure>, torn: seq<Link>, log: seq<DeviceId>,
    torn0: seq<Link>, log0: seq<DeviceId>, w: World, attempt: nat)
  {
    && failures == Map(failed, PrimaryFailure(w))
    && torn == torn0 + Map(failed, LinkOf(attempt))
    && log == log0 + Map(failed, IdOf())
  }

  lemma LoggedNone(w: World, torn: seq<Link>, log: seq<DeviceId>, attempt: nat)
    ensures Logged([], [], torn, log, torn, log, w, attempt)
  {
  }

  lemma LoggedMeans(
    failed: seq<Device>, failures: seq<MemberFailure>, torn: seq<Link>, log: seq<DeviceId>,
    torn0: seq<Link>, log0: seq<DeviceId>, w: World, attempt: nat)
    requires Logged(failed, failures, torn, log, torn0, log0, w, attempt)
    ensures failures == Map(failed, PrimaryFailure(w)) && torn == torn0 + Map(failed, LinkOf(attempt))
    ensures log == log0 + Map(failed, IdOf()) && forall id :: log + [id] == log0 + (Map(failed, IdOf()) + [id])
  {
  }

  lemma LoggedNext(
    failed: seq<Device>, d: Device, failures: seq<MemberFailure>, torn: seq<Link>, log: seq<DeviceId>,
    torn0: seq<Link>, log0: seq<DeviceId>, w: World, attempt: nat)
    requires Logged(failed, failures, torn, log, torn0, log0, w, attempt)
    ensures Logged(failed + [d], failures + [PrimaryFailure(w)(d)], torn + [LinkOf(attempt)(d)], log + [d.id], torn0, log0, w, attempt)
  {
    hide Map, PrimaryFailure, LinkOf;
    MapSnoc(failed, d, PrimaryFailure(w));
    MapSnoc(failed, d, LinkOf(attempt));
    MapSnoc(failed, d, IdOf());
  }

  /** The same outcome appended to the logs of earlier attempts. */
  function Prefixed(established: seq<Link>, tornDown: seq<Link>, o: Outcome): Outcome {
    o.(established := established + o.established, tornDown := tornDown + o.tornDown)
  }

  lemma SettledPrefix(
    established: seq<Link>, tornDown: seq<Link>, o: Outcome, p: Device, others: seq<Device>, w: World, attempt: nat)
    ensures SettledOutcome(Prefixed(established, tornDown, o).(tried := []), p, others, w, attempt)
         == Prefixed(established, tornDown, SettledOutcome(o, p, others, w, attempt)).(tried := [])
    ensures SettledOutcome(o, p, others, w, attempt).tried == o.tried
  {
    hide Map, Filter, SoloAttempt;
    var lost := Map(Filter(others, Not(Joins(w))), LinkOf(attempt));
    var r := SoloAttempt(p, w, attempt);
    assert tornDown + o.tornDown + lost == tornDown + (o.tornDown + lost);
    assert tornDown + o.tornDown + lost + r.tornDown == tornDown + (o.tornDown + lost + r.tornDown);
    assert established + o.established + r.established == established + (o.established + r.established);
  }

  lemma LogsBalance(established: seq<Link>, tornDown: seq<Link>, o: Outcome)
    requires Conserved(established, tornDown, []) && Balanced(o, multiset{})
    ensures var all := Prefixed(established, tornDown, o); Conserved(all.established, all.tornDown, Stored(o))
  {
  }

  lemma SlotLink(slots: seq<Slot>, i: nat, attempt: nat)
    requires AllSound(slots, attempt) && i < |slots| && Holds(slots[i])
    ensures slots[i].link.value == Link(slots[i].device.id, Ptp, attempt)
  {
  }

  /** The links of the surviving slots, in order. */
  method LinksAt(slots: seq<Slot>, indices: seq<nat>, ghost attempt: nat) returns (links: seq<Link>)
    requires AllSound(slots, attempt)
    requires forall k :: 0 <= k < |indices| ==> indices[k] < |slots| && Holds(slots[indices[k]])
    ensures links == Map(DevicesAt(slots, indices), LinkOf(attempt))
  {
    links := [];
    for k := 0 to |indices|
      invariant |links| == k
      invariant forall j :: 0 <= j < k ==> links[j] == LinkOf(attempt)(DevicesAt(slots, indices)[j])
    {
      SlotLink(slots, indices[k], attempt);
      links := links + [slots[indices[k]].link.value];
    }
  }

  function DevicesAt(slots: seq<Slot>, indices: seq<nat>): seq<Device>
    requires forall k :: 0 <= k < |indices| ==> indices[k] < |slots| && Holds(slots[indices[k]])
  {
    seq(|indices|, k requires 0 <= k < |indices| && indices[k] < |slots| && Holds(slots[indices[k]]) =>
      slots[indices[k]].device)
  }

  lemma DevicesAtSnoc(slots: seq<Slot>, indices: seq<nat>, i: nat)
    requires forall k :: 0 <= k < |indices| ==> indices[k] < |slots| && Holds(slots[indices[k]])
    requires i < |slots| && Holds(slots[i])
    ensures DevicesAt(slots, indices + [i]) == DevicesAt(slots, indices) + [slots[i].device]
  {
  }

  lemma JoinNone(slots: seq<Slot>, p: Device, w: World, attempt: nat)
    ensures var others := Without(Candidates(slots[..0]), p);
            && Filter(others, Joins(w)) == []
            && Map(Filter(others, Not(Joins(w))), JoinFailure(w)) == []
            && Map(Filter(others, Not(Joins(w))), LinkOf(attempt)) == []
  {
    assert slots[..0] == [];
    CandidatesEmpty();
  }

  /** One more slot: a secondary that joins survives, one that does not is lost. */
  lemma JoinOne(slots: seq<Slot>, i: nat, p: Device, w: World, attempt: nat)
    requires i < |slots|
    ensures var before, after := Without(Candidates(slots[..i]), p), Without(Candidates(slots[..i + 1]), p);
            if !(Holds(slots[i]) && slots[i].device.id != p.id) then after == before
            else
              var d := slots[i].device;
              var lost, lost' := Filter(before, Not(Joins(w))), Filter(after, Not(Joins(w)));
              if Joins(w)(d) then lost' == lost && Filter(after, Joins(w)) == Filter(before, Joins(w)) + [d]
              else
                && Filter(after, Joins(w)) == Filter(before, Joins(w))
                && Map(lost', JoinFailure(w)) == Map(lost, JoinFailure(w)) + [JoinFailure(w)(d)]
                && Map(lost', LinkOf(attempt)) == Map(lost, LinkOf(attempt)) + [Link(d.id, Ptp, attempt)]
  {
    hide Map, Candidates, Filter;
    CandidatesSnoc(slots, i);
    var members := Candidates(slots[..i]);
    if !Holds(slots[i]) {
      assert members + [] == members;
    } else {
      var d := slots[i].device;
      FilterSnoc(members, d, Not(Is(p.id)));
      if d.id != p.id {
        var before := Without(members, p);
        FilterSnoc(before, d, Joins(w));
        FilterSnoc(before, d, Not(Joins(w)));
        MapSnoc(Filter(before, Not(Joins(w))), d, JoinFailure(w));
        MapSnoc(Filter(before, Not(Joins(w))), d, LinkOf(attempt));
        assert Filter(before, Joins(w)) + [] == Filter(before, Joins(w));
        assert Filter(before, Not(Joins(w))) + [] == Filter(before, Not(Joins(w)));
      } else {
        assert Without(members, p) + [] == Without(members, p);
      }
    }
  }

  method Position(slots: seq<Slot>, d: Device) returns (index: nat)
    requires DistinctSlots(slots) && d in Candidates(slots)
    ensures index < |slots| && Holds(slots[index]) && slots[index].device == d
  {
    hide Candidates;
    assert slots[..|slots|] == slots;
    CandidateHasSlot(slots, |slots|, d);
    index := 0;
    while !(slots[index].Member? && slots[index].device.id == d.id)
      invariant index < |slots|
      invariant forall j :: 0 <= j < index ==> !(slots[j].Member? && slots[j].device.id == d.id)
      decreases |slots| - index
    {
      index := index + 1;
    }
  }

  lemma LoseSlot(slots: seq<Slot>, index: nat)
    requires DistinctSlots(slots) && index < |slots| && Holds(slots[index])
    ensures var after := slots[index := Member(slots[index].device, false, None)];
            DistinctSlots(after) && Candidates(after) == Without(Candidates(slots), slots[index].device)
  {
    hide Candidates, Filter;
    var after := slots[index := Member(slots[index].device, false, None)];
    CandidatesAfterLoss(slots, index, |slots|);
    assert slots[..|slots|] == slots && after[..|slots|] == after;
  }

  lemma EstablishNone(w: World, attempt: nat)
    ensures Candidates([]) == Filter([], Up(w))
    ensures Map(Filter([], Not(Up(w))), ConnectFailure(w)) == []
    ensures Map(Filter([], Up(w)), LinkOf(attempt)) == []
  {
  }

  /** One more device extends the live members or the connect failures. */
  lemma EstablishOne(devices: seq<Device>, d: Device, w: World, attempt: nat)
    ensures var all := devices + [d];
            && Filter(all, Up(w)) == Filter(devices, Up(w)) + (if Up(w)(d) then [d] else [])
            && Map(Filter(all, Up(w)), LinkOf(attempt)) ==
               Map(Filter(devices, Up(w)), LinkOf(attempt)) + (if Up(w)(d) then [Link(d.id, Ptp, attempt)] else [])
            && Map(Filter(all, Not(Up(w))), ConnectFailure(w)) ==
               Map(Filter(devices, Not(Up(w))), ConnectFailure(w))
               + (if Up(w)(d) then [] else [Failure(d.id, EstablishmentPhase(w(d.id).establish))])
  {
    hide Filter, Map;
    FilterSnoc(devices, d, Up(w));
    FilterSnoc(devices, d, Not(Up(w)));
    if Up(w)(d) {
      MapSnoc(Filter(devices, Up(w)), d, LinkOf(attempt));
    } else {
      MapSnoc(Filter(devices, Not(Up(w))), d, ConnectFailure(w));
    }
  }
}
