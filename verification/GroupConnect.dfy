/**
 * Best-effort group connect: independent establishment, a deterministic primary with
 * exactly one fallback, member-local failures, and the single-survivor downgrade.
 *
 * What the network does is a `World`: one answer per member and per request kind. No
 * request kind reaches a member's link twice in one attempt, so every script of
 * outcomes is some world.
 */
module GroupConnect {
  import opened Bytes

  /** Six MAC octets read as one number, whose order is the lexicographic octet order. */
  type DeviceId = n: int | 0 <= n < 0x1_0000_0000_0000

  datatype Device = Device(id: DeviceId, supportsPtp: bool)

  datatype SetupPhase = Connect | Pair | PrimaryTiming | RtspSetup | SetPeers | BuildSender | StartAudio

  predicate IsRetryable(phase: SetupPhase) {
    phase.Connect? || phase.PrimaryTiming? || phase.SetPeers? || phase.StartAudio?
  }

  datatype MemberFailure = MemberFailure(receiver: DeviceId, phase: SetupPhase, retryable: bool)

  function Failure(receiver: DeviceId, phase: SetupPhase): MemberFailure {
    MemberFailure(receiver, phase, IsRetryable(phase))
  }

  /** How establishing one member ends; pairing material and transport fail in different phases. */
  datatype Establishment = Established | TransportError | PairingError

  function EstablishmentPhase(e: Establishment): SetupPhase {
    if e.PairingError? then Pair else Connect
  }

  /** One member's answers: in the group attempt, and when reconnected alone over NTP. */
  datatype Answers = Answers(
    establish: Establishment,
    setup: bool, timing: bool, primaryPeers: bool, join: bool, memberPeers: bool,
    reestablish: Establishment, soloSetup: bool)

  type World = DeviceId -> Answers

  datatype Timing = Ptp | Ntp

  /** A transport to `receiver`, unique within one connect attempt. */
  datatype Link = Link(receiver: DeviceId, timing: Timing, attempt: nat)

  datatype Report = Report(primary: Option<DeviceId>, connected: seq<DeviceId>, failures: seq<MemberFailure>)

  // ------------------------------------------------------------------
  // Choosing the primary
  // ------------------------------------------------------------------

  function IdSet(ids: seq<DeviceId>): set<DeviceId> {
    set id | id in ids
  }

  predicate DistinctIds(devices: seq<Device>) {
    forall i, j :: 0 <= i < j < |devices| ==> devices[i].id != devices[j].id
  }

  /** The PTP-capable device with the smallest identity. */
  function SmallestPtp(devices: seq<Device>): (d: Option<Device>)
    ensures d.None? <==> forall x :: x in devices ==> !x.supportsPtp
    ensures d.Some? ==>
              && d.value in devices && d.value.supportsPtp
              && forall x :: x in devices && x.supportsPtp ==> d.value.id <= x.id
  {
    if devices == [] then None
    else
      var rest := SmallestPtp(devices[1..]);
      assert devices == [devices[0]] + devices[1..];
      if !devices[0].supportsPtp then rest
      else if rest.Some? && rest.value.id < devices[0].id then rest
      else Some(devices[0])
  }

  function FindPtp(devices: seq<Device>, id: DeviceId): (d: Option<Device>)
    ensures d.None? <==> forall x :: x in devices && x.supportsPtp ==> x.id != id
    ensures d.Some? ==> d.value in devices && d.value.supportsPtp && d.value.id == id
  {
    if devices == [] then None
    else if devices[0].supportsPtp && devices[0].id == id then Some(devices[0])
    else
      assert devices == [devices[0]] + devices[1..];
      FindPtp(devices[1..], id)
  }

  function ChoosePrimary(healthy: seq<Device>, preferred: Option<DeviceId>): Option<Device> {
    if preferred.Some? && FindPtp(healthy, preferred.value).Some? then FindPtp(healthy, preferred.value)
    else SmallestPtp(healthy)
  }

  /** The choice depends on which devices are healthy, never on their order. */
  lemma ChoiceIgnoresOrder(a: seq<Device>, b: seq<Device>, preferred: Option<DeviceId>)
    requires DistinctIds(a) && forall d :: d in a <==> d in b
    ensures ChoosePrimary(a, preferred) == ChoosePrimary(b, preferred)
  {
    var x, y := ChoosePrimary(a, preferred), ChoosePrimary(b, preferred);
    if x.Some? && y.Some? {
      assert x.value.id == y.value.id;
      SameIdSameDevice(a, x.value, y.value);
    }
  }

  lemma SameIdSameDevice(devices: seq<Device>, x: Device, y: Device)
    requires DistinctIds(devices) && x in devices && y in devices && x.id == y.id
    ensures x == y
  {
  }

  // ------------------------------------------------------------------
  // Members in input order
  // ------------------------------------------------------------------

  function Filter(devices: seq<Device>, p: Device -> bool): (r: seq<Device>)
    ensures forall d :: d in r <==> d in devices && p(d)
    ensures DistinctIds(devices) ==> DistinctIds(r)
  {
    if devices == [] then []
    else
      var init, d := devices[..|devices| - 1], devices[|devices| - 1];
      assert devices == init + [d];
      assert DistinctIds(devices) ==> forall x :: x in init ==> x.id != d.id;
      Filter(init, p) + (if p(d) then [d] else [])
  }

  lemma FilterSnoc(devices: seq<Device>, d: Device, p: Device -> bool)
    ensures Filter(devices + [d], p) == Filter(devices, p) + (if p(d) then [d] else [])
  {
    assert (devices + [d])[..|devices|] == devices;
  }

  function Map<T>(devices: seq<Device>, f: Device -> T): (r: seq<T>)
    ensures |r| == |devices| && forall i :: 0 <= i < |r| ==> r[i] == f(devices[i])
  {
    seq(|devices|, i requires 0 <= i < |devices| => f(devices[i]))
  }

  lemma MapSnoc<T>(devices: seq<Device>, d: Device, f: Device -> T)
    ensures Map(devices + [d], f) == Map(devices, f) + [f(d)]
  {
  }

  function Not(p: Device -> bool): Device -> bool {
    (d: Device) => !p(d)
  }

  function Is(id: DeviceId): Device -> bool {
    (d: Device) => d.id == id
  }

  function IdOf(): Device -> DeviceId {
    (d: Device) => d.id
  }

  function LinkOf(attempt: nat): Device -> Link {
    (d: Device) => Link(d.id, Ptp, attempt)
  }

  /** What a predicate takes and what it leaves make up the whole, with multiplicity. */
  lemma {:induction false} FilterSplits<T>(devices: seq<Device>, p: Device -> bool, f: Device -> T)
    ensures multiset(Map(devices, f)) == multiset(Map(Filter(devices, p), f)) + multiset(Map(Filter(devices, Not(p)), f))
  {
    hide Filter, Map;
    if devices == [] {
      FilterEmpty(p);
      FilterEmpty(Not(p));
      assert devices == [];
    } else {
      var init, d := devices[..|devices| - 1], devices[|devices| - 1];
      assert devices == init + [d];
      FilterSplits(init, p, f);
      SnocSplits(init, d, p, f);
    }
  }

  lemma FilterEmpty(p: Device -> bool)
    ensures Filter([], p) == []
  {
  }

  lemma SnocSplits<T>(init: seq<Device>, d: Device, p: Device -> bool, f: Device -> T)
    requires multiset(Map(init, f)) == multiset(Map(Filter(init, p), f)) + multiset(Map(Filter(init, Not(p)), f))
    ensures var all := init + [d];
            multiset(Map(all, f)) == multiset(Map(Filter(all, p), f)) + multiset(Map(Filter(all, Not(p)), f))
  {
    hide Filter, Map;
    FilterSnoc(init, d, p);
    FilterSnoc(init, d, Not(p));
    MapSnoc(init, d, f);
    if p(d) {
      MapSnoc(Filter(init, p), d, f);
      assert Filter(init, Not(p)) + [] == Filter(init, Not(p));
    } else {
      MapSnoc(Filter(init, Not(p)), d, f);
      assert Filter(init, p) + [] == Filter(init, p);
    }
  }

  lemma MapHead<T>(d: Device, rest: seq<Device>, f: Device -> T)
    ensures Map([d] + rest, f) == [f(d)] + Map(rest, f)
  {
  }

  /** Among distinct devices, taking out one identity takes out exactly that device. */
  lemma {:induction false} FilterIs(devices: seq<Device>, d: Device)
    requires DistinctIds(devices) && d in devices
    ensures Filter(devices, Is(d.id)) == [d]
  {
    var r := Filter(devices, Is(d.id));
    forall x | x in r ensures x == d {
      SameIdSameDevice(devices, x, d);
    }
    assert d in r;
    AllEqual(r, d);
  }

  lemma AllEqual(devices: seq<Device>, d: Device)
    requires DistinctIds(devices) && d in devices && forall x :: x in devices ==> x == d
    ensures devices == [d]
  {
    forall i | 0 <= i < |devices| ensures devices[i] == d {
      assert devices[i] in devices;
    }
    assert |devices| <= 1 || devices[0].id != devices[1].id;
  }

  // ------------------------------------------------------------------
  // The attempt as a whole
  // ------------------------------------------------------------------

  function Up(w: World): Device -> bool {
    (d: Device) => w(d.id).establish.Established?
  }

  /** Joining the primary's clock and receiving the peer list both succeed. */
  function Joins(w: World): Device -> bool {
    (d: Device) => w(d.id).join && w(d.id).memberPeers
  }

  function ConnectFailure(w: World): Device -> MemberFailure {
    (d: Device) => Failure(d.id, EstablishmentPhase(w(d.id).establish))
  }

  function JoinFailure(w: World): Device -> MemberFailure {
    (d: Device) => Failure(d.id, if !w(d.id).join then RtspSetup else SetPeers)
  }

  /** Phase in which a candidate fails the primary role, if it does. */
  function CriticalFailure(a: Answers): Option<SetupPhase> {
    if !a.setup then Some(RtspSetup)
    else if !a.timing then Some(PrimaryTiming)
    else if !a.primaryPeers then Some(SetPeers)
    else None
  }

  function PrimaryFailure(w: World): Device -> MemberFailure {
    (d: Device) => Failure(d.id, var phase := CriticalFailure(w(d.id)); if phase.Some? then phase.value else RtspSetup)
  }

  /** `failed` were tried and torn down in order; `members` still hold their links. */
  datatype Election = Election(primary: Option<Device>, failed: seq<Device>, members: seq<Device>)

  function Without(members: seq<Device>, d: Device): seq<Device> {
    Filter(members, Not(Is(d.id)))
  }

  /** Try candidates until one serves, none is left, or the tries are used up. */
  function Elect(members: seq<Device>, preferred: Option<DeviceId>, tries: nat, w: World): Election
    decreases tries
  {
    var choice := ChoosePrimary(members, preferred);
    if tries == 0 || choice.None? then Election(None, [], members)
    else if CriticalFailure(w(choice.value.id)).None? then Election(choice, [], members)
    else
      var rest := Elect(Without(members, choice.value), None, tries - 1, w);
      rest.(failed := [choice.value] + rest.failed)
  }

  /** The report, the links stored in the session, and the history of every link of the attempt. */
  datatype Outcome = Outcome(
    report: Report, primaryLink: Option<Link>, groupLinks: seq<Link>,
    tried: seq<DeviceId>, established: seq<Link>, tornDown: seq<Link>)

  function Tried(e: Election): seq<DeviceId> {
    Map(e.failed, IdOf()) + (if e.primary.Some? then [e.primary.value.id] else [])
  }

  function Failures(devices: seq<Device>, e: Election, w: World): seq<MemberFailure> {
    Map(Filter(devices, Not(Up(w))), ConnectFailure(w)) + Map(e.failed, PrimaryFailure(w))
  }

  datatype SoloResult = SoloResult(
    established: seq<Link>, tornDown: seq<Link>, link: Option<Link>, failures: seq<MemberFailure>)

  /** Reconnect the only member left over NTP; its group link is torn down first. */
  function SoloAttempt(p: Device, w: World, attempt: nat): SoloResult {
    var grouped, solo := Link(p.id, Ptp, attempt), Link(p.id, Ntp, attempt);
    var a := w(p.id);
    if !a.reestablish.Established? then
      SoloResult([], [grouped], None, [Failure(p.id, EstablishmentPhase(a.reestablish))])
    else if !a.soloSetup then
      SoloResult([solo], [grouped, solo], None, [Failure(p.id, RtspSetup)])
    else
      SoloResult([solo], [grouped], Some(solo), [])
  }

  function Solo(o: Outcome, p: Device, w: World, attempt: nat): Outcome {
    var r := SoloAttempt(p, w, attempt);
    var failures := o.report.failures + r.failures;
    o.(established := o.established + r.established, tornDown := o.tornDown + r.tornDown, primaryLink := r.link,
       report := if r.link.Some? then Report(Some(p.id), [p.id], failures) else Report(None, [], failures))
  }

  /** Everything up to the election: live links, torn down candidates, failures so far. */
  function Elected(devices: seq<Device>, e: Election, w: World, attempt: nat): Outcome {
    Outcome(
      Report(None, [], Failures(devices, e, w)), None, [], Tried(e),
      Map(Filter(devices, Up(w)), LinkOf(attempt)), Map(e.failed, LinkOf(attempt)))
  }

  /** Secondaries that cannot join are torn down on their own. */
  function Joined(o: Outcome, lost: seq<Device>, w: World, attempt: nat): Outcome {
    o.(tornDown := o.tornDown + Map(lost, LinkOf(attempt)),
       report := o.report.(failures := o.report.failures + Map(lost, JoinFailure(w))))
  }

  function Store(o: Outcome, p: Device, survivors: seq<Device>, attempt: nat): Outcome {
    o.(primaryLink := Some(Link(p.id, Ptp, attempt)), groupLinks := Map(survivors, LinkOf(attempt)),
       report := Report(Some(p.id), [p.id] + Map(survivors, IdOf()), o.report.failures))
  }

  function SettledOutcome(o: Outcome, p: Device, others: seq<Device>, w: World, attempt: nat): Outcome {
    var survivors := Filter(others, Joins(w));
    var joined := Joined(o, Filter(others, Not(Joins(w))), w, attempt);
    if survivors == [] then Solo(joined, p, w, attempt) else Store(joined, p, survivors, attempt)
  }

  function ConnectOutcome(devices: seq<Device>, preferred: Option<DeviceId>, w: World, attempt: nat): Outcome {
    var e := Elect(Filter(devices, Up(w)), preferred, 2, w);
    var o := Elected(devices, e, w, attempt);
    if e.primary.None? then o.(tornDown := o.tornDown + Map(e.members, LinkOf(attempt)))
    else SettledOutcome(o, e.primary.value, Without(e.members, e.primary.value), w, attempt)
  }

  // ------------------------------------------------------------------
  // What every attempt guarantees
  // ------------------------------------------------------------------

  function Stored(o: Outcome): seq<Link> {
    (if o.primaryLink.Some? then [o.primaryLink.value] else []) + o.groupLinks
  }

  function Receivers(failures: seq<MemberFailure>): (r: seq<DeviceId>)
    ensures |r| == |failures| && forall i :: 0 <= i < |r| ==> r[i] == failures[i].receiver
  {
    seq(|failures|, i requires 0 <= i < |failures| => failures[i].receiver)
  }

  lemma ChoiceIsCandidate(healthy: seq<Device>, preferred: Option<DeviceId>)
    ensures var choice := ChoosePrimary(healthy, preferred);
            choice.Some? ==> choice.value in healthy && choice.value.supportsPtp
  {
  }

  /** The candidate that is tried now and fails, if there is one. */
  function FailingChoice(members: seq<Device>, preferred: Option<DeviceId>, tries: nat, w: World): Option<Device> {
    var choice := ChoosePrimary(members, preferred);
    if tries > 0 && choice.Some? && CriticalFailure(w(choice.value.id)).Some? then choice else None
  }

  lemma ElectStep(members: seq<Device>, preferred: Option<DeviceId>, tries: nat, w: World)
    ensures var failing := FailingChoice(members, preferred, tries, w);
            var e := Elect(members, preferred, tries, w);
            if failing.None? then
              && e.failed == [] && e.members == members
              && e.primary == (if tries > 0 then ChoosePrimary(members, preferred) else None)
              && (e.primary.Some? ==> e.primary.value in members)
            else
              var rest := Elect(Without(members, failing.value), None, tries - 1, w);
              && failing.value in members && tries > 0
              && e == rest.(failed := [failing.value] + rest.failed)
  {
    hide ChoosePrimary, CriticalFailure, Filter;
    ChoiceIsCandidate(members, preferred);
  }

  lemma {:induction false} ElectionKeepsMembers(members: seq<Device>, preferred: Option<DeviceId>, tries: nat, w: World)
    requires DistinctIds(members)
    ensures var e := Elect(members, preferred, tries, w);
            && DistinctIds(e.members) && (forall d :: d in e.members ==> d in members)
            && (e.primary.Some? ==> e.primary.value in e.members)
    decreases tries
  {
    hide Filter, Elect, FailingChoice;
    ElectStep(members, preferred, tries, w);
    var failing := FailingChoice(members, preferred, tries, w);
    if failing.Some? {
      ElectionKeepsMembers(Without(members, failing.value), None, tries - 1, w);
    }
  }

  /** The tried and torn down candidates and the remaining members are the live members. */
  lemma {:induction false} ElectionSplits<T>(
    members: seq<Device>, preferred: Option<DeviceId>, tries: nat, w: World, f: Device -> T)
    requires DistinctIds(members)
    ensures var e := Elect(members, preferred, tries, w);
            multiset(Map(members, f)) == multiset(Map(e.failed, f)) + multiset(Map(e.members, f))
    decreases tries
  {
    hide Map, Filter, Elect, FailingChoice;
    ElectStep(members, preferred, tries, w);
    var failing := FailingChoice(members, preferred, tries, w);
    if failing.None? {
      assert Map([], f) == [];
    } else {
      var d := failing.value;
      ElectionSplits(Without(members, d), None, tries - 1, w, f);
      OneOut(members, d, f);
      MapHead(d, Elect(Without(members, d), None, tries - 1, w).failed, f);
    }
  }

  lemma OneOut<T>(members: seq<Device>, d: Device, f: Device -> T)
    requires DistinctIds(members) && d in members
    ensures multiset(Map(members, f)) == multiset([f(d)]) + multiset(Map(Without(members, d), f))
  {
    FilterSplits(members, Is(d.id), f);
    FilterIs(members, d);
    MapHead(d, [], f);
    assert [d] + [] == [d];
  }

  /** Losing and surviving secondaries and the primary are the members of the election. */
  lemma MembersSplit<T>(members: seq<Device>, p: Device, w: World, f: Device -> T)
    requires DistinctIds(members) && p in members
    ensures var others := Without(members, p);
            multiset(Map(members, f)) ==
            multiset([f(p)]) + multiset(Map(Filter(others, Joins(w)), f)) + multiset(Map(Filter(others, Not(Joins(w))), f))
  {
    OneOut(members, p, f);
    FilterSplits(Without(members, p), Joins(w), f);
  }

  /** Links are torn down, stored, or still `held` by a member. */
  ghost predicate Balanced(o: Outcome, held: multiset<Link>) {
    multiset(o.established) == multiset(o.tornDown) + multiset(Stored(o)) + held
  }

  lemma SoloBalances(o: Outcome, p: Device, w: World, attempt: nat)
    requires Balanced(o, multiset{Link(p.id, Ptp, attempt)}) && Stored(o) == []
    ensures Balanced(Solo(o, p, w, attempt), multiset{})
  {
  }

  /** Every link of an attempt is stored once or torn down once, never both. */
  lemma {:induction false} LinksAreConserved(
    devices: seq<Device>, preferred: Option<DeviceId>, w: World, attempt: nat)
    requires DistinctIds(devices)
    ensures Balanced(ConnectOutcome(devices, preferred, w, attempt), multiset{})
  {
    hide Filter, Map, Elect, Failures, Solo;
    var live := Filter(devices, Up(w));
    var e := Elect(live, preferred, 2, w);
    var o := Elected(devices, e, w, attempt);
    ElectionSplits(live, preferred, 2, w, LinkOf(attempt));
    ElectionKeepsMembers(live, preferred, 2, w);
    assert Balanced(o, multiset(Map(e.members, LinkOf(attempt))));
    if e.primary.Some? {
      var p := e.primary.value;
      MembersSplit(e.members, p, w, LinkOf(attempt));
      var others := Without(e.members, p);
      var survivors, lost := Filter(others, Joins(w)), Filter(others, Not(Joins(w)));
      var joined := Joined(o, lost, w, attempt);
      assert Balanced(joined, multiset([Link(p.id, Ptp, attempt)]) + multiset(Map(survivors, LinkOf(attempt))));
      if survivors == [] {
        assert Map(survivors, LinkOf(attempt)) == [];
        SoloBalances(joined, p, w, attempt);
      }
    }
  }

  lemma {:induction false} NoDuplicatesCountOnce<T>(xs: seq<T>)
    requires forall i, j :: 0 <= i < j < |xs| ==> xs[i] != xs[j]
    ensures forall x :: x in xs ==> multiset(xs)[x] == 1
  {
    if xs != [] {
      NoDuplicatesCountOnce(xs[1..]);
      assert xs == [xs[0]] + xs[1..];
    }
  }

  lemma EstablishedAreDistinct(devices: seq<Device>, preferred: Option<DeviceId>, w: World, attempt: nat)
    requires DistinctIds(devices)
    ensures var links := ConnectOutcome(devices, preferred, w, attempt).established;
            forall i, j :: 0 <= i < j < |links| ==> links[i] != links[j]
  {
    hide Elect, Failures, Filter;
  }

  /** Counted link by link: each one established is torn down or stored, and only once. */
  lemma {:induction false} EachLinkEndsOnce(
    devices: seq<Device>, preferred: Option<DeviceId>, w: World, attempt: nat, link: Link)
    requires DistinctIds(devices)
    ensures var o := ConnectOutcome(devices, preferred, w, attempt);
            multiset(o.tornDown)[link] + multiset(Stored(o))[link] == if link in o.established then 1 else 0
  {
    hide ConnectOutcome, Stored;
    LinksAreConserved(devices, preferred, w, attempt);
    EstablishedAreDistinct(devices, preferred, w, attempt);
    var o := ConnectOutcome(devices, preferred, w, attempt);
    NoDuplicatesCountOnce(o.established);
    assert link in multiset(o.established) <==> link in o.established;
    assert multiset(o.established)[link] == multiset(o.tornDown)[link] + multiset(Stored(o))[link];
  }

  /** Up to the election, the failures name the members that did not establish or failed as primary. */
  lemma FailuresNameMembers(devices: seq<Device>, e: Election, w: World)
    ensures Receivers(Failures(devices, e, w))
         == Map(Filter(devices, Not(Up(w))), IdOf()) + Map(e.failed, IdOf())
  {
    hide Filter, CriticalFailure;
  }

  /** Everyone a report mentions, connected or failed, with multiplicity. */
  function Mentioned(r: Report): multiset<DeviceId> {
    multiset(r.connected) + multiset(Receivers(r.failures))
  }

  /** With a primary elected, the report adds it, the survivors and the lost to the failures so far. */
  lemma SettledReport(o: Outcome, p: Device, others: seq<Device>, w: World, attempt: nat)
    ensures Mentioned(SettledOutcome(o, p, others, w, attempt).report)
         == multiset(Receivers(o.report.failures)) + multiset([p.id])
            + multiset(Map(Filter(others, Joins(w)), IdOf())) + multiset(Map(Filter(others, Not(Joins(w))), IdOf()))
  {
    hide Filter, Receivers;
    var survivors, lost := Filter(others, Joins(w)), Filter(others, Not(Joins(w)));
    LostReceivers(o.report.failures, lost, w);
    var failures := o.report.failures + Map(lost, JoinFailure(w));
    var r := SoloAttempt(p, w, attempt);
    ReceiversConcat(failures, r.failures);
    assert Receivers([Failure(p.id, EstablishmentPhase(w(p.id).reestablish))]) == [p.id];
    assert Receivers([Failure(p.id, RtspSetup)]) == [p.id];
    assert Receivers([]) == [];
    if survivors == [] {
      assert Map(survivors, IdOf()) == [];
    }
  }

  lemma ReceiversConcat(a: seq<MemberFailure>, b: seq<MemberFailure>)
    ensures Receivers(a + b) == Receivers(a) + Receivers(b)
  {
  }

  lemma LostReceivers(failures: seq<MemberFailure>, lost: seq<Device>, w: World)
    ensures Receivers(failures + Map(lost, JoinFailure(w))) == Receivers(failures) + Map(lost, IdOf())
  {
  }

  /**
   * Connected and failed members are exactly the requested ones, each once, if and only if a primary
   * was elected or no live member was left over; and so whenever a primary is reported.
   */
  lemma {:induction false} ReportPartitionsMembers(
    devices: seq<Device>, preferred: Option<DeviceId>, w: World, attempt: nat)
    requires DistinctIds(devices)
    ensures var report := ConnectOutcome(devices, preferred, w, attempt).report;
            var e := Elect(Filter(devices, Up(w)), preferred, 2, w);
            && (Mentioned(report) == multiset(Map(devices, IdOf())) <==> e.primary.Some? || e.members == [])
            && (report.primary.Some? ==> Mentioned(report) == multiset(Map(devices, IdOf())))
  {
    hide Filter, Map, Elect, Failures, SettledOutcome, Without, Receivers;
    var live := Filter(devices, Up(w));
    var e := Elect(live, preferred, 2, w);
    var o := Elected(devices, e, w, attempt);
    FilterSplits(devices, Up(w), IdOf());
    ElectionSplits(live, preferred, 2, w, IdOf());
    FailuresNameMembers(devices, e, w);
    if e.primary.Some? {
      var p := e.primary.value;
      ElectionKeepsMembers(live, preferred, 2, w);
      MembersSplit(e.members, p, w, IdOf());
      SettledReport(o, p, Without(e.members, p), w, attempt);
    } else {
      LeftOver(e.members, Mentioned(ConnectOutcome(devices, preferred, w, attempt).report), multiset(Map(devices, IdOf())));
    }
  }

  lemma LeftOver(members: seq<Device>, mentioned: multiset<DeviceId>, all: multiset<DeviceId>)
    requires all == mentioned + multiset(Map(members, IdOf()))
    ensures mentioned == all <==> members == []
  {
    assert |all| == |mentioned| + |members|;
  }

  /** No member is connected twice, so the session's targets are distinct. */
  lemma ConnectedAreDistinct(devices: seq<Device>, preferred: Option<DeviceId>, w: World, attempt: nat)
    requires DistinctIds(devices)
    ensures var connected := ConnectOutcome(devices, preferred, w, attempt).report.connected;
            forall i, j :: 0 <= i < j < |connected| ==> connected[i] != connected[j]
  {
    hide ConnectOutcome, Mentioned, Elect;
    var report := ConnectOutcome(devices, preferred, w, attempt).report;
    ReportPartitionsMembers(devices, preferred, w, attempt);
    ReportMatchesSession(devices, preferred, w, attempt);
    if report.primary.Some? {
      NoDuplicatesCountOnce(Map(devices, IdOf()));
      MentionedOnce(report, Map(devices, IdOf()));
    }
  }

  lemma MentionedOnce(r: Report, ids: seq<DeviceId>)
    requires Mentioned(r) == multiset(ids) && forall id :: id in ids ==> multiset(ids)[id] == 1
    ensures forall i, j :: 0 <= i < j < |r.connected| ==> r.connected[i] != r.connected[j]
  {
    forall i, j | 0 <= i < j < |r.connected| ensures r.connected[i] != r.connected[j] {
      var id := r.connected[i];
      assert id in multiset(ids);
      if r.connected[j] == id {
        TwiceCounted(r.connected, i, j);
      }
    }
  }

  lemma TwiceCounted<T>(xs: seq<T>, i: nat, j: nat)
    requires i < j < |xs| && xs[i] == xs[j]
    ensures multiset(xs)[xs[i]] >= 2
  {
    assert xs == xs[..j] + [xs[j]] + xs[j + 1..];
    assert xs[..j][i] in multiset(xs[..j]);
  }

  /** The report describes the session: primary first, then one link per connected member. */
  lemma ReportMatchesSession(devices: seq<Device>, preferred: Option<DeviceId>, w: World, attempt: nat)
    ensures var o := ConnectOutcome(devices, preferred, w, attempt);
            && |Stored(o)| == |o.report.connected|
            && (forall i :: 0 <= i < |Stored(o)| ==> Stored(o)[i].receiver == o.report.connected[i])
            && (o.report.primary.Some? <==> o.report.connected != [])
            && (o.report.primary.Some? ==> o.report.connected[0] == o.report.primary.value)
            && (forall link :: link in Stored(o) ==> (link.timing == Ntp <==> |Stored(o)| == 1))
  {
    hide Elect, Filter, Failures, Tried, CriticalFailure;
  }

  // ------------------------------------------------------------------
  // Which members are tried as primary
  // ------------------------------------------------------------------

  /** `d` is the smallest PTP-capable live device that is not among `except`. */
  ghost predicate SmallestLive(d: DeviceId, devices: seq<Device>, w: World, except: seq<DeviceId>) {
    && (exists x :: x in devices && Eligible(x, w, except) && x.id == d)
    && forall x :: x in devices && Eligible(x, w, except) ==> d <= x.id
  }

  predicate Eligible(d: Device, w: World, except: seq<DeviceId>) {
    w(d.id).establish.Established? && d.supportsPtp && d.id !in except
  }

  /** The election spelled out: one choice, and after its failure exactly one more. */
  lemma {:induction false} ElectionIsTwoChoices(live: seq<Device>, preferred: Option<DeviceId>, w: World)
    ensures var e, first := Elect(live, preferred, 2, w), ChoosePrimary(live, preferred);
            if first.None? then Tried(e) == [] && e.primary.None?
            else if CriticalFailure(w(first.value.id)).None? then Tried(e) == [first.value.id] && e.primary == first
            else
              var second := ChoosePrimary(Without(live, first.value), None);
              if second.None? then Tried(e) == [first.value.id] && e.primary.None?
              else
                && Tried(e) == [first.value.id, second.value.id]
                && (e.primary.Some? ==> e.primary == second)
  {
    hide ChoosePrimary, CriticalFailure, Filter;
    var first := ChoosePrimary(live, preferred);
    if first.Some? && CriticalFailure(w(first.value.id)).Some? {
      var left := Without(live, first.value);
      var second := ChoosePrimary(left, None);
      var e := Elect(left, None, 1, w);
      assert Elect(live, preferred, 2, w) == e.(failed := [first.value] + e.failed);
      if second.Some? && CriticalFailure(w(second.value.id)).Some? {
        assert e.failed == [second.value] && e.primary.None?;
      }
    }
  }

  lemma ReportedPrimaryIsElected(devices: seq<Device>, preferred: Option<DeviceId>, w: World, attempt: nat)
    ensures var o := ConnectOutcome(devices, preferred, w, attempt);
            var e := Elect(Filter(devices, Up(w)), preferred, 2, w);
            && o.tried == Tried(e)
            && (o.report.primary.Some? ==> e.primary.Some? && o.report.primary.value == e.primary.value.id)
  {
    hide Elect, Filter, Failures, Map, Tried;
  }

  /** The preferred device if it is eligible, else the smallest eligible one. */
  ghost predicate RightChoice(d: DeviceId, devices: seq<Device>, preferred: Option<DeviceId>, w: World, except: seq<DeviceId>) {
    if preferred.Some? && exists x :: x in devices && Eligible(x, w, except) && x.id == preferred.value
    then d == preferred.value
    else SmallestLive(d, devices, w, except)
  }

  lemma ChoiceIsRight(
    devices: seq<Device>, candidates: seq<Device>, preferred: Option<DeviceId>, w: World, except: seq<DeviceId>)
    requires forall x :: x in candidates <==> x in devices && w(x.id).establish.Established? && x.id !in except
    ensures var choice := ChoosePrimary(candidates, preferred);
            && (choice.None? <==> forall x :: x in devices ==> !Eligible(x, w, except))
            && (choice.Some? ==> RightChoice(choice.value.id, devices, preferred, w, except))
  {
    var choice := ChoosePrimary(candidates, preferred);
    if choice.Some? {
      assert Eligible(choice.value, w, except);
    }
  }

  /**
   * At most two primaries are tried: first the preferred one if it is live and PTP-capable,
   * else the smallest such identity; then the smallest of the others. A reported primary is
   * the last one tried, and its predecessor failed.
   */
  lemma {:induction false} AtMostTwoPrimaries(devices: seq<Device>, preferred: Option<DeviceId>, w: World, attempt: nat)
    requires DistinctIds(devices)
    ensures var o := ConnectOutcome(devices, preferred, w, attempt);
            && |o.tried| <= 2
            && (|o.tried| == 0 <==> forall x :: x in devices ==> !Eligible(x, w, []))
            && (|o.tried| > 0 ==> RightChoice(o.tried[0], devices, preferred, w, []))
            && (|o.tried| == 2 ==>
                  SmallestLive(o.tried[1], devices, w, [o.tried[0]]) && CriticalFailure(w(o.tried[0])).Some?)
            && (o.report.primary.Some? ==> |o.tried| > 0 && o.report.primary.value == o.tried[|o.tried| - 1])
  {
    hide ConnectOutcome, Elect, ChoosePrimary, CriticalFailure, SmallestLive, Eligible, Tried, Filter;
    var live := Filter(devices, Up(w));
    ReportedPrimaryIsElected(devices, preferred, w, attempt);
    ElectionIsTwoChoices(live, preferred, w);
    ChoiceIsRight(devices, live, preferred, w, []);
    var first := ChoosePrimary(live, preferred);
    if first.Some? {
      ChoiceIsRight(devices, Without(live, first.value), None, w, [first.value.id]);
    }
  }

  /** The election sees its members as a set. */
  lemma {:induction false} ElectionIgnoresOrder(
    a: seq<Device>, b: seq<Device>, preferred: Option<DeviceId>, tries: nat, w: World)
    requires DistinctIds(a) && DistinctIds(b) && forall d :: d in a <==> d in b
    ensures var x, y := Elect(a, preferred, tries, w), Elect(b, preferred, tries, w);
            && x.primary == y.primary && x.failed == y.failed
            && (forall d :: d in x.members <==> d in y.members)
    decreases tries
  {
    hide Filter, Elect, FailingChoice, ChoosePrimary;
    SameFailingChoice(a, b, preferred, tries, w);
    ElectStep(a, preferred, tries, w);
    ElectStep(b, preferred, tries, w);
    var failing := FailingChoice(a, preferred, tries, w);
    if failing.Some? {
      ElectionIgnoresOrder(Without(a, failing.value), Without(b, failing.value), None, tries - 1, w);
    }
  }

  lemma SameFailingChoice(a: seq<Device>, b: seq<Device>, preferred: Option<DeviceId>, tries: nat, w: World)
    requires DistinctIds(a) && forall d :: d in a <==> d in b
    ensures FailingChoice(a, preferred, tries, w) == FailingChoice(b, preferred, tries, w)
    ensures FailingChoice(a, preferred, tries, w).None? ==>
              Elect(a, preferred, tries, w).primary == Elect(b, preferred, tries, w).primary
  {
    hide ChoosePrimary, CriticalFailure, Filter;
    ChoiceIgnoresOrder(a, b, preferred);
  }

  /**
   * Since the answers depend on identity only, every order of the same devices tries the same
   * primaries, reports the same one and connects the same members.
   */
  lemma {:induction false} OrderDoesNotMatter(
    a: seq<Device>, b: seq<Device>, preferred: Option<DeviceId>, w: World, attempt: nat)
    requires DistinctIds(a) && DistinctIds(b) && forall d :: d in a <==> d in b
    ensures var x, y := ConnectOutcome(a, preferred, w, attempt), ConnectOutcome(b, preferred, w, attempt);
            && x.tried == y.tried && x.report.primary == y.report.primary
            && (forall id :: id in x.report.connected <==> id in y.report.connected)
  {
    hide Elect, Failures, Filter, Map;
    var liveA, liveB := Filter(a, Up(w)), Filter(b, Up(w));
    ElectionIgnoresOrder(liveA, liveB, preferred, 2, w);
    var e, f := Elect(liveA, preferred, 2, w), Elect(liveB, preferred, 2, w);
    if e.primary.Some? {
      var p := e.primary.value;
      var x, y := Filter(Without(e.members, p), Joins(w)), Filter(Without(f.members, p), Joins(w));
      assert x == [] <==> y == [] by {
        assert x != [] ==> x[0] in x;
        assert y != [] ==> y[0] in y;
      }
      SameIds(x, y);
    }
  }

  lemma SameIds(a: seq<Device>, b: seq<Device>)
    requires forall d :: d in a <==> d in b
    ensures forall id :: id in Map(a, IdOf()) <==> id in Map(b, IdOf())
  {
    forall id | id in Map(a, IdOf()) ensures id in Map(b, IdOf()) {
      var i :| 0 <= i < |a| && a[i].id == id;
      assert a[i] in a;
      var j :| 0 <= j < |b| && b[j] == a[i];
      assert Map(b, IdOf())[j] == id;
    }
    forall id | id in Map(b, IdOf()) ensures id in Map(a, IdOf()) {
      var i :| 0 <= i < |b| && b[i].id == id;
      assert b[i] in b;
      var j :| 0 <= j < |a| && a[j] == b[i];
      assert Map(a, IdOf())[j] == id;
    }
  }
}
