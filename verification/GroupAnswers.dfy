/** What a group connect reports, explained by the members' answers alone. */
module GroupAnswers {
  import opened Bytes
  import opened GroupConnect
  import opened GroupFailures

  /** The three requests a primary must answer well. */
  predicate Serves(a: Answers) {
    a.setup && a.timing && a.primaryPeers
  }

  /** The two requests a secondary must answer well. */
  predicate JoinsWell(a: Answers) {
    a.join && a.memberPeers
  }

  /** `phase` is that of the first of the three requests that went wrong. */
  predicate FirstLack(a: Answers, phase: SetupPhase) {
    || (phase == RtspSetup && !a.setup)
    || (phase == PrimaryTiming && a.setup && !a.timing)
    || (phase == SetPeers && a.setup && a.timing && !a.primaryPeers)
  }

  lemma CriticalFailureExactly(a: Answers)
    ensures CriticalFailure(a).None? <==> Serves(a)
    ensures forall phase :: CriticalFailure(a) == Some(phase) <==> FirstLack(a, phase)
  {
  }

  // ------------------------------------------------------------------
  // The election
  // ------------------------------------------------------------------

  lemma {:induction false} ElectionByAnswers(members: seq<Device>, preferred: Option<DeviceId>, tries: nat, w: World)
    ensures var e := Elect(members, preferred, tries, w);
            && (forall d :: d in e.failed ==> !Serves(w(d.id)))
            && (e.primary.Some? ==> Serves(w(e.primary.value.id)) && e.primary.value.supportsPtp)
    decreases tries
  {
    hide Elect, Filter, CriticalFailure, Serves;
    ElectStep(members, preferred, tries, w);
    var failing := FailingChoice(members, preferred, tries, w);
    ChoiceIsCandidate(members, preferred);
    if failing.Some? {
      CriticalFailureExactly(w(failing.value.id));
      ElectionByAnswers(Without(members, failing.value), None, tries - 1, w);
    } else {
      var choice := ChoosePrimary(members, preferred);
      if tries > 0 && choice.Some? {
        CriticalFailureExactly(w(choice.value.id));
      }
    }
  }

  /**
   * The primaries tried, by the answers alone: a second one exactly when the first answered one of its
   * three requests badly and another live PTP-capable device is there; a reported primary answered all
   * three well, and it is the last one tried.
   */
  lemma TriesByAnswers(devices: seq<Device>, preferred: Option<DeviceId>, w: World, attempt: nat)
    requires DistinctIds(devices)
    ensures var o := ConnectOutcome(devices, preferred, w, attempt);
            && |o.tried| <= 2
            && (|o.tried| == 2 <==>
                  |o.tried| > 0 && !Serves(w(o.tried[0])) && exists x :: x in devices && Eligible(x, w, [o.tried[0]]))
            && (o.report.primary.Some? ==>
                  && |o.tried| > 0 && o.report.primary.value == o.tried[|o.tried| - 1]
                  && Serves(w(o.report.primary.value)))
  {
    hide ConnectOutcome, Elect, ChoosePrimary, CriticalFailure, Eligible, Tried, Filter, Serves;
    var live := Filter(devices, Up(w));
    ReportedPrimaryIsElected(devices, preferred, w, attempt);
    ElectionIsTwoChoices(live, preferred, w);
    ElectionByAnswers(live, preferred, 2, w);
    AtMostTwoPrimaries(devices, preferred, w, attempt);
    var first := ChoosePrimary(live, preferred);
    if first.Some? {
      CriticalFailureExactly(w(first.value.id));
      ChoiceIsRight(devices, Without(live, first.value), None, w, [first.value.id]);
    }
  }

  // ------------------------------------------------------------------
  // Who is connected
  // ------------------------------------------------------------------

  /** Live, never tried as primary, and answering both requests of a secondary well. */
  predicate Secondary(d: Device, w: World, tried: seq<DeviceId>) {
    w(d.id).establish.Established? && d.id !in tried && JoinsWell(w(d.id))
  }

  function Survivors(e: Election, w: World): seq<Device>
    requires e.primary.Some?
  {
    Filter(Without(e.members, e.primary.value), Joins(w))
  }

  lemma TriedExactly(devices: seq<Device>, e: Election, w: World, d: Device)
    requires DistinctIds(devices) && Sound(devices, e, w) && d in devices
    ensures d.id in Tried(e) <==> d in e.failed || e.primary == Some(d)
  {
    hide Follows;
    var ids := Map(e.failed, IdOf());
    if d.id in ids {
      var i :| 0 <= i < |ids| && ids[i] == d.id;
      assert e.failed[i] in e.failed;
      SameIdSameDevice(devices, e.failed[i], d);
    }
    if d in e.failed {
      var i :| 0 <= i < |e.failed| && e.failed[i] == d;
      assert ids[i] == d.id;
    }
    if e.primary.Some? && e.primary.value.id == d.id {
      SameIdSameDevice(devices, e.primary.value, d);
    }
  }

  lemma SurvivorExactly(devices: seq<Device>, e: Election, w: World, d: Device)
    requires DistinctIds(devices) && Sound(devices, e, w) && e.primary.Some? && d in devices
    ensures d in Survivors(e, w) <==> Secondary(d, w, Tried(e))
  {
    hide Follows, Tried, DistinctIds;
    TriedExactly(devices, e, w, d);
    if d in e.members && d != e.primary.value {
      SameIdApart(e.members, d, e.primary.value);
    }
  }

  /** The lone elected primary is reconnected over NTP. */
  predicate ReconnectsAlone(a: Answers) {
    a.reestablish.Established? && a.soloSetup
  }

  lemma SettledByAnswers(o: Outcome, p: Device, others: seq<Device>, w: World, attempt: nat)
    ensures var report, survivors := SettledOutcome(o, p, others, w, attempt).report, Filter(others, Joins(w));
            && (report.primary.Some? <==> survivors != [] || ReconnectsAlone(w(p.id)))
            && (report.primary.Some? ==> report.connected == [p.id] + Map(survivors, IdOf()))
  {
    hide Filter;
    if Filter(others, Joins(w)) == [] {
      assert Map(Filter(others, Joins(w)), IdOf()) == [];
    }
  }

  /**
   * Whether there is a session, and who is in it, by the answers alone: the last candidate tried
   * serves, and some secondary joins or the candidate can be reconnected alone; connected are then
   * that candidate and exactly the secondaries that join.
   */
  lemma SessionByAnswers(devices: seq<Device>, preferred: Option<DeviceId>, w: World, attempt: nat)
    requires DistinctIds(devices)
    ensures var o := ConnectOutcome(devices, preferred, w, attempt);
            && (o.report.primary.Some? <==>
                  && |o.tried| > 0 && Serves(w(o.tried[|o.tried| - 1]))
                  && ((exists d :: d in devices && Secondary(d, w, o.tried)) || ReconnectsAlone(w(o.tried[|o.tried| - 1]))))
            && (o.report.primary.Some? ==>
                  forall d :: d in devices ==>
                    (d.id in o.report.connected <==> d.id == o.report.primary.value || Secondary(d, w, o.tried)))
  {
    hide Elect, Failures, Filter, SettledOutcome, Tried, Serves, Secondary, ReconnectsAlone, Sound;
    var e := ElectionOf(devices, preferred, w);
    var o := ConnectOutcome(devices, preferred, w, attempt);
    ElectionIsSound(devices, preferred, w);
    ElectionByAnswers(Filter(devices, Up(w)), preferred, 2, w);
    ReportedPrimaryIsElected(devices, preferred, w, attempt);
    LastTried(e);
    if e.primary.Some? {
      var p := e.primary.value;
      var survivors := Survivors(e, w);
      forall d | d in devices ensures d in survivors <==> Secondary(d, w, Tried(e)) {
        SurvivorExactly(devices, e, w, d);
      }
      SurvivorsAreDevices(devices, e, w);
      SettledByAnswers(Elected(devices, e, w, attempt), p, Without(e.members, p), w, attempt);
      assert survivors != [] ==> survivors[0] in survivors;
      NamedExactly(devices, survivors);
    }
  }

  /** The last one tried is the primary, or failed. */
  lemma LastTried(e: Election)
    ensures e.primary.Some? ==> |Tried(e)| > 0 && Tried(e)[|Tried(e)| - 1] == e.primary.value.id
    ensures e.primary.None? && |Tried(e)| > 0 ==>
              exists d :: d in e.failed && d.id == Tried(e)[|Tried(e)| - 1]
  {
    if e.primary.None? && |Tried(e)| > 0 {
      var last := e.failed[|e.failed| - 1];
      assert last in e.failed && Tried(e)[|Tried(e)| - 1] == last.id;
    }
  }

  lemma SurvivorsAreDevices(devices: seq<Device>, e: Election, w: World)
    requires Sound(devices, e, w) && e.primary.Some?
    ensures forall d :: d in Survivors(e, w) ==> d in devices
  {
    hide Follows;
  }

  lemma NamedExactly(devices: seq<Device>, some: seq<Device>)
    requires DistinctIds(devices) && forall d :: d in some ==> d in devices
    ensures forall d :: d in devices ==> (d.id in Map(some, IdOf()) <==> d in some)
  {
    forall d | d in devices ensures d.id in Map(some, IdOf()) <==> d in some {
      if d.id in Map(some, IdOf()) {
        var i :| 0 <= i < |some| && some[i].id == d.id;
        assert some[i] in some;
        SameIdSameDevice(devices, some[i], d);
      }
      if d in some {
        var i :| 0 <= i < |some| && some[i] == d;
        assert Map(some, IdOf())[i] == d.id;
      }
    }
  }

  // ------------------------------------------------------------------
  // Why members failed
  // ------------------------------------------------------------------

  /** The phase of a connection that is not established: pairing material fails in a phase of its own. */
  predicate ConnectPhase(e: Establishment, phase: SetupPhase) {
    (e == TransportError && phase == Connect) || (e == PairingError && phase == Pair)
  }

  /** The one reason for this failure in the answers of its receiver. */
  predicate Explained(f: MemberFailure, a: Answers, tried: bool) {
    && f.retryable == (f.phase in {Connect, PrimaryTiming, SetPeers, StartAudio})
    && (if !a.establish.Established? then ConnectPhase(a.establish, f.phase)
        else if tried && !Serves(a) then FirstLack(a, f.phase)
        else if tried then
          if a.reestablish.Established? then !a.soloSetup && f.phase == RtspSetup else ConnectPhase(a.reestablish, f.phase)
        else (!a.join && f.phase == RtspSetup) || (a.join && !a.memberPeers && f.phase == SetPeers))
  }

  ghost predicate AllExplained(failures: seq<MemberFailure>, w: World, tried: seq<DeviceId>) {
    forall f :: f in failures ==> Explained(f, w(f.receiver), f.receiver in tried)
  }

  lemma ExplainedParts(a: seq<MemberFailure>, b: seq<MemberFailure>, w: World, tried: seq<DeviceId>)
    requires AllExplained(a, w, tried) && AllExplained(b, w, tried)
    ensures AllExplained(a + b, w, tried)
  {
    hide Explained;
  }

  lemma MappedExplained(xs: seq<Device>, g: Device -> MemberFailure, w: World, tried: seq<DeviceId>)
    requires forall d :: d in xs ==> Explained(g(d), w(d.id), d.id in tried) && g(d).receiver == d.id
    ensures AllExplained(Map(xs, g), w, tried)
  {
    hide Explained;
    forall f | f in Map(xs, g) ensures Explained(f, w(f.receiver), f.receiver in tried) {
      var i :| 0 <= i < |xs| && Map(xs, g)[i] == f;
      assert xs[i] in xs;
    }
  }

  lemma DownExplained(d: Device, w: World, tried: seq<DeviceId>)
    requires !Up(w)(d)
    ensures Explained(ConnectFailure(w)(d), w(d.id), d.id in tried) && ConnectFailure(w)(d).receiver == d.id
  {
  }

  lemma PrimaryExplained(d: Device, w: World, tried: seq<DeviceId>)
    requires Up(w)(d) && !Serves(w(d.id)) && d.id in tried
    ensures Explained(PrimaryFailure(w)(d), w(d.id), d.id in tried) && PrimaryFailure(w)(d).receiver == d.id
  {
  }

  lemma JoinExplained(d: Device, w: World, tried: seq<DeviceId>)
    requires Up(w)(d) && !Joins(w)(d) && d.id !in tried
    ensures Explained(JoinFailure(w)(d), w(d.id), d.id in tried) && JoinFailure(w)(d).receiver == d.id
  {
  }

  lemma SoloExplained(p: Device, w: World, attempt: nat, tried: seq<DeviceId>)
    requires Up(w)(p) && Serves(w(p.id)) && p.id in tried
    ensures AllExplained(SoloAttempt(p, w, attempt).failures, w, tried)
  {
  }

  /**
   * Every failure reported has its reason in the answers of its receiver: the phase names the first
   * request that went wrong in the role the receiver had, and the phase alone says whether to retry.
   */
  lemma FailuresByAnswers(devices: seq<Device>, preferred: Option<DeviceId>, w: World, attempt: nat)
    requires DistinctIds(devices)
    ensures var o := ConnectOutcome(devices, preferred, w, attempt); AllExplained(o.report.failures, w, o.tried)
  {
    hide Elect, Filter, Map, Tried, Serves, AllExplained, Explained, SoloAttempt, ConnectFailure, PrimaryFailure, JoinFailure, Sound;
    var e := ElectionOf(devices, preferred, w);
    var tried := Tried(e);
    ElectionIsSound(devices, preferred, w);
    ReportedPrimaryIsElected(devices, preferred, w, attempt);
    EarlyFailuresByAnswers(devices, preferred, w);
    if e.primary.Some? {
      LostByAnswers(devices, e, w);
      var p, lost := e.primary.value, Lost(e, w);
      ElectionByAnswers(Filter(devices, Up(w)), preferred, 2, w);
      PrimaryIsLive(devices, e, w);
      TriedExactly(devices, e, w, p);
      SoloExplained(p, w, attempt, tried);
      var early := Failures(devices, e, w);
      ExplainedParts(early, Map(lost, JoinFailure(w)), w, tried);
      ExplainedParts(early + Map(lost, JoinFailure(w)), SoloAttempt(p, w, attempt).failures, w, tried);
    }
  }

  lemma PrimaryIsLive(devices: seq<Device>, e: Election, w: World)
    requires Sound(devices, e, w) && e.primary.Some?
    ensures e.primary.value in devices && Up(w)(e.primary.value)
  {
  }

  lemma EarlyFailuresByAnswers(devices: seq<Device>, preferred: Option<DeviceId>, w: World)
    requires DistinctIds(devices)
    ensures var e := ElectionOf(devices, preferred, w); AllExplained(Failures(devices, e, w), w, Tried(e))
  {
    hide Elect, Map, Tried, Serves, AllExplained, Explained, ConnectFailure, PrimaryFailure, Follows;
    var e := ElectionOf(devices, preferred, w);
    var tried := Tried(e);
    ElectionIsSound(devices, preferred, w);
    ElectionByAnswers(Filter(devices, Up(w)), preferred, 2, w);
    forall d | d in Filter(devices, Not(Up(w)))
      ensures Explained(ConnectFailure(w)(d), w(d.id), d.id in tried) && ConnectFailure(w)(d).receiver == d.id
    {
      DownExplained(d, w, tried);
    }
    forall d | d in e.failed
      ensures Explained(PrimaryFailure(w)(d), w(d.id), d.id in tried) && PrimaryFailure(w)(d).receiver == d.id
    {
      TriedExactly(devices, e, w, d);
      PrimaryExplained(d, w, tried);
    }
    MappedExplained(Filter(devices, Not(Up(w))), ConnectFailure(w), w, tried);
    MappedExplained(e.failed, PrimaryFailure(w), w, tried);
    ExplainedParts(Map(Filter(devices, Not(Up(w))), ConnectFailure(w)), Map(e.failed, PrimaryFailure(w)), w, tried);
  }

  lemma LostByAnswers(devices: seq<Device>, e: Election, w: World)
    requires DistinctIds(devices) && Sound(devices, e, w) && e.primary.Some?
    ensures AllExplained(Map(Lost(e, w), JoinFailure(w)), w, Tried(e))
  {
    hide Map, Tried, AllExplained, Explained, JoinFailure, Follows;
    var tried := Tried(e);
    forall d | d in Lost(e, w)
      ensures Explained(JoinFailure(w)(d), w(d.id), d.id in tried) && JoinFailure(w)(d).receiver == d.id
    {
      TriedExactly(devices, e, w, d);
      LostIsMember(e, w, d);
      JoinExplained(d, w, tried);
    }
    MappedExplained(Lost(e, w), JoinFailure(w), w, tried);
  }
}
