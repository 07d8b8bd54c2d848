/**
 * Debounced persistence: offered values wait for their deadline, newer generations
 * replace older ones whole, and the worker commits what is pending before it exits.
 */
module Preferences {
  import opened Bytes

  const STANDARD_DEBOUNCE_MS: int := 500
  const GEOMETRY_DEBOUNCE_MS: int := 1000

  /**
   * `settings` stands for the seven fields whose change counts; `window` for the rest, that is
   * the window geometry and the schema version.
   */
  datatype Value = Value(settings: int, window: int)

  predicate DiffersOnlyInWindow(previous: Value, next: Value) {
    previous.settings == next.settings
  }

  datatype Offer = Offer(generation: nat, value: Value)

  datatype Pending = Pending(deadlineMs: nat, offer: Offer)

  // ------------------------------------------------------------------
  // The debounce state
  // ------------------------------------------------------------------

  function DeadlineFor(now: nat, pending: Option<Pending>, value: Value, reference: Option<Value>): nat {
    var geometryOnly :=
      if pending.Some? then DiffersOnlyInWindow(pending.value.offer.value, value)
      else reference.Some? && DiffersOnlyInWindow(reference.value, value);
    now + (if geometryOnly then GEOMETRY_DEBOUNCE_MS else STANDARD_DEBOUNCE_MS)
  }

  /** An older generation is dropped whole; anything else replaces value and timer together. */
  function AfterOffer(pending: Option<Pending>, now: nat, o: Offer, reference: Option<Value>): Option<Pending> {
    if pending.Some? && o.generation < pending.value.offer.generation then pending
    else Some(Pending(DeadlineFor(now, pending, o.value, reference), o))
  }

  class DebounceState {
    var pending: Option<Pending>

    constructor ()
      ensures pending.None?
    {
      pending := None;
    }

    method OfferValue(now: nat, o: Offer, reference: Option<Value>) returns (deadline: nat)
      modifies this
      ensures pending == AfterOffer(old(pending), now, o, reference)
      ensures pending.Some? && deadline == pending.value.deadlineMs
    {
      if pending.Some? && o.generation < pending.value.offer.generation {
        return pending.value.deadlineMs;
      }
      var geometryOnly;
      if pending.Some? {
        geometryOnly := DiffersOnlyInWindow(pending.value.offer.value, o.value);
      } else {
        geometryOnly := reference.Some? && DiffersOnlyInWindow(reference.value, o.value);
      }
      deadline := now + (if geometryOnly then GEOMETRY_DEBOUNCE_MS else STANDARD_DEBOUNCE_MS);
      pending := Some(Pending(deadline, o));
    }

    method TakeDue(now: nat) returns (due: Option<Offer>)
      modifies this
      ensures due.Some? <==> old(pending).Some? && old(pending).value.deadlineMs <= now
      ensures due.Some? ==> due.value == old(pending).value.offer && pending.None?
      ensures due.None? ==> pending == old(pending)
    {
      if pending.Some? && pending.value.deadlineMs <= now {
        due := Some(pending.value.offer);
        pending := None;
      } else {
        due := None;
      }
    }

    method TakePending() returns (taken: Option<Offer>)
      modifies this
      ensures pending.None?
      ensures taken == if old(pending).Some? then Some(old(pending).value.offer) else None
    {
      taken := if pending.Some? then Some(pending.value.offer) else None;
      pending := None;
    }
  }

  // ------------------------------------------------------------------
  // The worker
  // ------------------------------------------------------------------

  /** What the command channel answers while the worker waits. */
  datatype Arrival = Save(offer: Offer) | FlushAndShutdown | Timeout | Disconnected

  /**
   * One pass of the worker loop: the time when it starts, the answer of the channel if it is
   * asked, the time after that, and whether a write in this pass succeeds.
   */
  datatype Pass = Pass(now: nat, arrival: Arrival, later: nat, writes: bool)

  /** `offers` and `commits` are all offers received and all commits attempted, in order. */
  datatype Worker = Worker(
    pending: Option<Pending>, lastCommitted: Option<Value>, exited: bool,
    offers: seq<Offer>, commits: seq<Offer>)

  const IDLE: Worker := Worker(None, None, false, [], [])

  function Commit(w: Worker, writes: bool): Worker
    requires w.pending.Some?
  {
    var o := w.pending.value.offer;
    w.(pending := None, commits := w.commits + [o], lastCommitted := if writes then Some(o.value) else w.lastCommitted)
  }

  function Finish(w: Worker, writes: bool): Worker {
    (if w.pending.Some? then Commit(w, writes) else w).(exited := true)
  }

  /** Without a pending value the worker blocks, so a timeout cannot reach it then. */
  function WorkerStep(w: Worker, p: Pass): Worker {
    if w.exited then w
    else if w.pending.Some? && w.pending.value.deadlineMs <= p.now then Commit(w, p.writes)
    else
      match p.arrival
      case Save(o) =>
        var reference := if w.pending.Some? then Some(w.pending.value.offer.value) else w.lastCommitted;
        w.(pending := AfterOffer(w.pending, p.later, o, reference), offers := w.offers + [o])
      case FlushAndShutdown => Finish(w, p.writes)
      case Disconnected => Finish(w, p.writes)
      case Timeout =>
        if w.pending.Some? && w.pending.value.deadlineMs <= p.later then Commit(w, p.writes) else w
  }

  function RunOf(passes: seq<Pass>): Worker {
    if passes == [] then IDLE else WorkerStep(RunOf(passes[..|passes| - 1]), passes[|passes| - 1])
  }

  /** The worker loop, one pass of the script per iteration until it exits. */
  method RunWorker(passes: seq<Pass>) returns (commits: seq<Offer>, exited: bool)
    ensures commits == RunOf(passes).commits && exited == RunOf(passes).exited
  {
    var debounce := new DebounceState();
    var lastCommitted: Option<Value> := None;
    ghost var offers: seq<Offer> := [];
    commits, exited := [], false;
    for i := 0 to |passes|
      invariant fresh(debounce)
      invariant RunOf(passes[..i]) == Worker(debounce.pending, lastCommitted, exited, offers, commits)
    {
      assert passes[..i + 1][..i] == passes[..i];
      if exited {
        continue;
      }
      var p := passes[i];
      if debounce.pending.Some? && p.now >= debounce.pending.value.deadlineMs {
        var due := debounce.TakeDue(p.now);
        commits := commits + [due.value];
        lastCommitted := if p.writes then Some(due.value.value) else lastCommitted;
        continue;
      }
      match p.arrival {
        case Save(o) =>
          var reference := if debounce.pending.Some? then Some(debounce.pending.value.offer.value) else lastCommitted;
          var _ := debounce.OfferValue(p.later, o, reference);
          offers := offers + [o];
        case Timeout =>
          var due := debounce.TakeDue(p.later);
          if due.Some? {
            commits := commits + [due.value];
            lastCommitted := if p.writes then Some(due.value.value) else lastCommitted;
          }
        case _ =>
          var taken := debounce.TakePending();
          if taken.Some? {
            commits := commits + [taken.value];
            lastCommitted := if p.writes then Some(taken.value.value) else lastCommitted;
          }
          exited := true;
      }
    }
    assert passes[..|passes|] == passes;
  }

  // ------------------------------------------------------------------
  // What every run guarantees
  // ------------------------------------------------------------------

  /** The latest of the offers with the highest generation. */
  function Newest(offers: seq<Offer>): Offer
    requires offers != []
  {
    var init, last := offers[..|offers| - 1], offers[|offers| - 1];
    if init != [] && last.generation < Newest(init).generation then Newest(init) else last
  }

  /** Offer `k` has the highest generation, and no later offer reaches it. */
  predicate IsNewest(offers: seq<Offer>, k: nat) {
    && k < |offers|
    && (forall i :: 0 <= i < |offers| ==> offers[i].generation <= offers[k].generation)
    && (forall i :: k < i < |offers| ==> offers[i].generation < offers[k].generation)
  }

  lemma {:induction false} NewestIsNewest(offers: seq<Offer>) returns (k: nat)
    requires offers != []
    ensures IsNewest(offers, k) && Newest(offers) == offers[k]
  {
    var init, last := offers[..|offers| - 1], offers[|offers| - 1];
    if init == [] {
      return 0;
    }
    k := NewestIsNewest(init);
    if !(last.generation < Newest(init).generation) {
      k := |init|;
    }
  }

  lemma NewestOfMore(offers: seq<Offer>, o: Offer)
    ensures Newest(offers + [o]) ==
            if offers != [] && o.generation < Newest(offers).generation then Newest(offers) else o
  {
    assert (offers + [o])[..|offers|] == offers;
  }

  /** Offers between two cuts form one window; the last window is still open. */
  ghost predicate Cuts(w: Worker, cuts: seq<nat>) {
    && |cuts| == |w.commits| + 1 && cuts[0] == 0
    && (forall j :: 0 <= j < |w.commits| ==> cuts[j] < cuts[j + 1])
    && (forall j :: 0 <= j < |cuts| ==> cuts[j] <= |w.offers|)
  }

  /**
   * Every commit is, whole, the newest offer of its window, and what is pending is the newest
   * offer since the last take; without anything pending no offer is outstanding.
   */
  ghost predicate Disciplined(w: Worker, cuts: seq<nat>) {
    && Cuts(w, cuts)
    && (forall j :: 0 <= j < |w.commits| ==> w.commits[j] == Newest(w.offers[cuts[j]..cuts[j + 1]]))
    && (var open := w.offers[cuts[|w.commits|]..];
        if w.pending.None? then open == [] else open != [] && w.pending.value.offer == Newest(open))
    && (w.exited ==> w.pending.None?)
  }

  lemma OfferKeepsDiscipline(w: Worker, cuts: seq<nat>, now: nat, o: Offer, reference: Option<Value>)
    requires Disciplined(w, cuts) && !w.exited
    ensures Disciplined(w.(pending := AfterOffer(w.pending, now, o, reference), offers := w.offers + [o]), cuts)
  {
    hide Newest;
    var offers := w.offers + [o];
    forall j | 0 <= j < |w.commits| ensures offers[cuts[j]..cuts[j + 1]] == w.offers[cuts[j]..cuts[j + 1]] {}
    var open := w.offers[cuts[|w.commits|]..];
    NewestOfMore(open, o);
    assert offers[cuts[|w.commits|]..] == open + [o];
  }

  lemma CommitKeepsDiscipline(w: Worker, cuts: seq<nat>, writes: bool)
    requires Disciplined(w, cuts) && w.pending.Some?
    ensures Disciplined(Commit(w, writes), cuts + [|w.offers|])
  {
    hide Newest;
    var n := |w.commits|;
    assert w.offers[cuts[n]..|w.offers|] == w.offers[cuts[n]..];
    var after := Commit(w, writes);
    var cuts' := cuts + [|w.offers|];
    forall j | 0 <= j < |after.commits|
      ensures cuts'[j] < cuts'[j + 1] && after.commits[j] == Newest(after.offers[cuts'[j]..cuts'[j + 1]])
    {
      if j < n {
        assert after.commits[j] == w.commits[j] && cuts'[j] == cuts[j] && cuts'[j + 1] == cuts[j + 1];
      }
    }
  }

  /** Over every run the commits cut the offers into windows and name the newest of each. */
  lemma {:induction false} EveryRunIsDisciplined(passes: seq<Pass>)
    ensures exists cuts :: Disciplined(RunOf(passes), cuts)
  {
    hide Newest, WorkerStep;
    if passes == [] {
      assert Disciplined(RunOf(passes), [0]);
    } else {
      EveryRunIsDisciplined(passes[..|passes| - 1]);
      var w, p := RunOf(passes[..|passes| - 1]), passes[|passes| - 1];
      var cuts :| Disciplined(w, cuts);
      var next := StepKeepsDiscipline(w, p, cuts);
      assert RunOf(passes) == WorkerStep(w, p);
      assert Disciplined(RunOf(passes), next);
    }
  }

  lemma StepKeepsDiscipline(w: Worker, p: Pass, cuts: seq<nat>) returns (next: seq<nat>)
    requires Disciplined(w, cuts)
    ensures Disciplined(WorkerStep(w, p), next)
  {
    hide Newest;
    next := cuts;
    var after := WorkerStep(w, p);
    if |after.commits| > |w.commits| {
      CommitKeepsDiscipline(w, cuts, p.writes);
      next := cuts + [|w.offers|];
    } else if |after.offers| > |w.offers| {
      var reference := if w.pending.Some? then Some(w.pending.value.offer.value) else w.lastCommitted;
      OfferKeepsDiscipline(w, cuts, p.later, p.arrival.offer, reference);
    }
  }

  ghost predicate InOrder(offers: seq<Offer>) {
    forall i, j :: 0 <= i <= j < |offers| ==> offers[i].generation <= offers[j].generation
  }

  lemma NewestInOrder(offers: seq<Offer>)
    requires offers != [] && InOrder(offers)
    ensures Newest(offers) == offers[|offers| - 1]
  {
    var k := NewestIsNewest(offers);
    var last := |offers| - 1;
    assert offers[k].generation <= offers[last].generation;
  }

  /**
   * When generations arrive in order, commits are attempted in order, each window commits its last
   * offer, and a worker that has exited attempted the very last offer last.
   */
  lemma {:induction false} OrderedOffersCommitInOrder(passes: seq<Pass>)
    requires InOrder(RunOf(passes).offers)
    ensures InOrder(RunOf(passes).commits)
    ensures var w := RunOf(passes);
            w.exited && w.offers != [] ==> w.commits != [] && w.commits[|w.commits| - 1] == w.offers[|w.offers| - 1]
  {
    hide Newest, RunOf;
    EveryRunIsDisciplined(passes);
    var w := RunOf(passes);
    var cuts :| Disciplined(w, cuts);
    forall j | 0 <= j < |w.commits| ensures cuts[j + 1] > 0 && w.commits[j] == w.offers[cuts[j + 1] - 1] {
      NewestInOrder(w.offers[cuts[j]..cuts[j + 1]]);
    }
    forall i, j | 0 <= i <= j < |w.commits| ensures w.commits[i].generation <= w.commits[j].generation {
      CutsIncrease(w, cuts, i + 1, j + 1);
    }
  }

  lemma {:induction false} CutsIncrease(w: Worker, cuts: seq<nat>, i: nat, j: nat)
    requires Cuts(w, cuts) && i <= j < |cuts|
    ensures cuts[i] <= cuts[j]
  {
    if i < j {
      CutsIncrease(w, cuts, i, j - 1);
    }
  }

  /** Out of order the claim fails: an old generation offered after a commit is committed too. */
  lemma LateOldGenerationIsCommitted(newer: Offer, older: Offer)
    requires older.generation < newer.generation
    ensures var passes := [
              Pass(0, Save(newer), 0, true), Pass(1000, Timeout, 1000, true),
              Pass(1000, Save(older), 1000, true), Pass(1001, FlushAndShutdown, 1001, true)];
            RunOf(passes).commits == [newer, older]
  {
    var p0, p1, p2, p3 := Pass(0, Save(newer), 0, true), Pass(1000, Timeout, 1000, true),
      Pass(1000, Save(older), 1000, true), Pass(1001, FlushAndShutdown, 1001, true);
    assert [p0, p1, p2, p3][..3] == [p0, p1, p2];
    assert [p0, p1, p2][..2] == [p0, p1];
    assert [p0, p1][..1] == [p0];
    assert [p0][..0] == [];
    assert RunOf([]) == IDLE;
    assert RunOf([p0]).pending.value.offer == newer;
    assert RunOf([p0, p1]).commits == [newer];
    assert RunOf([p0, p1, p2]).pending.value.offer == older;
  }

  /** Time does not run backwards, within a pass or between passes. */
  ghost predicate Timely(passes: seq<Pass>) {
    && (forall i :: 0 <= i < |passes| ==> passes[i].now <= passes[i].later)
    && (forall i, j :: 0 <= i < j < |passes| ==> passes[i].later <= passes[j].now)
  }

  /** Each offer falls due before the next one arrives, one second later. */
  function OneByOne(offers: seq<Offer>): (passes: seq<Pass>)
    ensures |passes| == 2 * |offers|
  {
    if offers == [] then []
    else
      var n := |offers| - 1;
      OneByOne(offers[..n])
      + [Pass(1000 * n, Save(offers[n]), 1000 * n, true), Pass(1000 * n + 1000, Timeout, 1000 * n + 1000, true)]
  }

  lemma {:induction false} OneByOneIsTimely(offers: seq<Offer>)
    ensures Timely(OneByOne(offers))
    ensures forall i :: 0 <= i < |OneByOne(offers)| ==> OneByOne(offers)[i].later <= 1000 * |offers|
  {
    if offers != [] {
      OneByOneIsTimely(offers[..|offers| - 1]);
    }
  }

  lemma TwoMore(passes: seq<Pass>, p: Pass, q: Pass)
    ensures RunOf(passes + [p, q]) == WorkerStep(WorkerStep(RunOf(passes), p), q)
  {
    var more := passes + [p, q];
    assert more[..|passes| + 1][..|passes|] == passes;
    assert more[..|passes| + 1] == passes + [p];
  }

  lemma {:induction false} OneByOneCommitsAll(offers: seq<Offer>)
    ensures var w := RunOf(OneByOne(offers));
            w.offers == offers && w.commits == offers && w.pending.None? && !w.exited
  {
    hide RunOf;
    if offers == [] {
      NothingRun();
    } else {
      var n := |offers| - 1;
      OneByOneCommitsAll(offers[..n]);
      TwoMore(
        OneByOne(offers[..n]),
        Pass(1000 * n, Save(offers[n]), 1000 * n, true), Pass(1000 * n + 1000, Timeout, 1000 * n + 1000, true));
      assert offers == offers[..n] + [offers[n]];
    }
  }

  lemma NothingRun()
    ensures RunOf([]) == IDLE
  {
  }

  /** Every run in which time moves forward and these offers arrive attempts its commits in order. */
  ghost predicate AlwaysCommitsInOrder(offers: seq<Offer>) {
    forall passes :: Timely(passes) && RunOf(passes).offers == offers ==> InOrder(RunOf(passes).commits)
  }

  /** Commit attempts follow the generations on all runs exactly when the offers arrive in order. */
  lemma CommitOrderExactly(offers: seq<Offer>)
    ensures AlwaysCommitsInOrder(offers) <==> InOrder(offers)
  {
    hide RunOf;
    if AlwaysCommitsInOrder(offers) {
      OneByOneIsTimely(offers);
      OneByOneCommitsAll(offers);
      assert InOrder(RunOf(OneByOne(offers)).commits);
    }
    if InOrder(offers) {
      forall passes | Timely(passes) && RunOf(passes).offers == offers ensures InOrder(RunOf(passes).commits) {
        OrderedOffersCommitInOrder(passes);
      }
    }
  }

  ghost predicate LastIsNewest(offers: seq<Offer>) {
    offers != [] ==> forall i :: 0 <= i < |offers| ==> offers[i].generation <= offers[|offers| - 1].generation
  }

  /** Whenever these offers arrived and the worker exited, its last attempt was the last offer. */
  ghost predicate AlwaysCommitsLast(offers: seq<Offer>) {
    forall passes :: Timely(passes) && RunOf(passes).offers == offers && RunOf(passes).exited && offers != [] ==>
      RunOf(passes).commits != [] && RunOf(passes).commits[|RunOf(passes).commits| - 1] == offers[|offers| - 1]
  }

  /** All offers arrive at once. */
  function Burst(offers: seq<Offer>): (passes: seq<Pass>)
    ensures |passes| == |offers| && forall i :: 0 <= i < |passes| ==> passes[i].now == passes[i].later == 0
  {
    if offers == [] then [] else Burst(offers[..|offers| - 1]) + [Pass(0, Save(offers[|offers| - 1]), 0, true)]
  }

  lemma OneMore(passes: seq<Pass>, p: Pass)
    ensures RunOf(passes + [p]) == WorkerStep(RunOf(passes), p)
  {
    assert (passes + [p])[..|passes|] == passes;
  }

  lemma {:induction false} BurstPendsNewest(offers: seq<Offer>)
    ensures var w := RunOf(Burst(offers));
            && w.offers == offers && w.commits == [] && !w.exited
            && (if offers == [] then w.pending.None? else w.pending.Some? && w.pending.value.offer == Newest(offers))
            && (w.pending.Some? ==> w.pending.value.deadlineMs > 0)
  {
    hide RunOf, Newest;
    if offers == [] {
      NothingRun();
    } else {
      var init, last := offers[..|offers| - 1], offers[|offers| - 1];
      BurstPendsNewest(init);
      OneMore(Burst(init), Pass(0, Save(last), 0, true));
      NewestOfMore(init, last);
      assert offers == init + [last];
    }
  }

  /** The last offer is always the last attempt exactly when its generation is the highest. */
  lemma LastOfferCommittedExactly(offers: seq<Offer>)
    ensures AlwaysCommitsLast(offers) <==> LastIsNewest(offers)
  {
    hide RunOf, Newest;
    if LastIsNewest(offers) {
      forall passes | Timely(passes) && RunOf(passes).offers == offers && RunOf(passes).exited && offers != []
        ensures RunOf(passes).commits != [] && RunOf(passes).commits[|RunOf(passes).commits| - 1] == offers[|offers| - 1]
      {
        EveryRunIsDisciplined(passes);
        LastCommitOfExited(RunOf(passes));
      }
    }
    if AlwaysCommitsLast(offers) && offers != [] {
      var passes := Burst(offers) + [Pass(0, FlushAndShutdown, 0, true)];
      BurstPendsNewest(offers);
      OneMore(Burst(offers), Pass(0, FlushAndShutdown, 0, true));
      assert Timely(passes) && RunOf(passes).commits == [] + [Newest(offers)];
      var k := NewestIsNewest(offers);
    }
  }

  lemma LastCommitOfExited(w: Worker)
    requires (exists cuts :: Disciplined(w, cuts)) && w.exited && w.offers != [] && LastIsNewest(w.offers)
    ensures w.commits != [] && w.commits[|w.commits| - 1] == w.offers[|w.offers| - 1]
  {
    hide Newest;
    var cuts :| Disciplined(w, cuts);
    var n := |w.commits|;
    assert w.offers[cuts[n]..] == [];
    if n > 0 {
      var window := w.offers[cuts[n - 1]..cuts[n]];
      var k := NewestIsNewest(window);
      assert window[|window| - 1] == w.offers[|w.offers| - 1];
      assert window[k].generation <= window[|window| - 1].generation;
    }
  }

  // ------------------------------------------------------------------
  // Deadlines
  // ------------------------------------------------------------------

  /** An accepted offer falls due one second later if only the window changed, else half a second later. */
  lemma DeadlineExactly(pending: Option<Pending>, now: nat, o: Offer, reference: Option<Value>)
    requires pending.Some? ==> pending.value.offer.generation <= o.generation
    ensures var after := AfterOffer(pending, now, o, reference);
            && after.Some? && after.value.offer == o
            && after.value.deadlineMs ==
               if pending.Some? then
                 if pending.value.offer.value.settings == o.value.settings then now + 1000 else now + 500
               else if reference.Some? && reference.value.settings == o.value.settings then now + 1000 else now + 500
  {
  }

  /** Pass `j` brought offer `o` at time `at`. */
  ghost predicate ArrivedAt(passes: seq<Pass>, j: nat, o: Offer, at: nat) {
    j < |passes| && passes[j].arrival == Save(o) && passes[j].later == at
  }

  ghost predicate Arrived(passes: seq<Pass>, o: Offer, at: nat) {
    exists j: nat :: ArrivedAt(passes, j, o, at)
  }

  lemma ArrivedEarlier(passes: seq<Pass>, p: Pass, o: Offer, at: nat)
    ensures Arrived(passes, o, at) ==> Arrived(passes + [p], o, at)
    ensures p.arrival == Save(o) && p.later == at ==> Arrived(passes + [p], o, at)
  {
    if Arrived(passes, o, at) {
      var j: nat :| ArrivedAt(passes, j, o, at);
      assert ArrivedAt(passes + [p], j, o, at);
    }
    if p.arrival == Save(o) && p.later == at {
      assert ArrivedAt(passes + [p], |passes|, o, at);
    }
  }

  /** What is pending arrived half a second or a second before its deadline. */
  ghost predicate WaitsFrom(passes: seq<Pass>, p: Pending) {
    (p.deadlineMs >= 500 && Arrived(passes, p.offer, p.deadlineMs - 500))
    || (p.deadlineMs >= 1000 && Arrived(passes, p.offer, p.deadlineMs - 1000))
  }

  lemma {:induction false} PendingWaits(passes: seq<Pass>)
    ensures RunOf(passes).pending.Some? ==> WaitsFrom(passes, RunOf(passes).pending.value)
  {
    hide WaitsFrom, WorkerStep;
    if passes != [] {
      var init, p := passes[..|passes| - 1], passes[|passes| - 1];
      PendingWaits(init);
      assert passes == init + [p];
      assert RunOf(passes) == WorkerStep(RunOf(init), p);
      StepWaits(init, RunOf(init), p);
    }
  }

  lemma StepWaits(passes: seq<Pass>, w: Worker, p: Pass)
    requires w.pending.Some? ==> WaitsFrom(passes, w.pending.value)
    ensures WorkerStep(w, p).pending.Some? ==> WaitsFrom(passes + [p], WorkerStep(w, p).pending.value)
  {
    hide Arrived;
    var after := WorkerStep(w, p).pending;
    if after.Some? {
      var o, d := after.value.offer, after.value.deadlineMs;
      if d >= 500 {
        ArrivedEarlier(passes, p, o, d - 500);
      }
      if d >= 1000 {
        ArrivedEarlier(passes, p, o, d - 1000);
      }
    }
  }

  /**
   * On every run a commit that is not forced by the exit comes at least half a second after its offer
   * arrived; an exit commits what is pending at once.
   */
  lemma CommitWaitsForDeadline(passes: seq<Pass>, p: Pass)
    requires |RunOf(passes + [p]).commits| > |RunOf(passes).commits|
    ensures var w, after := RunOf(passes), RunOf(passes + [p]);
            && w.pending.Some? && after.commits == w.commits + [w.pending.value.offer]
            && (!after.exited ==>
                  exists at: nat :: Arrived(passes, w.pending.value.offer, at) && (at + 500 <= p.now || at + 500 <= p.later))
  {
    hide Arrived, RunOf;
    OneMore(passes, p);
    PendingWaits(passes);
    var w := RunOf(passes);
    var d := w.pending.value.deadlineMs;
    if d >= 500 && Arrived(passes, w.pending.value.offer, d - 500) {
      assert d - 500 + 500 <= p.now || d - 500 + 500 <= p.later || RunOf(passes + [p]).exited;
    }
  }

  /** The value of the last commit whose write succeeded. */
  function LastWritten(passes: seq<Pass>): Option<Value> {
    if passes == [] then None
    else
      var before, after := RunOf(passes[..|passes| - 1]).commits, RunOf(passes).commits;
      if |after| > |before| && passes[|passes| - 1].writes then Some(after[|after| - 1].value)
      else LastWritten(passes[..|passes| - 1])
  }

  lemma {:induction false} LastCommittedIsLastWritten(passes: seq<Pass>)
    ensures RunOf(passes).lastCommitted == LastWritten(passes)
  {
    hide WorkerStep;
    if passes != [] {
      var w, p := RunOf(passes[..|passes| - 1]), passes[|passes| - 1];
      LastCommittedIsLastWritten(passes[..|passes| - 1]);
      assert RunOf(passes) == WorkerStep(w, p);
      StepWrites(w, p);
    }
  }

  lemma StepWrites(w: Worker, p: Pass)
    ensures var after := WorkerStep(w, p);
            if |after.commits| > |w.commits| then
              after.lastCommitted == if p.writes then Some(after.commits[|w.commits|].value) else w.lastCommitted
            else after.lastCommitted == w.lastCommitted
    ensures |w.commits| <= |WorkerStep(w, p).commits| <= |w.commits| + 1
  {
  }

  /**
   * When a pass commits: exactly if something is pending in a live worker and its deadline has come,
   * at the start of the pass or when its wait times out, or the worker is told to exit.
   */
  lemma CommitsExactly(passes: seq<Pass>, p: Pass)
    ensures var w, after := RunOf(passes), RunOf(passes + [p]);
            |after.commits| > |w.commits| <==>
              && !w.exited && w.pending.Some?
              && (|| w.pending.value.deadlineMs <= p.now
                  || (p.arrival == Timeout && w.pending.value.deadlineMs <= p.later)
                  || p.arrival == FlushAndShutdown || p.arrival == Disconnected)
  {
    hide RunOf;
    OneMore(passes, p);
  }

  /**
   * The deadline of a value saved on any run: a second after it arrived if it has the settings of what
   * was pending, or without that of what was last written; else half a second after.
   */
  lemma SaveDeadline(passes: seq<Pass>, p: Pass, o: Offer)
    requires var w := RunOf(passes);
             && !w.exited && p.arrival == Save(o)
             && (w.pending.Some? ==> p.now < w.pending.value.deadlineMs && w.pending.value.offer.generation <= o.generation)
    ensures var w, after := RunOf(passes), RunOf(passes + [p]).pending;
            var compared := if w.pending.Some? then Some(w.pending.value.offer.value) else LastWritten(passes);
            && after.Some? && after.value.offer == o
            && after.value.deadlineMs ==
               p.later + if compared.Some? && compared.value.settings == o.value.settings then 1000 else 500
  {
    hide RunOf;
    OneMore(passes, p);
    LastCommittedIsLastWritten(passes);
  }
}
