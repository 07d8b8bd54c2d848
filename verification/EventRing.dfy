/**
 * Bounded per-connection event rings and the bounded drain across all of them: every
 * recorded event is drained once, still buffered, or counted as evicted.
 */
module EventRing {
  const EVENT_RING_CAPACITY: int := 256

  datatype Event = Event(elapsedNs: nat, seqno: nat, connection: nat, kind: nat)

  // ------------------------------------------------------------------
  // Ordering by (elapsed, seq)
  // ------------------------------------------------------------------

  predicate KeyLess(a: Event, b: Event) {
    a.elapsedNs < b.elapsedNs || (a.elapsedNs == b.elapsedNs && a.seqno < b.seqno)
  }

  /** Recorded earlier, or at the same time under no higher number. */
  predicate NotLater(a: Event, b: Event) {
    a.elapsedNs < b.elapsedNs || (a.elapsedNs == b.elapsedNs && a.seqno <= b.seqno)
  }

  lemma KeyOrder(a: Event, b: Event)
    ensures NotLater(a, b) <==> !KeyLess(b, a)
  {
  }

  predicate Sorted(s: seq<Event>) {
    forall i, j :: 0 <= i < j < |s| ==> !KeyLess(s[j], s[i])
  }

  predicate StrictlySorted(s: seq<Event>) {
    forall i, j :: 0 <= i < j < |s| ==> KeyLess(s[i], s[j])
  }

  /** The events of one connection, in order. */
  function Of(s: seq<Event>, c: nat): (r: seq<Event>)
    ensures forall e :: e in r <==> e in s && e.connection == c
  {
    if s == [] then []
    else
      var last := s[|s| - 1];
      assert s == s[..|s| - 1] + [last];
      Of(s[..|s| - 1], c) + (if last.connection == c then [last] else [])
  }

  lemma OfSnoc(s: seq<Event>, e: Event, c: nat)
    ensures Of(s + [e], c) == Of(s, c) + (if e.connection == c then [e] else [])
  {
    assert (s + [e])[..|s|] == s;
  }

  lemma {:induction false} OfConcat(a: seq<Event>, b: seq<Event>, c: nat)
    ensures Of(a + b, c) == Of(a, c) + Of(b, c)
  {
    hide Of;
    if b == [] {
      OfNone(c);
      assert a + b == a && Of(a, c) + [] == Of(a, c);
    } else {
      var init, last := b[..|b| - 1], b[|b| - 1];
      OfConcat(a, init, c);
      OfSnoc(a + init, last, c);
      OfSnoc(init, last, c);
      assert a + b == (a + init) + [last] && b == init + [last];
    }
  }

  lemma OfNone(c: nat)
    ensures Of([], c) == []
  {
  }

  /** A selection of a sorted sequence is sorted. */
  lemma {:induction false} OfSorted(s: seq<Event>, c: nat)
    requires Sorted(s)
    ensures Sorted(Of(s, c))
  {
    if s != [] {
      var init, last := s[..|s| - 1], s[|s| - 1];
      OfSorted(init, c);
      forall e | e in init ensures !KeyLess(last, e) {
        var i :| 0 <= i < |init| && init[i] == e;
        assert s[i] == e;
      }
    }
  }

  lemma {:induction false} OfMultiset(s: seq<Event>, c: nat, e: Event)
    ensures multiset(Of(s, c))[e] == if e.connection == c then multiset(s)[e] else 0
  {
    if s != [] {
      OfMultiset(s[..|s| - 1], c, e);
      assert s == s[..|s| - 1] + [s[|s| - 1]];
    }
  }

  lemma SameLast(a: seq<Event>, b: seq<Event>)
    requires Sorted(a) && StrictlySorted(b) && multiset(a) == multiset(b) && a != [] && b != []
    ensures a[|a| - 1] == b[|b| - 1]
  {
    var x, y := a[|a| - 1], b[|b| - 1];
    assert x in multiset(a) && y in multiset(b);
    var i :| 0 <= i < |a| && a[i] == y;
    var j :| 0 <= j < |b| && b[j] == x;
    assert j < |b| - 1 ==> KeyLess(x, y);
    assert i < |a| - 1 ==> !KeyLess(x, y);
  }

  lemma PrefixSorted(s: seq<Event>)
    requires s != []
    ensures Sorted(s) ==> Sorted(s[..|s| - 1])
    ensures StrictlySorted(s) ==> StrictlySorted(s[..|s| - 1])
  {
    hide KeyLess;
  }

  lemma DropLast(s: seq<Event>)
    requires s != []
    ensures multiset(s) == multiset(s[..|s| - 1]) + multiset{s[|s| - 1]}
  {
    assert s == s[..|s| - 1] + [s[|s| - 1]];
  }

  /** There is only one way to sort events whose keys differ. */
  lemma {:induction false} SortedIsUnique(a: seq<Event>, b: seq<Event>)
    requires Sorted(a) && StrictlySorted(b) && multiset(a) == multiset(b)
    ensures a == b
  {
    hide Sorted, StrictlySorted;
    assert |a| == |multiset(a)| == |multiset(b)| == |b|;
    if a != [] {
      PrefixSorted(a);
      PrefixSorted(b);
      SameLast(a, b);
      DropLast(a);
      DropLast(b);
      var x := a[|a| - 1];
      var a', b' := a[..|a| - 1], b[..|b| - 1];
      assert multiset(a') == multiset(a) - multiset{x} && multiset(b') == multiset(b) - multiset{x};
      SortedIsUnique(a', b');
      assert a == a' + [x] && b == b' + [x];
    }
  }

  /** Sorting the pool keeps every connection's own order. */
  lemma {:induction false} SortKeepsConnectionOrder(pooled: seq<Event>, sorted: seq<Event>, c: nat)
    requires Sorted(sorted) && multiset(sorted) == multiset(pooled) && StrictlySorted(Of(pooled, c))
    ensures Of(sorted, c) == Of(pooled, c)
  {
    hide Of;
    OfSorted(sorted, c);
    forall e ensures multiset(Of(sorted, c))[e] == multiset(Of(pooled, c))[e] {
      OfMultiset(sorted, c, e);
      OfMultiset(pooled, c, e);
    }
    assert multiset(Of(sorted, c)) == multiset(Of(pooled, c));
    SortedIsUnique(Of(sorted, c), Of(pooled, c));
  }

  /** Any sort by key; ties between connections may come out either way. */
  method SortByKey(pooled: seq<Event>) returns (sorted: seq<Event>)
    ensures Sorted(sorted) && multiset(sorted) == multiset(pooled)
  {
    sorted := [];
    for k := 0 to |pooled|
      invariant Sorted(sorted) && multiset(sorted) == multiset(pooled[..k])
    {
      var e, at := pooled[k], |sorted|;
      while at > 0 && KeyLess(e, sorted[at - 1])
        invariant 0 <= at <= |sorted|
        invariant forall j :: at <= j < |sorted| ==> KeyLess(e, sorted[j])
      {
        at := at - 1;
      }
      InsertSorted(sorted, e, at);
      assert pooled[..k + 1] == pooled[..k] + [e];
      assert sorted == sorted[..at] + sorted[at..];
      sorted := sorted[..at] + [e] + sorted[at..];
    }
    assert pooled[..|pooled|] == pooled;
  }

  lemma InsertSorted(s: seq<Event>, e: Event, at: nat)
    requires Sorted(s) && at <= |s|
    requires at > 0 ==> !KeyLess(e, s[at - 1])
    requires forall j :: at <= j < |s| ==> KeyLess(e, s[j])
    ensures Sorted(s[..at] + [e] + s[at..])
  {
  }

  // ------------------------------------------------------------------
  // The ledger of one connection
  // ------------------------------------------------------------------

  /** The events whose fate is `true`, in order. */
  function Drained(events: seq<Event>, fates: seq<bool>): seq<Event>
    requires |events| == |fates|
  {
    if events == [] then []
    else
      Drained(events[..|events| - 1], fates[..|fates| - 1])
      + (if fates[|fates| - 1] then [events[|events| - 1]] else [])
  }

  /** How many fates are `false`. */
  function Evicted(fates: seq<bool>): nat {
    if fates == [] then 0
    else Evicted(fates[..|fates| - 1]) + (if fates[|fates| - 1] then 0 else 1)
  }

  /**
   * Everything connection `c` recorded, oldest first, each event stamped with its number: the first
   * ones have a fate, drained (`true`) or evicted (`false`), and the rest are exactly the ring.
   */
  ghost predicate Ledger(
    c: nat, recorded: seq<Event>, fates: seq<bool>, ring: seq<Event>, dropped: nat, drained: seq<Event>, now: nat)
  {
    && |fates| <= |recorded| && recorded[|fates|..] == ring
    && drained == Drained(recorded[..|fates|], fates)
    && dropped == Evicted(fates)
    && |ring| <= EVENT_RING_CAPACITY
    && (forall k :: 0 <= k < |recorded| ==>
          recorded[k].connection == c && recorded[k].seqno == k && recorded[k].elapsedNs <= now)
    && (forall j, k :: 0 <= j < k < |recorded| ==> recorded[j].elapsedNs <= recorded[k].elapsedNs)
  }

  lemma LedgerRingIsSorted(
    c: nat, recorded: seq<Event>, fates: seq<bool>, ring: seq<Event>, dropped: nat, drained: seq<Event>, now: nat)
    requires Ledger(c, recorded, fates, ring, dropped, drained, now)
    ensures StrictlySorted(ring) && forall e :: e in ring ==> e.connection == c
  {
    forall i, j | 0 <= i < j < |ring| ensures KeyLess(ring[i], ring[j]) {
      assert ring[i] == recorded[|fates| + i] && ring[j] == recorded[|fates| + j];
    }
  }

  lemma LedgerRingFits(
    c: nat, recorded: seq<Event>, fates: seq<bool>, ring: seq<Event>, dropped: nat, drained: seq<Event>, now: nat)
    requires Ledger(c, recorded, fates, ring, dropped, drained, now)
    ensures |ring| <= EVENT_RING_CAPACITY
  {
  }

  /** Every recorded event is counted once: drained, evicted or still buffered. */
  lemma LedgerBalances(
    c: nat, recorded: seq<Event>, fates: seq<bool>, ring: seq<Event>, dropped: nat, drained: seq<Event>, now: nat)
    requires Ledger(c, recorded, fates, ring, dropped, drained, now)
    ensures |recorded| == |drained| + dropped + |ring|
  {
    FatesBalance(recorded[..|fates|], fates);
  }

  lemma {:induction false} FatesBalance(events: seq<Event>, fates: seq<bool>)
    requires |events| == |fates|
    ensures |Drained(events, fates)| + Evicted(fates) == |fates|
  {
    if events != [] {
      FatesBalance(events[..|events| - 1], fates[..|fates| - 1]);
    }
  }

  /** Evicting the oldest buffered event gives it a fate and counts it. */
  lemma EvictKeepsLedger(
    c: nat, recorded: seq<Event>, fates: seq<bool>, ring: seq<Event>, dropped: nat, drained: seq<Event>, now: nat)
    requires Ledger(c, recorded, fates, ring, dropped, drained, now) && ring != []
    ensures Ledger(c, recorded, fates + [false], ring[1..], dropped + 1, drained, now)
  {
    FateSnoc(recorded, fates, false);
    assert recorded[|fates| + 1..] == ring[1..];
  }

  lemma DrainedSnoc(events: seq<Event>, fates: seq<bool>, e: Event, fate: bool)
    requires |events| == |fates|
    ensures Drained(events + [e], fates + [fate]) == Drained(events, fates) + (if fate then [e] else [])
  {
    assert (events + [e])[..|events|] == events && (fates + [fate])[..|fates|] == fates;
  }

  lemma EvictedSnoc(fates: seq<bool>, fate: bool)
    ensures Evicted(fates + [fate]) == Evicted(fates) + (if fate then 0 else 1)
  {
    assert (fates + [fate])[..|fates|] == fates;
  }

  lemma FateSnoc(recorded: seq<Event>, fates: seq<bool>, fate: bool)
    requires |fates| < |recorded|
    ensures var n, next := |fates|, fates + [fate];
            && Drained(recorded[..n + 1], next) == Drained(recorded[..n], fates) + (if fate then [recorded[n]] else [])
            && Evicted(next) == Evicted(fates) + (if fate then 0 else 1)
  {
    hide Drained, Evicted;
    var n := |fates|;
    assert recorded[..n + 1] == recorded[..n] + [recorded[n]];
    DrainedSnoc(recorded[..n], fates, recorded[n], fate);
    EvictedSnoc(fates, fate);
  }

  lemma RecordKeepsLedger(
    c: nat, recorded: seq<Event>, fates: seq<bool>, ring: seq<Event>, dropped: nat, drained: seq<Event>, now: nat, e: Event)
    requires Ledger(c, recorded, fates, ring, dropped, drained, now) && |ring| < EVENT_RING_CAPACITY
    requires e.connection == c && e.seqno == |recorded| && now <= e.elapsedNs
    ensures Ledger(c, recorded + [e], fates, ring + [e], dropped, drained, e.elapsedNs)
  {
    assert (recorded + [e])[..|fates|] == recorded[..|fates|];
    assert (recorded + [e])[|fates|..] == ring + [e];
  }

  lemma DrainOneKeepsLedger(
    c: nat, recorded: seq<Event>, fates: seq<bool>, ring: seq<Event>, dropped: nat, drained: seq<Event>, now: nat)
    requires Ledger(c, recorded, fates, ring, dropped, drained, now) && ring != []
    ensures Ledger(c, recorded, fates + [true], ring[1..], dropped, drained + [ring[0]], now)
  {
    FateSnoc(recorded, fates, true);
    assert recorded[|fates| + 1..] == ring[1..];
  }

  /** Draining the `k` oldest buffered events gives them their fate; the rest stays buffered. */
  lemma {:induction false} DrainKeepsLedger(
    c: nat, recorded: seq<Event>, fates: seq<bool>, ring: seq<Event>, dropped: nat, drained: seq<Event>, now: nat, k: nat)
    requires Ledger(c, recorded, fates, ring, dropped, drained, now) && k <= |ring|
    ensures Ledger(c, recorded, fates + Trues(k), ring[k..], dropped, drained + ring[..k], now)
  {
    hide Ledger;
    if k == 0 {
      assert fates + Trues(0) == fates && drained + ring[..0] == drained && ring[0..] == ring;
    } else {
      DrainKeepsLedger(c, recorded, fates, ring, dropped, drained, now, k - 1);
      DrainOneKeepsLedger(c, recorded, fates + Trues(k - 1), ring[k - 1..], dropped, drained + ring[..k - 1], now);
      assert fates + Trues(k - 1) + [true] == fates + Trues(k);
      assert ring[k - 1..][1..] == ring[k..];
      assert drained + ring[..k - 1] + [ring[k - 1..][0]] == drained + ring[..k];
    }
  }

  // ------------------------------------------------------------------
  // The source
  // ------------------------------------------------------------------

  class ClientDiagnosticsSource {
    var rings: seq<seq<Event>>
    var nextSeq: seq<nat>
    var overflowDropped: seq<nat>
    /** Per connection: all recorded events and the fates given so far; and all drained events. */
    ghost var recorded: seq<seq<Event>>
    ghost var fates: seq<seq<bool>>
    ghost var drainLog: seq<Event>
    ghost var now: nat

    ghost predicate Valid()
      reads this
    {
      && |rings| == |nextSeq| == |overflowDropped| == |recorded| == |fates|
      && (forall c :: 0 <= c < |rings| ==> nextSeq[c] == |recorded[c]|)
      && (forall c :: 0 <= c < |rings| ==>
            Ledger(c, recorded[c], fates[c], rings[c], overflowDropped[c], Of(drainLog, c), now))
      && (forall e :: e in drainLog ==> e.connection < |rings|)
    }

    constructor (connections: nat)
      ensures Valid() && |rings| == connections && drainLog == []
      ensures forall c :: 0 <= c < connections ==> rings[c] == [] && recorded[c] == []
    {
      rings, nextSeq := seq(connections, _ => []), seq(connections, _ => 0);
      overflowDropped := seq(connections, _ => 0);
      recorded, fates, drainLog, now := seq(connections, _ => []), seq(connections, _ => []), [], 0;
    }

    /** Record one event on connection `c` at process time `elapsedNs`; a full ring evicts its oldest. */
    method Record(c: nat, elapsedNs: nat, kind: nat)
      requires Valid() && c < |rings| && now <= elapsedNs
      modifies this
      ensures Valid() && |rings| == old(|rings|)
      ensures recorded == old(recorded)[c := old(recorded[c]) + [Event(elapsedNs, |old(recorded[c])|, c, kind)]]
      ensures drainLog == old(drainLog) && now == elapsedNs
      ensures |rings[c]| <= 256
      ensures var full := |old(rings[c])| == 256;
              var e := Event(elapsedNs, |old(recorded[c])|, c, kind);
              && rings == old(rings)[c := (if full then old(rings[c])[1..] else old(rings[c])) + [e]]
              && overflowDropped == old(overflowDropped)[c := old(overflowDropped[c]) + if full then 1 else 0]
    {
      hide Of, Ledger;
      LedgerRingFits(c, recorded[c], fates[c], rings[c], overflowDropped[c], Of(drainLog, c), now);
      var e := Event(elapsedNs, nextSeq[c], c, kind);
      nextSeq := nextSeq[c := nextSeq[c] + 1];
      var ring, dropped := rings[c], overflowDropped[c];
      ghost var given := fates[c];
      while |ring| >= EVENT_RING_CAPACITY
        invariant (ring == rings[c] && dropped == overflowDropped[c])
               || (|rings[c]| == EVENT_RING_CAPACITY && ring == rings[c][1..] && dropped == overflowDropped[c] + 1)
        invariant Ledger(c, recorded[c], given, ring, dropped, Of(drainLog, c), now)
        modifies {}
        decreases |ring|
      {
        EvictKeepsLedger(c, recorded[c], given, ring, dropped, Of(drainLog, c), now);
        ring, dropped, given := ring[1..], dropped + 1, given + [false];
      }
      RecordKeepsLedger(c, recorded[c], given, ring, dropped, Of(drainLog, c), now, e);
      forall i | 0 <= i < |rings| && i != c
        ensures Ledger(i, recorded[i], fates[i], rings[i], overflowDropped[i], Of(drainLog, i), elapsedNs)
      {
        LaterLedger(i, recorded[i], fates[i], rings[i], overflowDropped[i], Of(drainLog, i), now, elapsedNs);
      }
      rings, overflowDropped := rings[c := ring + [e]], overflowDropped[c := dropped];
      recorded, fates, now := recorded[c := recorded[c] + [e]], fates[c := given], elapsedNs;
    }

    /** Everything buffered, sink by sink. */
    method Pool() returns (pooled: seq<Event>)
      requires Valid()
      ensures forall c :: 0 <= c < |rings| ==> Of(pooled, c) == rings[c]
      ensures forall e :: e in pooled ==> e.connection < |rings|
    {
      hide Of, Ledger;
      pooled := [];
      forall c: nat ensures Of([], c) == [] { OfNone(c); }
      for k := 0 to |rings|
        invariant forall c :: 0 <= c < |rings| ==> Of(pooled, c) == if c < k then rings[c] else []
        invariant forall e :: e in pooled ==> e.connection < |rings|
      {
        LedgerRingIsSorted(k, recorded[k], fates[k], rings[k], overflowDropped[k], Of(drainLog, k), now);
        forall c | 0 <= c < |rings| ensures Of(pooled + rings[k], c) == if c < k + 1 then rings[c] else [] {
          OfConcat(pooled, rings[k], c);
          OfOwn(rings[k], k, c);
        }
        pooled := pooled + rings[k];
      }
    }

    /** The `limit` smallest buffered events and the rest, both sorted by key. */
    method TakeSmallest(limit: nat) returns (drained: seq<Event>, remainder: seq<Event>)
      requires Valid()
      ensures |drained| <= limit && (|drained| < limit ==> remainder == [])
      ensures Sorted(drained) && forall e, r :: e in drained && r in remainder ==> !KeyLess(r, e)
      ensures forall c :: 0 <= c < |rings| ==> Of(drained, c) + Of(remainder, c) == rings[c]
      ensures forall e :: e in drained || e in remainder ==> e.connection < |rings|
    {
      hide Of, Ledger, KeyLess, Sorted, StrictlySorted;
      var pooled := Pool();
      var sorted := SortByKey(pooled);
      var n := if |sorted| < limit then |sorted| else limit;
      drained, remainder := sorted[..n], sorted[n..];
      SplitIsOrdered(sorted, n);
      assert sorted == drained + remainder;
      forall e | e in sorted ensures e.connection < |rings| {
        assert e in multiset(sorted);
      }
      forall c | 0 <= c < |rings| ensures Of(drained, c) + Of(remainder, c) == rings[c] {
        LedgerRingIsSorted(c, recorded[c], fates[c], rings[c], overflowDropped[c], Of(drainLog, c), now);
        SortKeepsConnectionOrder(pooled, sorted, c);
        OfConcat(drained, remainder, c);
      }
    }

    /** Drain up to `limit` events, smallest keys first, across all connections. */
    method DrainEvents(limit: nat) returns (drained: seq<Event>)
      requires Valid()
      modifies this
      ensures Valid() && |rings| == old(|rings|)
      ensures recorded == old(recorded) && overflowDropped == old(overflowDropped)
      ensures drainLog == old(drainLog) + drained && |drained| <= limit
      ensures forall c :: 0 <= c < |rings| ==> Of(drained, c) + rings[c] == old(rings[c])
      ensures |drained| < limit ==> forall c :: 0 <= c < |rings| ==> rings[c] == []
      ensures forall i, j :: 0 <= i < j < |drained| ==> NotLater(drained[i], drained[j])
      ensures forall e, c :: e in drained && 0 <= c < |rings| ==> forall r :: r in rings[c] ==> NotLater(e, r)
    {
      hide Of, Ledger, KeyLess, NotLater;
      forall c: nat ensures Of([], c) == [] { OfNone(c); }
      forall a, b ensures NotLater(a, b) <==> !KeyLess(b, a) { KeyOrder(a, b); }
      if |rings| == 0 || limit == 0 {
        assert drainLog + [] == drainLog;
        return [];
      }
      var remainder;
      drained, remainder := TakeSmallest(limit);
      ghost var before, log := rings, drainLog;
      rings := Regroup(remainder, |rings|);
      forall c | 0 <= c < |rings|
        ensures Ledger(c, recorded[c], fates[c] + Trues(|Of(drained, c)|), rings[c], overflowDropped[c],
                       Of(log + drained, c), now)
      {
        OfConcat(log, drained, c);
        var k := |Of(drained, c)|;
        assert before[c][..k] == Of(drained, c) && before[c][k..] == rings[c];
        DrainKeepsLedger(c, recorded[c], fates[c], before[c], overflowDropped[c], Of(log, c), now, k);
      }
      ghost var given := fates;
      fates := seq(|rings|, c requires 0 <= c < |given| => given[c] + Trues(|Of(drained, c)|));
      drainLog := drainLog + drained;
    }
  }

  function Trues(n: nat): seq<bool> {
    seq(n, _ => true)
  }

  lemma SplitIsOrdered(sorted: seq<Event>, n: nat)
    requires Sorted(sorted) && n <= |sorted|
    ensures Sorted(sorted[..n])
    ensures forall e, r :: e in sorted[..n] && r in sorted[n..] ==> !KeyLess(r, e)
  {
    hide KeyLess;
  }

  /** Put each event back to its own connection, in order. */
  method Regroup(events: seq<Event>, n: nat) returns (groups: seq<seq<Event>>)
    requires forall e :: e in events ==> e.connection < n
    ensures |groups| == n && forall c :: 0 <= c < n ==> groups[c] == Of(events, c)
  {
    hide Of;
    groups := seq(n, _ => []);
    forall c: nat ensures Of([], c) == [] { OfNone(c); }
    assert events[..0] == [];
    for k := 0 to |events|
      invariant |groups| == n && forall c :: 0 <= c < n ==> groups[c] == Of(events[..k], c)
    {
      var e := events[k];
      assert events[..k + 1] == events[..k] + [e] && e in events;
      forall c: nat ensures Of(events[..k + 1], c) == Of(events[..k], c) + (if e.connection == c then [e] else []) {
        OfSnoc(events[..k], e, c);
      }
      groups := groups[e.connection := groups[e.connection] + [e]];
    }
    assert events[..|events|] == events;
  }

  lemma {:induction false} OfOwn(s: seq<Event>, k: nat, c: nat)
    requires forall e :: e in s ==> e.connection == k
    ensures Of(s, c) == if c == k then s else []
  {
    if s != [] {
      var init, last := s[..|s| - 1], s[|s| - 1];
      assert s == init + [last] && last in s;
      OfOwn(init, k, c);
    }
  }

  lemma LaterLedger(
    c: nat, recorded: seq<Event>, fates: seq<bool>, ring: seq<Event>, dropped: nat, drained: seq<Event>,
    now: nat, later: nat)
    requires Ledger(c, recorded, fates, ring, dropped, drained, now) && now <= later
    ensures Ledger(c, recorded, fates, ring, dropped, drained, later)
  {
  }
}
