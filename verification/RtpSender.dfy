/**
 * One target's RTP sender: sequence counters, first-sync flag and the ring of
 * recent packets kept for retransmission.
 *
 * `Sender` is the value of a sender and the functions on it say what each
 * operation does; the class `RtpSender` is the object that is updated in place.
 */
module RtpSending {
  import opened Bytes
  import opened RtpWire

  const HISTORY_SIZE: int := 512

  type History = h: seq<Option<Octets>> | |h| == HISTORY_SIZE witness seq(HISTORY_SIZE, _ => None)

  function NoHistory(): History {
    seq(HISTORY_SIZE, _ => None)
  }

  /** What a cipher makes of one payload; the AES cipher has neither tag nor nonce. */
  datatype Encrypted = Encrypted(data: Octets, tag: Option<Tag>, nonce: Option<Nonce>)

  /** Payload, timestamp, ssrc and sequence in; `None` is an encryption error. */
  type Cipher = (Octets, u32, u32, u16) -> Option<Encrypted>

  /** `controlPort` is the port of the control destination, or of the data destination without one. */
  datatype Sender = Sender(
    sequence: u16, ssrc: u32, cipher: Option<Cipher>, controlPort: u16,
    syncSequence: u16, firstSyncSent: bool, history: History)

  function NewSender(ssrc: u32, cipher: Option<Cipher>, controlPort: u16): Sender {
    Sender(0, ssrc, cipher, controlPort, 0, false, NoHistory())
  }

  function Next16(n: u16): u16 {
    (n + 1) % POW16
  }

  datatype AudioFrame = AudioFrame(payloadType: byte, timestamp: u32, payload: Octets, marker: bool)

  /** Wire octets of the next audio packet, or `None` when the cipher fails. */
  function AudioWire(s: Sender, f: AudioFrame): (wire: Option<Octets>)
    ensures wire.Some? ==> |wire.value| >= 12 && FromBe16(wire.value[2..4]) == s.sequence
  {
    var header := AudioHeader(f.payloadType, s.sequence, f.timestamp, s.ssrc, f.marker);
    if s.cipher.Some? then
      var encrypted := (s.cipher.value)(f.payload, f.timestamp, s.ssrc, s.sequence);
      if encrypted.None? then None
      else
        var e := encrypted.value;
        var wire := SerializePacket(Packet(header, e.data, e.nonce, e.tag));
        assert wire[2..4] == SerializeHeader(header)[2..4];
        Some(wire)
    else
      var wire := SerializePacket(Packet(header, f.payload, None, None));
      assert wire[2..4] == SerializeHeader(header)[2..4];
      Some(wire)
  }

  /** Every target's packet reads back as the shared frame under the target's own numbers. */
  lemma AudioWireReadsBack(s: Sender, f: AudioFrame)
    requires f.payloadType < 128 && AudioWire(s, f).Some?
    ensures var wire := AudioWire(s, f).value;
            && ParseHeader(wire) == Some(AudioHeader(f.payloadType, s.sequence, f.timestamp, s.ssrc, f.marker))
            && (s.cipher.None? ==> wire[12..] == f.payload)
            && (s.cipher.Some? ==>
                  var e := (s.cipher.value)(f.payload, f.timestamp, s.ssrc, s.sequence);
                  e.Some? && (e.value.tag.Some? && e.value.nonce.Some? ==>
                    var p := ParseEncryptedPacket(wire);
                    p.Some? && p.value.payload == e.value.data && p.value.tag == e.value.tag && p.value.nonce == e.value.nonce))
  {
    hide SerializeHeader, ParseHeader;
    var header := AudioHeader(f.payloadType, s.sequence, f.timestamp, s.ssrc, f.marker);
    var encrypted := if s.cipher.Some? then (s.cipher.value)(f.payload, f.timestamp, s.ssrc, s.sequence) else None;
    var p := if encrypted.Some? then Packet(header, encrypted.value.data, encrypted.value.nonce, encrypted.value.tag)
             else Packet(header, f.payload, None, None);
    var rest := p.payload + TagOctets(p.tag) + NonceOctets(p.nonce);
    assert SerializePacket(p) == SerializeHeader(header) + rest;
    HeaderParseInvertsSerialize(header, rest);
    PacketRoundTrip(p);
    assert (SerializeHeader(header) + rest)[12..] == rest;
  }

  /** What a receiver reads at the head of every target's packet, whatever the cipher. */
  lemma AudioPacketFields(s: Sender, f: AudioFrame)
    requires AudioWire(s, f).Some?
    ensures var wire := AudioWire(s, f).value;
            && |wire| >= 12 && wire[0] == 0x80
            && wire[1] == (if f.marker then 128 else 0) + f.payloadType % 128
            && U16At(wire, 2) == s.sequence && U32At(wire, 4) == f.timestamp && U32At(wire, 8) == s.ssrc
            && (s.cipher.None? ==> wire[12..] == f.payload)
            && (s.cipher.Some? ==>
                  var e := (s.cipher.value)(f.payload, f.timestamp, s.ssrc, s.sequence);
                  && e.Some?
                  && wire[12..] == e.value.data + (if e.value.tag.Some? then e.value.tag.value else [])
                                   + (if e.value.nonce.Some? then e.value.nonce.value else []))
  {
    var wire := AudioWire(s, f).value;
    var header := AudioHeader(f.payloadType, s.sequence, f.timestamp, s.ssrc, f.marker);
    assert wire[..12] == SerializeHeader(header);
    assert wire[2..4] == SerializeHeader(header)[2..4] && wire[4..8] == SerializeHeader(header)[4..8];
    assert wire[8..12] == SerializeHeader(header)[8..12];
    ReadField16(wire, 2, s.sequence);
    ReadField32(wire, 4, f.timestamp);
    ReadField32(wire, 8, s.ssrc);
  }

  /** A packet enters the ring and advances the sequence; an encryption error changes nothing. */
  function AfterAudio(s: Sender, f: AudioFrame): Sender {
    var wire := AudioWire(s, f);
    if wire.None? then s
    else s.(history := s.history[s.sequence % HISTORY_SIZE := wire], sequence := Next16(s.sequence))
  }

  /** The shared part of a sync request plus this target's own presentation time. */
  datatype SyncRequest =
    | NtpSync(rtp: u32, presentationNs: u64)
    | PtpSync(rtp: u32, presentationNs: u64, nextRtp: u32, masterClockId: ClockId)

  /** Sync octets, or `None` when the target has no control port. */
  function SyncWire(s: Sender, r: SyncRequest): Option<Octets> {
    if s.controlPort == 0 then None
    else if r.PtpSync? then
      Some(PtpSyncPacket(!s.firstSyncSent, s.syncSequence, r.rtp, r.presentationNs, r.nextRtp, r.masterClockId))
    else
      Some(NtpSyncPacket(!s.firstSyncSent, s.syncSequence, r.rtp, UnixToNtp(r.presentationNs)))
  }

  function AfterSync(s: Sender): Sender {
    if s.controlPort == 0 then s
    else s.(firstSyncSent := true, syncSequence := Next16(s.syncSequence))
  }

  function AfterReset(s: Sender): Sender {
    s.(firstSyncSent := false)
  }

  // ------------------------------------------------------------------
  // The history ring against the plain log of everything sent
  // ------------------------------------------------------------------

  /** What happens to a sender while it streams. */
  datatype Call = Audio(frame: AudioFrame) | Sync(request: SyncRequest) | ResetSync

  function AfterCall(s: Sender, c: Call): Sender {
    match c
    case Audio(f) => AfterAudio(s, f)
    case Sync(_) => AfterSync(s)
    case ResetSync => AfterReset(s)
  }

  function AfterCalls(s: Sender, calls: seq<Call>): Sender {
    if calls == [] then s
    else AfterCall(AfterCalls(s, calls[..|calls| - 1]), calls[|calls| - 1])
  }

  /** Every audio packet a sender produced, oldest first; frames that fail to encrypt leave none. */
  function SentLog(s: Sender, calls: seq<Call>): (log: seq<Octets>)
    ensures |log| <= |calls|
  {
    if calls == [] then []
    else
      var before, c := AfterCalls(s, calls[..|calls| - 1]), calls[|calls| - 1];
      var wire := if c.Audio? then AudioWire(before, c.frame) else None;
      SentLog(s, calls[..|calls| - 1]) + (if wire.Some? then [wire.value] else [])
  }

  /** The newest of the first `n` packet numbers that falls into ring slot `slot`. */
  function NewestInSlot(n: nat, slot: nat): (k: Option<nat>)
    requires slot < HISTORY_SIZE
    ensures k.None? <==> n <= slot
    ensures k.Some? ==> k.value < n <= k.value + HISTORY_SIZE && k.value % HISTORY_SIZE == slot
  {
    if n == 0 then None
    else if (n - 1) % HISTORY_SIZE == slot then Some(n - 1)
    else NewestInSlot(n - 1, slot)
  }

  /** The ring holds, slot by slot, the newest packet of the log that belongs there. */
  ghost predicate RingHolds(s: Sender, log: seq<Octets>) {
    && s.sequence == |log| % POW16
    && (forall k :: 0 <= k < |log| ==> |log[k]| >= 12 && FromBe16(log[k][2..4]) == k % POW16)
    && (forall slot :: 0 <= slot < HISTORY_SIZE ==>
          s.history[slot] == match NewestInSlot(|log|, slot) case None => None case Some(k) => Some(log[k]))
  }

  lemma {:induction false} RingHoldsAfterCalls(s: Sender, calls: seq<Call>)
    requires RingHolds(s, [])
    ensures RingHolds(AfterCalls(s, calls), SentLog(s, calls))
  {
    if calls != [] {
      var init, c := calls[..|calls| - 1], calls[|calls| - 1];
      RingHoldsAfterCalls(s, init);
      var before := AfterCalls(s, init);
      var wire := if c.Audio? then AudioWire(before, c.frame) else None;
      if wire.Some? {
        StoreKeepsRing(before, SentLog(s, init), wire.value);
      }
    }
  }

  lemma StoreKeepsRing(s: Sender, log: seq<Octets>, wire: Octets)
    requires RingHolds(s, log)
    requires |wire| >= 12 && FromBe16(wire[2..4]) == s.sequence
    ensures RingHolds(
              s.(history := s.history[s.sequence % HISTORY_SIZE := Some(wire)], sequence := Next16(s.sequence)),
              log + [wire])
  {
    var n, log' := |log|, log + [wire];
    WrapKeepsSlot(n);
    WrapStep(n);
    forall k | 0 <= k < |log'| ensures |log'[k]| >= 12 && FromBe16(log'[k][2..4]) == k % POW16 {
      assert k < n ==> log'[k] == log[k];
    }
    var ring := s.history[n % HISTORY_SIZE := Some(wire)];
    forall slot | 0 <= slot < HISTORY_SIZE
      ensures ring[slot] ==
              match NewestInSlot(n + 1, slot) case None => None case Some(k) => Some(log'[k])
    {
      assert NewestInSlot(n + 1, slot) == if n % HISTORY_SIZE == slot then Some(n) else NewestInSlot(n, slot);
    }
  }

  lemma WrapStep(n: nat)
    ensures (n % POW16 + 1) % POW16 == (n + 1) % POW16
  {
  }

  /** The ring size divides the sequence space, so a wrapped sequence keeps its slot. */
  lemma WrapKeepsSlot(k: nat)
    ensures k % POW16 % HISTORY_SIZE == k % HISTORY_SIZE
  {
    var q := k / POW16;
    assert k == 128 * q * HISTORY_SIZE + k % POW16;
  }

  /** History lookup: a slot counts only when it still holds the requested sequence. */
  function Lookup(s: Sender, sequence: u16): Option<Octets> {
    var entry := s.history[sequence % HISTORY_SIZE];
    if entry.Some? && |entry.value| >= 4 && FromBe16(entry.value[2..4]) == sequence then entry else None
  }

  /** Packet number `k` is retained and carries `sequence`. */
  ghost predicate Retained(n: nat, k: nat, sequence: u16) {
    k < n <= k + 512 && k % 65536 == sequence
  }

  /** `found` is the packet of the last 512 in `log` that carries `sequence`, if there is one. */
  ghost predicate FoundInRecentLog(found: Option<Octets>, log: seq<Octets>, sequence: u16) {
    && (found.Some? <==> exists k: nat :: Retained(|log|, k, sequence))
    && (forall k: nat :: Retained(|log|, k, sequence) ==> found == Some(log[k]))
  }

  /**
   * After any calls on a new sender, also past the 16-bit wrap, a requested sequence is found exactly
   * when it belongs to one of the last 512 audio packets, and what is found is that very packet.
   */
  lemma {:induction false} HistoryIsRecentLog(s0: Sender, calls: seq<Call>, sequence: u16)
    requires s0 == NewSender(s0.ssrc, s0.cipher, s0.controlPort)
    ensures FoundInRecentLog(Lookup(AfterCalls(s0, calls), sequence), SentLog(s0, calls), sequence)
  {
    NewSenderRing(s0);
    RingHoldsAfterCalls(s0, calls);
    LookupFindsRetained(AfterCalls(s0, calls), SentLog(s0, calls), sequence);
  }

  lemma NewSenderRing(s: Sender)
    requires s.sequence == 0 && s.history == NoHistory()
    ensures RingHolds(s, [])
  {
  }

  lemma LookupFindsRetained(s: Sender, log: seq<Octets>, sequence: u16)
    requires RingHolds(s, log)
    ensures FoundInRecentLog(Lookup(s, sequence), log, sequence)
  {
    var newest := NewestInSlot(|log|, sequence % HISTORY_SIZE);
    if Lookup(s, sequence).Some? {
      assert Retained(|log|, newest.value, sequence);
    }
    forall k: nat | Retained(|log|, k, sequence) ensures Lookup(s, sequence) == Some(log[k]) {
      RetainedIsNewest(|log|, k, sequence);
    }
  }

  lemma RetainedIsNewest(n: nat, k: nat, sequence: u16)
    requires Retained(n, k, sequence)
    ensures NewestInSlot(n, sequence % HISTORY_SIZE) == Some(k)
  {
    hide NewestInSlot;
    WrapKeepsSlot(k);
    var newest := NewestInSlot(n, sequence % HISTORY_SIZE);
    SlotIsReached(n, k);
    SameSlotApart(k, newest.value, HISTORY_SIZE);
    SameSlotApart(newest.value, k, HISTORY_SIZE);
  }

  /** A packet number among the first `n` fills its slot. */
  lemma SlotIsReached(n: nat, k: nat)
    requires k < n
    ensures NewestInSlot(n, k % HISTORY_SIZE).Some?
  {
    hide NewestInSlot;
    assert k % HISTORY_SIZE <= k;
  }

  /** Two numbers in the same slot that are less than a ring apart are in order. */
  lemma SameSlotApart(a: nat, b: nat, size: nat)
    requires size > 0 && a % size == b % size && b < a + size
    ensures b <= a
  {
    var p, q := a / size, b / size;
    assert a == p * size + a % size && b == q * size + b % size;
    assert (q - p) * size == b - a by {
      assert (q - p) * size == q * size - p * size;
    }
    MultipleBelow(q - p, size);
  }

  lemma MultipleBelow(x: int, size: nat)
    requires x * size < size
    ensures x <= 0 && x * size <= 0
  {
    assert x >= 1 ==> x * size == (x - 1) * size + size && (x - 1) * size >= 0;
  }

  // ------------------------------------------------------------------
  // Retransmission
  // ------------------------------------------------------------------

  datatype SendResult = Sent(octets: nat) | SendError

  datatype Outcome = Outcome(requested: u16, accepted: u16, misses: u16, failures: u16)

  function Slot(first: u16, i: nat): u16 {
    (first + i) % POW16
  }

  /** Offsets below `count` whose sequence is in the history, in request order. */
  function HitOffsets(s: Sender, first: u16, count: nat): (hits: seq<nat>)
    ensures |hits| <= count
  {
    if count == 0 then []
    else
      var hits := HitOffsets(s, first, count - 1);
      if Lookup(s, Slot(first, count - 1)).Some? then hits + [count - 1] else hits
  }

  /** The hit offsets are exactly the offsets with a history entry, in increasing order. */
  lemma {:induction false} HitOffsetsAreHits(s: Sender, first: u16, count: nat)
    ensures var hits := HitOffsets(s, first, count);
            && (forall i :: i in hits <==> 0 <= i < count && Lookup(s, Slot(first, i)).Some?)
            && (forall j, k :: 0 <= j < k < |hits| ==> hits[j] < hits[k])
  {
    if count > 0 {
      HitOffsetsAreHits(s, first, count - 1);
      var before, hits := HitOffsets(s, first, count - 1), HitOffsets(s, first, count);
      forall j, k | 0 <= j < k < |hits| ensures hits[j] < hits[k] {
        assert hits[j] == before[j] && before[j] in before;
        assert k < |before| ==> hits[k] == before[k];
      }
    }
  }

  /** Wrapped original packets of the hits, in request order. */
  function Responses(s: Sender, first: u16, count: nat): (r: seq<Octets>)
    ensures |r| == |HitOffsets(s, first, count)|
  {
    if count == 0 then []
    else
      var found := Lookup(s, Slot(first, count - 1));
      Responses(s, first, count - 1) + (if found.Some? then [RetransmitResponse(found.value)] else [])
  }

  /** How many of the hit offsets meet `p`. */
  function CountHits(hits: seq<nat>, p: nat -> bool): (n: nat)
    ensures n <= |hits|
  {
    if hits == [] then 0
    else CountHits(hits[..|hits| - 1], p) + Bit(p(hits[|hits| - 1]))
  }

  lemma {:induction false} CountHitsSplits(hits: seq<nat>, p: nat -> bool, q: nat -> bool, r: nat -> bool)
    requires forall i :: Bit(p(i)) + Bit(q(i)) + Bit(r(i)) == 1
    ensures CountHits(hits, p) + CountHits(hits, q) + CountHits(hits, r) == |hits|
  {
    if hits != [] {
      CountHitsSplits(hits[..|hits| - 1], p, q, r);
    }
  }

  lemma NoHits(s: Sender, first: u16, p: nat -> bool)
    ensures HitOffsets(s, first, 0) == [] && Responses(s, first, 0) == [] && CountHits([], p) == 0
  {
  }

  /** One more offset adds at most one hit, one counted hit and one response. */
  lemma HitsGrow(s: Sender, first: u16, i: nat, p: nat -> bool)
    ensures var hit := Bit(Lookup(s, Slot(first, i)).Some?);
            && |HitOffsets(s, first, i + 1)| == |HitOffsets(s, first, i)| + hit
            && CountHits(HitOffsets(s, first, i + 1), p) == CountHits(HitOffsets(s, first, i), p) + hit * Bit(p(i))
            && Responses(s, first, i + 1) == Responses(s, first, i)
               + (if hit == 1 then [RetransmitResponse(Lookup(s, Slot(first, i)).value)] else [])
  {
    hide Lookup, RetransmitResponse;
    var before, after := HitOffsets(s, first, i), HitOffsets(s, first, i + 1);
    if Lookup(s, Slot(first, i)).Some? {
      assert after == before + [i] && after[..|after| - 1] == before;
    }
  }

  function Accepts(bound: bool, net: nat -> SendResult): nat -> bool {
    (i: nat) => bound && net(i).Sent? && net(i).octets > 0
  }

  /** Without a socket every served slot counts as a send failure. */
  function Fails(bound: bool, net: nat -> SendResult): nat -> bool {
    (i: nat) => !bound || net(i).SendError?
  }

  /** The outcome a request deserves: each slot is a miss, or a hit classified by its send. */
  function RequestOutcome(s: Sender, first: u16, count: u16, bound: bool, net: nat -> SendResult): Outcome {
    var hits := HitOffsets(s, first, count);
    Outcome(count, CountHits(hits, Accepts(bound, net)), count - |hits|, CountHits(hits, Fails(bound, net)))
  }

  /**
   * Accepted, missed and failed slots account for the whole request exactly when no
   * served send reported zero octets: those slots are counted nowhere.
   */
  lemma OutcomeAccountsForRequest(s: Sender, first: u16, count: u16, bound: bool, net: nat -> SendResult)
    ensures var o := RequestOutcome(s, first, count, bound, net);
            o.accepted + o.misses + o.failures == o.requested
            <==> !bound || forall i :: i in HitOffsets(s, first, count) ==> net(i) != Sent(0)
  {
    var hits := HitOffsets(s, first, count);
    var silent := (i: nat) => bound && net(i) == Sent(0);
    CountHitsSplits(hits, Accepts(bound, net), Fails(bound, net), silent);
    CountHitsZero(hits, silent);
  }

  /** A sender that holds one packet, asked for it over a socket that reports zero octets. */
  lemma ZeroOctetSendIsUncounted(f: AudioFrame)
    ensures var s := AfterAudio(NewSender(1, None, 6001), f);
            RequestOutcome(s, 0, 1, true, (i: nat) => Sent(0)) == Outcome(1, 0, 0, 0)
  {
    var s := AfterAudio(NewSender(1, None, 6001), f);
    var net := (i: nat) => Sent(0);
    assert Lookup(s, 0).Some?;
    assert Slot(0, 0) == 0;
    assert HitOffsets(s, 0, 0) == [];
    assert HitOffsets(s, 0, 1) == [0];
    CountHitsZero([0], Accepts(true, net));
    CountHitsZero([0], Fails(true, net));
  }

  lemma {:induction false} CountHitsZero(hits: seq<nat>, p: nat -> bool)
    ensures CountHits(hits, p) == 0 <==> forall i :: i in hits ==> !p(i)
  {
    if hits != [] {
      var last := hits[|hits| - 1];
      CountHitsZero(hits[..|hits| - 1], p);
      assert hits == hits[..|hits| - 1] + [last];
    }
  }

  /** One request never serves a sequence twice and serves at most the ring's 512 packets. */
  lemma RequestServesDistinctSlots(s: Sender, first: u16, count: u16)
    ensures var hits := HitOffsets(s, first, count);
            && (forall j, k :: 0 <= j < k < |hits| ==> Slot(first, hits[j]) != Slot(first, hits[k]))
            && |hits| <= 512
  {
    var hits := HitOffsets(s, first, count);
    HitOffsetsAreHits(s, first, count);
    forall j, k | 0 <= j < k < |hits|
      ensures Slot(first, hits[j]) != Slot(first, hits[k])
      ensures RingSlot(first, hits[j]) != RingSlot(first, hits[k])
    {
      HitsUseDistinctSlots(s, first, hits[j], hits[k]);
    }
    var rings := seq(|hits|, j requires 0 <= j < |hits| => RingSlot(first, hits[j]));
    DistinctBelow(rings, HISTORY_SIZE);
  }

  function RingSlot(first: u16, i: nat): nat {
    Slot(first, i) % HISTORY_SIZE
  }

  lemma HitsUseDistinctSlots(s: Sender, first: u16, i: nat, j: nat)
    requires i < j < POW16
    requires Lookup(s, Slot(first, i)).Some? && Lookup(s, Slot(first, j)).Some?
    ensures Slot(first, i) != Slot(first, j)
    ensures RingSlot(first, i) != RingSlot(first, j)
  {
    assert (first + j) % POW16 != (first + i) % POW16;
  }

  lemma {:induction false} DistinctBelow(xs: seq<nat>, bound: nat)
    requires forall i :: 0 <= i < |xs| ==> xs[i] < bound
    requires forall i, j :: 0 <= i < j < |xs| ==> xs[i] != xs[j]
    ensures |xs| <= bound
  {
    assert xs != [] ==> xs[0] < bound;
    if bound > 0 {
      if exists i :: 0 <= i < |xs| && xs[i] == bound - 1 {
        var i :| 0 <= i < |xs| && xs[i] == bound - 1;
        DistinctBelow(xs[..i] + xs[i + 1..], bound - 1);
      } else {
        DistinctBelow(xs, bound - 1);
      }
    }
  }

  /** `response` wraps packet `k` of the log, which is retained and carries `sequence`. */
  ghost predicate Answers(response: Octets, log: seq<Octets>, k: nat, sequence: u16) {
    && Retained(|log|, k, sequence)
    && |response| >= 16 && response[..2] == [0x80, 0xD6]
    && U16At(response, 2) == sequence && response[4..] == log[k]
  }

  ghost predicate Answered(response: Octets, log: seq<Octets>, sequence: u16) {
    exists k: nat :: Answers(response, log, k, sequence)
  }

  lemma ResponseAnswers(s: Sender, log: seq<Octets>, sequence: u16)
    requires RingHolds(s, log) && Lookup(s, sequence).Some?
    ensures Answered(RetransmitResponse(Lookup(s, sequence).value), log, sequence)
  {
    hide NewestInSlot;
    LookupFindsRetained(s, log, sequence);
    var k: nat :| Retained(|log|, k, sequence);
    var r := RetransmitResponse(log[k]);
    ResponseCarriesPacket(log[k]);
    ReadField16(r, 2, sequence);
    assert Answers(RetransmitResponse(log[k]), log, k, sequence);
  }

  /** The j-th response answers the j-th hit of a request that starts at `first`. */
  ghost predicate AllAnswered(responses: seq<Octets>, hits: seq<nat>, first: u16, log: seq<Octets>) {
    |responses| == |hits| && forall j :: 0 <= j < |hits| ==> Answered(responses[j], log, (first + hits[j]) % 65536)
  }

  lemma {:induction false} RingAnswers(s: Sender, log: seq<Octets>, first: u16, count: nat)
    requires RingHolds(s, log)
    ensures AllAnswered(Responses(s, first, count), HitOffsets(s, first, count), first, log)
  {
    hide RingHolds, Answered, Lookup, RetransmitResponse;
    if count > 0 {
      RingAnswers(s, log, first, count - 1);
      if Lookup(s, Slot(first, count - 1)).Some? {
        ResponseAnswers(s, log, Slot(first, count - 1));
      }
    }
  }

  /** What a request gets from a ring that holds the recent part of `log`. */
  ghost predicate ServedFrom(s: Sender, log: seq<Octets>, first: u16, count: u16) {
    var hits, responses := HitOffsets(s, first, count), Responses(s, first, count);
    && AllAnswered(responses, hits, first, log)
    && (forall i: nat :: i in hits <==> i < count && SlotInLog(log, first, i))
    && (forall j, k :: 0 <= j < k < |hits| ==> hits[j] < hits[k])
  }

  /** One of the last 512 packets of `log` carries `sequence`. */
  ghost predicate InLog(log: seq<Octets>, sequence: u16) {
    exists k: nat :: Retained(|log|, k, sequence)
  }

  lemma RingServes(s: Sender, log: seq<Octets>, first: u16, count: u16)
    requires RingHolds(s, log)
    ensures ServedFrom(s, log, first, count)
  {
    hide HitOffsets, Responses, AllAnswered, RingHolds, Lookup;
    RingAnswers(s, log, first, count);
    HitOffsetsAreHits(s, first, count);
    forall i: nat | i < count ensures Lookup(s, Slot(first, i)).Some? <==> SlotInLog(log, first, i) {
      LookupFindsRetained(s, log, Slot(first, i));
    }
  }

  /**
   * End to end: after any calls on a new sender, the j-th response to a request names the j-th
   * requested sequence that is still retained and carries its original packet octet for octet.
   */
  lemma RequestIsAnsweredFromLog(s0: Sender, calls: seq<Call>, first: u16, count: u16)
    requires s0 == NewSender(s0.ssrc, s0.cipher, s0.controlPort)
    ensures ServedFrom(AfterCalls(s0, calls), SentLog(s0, calls), first, count)
  {
    hide ServedFrom, RingHolds;
    NewSenderRing(s0);
    RingHoldsAfterCalls(s0, calls);
    RingServes(AfterCalls(s0, calls), SentLog(s0, calls), first, count);
  }

  // ------------------------------------------------------------------
  // The counters of a request as numbers of slots
  // ------------------------------------------------------------------

  function Chosen(hits: seq<nat>, p: nat -> bool): set<nat> {
    set i | i in hits && p(i)
  }

  lemma ChosenSnoc(hits: seq<nat>, last: nat, p: nat -> bool)
    requires last !in hits
    ensures |Chosen(hits + [last], p)| == |Chosen(hits, p)| + Bit(p(last))
  {
    assert Chosen(hits + [last], p) == if p(last) then Chosen(hits, p) + {last} else Chosen(hits, p);
  }

  lemma {:induction false} CountIsSize(hits: seq<nat>, p: nat -> bool)
    requires forall j, k :: 0 <= j < k < |hits| ==> hits[j] < hits[k]
    ensures CountHits(hits, p) == |Chosen(hits, p)|
  {
    hide Chosen;
    if hits == [] {
      NoneChosen(p);
    } else {
      var init, last := hits[..|hits| - 1], hits[|hits| - 1];
      CountIsSize(init, p);
      assert hits == init + [last];
      ChosenSnoc(init, last, p);
    }
  }

  lemma NoneChosen(p: nat -> bool)
    ensures Chosen([], p) == {}
  {
  }

  function Below(n: nat): (s: set<nat>)
    ensures |s| == n && forall i :: i in s <==> 0 <= i < n
  {
    if n == 0 then {} else Below(n - 1) + {n - 1}
  }

  ghost predicate SlotInLog(log: seq<Octets>, first: u16, i: nat) {
    InLog(log, (first + i) % 65536)
  }

  /** The slots of a request that the log still covers, and those it does not. */
  ghost function Served(log: seq<Octets>, first: u16, count: u16): set<nat> {
    set i | i in Below(count) && SlotInLog(log, first, i)
  }

  ghost function Missed(log: seq<Octets>, first: u16, count: u16): set<nat> {
    set i | i in Below(count) && !SlotInLog(log, first, i)
  }

  lemma MissesAreTheRest(hits: seq<nat>, log: seq<Octets>, first: u16, count: u16)
    requires forall j, k :: 0 <= j < k < |hits| ==> hits[j] < hits[k]
    requires forall i: nat :: i in hits <==> i < count && SlotInLog(log, first, i)
    ensures |Served(log, first, count)| == |hits| && |Missed(log, first, count)| == count - |hits|
  {
    hide SlotInLog;
    var all := (i: nat) => true;
    CountIsSize(hits, all);
    AllCounted(hits);
    assert Chosen(hits, all) == Served(log, first, count);
    assert Below(count) == Served(log, first, count) + Missed(log, first, count);
  }

  lemma {:induction false} AllCounted(hits: seq<nat>)
    ensures forall p: nat -> bool :: (forall i :: p(i)) ==> CountHits(hits, p) == |hits|
  {
    if hits != [] {
      AllCounted(hits[..|hits| - 1]);
    }
  }

  /**
   * The counters of a request, slot by slot: accepted are the slots the log covers whose send reported
   * octets, failures those whose send erred or had no socket, misses the slots the log does not cover.
   */
  lemma OutcomeCountsSlots(s: Sender, log: seq<Octets>, first: u16, count: u16, bound: bool, net: nat -> SendResult)
    requires RingHolds(s, log)
    ensures var o, served := RequestOutcome(s, first, count, bound, net), Served(log, first, count);
            && o.requested == count
            && o.misses == |Missed(log, first, count)|
            && o.accepted == |set i | i in served && bound && net(i).Sent? && net(i).octets > 0|
            && o.failures == |set i | i in served && (!bound || net(i).SendError?)|
  {
    hide RingHolds, SlotInLog, HitOffsets, CountHits, AllAnswered;
    RingServes(s, log, first, count);
    var hits, served := HitOffsets(s, first, count), Served(log, first, count);
    MissesAreTheRest(hits, log, first, count);
    CountIsSize(hits, Accepts(bound, net));
    CountIsSize(hits, Fails(bound, net));
    assert Chosen(hits, Accepts(bound, net)) == (set i | i in served && bound && net(i).Sent? && net(i).octets > 0);
    assert Chosen(hits, Fails(bound, net)) == (set i | i in served && (!bound || net(i).SendError?));
  }

  // ------------------------------------------------------------------
  // The sender object
  // ------------------------------------------------------------------

  class RtpSender {
    var sequence: u16
    const ssrc: u32
    const cipher: Option<Cipher>
    const controlPort: u16
    var syncSequence: u16
    var firstSyncSent: bool
    var packetHistory: History

    ghost function Model(): Sender
      reads this
    {
      Sender(sequence, ssrc, cipher, controlPort, syncSequence, firstSyncSent, packetHistory)
    }

    constructor (ssrc: u32, cipher: Option<Cipher>, controlPort: u16)
      ensures Model() == NewSender(ssrc, cipher, controlPort)
    {
      this.sequence, this.ssrc, this.cipher, this.controlPort := 0, ssrc, cipher, controlPort;
      this.syncSequence, this.firstSyncSent := 0, false;
      this.packetHistory := seq(HISTORY_SIZE, _ => None);
    }

    method ResetSyncState()
      modifies this
      ensures Model() == AfterReset(old(Model()))
    {
      firstSyncSent := false;
    }

    method PrepareAudio(f: AudioFrame) returns (wire: Option<Octets>)
      modifies this
      ensures wire == AudioWire(old(Model()), f)
      ensures Model() == AfterAudio(old(Model()), f)
      ensures wire.None? ==> Model() == old(Model())
    {
      var header := AudioHeader(f.payloadType, sequence, f.timestamp, ssrc, f.marker);
      var serialized: Octets;
      match cipher {
        case Some(encrypt) =>
          var encrypted := encrypt(f.payload, f.timestamp, ssrc, sequence);
          if encrypted.None? {
            return None;
          }
          var e := encrypted.value;
          serialized := SerializeHeader(header) + e.data + TagOctets(e.tag) + NonceOctets(e.nonce);
        case None =>
          serialized := SerializePacket(Packet(header, f.payload, None, None));
      }
      var index := sequence % HISTORY_SIZE;
      packetHistory := packetHistory[index := Some(serialized)];
      sequence := Next16(sequence);
      wire := packetHistory[index];
    }

    method PrepareSync(r: SyncRequest) returns (packet: Option<Octets>)
      modifies this
      ensures packet == SyncWire(old(Model()), r)
      ensures Model() == AfterSync(old(Model()))
    {
      if controlPort == 0 {
        return None;
      }
      var first := !firstSyncSent;
      firstSyncSent := true;
      packet := if r.PtpSync?
        then Some(PtpSyncPacket(first, syncSequence, r.rtp, r.presentationNs, r.nextRtp, r.masterClockId))
        else Some(NtpSyncPacket(first, syncSequence, r.rtp, UnixToNtp(r.presentationNs)));
      syncSequence := Next16(syncSequence);
    }

    function Find(seqno: u16): (entry: Option<Octets>)
      reads this
      ensures entry == Lookup(Model(), seqno)
    {
      var entry := packetHistory[seqno % HISTORY_SIZE];
      if entry.Some? && |entry.value| >= 4 && FromBe16(entry.value[2..4]) == seqno then entry else None
    }

    /**
     * Serve a retransmit request. `bound` says whether a socket exists and `net(i)` what the
     * socket answers for the i-th slot; `datagrams` are the responses handed to the socket.
     */
    method HandleRetransmit(first: u16, count: u16, bound: bool, net: nat -> SendResult)
      returns (outcome: Outcome, datagrams: seq<Octets>)
      ensures outcome == RequestOutcome(Model(), first, count, bound, net)
      ensures datagrams == if bound then Responses(Model(), first, count) else []
    {
      hide Lookup, RetransmitResponse, HitOffsets, Responses, CountHits;
      NoHits(Model(), first, Accepts(bound, net));
      NoHits(Model(), first, Fails(bound, net));
      var accepted, misses, failures := 0, 0, 0;
      datagrams := [];
      ghost var s := Model();
      for i := 0 to count
        invariant misses == i - |HitOffsets(s, first, i)|
        invariant accepted == CountHits(HitOffsets(s, first, i), Accepts(bound, net))
        invariant failures == CountHits(HitOffsets(s, first, i), Fails(bound, net))
        invariant datagrams == if bound then Responses(s, first, i) else []
      {
        HitsGrow(s, first, i, Accepts(bound, net));
        HitsGrow(s, first, i, Fails(bound, net));
        var entry := Find(Slot(first, i));
        if entry.Some? {
          if !bound {
            failures := failures + 1;
          } else {
            datagrams := datagrams + [RetransmitResponse(entry.value)];
            match net(i) {
              case Sent(n) =>
                if n > 0 {
                  accepted := accepted + 1;
                }
              case SendError =>
                failures := failures + 1;
            }
          }
        } else {
          misses := misses + 1;
        }
      }
      outcome := Outcome(count, accepted, misses, failures);
    }
  }
}
