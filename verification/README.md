# OpenAirCast in Dafny

OpenAirCast sends one shared audio stream to many AirPlay speakers. This project models the
parts of it whose correctness is hard to see, and proves what they promise for every input, every
run and every interleaving.

| file | what it models |
|---|---|
| `Bytes.dfy`, `RtpWire.dfy` | octets, RTP headers and packets, clock fields, sync packets, retransmit responses |
| `RtpSender.dfy` | one target's sender: sequence numbers, first-sync flag, the 512-slot packet history, retransmission |
| `Streaming.dfy` | presentation times, one frame for N targets, PTP clock generations, the streamer as a state machine |
| `StreamRuns.dfy`, `StreamPairs.dfy`, `StreamHistory.dfy` | theorems over all runs of the streamer, over pairs of runs with different delays, and about what can be retransmitted |
| `StreamFields.dfy`, `StreamPackets.dfy` | where every setting and mark of a run comes from, and what its packets say octet by octet |
| `StreamerObject.dfy` | the streamer and its senders as objects updated in place, proved against the state machine |
| `GroupConnect.dfy`, `GroupFailures.dfy`, `GroupAnswers.dfy`, `GroupClient.dfy` | best-effort group connect as an outcome of the members' answers, the order of its failure list, its report explained by the answers, and the client object that computes it |
| `CaptureQueue.dfy`, `Pipeline.dfy`, `SenderBuffer.dfy` | capture queue with a concurrent consumer, re-chunking and encoding, sender ring and its refill rule |
| `WakeGate.dfy` | the lock and the atomic flag that decide who wakes the UI |
| `Calibration.dfy`, `CalibratedStream.dfy` | signed delays from the profile to presentation times, and to the clock fields receivers decode |
| `Preferences.dfy`, `EventRing.dfy` | debounced persistence, bounded event rings with exactly-once draining |

Each object comes twice. A value function says what one call does to the object's state, and the
theorems are about those functions. A class holds the same fields, its methods change them with
the loops of the original, and their postconditions equate the new state with the value function.

What the outside decides is an argument that the theorems quantify over: the answers of group
members, the result of each socket send, the frames a consumer takes between two producer steps,
clock readings, published clock generations, the outcome of file writes. A cipher is an arbitrary
function that may fail.

Where the code does less than it is documented or expected to do, the model follows the code; a
lemma gives the input and another the exact condition:

* The retransmit counters are documented to always add up
  (`crates/airplay-audio/src/diagnostics.rs:59-63`). They add up if and only if no served send
  reports zero octets.
* A mapped delay list is documented to refuse unknown receivers. The function lets one through when
  a target is listed twice; without that, acceptance is exactly equality of keys and targets. The
  targets of a session are proved distinct, so the client never calls it that way.
* The sender ring cannot overflow if and only if it holds at least four frames, provided a streamer
  is stopped before it is started again; repeated starts without a stop overflow a ring of any size.
* Commits follow generation order on every run if and only if offers arrive in that order.
* The two lists of a group report partition the requested members if and only if a primary was
  elected or no live member was left over; a live device without PTP can be missing from both.
* The failure list is documented to be in input order (`crates/airplay-client/src/group.rs:241`). It
  is in the order of the stages in which members fail, so it is in input order if and only if no
  device fails in an earlier stage than a device requested before it.
* A latest-wins send is documented to never block. Its retry loop ends whatever the consumer does if
  and only if the channel has a slot; without one it ends when a receiver waits.

## Model

| member | source | states |
|---|---|---|
| `RtpWire.HeaderParseInvertsSerialize` | crates/airplay-audio/src/rtp.rs:138-181 | Parsing a serialized header, whatever follows it, gives the header back exactly when version, CSRC count and payload type fit their bit fields |
| `RtpWire.HeaderSerializeInvertsParse` | crates/airplay-audio/src/rtp.rs:138-181 | Any twelve octets parse, and serializing the result restores them (layout of section 5.1 of RFC 3550) |
| `RtpWire.HeaderLayout` | crates/airplay-audio/src/rtp.rs:138-160 | Which bits and octets of the wire hold which header field, most significant octet first |
| `RtpWire.PacketRoundTrip` | crates/airplay-audio/src/rtp.rs:231-296 | Every payload survives the wire: through the plain parser exactly when the packet has no trailer, through the encrypted one with its tag-then-nonce trailer |
| `RtpWire.PacketLayout` | crates/airplay-audio/src/rtp.rs:231-246 | Header, payload, sixteen octets of tag, eight of nonce, in this order |
| `RtpWire.PacketSizeIsSerializedLength` | crates/airplay-audio/src/rtp.rs:231-303 | The announced size of a packet is its serialized length, for all four trailer combinations |
| `RtpWire.PtpClockFieldIsExact` | crates/airplay-audio/src/rtp.rs:803-808 | Below 2^32 seconds, rounding the decoded fraction up recovers the encoded nanosecond; the fraction always fits 32 bits |
| `RtpWire.PtpClockFieldIsStrictlyIncreasing` | crates/airplay-audio/src/rtp.rs:803-808 | Below 2^32 seconds the clock field is strictly increasing in time, hence injective |
| `RtpWire.NtpTimeIncreasesUntilWrap` | crates/airplay-timing/src/clock.rs:149-159 | NTP time is strictly increasing until its 32-bit seconds wrap in 2036, where it restarts at zero |
| `RtpWire.NtpTimeReadsBack` | crates/airplay-timing/src/clock.rs:149-159 | Upper half: seconds since 1900 modulo 2^32; lower half: a fraction that rounds up to the exact nanosecond |
| `RtpWire.SyncPacketsReadBack` | crates/airplay-audio/src/rtp.rs:720-817 | A receiver recovers sequence, RTP times, NTP time and master clock from both sync formats |
| `RtpWire.ResponseCarriesPacket` | crates/airplay-audio/src/rtp.rs:359-381 | A retransmit response names the original sequence and carries the original packet unchanged |
| `RtpSending.AudioWireReadsBack` | crates/airplay-audio/src/rtp.rs:498-550 | Each target's packet parses as the plain or the encrypted format, with the payload or the cipher's data, tag and nonce |
| `RtpSending.AudioPacketFields` | crates/airplay-audio/src/rtp.rs:498-550 | Octet by octet: version 2, marker and payload type, the sender's sequence, the frame's time stamp, the sender's ssrc, then the payload or the cipher's data, tag and nonce |
| `RtpSending.HistoryIsRecentLog` | crates/airplay-audio/src/rtp.rs:498-550 | After any mix of audio, sync and reset calls, past the 16-bit wrap too, a sequence is found in the ring exactly when it is among the last 512 packets of the plain log, and what is found is that packet |
| `RtpSending.HitOffsetsAreHits` | crates/airplay-audio/src/rtp.rs:901-964 | The served offsets of a request are exactly those with a history entry, in request order |
| `RtpSending.RequestServesDistinctSlots` | crates/airplay-audio/src/rtp.rs:901-964 | One request never serves a sequence twice and serves at most 512 packets, for any 16-bit count |
| `RtpSending.RequestIsAnsweredFromLog` | crates/airplay-audio/src/rtp.rs:901-964 | End to end: the responses to a request are, in order, one per requested sequence still retained, each naming it and carrying the packet that was originally sent |
| `RtpSending.OutcomeAccountsForRequest` | crates/airplay-audio/src/rtp.rs:901-964 | Accepted, missed and failed slots sum to the request if and only if no served send reported zero octets (or there is no socket) |
| `RtpSending.OutcomeCountsSlots` | crates/airplay-audio/src/rtp.rs:901-964 | The counters as numbers of slots: misses are those the last 512 packets do not cover, accepted those covered whose send reported octets, failures those covered whose send erred or had no socket |
| `RtpSending.ZeroOctetSendIsUncounted` | crates/airplay-audio/src/rtp.rs:938-950 | A sender holding one packet, asked for it over a socket that reports zero octets: requested 1, accepted, missed and failed all 0 |
| `RtpSending.RtpSender.constructor` | crates/airplay-audio/src/rtp.rs:414-431 | A new sender has both counters at zero, a clear first-sync flag and an empty history |
| `RtpSending.RtpSender.ResetSyncState` | crates/airplay-audio/src/rtp.rs:474-476 | Only the first-sync flag changes |
| `RtpSending.RtpSender.PrepareAudio` | crates/airplay-audio/src/rtp.rs:498-550 | Returns the wire packet, stores it in its ring slot and advances the sequence; an encryption error changes nothing |
| `RtpSending.RtpSender.PrepareSync` | crates/airplay-audio/src/rtp.rs:720-817 | Builds the PT=84 or PT=87 packet and advances the sync counter and flag; without a control port nothing is built or changed |
| `RtpSending.RtpSender.HandleRetransmit` | crates/airplay-audio/src/rtp.rs:901-964 | The counting loop computes the outcome each slot deserves and sends exactly the responses of the hits |
| `Streaming.FirstBadDelay` | crates/airplay-audio/src/streamer.rs:307-320 | Finds the first target whose presentation time is refused; all earlier ones have one |
| `Streaming.RefusedFrameChangesNothing` | crates/airplay-audio/src/streamer.rs:295-320 | A frame refused for its target count or for a presentation time leaves every sender unchanged; a count error occurs exactly on a count mismatch |
| `Streaming.NotInFutureExactly` | crates/airplay-audio/src/streamer.rs:197-213 | Barring overflow, a sync-due frame is refused as not in the future exactly when the anchor fell by at least the render lead plus the smallest delay |
| `Streaming.Encrypting` | crates/airplay-audio/src/streamer.rs:344-352 | Serialization reaches exactly the senders before the first cipher failure |
| `StreamRuns.EveryRunIsCoherent` | crates/airplay-audio/src/streamer.rs:780-826 | In every state of every run, including pauses, underruns and restarts, with a generation channel, offset and clock identity belong to one generation that was really published on the current channel, or both are cleared, whatever legacy setters were called |
| `StreamRuns.SyncFollowsOneGeneration` | crates/airplay-audio/src/streamer.rs:828-888 | Every PT=87 packet of a frame names the last published generation and carries the anchor converted with that generation's offset; without a generation there is no sync packet, and the audio is prepared anyway |
| `StreamRuns.AudioAlwaysFlows` | crates/airplay-audio/src/streamer.rs:828-888 | A live frame yields every target's audio packet whatever happens to its sync, unless a cipher fails |
| `StreamRuns.ActualPlanIsUsable` | crates/airplay-audio/src/streamer.rs:861-881 | A refused presentation time costs the frame its sync packets and nothing else; it is refused exactly when some delay has no time |
| `StreamRuns.PreparedPackets` | crates/airplay-audio/src/streamer.rs:295-358 | Target by target, what a prepared frame holds and how its sender advanced; it succeeds exactly when all ciphers do |
| `StreamRuns.SyncMarkIsRecent` | crates/airplay-audio/src/streamer.rs:839-887 | After a clock-ready frame whose sync was not refused, the last-sync mark is less than one second of ticks behind, modulo 2^32 |
| `StreamRuns.SyncRefusedExactly` | crates/airplay-audio/src/streamer.rs:839-881 | For a streamer: a due sync whose sums fit is refused if and only if the master anchor fell, since the recorded one, by at least the render lead plus the smallest delay |
| `StreamRuns.AnchorIsLastRecorded` | crates/airplay-audio/src/streamer.rs:1871-1873 | Over every run the recorded anchor is that of the last clock-ready prepared frame since the last subscription or change of master clock, or zero |
| `StreamRuns.FlagTellsUnclearedSync` | crates/airplay-audio/src/streamer.rs:797-803 | In every state of a run, a target's flag is set exactly when some earlier sync of it was not followed by a reset |
| `StreamRuns.FirstSyncIsMarked` | crates/airplay-audio/src/streamer.rs:1523-1529 | Over every run, a sync packet starts with 0x90 if and only if every earlier sync of that target was followed by new senders, a flush, a subscription or an observed change of master clock; all others start with 0x80 |
| `StreamFields.SendersAreLastSet` | crates/airplay-audio/src/streamer.rs:1019-1023 | Over every run a target's ssrc, cipher and control port are those of the last call that set the senders |
| `StreamFields.IdleExactly` | crates/airplay-audio/src/streamer.rs:1041-1047 | A streamer is idle exactly until its first start or stop |
| `StreamFields.DelaysAreLastAccepted` | crates/airplay-audio/src/streamer.rs:1019-1057 | Over every run the delays are those of the last request made before the first start with one delay per target since the senders were set, else zeros |
| `StreamFields.LeadIsLastSet` | crates/airplay-audio/src/streamer.rs:1099-1103 | The render lead is the last one set, milliseconds turned into nanoseconds; the sample rate never changes |
| `StreamFields.PtpModeExactly` | crates/airplay-audio/src/streamer.rs:1063-1078 | PT=87 is in use exactly after a call that asked for it |
| `StreamFields.FirstPacketIsLastEvent` | crates/airplay-audio/src/streamer.rs:1824-1870 | The next packet is marked exactly when none was handed on since creation or the last flush |
| `StreamFields.LegacyClockIsLastSet` | crates/airplay-audio/src/streamer.rs:1616-1629 | Before any subscription, identity and offset are the last ones set, or the newest published offset a poll found unseen |
| `StreamFields.DispatchingExactly` | crates/airplay-audio/src/streamer.rs:1706-1776 | Packets are handed on exactly from the begin of streaming to a start, stop, underrun or breakage |
| `StreamFields.BufferingExactly` | crates/airplay-audio/src/streamer.rs:1745-1775 | Buffering lasts exactly from a start or underrun to the next begin of streaming or stop |
| `StreamFields.PausedExactly` | crates/airplay-audio/src/streamer.rs:1494-1520 | A pause lasts exactly to a resume or an interruption |
| `StreamFields.FailedExactly` | crates/airplay-audio/src/streamer.rs:1842-1850 | A stream has failed exactly if some needed frame could not be prepared |
| `StreamPackets.SyncExactly` | crates/airplay-audio/src/streamer.rs:839-881 | A frame brings a target a sync packet if and only if the target has a control port, the clock is usable, it is the first packet, nothing is marked or a second of ticks has passed, and every target's time lies after the recorded anchor and fits 64 bits |
| `StreamPackets.SyncSays` | crates/airplay-audio/src/streamer.rs:228-235 | What a receiver reads in any sync packet, PT=84 or PT=87: RTP times, number, clock identity, and as presentation time the local time minus the clock offset (or local time where that is no 64-bit time) plus render lead plus delay |
| `StreamPackets.SubscribedSyncSays` | crates/airplay-audio/src/streamer.rs:228-235 | Under a published generation, clock field plus offset equals local time plus lead plus delay |
| `StreamPackets.SyncMarkIsLastSync` | crates/airplay-audio/src/streamer.rs:1864-1867 | Over every run the mark that paces the syncs is the RTP time of the last frame that carried them, or zero after a subscription or change of master clock |
| `StreamPackets.SyncsAreNumbered` | crates/airplay-audio/src/rtp.rs:720-817 | Over every run a target's sync packets are numbered from zero, modulo 2^16, since its senders were set |
| `StreamPackets.AudioPacketSays` | crates/airplay-audio/src/rtp.rs:498-550 | Every audio packet of every run, octet by octet: time stamp of the frame, ssrc of the target, numbers from zero since its senders were set, the marker only on the first packet after creation or a flush, the payload |
| `StreamHistory.HistoryIsWhatWasSent` | crates/airplay-audio/src/streamer.rs:829-888 | Over every run not yet failed, each target's retransmit ring holds exactly the recent part of the audio packets handed on for that target since its senders were set |
| `StreamHistory.RetransmitsWhatWasSent` | crates/airplay-audio/src/streamer.rs:1141-1157 | Over every such run a request to a target is answered, in request order, by exactly those of its last 512 packets that it names, octet for octet as they were handed on |
| `StreamHistory.RetransmitCountsWhatWasSent` | crates/airplay-audio/src/streamer.rs:1141-1157 | Over every run the counters of a request are numbers of slots that the packets handed on for that target do or do not cover |
| `StreamPairs.DelaysNeverReachAudio` | crates/airplay-audio/src/streamer.rs:1026-1057 | Two runs that differ only in the delays send identical audio packets, even where delays cost one of them a sync |
| `StreamPairs.DelaysOnlyMoveSyncClock` | crates/airplay-audio/src/streamer.rs:295-358 | Two such runs that refuse the same syncs send sync packets that agree everywhere outside octets 8..16 |
| `StreamerObject.ValidateTimes` | crates/airplay-audio/src/streamer.rs:307-320 | The loop yields a presentation time per target, or the index and error of the first bad one |
| `StreamerObject.BuildSyncs` | crates/airplay-audio/src/streamer.rs:322-342 | Each sender builds its own sync packet from its own time and advances once |
| `StreamerObject.BuildAudio` | crates/airplay-audio/src/streamer.rs:344-352 | Each sender serializes the shared frame; the first cipher failure stops the loop and leaves the rest unchanged |
| `StreamerObject.PrepareFrameForTargets` | crates/airplay-audio/src/streamer.rs:295-358 | The three phases on real senders give exactly the packets, errors and sender states of the specification |
| `StreamerObject.StreamerInner.InstallPtpClockState` | crates/airplay-audio/src/streamer.rs:780-804 | Installs offset and identity together; another identity also clears both marks and every first-sync flag |
| `StreamerObject.StreamerInner.ConsumePtpClockUpdates` | crates/airplay-audio/src/streamer.rs:806-826 | Takes the channel's current value exactly when it differs from the installed one |
| `StreamerObject.StreamerInner.SetPtpClockUpdates` | crates/airplay-audio/src/streamer.rs:1077-1092 | A subscription forgets every earlier clock source, resets all targets and takes the current generation |
| `StreamerObject.StreamerInner.ResetStateAfterFlush` | crates/airplay-audio/src/streamer.rs:1523-1529 | The next audio packet is marked and every target's next sync counts as its first |
| `StreamerObject.StreamerInner.SetTargetPresentationDelays` | crates/airplay-audio/src/streamer.rs:1039-1057 | Delays are taken exactly when the streamer is idle and there is one per sender |
| `StreamerObject.StreamerInner.SetPtpSync` | crates/airplay-audio/src/streamer.rs:1063-1070 | The legacy clock identity is ignored once a generation channel exists |
| `StreamerObject.StreamerInner.SetOffset` | crates/airplay-audio/src/streamer.rs:1616-1621 | The legacy offset is ignored once a generation channel exists |
| `StreamerObject.StreamerInner.PollClocks` | crates/airplay-audio/src/streamer.rs:1719-1729 | A loop pass reads the legacy channel only without a generation channel |
| `StreamerObject.StreamerInner.PrepareStreamFrame` | crates/airplay-audio/src/streamer.rs:828-888 | Clock update, plan, and the retry without sync after a refused presentation time |
| `StreamerObject.StreamerInner.RunFrame` | crates/airplay-audio/src/streamer.rs:1824-1875 | One popped frame: the packets handed on and the marks recorded afterwards, or the stream failed |
| `StreamerObject.StreamerInner.SetRtpSenders` | crates/airplay-audio/src/streamer.rs:1019-1023 | New senders start afresh and every delay is reset to zero |
| `StreamerObject.StreamerInner.ChangePhase` | crates/airplay-audio/src/streamer.rs:1494-1520 | Start, stop, pause, resume, begin and underrun change the phase exactly as the state machine says, and nothing else |
| `StreamerObject.StreamerInner.Perform` | crates/airplay-audio/src/streamer.rs:1676-1746 | Every call, publication and loop pass on the object is one step of the state machine and hands on the same packets |
| `StreamerObject.StreamerInner.Run` | crates/airplay-audio/src/streamer.rs:1676-1965 | Every run of the object is a run of the state machine with the same packets at every step, so the run theorems hold of it |
| `GroupConnect.SmallestPtp` | crates/airplay-client/src/group.rs:262-273 | The PTP-capable device of smallest identity, or none exactly when no device is PTP-capable |
| `GroupConnect.FindPtp` | crates/airplay-client/src/group.rs:262-273 | A PTP-capable device of the given identity, or none exactly when there is none |
| `GroupConnect.ChoiceIgnoresOrder` | crates/airplay-client/src/group.rs:256-273 | The choice of a primary depends on which devices are candidates, never on their order |
| `GroupConnect.LinksAreConserved` | crates/airplay-client/src/client.rs:767-1124 | For every script of answers, the links established are, with multiplicity, those torn down plus those stored in the session |
| `GroupConnect.EachLinkEndsOnce` | crates/airplay-client/src/client.rs:767-1124 | Each link ever established is stored once or torn down once, never both, and no other link is |
| `GroupConnect.ReportPartitionsMembers` | crates/airplay-client/src/client.rs:767-1124 | Connected and failed members are exactly the requested ones, each once, whenever a primary is reported; in general if and only if a primary was elected or no live member was left over |
| `GroupConnect.ReportMatchesSession` | crates/airplay-client/src/client.rs:985-1053 | The connected list is the stored links in order, primary first; no primary means no stored link; the session uses NTP exactly when one member is left |
| `GroupConnect.ConnectedAreDistinct` | crates/airplay-client/src/client.rs:1046-1052 | No member is connected twice, so the targets of a session are distinct |
| `GroupConnect.ElectionIsTwoChoices` | crates/airplay-client/src/client.rs:858-928 | The election is one choice and, after its failure, exactly one more that ignores the preference |
| `GroupConnect.AtMostTwoPrimaries` | crates/airplay-client/src/client.rs:858-928 | At most two primaries are tried: the preferred one if live and PTP-capable, else the smallest such identity, then the smallest of the rest; a reported primary is the last tried |
| `GroupConnect.OrderDoesNotMatter` | crates/airplay-client/src/client.rs:858-928 | Every permutation of the device list tries the same primaries, reports the same one and connects the same members |
| `GroupAnswers.CriticalFailureExactly` | crates/airplay-client/src/client.rs:1762-1785 | A candidate fails exactly if one of setup, timing identity and peer list goes wrong, in the phase of the first that does |
| `GroupAnswers.TriesByAnswers` | crates/airplay-client/src/client.rs:858-928 | By the answers alone: a second primary is tried exactly if the first lacks one of its three answers and another live PTP-capable device is there; a reported primary gave all three |
| `GroupAnswers.SessionByAnswers` | crates/airplay-client/src/client.rs:947-1124 | By the answers alone: when there is a session, and that it holds the primary and exactly the untried live devices that joined and took the peer list |
| `GroupAnswers.FailuresByAnswers` | crates/airplay-client/src/client.rs:1723-1785 | Every reported failure names the first request that went wrong in the role its receiver had, and is retryable exactly in the connect, timing, peer list and start phases |
| `GroupFailures.FailuresAreFailedDevices` | crates/airplay-client/src/client.rs:826-973 | The failure list is, in this order: devices that did not establish, failed primaries, secondaries that could not join, and a lone survivor that could not reconnect |
| `GroupFailures.ListedByStage` | crates/airplay-client/src/client.rs:826-973 | The list is sorted by the stage in which a member failed, and by input position within a stage |
| `GroupFailures.InputOrderExactly` | crates/airplay-client/src/group.rs:240-242 | The failures come in input order if and only if no device fails in an earlier stage than a device requested before it |
| `GroupFailures.LateConnectFailureComesFirst` | crates/airplay-client/src/client.rs:826-929 | Any device that fails as primary and was requested before one that does not establish is listed after it |
| `GroupFailures.FailuresOutOfInputOrder` | crates/airplay-client/src/group.rs:240-242 | Devices 0 and 1, 0 refusing its setup and 1 unreachable: the list is not in input order |
| `GroupFailures.LiveMemberIsForgotten` | crates/airplay-client/src/client.rs:930-945 | A lone live device without PTP is torn down and named in neither list |
| `GroupFailures.ReportForgetsMember` | crates/airplay-client/src/client.rs:930-945 | Device 7 without PTP, every request answered well: the report does not partition the request |
| `GroupClient.FindDuplicateMember` | crates/airplay-client/src/group.rs:245-254 | Returns the identity of the first device that repeats an earlier one, and none exactly when all are distinct |
| `GroupClient.AirPlayClient.Disconnect` | crates/airplay-client/src/client.rs:333-364 | All group links end, then the primary link unless its teardown fails, and then it stays in the session; these and no other links are torn down |
| `GroupClient.AirPlayClient.Establish` | crates/airplay-client/src/client.rs:807-843 | Every device is established on its own, in input order, with one failure per device that is not |
| `GroupClient.AirPlayClient.BeginAttempt` | crates/airplay-client/src/client.rs:772-804 | Which of the four refusals ends the call before any member is contacted, in the order of the checks, and what is then left of the session: everything after a refused list, the primary link after a failed teardown, nothing otherwise |
| `GroupClient.AirPlayClient.TryPrimary` | crates/airplay-client/src/client.rs:864-927 | One try logs its candidate; a failing candidate alone loses its link, in the phase that failed |
| `GroupClient.AirPlayClient.ElectPrimary` | crates/airplay-client/src/client.rs:858-928 | The loop computes the election: same primary, failures, torn down links and attempt log |
| `GroupClient.AirPlayClient.TearDownMembers` | crates/airplay-client/src/client.rs:930-945 | Without a primary every link still held is torn down once |
| `GroupClient.AirPlayClient.JoinSecondaries` | crates/airplay-client/src/client.rs:947-973 | Secondaries that join survive in input order; each other one is torn down alone with its phase |
| `GroupClient.AirPlayClient.FinishSingleSurvivor` | crates/airplay-client/src/client.rs:1060-1124 | The lone survivor's group link ends before it is reconnected over NTP; a failing reconnect leaves no link |
| `GroupClient.AirPlayClient.Settle` | crates/airplay-client/src/client.rs:947-1053 | With a primary: joins, downgrade or storage give the outcome's report, session and logs |
| `GroupClient.AirPlayClient.ConnectGroupBestEffort` | crates/airplay-client/src/client.rs:767-1053 | The call succeeds exactly when the list is non-empty and distinct, the old session ends and the encoder is built; each other case has its error and its remaining session. On success report, session, attempt log and the links established and torn down are those of the outcome; over the client's life every established link is torn down or in the session |
| `CaptureQueue.LiveFrameSender.constructor` | crates/airplay-audio/src/live_decoder.rs:301-313 | A new queue of any capacity, zero included, is empty and accounts for nothing |
| `CaptureQueue.LiveFrameSender.TrySend` | crates/airplay-audio/src/live_decoder.rs:110-133 | The frame is sent exactly when the decoder lives and there is room (a slot, or a waiting receiver without slots); a disconnected drop is counted exactly when the decoder is gone, a full-queue drop exactly when it lives and there is no room; submitted = received + queued + drops, in submission order |
| `CaptureQueue.LiveFrameSender.EvictAndPush` | crates/airplay-audio/src/live_decoder.rs:172-191 | Whatever the consumer takes meanwhile, a retry pass succeeds exactly when the channel has a slot at all or a receiver waits; the frame it evicts is the oldest the consumer left, and queue and received frames are stated exactly |
| `CaptureQueue.LiveFrameSender.RetryUntilSent` | crates/airplay-audio/src/live_decoder.rs:170-191 | The retry loop ends, with at least one slot in its first pass, without slots when a pass meets a waiting receiver; it evicts and counts the oldest frame exactly when the consumer left one |
| `CaptureQueue.AlwaysReturnsExactly` | crates/airplay-audio/src/live_decoder.rs:170-191 | The retry loop ends under every behaviour of the consumer if and only if the channel has at least one slot |
| `CaptureQueue.NobodyComes` | crates/airplay-audio/src/live_decoder.rs:170-191 | Without slots and with a consumer that never waits, no pass succeeds |
| `CaptureQueue.LiveFrameSender.TrySendLatest` | crates/airplay-audio/src/live_decoder.rs:151-193 | `Disconnected` exactly when the decoder is gone, `Enqueued` exactly when there is room; else, position by position, the first frame the consumer had not taken is lost and all others are received or kept in order before the new one |
| `CaptureQueue.LiveFrameSender.Send` | crates/airplay-audio/src/live_decoder.rs:198-217 | A blocking send succeeds exactly when the decoder lives, with the frame as the newest; otherwise one disconnected drop; never a full-queue drop; queue and received frames are stated exactly |
| `CaptureQueue.LiveFrameSender.Interfere` | crates/airplay-audio/src/live_decoder.rs:376-405 | The consumer takes frames oldest first and keeps the account and the order |
| `Pipeline.LiveAudioDecoder.DecodeResampled` | crates/airplay-audio/src/live_decoder.rs:411-484 | At equal and unequal rates: packet plus residual equal the old residual plus what the received frames contribute; a packet has exactly the asked size; too few samples are all kept; no frame more than needed is received; a resampler once built is kept, a missing one changes nothing, a resampler error loses what was collected |
| `Pipeline.DeliveredIsSamples` | crates/airplay-audio/src/live_decoder.rs:434-445 | What counts as delivered is the concatenation of the frames' own samples at equal rates, of the resampler's outputs otherwise |
| `Pipeline.PositionCountsFrames` | crates/airplay-audio/src/live_decoder.rs:381-389 | The position counts frames: samples divided by channels |
| `Pipeline.AlacEncoder.Encode` | crates/airplay-audio/src/encoder.rs:81-124 | Nothing is lost between input, buffer and packet; the packet is a full frame if there is one; time stamps advance by the encoded frames |
| `Pipeline.Stream.DecodeIntoRing` | crates/airplay-audio/src/streamer.rs:1639-1674 | One decode: with a packet's worth of samples in hand or queue exactly the next packet is pushed, failing only on a full ring; otherwise everything is received and kept; encoded + queued + residual stay equal to everything captured |
| `Pipeline.Stream.Refill` | crates/airplay-audio/src/streamer.rs:1639-1674 | Up to three decodes raise the ring as the refill rule says for the whole packets available, and receive just the frames these packets need |
| `Pipeline.JustEnoughIsNeed` | crates/airplay-audio/src/live_decoder.rs:430-458 | Decoding takes the least number of frames that reaches its target, or all there are; that number is unique |
| `Pipeline.Stream.PopIntoEncoder` | crates/airplay-audio/src/streamer.rs:1777-1831 | One popped frame becomes one packet and keeps the same equality and the time stamps |
| `Pipeline.FlatSlices` | crates/airplay-audio/src/live_decoder.rs:460-484 | Packets of equal size are the consecutive slices of their concatenation |
| `Pipeline.PacketsAreCapturedSlices` | crates/airplay-audio/src/streamer.rs:1777-1831 | The k-th encoded packet carries the captured samples [k·S, (k+1)·S) and the RTP time stamp k·frames_per_packet modulo 2^32 |
| `Pipeline.Stream.EncodedIsCaptured` | crates/airplay-audio/src/streamer.rs:1777-1831 | The same for every state of a stream that has not failed |
| `Pipeline.Stream.Advance` | crates/airplay-audio/src/streamer.rs:1733-1796 | Every prefill round and loop pass moves the ring, encodes and receives exactly as the flow of values says |
| `Pipeline.Stream.Run` | crates/airplay-audio/src/streamer.rs:1733-1831 | Every run is the fold of its events: frames received, level of the ring, packets encoded. With room for four packets no push fails, and every packet is its slice of the captured samples |
| `SenderBuffer.AudioBuffer.constructor` | crates/airplay-audio/src/buffer.rs:60-76 | The ring of any format starts empty with the number of whole packets that fit the configured time, and at least one |
| `SenderBuffer.CapacityIsWholePackets` | crates/airplay-audio/src/buffer.rs:60-76 | The capacity is the largest number of whole packets that fit the configured time, and at least one |
| `SenderBuffer.TotalCountsSamples` | crates/airplay-audio/src/buffer.rs:79-97 | For whole frames the mirrored counter is samples divided by channels |
| `SenderBuffer.AudioBuffer.Push` | crates/airplay-audio/src/buffer.rs:79-97 | Appends exactly when there is room; the mirrored counters stay exact and written = read + queued + discarded |
| `SenderBuffer.AudioBuffer.Pop` | crates/airplay-audio/src/buffer.rs:103-126 | Takes the oldest frame, or counts one underrun exactly when empty, keeping the same balance |
| `SenderBuffer.AudioBuffer.Flush` | crates/airplay-audio/src/buffer.rs:184-207 | Returns all frames in order; they count as discarded, not as read |
| `SenderBuffer.DecodeSome` | crates/airplay-audio/src/streamer.rs:1639-1674 | A refill appends at most three decoded frames in order and fails exactly when one meets a full ring |
| `SenderBuffer.RunMoves` | crates/airplay-audio/src/streamer.rs:1733-1743 | Any sequence of starts, stops, prefills, loop passes and flushes on a real ring follows the level machine; with four frames of room and a stop before every further start no push fails |
| `SenderBuffer.MoveKeepsSafe` | crates/airplay-audio/src/streamer.rs:1733-1743 | With four frames of room each move, a start only when stopped, keeps the ring from overflowing, empty before the start and below half while prefilling |
| `SenderBuffer.ThresholdsExactly` | crates/airplay-audio/src/streamer.rs:1733-1743 | A loop pass refills exactly below 40 percent, by three frames if there are; a prefill ends exactly at half full or when patience runs out |
| `SenderBuffer.FourFramesSuffice` | crates/airplay-audio/src/streamer.rs:1359-1395 | With four frames of room no refill overflows on any run that stops before it starts again, and a prefilling ring stays below half |
| `SenderBuffer.OverflowUnreachableExactly` | crates/airplay-audio/src/streamer.rs:1733-1743 | Overflow is unreachable on all runs that stop before they start again if and only if the ring holds at least four frames |
| `SenderBuffer.RepeatedStartsOverflow` | crates/airplay-audio/src/streamer.rs:1224-1231 | Starting again and again without a stop overflows a ring of any size |
| `SenderBuffer.StockFormatsAreSafe` | crates/airplay-core/src/stream.rs:43-60 | Every permitted buffer length gives room for four packets of either codec at both sample rates |
| `WakeGate.NextKeepsInv` | apps/openaircast/src/app_handle.rs:83-88 | Every atomic instruction of any thread keeps the gate's invariant |
| `WakeGate.EveryRunKeepsInv` | apps/openaircast/src/app_handle.rs:339-346 | The invariant holds after every interleaving |
| `WakeGate.NoLostWake` | apps/openaircast/src/app_handle.rs:181-188 | Effects or snapshots that wait outside a drain are covered by the set gate or by a thread about to flip it; at rest, the wake for them has been issued |
| `WakeGate.EffectsDrainInOrder` | apps/openaircast/src/app_handle.rs:179-188 | Effects drained and queued are, in order, exactly the effects pushed |
| `WakeGate.HistoryIsTheRun` | apps/openaircast/src/app_handle.rs:83-88 | The effects drained and queued are, in order, those of the pushes of the run that found the lock free, and every snapshot counts |
| `WakeGate.DrainTakesAll` | apps/openaircast/src/app_handle.rs:181-188 | A whole drain opens the gate and takes the queue once and entirely |
| `WakeGate.PushWakes` | apps/openaircast/src/app_handle.rs:83-88 | A push with its flip and wake queues the effect, leaves the gate set and wakes exactly if the gate was open |
| `WakeGate.OneWakePerRearm` | apps/openaircast/src/app_handle.rs:337-346 | Between any two points of a run the gate flips at most once more than it is re-armed, and no more often if it was already set; wakes never exceed re-arms by more than one |
| `Calibration.MinimumRequested` | apps/openaircast/src/calibration.rs:218-222 | The smallest request of the selection, missing entries counting as zero |
| `Calibration.NormalizeCalibration` | apps/openaircast/src/calibration.rs:205-236 | Which of the two refusals occurs exactly when; the overflow answer never occurs for 64-bit requests; success gives each active receiver its request above the minimum |
| `Calibration.NormalizedUpToShift` | apps/openaircast/src/calibration.rs:189-236 | Shifting all active requests, or editing inactive ones, changes no delay; some receiver gets zero |
| `Calibration.DelaysByDevice` | apps/openaircast/src/calibration.rs:135-141 | Re-keying keeps every receiver and its delay and merges none |
| `Calibration.MapPresentationDelays` | crates/airplay-client/src/client.rs:40-72 | Succeeds exactly when every target has an entry and the counts agree; the result is in sender order |
| `Calibration.AcceptedKeysAreTargets` | crates/airplay-client/src/client.rs:40-72 | An accepted map has exactly the targets as keys if and only if no target is listed twice |
| `Calibration.RepeatedTargetHidesForeignEntry` | crates/airplay-client/src/client.rs:63-69 | Called with targets [1, 1] and entries for 1 and 2 the function accepts; a session never produces such targets |
| `Calibration.PresentationKeepsRequestedDifference` | crates/airplay-audio/src/streamer.rs:197-213 | Through all three crates, two presentation times differ by exactly the difference of the signed requests, and the earliest receiver gets no delay |
| `Calibration.GroupPresentsAsRequested` | crates/airplay-client/src/client.rs:1312-1323 | For the session of any group connect, without assuming distinct targets: the calibrated receivers are exactly the targets, times differ as requested, and one target gets no delay |
| `CalibratedStream.CalibrationArrives` | crates/airplay-audio/src/streamer.rs:1039-1057 | Accepted delays are the streamer's until a later call replaces them |
| `CalibratedStream.ReceiversReadRequestedDifference` | crates/airplay-audio/src/streamer.rs:295-358 | On every run whose last accepted delays are the calibration, the decoded clock fields of two targets of one PT=87 frame differ by exactly the difference of the signed requests, a missing entry counting as zero |
| `Preferences.DebounceState.OfferValue` | apps/openaircast/src/preferences.rs:341-371 | An older generation is dropped whole; any other offer replaces value, generation and timer together |
| `Preferences.DebounceState.TakeDue` | apps/openaircast/src/preferences.rs:381-393 | Takes the pending offer whole exactly when its deadline has come |
| `Preferences.DebounceState.TakePending` | apps/openaircast/src/preferences.rs:395-399 | Takes the pending offer whole, whatever its deadline |
| `Preferences.DeadlineExactly` | apps/openaircast/src/preferences.rs:354-371 | An accepted offer falls due 1000 ms later if only the window changed, else 500 ms later |
| `Preferences.SaveDeadline` | apps/openaircast/src/preferences.rs:531-537 | On any run that comparison is with what was pending, else with what was last written |
| `Preferences.CommitsExactly` | apps/openaircast/src/preferences.rs:504-556 | A pass commits exactly if something is pending in a live worker and its deadline has come or the worker is told to exit |
| `Preferences.CommitWaitsForDeadline` | apps/openaircast/src/preferences.rs:504-530 | A commit not forced by exit comes at least 500 ms after its offer arrived |
| `Preferences.RunWorker` | apps/openaircast/src/preferences.rs:494-557 | The worker loop on a real debounce state attempts exactly the commits of the specification |
| `Preferences.EveryRunIsDisciplined` | apps/openaircast/src/preferences.rs:494-557 | On every run the commits cut the offers into windows and each is, whole, the newest offer of its window; what is pending is the newest since the last take |
| `Preferences.NewestIsNewest` | apps/openaircast/src/preferences.rs:348-352 | The newest offer has the highest generation and no later offer reaches it |
| `Preferences.OrderedOffersCommitInOrder` | apps/openaircast/src/preferences.rs:539-556 | If generations arrive in order, commits are attempted in order and the last attempt before exit is the last offer |
| `Preferences.CommitOrderExactly` | apps/openaircast/src/preferences.rs:341-371 | For all sequences of offers: commit attempts follow the generations on every run if and only if the offers arrive in order |
| `Preferences.LastOfferCommittedExactly` | apps/openaircast/src/preferences.rs:539-556 | The last attempt before exit is the last offer on every run if and only if no earlier offer has a higher generation |
| `Preferences.LateOldGenerationIsCommitted` | apps/openaircast/src/preferences.rs:348-352 | An old generation offered after a newer one was committed is committed as well |
| `EventRing.SortedIsUnique` | crates/airplay-client/src/diagnostics.rs:695-695 | Events with distinct keys have only one sorted order |
| `EventRing.SortKeepsConnectionOrder` | crates/airplay-client/src/diagnostics.rs:689-695 | Sorting the pool, in whatever way ties fall, keeps every connection's own order |
| `EventRing.SortByKey` | crates/airplay-client/src/diagnostics.rs:695-695 | A permutation sorted by elapsed time and sequence |
| `EventRing.LedgerBalances` | crates/airplay-client/src/diagnostics.rs:357-390 | Every recorded event is exactly one of drained, evicted and counted, or still buffered |
| `EventRing.DrainKeepsLedger` | crates/airplay-client/src/diagnostics.rs:697-713 | Draining the oldest buffered events of a ring moves them, in order, from buffered to drained |
| `EventRing.ClientDiagnosticsSource.Record` | crates/airplay-client/src/diagnostics.rs:357-372 | Appends the event with the next number; exactly a full ring loses its oldest event and counts it, and no other ring or counter changes; no ring exceeds 256 |
| `EventRing.ClientDiagnosticsSource.Pool` | crates/airplay-client/src/diagnostics.rs:689-694 | The pool holds every ring's events in ring order |
| `EventRing.ClientDiagnosticsSource.TakeSmallest` | crates/airplay-client/src/diagnostics.rs:689-701 | The smallest events by key up to the limit, and a remainder that only holds others |
| `EventRing.ClientDiagnosticsSource.DrainEvents` | crates/airplay-client/src/diagnostics.rs:682-715 | Returns the smallest buffered events by elapsed time, then number, each once and in that order, and leaves every ring as its undrained rest in order; less than the limit means all rings are empty |

## Left out

- Sockets, quality-of-service options, thread priorities, sleeping and operating-system clocks.
- Audio codecs, ciphers, the resampler's arithmetic, the equalizer; cipher and resampler are arbitrary and may fail, fill levels are exact fractions instead of floats.
- Using a streamer again after a frame could not be prepared; such a stream stays failed in the state machine.
- The sender thread's pause loop and its exit, the inline sending without a sender thread, and the routing of prepared packets to sockets (`build_send_targets`, `packet_for`).
- Retransmit requests for a target index that does not exist; those slots are counted as requested only.
- Parsing of retransmit request datagrams.
- Peer address lists of group members, client events, worker ledgers and timing logs, the `DeviceGroup` mutators.
- A group link is assumed to report the identity of the device it was made for; one attempt asks each link each kind of request once, so answers are a function of identity and request kind.
- CaptureQueue.LiveFrameSender.Send: a send that stays blocked for ever because nobody receives is not modelled.
- The samples-per-channel counters of the capture queue; channel disconnect errors, which the sender's own receiver clone makes impossible.
- Pipeline.PacketsAreCapturedSlices: no flush or seek in between; sample counters are unbounded before the truncation to 32 bits.
- WakeGate.NoLostWake: a poisoned queue lock, which makes a push or a drain do nothing, is not modelled; the registry of wakers is one wake action.
- Preferences.RunWorker: preference files, schema migration and the report to the application; a commit either writes or fails.
- EventRing.ClientDiagnosticsSource.DrainEvents: records and drains do not overlap and the process clock does not go back; a record during a drain would land before restored events.
- The scheduler jitter ring, transport counters, feedback recorder and calibration clicks.
- Pipeline.LiveAudioDecoder.DecodeResampled: the position stamped on a packet at unequal rates, which the original scales in floating point and the encoder does not read; frames without channels, on which counting divides by zero.
- Discovery, pairing, RTSP, Bluetooth capture, the tray, windows and settings pages, the legacy device service.
