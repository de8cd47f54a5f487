# A verified model of moqtransport-fec

This project models the stateful core of a Go implementation of Media over QUIC Transport
(draft-ietf-moq-transport-11) with XOR forward error correction, in Dafny 4.11, and proves what its
parts promise together. `dafny verify dfyconfig.toml` checks all of it.

| part | files | what is proved |
|---|---|---|
| XOR forward error correction | `XorAlgebra`, `XorFec`, `XorCompleteness`, `XorDecoder`, `CounterFec` | what recovery returns, over every delivery run; exactly when it happens; what becomes of lost counters |
| Session request protocol | `RequestCredit`, `RequestProgress`, `RequestIds`, `LocalTracks`, `PublisherSession`, `RemoteTracks`, `SubscriberSession`, `EndToEnd` | credit safety and progress of two endpoints over FIFO streams; one answer per request; one response per call; stable aliases |
| Rolling windows | `PacketWindow`, `TimeWindow` | ring and pruned lists agree with a plain event log |
| Wire codec | `Varints`, `WireFields`, `ControlMessages`, `ObjectStreams`, `WireLayout` | the octets on the wire; round trips of whole streams, and of every cut of them |

How the model is built. State that the code changes in place is a class whose fields are those of the
code; its methods are proved against step functions on values, and the class invariant says that the
fields are what the steps made so far lead to. The theorems are then about all runs of those steps.
Delivery runs, handler behaviour, cancellation, map iteration order, failed writes and clock readings
are arbitrary. Each method of the session is one atomic step. Control streams are FIFO. Tracks are
referred to by their order of allocation, so that a reused request ID does not confuse two objects.
Octets are integers from 0 to 255; exclusive or is defined digit by digit.

Results that correct an expectation come with their exact condition. The server advertises a limit of
100 whatever it enforces: no request is refused and no limit shrinks exactly when it enforces at
least 99 (`CreditSafety`), or at least 50 if announcements, which take request IDs without being
counted, and failed writes are absent (`TrackCreditSafety`). Such runs never come to rest with a blocked
generator exactly when the server enforces at most 197, and neither 0 nor 2, and the client at least 2
(`NeverBlockedAtRest`). The packet window agrees with the log exactly when no packet number comes back
within a window (`AgreementExact`). Failed Subscribe and Fetch calls leave nothing pending exactly when no
Subscribe call fails to write its request (`FailedCallsLeaveNothing`). SUBSCRIBE_OK keeps its expiry
exactly when that is zero (`ExpiresPreservedOnlyZero`). A lost counter comes back readable exactly when
it is neither 8 nor 9 (`RebuiltParses`).

## Model

| member | source | states |
|---|---|---|
| XorAlgebra.XorMapRemove | fec/xor/xor.go:166-175 | the exclusive or of the packets of a map may be computed by taking any packet out first |
| XorAlgebra.XorAnyOrder | fec/xor/xor.go:166-175 | every enumeration of a map's keys, so every Go map iteration, gives the same exclusive or |
| XorAlgebra.ParityRecovers | fec/xor/xor.go:49-69 | the parity of a block combined with all its packets but one is that one, zero-padded to the longest |
| XorAlgebra.XorBit | fec/xor/xor.go:63-65 | a binary digit of the exclusive or is set exactly when the two digits differ |
| XorFec.GenerateParity | fec/xor/xor.go:49-69 | the nested in-place loops compute the octet-wise exclusive or of the zero-padded packets; nil only for no packets |
| XorFec.XorIntoPrefix | fec/xor/xor.go:63-65 | the inner loop changes exactly the octets below its bound, each to the exclusive or with the packet's octet |
| XorFec.Encoder.constructor | fec/xor/xor.go:19-26 | a new encoder stands at the start of an empty stream |
| XorFec.Encoder.TryEncode | fec/xor/xor.go:28-47 | payload k of the stream gets block and sequence number with block * size + seq = k and 1 <= seq <= size; parity comes exactly with the last of a block and is the parity of that block |
| XorFec.Encoder.Flush | fec/xor/xor.go:71-75 | after a full block the encoder stands at the start of the next one |
| XorFec.EmittedMonotone | fec/xor/xor.go:28-47 | packets already emitted stay genuine while the stream grows |
| XorFec.RecoveryNeverNil | fec/xor/xor.go:149-160 | with fewer packets than slots, under arbitrary sequence numbers, the missing-slot search succeeds |
| XorFec.TableCounted | fec/xor/xor.go:102-134 | in every reachable decoder, under arbitrary packets and clean-ups, each stored block counts its packets exactly, is not full, and lacks two once it has parity |
| XorFec.UnrecoveredIsDelivered | fec/xor/xor.go:121-140 | over every run of arbitrary packets a call without recovery hands a data payload through and returns nil for parity |
| XorFec.TableGenuine | fec/xor/xor.go:102-119 | fed with emitted packets only, every stored block holds original payloads of its own block and its true parity |
| XorFec.RecoveredIsOriginal | fec/xor/xor.go:98-178 | over every run that drops, duplicates, reorders and interleaves packets, with clean-ups anywhere, a recovered payload is the original one of the single sequence number not held, zero-padded to the block's longest |
| XorFec.BlocksAreIndependent | fec/xor/xor.go:98-109 | the entry of a block depends on its own arrivals only |
| XorFec.LastArrivalRecovers | fec/xor/xor.go:98-141 | when all but one data packet and the parity arrive once each, a call reports recovery if and only if it is the last arrival of the block, it returns the missing payload, and the entry is gone |
| XorCompleteness.TableHolds | fec/xor/xor.go:98-134 | in every run of arbitrary packets, duplicates included, and clean-ups, a block's entry holds exactly the data numbers collected since it last had none, each with the payload that came first, and the latest parity |
| XorCompleteness.RecoversExactly | fec/xor/xor.go:98-141 | over every such run a call recovers if and only if a parity and n-1 distinct data numbers have then been collected |
| XorCompleteness.FirstRecovery | fec/xor/xor.go:98-141 | until something removes a block, a call recovers if and only if the parity and n-1 distinct data numbers have then arrived for the first time, whatever was duplicated; held are the numbers that arrived |
| XorDecoder.Decoder.constructor | fec/xor/xor.go:91-96 | a new decoder has an empty table |
| XorDecoder.Decoder.TryDecode | fec/xor/xor.go:98-141 | a call recovers exactly when the packets collected for its block now allow it, hands a data payload through otherwise, and leaves the table that the run semantics says |
| XorDecoder.Decoder.StorePacket | fec/xor/xor.go:102-141 | the block table is updated in place for the addressed block only, with the result of its step |
| XorDecoder.Decoder.CleanupOldBlocks | fec/xor/xor.go:180-189 | exactly the blocks more than ten below the current one are forgotten |
| XorDecoder.KeepRecent | fec/xor/xor.go:184-188 | the deletion loop, in any key order, keeps exactly the recent blocks unchanged |
| XorDecoder.FindMissing | fec/xor/xor.go:149-156 | the search loop returns the first free slot from zero on, or -1 |
| XorDecoder.RecoverMissingPacket | fec/xor/xor.go:144-178 | recovery is nil unless parity and all but one packet are there; otherwise it is the order-independent exclusive or |
| XorDecoder.XorAll | fec/xor/xor.go:162-177 | the in-place loop over the held packets, in any order, computes parity combined with all of them |
| CounterFec.DecimalParses | fec/xor/example/subscriber.go:191-203 | formatting and parsing a counter gives it back exactly while it fits 64 bits |
| CounterFec.DecimalSample | fec/xor/example/publisher.go:77-88 | decimals are ASCII digits, the most significant first |
| CounterFec.OnlyDigitsParse | fec/xor/example/subscriber.go:191-203 | exactly non-empty texts of digits have a value |
| CounterFec.EqualLengths | fec/xor/example/publisher.go:77-88 | four consecutive counters from a multiple of four have equally long decimals, except 8 to 11 |
| CounterFec.RebuiltCounter | fec/xor/xor.go:162-177 | a rebuilt counter is its own decimal text, with one NUL appended exactly for 8 and 9 |
| CounterFec.RebuiltParses | fec/xor/example/subscriber.go:191-203 | a rebuilt counter parses, and then to itself, exactly when it is not 8 or 9 |
| CounterFec.LostCounterRecovered | fec/xor/example/subscriber.go:117-137 | over every delivery run of the counter stream, what recovery reports parses to the one lost counter of the block, except for a lost 8 or 9 |
| CounterFec.WrapWithMetadata | fec/xor/example/publisher.go:122-149 | the buffer is block number, sequence number, parity flag and payload |
| CounterFec.WordSamples | fec/xor/example/publisher.go:122-149 | numbers are written most significant octet first, in two's complement |
| CounterFec.ParityFlag | fec/xor/example/subscriber.go:171-189 | only an octet 1 marks a parity packet, and fewer than nine octets are refused |
| CounterFec.MetadataRoundTrip | fec/xor/example/subscriber.go:171-189 | unwrapping gives the packet back if and only if both numbers fit 32 signed bits |
| CounterFec.CounterPublisher.PublishNext | fec/xor/example/publisher.go:77-119 | each call publishes one counter, and a parity after every fourth; while block numbers fit 32 bits the first datagram unwraps to the decimal of the counter just published, in block counter / 4 at place counter % 4 + 1, and the second to the parity of that block |
| CounterFec.CounterSubscriber.ProcessObject | fec/xor/example/subscriber.go:117-168 | a counter is recorded only if it is the delivered one or the lost one of its block; a genuine datagram fails if and only if the call rebuilds a lost 8 or 9; totals and recoveries are counted exactly; every tenth counter, and nothing else, cleans up with its own block number |
| RequestIds.RequestIDGenerator.Next | request_id.go:25-34 | blocked exactly at the limit, reporting it; otherwise IDs come in strictly increasing order below the limit |
| RequestIds.RequestIDGenerator.SetMax | request_id.go:36-44 | the limit is taken unless it would shrink |
| RequestIds.CreditSession.Request | session.go:303-315 | a call takes the next ID and writes its request, or writes REQUESTS_BLOCKED with the limit it ran into |
| RequestIds.CreditSession.AddLocalTrack | session.go:271-291 | refused exactly from the enforced limit on, and an error that cannot be written ends the session; the limit doubles from its middle on and is announced |
| RequestIds.CreditSession.OnClientSetup | session.go:993-1036 | the server takes the client's limit if positive and answers with 100 |
| RequestIds.CreditSession.OnServerSetup | session.go:1038-1055 | the client takes the advertised limit unless it would shrink |
| RequestIds.CreditSession.Receive | session.go:924-991 | before setup only setup messages are accepted; afterwards credit messages act as the system model says |
| RequestCredit.SafeStep | session.go:271-291 | every step of either endpoint preserves the ordering of limits and IDs in both directions |
| RequestCredit.LimitsInFlight | session.go:271-291 | with a server enforcing at least 100, limits in flight never shrink and lie between what the requester knows and the grantor enforces |
| RequestCredit.CreditSafety | session.go:1022-1030 | over all runs no limit shrinks and no generated ID is refused if and only if the server enforces at least 99; whatever it enforces, admitted IDs are strictly increasing, hence distinct |
| RequestCredit.RefusedBelow99 | session.go:271-275 | for every smaller server limit there is a run in which a request is refused |
| RequestCredit.RunOrdered | session.go:271-285 | in every run, whatever the server enforces, IDs in flight and admitted are ordered in both directions, and each endpoint enforces exactly the fold of its initial limit over the IDs it admitted, each of which was below the limit of its time |
| RequestCredit.LimitFollowsIds | session.go:276-285 | in every run, with any server limit, other requests, failed writes and stopped readers, the enforced limit is at least twice any admitted ID plus two and, once raised, at most four times the largest plus two |
| RequestProgress.RunClientGrants | session.go:993-1036 | in every run, whatever the server enforces, the server never holds or receives more than the client enforces, never sees its limit shrink, and is never refused |
| RequestProgress.TrackCreditSafety | session.go:271-285 | over all runs of SUBSCRIBE and FETCH without failed writes, aborts included, no limit shrinks and no generated ID is refused if and only if the server enforces at least 50 |
| RequestProgress.NeverBlockedAtRest | request_id.go:25-34 | no run of SUBSCRIBE and FETCH without failed writes comes to rest with a blocked generator if and only if the server enforces at most 197, and neither 0 nor 2, and the client at least 2 |
| RequestProgress.AnnouncementsBlock | session.go:303-315 | with announcements, whatever both sides enforce, there is a run that comes to rest with a blocked client |
| LocalTracks.RunPendingIsCurrent | session.go:1095-1129 | whatever handlers do, only the request being handled can be pending, and only until it is accepted or rejected |
| LocalTracks.InvariantStep | local_track_map.go:21-80 | every step keeps registries, replies and stream counts consistent as long as no received request reuses an ID |
| LocalTracks.EveryRequestAnsweredOnce | session.go:596-658 | between messages nothing is pending; each admitted request is given exactly one of OK, ERROR, DONE, or OK then DONE; DONE counts the streams ever opened; a request not admitted gets at most one error |
| LocalTracks.AnswerMatchesStep | session.go:596-639 | with distinct IDs the first reply to a request is OK if and only if an Accept ended its pending state, ERROR if and only if a Reject or the return of an unhandled handler did, DONE if and only if a close did |
| LocalTracks.PeerSeesOneAnswer | control_stream.go:29-48 | with writes failing anywhere and distinct IDs, the peer never sees more than one answer to an admitted request, some answer if and only if one of its replies was written, and the whole answer if and only if all were |
| LocalTracks.NothingLost | control_stream.go:29-48 | while no write fails, the peer receives exactly the replies handed over |
| EndToEnd.GeneratedRequestsAnsweredOnce | session.go:1073-1129 | whatever the two endpoints enforce, admit and refuse, and whatever handlers and writes do: each request the credit scheme admits has exactly one track, in order of admission, is answered once, and the peer sees what of it was written; any other gets at most one error; credit scheme and publishing side enforce the same limit |
| EndToEnd.RunAccounted | session.go:271-285 | in every run the handled requests, admitted or refused, alone decide who was admitted and what limit is enforced, and they come in increasing order |
| EndToEnd.CanBeHandledInTurn | session.go:1095-1129 | any requests a server receives can be handled one after another, so the previous result speaks about every run |
| PublisherSession.Session.AddPending | local_track_map.go:21-32 | a track is registered exactly when its ID is in neither registry |
| PublisherSession.Session.FindByID | local_track_map.go:34-42 | pending tracks are found before open ones |
| PublisherSession.Session.AcceptRequest | session.go:596-627 | a pending request becomes open and exactly OK is handed over, also if it cannot be written; the call succeeds exactly when it was pending and OK was written; otherwise nothing changes |
| PublisherSession.Session.RejectRequest | session.go:629-639 | a pending request is removed and exactly ERROR is handed over, also if it cannot be written; the call succeeds exactly when it was pending and ERROR was written; otherwise nothing changes |
| PublisherSession.Session.AddLocalTrack | session.go:271-291 | limit check, raised limit and registration, in that order |
| PublisherSession.Session.OnRequest | session.go:1073-1118 | a namespace of 0 or more than 32 elements ends the reading loop; otherwise the request becomes the one being handled, and the only pending one, exactly when it is below the limit and in no registry; reading goes on after a refusal exactly for a SUBSCRIBE whose error was written |
| PublisherSession.Session.HandlerReturns | session.go:1119-1129 | an unhandled pending request gets exactly ERROR; reading ends exactly if the request was unhandled and either no longer pending or its error could not be written; nothing is pending afterwards |
| PublisherSession.Session.Accept | subscribe_response_writer.go:60-81 | accepting marks the request handled; if it was still pending the track is open and exactly OK is handed over, and the call succeeds exactly when OK was also written |
| PublisherSession.Session.Reject | subscribe_response_writer.go:83-86 | rejecting marks the request handled and leaves it not pending; if it was pending exactly ERROR is handed over, and the call succeeds exactly when that was written |
| PublisherSession.Session.CloseWithError | local_track.go:135-141 | the track is cancelled and removed from its registry; the call succeeds exactly when it was registered and DONE with its stream count was written |
| PublisherSession.Session.OpenSubgroup | local_track.go:123-133 | a stream opens and is counted exactly when the connection gives one and the track is not cancelled |
| PublisherSession.Session.OnUnsubscribe | session.go:1212-1219 | an open track is cancelled and stays registered; any other ID ends the reading loop; nothing is handed over |
| PublisherSession.Session.OnFetchCancel | session.go:1298-1305 | an open track is cancelled and removed; any other ID ends the reading loop; nothing is handed over |
| PublisherSession.Session.Answers | session.go:1073-1129 | of the session's fields at any time: between control messages nothing is pending, and with distinct received IDs every track has been answered once, of which the peer sees what was written |
| RemoteTracks.NextIsFresh | remote_track_map.go:54-80 | the next request ID is in neither registry, so the duplicate branches are never taken |
| RemoteTracks.RunInvariant | remote_track_map.go:54-123 | in every reachable state, against any peer: registries are disjoint and hold issued IDs only, no duplicate, no dropped response, aliases injective and on open tracks; successful calls have open tracks, and failed ones leave nothing pending except a SUBSCRIBE that could not be written |
| RemoteTracks.FailedCallsLeaveNothing | session.go:534-547 | over every run, failed calls leave nothing pending at any time if and only if no Subscribe call that got an ID failed to write its request |
| RemoteTracks.ToldWhatArrived | session.go:1132-1179 | over all runs, what a track has been told is Granted if and only if an OK for its pending request was handled, and Refused if and only if an ERROR was |
| RemoteTracks.TakenIsWhatArrived | session.go:538-547 | a waiting call that takes its response returns Granted exactly when an OK was handled for it, and Refused exactly when an ERROR was |
| RemoteTracks.LeftForGood | session.go:534-536 | the entry of such a call stays pending through every later step that is not a response to its ID |
| RemoteTracks.UnwrittenSubscribeStaysPending | session.go:534-536 | the shortest such run: one ID granted, one SUBSCRIBE that cannot be written, its entry pending and its call failed |
| RemoteTracks.RegisteredWasIssued | session.go:486-504 | a registered ID is in one registry only and below the generator's next one |
| RemoteTracks.AliasIsForever | remote_track_map.go:115-123 | once an alias resolves to a track it resolves to that track in every later state |
| RemoteTracks.AliasesDiffer | remote_track_map.go:82-90 | two aliases never name the same track |
| SubscriberSession.NeverDropped | session.go:1153-1177 | the branches that drop an unhandled response, and the duplicate branches, are never taken |
| SubscriberSession.Session.FindByRequestID | remote_track_map.go:41-52 | open tracks are found before pending ones |
| SubscriberSession.Session.FindByTrackAlias | remote_track_map.go:115-123 | a resolved alias names an open track that no other alias names |
| SubscriberSession.Session.AddPending | remote_track_map.go:54-80 | registered exactly when in neither registry |
| SubscriberSession.Session.SetAlias | remote_track_map.go:82-90 | an alias is set exactly when it is new |
| SubscriberSession.Session.Confirm | remote_track_map.go:92-102 | a pending track becomes open; otherwise nothing changes |
| SubscriberSession.Session.Reject | remote_track_map.go:104-113 | a pending track is forgotten; otherwise nothing changes |
| SubscriberSession.Session.StartRequest | session.go:486-536 | a call waits exactly when an ID was available and the request was written, and never meets a duplicate; a call whose write fails has returned an error, and its entry stays pending exactly for SUBSCRIBE |
| SubscriberSession.Session.OtherCall | session.go:303-315 | any other call takes the next ID exactly below the limit and leaves the registries alone |
| SubscriberSession.Session.OnMaxRequestID | session.go:1064-1066 | the limit is taken unless it would shrink, which ends the reading loop |
| SubscriberSession.Session.OnClientSetup | session.go:1014-1019 | the limit of the client's setup is taken if there is one |
| SubscriberSession.Session.Cancelled | session.go:538-546 | a cancelled call leaves nothing pending |
| SubscriberSession.Session.TakeResponse | session.go:541-547 | the call returns the response in its channel, which is Granted exactly when an OK was handled for it; granted means an open track, refused nothing pending |
| SubscriberSession.Session.OnSubscribeOk | session.go:1132-1162 | a pending request is opened; with a new alias its channel holds Granted and the alias names it; an unknown request or a used alias ends the reading loop; never drops the response |
| SubscriberSession.Session.OnFetchOk | session.go:1266-1280 | a pending request is opened and its channel holds Granted; an unknown one ends the reading loop; never drops the response |
| SubscriberSession.Session.OnError | session.go:1164-1179 | a pending request is forgotten and its channel holds Refused; an unknown one ends the reading loop; never drops the response |
| PacketWindow.Run | quicmoq/logging.go:242-258 | after any log, repeated numbers or not, every index entry points at a live slot that holds its number |
| PacketWindow.OnlyOwnNumberChanges | quicmoq/logging.go:280-299 | after any log an acknowledgement or loss changes only live samples of its own number |
| PacketWindow.RingAgreesWithLog | quicmoq/logging.go:242-306 | for numbers distinct within any N consecutive sends the ring holds the last N sends in order, acknowledged iff an acknowledgement follows, lost iff a loss and no acknowledgement follows |
| PacketWindow.AgreementExact | quicmoq/logging.go:242-306 | for given packet numbers to send, the ring agrees with every log of them, cut anywhere and with any acknowledgements and losses, if and only if no number comes back within N consecutive sends |
| PacketWindow.RepeatedNumberMissesAck | quicmoq/logging.go:250-252 | an example of a repeated number whose eviction takes the index entry away, so that a live sample misses its acknowledgement |
| PacketWindow.TallyCounts | quicmoq/logging.go:356-375 | the totals count all, acknowledged and lost samples, and the bytes are the sum of all sizes |
| PacketWindow.PacketLogger.constructor | quicmoq/logging.go:156-178 | a window of zero or fewer packets becomes one hundred; the ring starts empty |
| PacketWindow.PacketLogger.Sent | quicmoq/logging.go:242-262 | eviction, insertion and index update follow the log semantics in place |
| PacketWindow.PacketLogger.Acknowledged | quicmoq/logging.go:276-285 | follows the log semantics in place |
| PacketWindow.PacketLogger.LostPacket | quicmoq/logging.go:292-301 | follows the log semantics in place |
| PacketWindow.PacketLogger.SumWindow | quicmoq/logging.go:354-375 | the loop totals the live samples in order and finds the first and last |
| PacketWindow.PacketLogger.Metrics | quicmoq/logging.go:348-388 | totals and span are those that the log gives for the last N sends; the span is the time between the first and the last, or a second if that is not positive |
| TimeWindow.DroppedIsSince | quicmoq/logging.go:193-206 | on a sorted list dropping from the front is filtering by time |
| TimeWindow.ListIsWindow | quicmoq/logging.go:190-232 | with a clock that never runs backwards each pruned list is its history since last prune minus window |
| TimeWindow.SumIsReported | quicmoq/logging.go:220-232 | filtered by time, the packet lists sum up to the number of their events and the byte lists to the sizes of theirs, told from the log alone |
| TimeWindow.PruneStamps | quicmoq/logging.go:193-199 | the loop drops exactly the leading stamps before the cut |
| TimeWindow.SumStamps | quicmoq/logging.go:333-339 | the loop adds up the list |
| TimeWindow.TimeLogger.Prune | quicmoq/logging.go:190-212 | all six lists are pruned with the same cut |
| TimeWindow.TimeLogger.Record | quicmoq/logging.go:220-232 | an event appends its stamps and prunes all lists |
| TimeWindow.TimeLogger.Metrics | quicmoq/logging.go:457-463 | each reported sum is the number of sent, received, acknowledged or lost packets, or the octets sent or received, in the window ending at the last clock reading |
| Varints.VarintRoundTrip | internal/wire/varint_bytes.go:9-34 | every number below two to the 62 comes back and exactly its octets are consumed |
| Varints.RfcSamples | internal/wire/varint_bytes.go:9-34 | the sample encodings of appendix A.1 of RFC 9000 |
| Varints.LongVarint | internal/wire/varint_bytes.go:19-23 | an encoding longer than necessary is accepted, as in appendix A.1 of RFC 9000 |
| Varints.VarintCut | internal/wire/varint_bytes.go:19-23 | a varint cut short is an error |
| WireFields.BytesRoundTrip | internal/wire/varint_bytes.go:9-34 | length-prefixed octets come back |
| WireFields.AppendTuple | internal/wire/tuple.go:14-21 | the loop appends the element count and the elements |
| WireFields.ReadTuple | internal/wire/tuple.go:38-62 | the loop reads what the tuple grammar says, with its errors |
| WireFields.TupleRoundTrip | internal/wire/tuple.go:14-62 | every tuple comes back |
| WireFields.ReadVersions | internal/wire/version.go:68-85 | the loop reads the announced number of versions |
| WireFields.VersionsRoundTrip | internal/wire/version.go:60-85 | every version list comes back |
| WireFields.PairRoundTrip | internal/wire/key_value_pair.go:35-74 | a pair comes back without the half its type does not use |
| WireFields.AppendParams | internal/wire/kvp_list.go:36-52 | the loop appends the number of pairs and the pairs |
| WireFields.ReadParams | internal/wire/kvp_list.go:88-105 | the loop reads the announced number of pairs |
| WireFields.ParamsRoundTrip | internal/wire/kvp_list.go:36-105 | every parameter list comes back in normal form |
| ControlMessages.ExpiresPreservedOnlyZero | internal/wire/subscribe_ok_message.go:55-88 | over all 62-bit durations with 64-bit wrap-around, the expiry is preserved if and only if it is zero |
| ControlMessages.ExpiresScaled | internal/wire/subscribe_ok_message.go:82-88 | while it fits 64 bits the expiry comes back a million times as large |
| ControlMessages.LocationRoundTrip | internal/wire/location.go:10-24 | every location comes back |
| ControlMessages.SubscribeRoundTrip | internal/wire/subscribe_message.go:126-204 | SUBSCRIBE comes back with an unknown filter as NextGroupStart and without arguments its filter does not take |
| ControlMessages.SubscribeOkRoundTrip | internal/wire/subscribe_ok_message.go:55-116 | SUBSCRIBE_OK comes back with its expiry multiplied by a million in 64 bits |
| ControlMessages.FetchRoundTrip | internal/wire/fetch_message.go:80-181 | FETCH comes back without the fields of the branch not taken |
| ControlMessages.ClientSetupRoundTrip | internal/wire/client_setup_message.go:33-53 | CLIENT_SETUP comes back |
| ControlMessages.BodyRoundTrip | internal/wire/control_message_parser.go:45-110 | the dispatch leads each modelled type back to its own parser |
| ControlMessages.CompileMessage | session_helpers.go:15-27 | the frame is the type octet 0x03, 0x04, 0x16 or 0x20, the length patched in place most significant octet first, and the body; too large exactly above 65535 octets |
| ControlMessages.MessagesRoundTrip | internal/wire/control_message_parser.go:21-111 | any sequence of messages comes back in normal form and every byte is consumed |
| ControlMessages.MessagesPrefix | internal/wire/control_message_parser.go:21-43 | any cut of the bytes gives exactly the messages whose frames are complete |
| ControlMessages.ControlMessageParser.Parse | internal/wire/control_message_parser.go:21-111 | one frame is taken off the stream and the cursor stands behind it |
| WireLayout.TupleLayout | internal/wire/tuple.go:14-21 | number of elements, then each with its length |
| WireLayout.ParamsLayout | internal/wire/kvp_list.go:36-52 | number of pairs, an even type with a number, an odd one with length and octets |
| WireLayout.FieldsCut | internal/wire/tuple.go:38-62 | the errors of fields that announce more octets than there are |
| WireLayout.FrameLayout | session_helpers.go:15-27 | every frame begins with its type octet and the big-endian length |
| WireLayout.SubscribeLayout | internal/wire/subscribe_message.go:126-142 | the octets of SUBSCRIBE for every filter: 3 with a start, 4 with a start and an end group, 1 for unknown ones |
| WireLayout.SubscribeOkLayout | internal/wire/subscribe_ok_message.go:55-68 | the octets of SUBSCRIBE_OK with and without content |
| WireLayout.StandaloneFetchLayout | internal/wire/fetch_message.go:80-99 | the octets of a standalone FETCH |
| WireLayout.JoiningFetchLayout | internal/wire/fetch_message.go:80-103 | the octets of a joining FETCH |
| WireLayout.ClientSetupLayout | internal/wire/client_setup_message.go:33-43 | the octets of CLIENT_SETUP |
| WireLayout.TypesDispatched | internal/wire/control_message_parser.go:45-110 | exactly the listed message types are dispatched |
| WireLayout.SubscribeRefused | internal/wire/subscribe_message.go:167-187 | group order above 2, forward flag above 1, and filters other than 1 to 4 are refused, in this order |
| WireLayout.SubscribeOkRefused | internal/wire/subscribe_ok_message.go:92-102 | group order above 2 and content flags above 1 are refused |
| WireLayout.FetchRefused | internal/wire/fetch_message.go:112-131 | group order above 2 and fetch types other than 1 to 3 are refused |
| ObjectStreams.HeaderRoundTrip | internal/wire/stream_header_subgroup_message.go:14-39 | subgroup and fetch headers come back |
| WireLayout.HeaderLayout | internal/wire/stream_header_subgroup_message.go:14-20 | fetch headers begin with 0x05 and subgroup headers with 0x0d, fields in order |
| WireLayout.HeaderRead | internal/wire/object_stream_parser.go:55-122 | 0x05 is a fetch, 0x08 to 0x0d are subgroups, of which the last two name theirs, every other one-octet type is refused |
| WireLayout.ObjectLayout | internal/wire/object_message.go:21-46 | the octets of subgroup and fetch objects, with a payload or with a status |
| WireLayout.ObjectRead | internal/wire/object_message.go:48-58 | extension headers are read in the odd subgroup types, and only an empty list is passed |
| ObjectStreams.ObjectRoundTrip | internal/wire/object_message.go:21-122 | an object comes back as its reader sees it |
| ObjectStreams.ObjectCut | internal/wire/object_message.go:48-122 | an object whose bytes are incomplete is an error, never another object |
| ObjectStreams.StreamPrefix | internal/wire/object_stream_parser.go:55-122 | any cut of a stream gives nothing without its header and otherwise exactly the objects whose bytes are complete, in order |
| ObjectStreams.StreamRoundTrip | internal/wire/object_stream_parser.go:124-155 | a whole stream gives back its whole sequence of objects |
| ObjectStreams.ObjectStreamParser.Parse | internal/wire/object_stream_parser.go:238-246 | one object is read and the cursor stands behind it |
| ObjectStreams.ObjectStreamParser.ReadAll | remote_track.go:141-164 | the reading loop yields every object before the first error |
| ObjectStreams.NewObjectStreamParser | internal/wire/object_stream_parser.go:55-122 | reads the stream type and the header it announces, with its errors, and stands behind them |
| ObjectStreams.ReceiveStream | session.go:174-183 | from its first octet on, a stream gives what the theorems about cut streams say |

## Left out

- XorFec.Encoder.TryEncode: payloads are values, so a caller that later changes a payload slice the encoder still holds is not modelled; block sizes below one are not either.
- RequestIds.CreditSession.AddLocalTrack: the credit part only; the duplicate check that follows it is in `PublisherSession.Session.AddLocalTrack`.
- RequestIds.CreditSession.OnClientSetup: version selection and path validation are left out; a session they end is an aborted one.
- RequestIds.CreditSession.OnServerSetup: the version check is left out; a session it ends is an aborted one.
- RequestIds.CreditSession.Receive: messages without credit change nothing here; that one of them ends the session is the action `DoAbort`, which may happen at any time.
- RequestCredit.CreditSafety: limits and IDs are unbounded naturals; 64-bit overflow is not modelled (`LimitFollowsIds` bounds the doubling by the IDs used, in every run).
- RequestCredit.Admit: an inadmissible FETCH, which also ends the session, is treated like an inadmissible SUBSCRIBE; `LocalTracks` models the difference.
- PublisherSession.Session.OnRequest: the authorization check of SUBSCRIBE never fails and is not modelled.
- ControlMessages.ControlMessageParser.Parse: where the cursor stands after an error is not stated, since nothing is read afterwards; bodies of the message types not modelled are taken as well-formed.
- ObjectStreams.ObjectStreamParser.Parse: where the cursor stands after an error is not stated, since nothing is read afterwards.
- ObjectStreams.ReceiveStream: which remote track the objects go to, and the refusal of a second fetch stream, are left out.
- RequestProgress.NeverBlockedAtRest: announcements are excluded, because they take IDs that never raise a limit; `AnnouncementsBlock` shows that with them no limits suffice.
- WireFields.ParsePair: an odd-typed pair announcing more octets than there are is an error here, while the code slices out of range.
- WireFields.ParseTuple: the allocation made for an announced element count is not modelled.
- ControlMessages.ParseBody: it does not decode the bodies of the other control messages, whose fixed layouts would only add easy members; the dispatch knows their types.
- ANNOUNCE_CANCEL, PUBLISH, PUBLISH_OK and PUBLISH_ERROR, which the dispatch does not lead back to their own types.
- Objects with extension headers: no sender writes them, and the reader leaves a non-empty list only through an error, which is modelled.
- Datagram objects and the subgroup stream types that senders do not produce.
- The receive buffer cap and the receive rates of the packet window mode, floating-point rates and smoothing.
- Announcements, track status requests, SUBSCRIBE_UPDATE and SUBSCRIBE_DONE on the receiving side.
- The Reed-Solomon code, whose arithmetic is in a library.
- Connections, goroutines, logging, functional options, and agreement of track aliases between peers.
