# Verified model of the native telemetry protocol

This project models the protocol core of a native vehicle / proxy / ground-station
telemetry stack and proves properties of it in Dafny. It covers five components and
their compositions:

- **Snapshot/delta state.** `StatePublisher` numbers changes with generations and emits
  deltas and periodic snapshots. `NativeProxy` caches one message per stream, checks the
  delta chain, asks for resync and fans out to subscribers. The two are composed over a
  network that drops, duplicates and reorders.
- **Bounded QoS queue.** Two FIFOs and a latest-wins map under one capacity.
- **Record layer.** Header codec and check value, nonces, send high-water mark, 64-bit
  replay bitmap, epoch rekey.
- **Handshake.** HELLO / ACCEPT / FINISH with an authenticated transcript and crossed
  directional keys, composed with the record layer.
- **CRC-16.** The bitwise shift register and what it is certain to detect.

Each component has two layers. A *value model* (`Queues`, `Proxies`, `Publishers`,
`Replay`, `Endpoints`, `Handshakes`, `Layout`) gives every operation as a function from
state to state, and the run theorems quantify over all sequences of those operations. An
*imperative layer* (`QosQueue`, `NativeProxies`, `StatePublishers`, `Replay.ReplayWindow`,
`RecordSessions`, `HandshakeSessions`, `Buffers`, `Encoders`, `Readers`) has the source's
own form, classes whose fields are updated in place and loops over arrays, and each
method is proved to do exactly what the value model says.

Unsigned fixed-width integers are bit vectors of the same width, so wrap-around, shifts
and truncation are the source's. Stream keys, generations kept by the publisher, sequence
numbers in the replay window, clocks and lengths are integers, with saturation and 64-bit
wrap-around written out where the source has them. Floats and signed quantities are their
32-bit patterns. The authenticated cipher, the message authentication code and the
pseudo-random function are parameters; the only thing assumed of the cipher is that it
opens what it sealed, and `Crypto.PlainAeadOpens` shows that this can be met.

Where the code and what one would expect of it disagree, the model follows the code and
the exact condition is proved:

- `encode_hello` never writes the check value `decode_hello` demands
  (`HandshakeCodecs.HelloRejectedIff`).
- `encode_subscription` does not test the quality of service and `decode_subscription`
  does (`Requests.SubscriptionRoundTrip`, `Requests.SubscriptionRefused`).
- Generations saturate at 2^32 - 1, after which a cached stream is frozen
  (`Limits.GenerationsCollideIff`, `Boundaries.BeyondTheLimit`).
- A due poll clears every dirty flag even if the output has no room
  (`Limits.UpdateLostIff`).
- A loss-free, in-order link still sees a resync request when a type is updated twice
  between polls, because the second delta names a base that was never sent, and when a
  publisher leaves a stream of a type for another and comes back, because the base
  generation is counted per type and the cache is kept per stream
  (`Chains.RefusedExactly`, `LineExamples.TwoUpdatesAsk`, `LineExamples.ReturnAsks`).
- Equal client and server nonces give session identifier 0: an ACCEPT is produced that
  nobody settles on (`Agreement.EqualNoncesNeverSettle`, `Agreement.HonestRunCompletes`).

## Model

| member | source | states |
|---|---|---|
| `Crc16.Compute` | src/crc16.cpp:5-19 | the nested byte and bit loops compute the function the detection results are about |
| `Crc16.FeedBytesIsFeedBits` | src/crc16.cpp:10-17 | byte-wise processing equals feeding the message's bits one at a time |
| `Crc16.CheckValueIsTheRemainder` | src/crc16.cpp:5-19 | of all 16-bit words, exactly the check value, appended, brings the register to zero |
| `Crc16.BurstDetected` | src/crc16.cpp:5-19 | messages that agree outside any 16 consecutive bits have equal check values iff they are equal |
| `Polynomials.CrcIsTheRemainder` | src/crc16.cpp:5-19 | message times x^16 plus sixteen ones at its top is a multiple of x^16 + x^12 + x^5 + 1 plus the check value, with polynomial arithmetic defined apart from the register |
| `Polynomials.CheckString` | src/crc16.cpp:5-19 | the digits 1 to 9 have check value 0x29B1 |
| `Layout.DecodeOfEncode` | src/messages.cpp:9-14 | for every layout of 1, 2, 4 and 8-byte little-endian fields, reading undoes writing |
| `Layout.EncodeOfDecode` | src/messages.cpp:9-14 | writing back what was read from any byte string gives that byte string |
| `Layout.EncodeInjective` | src/messages.cpp:9-11 | two field lists of one layout with equal bytes are equal |
| `Buffers.Put` | src/messages.cpp:9-11 | the put loop leaves exactly the little-endian bytes at the offset and nothing else changed |
| `Buffers.PutAll` | src/messages.cpp:27-33 | a run of puts leaves exactly the encoding of the fields and the rest of the buffer untouched |
| `Readers.Fetch` | src/messages.cpp:12-14 | the get loop, or-ing shifted bytes together, reads exactly the field at the offset |
| `Readers.FetchAll` | src/messages.cpp:35-41 | reading a layout offset by offset computes the decoding the round trips are about |
| `Encoders.CheckCommand` | src/messages.cpp:18-23 | the loop over arguments decides validity: nonzero ids and deadline, at most 7 arguments, all in use finite |
| `Encoders.EncodeMetaInto` | src/messages.cpp:81-84 | succeeds iff the metadata encodes and fits; then exactly its 16 bytes are written, otherwise nothing |
| `Encoders.EncodeStateInto` | src/messages.cpp:91-112 | position, attitude and battery: succeeds iff valid and room; exact bytes, rest untouched, nothing on refusal |
| `Encoders.EncodeCommandInto` | src/messages.cpp:27-33 | succeeds iff valid and room; exact 44 bytes, rest untouched, nothing on refusal |
| `Encoders.EncodeAckInto` | src/messages.cpp:43-46 | succeeds iff valid and room; exact 16 bytes, rest untouched, nothing on refusal |
| `Encoders.EncodeSubscriptionInto` | src/messages.cpp:53-56 | succeeds iff type known, source nonzero and room; exact bytes, rest untouched, nothing on refusal |
| `Encoders.EncodeResyncInto` | src/messages.cpp:71-74 | succeeds iff valid and room; exact bytes, rest untouched, nothing on refusal |
| `Encoders.EncodeHeaderInto` | src/record.cpp:29-43 | writes exactly the 40-byte header, check field present or zero, rest untouched |
| `Encoders.MakeNonce` | src/crypto.cpp:76-81 | fills the 16-byte nonce with session id and epoch xor sequence |
| `Encoders.DeriveDirectionalKeys` | src/crypto.cpp:83-108 | computes the key derivation over buffers; on success the two key sets are crossed |
| `Messages.MetaRoundTrip` | src/messages.cpp:81-89 | decoding yields m iff the bytes are m's encoding and its flag bytes are valid |
| `Messages.StateRoundTrip` | src/messages.cpp:91-116 | position, attitude, battery: decode gives s iff the bytes are the encoding of s, in both directions |
| `Messages.MetaOfState` | src/messages.cpp:86-89 | an encoded state message carries its own metadata in its first 16 bytes |
| `Validity.StateEncodesIff` | src/messages.cpp:91-112 | which state messages encode, in numbers: nonzero ids, flag bytes, latitude and longitude ranges, at most 1000 permille |
| `Validity.CommandEncodesIff` | src/messages.cpp:18-33 | which commands encode: nonzero ids and deadline, at most seven arguments, no exponent of all ones among them |
| `Validity.RequestEncodesIff` | src/messages.cpp:43-74 | which acknowledgements, subscriptions and resync requests encode, types by number |
| `Validity.HandshakeEncodesIff` | src/session.cpp:43-66 | which hellos, accepts and finishes are valid |
| `Offsets.StateOffsets` | src/messages.cpp:81-112 | the byte offset of every field of position, attitude and battery messages |
| `Offsets.CommandOffsets` | src/messages.cpp:27-33 | the byte offset of every field of a command |
| `Offsets.AckOffsets` | src/messages.cpp:43-46 | the byte offset of every field of an acknowledgement |
| `Offsets.SubscriptionOffsets` | src/messages.cpp:53-56 | the byte offset of every field of a subscription |
| `Offsets.ResyncOffsets` | src/messages.cpp:71-74 | the byte offset of every field of a resync request |
| `Offsets.HeadOffsets` | src/record.cpp:29-43 | the byte offset of every header field the check value covers |
| `Offsets.NonceOffsets` | src/crypto.cpp:76-81 | session identifier, then epoch exclusive-or sequence number |
| `Offsets.DerivationOffsets` | src/crypto.cpp:55-72 | label, session, epoch, both identifiers and block number, each at its offset |
| `Offsets.TranscriptOffsets` | src/session.cpp:24-29 | the byte offset of every field of the transcript |
| `Offsets.FinishOffsets` | src/session.cpp:98 | the byte offset of every field of what a finish authenticates |
| `Offsets.HelloOffsets` | src/session.cpp:45 | the byte offset of every field of a hello |
| `Offsets.AcceptOffsets` | src/session.cpp:55 | the byte offset of every field of an accept |
| `Requests.CommandRoundTrip` | src/messages.cpp:27-41 | decode gives c iff the bytes are the encoding of c |
| `Requests.AckRoundTrip` | src/messages.cpp:43-51 | decode gives a iff the bytes are the encoding of a |
| `Requests.SubscriptionRoundTrip` | src/messages.cpp:53-61 | decode gives s iff the bytes are its encoding and its quality of service is defined |
| `Requests.SubscriptionRefused` | src/messages.cpp:54-59 | an encodable subscription that the decoder refuses |
| `Requests.ResyncRoundTrip` | src/messages.cpp:71-79 | decode gives r iff the bytes are the encoding of r |
| `Streams.StreamKeyIdentifies` | src/qos.cpp:15-24 | equal keys iff same type and same decoded source and resource, or both undecodable with the same header source |
| `Streams.KeyInjective` | src/proxy.cpp:15-16 | the packed 64-bit key determines type, source and resource |
| `Streams.DestinationIrrelevant` | src/proxy.cpp:76 | rewriting the destination changes neither stream, generation nor queue class |
| `QosQueue.BoundedQosQueue.Push` | src/qos.cpp:26-48 | the in-place push has exactly the value model's outcome, return value and counters, and keeps the queue valid |
| `QosQueue.BoundedQosQueue.PushQueuedMessage` | src/qos.cpp:41-47 | the reliable and event branch has the value model's outcome |
| `QosQueue.BoundedQosQueue.PushStateMessage` | src/qos.cpp:30-40 | the replace / evict / refuse branch, its eviction loop included, has the value model's outcome |
| `QosQueue.BoundedQosQueue.LeastKey` | src/qos.cpp:54 | the scan finds the least key, whatever the iteration order |
| `QosQueue.BoundedQosQueue.Pop` | src/qos.cpp:50-59 | the in-place loop ends with the value model's outcome and message, and keeps the queue valid |
| `QosQueue.BoundedQosQueue.Clear` | src/qos.cpp:61-63 | empties all three compartments and keeps the counters |
| `QueueRuns.PopRefinesFlatList` | src/qos.cpp:50-59 | pop returns the first unexpired element of the flat list and removes exactly the prefix through it, or empties the queue |
| `QueueRuns.StateListHolds` | src/qos.cpp:54 | the map's part of the flat list holds exactly the map's entries |
| `QueueRuns.StateListAscends` | src/qos.cpp:54 | the map's part of the flat list is strictly ascending in key |
| `QueueRuns.RunIsReplay` | src/qos.cpp:26-63 | over every run the queue is the replay of its event log, within capacity, each message in its compartment |
| `QueueLaws.Conservation` | src/qos.cpp:26-63 | over every run, pushes attempted = delivered + size + dropped + rejected + expired + cleared, and size <= capacity |
| `QueueLaws.MessagesConserved` | src/qos.cpp:26-63 | over every run, the accepted messages are exactly those that left plus those queued, as multisets |
| `QueueLaws.RefusalChangesNothing` | src/qos.cpp:26-48 | a push takes the message or leaves every queued message in place: it never both evicts and fails |
| `QueueLaws.ReliableInOrder` | src/qos.cpp:41-58 | over every run, reliable messages accepted are, in order, those delivered, expired or cleared, then those queued |
| `QueueLaws.LatestWins` | src/qos.cpp:30-40 | over every run, the entry of a stream is the last push accepted for it since it was last taken out |
| `Qualities.ReliableNeverDropped` | src/qos.cpp:41-58 | over every run, messages of quality 0 and 1 accepted are, in order, those delivered, expired or cleared, then those queued, and none is ever evicted or superseded |
| `Qualities.UnfitIsRefused` | src/qos.cpp:27-29 | a late or oversized message, or any for a queue of no capacity, is refused and nothing queued changes |
| `Qualities.RoomForIt` | src/qos.cpp:26-48 | with room a message joins the end of the part its quality and type number ask for |
| `Qualities.ReliableIntoFull` | src/qos.cpp:42-43 | a full queue refuses quality 0 and 1 and changes only a counter |
| `Qualities.EventIntoFull` | src/qos.cpp:42-47 | a full queue takes an event by dropping exactly its oldest event, or refuses it if it has none |
| `Qualities.LatestIntoFull` | src/qos.cpp:30-40 | a latest-wins message replaces its stream's entry, else drops exactly the oldest event, else is refused |
| `Qualities.DeadlineDecides` | src/qos.cpp:7-9 | a message is taken at t and handed out at u exactly if neither is past its deadline |
| `Counters.QueueCounts` | src/qos.cpp:26-63 | over every run each counter is the number of its own events |
| `Counters.IngestCounts` | src/proxy.cpp:52-80 | one ingested message moves exactly the counters of what became of it, forwarding by the number of subscribers that took it |
| `NativeProxies.NativeProxy.AddLink` | src/proxy.cpp:21-24 | new state and result as specified: nonzero new id, at most 16 links, empty queue |
| `NativeProxies.NativeProxy.RemoveLink` | src/proxy.cpp:26 | new state and result as specified |
| `NativeProxies.NativeProxy.CountSubscriptions` | src/proxy.cpp:35 | the loop over links counts exactly the (link, type) subscription pairs |
| `NativeProxies.NativeProxy.Subscribe` | src/proxy.cpp:28-45 | for some walk of the cache, new state and result are those of the value model |
| `NativeProxies.NativeProxy.Unsubscribe` | src/proxy.cpp:47-50 | new state and result as specified |
| `NativeProxies.NativeProxy.Ingest` | src/proxy.cpp:52-80 | cache, resync queue, every link's queue and every counter end as specified, in every branch |
| `NativeProxies.NativeProxy.ForwardLoop` | src/proxy.cpp:72-78 | in any iteration order each link gets exactly its own offer and the counter grows by the number that took it |
| `NativeProxies.NativeProxy.Next` | src/proxy.cpp:82-85 | new state and message as specified |
| `NativeProxies.NativeProxy.NextResync` | src/proxy.cpp:92-95 | new state and request as specified |
| `NativeProxies.NativeProxy.FindCached` | src/proxy.cpp:87-90 | returns some cached message of the type, or none exactly if there is none |
| `Subscribers.SentToSubscribers` | src/proxy.cpp:72-78 | a stored or relayed message goes, readdressed, to exactly the other links that subscribe to its type and source; nothing else changes on any link |
| `Subscribers.SubscriberTakesIt` | src/proxy.cpp:72-85 | an idle subscriber then takes exactly that message out |
| `Subscribers.SubscribeThenReceive` | src/proxy.cpp:21-85 | from an empty proxy: two links, a subscription, a message in, that message out |
| `Subscribers.SubscriptionTakenIff` | src/proxy.cpp:28-38 | exactly which subscriptions are taken on, types by number, at most 64 in all |
| `Subscribers.RunBounded` | src/proxy.cpp:21-50 | over every run at most 16 links and 64 subscriptions |
| `Subscribers.AddedLink` | src/proxy.cpp:21-24 | a link is added iff its id is nonzero and new and there are fewer than 16 |
| `Subscribers.MalformedPositionRefused` | src/proxy.cpp:59 | a position that does not decode is counted as rejected and changes nothing else |
| `Subscribers.UnreadableRefused` | src/proxy.cpp:64 | a cached stream without readable metadata on either side is stuck: rejected, entry kept |
| `Subscribers.RequestsAreFifo` | src/proxy.cpp:92-95 | resync requests leave in the order they came |
| `Subscribers.UnsubscribedIsNotSent` | src/proxy.cpp:47-50 | after unsubscribing a link is not sent the type, and nothing else changes |
| `Subscribers.RemovedIsGone` | src/proxy.cpp:26 | a removed link is gone, the others and the cache stay |
| `ProxyViews.RunView` | src/proxy.cpp:28-85 | over every run, delivered <= queued <= cached for a latest-wins stream on every link |
| `ProxyViews.NeverBackwards` | src/proxy.cpp:28-85 | over every run, re-subscription included, generations popped from a link for a latest-wins stream never decrease |
| `ProxyViews.OtherQualityOvertakes` | src/qos.cpp:50-59 | why that condition is needed: a message of another quality of service overtakes a queued latest-wins message of its stream |
| `ProxyCache.CacheStep` | src/proxy.cpp:60-70 | any step leaves a stream's entry alone or replaces it by an ingested message that extends it |
| `ProxyCache.GapFreeChain` | src/proxy.cpp:60-70 | over every run, each cached version is strictly newer than the one it replaced and a snapshot or a delta on exactly that one |
| `ProxyCache.VersionsAscend` | src/proxy.cpp:60-70 | over every run, any earlier cached version of a stream is strictly older than any later one |
| `ProxyCache.SubscribeAgreesWithCache` | src/proxy.cpp:28-45 | a successful subscribe leaves the link's queue agreeing with the cache on every matching stream, others untouched |
| `ProxyCache.SubscribeSucceedsIff` | src/proxy.cpp:39-44 | an admissible subscribe succeeds iff reliable messages, queued streams and wanted streams fit the capacity together |
| `ProxyRuns.RunKeeps` | src/proxy.cpp:21-95 | over every run, every link's queue is valid and every cached message sits under its own key and fits a record |
| `ProxyRuns.RunSubscribeAgrees` | src/proxy.cpp:28-45 | after every run, a successful subscribe leaves the queue agreeing with the cache on every matching latest-wins stream |
| `ProxyRuns.RunSubscribeSucceedsIff` | src/proxy.cpp:39-44 | after every run, an admissible subscribe for latest-wins streams succeeds iff what is queued and wanted fits the capacity |
| `ProxyRuns.OrderMatters` | src/proxy.cpp:39-44 | with an entry of another quality, one walk of the same cache succeeds and another fails |
| `StatePublishers.StatePublisher.Update` | src/publisher.cpp:53-78 | new state as specified; returns whether the value counted as a change |
| `StatePublishers.StatePublisher.BuildFrom` | src/publisher.cpp:80-99 | builds exactly the specified delta or snapshot message, or nothing |
| `StatePublishers.StatePublisher.ScheduleNextSnapshot` | src/publisher.cpp:101-105 | next snapshot one period ahead, saturating at 2^64 - 1 |
| `StatePublishers.StatePublisher.Poll` | src/publisher.cpp:107-122 | new state and output as specified, never more messages than the capacity |
| `Readings.UpdateShows` | src/publisher.cpp:30-78 | after any update the slot shows every quantity given; refused iff quantities, resource and source were all there already |
| `Readings.RunShowsLast` | src/publisher.cpp:30-122 | over every run each slot shows the last reading of its type the publisher was given |
| `Readings.PublishedHeader` | src/publisher.cpp:13-21 | type number, quality, identifiers and the delta or snapshot flag of every published message |
| `Cadence.BurstsOnTime` | src/publisher.cpp:101-122 | over every run, bursts are never less than a period apart and no poll returns with a burst overdue |
| `Cadence.BurstsPrompt` | src/publisher.cpp:101-122 | if polls are at most d apart, consecutive bursts are less than period + d apart |
| `Cadence.FirstBurst` | src/publisher.cpp:59 | after a first update at t and polls at most d apart, the first burst falls in [t + period, t + period + d) and no poll passes t + period without it |
| `Cadence.ScheduleSaturates` | src/publisher.cpp:101-105 | the next snapshot is one period ahead, or 2^64 - 1 where the sum would wrap |
| `Cadence.DefaultPeriod` | src/publisher.cpp:25-28 | a publisher made without a period has its first burst ten seconds after the first update |
| `Limits.GenerationCounts` | src/publisher.cpp:9-11 | the generation is the number of accepted updates, held at 2^32 - 1 |
| `Limits.GenerationsCollideIff` | src/publisher.cpp:9-11 | two updates share a generation iff the earlier was already at the limit |
| `Limits.BurstCarriesIff` | src/publisher.cpp:112-116 | a due poll sends a type iff it encodes and fewer types than the capacity come before it |
| `Limits.UpdateLostIff` | src/publisher.cpp:107-122 | an update is cleared unsent iff a burst is due and it does not encode or earlier types fill the output |
| `Limits.UpdateLostExample` | src/publisher.cpp:112-116 | one such loss: position and attitude pending, room for one |
| `Convergence.CachedIsAssigned` | src/proxy.cpp:52-80 | over every run with loss, duplication and reordering, a stream cached at generation g holds the value assigned to g |
| `Convergence.SnapshotVerdict` | src/proxy.cpp:60-70 | a current snapshot is stored, or the cache already holds that very generation |
| `Convergence.SnapshotConverges` | src/publisher.cpp:80-99 | in every state satisfying the run invariant, a current snapshot makes the cache equal the publisher's value |
| `Convergence.RunConverges` | src/publisher.cpp:53-122 | after every run, ingesting the current snapshot makes the cache equal the publisher's value |
| `Readings.RunConvergesToLast` | src/publisher.cpp:30-122 | after every run, taking in the current snapshot makes the cache decode to the last reading the publisher was given |
| `Lines.JudgeTakes` | src/proxy.cpp:60-70 | the proxy refuses, ignores or stores a published message exactly as a ledger of one generation per stream does |
| `Lines.RunReckons` | src/proxy.cpp:60-70 | over every run on a loss-free in-order link, with any other traffic at the proxy, the messages refused are exactly those the ledger refuses |
| `Chains.PollParts` | src/publisher.cpp:107-122 | what a poll of any capacity sends of each type, in order, and which flags it leaves set |
| `Chains.RefusedExactly` | src/publisher.cpp:53-122 | over every such run the deltas refused are exactly those whose stream went out before, but not as the type's last message, taken, one accepted update ago |
| `Chains.AsksInStep` | src/proxy.cpp:66 | while the type's last message was taken: refused iff the stream went out before and it strays or two or more updates were accepted since |
| `Pacing.PacedNeverRefused` | src/publisher.cpp:53-122 | no delta is refused in a run with one stream per type, at most one accepted update per type between polls, and polls with room for three |
| `Pacing.NoGapNoRequest` | src/proxy.cpp:66 | while nothing of the publisher's is refused, no pending request names one of its streams |
| `Pacing.PacedNeverAsks` | src/publisher.cpp:53-122 | in such a paced run no resync of the publisher's streams is ever requested |
| `LineExamples.TwoUpdatesAsk` | src/publisher.cpp:55-58 | two updates of a type between polls make a loss-free link ask for resync, because the delta's base was never sent |
| `LineExamples.TwoUpdatesExample` | src/proxy.cpp:66 | one such run: three attitudes of one vehicle |
| `LineExamples.ReturnAsks` | src/publisher.cpp:55-58 | leaving a stream for another of its type and coming back makes a loss-free link ask for resync |
| `LineExamples.ReturnExample` | src/proxy.cpp:66 | one such run, written out |
| `Boundaries.FrozenForever` | src/proxy.cpp:66-69 | a stream cached at generation 2^32 - 1 never changes again |
| `Boundaries.LimitConvergesIff` | src/proxy.cpp:66-69 | at that limit anything ingested makes the cache equal the publisher iff it already did |
| `Boundaries.BeyondTheLimit` | src/publisher.cpp:9-11 | one changed value past the limit and no run of the proxy ever makes the cache hold it |
| `Boundaries.OtherSourceBreaks` | src/proxy.cpp:60-70 | one run in which a second source makes the cache hold what the publisher never assigned |
| `Replay.ReplayWindow.Accepts` | src/record.cpp:69-74 | accepts exactly the numbers that are fresh with respect to the set of committed ones |
| `Replay.ReplayWindow.TryCommit` | src/record.cpp:76-89 | succeeds iff fresh; then the committed set grows by exactly that number and the bitmap still agrees with it |
| `Replay.ReplayWindow.Reset` | src/record.cpp:91-93 | forgets every committed number |
| `Replay.CommitAgrees` | src/record.cpp:76-89 | committing keeps bit d set iff high water - d was committed |
| `Replay.BitmapRefinesSet` | src/record.cpp:69-93 | after any commits, accepted iff never committed and, if anything was committed, less than 64 behind the highest |
| `Headers.HeaderRoundTrip` | src/record.cpp:29-57 | the decoder accepts exactly the encodings that carry their own check value |
| `Headers.BurstRejected` | src/record.cpp:45-57 | an accepted header altered within 16 consecutive bits of its first 36 bytes is accepted iff unaltered |
| `Headers.AdjacentBytesAreABurst` | src/record.cpp:45-57 | changes confined to two adjacent bytes are such an alteration |
| `Crypto.OpenAfterSeal` | src/crypto.cpp:110-164 | the length-checked wrappers keep open-after-seal |
| `Crypto.NonceInjective` | src/crypto.cpp:76-81 | within one session and epoch, equal nonces mean equal sequence numbers |
| `Crypto.DerivedKeysCross` | src/crypto.cpp:83-108 | derived key sets share session and epoch, swap identifiers and cross send and receive keys |
| `KeyUse.LabelsSpell` | src/crypto.cpp:93-94 | the labels are the letters NM-TX and NM-RX padded with zeros |
| `KeyUse.InputsDiffer` | src/crypto.cpp:93-102 | the two directions are derived from different inputs, for every session and pair of ids |
| `KeyUse.DerivedKeysValid` | src/crypto.cpp:83-108 | if the pseudo-random function separates its inputs, derived keys are valid at both ends |
| `KeyUse.SpellingSeparates` | src/crypto.cpp:33-53 | such a function exists |
| `KeyUse.SealsExactly` | src/record.cpp:97-131 | exactly which headers and payloads are sealed, in numbers, and how long the record is |
| `KeyUse.SomethingIsSendable` | src/record.cpp:107-111 | for any key set there is a header to seal under |
| `KeyUse.PlainAeadSealsAll` | src/crypto.cpp:110-136 | a cipher that seals everything exists |
| `KeyUse.SealErrors` | src/record.cpp:104-127 | the first test that fails names the error |
| `KeyUse.OpenedMeans` | src/record.cpp:133-163 | what every opened record is: from the peer, of this session and epoch, known type, live, uncommitted, as long as it says |
| `KeyUse.OpenLengths` | src/record.cpp:140-141 | records shorter than 56 or longer than 824 bytes, and only those, are invalid lengths |
| `KeyUse.UnusableKeysRefused` | src/record.cpp:59-65 | which key sets seal nothing, open nothing and are never switched to |
| `KeyUse.RekeyStartsOver` | src/record.cpp:171-178 | after both ends rekey to crossed keys of a later epoch every fitting record is conveyed again, low sequence numbers included |
| `KeyUse.RekeyRefused` | src/record.cpp:173-176 | keys of other ends, another session or no later epoch are not switched to |
| `RecordSessions.DecodeHeaderFrom` | src/record.cpp:45-57 | reading fields and recomputing the check value decides exactly what the header codec accepts |
| `RecordSessions.Session.SealInto` | src/record.cpp:97-131 | writes exactly the specified record and advances the high-water mark, or reports the specified error with session state unchanged |
| `RecordSessions.Session.OpenUncommitted` | src/record.cpp:133-163 | result and error exactly as specified, with the bitmap deciding freshness |
| `RecordSessions.Session.Commit` | src/record.cpp:165-169 | commits iff fresh; new state as specified |
| `RecordSessions.Session.RekeyTo` | src/record.cpp:171-178 | takes valid keys of a later epoch of the same session and resets window and mark, else changes nothing |
| `RecordSessions.Session.Receive` | src/transport.cpp:85-89 | open then commit: what is returned was never committed before and is committed now |
| `Endpoints.SealOpenRoundTrip` | src/record.cpp:97-163 | for crossed keys, a sealed record opens to the same payload and header, unless past its deadline or refused by the window |
| `AtMostOnce.DeliveredAtMostOnce` | src/record.cpp:69-178 | over every run with an unforgeable cipher, each delivered record is one the peer sealed, unaltered, and no (epoch, sequence) is delivered twice |
| `AtMostOnce.RecordWasSealed` | src/record.cpp:155-161 | if the cipher opens only what came out of it, a record that opens is byte for byte one that was sealed, under this key |
| `AtMostOnce.HonestDelivery` | src/transport.cpp:85-89 | seal, then deliver, is a run the network model allows, and it delivers |
| `AtMostOnce.NoncesFresh` | src/record.cpp:107-130 | over every run, no (epoch, sequence) is sealed twice and nonces within an epoch are pairwise distinct |
| `Handshakes.TranscriptInjective` | src/session.cpp:24-29 | equal transcripts mean equal hello and equal accept up to the authenticator |
| `Handshakes.FinishInjective` | src/session.cpp:98 | equal finish inputs mean equal identifiers, session and epoch |
| `HandshakeSessions.EncodeHelloInto` | src/session.cpp:43-46 | buffer and return value exactly as specified, check field left zero |
| `HandshakeSessions.EncodeAcceptInto` | src/session.cpp:53-56 | buffer holds exactly the framed message, or zeros on refusal |
| `HandshakeSessions.EncodeFinishInto` | src/session.cpp:63-66 | buffer holds exactly the framed message, or zeros on refusal |
| `HandshakeSessions.MakeTranscript` | src/session.cpp:24-29 | fills the 52-byte transcript |
| `HandshakeSessions.InitiatorSession.Begin` | src/session.cpp:75-78 | new state, hello and error as specified |
| `HandshakeSessions.InitiatorSession.ReceiveAccept` | src/session.cpp:80-87 | new state, finish and error as specified, partial updates on failure included |
| `HandshakeSessions.ResponderSession.ReceiveHello` | src/session.cpp:91-94 | new state, accept and error as specified, partial updates on failure included |
| `HandshakeSessions.ResponderSession.ReceiveFinish` | src/session.cpp:96-99 | new state and error as specified |
| `HandshakeCodecs.HelloRejectedIff` | src/session.cpp:43-51 | the decoder refuses the encoder's bytes iff their check value is nonzero, which is also when the encoder reports success |
| `HandshakeCodecs.SomeHelloEncodes` | src/session.cpp:43-46 | of two hellos with capabilities 0 and 1 at least one is reported as encoded, so that refusals exist |
| `HandshakeCodecs.AcceptRoundTrip` | src/session.cpp:53-61 | bytes are the encoding of v iff they decode to v and the padding is zero |
| `HandshakeCodecs.FinishRoundTrip` | src/session.cpp:63-71 | bytes are the encoding of v iff they decode to v and the padding is zero |
| `Agreement.HandshakeAgreement` | src/session.cpp:75-99 | over every run without forged tags: responder established implies initiator established, and that implies identical hello and accept, same session, crossed keys |
| `Agreement.HonestRunCompletes` | src/session.cpp:75-99 | undisturbed, the handshake completes iff ids and nonces are usable and the nonces differ |
| `Agreement.HonestRunIsAllowed` | src/session.cpp:75-99 | the undisturbed run is one the network model allows and it establishes both ends |
| `Agreement.EqualNoncesNeverSettle` | src/session.cpp:91-94 | equal client and server nonces never make the responder settle |
| `Agreement.StartOutcomes` | src/session.cpp:75-78 | when a start is refused, with which error, and what hello it makes otherwise |
| `Agreement.AcceptRefused` | src/session.cpp:80-82 | an accept out of turn or for another exchange changes nothing |
| `Agreement.HelloRefused` | src/session.cpp:91-92 | a repeated, misaddressed or nonceless hello changes nothing |
| `Agreement.FinishRefused` | src/session.cpp:96-97 | a finish out of turn or for another exchange changes nothing |
| `Agreement.OfferedSession` | src/session.cpp:93 | the session offered is the exclusive or of the nonces, in epoch 1 |
| `KeyUse.EstablishedConveys` | src/session.cpp:75-99 | after every handshake run without forged tags, with a separating function and a cipher that seals, every fitting record is sealed and opened, both ways |
| `KeyUse.HonestChannelConveys` | src/session.cpp:75-99 | an undisturbed handshake ends with such a pair |
| `SecureChannel.EstablishedChannel` | src/session.cpp:75-99 | after every handshake run without forged tags, over every run of records and rekeys in either direction: everything delivered was sealed and is delivered once, crossed ends carry the next record, and with working primitives every fitting record is sealed and opened |

## Left out

- UDP sockets, `select` and timeouts: I/O. Only the order open-then-commit of the receive path is kept.
- The MAVLink 2 adapter and the applications: wrappers over a library that is not part of this model, and command lines.
- The cipher, authentication and pseudo-random function internals: parameters of the model.
- Key wiping, null-pointer arguments and bytes of fixed payload arrays beyond the stated length: no counterpart in values.
- Heartbeat codec and the classification tables of `src/wire.cpp`: plain definitions, used but with nothing of their own to prove.
- IEEE arithmetic: arguments are bit patterns and only finiteness is tested.
- A bound on the proxy cache: the code has none.
- Typed decoders of `src/messages.cpp` and `src/session.cpp` other than the record header's: functions over the layout decoder; the read loops are proved once, in `Readers`.
- The publisher's three copies of change detection, update and build: written once over the kind of reading; the class keeps one field per kind and polls them in the source's order.
- The proxy's link session: reduced to its local and peer identifiers, the only fields the proxy reads.
- The per-link queue inside the proxy: held as a queue value in the link's record, as the source's map holds it by value; the in-place queue is `QosQueue.BoundedQosQueue`.
- The shift amounts `8 * i` and the mask `1 << d`: written out case by case or as repeated doubling.
- Counters of the queue and the proxy: unbounded, so their wrap-around is not modelled.
- `finish_message` of a failed `InitiatorSession::accept` and output buffers of failed seals: the source leaves partial contents there, the model says nothing of them.
- AtMostOnce.DeliveredAtMostOnce: assumes of the cipher that what opens under a key, nonce and associated data came out of a call with them, and delivery as open then commit with no rekey between, because `commit_replay` itself does not look at the epoch.
- Agreement.HandshakeAgreement: assumes that a tag which verifies is on something one of the two parties authenticated under this key.
- Convergence.RunConverges: assumes fewer than 2^32 updates per type and no other source for the stream; both limits are needed (`Boundaries.BeyondTheLimit`, `Boundaries.OtherSourceBreaks`).
- ProxyCache.SubscribeSucceedsIff: speaks of caches whose matching entries are latest-wins; with entries of another quality of service the outcome depends on the order in which the cache is walked (`ProxyRuns.OrderMatters`), so no condition on queue and cache alone decides it.
- ProxyViews.NeverBackwards: assumes that the stream's messages are all latest-wins, because a message of another quality of service overtakes a queued latest-wins one (`ProxyViews.OtherQualityOvertakes`).
- Chains.RefusedExactly: assumes fewer than 2^32 updates per type; `Lines.RunReckons` holds without that bound.
- Cadence.BurstsOnTime: assumes a clock that does not go back and stays a period short of 2^64, where the source's sums would wrap or saturate.
