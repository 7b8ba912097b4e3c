# NVLink Fabric in Dafny

A model of the NVLink Fabric registry and route governance, with proofs of what it promises. Devices and
links are registered under generations; a route decision may be used only while the evidence behind it is
current. The project follows five connected parts of the program:

- **Registry** (`Sorting`, `Registry`, `RegistryRuns`, `RegistryTheorems`, `RestoreTheorems`, `RegistryEffects`): the mutations as
  methods of a class, each proved equal to a function on states, and invariants, fencing and provenance over whole runs
  of them.
- **Routes** (`Paths`, `Quality`, `Ranking`, `Routing`, `RouteSelection`, `RouteSafety`,
  `RouteTightening`, `RouteMeaning`, `RouteCompleteness`, `RouteExamples`): the backtracking search over a shared stack, the fold over
  a path's links, the staged filter, the weighted score with its seven-level tie-break, the decision, and the check
  that keeps it executable; concrete registries show where general claims fail.
- **Coordinator** (`Coordinator`, `CoordinatorTheorems`): connection handlers as interleaved atomic steps over
  the boot table, the live count and the registry.
- **Durable state** (`Bytes`, `Checksum`, `Division`, `Serialization`, `Deserialization`, `DurableTheorems`,
  `Misload`, `Layout`, `Recovery`): the binary codec, its checksum, and recovery from end to end.
- **Wire** (`Protocol`, `Stream`): the framed protocol and the reader over an arbitrarily chunked byte stream.

Code that changes state is modelled as classes and methods with loops, each proved against a function; the
theorems are about those functions. `Types` holds the records; enumerations carry a last constructor for byte
values outside the named ones, since a value read from the wire need not be one of them.

## Assumptions

- `Timestamp(r.u64(), r.u8() != 0u)` (src/core/serialization.cpp:196, src/core/serialization.cpp:255) is taken to
  evaluate its arguments left to right, which C++ leaves open.
- Floating point is modelled by reals; bandwidths and latencies are at least 0. Not-a-number, infinity and rounding
  are outside the model.
- Generations, ids and counters are natural numbers; the durable codec alone bounds them by their field widths.
- The path id is a hash of the endpoints and link ids of which nothing is assumed: it may collide, so theorems
  identify candidates by position or by their links.
- Fresh ids, route generations and clock readings are inputs.

## Where the code differs from its description

The model follows the code. Each point is a lemma, or a clause of one.

- A depth bound of 0 still admits paths of one link (`Paths.EnumerationIsComplete`). The candidate cap can hide the only
  usable path (`RouteExamples.CapHidesSupportedPath`).
- NVLink segments are counted twice (`Quality.NvlinkSegmentsDoubled`).
- An incompatible link counts as healthy unless supported links are required (`Quality.IncompatibleIsHealthy`,
  `Quality.PassableOutcome`); contention and degradation hide an unknown link.
- A supported candidate does not suffice for a route: if the one that ranks first has links without a capability, the
  answer is insufficient evidence, even when another candidate would be allowed (`RouteCompleteness.DefaultDecisionIff`,
  `RouteExamples.UnbackedWinnerBlocksRoute`).
- The default policy never answers that revalidation is required: links awaiting it end as policy-rejected
  (`RouteSelection.SupportedPolicyNeverAsksRevalidation`; `RouteSelection.RevalidationAnswerIff` says when any policy
  does).
- `require_current_topology` changes no decision (`RouteSelection.CurrentTopologyUnread`).
- README.md:130-132 of the repository says a decision is not executable after a topology change until explicitly
  revalidated; revalidation never makes one executable again (`RouteSafety.RevalidationNeverGrants`).
- Sending a stored link again is usually refused, because the comparison includes the generation the registry stamped
  on it, and the limits are checked first (`RegistryTheorems.LinkResendAccepted`); devices are idempotent
  (`RegistryTheorems.DeviceResendAccepted`) until a mark rewrites them (`RegistryTheorems.ResendAfterMark`).
- Removal forgets record generations (`RegistryTheorems.RemovalAdmitsStaleReplay`,
  `RegistryTheorems.LinkRemovalAdmitsStaleReplay`), and so does restore (`RestoreTheorems.RestoreForgetsGenerations`),
  which does not check the parallel-link bound either (`RestoreTheorems.RestoreIgnoresParallelBound`,
  `RestoreTheorems.RestoreWithinBoundIff`).
- README.md:137 says stale boot identities are rejected; that holds at HELLO only
  (`CoordinatorTheorems.ServingPublishesUnderOwnBoot`, `CoordinatorTheorems.OldBootStillPublishes`).
- README.md:137-139 says the evidence of a dead worker is marked; the mark takes the evidence of all workers, and a live
  one that sends its link again under the same generation is refused (`CoordinatorTheorems.MarkSilencesEveryWorker`).
- The loader compares counts with the default limits (src/core/serialization.cpp:257, src/core/serialization.cpp:267),
  not with those of the registry, which may have saved more (`Recovery.SavedStateLoadsIff`,
  `Recovery.LargeRegistryUnloadable`).
- The durable writer takes strings that its reader refuses, beyond 4096 bytes (`DurableTheorems.SavedLoadsOrFails`,
  `Recovery.SavedStateLoadsOrFails`), and beyond 65535 bytes it writes a wrapped length, so that the file may load as
  something else (`Misload.SilentMisload`).

## Model

| member | source | states |
|---|---|---|
| Bytes.ByteBuffer.PutNum | src/core/serialization.cpp:19-22 | appending k bytes, low byte first, appends the little-endian form of the value reduced to k bytes |
| Bytes.ByteReader.Num | src/core/serialization.cpp:38-62 | reading moves past the field, or sets the bad flag and stays when it does not fit in what is left |
| Bytes.ValueOfLittleEndian | src/core/serialization.cpp:21-22 | what the byte loop writes reads back as the value modulo 256^k |
| Bytes.LittleEndianValueOf | src/core/serialization.cpp:49-62 | k bytes have one value and only that value is written as them |
| Bytes.DigitOfLittleEndian | src/core/serialization.cpp:19-22 | byte i of what is written is digit i of the value to the base 256 |
| Checksum.ComputeCrc32 | src/core/protocol.cpp:9-19 | the two nested loops over a running word compute Crc32, defined by absorbing one byte after another; Division.ChecksumIsRemainder says what number that is |
| Division.ChecksumIsRemainder | src/core/protocol.cpp:9-19 | of all 32-bit numbers the checksum is exactly the one that, complemented and bit-reflected, is the remainder of the message with its first 32 bits complemented, modulo the generator with exponents 32, 26, 23, 22, 16, 12, 11, 10, 8, 7, 5, 4, 2, 1, 0 over the two-element field |
| Division.RemainderIsUnique | src/core/protocol.cpp:9-19 | a polynomial has at most one remainder modulo that generator |
| Division.CheckValue | src/core/protocol.cpp:9-19 | the checksum of the nine ASCII digits 1 to 9 is 0xCBF43926 |
| Checksum.TableForm | src/core/protocol.cpp:13-16 | eight conditional shifts equal one lookup by the low byte, the form of the sample code in section 8 of RFC 1952 |
| Checksum.StepsInjective | src/core/protocol.cpp:13-16 | each bit step, and any number of them, is one-to-one on 32-bit words |
| Checksum.Crc32SeparatesBurst | src/core/protocol.cpp:9-19 | two equally long messages that differ only within four consecutive bytes have different checksums |
| Checksum.TrailerMatchesResidue | src/core/protocol.cpp:117-122 | four bytes after a message are its checksum exactly when the register over both ends in a constant |
| Checksum.SealDetectsBurst | src/core/protocol.cpp:117-122 | of two equally long byte strings that both end in their checksum and differ only within four consecutive bytes, neither differs: damage in the trailer counts as well |
| Protocol.EncodeFrame | src/core/protocol.cpp:79-92 | the put_* sequence yields the encoding, or a resource-limit error when it would exceed the bound |
| Protocol.DecodeFrame | src/core/protocol.cpp:94-129 | the checks in the code's order give the frame or the first error |
| Protocol.DecodeEncode | src/core/protocol.cpp:79-129 | decoding an encoded frame returns it exactly when its type is valid and its length fits the 32-bit field |
| Protocol.EncodeDecode | src/core/protocol.cpp:79-129 | accepted bytes are the encoding of the frame they decode to |
| Protocol.FramesSelfDelimit | src/core/protocol.cpp:109-115 | no accepted frame is a proper prefix or extension of another |
| Protocol.DamagedFrameRejected | src/core/protocol.cpp:94-129 | changing an accepted frame within any four consecutive bytes, in any field, makes decoding fail |
| Layout.FrameLayout | src/core/protocol.cpp:79-92 | a frame is the bytes of NNVF, 1, its type, its length in four bytes, the payload and the checksum of all of that |
| Layout.AcceptedFrames | src/core/protocol.cpp:94-129 | the accepted byte strings are exactly the encodings of frames of types 1 to 11 whose length fits 32 bits |
| Layout.RefusedFrames | src/core/protocol.cpp:94-125 | every other byte string is a protocol error, except that a well-formed header whose frame would be too large is a resource-limit error, whatever follows it |
| Protocol.PutText | src/core/protocol.cpp:39-44 | text is cut at 65535 bytes and written behind its 16-bit length |
| Protocol.GetText | src/core/protocol.cpp:70-77 | text is read behind its length, or the bad flag is set |
| Protocol.TextRoundTrip | src/core/protocol.cpp:39-77 | text returns as a prefix of what was put, and whole exactly when it has at most 65535 bytes |
| Stream.Socket.Receive | src/core/runtime.cpp:81-84 | one recv call yields some non-empty prefix of what is left, of at most the size asked for, or nothing at the end |
| Stream.ReceiveExact | src/core/runtime.cpp:75-87 | fills the buffer with exactly the next n bytes, whatever the chunks, or fails when fewer are left |
| Stream.ReceiveFrame | src/core/runtime.cpp:90-106 | over any chunking one call reads what ReadFrame reads from the byte stream, including the unsigned wrap of the length bound |
| Stream.ServeFrames | src/core/runtime.cpp:385-388 | the handler's read loop sees exactly the frames ReadFrames finds before the first failure |
| Stream.FramesArriveAsSent | src/core/runtime.cpp:90-106 | reading any concatenation of sendable frames yields those frames and then whatever follows, for every size bound of 64 bits |
| Stream.FramesReadWereSent | src/core/runtime.cpp:90-106 | the frames read, encoded again, are a prefix of the bytes that arrived: none is invented |
| Stream.BoundRefuses | src/core/runtime.cpp:99-100 | a declared length is too large exactly when the whole frame would exceed the bound; under a bound below 14 the subtraction wraps and none is |
| Serialization.PutDevice | src/core/serialization.cpp:85-115 | the writer appends the device's byte form, optional fields behind a flag |
| Serialization.PutLink | src/core/serialization.cpp:146-173 | the writer appends the link's byte form |
| Serialization.SerializeDurableState | src/core/serialization.cpp:217-232 | header with patched length, payload and trailing checksum are the durable form; text longer than its 16-bit length is written whole behind the truncated length |
| Serialization.PatchLength | src/core/serialization.cpp:226-228 | four bytes at the placeholder become the payload length and nothing else changes |
| Deserialization.GetDevice | src/core/serialization.cpp:117-144 | reads what DeviceAt reads and leaves the cursor there, bad flag included |
| Deserialization.GetLink | src/core/serialization.cpp:175-201 | reads what LinkAt reads, its timestamp left to right |
| Deserialization.DeserializeDurableState | src/core/serialization.cpp:234-293 | the checks in the code's order give the state or an integrity failure |
| DurableTheorems.DeviceBack | src/core/serialization.cpp:85-144 | a written device within its field widths reads back equal with the cursor behind it, for every combination of optional fields, or the reader fails; it does not fail when every string has at most 4096 bytes |
| DurableTheorems.LinkBack | src/core/serialization.cpp:146-201 | a written link within its field widths reads back equal or the reader fails, and does not fail when every string has at most 4096 bytes |
| DurableTheorems.FrameSize | src/core/serialization.cpp:203-232 | the durable form of a representable state stays under 64 MiB |
| DurableTheorems.RoundTrip | src/core/serialization.cpp:217-293 | deserialize(serialize(s)) = s for strings of at most 4096 bytes, at most 256 devices and 1024 links, nameable enumerations and the default format version |
| DurableTheorems.RoundTripExactly | src/core/serialization.cpp:23-71 | and for no other state: one longer string, a 257th device or an out-of-range field breaks the round trip |
| DurableTheorems.SavedLoadsOrFails | src/core/serialization.cpp:217-293 | for strings of at most 65535 bytes, the most the 16-bit length can hold, and other fields within their widths, what is saved loads as itself or, if a string or count is beyond the reader's bounds, gives an integrity failure |
| Misload.SilentMisload | src/core/serialization.cpp:23-27 | with a string of 65536 bytes, whose written length wraps to 0, a saved state loads without error as a different one: the device loses its name and four links appear |
| DurableTheorems.AcceptedStatesAreStable | src/core/serialization.cpp:217-293 | a state read from any accepted bytes survives a further round trip |
| DurableTheorems.DamagedStateRejected | src/core/serialization.cpp:277-289 | changing an accepted file within any four consecutive bytes, in any field, gives an integrity failure |
| DurableTheorems.StatesSelfDelimit | src/core/serialization.cpp:277-291 | a truncated or extended copy of an accepted file is not accepted |
| Layout.DurableLayout | src/core/serialization.cpp:203-232 | a file is the bytes of NVFD, version, payload length, topology generation, time of saving, device count, devices, link count, links and checksum, each at its offset |
| Layout.DeviceLayout | src/core/serialization.cpp:85-91 | the offsets of a device's id, name, kind, backend, instance and PCI identity |
| Layout.DeviceModelLayout | src/core/serialization.cpp:92-96 | then of its ordinal, vendor, architecture and generation name |
| Layout.DeviceStatusLayout | src/core/serialization.cpp:97-115 | then of its capability, health, evidence, generation and owners |
| Layout.OptionLayout | src/core/serialization.cpp:92-93 | an optional field is a byte 1 and the value, or a byte 0 |
| Layout.LinkLayout | src/core/serialization.cpp:146-162 | the offsets of a link's id, ends, direction, identifier, state, technology, capability and generation |
| Layout.LinkTailLayout | src/core/serialization.cpp:163-173 | then of its evidence, time, measurement support, degradation, note and stamp |
| Layout.EvidenceLayout | src/core/serialization.cpp:163-166 | the offsets of the fields of a piece of evidence |
| Layout.CapabilityLayout | src/core/serialization.cpp:97-103 | the offsets of the fields of a capability |
| Layout.AcceptedHeader | src/core/serialization.cpp:234-291 | whatever bytes are accepted begin with NVFD, version 1 and their own payload length, and end in their checksum |
| Layout.FlagByte | src/core/serialization.cpp:117-144 | any byte but 0 reads as true |
| Layout.DeclaredCodes | include/nvlinkfabric/enums.hpp:72-136 | enumeration values are written as their positions in the declarations |
| Sorting.SortSorts | src/core/path.cpp:418-433 | a stable sort by a strict weak order leaves no later element before an earlier one |
| Sorting.FrontOfSort | src/core/path.cpp:418-435 | the front of a stable sort is an element that nothing precedes and that stood before all its equals |
| Sorting.SortingForgetsOrder | src/core/registry.cpp:16-21 | sorting by id maps every listing of the same map to the same sequence |
| Registry.TopologyRegistry.constructor | src/core/registry.cpp:61-65 | an empty registry at topology generation 1 |
| Registry.TopologyRegistry.UpsertDevice | src/core/registry.cpp:132-167 | new state and status are those of AfterUpsertDevice, in every error case too |
| Registry.TopologyRegistry.RemoveDevice | src/core/registry.cpp:169-192 | drops the device and every link touching it |
| Registry.TopologyRegistry.UpsertLink | src/core/registry.cpp:194-248 | new state and status are those of AfterUpsertLink: limits are checked before the stored link is looked up |
| Registry.TopologyRegistry.RemoveLink | src/core/registry.cpp:250-268 | drops the link and advances the topology |
| Registry.TopologyRegistry.UpdateLinkState | src/core/registry.cpp:270-294 | rewrites the dynamic fields of one link under its next generation |
| Registry.TopologyRegistry.UpdateDeviceHealth | src/core/registry.cpp:296-316 | rewrites the health of one device under its next generation |
| Registry.TopologyRegistry.AdvanceTopology | src/core/registry.cpp:318-328 | only the topology generation and the links' stamps move |
| Registry.TopologyRegistry.PublishMeasurement | src/core/registry.cpp:341-352 | appends the measurement as fresh and drops the oldest beyond the bound |
| Registry.TopologyRegistry.MarkDynamicEvidenceRevalidationRequired | src/core/registry.cpp:354-379 | all measurements become stale, all links and all worker-owned devices await revalidation |
| Registry.TopologyRegistry.CaptureDurableState | src/core/registry.cpp:381-395 | devices and links in increasing order of id, whatever order the hash tables yield |
| Registry.TopologyRegistry.ConsistentView | src/core/registry.cpp:99-105 | one sorted snapshot and the measurement history of the same state |
| Registry.TopologyRegistry.RestoreDurableState | src/core/registry.cpp:397-440 | replaces the state under a generation above both, or fails and changes nothing |
| RegistryEffects.DeviceUpsert | src/core/registry.cpp:132-167 | which error occurs when; on success the record is stored as sent, every other record stays, links are restamped under the next generation, and a repeated record changes nothing |
| RegistryEffects.LinkUpsert | src/core/registry.cpp:194-248 | the same of a link, with the order of the checks |
| RegistryEffects.LinkStateUpdate | src/core/registry.cpp:270-294 | the new record of the link field by field: state, evidence, degradation, note, time and next generation are replaced, all else stays |
| RegistryEffects.DeviceHealthUpdate | src/core/registry.cpp:296-316 | the new record of the device field by field: health, evidence and next generation |
| RegistryEffects.DeviceRemoval | src/core/registry.cpp:169-192 | the device and the links at it are gone, every other record stays |
| RegistryEffects.LinkRemoval | src/core/registry.cpp:250-268 | the link is gone, every other record stays |
| RegistryEffects.TopologyAdvance | src/core/registry.cpp:318-328 | only the generation and the stamps move |
| RegistryEffects.MeasurementPublication | src/core/registry.cpp:341-352 | the last entry of the history is the measurement with all its fields, fresh, under the given id if it had none; the first is dropped when the history was full; nothing else changes |
| RegistryEffects.Mark | src/core/registry.cpp:354-379 | the records after a mark, field by field: which devices, links and measurements change, and in what |
| RegistryEffects.RestoredRecords | src/core/registry.cpp:404-438 | after a restore each record is the first of its id in the durable state, a device with health replaced exactly when it has an owner worker or boot, a link with state, degradation, note and stamp replaced |
| RegistryEffects.RestoreVerdict | src/core/registry.cpp:397-426 | a restore succeeds exactly when the format is current and every device record, then every link record, is valid where it stands and finds room beside the distinct ids before it; the first that is not decides the error and nothing changes |
| Registry.CountParallel | src/core/registry.cpp:209-215 | the loop counts the links joining the pair in either direction |
| RegistryRuns.MutationKeepsGood | src/core/registry.cpp:132-440 | every mutation, failed or not, keeps keys equal to ids, valid ids and generations, no dangling or self links, all counts within limits, and every link stamped with the current generation |
| RegistryRuns.ReachableIsGood | src/core/registry.cpp:61-440 | so does every run from the initial registry |
| RegistryRuns.ReachableWithinParallelBound | src/core/registry.cpp:208-217 | along runs without restore no unordered pair has more links than the bound |
| RegistryRuns.MutationFenced | src/core/registry.cpp:132-440 | a mutation leaves generation, devices and links all as they were, or strictly raises the generation |
| RegistryRuns.RunFenced | src/core/registry.cpp:132-440 | over any run an unchanged topology generation means unchanged devices and links |
| RegistryTheorems.PublishLogHolds | src/core/registry.cpp:341-352 | the publish log lists, oldest first and each once, the publishes that no successful restore followed |
| RegistryTheorems.HistoryIsRecentLog | src/core/registry.cpp:341-360 | the history is exactly the last entries of that log, each stale exactly when a mark came after it |
| RegistryTheorems.LastLinkWrite | src/core/registry.cpp:194-440 | the state of a present link is due to one mutation, after which the link stayed and was not written |
| RegistryTheorems.FreshLinkProvenance | src/core/registry.cpp:354-426 | a link not awaiting revalidation was upserted or state-updated successfully, with that state, since the last mark and the last restore |
| RegistryTheorems.DeviceGenerationsMonotone | src/core/registry.cpp:145-156 | until removal or a successful restore a device's generation never falls, and while it stands still only the health field can change |
| RegistryTheorems.RemovalAdmitsStaleReplay | src/core/registry.cpp:169-192 | removal forgets the generation: any older record is accepted afterwards, though refused before |
| RegistryTheorems.LinkGenerationsMonotone | src/core/registry.cpp:226-234 | while a link stays and no restore succeeds its generation never falls, and while it stands still only state, degradation and stamp can change |
| RegistryTheorems.LinkRemovalAdmitsStaleReplay | src/core/registry.cpp:250-268 | removing a link forgets its generation as well |
| RegistryTheorems.DeviceResendAccepted | src/core/registry.cpp:145-153 | sending an accepted device again changes nothing and succeeds |
| RegistryTheorems.LinkResendAccepted | src/core/registry.cpp:205-233 | sending any stored link again, equal up to the stamped topology generation, changes nothing, and succeeds exactly when it carries that stamp and both limits leave room |
| RegistryTheorems.ResendAfterMark | src/core/registry.cpp:362-370 | after a mark, re-sending a stored device is refused exactly when the mark changed it, since no generation moved |
| RegistryTheorems.RestoreOfCapture | src/core/registry.cpp:381-440 | restoring the capture of any well-formed registry succeeds, keeps all records up to the revalidation fields and sets the generation to max(saved, current) + 1 |
| RestoreTheorems.RestoreTakesFirsts | src/core/registry.cpp:397-440 | a successful restore holds exactly the first record of each id in the durable state, up to the revalidation fields, and an empty history |
| RestoreTheorems.RestoreWithinBoundIff | src/core/registry.cpp:412-426 | it respects the parallel-link bound exactly when those first link records do, whatever the registry held before |
| RestoreTheorems.RestoreOfCaptureWithinBound | src/core/registry.cpp:381-440 | for a capture: exactly when the captured registry did |
| RestoreTheorems.BoundThroughoutIff | src/core/registry.cpp:132-440 | a run respects the bound in every state it passes through exactly when every durable state it restores does |
| RestoreTheorems.RestoreForgetsGenerations | src/core/registry.cpp:402-426 | after a restore the record generations are those of the durable state; a device record refused as stale before is accepted if newer than the restored one |
| RestoreTheorems.RestoreIgnoresParallelBound | src/core/registry.cpp:412-426 | a concrete durable state with two parallel links restores under a bound of one |
| Paths.BuildAdjacency | src/core/path.cpp:28-42 | each device maps to its outgoing edges, undirected links both ways, sorted by link id and end |
| Paths.PathSearch.Dfs | src/core/path.cpp:62-104 | stack and visited set return unchanged; the output grows by the records of the walks beyond the current stack, in order, up to the cap |
| Paths.EnumeratePaths | src/core/path.cpp:106-128 | returns the enumerated records, with switch traversal found afterwards, and nothing for nil or equal endpoints |
| Paths.WalksAreSimplePaths | src/core/path.cpp:62-104 | the uncapped search finds a walk exactly when it is a simple path to the target that fits, by a definition that does not mention the search |
| Paths.EnumerationIsComplete | src/core/path.cpp:62-128 | candidates are the first max_candidate_paths of all simple paths with at most max(1, max_path_depth) links: depth 0 still admits one link, and below the cap none is missing |
| Paths.WalksInOrder | src/core/path.cpp:34-40 | walks are found in strictly increasing lexicographic order of link ids |
| Paths.EnumerationInOrder | src/core/path.cpp:28-104 | hence each path is found once |
| Paths.NeighboursIncrease | src/core/path.cpp:34-40 | in a registry snapshot the edges of a device have strictly increasing link ids before they are sorted |
| Quality.FindBestMeasurement | src/core/path.cpp:182-188 | the loop keeps what BestMeasurement keeps |
| Quality.BestIsFirstLatest | src/core/path.cpp:182-188 | that is the earliest among the latest valid, non-stale entries for the ordered pair, or none when there is none |
| Quality.NominalIsNarrowest | src/core/path.cpp:169-180 | the nominal bandwidth is carried by some link and is at most every positive one, and 0 only without any |
| Quality.FoldLinks | src/core/path.cpp:154-179 | one pass over the elements gives counters and flags equal to counts and existence over the path's links, missing links included |
| Quality.ComputeQuality | src/core/path.cpp:130-222 | the folded quality equals the one defined by existence, counting and minimum over the links and the best measurement; RouteMeaning.WalkQuality says what its fields mean |
| Quality.PassableOutcome | src/core/path.cpp:206-212 | the outcome is healthy, degraded or contended exactly when no link is missing, down, absent, unreachable, unsupported, stale or awaiting revalidation, and an impairment is known or nothing is unknown and a capability is recorded |
| Quality.IncompatibleIsHealthy | src/core/path.cpp:159-212 | an incompatible link counts as healthy and as not down |
| Quality.NvlinkSegmentsDoubled | src/core/path.cpp:138-158 | for an enumerated path the reported NVLink segments are twice the NVLink links it runs over |
| RouteMeaning.WalkOutcome | src/core/path.cpp:206-212 | each outcome of a path, if and only if, by the states of its links and whether the earliest of the latest valid fresh measurements reports contention |
| RouteMeaning.WalkQuality | src/core/path.cpp:130-222 | every field of a quality: bottleneck, numbers of active and degraded links, staleness, generations, the measurement taken, evidence class and sufficiency |
| RouteMeaning.SwitchTraversal | src/core/path.cpp:118-126 | a path is marked as switched exactly when its source, or a device some edge leads to, is a registered switch |
| RouteMeaning.ElementsAlternate | src/core/path.cpp:62-104 | the elements of a path are its source and then each link and the device it leads to |
| Ranking.ScorePath | src/core/policy.cpp:57-63 | the loop sums weight times factor value over the ranking |
| Ranking.FactorsAreNormalised | src/core/policy.cpp:25-55 | every factor lies between 0 and 1 |
| Ranking.UndegradedScoresHigher | include/nvlinkfabric/policy.hpp:81-89 | with the default weights and shared fresh evidence any undegraded path outscores any degraded one |
| Ranking.DirectScoresHigher | include/nvlinkfabric/policy.hpp:81-89 | and at equal degradation a direct path outscores one of several hops |
| Ranking.ScoreIgnoresContext | src/core/policy.cpp:31-38 | a score changes with the other candidates only through the measured maximum and, if the ranking has such a factor, the nominal maximum |
| Ranking.FactorPrefers | src/core/policy.cpp:25-55 | factor by factor, exactly when its value is greater for one candidate than for another |
| Ranking.FactorScale | src/core/policy.cpp:25-55 | and on which scale |
| Ranking.ScoreLast | src/core/policy.cpp:57-63 | each factor adds its weight times its value to the score of those before it |
| Routing.ContextIsMaximum | src/core/path.cpp:408-416 | the context of the factors holds the largest nominal and measured bandwidths of the eligible candidates, but at least 1 |
| Routing.Judge | src/core/path.cpp:333-385 | the staged filter yields the first violated constraint as reason, and the freshness flag only from the freshness stage |
| Routing.EligibleMeansSatisfies | src/core/path.cpp:342-385 | a candidate passes all stages exactly when it satisfies every enabled constraint, stated over its links and measurement |
| Routing.ReasonIsFirstViolation | src/core/path.cpp:342-385 | the reason of a rejection is that of the first constraint, in the code's order, that the candidate violates |
| Routing.SupportReasonIsFirst | src/core/path.cpp:342-361 | for the first constraint: the first link that is missing or unsupported decides, by its state |
| Routing.FilterPaths | src/core/path.cpp:333-398 | the loop splits the candidates and sets the two flags |
| Routing.BetterIsStrictWeakOrder | src/core/path.cpp:418-433 | the seven-level comparator is a strict weak order over exact reals |
| Routing.RankEvals | src/core/path.cpp:408-433 | context, scores and stable sort give the ranked list; RouteMeaning.SelectedRoute says which candidate comes first |
| Routing.DecideRoute | src/core/path.cpp:302-463 | the decision is a function of the view, limits, policy, endpoints and stamp |
| RouteSelection.FilterPartitions | src/core/path.cpp:333-398 | each candidate position is in exactly one of the two lists, in order; kept means satisfying, dropped carries a reason other than none |
| RouteSelection.SelectionIsBest | src/core/path.cpp:400-436 | a path is selected exactly when one satisfies the constraints; it satisfies them, nothing ranks above it, and it comes first among full ties in search order |
| RouteMeaning.SelectedRoute | src/core/path.cpp:302-449 | for every policy: a path is selected exactly when a considered walk satisfies the constraints; it is the only one that precedes all others, by score, then fewer links, then wider bottleneck, then smaller id, then earlier discovery; and the answer is RouteAllowed, RouteAllowedDegraded, InsufficientEvidence, NoRoute, Unsupported or RevalidationRequired exactly as the states of its links and the contention of the pair say |
| RouteMeaning.UnselectedAnswer | src/core/path.cpp:320-403 | what the answer is when nothing is selected, by the considered walks |
| RouteMeaning.DecisionRecord | src/core/path.cpp:304-331 | the identity, generations and candidates that a decision records, whatever its answer |
| RouteMeaning.RejectionsRecorded | src/core/path.cpp:386-398 | the rejections are those of the considered walks that violate a constraint, in order, each with its reason |
| RouteSelection.FreshCandidatesShareEvidence | src/core/path.cpp:182-196 | all candidates of a call share one measurement, and those that pass a freshness requirement are all fresh |
| RouteSelection.DefaultPreference | src/core/path.cpp:408-436 | under the default ranking a degraded candidate is never selected while an undegraded one is eligible, nor, at equal degradation, a multi-hop one while a direct one is |
| RouteSelection.TighteningShrinks | src/core/path.cpp:342-385 | whatever passes tighter constraints passes the looser ones |
| RouteSelection.TighteningKeepsWinner | src/core/path.cpp:408-433 | a winner that passes tighter constraints still wins whenever the ranking has no nominal-bandwidth factor or the nominal maximum stays |
| RouteTightening.RescaledScore | src/core/policy.cpp:31-38 | a change of the nominal maximum moves a score by the total nominal weight times the bandwidth times the change of the reciprocal |
| RouteTightening.TighteningKeepsWinnerIff | src/core/path.cpp:408-433 | for every ranking: the winner that passes tighter constraints still wins exactly when its margin in the looser decision over each remaining candidate is at least what that candidate gains by the new nominal maximum, ties going by the other levels and search order |
| RouteExamples.NominalTighteningSwapsWinner | src/core/path.cpp:342-433 | with such a factor it can lose: on a registered topology of three parallel links, excluding degraded candidates keeps the winner eligible and makes decide_route select another path |
| RouteSelection.RevalidationAnswerIff | src/core/path.cpp:342-449 | for every policy, the outcome is revalidation-required exactly when both endpoints are known, there are candidates, supported links are not required, and either freshness is required, all are rejected, some candidate has an outdated link and none was rejected while unsupported, or freshness is not required and the winner has an outdated link and nothing worse |
| RouteSelection.SupportedPolicyNeverAsksRevalidation | src/core/path.cpp:342-403 | hence never when supported links are required; with everything rejected the outcome is then unsupported or policy-rejected |
| RouteSelection.CurrentTopologyUnread | src/core/path.cpp:342-385 | no decision changes when the policy's require_current_topology is flipped |
| RouteSafety.ExecutableRoute | src/core/path.cpp:154-212 | an executable decision selects a simple path whose links are all present and usable, and supported if the policy requires it |
| RouteSafety.ExecutableRouteProvenance | src/core/path.cpp:438-449 | over every run and for every policy each of those links was upserted or state-updated since the last mark or restore |
| RouteSafety.RegistryPathsInOrder | src/core/path.cpp:28-104 | for every reachable registry the candidate paths are strictly increasing and distinct |
| RouteSafety.IsRouteExecutable | src/core/path.cpp:465-475 | the check returns whether the decision is executable on the current state |
| RouteSafety.RevalidateRoute | src/core/path.cpp:477-489 | returns the decision itself or a refusal |
| RouteSafety.FenceIsExact | src/core/path.cpp:465-475 | after any run a decision is executable exactly if it was and the topology generation stands still, and then devices and links are those of the decision |
| RouteSafety.NeverExecutableAgain | src/core/path.cpp:465-475 | once not executable, a decision never is again |
| RouteSafety.RestoreFencesDecisions | src/core/registry.cpp:402-438 | after a restore no decision up to max(saved, current) generation is ever executable |
| RouteSafety.RevalidationNeverGrants | src/core/path.cpp:477-489 | revalidation makes nothing executable that was not |
| RouteSafety.DecisionForgetsOrder | src/core/path.cpp:302-449 | any iteration order of the hash tables gives the same decision |
| RouteSafety.RedecisionStable | src/core/path.cpp:302-463 | while the topology generation stands still and the measurement that counts for the pair is the same, deciding again gives the same decision under a new stamp |
| RouteExamples.PublishChangesRedecision | src/core/path.cpp:182-196 | a published contended measurement leaves an earlier decision executable while deciding again under the same policy finds no route |
| RouteSafety.MeasurementProvenance | src/core/path.cpp:182-196 | the measurement used was published, valid, since the last mark and restore, and is the first latest of the retained ones |
| RouteCompleteness.DefaultFilterKeeps | src/core/path.cpp:342-385 | under the default constraints an enumerated path survives exactly when all its links are in a supported state |
| RouteCompleteness.DefaultDecisionIff | src/core/path.cpp:302-449 | the default policy selects the preferred one of the walks over supported links, if there is one, and allows it exactly when the pair is contended or a link of that one is degraded or has a capability; otherwise the outcome is insufficient evidence, whatever the other candidates could offer |
| RouteExamples.UnbackedWinnerBlocksRoute | src/core/path.cpp:204-212 | two parallel up links, the first with real evidence and no capability, the second synthetic with one: the first wins and no route is allowed |
| RouteCompleteness.DefaultPolicyIsComplete | src/core/path.cpp:302-449 | where every supported candidate has such backing, the default policy allows a route exactly when one of the candidates, the first simple paths up to the cap, runs over supported links only |
| RouteCompleteness.DefaultPolicyBelowCap | src/core/path.cpp:302-449 | and, if the simple paths are no more than the cap, exactly when some simple path within the depth bound runs over supported links |
| RouteExamples.CapHidesSupportedPath | src/core/path.cpp:65-70 | with a cap of one, a down link registered before an up one leaves no executable route, although a simple path over a supported link exists |
| RouteExamples.OneReportedLinkIsRoutable | src/core/path.cpp:302-463 | registering two devices and one supported link with a capability makes an executable route |
| Coordinator.CoordinatorServer.AdmitHello | src/core/runtime.cpp:336-353 | one locked step: a current epoch and a boot above the recorded one are recorded and counted, anything else is refused |
| CoordinatorTheorems.HelloAcceptedIff | src/core/runtime.cpp:336-353 | in every interleaving a HELLO is accepted exactly when it reports the coordinator's epoch and a boot above every boot accepted before for its worker; otherwise table, count and registry stay as they were |
| CoordinatorTheorems.ConnectionOpened | src/core/runtime.cpp:336-382 | every connection was opened by a HELLO of its worker and boot, and those that were accepted, hence those that publish, reported the coordinator's epoch |
| Coordinator.CoordinatorServer.HandlePublishDevice | src/core/runtime.cpp:390-397 | the device is stored under the connection's worker and boot, whatever it claimed |
| Coordinator.CoordinatorServer.HandlePublishLink | src/core/runtime.cpp:398-403 | the link is stored as sent |
| Coordinator.CoordinatorServer.HandlePublishMeasurement | src/core/runtime.cpp:404-411 | the measurement is stored under the connection's worker and boot |
| Coordinator.CoordinatorServer.HandleDisconnect | src/core/runtime.cpp:442-445 | the end of a connection marks all dynamic evidence |
| Coordinator.CoordinatorServer.ReleaseWorker | src/core/runtime.cpp:446-449 | then, in a separate locked step, lowers the live count unless it is 0 |
| Coordinator.CoordinatorRunsRegistry | src/core/runtime.cpp:384-449 | the registry of an interleaving is the registry after the mutations it performs, none of them a restore |
| Coordinator.BootsAlwaysIncrease | src/core/runtime.cpp:339-353 | accepted boots of each worker strictly increase and the table holds their maximum |
| Coordinator.LiveCountIsExact | src/core/runtime.cpp:345-449 | the live count is the number of accepted connections not released; the guard of the decrement is always true |
| Coordinator.DroppedCountsForEver | src/core/runtime.cpp:367-374 | a connection whose READY reply failed stays counted in every continuation of the run |
| CoordinatorTheorems.BootAcceptedOnce | src/core/runtime.cpp:343-350 | no pair of worker and boot is accepted twice |
| CoordinatorTheorems.CurrentBootIff | src/core/runtime.cpp:343-350 | a connection has the recorded boot exactly until a later one of its worker is accepted |
| CoordinatorTheorems.PublishIgnoresTable | src/core/runtime.cpp:390-411 | what a publication does is the same whatever the boot table holds |
| CoordinatorTheorems.ServingPublishesUnderOwnBoot | src/core/runtime.cpp:385-411 | every serving connection, in every interleaving, stores measurements and accepted devices under its own worker and boot, fresh; that boot is behind the recorded one exactly when a later connection of the worker was accepted |
| CoordinatorTheorems.OldBootStillPublishes | src/core/runtime.cpp:385-411 | a run in which a superseded connection publishes under its old boot |
| CoordinatorTheorems.FreshEvidenceIsBacked | src/core/runtime.cpp:385-449 | under every interleaving non-stale measurements and devices not awaiting revalidation belong to an accepted connection that has not run its disconnect mark |
| CoordinatorTheorems.FreshLinkPublisher | src/core/runtime.cpp:398-445 | and a link not awaiting revalidation was last published over such a connection, no mark at all having run since |
| CoordinatorTheorems.MarkSilencesEveryWorker | src/core/registry.cpp:354-379 | the mark of one connection leaves every measurement stale and every device and link of every worker awaiting revalidation; a link that another serving connection then sends again is taken exactly when its generation is newer than the stored one, its ends are registered and the limits leave room, and otherwise nothing changes |
| CoordinatorTheorems.NoWorkerNoRoute | src/core/runtime.cpp:442-445 | when every connection has run its mark no policy finds an executable route |
| Recovery.SavedStateLoadsIff | src/core/serialization.cpp:234-293 | under any limits the durable bytes of a reachable registry load as what was captured exactly when every field is representable, strings in 4096 bytes, and the counts are within the default limits, which are the ones the loader compares with |
| Recovery.SavedStateLoadsOrFails | src/core/serialization.cpp:23-71 | while its strings have at most 65535 bytes, all that proto::str delivers, and other fields their widths, loading gives what was captured or an integrity failure, the latter exactly when some string exceeds 4096 bytes or a count the default limits |
| Recovery.LargeRegistryUnloadable | src/core/serialization.cpp:257-267 | a registry built for 257 devices and holding them saves a file that the loader refuses |
| Recovery.RecoveryKeepsTopology | src/core/registry.cpp:381-440 | for any reachable registry with representable fields and counts within the default limits, capture, serialize, deserialize and restore keep every record field by field, but for the health of owned devices and the state, degradation, note and stamp of links, and fence off every earlier decision of either registry |
| Recovery.QuietUntilReported | src/core/path.cpp:154-212 | from any registry whose links all await revalidation, along every run in which no link upsert and no link state update is taken, no policy finds an executable route |
| Recovery.RestoredRegistryIsQuiet | src/core/registry.cpp:420-425 | so along every such run after a successful restore |
| Recovery.MarkedRegistryIsQuiet | src/core/registry.cpp:354-379 | and along every such run after a mark |

## Left out

- The observation log, evidence references and explanation strings: read for inspection only, with no effect on a decision.
- Name functions, timestamp formatting, error messages and contexts: an error is its code alone.
- Sockets, accept loops, threads and process spawning: a handler is its atomic steps, a socket a byte stream with arbitrary non-empty chunks.
- The worker payload codecs (src/core/runtime.cpp:123-204): they drop fields by design, so what a handler decodes is an arbitrary record.
- Query frames of the coordinator: they read the registry through the decision modelled here and change nothing.
- File handling of the durable state (src/core/persistence.cpp): its bytes go straight from the writer to the reader.
- Backends, tools, examples and benchmarks: foreign calls and fixtures.
- The wrappers that enumerate paths or compute a quality for a caller (src/core/path.cpp:251-268): a lookup of the endpoints before the modelled functions.
- Direct outside mutation through CoordinatorServer::registry(): the coordinator theorems are about handlers.
- Copy-on-write sharing of registry states: each mutation is one step on a state held in a field; readers see whole states.
- Wrap-around of 64-bit generations and of the 32-bit link counters of a path quality.
- Stream.Socket.Receive: does not tell a failed receive from the end of the stream, because the code treats them alike.
