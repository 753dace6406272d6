# Verified model of the RuCelium gateway stack

RuCelium is a chain of small Rust crates: sensor nodes sign packed records, a
gateway verifies and stores them, a notary commits to them in Merkle batches, biomes
federate what follows from them, and a governed control path turns agent proposals
into executed commands. These Dafny modules model the parts of that chain that carry
state and prove what they keep over whole runs. `dafny verify dfyconfig.toml` checks
everything.

| module | models |
|---|---|
| `Common`, `Words`, `Domain` | results and options, machine integers with wrap-around and saturation spelled out, samples and dedup keys |
| `Hashing`, `Merkle`, `NotaryLog` | the hash domains, the promoted-tail tree, the chained signed batch log and re-notarization |
| `Wire`, `Cbor` | the 48-byte record and the deterministic CBOR of samples and envelopes |
| `Replay`, `Ingest` | the 64-bit replay window and the verifying pipeline |
| `Store` | the segmented log on disk with its dedup index, as a machine that can crash at every step |
| `Biomes`, `Outage` | admission with global dedup, and store-and-forward with replay |
| `Gateways` | a datagram through all of these, and the restart |
| `Control` | the path from proposal to receipt, the command journal, the two budgets |
| `Bus`, `Revocation` | key succession and publication on the federation bus, and the gate for peers' artifacts |
| `Lineage`, `Calendar` | anchor-rooted calibration lineage, and the RFC 3339 timestamp |

Objects the Rust code updates in place are classes; each method is tied to a function
on values, and the theorems are about that function over every sequence of calls.
What such a function computes is stated apart from its body: formats byte by byte, and
every operation that can refuse by the list of its checks with their errors, of which
the answer is the first to fail (`Common.IsFirstFailure`).

What is idealised. Hashing is three functions (leaf, node, empty) and soundness is
stated for hashes without collisions on the finite set of inputs at hand. Signature
checks are arbitrary predicates; where a theorem needs unforgeability it names the set
of messages really signed. JSON and hex are their structure. Measurements and
magnitudes are reals. A `BTreeMap` whose order matters is the sequence of its entries
in key order.

Where the code and its documentation disagree, the model follows the code:

- `crates/rucelium-store/src/lib.rs:34-37` says a crash in the middle of a write never
  poisons the store. A line and its newline are two writes
  (`crates/rucelium-store/src/observations.rs:198-199`). After a crash between them the
  record decodes without its newline, so opening keeps it and the next append glues two
  records into one terminated line that decodes to nothing: the directory no longer
  opens. `Store.SplitCrashCanPoisonTheStore` is the run, `Store.AppendIsGood` the exact
  condition of one call, `Store.AlwaysGoodIff` of a whole run, `Gateways.AlwaysSoundIff`
  of the gateway's; `Store.WithoutSplitsNothingHarms` names the only crash that leads
  there. Distinct keys and append order survive even that
  (`Store.LivesKeepKeysAndOrder`).
- `crates/rucelium-gateway/src/control.rs:19-20` says a crash can never leave an executed
  command absent from disk. The journal is written after the attempt, so a crash between
  the closure and the write does. `Control.CrashAfterRunsAgain` shows it,
  `Control.OnceIffNeverReadmitted` is the exact condition, in the guards of the calls.
- `crates/rucelium-federation/src/summary.rs:392-400` for a registration and `474-480` for
  a hand-over compare a custodian threshold with the length of the declared list while the
  quorum counts distinct keys. `Bus.RegisteredIsReachableIff` and
  `Bus.RotatedIsReachableIff` are the exact conditions of one call,
  `Bus.AlwaysReachableIff` of a whole run.
- A command issued at the last representable nanosecond expires as it is signed, because
  its expiry saturates (`Control.DriveRunsIff`).

## Model

| member | source | states |
|---|---|---|
| `Hashing.DomainsAreSeparated` | crates/rucelium-notary/src/tree.rs:50-105 | leaf, node and empty inputs never encode to the same bytes, and each encoding is injective |
| `Hashing.EncodingsByByte` | crates/rucelium-notary/src/tree.rs:50-105 | a leaf is hashed behind byte 0, two digests, left first, behind byte 1, the label rucelium.notary.empty behind byte 2 |
| `Hashing.ShaIsCollisionFree` | crates/rucelium-notary/src/tree.rs:69-105 | so a digest function without collisions on the encoded strings at hand is collision-free on the inputs |
| `Merkle.Build` | crates/rucelium-notary/src/tree.rs:140-168 | the level-by-level loop with odd-tail promotion builds exactly the tree whose root the recursive definition of the levels gives |
| `Merkle.LastLevelIsRoot` | crates/rucelium-notary/src/tree.rs:140-177 | the last level built is the root alone |
| `Merkle.LevelSizes` | crates/rucelium-notary/src/tree.rs:140-168 | level k has ceil(n / 2^k) nodes |
| `Merkle.IndexOf` | crates/rucelium-notary/src/tree.rs:204-206 | the first position of a leaf, none exactly when it is absent |
| `Merkle.Prove` | crates/rucelium-notary/src/tree.rs:211-236 | the prover loop returns the recursive path of the leaf, none exactly out of range |
| `Merkle.VerifyInclusion` | crates/rucelium-notary/src/tree.rs:266-294 | the stateless verifier loop decides exactly the recursive acceptance of a proof |
| `Merkle.HonestProofVerifies` | crates/rucelium-notary/src/tree.rs:211-294 | every leaf of every list verifies with its proof under the root |
| `Merkle.AcceptedProofIsHonest` | crates/rucelium-notary/src/tree.rs:266-294 | a proof accepted for the right leaf count proves the leaf at its index and carries exactly the prover's siblings, if the hash does not collide on the inputs of the build and of the proof |
| `Merkle.ClimbIsFold` | crates/rucelium-notary/src/tree.rs:266-294 | acceptance is a plain fold of the siblings once their sides are those the geometry dictates |
| `Merkle.CountIsBoundOnlyUpToShape` | crates/rucelium-notary/src/tree.rs:248-294 | another leaf count is accepted with the same proof exactly when it dictates the same sides: why the count must come from the signed root |
| `Merkle.SevenLooksLikeEightAtIndexThree` | crates/rucelium-notary/src/tree.rs:472-479 | a concrete pair of counts of one shape, and two of different shapes |
| `Merkle.PathLength` | crates/rucelium-notary/src/tree.rs:211-236 | a path has at most ceil(log2 n) siblings, exactly log2 n for a power of two |
| `Merkle.RootIsTreeHash` | crates/rucelium-notary/src/tree.rs:140-177 | the promoted-tail root is the recursive tree hash of section 2.1 of RFC 6962, for every list |
| `Merkle.PathIsAuditPath` | crates/rucelium-notary/src/tree.rs:211-236 | the prover's path is the audit path of section 2.1.1 of RFC 6962 |
| `Merkle.RootCommitsToBatch` | crates/rucelium-notary/src/tree.rs:63-177 | two batches of any lengths, empty included, with one root are the same batch, if the hash does not collide on their inputs |
| `NotaryLog.Notary.constructor` | crates/rucelium-notary/src/bundle.rs:148-157 | a new notary is the run of no operations |
| `NotaryLog.Notary.Accept` | crates/rucelium-notary/src/bundle.rs:201-220 | accepting appends the leaf hash to the open batch and changes nothing else of the run |
| `NotaryLog.Notary.IsFull` | crates/rucelium-notary/src/bundle.rs:191-193 | full exactly when the open batch reached the batch size |
| `NotaryLog.Notary.Seal` | crates/rucelium-notary/src/bundle.rs:231-285 | sealing closes the open batch under a signed root chained to the previous one, with the next id |
| `NotaryLog.RunsAreGood` | crates/rucelium-notary/src/bundle.rs:201-285 | over any interleaving of accepts and seals: ids count up from 0, each root chains to the previous one and commits to its batch, and sealed contents followed by the open ones are the accept history |
| `NotaryLog.SealsAreAsAsked` | crates/rucelium-notary/src/bundle.rs:231-285 | over any run: root k bears this format version, biome, the three times of its own seal call and that signer's tag, key and signature over every other field, and its batch is what was accepted since the call before |
| `NotaryLog.VerifiesIffTagIsTheSigners` | crates/rucelium-notary/src/root.rs:247-279 | a signed root verifies under its signer's algorithm tag and no other |
| `NotaryLog.BundleFor` | crates/rucelium-notary/src/bundle.rs:112-126 | a bundle exactly for the observations of the batch: their bytes and hash, the first position of that hash with its inclusion proof, the batch's root |
| `NotaryLog.VerifyBundle` | crates/rucelium-notary/src/bundle.rs:315-352 | the offline verifier passes a bundle iff each of its eight checks, stated on the bundle's own fields, holds, and else names the first to fail |
| `NotaryLog.VerdictNamesTheFirst` | crates/rucelium-notary/src/bundle.rs:315-352 | a bundle passes iff its leaf is the hash of its observation, the siblings fold to the root on the sides the signed count dictates, tag and key are the trusted ones and the signature over the root without its signature fields verifies; else the error is that of the first of these to fail |
| `NotaryLog.EveryAcceptedObservationVerifies` | crates/rucelium-notary/src/bundle.rs:112-352 | every accepted observation of every sealed batch gets a bundle that verifies |
| `NotaryLog.AcceptedBundleIsGenuine` | crates/rucelium-notary/src/bundle.rs:315-352 | if the trusted key signed only sealed roots, a bundle that verifies is of an observation accepted at that position of that batch |
| `NotaryLog.IncludedMeansAccepted` | crates/rucelium-notary/src/bundle.rs:315-352 | inclusion under a sealed root means the bytes were accepted in that batch |
| `NotaryLog.WindowSpan` | crates/rucelium-notary/src/bundle.rs:368-405 | the re-notarized window is the tight span of the old ones |
| `NotaryLog.Renotarize` | crates/rucelium-notary/src/bundle.rs:368-405 | old roots become the leaves of a new batch that chains to the last of them, over exactly their span, signed by the new signer |
| `NotaryLog.RenotarizedRootIsOld` | crates/rucelium-notary/src/bundle.rs:359-413 | a root proved under the new batch is the old root at that index |
| `NotaryLog.ObservationSurvivesRenotarization` | crates/rucelium-notary/src/bundle.rs:359-413 | for any old roots of the run: observation in old root in new root, the two proofs together show the observation was accepted by the old notary |
| `Wire.LeRoundTrips` | crates/rucelium-abi/src/wire.rs:124-140 | little-endian bytes of a number read back as the number |
| `Wire.LeIsCanonical` | crates/rucelium-abi/src/wire.rs:124-140 | and no other bytes of that width read as it |
| `Wire.Encode` | crates/rucelium-abi/src/wire.rs:177-193 | the slice-by-slice encoder writes each of the 13 named fields little-endian at its offset in 48 bytes |
| `Wire.ParseOfEncode` | crates/rucelium-abi/src/wire.rs:142-193 | parse after encode is the identity on every sample |
| `Wire.EncodeOfParse` | crates/rucelium-abi/src/wire.rs:142-193 | every 48 bytes that parse are the encoding of what they parse to |
| `Wire.ParsesTheLayout` | crates/rucelium-abi/src/wire.rs:142-165 | 48 bytes parse to exactly the record with schema_version at 0, sensor_type at 1, flags at 2, node_id at 4, timestamp_ns at 12, sequence at 20, latitude_e7 at 24, longitude_e7 at 28, altitude_mm at 32, value_q16 at 36, quality_q15 at 40, battery_mv at 42 and calibration_id at 44, as sums of bytes; any other length is an error |
| `Wire.EncodesTheLayout` | crates/rucelium-abi/src/wire.rs:177-193 | and a record encodes to exactly the bytes so laid out |
| `Wire.ValidateNamesTheFirst` | crates/rucelium-abi/src/wire.rs:197-225 | validation fails with the first of schema, modality, latitude, longitude, quality and time that is out of bounds, and with its value |
| `Cbor.ReadHeadOfBytes` | crates/rucelium-abi/src/cbor.rs:76-186 | a written head of any of the five widths reads back (section 4.2.1 of RFC 8949) |
| `Cbor.ReadHeadIsCanonical` | crates/rucelium-abi/src/cbor.rs:146-186 | a head that reads is the shortest one, the one the writer makes |
| `Cbor.ReadHeadOfPrefix` | crates/rucelium-abi/src/cbor.rs:135-186 | cut short, a head reads as truncated and nothing else |
| `Cbor.HeadsAreReadByByte` | crates/rucelium-abi/src/cbor.rs:146-186 | a head is read exactly as its bytes say: three bits of major type, five of length, the argument big-endian; else the error is the first of truncated, reserved length, argument cut off, not shortest |
| `Cbor.Reader.ReadHeadNext` | crates/rucelium-abi/src/cbor.rs:146-186 | the reader advances over exactly one head, or fails as the grammar says |
| `Cbor.Reader.ReadInt` | crates/rucelium-abi/src/cbor.rs:200-210 | signed integers within i64, negative ones included |
| `Cbor.Reader.ReadNarrow` | crates/rucelium-abi/src/cbor.rs:279-290 | a value that does not fit its field is refused |
| `Cbor.FieldsRefuseTheFirst` | crates/rucelium-abi/src/cbor.rs:189-290 | a field of each width fails with the first thing wrong with its item: its head, its type, its range |
| `Cbor.Reader.ReadString` | crates/rucelium-abi/src/cbor.rs:212-222 | byte strings within what is left of the input |
| `Cbor.StringsRefuseTheFirst` | crates/rucelium-abi/src/cbor.rs:212-222 | a byte string fails with the first thing wrong: its head, its type, its extent, its length |
| `Cbor.Reader.ReadArrayHead` | crates/rucelium-abi/src/cbor.rs:224-239 | an array head of exactly the expected length |
| `Cbor.ArraysRefuseTheFirst` | crates/rucelium-abi/src/cbor.rs:224-239 | an array fails with the first thing wrong: its head, its type, its number of items |
| `Cbor.Writer.WriteHead` | crates/rucelium-abi/src/cbor.rs:76-94 | the writer appends the shortest head |
| `Cbor.Writer.WriteInt` | crates/rucelium-abi/src/cbor.rs:101-109 | the writer appends the head of a signed integer |
| `Cbor.EncodeSampleV1` | crates/rucelium-abi/src/cbor.rs:260-277 | the sample encoder writes the array head and the 13 named fields as items in the documented order |
| `Cbor.DecodeSampleV1` | crates/rucelium-abi/src/cbor.rs:294-325 | the sample decoder yields a record iff the bytes are the array of its 13 named fields in the documented order, and nothing else |
| `Cbor.EncodeEnvelope` | crates/rucelium-abi/src/cbor.rs:337-343 | the envelope encoder writes payload, key and signature in this order, each behind its two head bytes |
| `Cbor.DecodeEnvelope` | crates/rucelium-abi/src/cbor.rs:347-378 | the envelope decoder with its three length checks |
| `Cbor.ReadSampleOfBytes` | crates/rucelium-abi/src/cbor.rs:260-325 | decode after encode is the identity on every sample |
| `Cbor.DecodesTheItems` | crates/rucelium-abi/src/cbor.rs:250-325 | bytes decode to a sample iff they are 0x8d and then, item by item, schema_version, sensor_type, flags, node_id, timestamp_ns, sequence, latitude_e7, longitude_e7, altitude_mm, value_q16, quality_q15, battery_mv, calibration_id |
| `Cbor.EncodesTheItems` | crates/rucelium-abi/src/cbor.rs:250-277 | and so are the bytes a sample encodes to |
| `Cbor.ReadSampleIsCanonical` | crates/rucelium-abi/src/cbor.rs:260-325 | bytes that decode are exactly the encoder's |
| `Cbor.SampleEncodingsAreIsolated` | crates/rucelium-abi/src/cbor.rs:241-325 | a proper prefix of an encoding is truncated, an extension has trailing bytes |
| `Cbor.ReadEnvelopeOfBytes` | crates/rucelium-abi/src/cbor.rs:337-378 | decode after encode is the identity on every envelope |
| `Cbor.EnvelopeByByte` | crates/rucelium-abi/src/cbor.rs:337-378 | bytes decode to an envelope iff they are 0x83, then 0x58 0x30 and the payload, 0x58 0x20 and the key, 0x58 0x40 and the signature |
| `Cbor.ReadEnvelopeIsCanonical` | crates/rucelium-abi/src/cbor.rs:347-378 | envelope bytes that decode are exactly the encoder's |
| `Cbor.EncodingIsUnique` | crates/rucelium-abi/src/cbor.rs:347-378 | through both layers no two byte strings denote the same record, key and signature |
| `Replay.ReplayWindow.CheckAndUpdate` | crates/rucelium-ingest/src/lib.rs:176-208 | the bitmap window accepts exactly by the rule on the set of accepted sequences, and then contains it |
| `Replay.OfferFollowsTheRule` | crates/rucelium-ingest/src/lib.rs:143-208 | accepted iff the set is empty, or the sequence is above its maximum, or unseen and at most 63 below it; too old iff more than 63 below |
| `Replay.AdvanceRepresents` | crates/rucelium-ingest/src/lib.rs:176-208 | a jump ahead of any size shifts the bitmap to the same set plus the new maximum |
| `Replay.WindowIsDetermined` | crates/rucelium-ingest/src/lib.rs:143-160 | a set has one window |
| `Replay.RunsAcceptOnce` | crates/rucelium-ingest/src/lib.rs:176-208 | over any run no sequence is accepted twice |
| `Replay.PrimingRestoresTheWindow` | crates/rucelium-ingest/src/lib.rs:543-566 | offering any listing of the accepted sequences in sorted order rebuilds the live window |
| `Ingest.IngestPipeline.Ingest` | crates/rucelium-ingest/src/lib.rs:466-512 | decode, verify, replay check, normalize, with one counter per outcome |
| `Ingest.IngestPipeline.ReverifyStored` | crates/rucelium-ingest/src/lib.rs:522-541 | the same checks without the window, which stays as it was |
| `Ingest.IngestPipeline.PrimeFromDedup` | crates/rucelium-ingest/src/lib.rs:552-566 | keys grouped by node and offered in ascending order |
| `Ingest.IngestPipeline.Register` | crates/rucelium-ingest/src/lib.rs:69-80 | registering replaces the record, revocation included |
| `Ingest.IngestPipeline.Revoke` | crates/rucelium-ingest/src/lib.rs:83-91 | revoking reports whether the device was newly revoked |
| `Ingest.AcceptedExactlyWhen` | crates/rucelium-ingest/src/lib.rs:466-597 | an envelope is accepted iff it decodes to a sensible sample, of a known device not revoked, under its registered key, well signed, not measured after it was received, with a sequence acceptable next to the set of consumed ones |
| `Ingest.IngestNamesTheFirst` | crates/rucelium-ingest/src/lib.rs:324-597 | ingest and reverification refuse an envelope with the first check to fail, of payload, device, revocation, key, signature, then for ingest window, then domain; a sample that passes says what the payload says, under the device's firmware hash and the envelope's key |
| `Ingest.IngestNeedsAnEnvelope` | crates/rucelium-ingest/src/lib.rs:466-541 | bytes that are no envelope are refused with the decoder's error |
| `Ingest.OutcomesAreCounted` | crates/rucelium-ingest/src/lib.rs:448-541 | of the eleven counters exactly the one of the outcome moves, by one |
| `Ingest.ValidatedNormalizesIff` | crates/rucelium-abi/src/wire.rs:197-289 | a validated wire sample normalizes unless measured after it was received, or its device has no firmware hash or key on record, to quantities in Q16.16 and Q0.15 one step wide |
| `Ingest.ReverifyIsIngestWithoutWindow` | crates/rucelium-ingest/src/lib.rs:514-541 | reverification passes exactly what ingest does, but for sequences no longer acceptable, to the same samples, windows untouched |
| `Ingest.IngestKeepsTracking` | crates/rucelium-ingest/src/lib.rs:466-512 | each envelope bumps one counter; windows follow the consumed keys; what is accepted carries the registered, unrevoked key |
| `Ingest.OfferKeepsTracking` | crates/rucelium-ingest/src/lib.rs:466-512 | one offer keeps all windows in step with the consumed keys, and only a new key passes |
| `Ingest.ConsumedIsRejected` | crates/rucelium-ingest/src/lib.rs:466-512 | a consumed key is refused by its window for good |
| `Ingest.PrimedTracks` | crates/rucelium-ingest/src/lib.rs:543-566 | a fresh pipeline primed from any listing of a key set tracks that set |
| `Ingest.RestartIsFaithful` | crates/rucelium-ingest/src/lib.rs:543-566 | and has at every node the window of any live pipeline that consumed exactly those keys |
| `Store.ObservationStore.Open` | crates/rucelium-store/src/observations.rs:119-158 | the opening loops load, repair, index and describe every segment as the specification says, or fail with the first error |
| `Store.ObservationStore.Scan` | crates/rucelium-store/src/observations.rs:137-150 | one segment's metadata and the keys the index lacked |
| `Store.ObservationStore.Append` | crates/rucelium-store/src/observations.rs:170-215 | validate, deduplicate, roll, write, index, in that order; a new segment is started exactly when the last is full, and none is filled beyond the limit |
| `Store.AppendAnswers` | crates/rucelium-store/src/observations.rs:170-215 | an append is invalid iff the sample is, else a duplicate iff its key is indexed, else it counts, is indexed and lands last unless it runs into an unterminated record |
| `Store.ObservationStore.EnforceRetention` | crates/rucelium-store/src/observations.rs:284-299 | the in-place removal loop |
| `Store.ObservationStore.Replay` | crates/rucelium-store/src/observations.rs:253-265 | iterating an open store yields every record in append order |
| `Store.OpensIffReadable` | crates/rucelium-store/src/observations.rs:119-158 | a directory opens exactly when every line decodes and only the last segment has a torn tail |
| `Store.OpeningNamesTheFirst` | crates/rucelium-store/src/observations.rs:119-158 | a failing open names the first segment with an undecodable line or an early torn tail |
| `Store.OpensUncounted` | crates/rucelium-store/src/observations.rs:119-158 | an opened store has counted nothing, holds at least one record a segment and numbers its next file after its last |
| `Store.CrashOpeningLeaves` | crates/rucelium-store/src/observations.rs:119-158 | what each crash in an open leaves of what the whole open would have left |
| `Store.OpenIsGood` | crates/rucelium-store/src/observations.rs:100-158 | opening a good directory succeeds, keeps every record, knows every key of index and segments |
| `Store.RepairKeepsRecords` | crates/rucelium-store/src/segment.rs:183-235 | cutting off torn tails adds and loses no record |
| `Store.MissingCompletes` | crates/rucelium-store/src/observations.rs:132-153 | the keys written back are exactly those stored but not indexed |
| `Store.AppendIsGood` | crates/rucelium-store/src/observations.rs:170-215 | an append lands last, is known, and keeps the store good exactly when it does not run into an unterminated record |
| `Store.CrashIsGood` | crates/rucelium-store/src/observations.rs:188-207 | a crash at any point of an append leaves the record there whole or not at all |
| `Store.CrashOpeningIsGood` | crates/rucelium-store/src/observations.rs:119-158 | a crash at any point of an open loses no record and no indexed key |
| `Store.RetainKeeps` | crates/rucelium-store/src/observations.rs:284-299 | retention, even cut short, keeps order, numbering and the last segment, and counts exactly the records gone |
| `Store.RetainRemovesExactlyExpired` | crates/rucelium-store/src/observations.rs:284-299 | what stays is exactly the unexpired segments and the last one |
| `Store.ExpiredMeansEveryRecord` | crates/rucelium-store/src/observations.rs:284-299 | a segment is expired iff every one of its records is |
| `Store.NextIsGood` | crates/rucelium-store/src/observations.rs:119-299 | every event of a store's life keeps the invariant of keys, order, numbering and counts unless it glues |
| `Store.LivesKeepKeysAndOrder` | crates/rucelium-store/src/observations.rs:119-299 | over every run of appends, crashes at any point, reopens and retention, gluing included: stored keys are pairwise distinct and the stored records are in append order |
| `Store.NextIsGoodIff` | crates/rucelium-store/src/observations.rs:119-299 | one event breaks the invariant iff it writes bytes behind a record whose newline is missing |
| `Store.AlwaysGoodIff` | crates/rucelium-store/src/observations.rs:119-299 | over every run: every state along it is readable, no key ever landed twice and the landed records less the stored ones are those retention counted, iff no event of the run writes behind a record whose newline is missing |
| `Store.HarmlessLivesOpen` | crates/rucelium-store/src/observations.rs:119-158 | then the directory opens whenever it is tried |
| `Store.AckedIsDuplicateForever` | crates/rucelium-store/src/observations.rs:170-215 | over every run, crashes, retention and gluing included, an acknowledged key is a duplicate whenever the store is open |
| `Store.WithoutSplitsNothingHarms` | crates/rucelium-store/src/observations.rs:188-197 | without a crash between a line and its newline no event ever does |
| `Store.GluedCrashLoses` | crates/rucelium-store/src/observations.rs:188-207 | a crash during a gluing append keeps the stored records iff no byte was written |
| `Store.SplitCrashCanPoisonTheStore` | crates/rucelium-store/src/segment.rs:183-235 | a concrete run: one crash between line and newline, one acknowledged append, and the directory no longer opens |
| `Biomes.Biome.Accept` | crates/rucelium-federation/src/biome.rs:175-187 | one sample in, and the answer |
| `Biomes.AnswersFollowHistory` | crates/rucelium-federation/src/biome.rs:175-187 | after any deliveries the answer is revoked iff the device was, else duplicate iff its key was delivered while the device was not, else admitted |
| `Biomes.Biome.RevokeDevice` | crates/rucelium-federation/src/biome.rs:217-245 | the revocation event cites and starts with the device's most recent observation, or sequence 0 and now |
| `Biomes.ObservationsAreFirstDeliveries` | crates/rucelium-federation/src/biome.rs:175-187 | over any deliveries and revocations the observations are the first unrevoked delivery of each key, in order: each key once, iff so delivered, and repeats are counted |
| `Biomes.DeliveringTwiceIsDeliveringOnce` | crates/rucelium-federation/src/biome.rs:175-187 | delivering a batch again observes nothing new |
| `Outage.OutageBuffer.Push` | crates/rucelium-federation/src/buffer.rs:84-97 | decode for the key, drop known keys, insert in key order |
| `Outage.OutageBuffer.Drain` | crates/rucelium-federation/src/buffer.rs:119-121 | all entries leave in key order, the keys stay known |
| `Outage.OutageBuffer.ToJson` | crates/rucelium-federation/src/buffer.rs:125-142 | every entry in key order and every known key |
| `Outage.OutageBuffer.OfJson` | crates/rucelium-federation/src/buffer.rs:150-167 | keys derived again from the bytes, or the first error |
| `Outage.PushTakesNewKeys` | crates/rucelium-federation/src/buffer.rs:84-97 | a push takes exactly the keys never seen, drained ones included |
| `Outage.LoadedIsGood` | crates/rucelium-federation/src/buffer.rs:150-167 | any document that loads, edited or not, yields ordered entries under the keys their bytes say, knowing those and the declared keys; it loads iff every entry decodes |
| `Outage.JsonRoundTrips` | crates/rucelium-federation/src/buffer.rs:125-167 | from_json after to_json is the identity on every buffer |
| `Outage.ReplayDeliversWhatPasses` | crates/rucelium-federation/src/buffer.rs:14-26 | replay delivers each envelope that still verifies, once, in key order, and nothing else |
| `Outage.DeliveredIsReverified` | crates/rucelium-federation/src/buffer.rs:14-26 | what is delivered is, unaltered, what reverification makes of a drained envelope |
| `Outage.StepsLeave` | crates/rucelium-federation/src/buffer.rs:84-121 | a drain empties the buffer, forgets no key and counts each envelope once; registrations, revocations and restarts leave the rest alone |
| `Outage.ReplayIsExactlyOnce` | crates/rucelium-federation/src/buffer.rs:8-26 | however live accepts, pushes, drains, restarts, restores, registrations and revocations interleave, each key is observed once, iff handed over unrevoked |
| `Outage.DrainDelivers` | crates/rucelium-federation/src/buffer.rs:14-26 | a drain makes a buffered key observed iff it was before, or its envelope verifies and its device is not revoked |
| `Outage.PushedIsObserved` | crates/rucelium-federation/src/buffer.rs:8-26 | over every run: a pushed new key that no load or restart drops is observed with the next drain iff it was by then, or its envelope verifies and its device is not revoked; and it stays observed |
| `Outage.RestoringTwiceIsRestoringOnce` | crates/rucelium-federation/src/buffer.rs:24-26 | restoring and draining one document twice observes what once does |
| `Gateways.Daemon.Process` | crates/rucelium-gateway/src/pipeline.rs:46-146 | one datagram through ingest, calibration, store and biome, counted once |
| `Gateways.Daemon.Open` | crates/rucelium-gateway/src/state.rs:201-218 | an empty registry, windows primed from the store's dedup index, a new biome |
| `Gateways.DownstreamNeverSeesADuplicate` | crates/rucelium-gateway/src/pipeline.rs:99-146 | an accepted envelope is always appended to the store and admitted by the biome unless it revoked the device: neither ever reports a duplicate |
| `Gateways.HandledLandsCorrected` | crates/rucelium-gateway/src/pipeline.rs:99-146 | what lands in store and biome is the ingested sample with the correction's value, bounds and quality if there is one that validates, else exactly as ingested, and the error counter moves exactly in the other case |
| `Gateways.StoreTakesTheStep` | crates/rucelium-gateway/src/pipeline.rs:99-146 | a crash in an accepted datagram is one in appending the sample as it would have landed |
| `Gateways.RevocationTakesHold` | crates/rucelium-gateway/src/federation.rs:155 | over every run: once its owner or a peer revoked a device, its envelopes are refused in every later state, restarts included, until it is provisioned again |
| `Gateways.ProvisioningLetsIn` | crates/rucelium-ingest/src/lib.rs:69-91 | one step lets a shut-out device in iff it provisions that device, and then under the new key |
| `Gateways.StoredKeysAreRejected` | crates/rucelium-gateway/src/state.rs:187-218 | over every run from any directory, crashes, gluing and restarts included: no key accepted twice, every key on record or ever accepted is indexed, every indexed key is refused by its window |
| `Store.OpenKnows` | crates/rucelium-store/src/observations.rs:100-158 | whatever disk opens: the records stay and every key of index and segments is known |
| `Store.AckedStaysKnown` | crates/rucelium-store/src/observations.rs:119-299 | every event, gluing ones included, keeps every acknowledged key and every key on record in the index |
| `Gateways.PrimingIgnoresOrder` | crates/rucelium-ingest/src/lib.rs:543-566 | primed windows depend on the key set alone |
| `Gateways.NextGatewayIsGood` | crates/rucelium-gateway/src/pipeline.rs:46-146 | every step keeps windows, index, biome and all counters in agreement |
| `Gateways.AlwaysSoundIff` | crates/rucelium-gateway/src/state.rs:201-218 | over every run of the gateway its store keeps every promise iff no datagram is written behind a record whose newline a crash took; it then always boots again |
| `Gateways.WithoutSplitsAlwaysSound` | crates/rucelium-gateway/src/pipeline.rs:99-146 | so it does if no crash falls between a record's line and its newline |
| `Control.GatewayValidator.ValidateAndExecuteNow` | crates/rucelium-policy/src/pipeline.rs:829-895 | check, record the intent, run, record the end, charge the count on success only |
| `Control.AttemptsAreRecorded` | crates/rucelium-policy/src/pipeline.rs:829-895 | a refused command changes nothing and names the first check to fail; else it runs, its id is recorded as executed or failed as the execution went, and only a success is charged |
| `Control.GatewayValidator.ExportPhases` | crates/rucelium-policy/src/pipeline.rs:792-797 | every command id with its phase |
| `Control.GatewayValidator.RestorePhases` | crates/rucelium-policy/src/pipeline.rs:805-811 | known phases are restored, unknown ones skipped |
| `Control.SafetySimulator.RecordExecution` | crates/rucelium-policy/src/pipeline.rs:314-316 | one more execution of that actuator |
| `Control.ControlPath.DriveNow` | crates/rucelium-gateway/src/control.rs:88-118 | the stages in order, the safety budget charged last |
| `Control.ControlPath.Run` | crates/rucelium-gateway/src/control.rs:62-84 | the journal is the phase table on every way out; exactly one counter moves, and only a success adds a receipt, of the command, the time and what the execution said |
| `Control.ControlPath.constructor` | crates/rucelium-gateway/src/state.rs:238-260 | a start has empty budgets and the phases of the journal |
| `Control.JournalRoundTrips` | crates/rucelium-policy/src/pipeline.rs:785-811 | restoring an exported table, in any order, gives it back |
| `Control.LastLineDecides` | crates/rucelium-policy/src/pipeline.rs:805-811 | whatever lines are restored, the last one of an id with a known phase decides, and the others count for nothing |
| `Control.GatesPassIff` | crates/rucelium-policy/src/pipeline.rs:175-465 | the three gates let through exactly the justified proposals within every static limit and grant, while the safety budget lasts |
| `Control.GatesNameTheFirst` | crates/rucelium-policy/src/pipeline.rs:175-465 | a refusal by the gates names the first check to fail, of policy, safety envelope, safety budget and authority |
| `Control.DriveNamesTheFirst` | crates/rucelium-gateway/src/control.rs:88-118 | the whole path refuses with the first check to fail: the gates, then those of the command signed for the proposal with every field spelled out, then its execution |
| `Control.DriveRunsIff` | crates/rucelium-gateway/src/control.rs:88-118 | a proposal runs iff it passes every gate under an unused id, within the cap, before the last nanosecond of time; it succeeds iff its execution does |
| `Control.SignedCommandLivesOneHour` | crates/rucelium-gateway/src/control.rs:28-30 | a signed command is good for one hour, or until the last nanosecond of time |
| `Control.EveryRunPassedEveryGate` | crates/rucelium-policy/src/pipeline.rs:175-964 | over every life each executed command was signed by the owner after passing policy, both magnitude limits and authority |
| `Control.DefaultsBoundEveryActuation` | crates/rucelium-policy/src/pipeline.rs:82-260 | with the default limits every executed actuation is of a listed actuator and within 0.8, and every sampling interval between ten seconds and a day |
| `Control.RerunsExactlyTheLost` | crates/rucelium-policy/src/pipeline.rs:829-895 | a step repeats a command id iff that id ran without reaching the journal, and only a crash after the closure loses one |
| `Control.AdmittedIsWhatRuns` | crates/rucelium-gateway/src/control.rs:88-118 | the guards as they stand before a step decide whether the closure is called, and for which id |
| `Control.OnceIffNeverReadmitted` | crates/rucelium-policy/src/pipeline.rs:606-625 | over every life no id runs twice iff no step is let in for an id that a crash left in flight; those ids are the ones that ran without reaching the journal |
| `Control.AtMostOnce` | crates/rucelium-policy/src/pipeline.rs:792-964 | with restarts at journal points no id runs twice and the journal names exactly the ids that ran |
| `Control.PhasesTellOutcomes` | crates/rucelium-policy/src/pipeline.rs:829-895 | over every life, crashes included, memory and journal say of each id they hold whether the last execution under it succeeded or failed |
| `Control.JournalReadsTheOutcome` | crates/rucelium-policy/src/pipeline.rs:785-895 | without a crash between closure and journal write the journal reads "executed" for an id iff its one run succeeded and "failed" iff it failed |
| `Control.EveryRunWasAskedFor` | crates/rucelium-policy/src/pipeline.rs:568-584 | over every life each run is of the command of some step and succeeded as that step's execution did, and each signed command is the one for some proposal, field by field |
| `Control.GrantsLastUntilRestart` | crates/rucelium-policy/src/pipeline.rs:415-465 | a grant authorises its actuator at once and until the next start, which knows the configured grants and the journal alone |
| `Control.CrashAfterRunsAgain` | crates/rucelium-gateway/src/control.rs:17-22 | after a crash between closure and journal write the id is not on disk and the same proposal runs again |
| `Control.DriveKeepsBalance` | crates/rucelium-gateway/src/control.rs:106-117 | a success charges both budgets, anything else neither |
| `Control.BudgetsAgree` | crates/rucelium-gateway/src/control.rs:106-117 | within one process life both budgets equal the number of successes of the actuator and never exceed the safety budget, ten by default |
| `Control.NextKeepsGood` | crates/rucelium-policy/src/pipeline.rs:744-964 | every step keeps memory and journal equal, no command in mid-execution, and the gateway count exact |
| `Bus.FederationBus.RegisterBiomeWithCustodians` | crates/rucelium-federation/src/summary.rs:384-420 | the first registration binds the declared key, epoch, set of custodians and threshold; later only a repeat of the bound key at no higher epoch is let through, and changes nothing |
| `Bus.GenesisIsDeclared` | crates/rucelium-federation/src/summary.rs:384-420 | over every run each biome's genesis is the key, epoch, custodians and threshold of its first registration let through |
| `Bus.RegisteredKeyRules` | crates/rucelium-federation/src/summary.rs:384-548 | right after it a succession signed by the registered key from the registered epoch is accepted, and a summary signed by it is published |
| `Bus.FederationBus.RotateBiome` | crates/rucelium-federation/src/summary.rs:430-499 | the quorum loop collects exactly the distinct custodians that signed |
| `Bus.FederationBus.Publish` | crates/rucelium-federation/src/summary.rs:530-548 | identity, signature and window checks in order |
| `Bus.FederationBus.PublishEvent` | crates/rucelium-federation/src/summary.rs:553-567 | the same for events by id |
| `Bus.AcceptedIsAuthorised` | crates/rucelium-federation/src/summary.rs:422-499 | an accepted succession is signed by the replaced key or by threshold distinct custodians, and raises the epoch |
| `Bus.RotationAcceptedIff` | crates/rucelium-federation/src/summary.rs:422-499 | and exactly the authorised successions from the current epoch to a higher one, to a key, with a threshold within the listed custodians, are accepted |
| `Bus.RotationNamesTheFirst` | crates/rucelium-federation/src/summary.rs:430-499 | a refused succession names the first check to fail, with the number of custodians that signed |
| `Bus.PublishedIff` | crates/rucelium-federation/src/summary.rs:501-567 | published exactly when signed by the key bound to the biome, over a window or event id not published before |
| `Bus.PublishingNamesTheFirst` | crates/rucelium-federation/src/summary.rs:506-567 | a refused summary or event names the first check to fail |
| `Bus.SignedFormsTellApart` | crates/rucelium-federation/src/summary.rs:53-309 | what is signed of a succession, summary or event is every field but the signatures |
| `Bus.OnlySuccessionsRebind` | crates/rucelium-federation/src/summary.rs:359-499 | nothing else changes a binding |
| `Bus.CustodyHolds` | crates/rucelium-federation/src/summary.rs:344-567 | over every run: bindings descend from genesis by authorised successions, publications are signed under custody, no window and no event id twice |
| `Bus.SuccessionsAreAcceptedOnce` | crates/rucelium-federation/src/summary.rs:277-304 | no succession is accepted twice |
| `Bus.EpochsNeverFall` | crates/rucelium-federation/src/summary.rs:336-499 | epochs never fall and an unchanged epoch means an unchanged binding |
| `Bus.RegisteredIsReachableIff` | crates/rucelium-federation/src/summary.rs:392-420 | a first registration let through, on any bus, can be recovered iff its threshold is within the distinct custodians |
| `Bus.RotatedIsReachableIff` | crates/rucelium-federation/src/summary.rs:472-497 | an accepted hand-over can be recovered iff its threshold is within the distinct new custodians; without one the quorum stays |
| `Bus.AcceptedThresholdsAreReachableIffNoRepeats` | crates/rucelium-federation/src/summary.rs:392-400 | every threshold let through for a list can be reached iff the list has no repeats |
| `Bus.AlwaysReachableIff` | crates/rucelium-federation/src/summary.rs:384-499 | over every run: every binding stays within reach of its custodians iff every declaration put in force counts no more than distinct custodians |
| `Bus.RecoverableCallsStayReachable` | crates/rucelium-federation/src/summary.rs:384-499 | if every call counts distinct custodians, every binding of the run stays within reach |
| `Bus.RepeatedCustodianIsAccepted` | crates/rucelium-federation/src/summary.rs:392-400 | one custodian listed twice with threshold two is registered and beyond reach |
| `Bus.RepeatedCustodianIsHandedOver` | crates/rucelium-federation/src/summary.rs:472-484 | and so when the bound key hands the quorum over to such a list |
| `Bus.UnreachableNeverRecovers` | crates/rucelium-federation/src/summary.rs:453-462 | with an unreachable threshold no succession recovers the identity |
| `Revocation.PeerGate.AcceptArtifact` | crates/rucelium-gateway/src/federation.rs:175-218 | the one gate: signer, peer, key, signature, then effect; a stored summary replaces that biome's previous one and no other |
| `Revocation.PeerGate.ApplyPeerRevocation` | crates/rucelium-gateway/src/federation.rs:130-158 | the five checks and the three updates |
| `Revocation.PeerGate.RegisterPeerIdentity` | crates/rucelium-gateway/src/federation.rs:101-110 | the last learned key of a biome counts |
| `Revocation.AppliesExactlyTheEffective` | crates/rucelium-gateway/src/federation.rs:130-218 | an artifact is applied iff it is a genuine revocation by a known peer of a provisioned device under a new id |
| `Revocation.GateNamesTheFirst` | crates/rucelium-gateway/src/federation.rs:175-218 | a refused artifact names the first check to fail and changes nothing |
| `Revocation.DeliveryAddsUp` | crates/rucelium-gateway/src/federation.rs:130-218 | any delivery sequence revokes exactly the devices of its set of artifacts |
| `Revocation.DeliveryConverges` | crates/rucelium-gateway/src/federation.rs:8-32 | two delivery sequences of one set end with the same devices revoked and ids applied |
| `Revocation.OrderMattersIffIdNamesTwoNodes` | crates/rucelium-gateway/src/federation.rs:146-157 | two new revocations under one id commute iff they name one device |
| `Revocation.CountIsExact` | crates/rucelium-gateway/src/federation.rs:155-157 | the counter equals the number of applied ids, one summary is kept per biome |
| `Revocation.LateProvisioningCatchesUp` | crates/rucelium-gateway/src/federation.rs:122-124 | a revocation that came before its device takes hold on redelivery |
| `Calendar.CivilFromDays` | crates/rucelium-federation/src/sensorthings.rs:312-325 | a valid date for every day |
| `Calendar.OfYearDay` | crates/rucelium-federation/src/sensorthings.rs:319-325 | month and day of a day counted from 1 March are valid |
| `Calendar.YearDayCountsBack` | crates/rucelium-federation/src/sensorthings.rs:319-325 | and count back to that day |
| `Calendar.YearOfEraIsRight` | crates/rucelium-federation/src/sensorthings.rs:315-319 | the year found contains the day, leap years included |
| `Calendar.CivilCountsBack` | crates/rucelium-federation/src/sensorthings.rs:312-325 | the date counts back to the day number |
| `Calendar.TomorrowIsOneLater` | crates/rucelium-federation/src/sensorthings.rs:312-325 | consecutive dates count one day apart |
| `Calendar.DaysTellDatesApart` | crates/rucelium-federation/src/sensorthings.rs:312-325 | no two valid dates count the same |
| `Calendar.CivilIsCounted` | crates/rucelium-federation/src/sensorthings.rs:312-325 | for every day the constant-time conversion is the Gregorian calendar counted day by day from 1970 |
| `Calendar.StampNamesTheMillisecond` | crates/rucelium-federation/src/sensorthings.rs:302-329 | every field is in range and together they name floor(ns / 10^6) milliseconds (sections 5.6 and 5.7 of RFC 3339) |
| `Calendar.TextTellsMillisecondsApart` | crates/rucelium-federation/src/sensorthings.rs:302-329 | two instants print alike iff they share their millisecond |
| `Calendar.TextReadsBack` | crates/rucelium-federation/src/sensorthings.rs:302-329 | year, month, day, hour, minute, second and millisecond stand as decimal digits in their columns, with the separators of section 5.6 of RFC 3339 |
| `Lineage.CalibrationStore.Insert` | crates/rucelium-calibration/src/store.rs:114-142 | structural checks, authority, immutability, parent or anchor |
| `Lineage.InsertNamesTheFirst` | crates/rucelium-calibration/src/store.rs:114-142 | a refused insertion names the first check to fail and changes nothing; an accepted one adds the record |
| `Lineage.CalibrationStore.Verify` | crates/rucelium-calibration/src/store.rs:166-194 | the walk to the root terminates, each record visited once |
| `Lineage.CalibrationStore.ActiveFor` | crates/rucelium-calibration/src/store.rs:200-215 | the newest usable record, none iff there is none |
| `Lineage.SucceedsIffAnchored` | crates/rucelium-calibration/src/store.rs:148-194 | success is exactly the parent path of authorised records to an anchored root |
| `Lineage.FailsIffStopped` | crates/rucelium-calibration/src/store.rs:148-194 | every error names what stops the one possible walk: cycle, missing record, authority, root without anchor |
| `Lineage.FaultNamesTheFirst` | crates/rucelium-calibration/src/store.rs:71-194 | what stops a walk is the first of cycle, unknown or missing record, signature, trust and anchor to fail |
| `Lineage.StrictPathsAreSigned` | crates/rucelium-calibration/src/store.rs:71-90 | in strict mode every record of a verified path is signed by a key trusted for its modality |
| `Lineage.PathsDoNotRepeat` | crates/rucelium-calibration/src/store.rs:169-171 | a path that ends visits no record twice |
| `Lineage.InsertAcceptsIffLineageVerifies` | crates/rucelium-calibration/src/store.rs:100-142 | insertion accepts exactly the valid records under a new id whose lineage verifies once they are in |
| `Lineage.InsertedRecordsVerify` | crates/rucelium-calibration/src/store.rs:100-142 | on stores built by insertion, in either mode, every stored record verifies |

## Left out

- NotaryLog.RunsAreGood: batch ids and leaf counts are unbounded naturals, not u64.
- NotaryLog.Renotarize: the re-notarized batch's own root signature is the same `sign_root` step as in `Seal`; key lists and timestamps of the caller are parameters.
- NotaryLog.Notary.Seal: `sign_root` edits its root in place; here a root is a value and signing returns the signed one.
- Ingest.AcceptedExactlyWhen: excludes envelopes whose latitude or longitude is `i32::MIN`, where the source's `abs()` overflows.
- Control.EveryRunPassedEveryGate: reposition targets exclude `i32::MIN` coordinates for the same reason; magnitudes are reals, so the finiteness check has no counterpart.
- Control.AtMostOnce: says nothing about a crash between the closure and the journal write, nor about a journal write that fails; `Control.OnceIffNeverReadmitted` covers the first.
- Gateways.AlwaysSoundIff: is about fsynced appends only; with `sync = false` a power loss may drop more than the model's crash points.
- Store.OpensIffReadable: a segment is a sequence of lines that decode or do not; CRC mismatches on disk and foreign files are outside.
- Outage.JsonRoundTrips: the JSON text itself is outside; hex that does not decode is one value.
- Biomes.Biome.RevokeDevice: the event's place, modality, text and signature are outside the reduced sample.
- Revocation.PeerGate.AcceptArtifact: the address and arrival time kept beside a stored summary are outside.
- Gateways.Daemon.Process: fragments and compact envelopes are dispatched before it; drift, the world graph and alerts beside it are outside.
- Gateways.Daemon.Open: opens the observation store only; the event store opens the same way beside it.
- Bus.FederationBus.RotateBiome: `effective_ns` is carried and, as in the source, enforced by nothing.
- SHA-256, ed25519, hybrid and ML-DSA signatures, serde_json and hex as code.
- Fragments, compact envelopes and their reassembly: a compact envelope is rewritten to a v1 envelope before the modelled entry point.
- Drift monitoring, the world graph, alert rules and the event store beside a datagram's way to store and biome.
- Summary statistics, SensorThings entities apart from the timestamp, disclosure and coarsening.
- The audit trail's text and the receipt's hash and signature.
- Calibration arithmetic: a correction is an arbitrary change of value, interval and quality, committed only if the sample still validates.
- HTTP, QUIC, UDP, timers and tasks: each datagram, artifact or proposal is one atomic step under the gateway's single lock.
- Filesystem errors, file-name ordering beyond a million segments, and directories written by other programs.
- Display text of errors, command-line configuration, simulators and benchmarks.
