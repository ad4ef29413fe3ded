# openmls_dart: a verified model

openmls_dart wraps the OpenMLS library for callers that own their storage: each call takes the caller's rows, works on an
in-memory snapshot, and returns one batch of changes. This project models the package's own machinery around OpenMLS in
Dafny and proves what that machinery is for. It is self-contained; `dafny verify dfyconfig.toml` checks all of it.

What is modelled, by module:

- `Preflight` - the recursive canonical-CBOR scan that precedes all typed decoding. `Cbor` holds the value trees, the one
  encoding of each, and the lenient reader.
- `NativeTypes`, `NativeDecode`, `NativeRoundTrip`, `NativeCodec` - native request frames of contract version 2: the
  encoder's checks and wire shape, the decoder, their round trip and budgets, and both as imperative code. `NativeLimits` has
  the bounds in figures, `NativeExact` exactly which frames are accepted.
- `NativeV3`, `NativeCodecV3`, `NativeExact3` - the same for contract version 3.
- `LocalGroup`, `LocalCodec`, `LocalMetadata`, `RetryRows` - the package-owned group state: the sliding window of rosters,
  its codec, and the hash-bound retry rows next to it.
- `GroupLife` - the operations on that state from creation on, each between loading the caller's rows and its batch.
- `SnapshotStorage`, `StorageBatch`, `GroupDigest` - the snapshot provider, the diff, the batch and its application, and the
  digest of a group's rows. `KeyLabels` and `KeyScopes` say what that means label by label.
- `ProposalQueue`, `QueueStorage` - the list-backed proposal queue, and the same queue as rows across batches.
- `RosterDelta`, `ExternalDelta`, `ReEntry`, `Transcripts` - the roster-delta checks and the length-prefixed transcripts.
- `TlsCursor`, `TlsShape`, `TlsGrammar`, `TlsScanner` - the TLS shape scanner for GroupInfo and external Commits, against a
  grammar of the profile.
- `EnvelopeCodec`, `EnvelopeRoundTrip`, `EnvelopeLayout`, `EnvelopeCursor`, `RotationChain`, `KeyLifecycle`,
  `ContinuityAnswers` - account-envelope bundles, the rotation chain, the life of a key, and what each answer means.
- `Kmpv`, `KmpvCodec` - the request frames of the public external-resync validator.
- `Foundation`, `Order`, `MlsTypes`, `Errors`, `ExternalErrors` - shared vocabulary.

How to read it: what a piece of code computes is written once as a function on values (byte strings, states, maps). The
code's own form - classes with fields, loops, buffers - is given by methods whose contracts equate result and new state
with those functions. The lemmas then state what the functions are for, the main ones in figures, labels and offsets rather
than through the functions themselves.

Modelling choices:

- Bytes are naturals below 256 and integers carry their width in their type; sums that the code checks for overflow are
  compared with the width's limit.
- SHA-256 is a function parameter of which nothing is assumed: claims about digests are claims about the bytes hashed.
- Ed25519 and HPKE are parameters. The one assumption, made only for honest devices, is that verification accepts what the
  matching key signs, when signing succeeds at all.
- The MLS engine is a parameter too: `GroupLife` takes from it the pending record, the resulting roster and its edits of the
  rows, and assumes of these only that they stay out of the package's reserved keys.
- The JSON text of keys and lists is a parameter of `QueueStorage`, assumed injective and read back as written; labels and
  version are modelled around it.
- A hash map is a map; where the code lists one, the listing order is arbitrary and the result is shown not to depend on it.
- The library's sort is a stable sort by key, its digest an incremental buffer, and minicbor a shortest-form writer with a
  reader that takes arguments of any width.
- A decoder or cursor is given by the bytes still to be read, or by a position where the code computes with it.
- Error strings become constructors; panics do not occur in the modelled paths.

One behaviour falls short of what the queue suggests: a proposal reference queued again while it is still listed shows the later
proposal in both places. `ProposalQueue.QueueingAppendsExactly` says exactly when queueing does append, and
`ProposalQueue.QueueingTwiceReplaces` gives the failing run.

## Model

| member | source | states |
|---|---|---|
| Preflight.AcceptsExactlyTheProfile | rust/src/native_receive_v2.rs:1582-1755 | the scan accepts a byte string exactly when it is the encoding of a value tree of the profile: unsigned integers, byte strings up to 6 MiB, arrays up to 4096, maps up to 32 with strictly increasing keys, false, true, null, depth at most 6, at most 32768 nodes and keys |
| Preflight.EncodingIsPrefixFree | rust/src/native_receive_v2.rs:1582-1755 | the tree behind an accepted string is unique, and no encoding of a tree is a proper prefix of another's |
| Preflight.PreflightCbor | rust/src/native_receive_v2.rs:1582-1593 | the whole scan, whose success means exactly that the input encodes some tree of the profile |
| Preflight.CborPreflight.Scan | rust/src/native_receive_v2.rs:1602-1663 | one value: result, bytes left and items counted are those of the recogniser; terminates on every input because the position grows |
| Preflight.CborPreflight.ScanItems | rust/src/native_receive_v2.rs:1629-1635 | the array loop, equal to reading the items one after another |
| Preflight.CborPreflight.ScanEntries | rust/src/native_receive_v2.rs:1636-1658 | the map loop with its remembered previous key |
| Preflight.CborPreflight.NextArgument | rust/src/native_receive_v2.rs:1679-1718 | an argument in its shortest form or a failure |
| NativeRoundTrip.DecodeInvertsEncode | rust/src/native_receive_v2.rs:339-512 | whenever the encoder returns a frame, decoding it gives the same request with its storage rows sorted by key |
| NativeRoundTrip.EncoderFailsOnlyOnFields | rust/src/native_receive_v2.rs:360-512 | a frame is returned exactly when all field and row checks pass: 4096 rows, 6 MiB of storage and the largest fields always fit the 12 MiB frame |
| NativeRoundTrip.ProcessWireFits | rust/src/native_receive_v2.rs:377-445 | an Application or Commit request in bounds, around any storage that fits, stays inside the scan's depth, item and map budgets |
| NativeRoundTrip.JoinWireFits | rust/src/native_receive_v2.rs:446-505 | a Welcome request in bounds, around any storage that fits, stays inside the scan's budgets |
| NativeRoundTrip.WireDecodes | rust/src/native_receive_v2.rs:339-357 | a request in bounds is decoded from its frame in whatever order its rows are sent |
| NativeLimits.CheckedExactly | rust/src/native_receive_v2.rs:360-512 | the encoder's checks pass exactly for a request whose every field is within its figure and whose rows are at most 4096 and 6 MiB, without twins, each with the group id its label demands |
| NativeExact.DecodedExactly | rust/src/native_receive_v2.rs:339-357 | a frame is decoded to a request exactly when it is the version 2 frame of that request, every field within its figure, its distinct rows sent in some order and returned sorted |
| NativeExact.EncodedExactly | rust/src/native_receive_v2.rs:360-512 | a request is encoded exactly when it is in bounds with sendable rows, and into a frame that carries it |
| NativeExact.HeaderReadExactly | rust/src/native_receive_v2.rs:800-826 | a header is read exactly off magic, version, operation, a zero byte and the payload's own length, in at most 12 MiB |
| NativeExact.ProcessIs | rust/src/native_receive_v2.rs:855-908 | what is read as an Application or Commit request is in bounds and was written as exactly that request |
| NativeExact.JoinIs | rust/src/native_receive_v2.rs:910-975 | what is read as a Welcome request is in bounds and was written as exactly that request |
| NativeExact.RowsAre | rust/src/native_receive_v2.rs:1084-1150 | rows that are read were written as exactly these rows, in bounds, of the request's group or none |
| NativeRoundTrip.HeaderReads | rust/src/native_receive_v2.rs:800-852 | reading the header of a frame gives the operation and payload it was made from |
| NativeDecode.PassesAgree | rust/src/native_receive_v2.rs:1039-1107 | over all rows the borrowed pass succeeds exactly when the owning pass does, both ending at the same byte with the same total |
| NativeDecode.PassesAgreeOnRow | rust/src/native_receive_v2.rs:1041-1083 | on one row the two passes differ only in that the borrowed one also checks the scope |
| NativeDecode.OnlyDuplicatesFail | rust/src/native_receive_v2.rs:1023-1117 | once the borrowed pass has succeeded, decoding the snapshot fails exactly when a key occurs twice, and then as an invalid snapshot |
| NativeDecode.AcceptedSnapshot | rust/src/native_receive_v2.rs:1023-1117 | an accepted snapshot is a rearrangement of the wire rows, strictly sorted, in scope, at most 4096 rows and 6 MiB |
| NativeDecode.SnapshotReads | rust/src/native_receive_v2.rs:1313-1352 | decoding an encoded snapshot gives it back in key order |
| NativeCodec.DecodeNativeRequest | rust/src/native_receive_v2.rs:339-357 | header, scan, field by field decode and the check that nothing is left, equal to the decoder of the round trip |
| NativeCodec.DecodeProcessRequest | rust/src/native_receive_v2.rs:855-908 | thirteen fields in order with their bounds, leaving what follows |
| NativeCodec.DecodeWelcomeRequest | rust/src/native_receive_v2.rs:910-975 | eleven fields in order, the tree optional |
| NativeCodec.DecodeStorageSnapshot | rust/src/native_receive_v2.rs:1023-1117 | borrowed scan on a copy of the decoder, owning pass, sort, and refusal of neighbouring equal keys |
| NativeCodec.ScanStorageEntries | rust/src/native_receive_v2.rs:1039-1083 | the first loop: sizes added up, stopping at the first row out of scope or beyond the total |
| NativeCodec.DecodeStorageEntries | rust/src/native_receive_v2.rs:1084-1107 | the second loop: rows kept in wire order |
| NativeCodec.DecodeStorageEntry | rust/src/native_receive_v2.rs:1119-1150 | one row with its bounds and its optional group id |
| NativeCodec.DecodeLeaf | rust/src/native_receive_v2.rs:985-1002 | a leaf behind its key |
| NativeCodec.DecodeExpectedRoster | rust/src/native_receive_v2.rs:1004-1021 | a roster state behind its key |
| NativeCodec.EncodeNativeRequest | rust/src/native_receive_v2.rs:360-512 | checks and writes interleaved as in the code give the frame of the specification or the first failing check |
| NativeCodec.EncodeProcessRequest | rust/src/native_receive_v2.rs:377-445 | appends exactly the encoding of the request's map, or fails with the first violated check |
| NativeCodec.EncodeWelcomeRequest | rust/src/native_receive_v2.rs:446-505 | appends exactly the encoding of the request's map, or fails with the first violated check |
| NativeCodec.EncodeStorageSnapshot | rust/src/native_receive_v2.rs:1313-1352 | sorts, refuses twins, checks every row and the total, and only then appends the snapshot |
| NativeCodec.EncodeFrameWithMax | rust/src/native_receive_v2.rs:831-853 | header and payload, or a failure beyond the limit |
| NativeV3.DecodeInvertsEncode3 | rust/src/native_receive_v3.rs:404-569 | decoding inverts encoding for all five operations up to row order, although the acceptance's incarnation id is not on the wire |
| NativeV3.RestampMeansTheSame | rust/src/native_receive_v3.rs:443-450 | any version 2 frame of operations 1 to 3, malformed ones included, decodes under version 3 to the same request or the same error |
| NativeV3.EncoderFailsOnlyOnFields3 | rust/src/native_receive_v3.rs:413-483 | only field and storage checks make the encoder fail; the frame limit never does |
| NativeV3.ExternalRoundTrip | rust/src/native_receive_v3.rs:118-167 | operation 4 comes back with both copies of the incarnation id, because validation forces them to agree |
| NativeV3.InspectRoundTrip | rust/src/native_receive_v3.rs:186-197 | operation 5 comes back with its storage sorted |
| NativeV3.AcceptanceReads | rust/src/native_receive_v3.rs:324-403 | reading an acceptance with the request's incarnation id inverts writing it without |
| NativeV3.PendingReads | rust/src/native_receive_v3.rs:250-323 | reading a pending binding inverts writing it |
| NativeV3.ExternalFits | rust/src/native_receive_v3.rs:451-482 | a checked operation 4 request, around any storage that fits, stays inside the scan's depth of 6 and its item budget |
| NativeExact3.DecodedExactly3 | rust/src/native_receive_v3.rs:484-569 | a frame is decoded to a request exactly when it is the version 3 frame of that request, in bounds and in agreement with itself, its rows in any order |
| NativeExact3.StrangeFramesAreRefused | rust/src/native_receive_v3.rs:68-87 | a frame of another version, or of an operation its version does not have, is refused under that name whatever it carries |
| NativeExact3.VersionsNeverMix | rust/src/native_receive_v3.rs:68-87 | what either version reads the other refuses as another version's |
| NativeExact3.StrangeSettingsAreRefused | rust/src/native_receive_v2.rs:855-892 | a member request whose other fields are in bounds is refused by either version for its profile, then for its retention |
| NativeExact3.EncodedExactly3 | rust/src/native_receive_v3.rs:413-483 | exactly the requests in bounds and in agreement are encoded |
| NativeExact3.ExternalCheckedExactly | rust/src/native_receive_v3.rs:118-167 | an external Commit passes exactly with one group and incarnation throughout, the next epoch, the hashes of its own Commit and associated data, and a superseded Commit of the same group, incarnation and previous state |
| NativeExact3.PendingCheckedExactly | rust/src/native_receive_v3.rs:168-185 | a pending binding passes exactly with every length and the leaf index within its figure |
| NativeExact3.InspectCheckedExactly | rust/src/native_receive_v3.rs:186-197 | an inspection passes exactly in bounds and for the current state's own group |
| NativeCodecV3.DecodeNativeRequest3 | rust/src/native_receive_v3.rs:484-569 | the decoder as written, checking public authority before any storage row is read |
| NativeCodecV3.DecodeExternal | rust/src/native_receive_v3.rs:498-534 | operation 4 field by field |
| NativeCodecV3.DecodeInspect | rust/src/native_receive_v3.rs:535-562 | operation 5 field by field |
| NativeCodecV3.DecodeAcceptance | rust/src/native_receive_v3.rs:357-403 | eleven fields, the incarnation id taken from the request |
| NativeCodecV3.EncodeNativeRequest3 | rust/src/native_receive_v3.rs:413-483 | the encoder as written, member requests being version 2 frames with two bytes overwritten |
| NativeCodecV3.EncodeExternal | rust/src/native_receive_v3.rs:451-482 | operation 4 appended entry by entry |
| NativeCodecV3.EncodeInspect | rust/src/native_receive_v3.rs:414-442 | operation 5 appended entry by entry |
| LocalGroup.LocalGroupState.AdvanceTo | rust/src/local_group_state.rs:170-186 | a failed advance changes nothing; a successful one slides the window, drops the pending record, and the validation that closes it succeeds |
| LocalGroup.LocalGroupState.RosterAt | rust/src/local_group_state.rs:187-199 | the current roster, the window's roster of that epoch, or the Future or Past error |
| LocalGroup.CheckGroup | rust/src/local_group_state.rs:119-169 | the whole validation as written, its loops over leaves, past rosters and hashes giving the first failing check |
| LocalGroup.CheckRoster | rust/src/local_group_state.rs:77-92 | lengths, the leaf loop, canonical order and the digest computed afresh, in the order of the code |
| LocalGroup.CheckHistory | rust/src/local_group_state.rs:131-138 | the history loop stops at the first roster that is bad, of another group or of the wrong epoch |
| LocalGroup.CheckPending | rust/src/local_group_state.rs:139-167 | the pending record's fields, its two loops over hashes, and what binds it to the state |
| LocalGroup.RosterMeans | rust/src/local_group_state.rs:77-92 | a roster passes exactly with fixed id and digest lengths, 1 to 256 bounded leaves in canonical order, and its own digest |
| LocalGroup.ValidMeans | rust/src/local_group_state.rs:119-169 | a state passes exactly with a supported retention, bounded ids, a good current roster, a window of consecutive good rosters of the right length, and a pending record bound to it |
| LocalGroup.SlideKeepsValid | rust/src/local_group_state.rs:170-186 | after the checks of an advance have passed, the new state is valid |
| LocalGroup.RunShape | rust/src/local_group_state.rs:102-186 | after any run from joining through successful advances, the state is valid and its history is exactly the last min(advances, retention) rosters before the current one in epoch order |
| LocalGroup.RunSucceedsExactly | rust/src/local_group_state.rs:102-186 | a run succeeds exactly for a supported retention, a bounded incarnation id and a log of valid rosters of one group with consecutive epochs |
| LocalGroup.RunAnswers | rust/src/local_group_state.rs:187-199 | after any run an epoch is answered with the roster that was current then if at most retention epochs old, else with the right error |
| LocalGroup.MessageAnswersExactly | rust/src/local_group_state.rs:187-199 | any valid state answers with its current roster, the one of its history with that epoch, or the right error, and an invalid one with what is wrong with it |
| LocalGroup.HistoryMeans | rust/src/local_group_state.rs:131-138 | the history loop accepts exactly valid rosters of the group with consecutive epochs |
| LocalGroup.EpochStore.AdvanceTo | rust/src/api/group_e2ee/pending_retention_proof.rs:126-131 | the reference bookkeeping: insert the past roster, then prune by epoch |
| LocalGroup.StoreShape | rust/src/api/group_e2ee/pending_retention_proof.rs:126-131 | the reference map holds exactly the past rosters at most retention epochs old |
| LocalGroup.WindowRefinesMap | rust/src/local_group_state.rs:170-199 | on every run the window and the reference map give the same roster for the same epoch, or both none |
| LocalGroup.InstallationsAgree | rust/src/api/group_e2ee/pending_retention_proof.rs:537-541 | two installations fed from one log, with different join points, lengths and retentions, never return different rosters for one epoch |
| LocalCodec.DecodeIffEncode | rust/src/local_group_state.rs:425-493 | decode accepts a byte string as a state exactly when encode of that state is that byte string, despite the lenient reader |
| LocalCodec.EncodeFailsOnlyOnValidation | rust/src/local_group_state.rs:379-424 | encoding fails exactly when validation does: the 2 MiB limit never binds |
| LocalCodec.ValidStatesRoundTrip | rust/src/local_group_state.rs:378-493 | every valid state survives encode and decode |
| LocalCodec.GroupSize | rust/src/local_group_state.rs:379-424 | a valid state takes at most six full rosters and 2000 bytes |
| LocalCodec.EncodingBegins | rust/src/local_group_state.rs:379-392 | a saved state begins, in literal bytes, as an array of nine items of schema 1 and profile 2 |
| LocalCodec.NothingFollows | rust/src/local_group_state.rs:475-493 | anything after a saved state is refused as noncanonical, or as too long before it is read |
| LocalCodec.StrangeNamesAreRefused | rust/src/local_group_state.rs:431-442 | a strange schema, profile or retention is refused under its own name, in that order, whatever follows it |
| LocalCodec.GroupReads | rust/src/local_group_state.rs:431-475 | the lenient reader gives back a written valid state and leaves what follows |
| LocalMetadata.EncodeState | rust/src/local_group_state.rs:379-424 | the encoder as written with its loops over leaves and rosters |
| LocalMetadata.DecodeState | rust/src/local_group_state.rs:425-493 | the decoder as written: bounded reading, validation, re-encoding and comparison |
| LocalMetadata.GroupDecode | rust/src/local_group_state.rs:431-475 | the nine items in order with their errors |
| LocalMetadata.RosterDecode | rust/src/local_group_state.rs:538-556 | a roster with its leaf loop |
| LocalMetadata.RosterEncode | rust/src/local_group_state.rs:359-371 | a roster with its leaf loop |
| RetryRows.WriteRetryRows | rust/src/local_group_state.rs:227-267 | all or nothing: rows change only when every wire matches its recorded hash, and then exactly the three wire rows |
| RetryRows.Save | rust/src/local_group_state.rs:222-226 | writes exactly the state row, or nothing |
| RetryRows.Load | rust/src/local_group_state.rs:200-221 | the answers loading may give, for any order in which the hash map lists its keys |
| RetryRows.RetryBytes | rust/src/local_group_state.rs:302-317 | the stored wires after checking them, or why not |
| RetryRows.ClearRetryRows | rust/src/local_group_state.rs:268-276 | removes exactly the three wire rows |
| RetryRows.ValidateRetryRows | rust/src/local_group_state.rs:277-301 | checks the three stored wires against the recorded hashes, commit first |
| RetryRows.LoadSucceedsExactly | rust/src/local_group_state.rs:200-221 | a state is loaded exactly when no stray reserved row exists, the state row holds its own encoding, the group is the asked one, and each wire is present exactly when its hash is recorded and matches |
| RetryRows.WrittenStateLoads | rust/src/local_group_state.rs:222-317 | after writing wires and saving, loading can only answer the same state and the retry bytes are the exact wires |
| RetryRows.ClearedStateLoads | rust/src/local_group_state.rs:222-276 | without a pending Commit, clearing and saving is loaded again as the same state |
| RetryRows.RestartsAreInvisible | rust/src/local_group_state.rs:170-226 | saving, dropping and loading around every step changes neither which runs succeed nor where they end |
| RetryRows.WiresStoredExactly | rust/src/local_group_state.rs:227-267 | wires may be stored exactly for a valid state with a pending Commit, the Commit, Welcome and GroupInfo each hashing to its own recorded hash and present exactly when that is |
| RetryRows.WiresLoadedExactly | rust/src/local_group_state.rs:277-301 | the stored wires match exactly when each, under its own key, is what the binding records, or none is there without a pending Commit |
| RetryRows.RetryBytesExactly | rust/src/local_group_state.rs:302-317 | the bytes to send again are given exactly while a Commit is pending and each stored wire is the one its binding records |
| RetryRows.StraysAnswerExactly | rust/src/local_group_state.rs:200-212 | with a stray reserved row loading answers exactly an error that some stray row explains |
| RetryRows.LoadRefusals | rust/src/local_group_state.rs:200-221 | a missing state row, and a state row of another group, each have their own refusal when no stray row exists |
| RetryRows.KeysInFull | rust/src/local_group_state.rs:44-51 | each row's key is its full name, the group id's two-byte length and the group id |
| GroupLife.Perform | rust/src/api/group_e2ee/runtime.rs:141-298 | validate, load, let the engine and the operation change the rows, save, and give back the difference; every answer it may give |
| GroupLife.Change | rust/src/api/group_e2ee/runtime.rs:535-624 | preparing, merging, discarding, superseding and receiving on the state and its retry rows, with their refusals in order |
| GroupLife.Create | rust/src/api/group_e2ee/runtime.rs:301-369 | the first batch of a group: installation rows in, engine rows and saved state out |
| GroupLife.StepSucceedsExactly | rust/src/api/group_e2ee/runtime.rs:535-624 | on a valid state each operation succeeds exactly under its stated condition and leaves a valid one; a merge that names what is pending never fails |
| GroupLife.LifeIsARun | rust/src/api/group_e2ee/runtime.rs:535-624 | whatever a device prepares, discards, loses to others or is refused, its state apart from the pending Commit is that of the plain run through the rosters it moved to |
| GroupLife.LifeAnswers | rust/src/local_group_state.rs:187-199 | in every such life a message's epoch is answered by the roster current then, at most retention epochs back, else by the right error |
| GroupLife.EveryCommitIsSettledOnce | rust/src/api/group_e2ee/runtime.rs:404-624 | accepted preparations equal accepted merges, discards and supersessions plus the one pending, which is the last prepared |
| GroupLife.HeldIsLoaded | rust/src/local_group_state.rs:200-317 | rows holding a state load as exactly that state and give its exact wires while a Commit is pending |
| GroupLife.PerformedHolds | rust/src/api/group_e2ee/runtime.rs:141-298 | one operation on the caller's rows is refused as in memory, or answered by a batch that makes the rows hold the next state |
| GroupLife.SessionIsALife | rust/src/api/group_e2ee/runtime.rs:141-298 | in every session of operations, each on the rows left by the batches before, every answer and every set of rows is that of the life lived in memory |
| GroupLife.CreationHolds | rust/src/api/group_e2ee/runtime.rs:301-369 | creation succeeds exactly for valid installation rows and a valid first state, and its batch makes the rows hold that state |
| GroupLife.PerformRefusals | rust/src/api/group_e2ee/runtime.rs:141-175 | an operation is refused for its group id, then for the rows handed over, then for want of any row of the package's own, each with its own error |
| GroupLife.CreationRefusals | rust/src/api/group_e2ee/runtime.rs:311-336 | lengths are refused first, then the retention, then the rows, each with its own error |
| GroupLife.DeviceLife | rust/src/api/group_e2ee/runtime.rs:281-640 | from creation through any session the rows load as one state, the plain run's apart from the pending Commit, whose retry bytes are exactly those it was prepared with |
| SnapshotStorage.ValidateStorageEntries | rust/src/api/storage.rs:199-230 | the first failing row decides, each row checked for repetition before scope |
| SnapshotStorage.ValidMeans | rust/src/api/storage.rs:199-230 | rows are accepted exactly when the version is 1, keys are distinct and each row carries the scope its key demands |
| SnapshotStorage.SnapshotStorageProvider.FromEntries | rust/src/snapshot_storage.rs:157-161 | initial and current rows are the collected entries |
| SnapshotStorage.SnapshotStorageProvider.IntoUpdates | rust/src/snapshot_storage.rs:164-195 | lists exactly the new or changed rows and exactly the removed keys, each once, in any order |
| SnapshotStorage.SnapshotStorageProvider.SnapshotEntries | rust/src/snapshot_storage.rs:126-143 | lists the current rows with scopes that pass validation for the group |
| SnapshotStorage.SnapshotStorageProvider.OpaqueKeysWithPrefix | rust/src/snapshot_storage.rs:94-101 | lists exactly the keys with the prefix, each once |
| SnapshotStorage.SnapshotStorageProvider.WriteOpaque | rust/src/snapshot_storage.rs:113-117 | sets one row and no other |
| SnapshotStorage.SnapshotStorageProvider.DeleteOpaque | rust/src/snapshot_storage.rs:119-123 | removes one row and no other |
| StorageBatch.BatchFromProvider | rust/src/api/storage.rs:232-285 | the batch is the same however the hash map was walked |
| StorageBatch.BatchFromUpdates | rust/src/api/storage.rs:244-285 | group rows without a group are refused; otherwise sorted scoped upserts and sorted deletes |
| StorageBatch.ListingOrderIsIrrelevant | rust/src/api/storage.rs:275-277 | any listing of the changed rows sorts to the same upserts |
| StorageBatch.RowStore.Apply | rust/src/native_receive_v1.rs:798-823 | collect, delete, upsert, drop deleted groups, list in key order |
| StorageBatch.AppliedMeans | rust/src/native_receive_v1.rs:798-823 | row by row: a row is there afterwards exactly when the batch brought it, or it was there and was neither deleted nor replaced, and its group was not dropped |
| StorageBatch.ApplyCompletesTheOperation | rust/src/native_receive_v1.rs:798-823 | the batch of an operation on validated rows, applied to them, gives exactly the rows the operation ended with, rightly scoped |
| StorageBatch.BatchFailsExactly | rust/src/api/storage.rs:249-259 | no batch exactly when a global operation ends with a group row |
| StorageBatch.BatchIsLeast | rust/src/snapshot_storage.rs:164-195 | every change of the rows to the same result contains every key and value the batch writes, with its scope if the rows end up the same, and every delete |
| StorageBatch.RowsStayValid | rust/src/api/storage.rs:199-230 | the rows an operation leaves pass validation for the next one and collect to the same map |
| StorageBatch.OperationSucceedsExactly | rust/src/api/storage.rs:199-230 | an operation of a group succeeds exactly on rows valid for it |
| StorageBatch.RunLosesNothing | rust/src/native_receive_v1.rs:798-823 | however a run's edits are cut into operations, none is refused and the folded batches give exactly the rows of all edits together |
| StorageBatch.DeletingLeavesInstallationRows | rust/src/api/storage.rs:163-175 | a batch that deletes its group leaves exactly the installation rows |
| KeyLabels.GroupLabelsAreNotInstallation | rust/src/snapshot_storage.rs:23-68 | no key under one of the fourteen group labels or the package's prefix begins with an installation label |
| KeyScopes.RowsAcceptedExactly | rust/src/api/storage.rs:199-230 | rows are accepted exactly for version 1, distinct keys, and no group id under the four installation labels, the operation's under all other keys |
| KeyScopes.InstallationRows | rust/src/api/storage.rs:199-230 | a row under KeyPackage, Psk, EncryptionKeyPair or SignatureKeyPair passes exactly without a group id, in any operation |
| KeyScopes.GroupRows | rust/src/api/storage.rs:199-230 | a row under any group label passes exactly in an operation of its group |
| KeyScopes.BatchCarriesScopes | rust/src/api/storage.rs:244-285 | a batch fails exactly when a global operation writes a group's row; it holds each changed row once with the group id its label demands, and each removed key once, both in key order |
| KeyScopes.DeletingKeepsInstallationLabels | rust/src/api/storage.rs:163-175 | deleting a group keeps exactly the rows under installation labels |
| KeyScopes.DigestTakenExactly | rust/src/api/group_e2ee.rs:1503-1524 | a digest is taken exactly of accepted rows whose number and lengths fit four bytes, and is the hash of their transcript |
| KeyScopes.DigestCoversGroupLabels | rust/src/api/group_e2ee.rs:1503-1524 | two digests feed the same bytes exactly when version, group id and the keys and values outside installation labels agree |
| Transcripts.TranscriptsBegin | rust/src/api/group_e2ee.rs:27-32 | each transcript begins, in literal bytes, with the name of what is hashed and a zero byte |
| Transcripts.TranscriptsNeverMeet | rust/src/api/group_e2ee.rs:27-32 | no roster is hashed as the bytes some group's rows are hashed as |
| GroupDigest.GroupStateDigestFromEntries | rust/src/api/group_e2ee.rs:1503-1524 | validate, filter, sort and feed as written equals the digest of the transcript |
| GroupDigest.DigestCoversExactly | rust/src/api/group_e2ee.rs:1503-1524 | two validated snapshots feed the same bytes exactly when version, group id and the set of group keys and values agree; row order and installation rows never matter |
| Transcripts.GroupTranscriptInjective | rust/src/api/group_e2ee.rs:1514-1523 | the group transcript determines version, group id and rows, and conversely |
| Transcripts.RosterTranscriptInjective | rust/src/api/group_e2ee.rs:1485-1501 | the roster transcript determines group id, epoch and leaves |
| Transcripts.RosterDigest | rust/src/api/group_e2ee.rs:1485-1501 | the private version hashes the roster transcript, or fails when a length needs more than four bytes |
| Transcripts.PublicRosterDigest | rust/src/external_resync/public.rs:54-67 | the independently written public version hashes the same transcript |
| Transcripts.Hasher.UpdatePrefixed | rust/src/api/group_e2ee.rs:1546-1550 | feeds the four-byte length and the bytes, or nothing |
| RosterDelta.ValidateCanonicalLeaves | rust/src/api/group_e2ee.rs:1466-1483 | the loop as written with its set of identities and set of keys, ending with the refusal of the first leaf that deserves one |
| RosterDelta.CanonicalExactly | rust/src/api/group_e2ee.rs:1466-1483 | leaves are accepted exactly with ascending indexes and no repeated identity or signature key |
| RosterDelta.ValidateExactDelta | rust/src/api/group_e2ee.rs:1692-1742 | the check as written, over maps it takes matched leaves and requests out of, ending with the first refusal for any two rosters |
| RosterDelta.AcceptsExactlyTheDelta | rust/src/api/group_e2ee.rs:1692-1742 | for canonical rosters, accepts exactly the same group one epoch later whose leaves are the retained ones unchanged plus each requested addition once at an index no retained leaf holds |
| RosterDelta.LastEpochOverflows | rust/src/api/group_e2ee.rs:1692-1705 | no roster follows one of the last epoch, and that is the error |
| RosterDelta.TallyDecides | rust/src/api/group_e2ee.rs:1731-1740 | the pigeonhole step: with all requests matched, the leaf count is right exactly when no retained leaf is missing |
| RosterDelta.ValidateRemovals | rust/src/api/group_e2ee.rs:1616-1640 | the loop as written with its set of indexes, ending with the first refusal |
| RosterDelta.RemovalsAcceptExactly | rust/src/api/group_e2ee.rs:1616-1640 | accepts exactly removals that each name one active leaf in all three parts, no index twice |
| ExternalDelta.AcceptsExactlyReplacements | rust/src/api/group_e2ee/runtime/external.rs:93-127 | acceptance means resulting = previous minus old plus new as sets, for fresh identity and key, one epoch later, with the right digest |
| ExternalDelta.ChainKeepsRosters | rust/src/api/group_e2ee/runtime/external.rs:93-127 | along every chain of accepted replacements rosters stay canonical and keep size and group while epochs count up |
| ReEntry.ReEntryAcceptedExactly | rust/src/api/group_e2ee/runtime/external.rs:93-127 | with every quantifier spelled out: no previous leaf has the new key, none but the outgoing one its identity; leaf for leaf only the outgoing one went and the incoming one came; next epoch, own digest |
| ReEntry.SuccessorAcceptedExactly | rust/src/external_resync/public.rs:163-185 | the public roster checks pass with a new leaf exactly for the same exchange into the next epoch |
| ReEntry.SameIdentityMayReturn | rust/src/external_resync/public.rs:170-180 | the participant of the outgoing leaf may return under a fresh key |
| ReEntry.AcceptedInAnyCase | rust/src/api/group_e2ee/runtime/external.rs:93-127 | whatever the previous roster, acceptance shows the outgoing leaf gone, the incoming one once, all others kept |
| ExternalDelta.PublicRoster | rust/src/external_resync/public.rs:29-76 | the member loop as written, with the first of its errors, and the roster sorted by index |
| ExternalDelta.MembersDerivable | rust/src/external_resync/public.rs:29-50 | members are accepted exactly when at most 256, bounded, and without a repeated identity or key |
| ExternalDelta.PublicAgreesWithPrivate | rust/src/external_resync/public.rs:238-267 | whenever the public roster checks pass, for one group and distinct indexes, the private check accepts the same replacement |
| QueueStorage.QueueProposal | rust/src/snapshot_storage.rs:448-469 | writes the row, reads the list after it, and writes it back with the reference at the end, or finds it unreadable |
| QueueStorage.RemoveProposal | rust/src/snapshot_storage.rs:865-884 | deletes the row and takes the first occurrence of the reference off the list, if there is a list |
| QueueStorage.ClearProposalQueue | rust/src/snapshot_storage.rs:963-983 | deletes the rows of the listed references one by one and then the list |
| QueueStorage.QueuedProposals | rust/src/snapshot_storage.rs:682-708 | the listed references that have a row, in list order |
| QueueStorage.ReadList | rust/src/snapshot_storage.rs:361-386 | popping from the end and turning round gives the stored list in order |
| QueueStorage.KeysInjective | rust/src/snapshot_storage.rs:203-219 | the two kinds of keys never meet, and within a kind differ whenever group or reference do |
| QueueStorage.KeysInFull | rust/src/snapshot_storage.rs:203-219 | each key is its label, the serialised group or pair, and the two version bytes |
| QueueStorage.StepRepresented | rust/src/snapshot_storage.rs:341-469 | on rows that represent a queue each operation's edits succeed and give rows that represent the queue after it |
| QueueStorage.QueuedRepresented | rust/src/snapshot_storage.rs:682-708 | what is read from such rows is the queue's visible proposals |
| QueueStorage.QueueSurvivesBatches | rust/src/snapshot_storage.rs:341-469 | however a run of queue operations and edits of other rows is cut into storage operations, none is refused, and the queue read from the rows the caller kept is the one all of them together make: the live queue when no reference is queued while live |
| QueueStorage.QueueEditsAreOutside | rust/src/snapshot_storage.rs:62-64 | the queue's edits stay out of the package's reserved keys, so the group's metadata survives them |
| ProposalQueue.RunsStayTracked | rust/src/snapshot_storage.rs:341-469 | in every run from an empty queue every stored row has its reference in its group's list |
| ProposalQueue.ClearLeavesNothingOfTheGroup | rust/src/snapshot_storage.rs:963-983 | after any run, clearing leaves no row and no list of the group and everything of the others |
| ProposalQueue.StoredQueueIsLive | rust/src/snapshot_storage.rs:682-708 | when no reference is queued while live, the queued proposals are exactly the live queue in order |
| ProposalQueue.QueueingAppendsExactly | rust/src/snapshot_storage.rs:448-469 | queueing shows the new proposal after the old ones exactly when its reference is not listed or already has this very proposal |
| ProposalQueue.QueueingTwiceReplaces | rust/src/snapshot_storage.rs:448-469 | the failing case: one reference queued twice shows the later proposal in both places |
| ProposalQueue.RemovingDropsExactly | rust/src/snapshot_storage.rs:865-884 | removing takes every visible proposal of the reference and nothing else, whatever was queued before |
| ProposalQueue.OtherGroupsAreUnaffected | rust/src/snapshot_storage.rs:341-410 | no operation on one group shows in another |
| TlsCursor.VectorInvertsHeader | rust/src/external_resync/preflight.rs:24-42 | the vector reader accepts exactly the shortest length header and that many bytes (section 2.1.2 of RFC 9420) |
| TlsCursor.Cursor.Vector | rust/src/external_resync/preflight.rs:24-42 | the shifting loop and its three refusals |
| TlsCursor.Cursor.Exact | rust/src/external_resync/preflight.rs:43-48 | a vector of one length, left at the byte after it |
| TlsGrammar.GroupInfoAcceptedExactly | rust/src/external_resync/preflight.rs:143-190 | a byte string is accepted as GroupInfo exactly when it is the printed form of one within the profile |
| TlsGrammar.CommitAcceptedExactly | rust/src/external_resync/preflight.rs:191-242 | likewise for external Commits: one inline ExternalInit, one inline Remove, path depth at most 8 (section 12.4.3.2 of RFC 9420) |
| TlsGrammar.GroupInfoIsPrefixFree | rust/src/external_resync/preflight.rs:143-190 | no accepted GroupInfo is a proper prefix of another |
| TlsGrammar.CommitIsPrefixFree | rust/src/external_resync/preflight.rs:191-242 | no accepted external Commit is a proper prefix of another |
| TlsGrammar.LeafIsRead | rust/src/external_resync/preflight.rs:72-96 | an accepted leaf is the printed form of a leaf within the profile |
| TlsGrammar.NodesAreRead | rust/src/external_resync/preflight.rs:105-137 | accepted tree nodes are at most 511 printed nodes with at most 256 leaves |
| TlsGrammar.PathIsPrinted | rust/src/external_resync/preflight.rs:243-266 | an accepted update path is at most 8 printed nodes of at most 256 recipients |
| TlsScanner.ScanGroupInfoBytes | rust/src/external_resync/preflight.rs:143-190 | the GroupInfo scan as written, equal to the reader without its value |
| TlsScanner.ScanCommitBytes | rust/src/external_resync/preflight.rs:191-242 | the external Commit scan as written |
| TlsScanner.ScanTree | rust/src/external_resync/preflight.rs:97-142 | the tree loop with its node and leaf counters |
| TlsScanner.ScanUpdatePath | rust/src/external_resync/preflight.rs:243-266 | the path loop with its nested recipient loop |
| TlsScanner.ScanLeaf | rust/src/external_resync/preflight.rs:72-96 | a leaf, left at the byte after it |
| TlsScanner.ScanExtensions | rust/src/external_resync/preflight.rs:57-71 | the extension loop with its counter |
| EnvelopeRoundTrip.CompleteParsesExactly | rust/src/api/account_envelope/codec.rs:181-209 | a public bundle is accepted exactly when it is the encoding of well-formed fields of a shape its activation kind allows |
| EnvelopeRoundTrip.CandidateParsesExactly | rust/src/api/account_envelope/codec.rs:211-231 | a rotation candidate is accepted exactly when it encodes a well-formed rotation without transition signature |
| EnvelopeRoundTrip.PrivateParsesExactly | rust/src/api/account_envelope/codec.rs:30-116 | a private bundle is accepted exactly when it encodes well-formed fields with a signing key just while active |
| EnvelopeLayout.CompleteAcceptedExactly | rust/src/api/account_envelope/codec.rs:181-209 | byte by byte: a public bundle is accepted exactly when each field lies at its offset, the suite is the fixed one, the account is a UUID, keys are not zero, and generation, predecessor and reason fit the kind |
| EnvelopeLayout.CandidateAcceptedExactly | rust/src/api/account_envelope/codec.rs:211-231 | byte by byte, for rotation candidates |
| EnvelopeLayout.PrivateAcceptedExactly | rust/src/api/account_envelope/codec.rs:60-116 | byte by byte, for private bundles of 187 bytes while active and 155 once retired |
| EnvelopeLayout.ConditionsMean | rust/src/api/account_envelope/codec.rs:282-311 | the shape of each kind and the conditions on fields, in figures |
| EnvelopeCursor.ParseCompletePublicBundle | rust/src/api/account_envelope/codec.rs:181-209 | the parser as written over a moving position |
| EnvelopeCursor.ParsePublicBundleTbs | rust/src/api/account_envelope/codec.rs:233-280 | the signed part as written, with its order of errors |
| EnvelopeCursor.ParseRotationCandidate | rust/src/api/account_envelope/codec.rs:211-231 | the candidate parser as written |
| EnvelopeCursor.DecodePrivateBundle | rust/src/api/account_envelope/codec.rs:60-116 | the private parser as written |
| EnvelopeCursor.EncodePublicBundleTbs | rust/src/api/account_envelope/codec.rs:118-145 | filling the fixed buffer by position gives the encoding of the fields |
| EnvelopeCursor.WriteBytes | rust/src/api/account_envelope/codec.rs:312-316 | copies behind what has been written and nowhere else |
| RotationChain.VerifyContinuityResponse | rust/src/api/account_envelope/mod.rs:209-243 | the total, the cap and the two kinds of response |
| RotationChain.VerifyContinuityFromPin | rust/src/api/account_envelope/mod.rs:245-328 | the chain loop as written |
| RotationChain.AuthorizeSuccessorBundle | rust/src/api/account_envelope/mod.rs:124-178 | authorisation as written, ending with the predecessor retired |
| RotationChain.ChainAcceptedExactly | rust/src/api/account_envelope/mod.rs:245-328 | a response is accepted as a chain exactly when its 1 to 32 bundles are self-signed, consecutive, of the pinned account, and each signed by the one before; the answer is the last bundle |
| RotationChain.ChainsComposeAndSplit | rust/src/api/account_envelope/mod.rs:280-327 | a chain is accepted exactly when both parts are, moving the pin to the end of the first |
| RotationChain.InitialArmIsUnreachable | rust/src/api/account_envelope/mod.rs:319-319 | a bundle that follows another is never an initial one, and a following rotation always carries a transition signature |
| RotationChain.ByteCapNeverBinds | rust/src/api/account_envelope/mod.rs:214-221 | whatever is accepted without the byte cap is at most 32 times 256 bytes, so the cap changes no accepted answer |
| ContinuityAnswers.FirstObservedExactly | rust/src/api/account_envelope/mod.rs:222-235 | without a pin, exactly one self-signed bundle is taken, without the operator's word, as a first observation |
| ContinuityAnswers.ReanchoredExactly | rust/src/api/account_envelope/mod.rs:250-268 | with the operator's word, exactly one self-signed bundle of the account of a self-signed pin is taken, as a re-anchoring |
| ContinuityAnswers.UnchangedExactly | rust/src/api/account_envelope/mod.rs:269-275 | an empty response leaves exactly a self-signed pin unchanged |
| ContinuityAnswers.FollowedExactly | rust/src/api/account_envelope/mod.rs:276-328 | any other response is taken exactly as 1 to 32 rotations, each of the next generation and signed by the key before, or as a lone reset; the answer is the last bundle with its own summary |
| ContinuityAnswers.OversizedIsRefused | rust/src/api/account_envelope/mod.rs:214-221 | more than 64 KiB is refused first |
| ContinuityAnswers.ContinuityRefusals | rust/src/api/account_envelope/mod.rs:222-292 | of self-signed bundles, a wrong number, another account's bundle for a re-anchoring, and a first link that is not the pin's next generation are refused, each under its own name |
| ContinuityAnswers.AuthorisedExactly | rust/src/api/account_envelope/mod.rs:124-178 | authorising succeeds exactly for the expected active predecessor and a self-signed rotation of its account into the next generation, when the signature is made and verifies; the successor is that candidate with the signature |
| ContinuityAnswers.StrangersAreRefused | rust/src/api/account_envelope/mod.rs:124-178 | a candidate its own key signed, of another account or not of the next generation, is refused as an authority mismatch |
| ContinuityAnswers.CreatedExactly | rust/src/api/account_envelope/mod.rs:67-122 | creating succeeds exactly for the device's own account and generation, an allowed shape and a signature that is made, and yields exactly those fields with the device's own keys |
| ContinuityAnswers.UsableMeans | rust/src/api/account_envelope/mod.rs:493-507 | a private bundle loads exactly when it decodes, has the expected authority, is active if asked for, and passes its key tests |
| ContinuityAnswers.PurposesNeverMeet | rust/src/api/account_envelope/crypto.rs:15-24 | nothing signed or hashed for one purpose is a message of another |
| ContinuityAnswers.SignedExactly | rust/src/api/account_envelope/crypto.rs:136-149 | a message is signed exactly within 4096 bytes and when the primitive gives 64 |
| KeyLifecycle.HonestRunsVerify | rust/src/api/account_envelope/mod.rs:67-178 | bundles that honest devices create and authorise, starting at an initial or reset bundle, are accepted as a chain of up to 32 rotations from the first; they exist exactly when every signature asked for is made |
| KeyLifecycle.HonestRunsChain | rust/src/api/account_envelope/mod.rs:67-178 | honest creation and authorisation succeed exactly when the signing primitive answers each time, however long the line of devices, and then form a chain |
| KeyLifecycle.AuthorizingRetires | rust/src/api/account_envelope/mod.rs:167-172 | what authorising gives back is the predecessor without its signing key, and it loads as such |
| KeyLifecycle.AuthorizedBytesNeverSign | rust/src/api/account_envelope/mod.rs:493-507 | the bytes an authorisation gives back load for decryption and never as active, for any authority; so neither creating nor authorising a public bundle takes them |
| KeyLifecycle.OneSuccessorAtMost | rust/src/api/account_envelope/mod.rs:124-178 | a device that keeps what authorising gives back authorises at most one successor over any sequence of attempts, and can always decrypt |
| KeyLifecycle.RetiringForgetsExactlyTheKey | rust/src/api/account_envelope/mod.rs:167-172 | two active bundles retire to the same bytes exactly when they agree on everything but the signing key |
| KeyLifecycle.ResetReportedExactly | rust/src/api/account_envelope/mod.rs:306-318 | a reset is reported exactly when it is the whole response, self-signed, of the same account and the next generation |
| Kmpv.DecodeIffEncode | rust/src/external_resync/codec.rs:124-178 | decoding accepts exactly the frames the encoder makes of requests whose fields are in bounds |
| Kmpv.DecodedExactly | rust/src/external_resync/codec.rs:138-178 | byte by byte: a frame is decoded to a request exactly when it is laid out so around that request's payload, and the request is in bounds |
| Kmpv.EncodeNeverHitsTheLimit | rust/src/external_resync/codec.rs:124-137 | the 4 MiB limit never stops a request whose fields are in bounds |
| KmpvCodec.DecodeRequest | rust/src/external_resync/codec.rs:138-178 | the decoder as written: header, fields, end, and comparison with the rewritten payload |
| KmpvCodec.EncodeRequest | rust/src/external_resync/codec.rs:124-137 | the encoder as written |
| KmpvCodec.WritePayload | rust/src/external_resync/codec.rs:87-112 | the payload of either request |

## Left out

- OpenMLS itself, HPKE, Ed25519 and SHA-256 internals, JNI and C entry points, Flutter bridge types, example apps, harnesses,
  fixture generators and file stores: foreign code or I/O.
- Zeroization, `Drop` and `catch_unwind`: they do not change the modelled values.
- Native and KMPV responses and their encoders: they are never scanned, and their largest batches exceed the scan's budget.
- Decoding a native frame and encoding the result again: the decoder sorts rows and skips the encoder's check of installation
  keys, so only encode-then-decode is an identity.
- What runtime operations check against the MLS engine, the caller's context and size bounds before and after the package's own
  state is concerned (signers, wire hashes, base digests, pending engine state), candidate validation, and the external
  operations beyond the delta checks, with the binding's plain length checks: these can only refuse more, and call code that is not
  part of this model.
- Sealing an invitation (`seal_context_invitation_preview_v1`): it signs with a private bundle loaded as active, which
  `KeyLifecycle.NeverActive` rules out for retired ones, but the operation itself is not modelled.
- Invitations: their text rules are Unicode normalisation and case folding, a library and a table.
- JSON text of storage keys and values, which is taken not to fail when written; nothing is said about epoch key pairs, whose
  key concatenates three texts.
- Snapshot accessors of OpenMLS objects other than the proposal queue: plain reads, writes and deletes of one row each.
- RetryRows.Load: with several stray reserved rows the contract allows either error, because the hash map's order decides.
- RotationChain.VerifyContinuityResponse: the sum of lengths is unbounded, so the code's overflow check of it is not modelled.
