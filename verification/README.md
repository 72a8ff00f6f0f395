# Verification model of the WM-002 Q1 evidence pipeline

The Q1 pipeline of `bench/active_acquisition` runs an experiment once. A parent process claims a durable marker,
starts producer and restore workers, merges and validates what they wrote, publishes it with one move and finalizes
the marker. An auditor, written separately, then re-reads everything in one pass and issues a verdict. This project
models that pipeline in Dafny and proves what its parts promise each other:

| file | what it is about |
|---|---|
| `AttemptRegistry.dfy` | the marker file: claim, finalize and load by any number of processes that may die, on a machine that may lose power |
| `AttemptIo.dfy` | the registry's write and read loops over short writes and reads |
| `Orchestration.dfy` | the parent process of one attempt, its children, publication and failure handling |
| `Workers.dfy` | quiescence, waiting, the bounded restore-lane runner, bounded output capture |
| `Frames.dfy` | the length-prefixed checkpoint frames |
| `Merge.dfy` | merging worker sidecars with re-offsetting |
| `Consolidation.dfy` | ordinals and keys, and the producer's lockstep validator |
| `Violations.dfy` | the auditor's truncating violation accumulator |
| `AuditStream.dfy` | the auditor's single hashing pass over five files |
| `AuditVerdict.dfy` | gates, accepted prefix, comparisons, and the validator of the built artifact |
| `Identifiers.dfy` | global uniqueness of record identities from per-row checks |
| `Base64.dfy`, `PrivacyScanner.dfy` | the private-prefix scanner |
| `SemanticKeys.dfy`, `Schedule.dfy`, `Draws.dfy` | the private keys, the balanced schedule, exact draws, episode returns |
| `Oracle.dfy` | exact decision theory over every prior |
| `Information.dfy` | Prospect's own information values, from beliefs over any number of hypotheses and likelihoods |
| `Arms.dfy` | diagnosis of the acquisition actions, every arm's scores and what they select |
| `EpisodeCheck.dfy` | the auditor's semantic check of one episode, inside the streaming pass |
| `Publication.dfy` | from merged and accepted files, printed line by line, to the auditor's pass over them |
| `PosteriorCodec.dfy` | the posterior-model document and its two decoders |
| `Restart.dfy` | identity counters, checkpoint, and the live or restored terminal step |
| `Wrappers.dfy` | Option and Result |

SHA-256, HMAC, JSON text, the square root, the natural logarithm and every remaining schema or field check that only
looks at one row are function parameters: nothing is assumed of them beyond being functions, except where a lemma says
so (JSON text that was printed is parsed back; digests lie below the size of the digest space; the root of the number
of masters is two; the logarithm turns products into sums and lies below its tangent at one).
Operating-system events (short reads, exits, timeouts, crashes, power loss) are arbitrary answers or arbitrary steps.
Arithmetic is over integers and reals.

## What turned out not to hold as stated

* `finalize_attempt` promises to finalize "atomically" and "exactly once" (`bench/active_acquisition/attempt.py:242`).
  A loader can be handed a completed marker that a power loss then reverts, after which a second finalization
  succeeds: a finalizer that dies between its rename and the directory fsync leaves both directory entries possible
  (`bench/active_acquisition/attempt.py:396-403`). `PowerLossRevertsCompleted` is such a run, `PowerLossUndoes` says
  exactly from which states a power loss can undo anything, and without power losses the status only moves forward
  (`CrashesOnlyMoveForward`).
* The comment in `_record_identifier_violations` (`bench/active_acquisition/q1_audit.py:3105-3107`) derives global
  uniqueness from namespaces and within-row uniqueness alone. That is not enough: `UnboundRunsCollide` gives, for any
  two keys, two whole rows that both pass and share every identity because the run id of one extends the namespace of
  the other. Two accepted rows of any runs and keys can share an identity exactly when the namespace of one extends that
  of the other (`SharedIdentity`). With the run id bound by the other row check uniqueness does hold, over everything a
  violation-free pass has read (`CleanRunIsUnique`).
* `seeding.py` calls its semantic keys canonical (`bench/active_acquisition/seeding.py:1-7`, and the messages of
  `_semantic_key`, `bench/active_acquisition/seeding.py:667-680`). They are not injective in their inputs: an integer
  and its decimal string give one key (`RenderingsCollide`). Nothing else is confused: two accepted inputs give one key
  exactly when namespaces and names agree and every value is equal, or one is an integer and the other its decimal text
  (`SameKeyExactly`), and on the draws that are used keys are injective (`KeysIdentifyDraws`).
* `_merge_worker_outputs` refuses a sidecar that "contains trailing bytes"
  (`bench/active_acquisition/q1.py:2141-2142`). The check does not force a lane to be merged whole: an index that skips
  a frame passes and the frame is dropped (`SkippedFrameIsDropped`), and one that reads a frame twice passes even where
  the merged frames equal the sidecar (`RereadFramePasses`). Among the lanes that the merge takes, exactly those whose
  index leaves no gap, each entry starting where the one before it ends, are what a producer writes, frames back to
  back and every one of them indexed (`LaneIsWholeExactly`).
* The module comment of the scanner promises to find base64 representations that encode at least 16 private bytes
  (`bench/active_acquisition/q1_audit_privacy.py:7-11`). An encoding of any bytes, in either alphabet, padded or not and
  cut anywhere, is found at a character exactly if the 16 bytes that start at that character's bits are an indexed
  prefix and no lone `=` with another alphabet character follows its 22 characters (`EncodingFoundExactly`); a text that
  is nothing but an encoding holds no other finds (`NothingElseIsFound`). So there are two kinds of misses. A value
  encoded behind a multiple of three other bytes is found except for the lone `=` (`EncodingsAreFound`), which can only
  stand where the encoding was cut or never padded, and of which `LonePadIsMissed` is an example. A value behind one or
  two bytes more does not start at a character of its own: `MisalignedIsMissed` gives such encodings, in either alphabet
  and padded or not, that do not leak.
* `encode_posterior_model` and `decode_posterior_model` share one canonical form
  (`bench/active_acquisition/runtime_lane.py:156-186`), but the encoder accepts models with blank identifiers, which the
  decoder refuses (`BlankIdentifierIsRefused`): decoding undoes encoding exactly for the others (`DecodeEncode`).
* The comment above the counter bound expects 43 identities before the terminal step, or 46 with the rollback probe
  (`bench/active_acquisition/checkpoint.py:52-54`). The auditor accepts a checkpoint only with no abandoned learning
  attempt (`AuditorAcceptsExactly`), and a checkpoint can be read back for at most seven of them
  (`RollbacksWithinBound`).
* The frozen actions of the arms (`bench/active_acquisition/q1.py:141-148`) are what the arms' scores select exactly
  for priors above 7/20 and up to 23/40 (`FrozenExactly`), so at the prior one half of every fresh episode but not for
  every prior the assessor accepts.

## Model

| member | source | states |
|---|---|---|
| AttemptRegistry.StepGood | bench/active_acquisition/attempt.py:191-411 | every system call, death and power loss keeps the full registry invariant: disk, lock holders and history agree |
| AttemptRegistry.RunGood | bench/active_acquisition/attempt.py:191-411 | the invariant holds after every run of any number of claimers, finalizers and loaders |
| AttemptRegistry.OneClaimOneFinalization | bench/active_acquisition/attempt.py:191-279 | at most one claim and at most one finalization ever return successfully, whatever identities compete and whatever dies |
| AttemptRegistry.ClaimIsForever | bench/active_acquisition/attempt.py:207-231 | once a claim has returned the marker is never absent or partial again and is never created again, power losses included |
| AttemptRegistry.FinalizationIsForever | bench/active_acquisition/attempt.py:261-279 | once a finalization has returned its document no later run changes or replaces it |
| AttemptRegistry.CrashesOnlyMoveForward | bench/active_acquisition/attempt.py:191-411 | without power loss the status moves only absent, partial, started, final, and a final document is what every later loader gets |
| AttemptRegistry.CrashesNeverReopenTheClaim | bench/active_acquisition/attempt.py:207-231 | without power loss the marker is created at most once, exists exactly if it was created, and is replaced at most once |
| AttemptRegistry.FinalDocumentsAreWhole | bench/active_acquisition/attempt.py:368-411 | at every point of every run a visible completed or failed document is whole and on stable storage |
| AttemptRegistry.FinalizerSeesWholeDocuments | bench/active_acquisition/attempt.py:245-279 | a finalizer sees the whole old document until its rename and the whole new one after, so its signature check and its reload never fail |
| AttemptRegistry.StaleTempOnlyAfterDeath | bench/active_acquisition/attempt.py:374-378 | a leftover temporary file blocks a finalization only after a death or power loss, and the marker is untouched |
| AttemptRegistry.StepSees | bench/active_acquisition/attempt.py:282-366 | a loader is handed exactly the complete document that is visible when it reads |
| AttemptRegistry.PowerLossUndoes | bench/active_acquisition/attempt.py:396-411 | a power loss can lower the status exactly when the directory was not synced since the last entry change, or the started document is not yet durable |
| AttemptRegistry.ClaimableAgain | bench/active_acquisition/attempt.py:212-230 | a step can make a visible marker disappear exactly before the first directory fsync, when no claim has returned |
| AttemptRegistry.PowerLossRevertsCompleted | bench/active_acquisition/attempt.py:396-411 | a concrete run in which a loader saw "completed" and yet the only finalization that returns is "failed" |
| AttemptIo.WriteAll | bench/active_acquisition/attempt.py:523-529 | over any short writes, the whole payload is written or a write made no progress and a proper prefix was |
| AttemptIo.ReadBounded | bench/active_acquisition/attempt.py:500-508 | over any short reads, the rest of the file is returned exactly when it fits the limit |
| AttemptIo.WriteThenRead | bench/active_acquisition/attempt.py:500-529 | a completely written document is read back completely; an incomplete one is read back as the proper prefix it is |
| Orchestration.StepInv | bench/active_acquisition/q1.py:1228-1442 | every step of the parent, from the claim on and before the incomplete directory exists, and every exit of a child, keeps the invariant of the attempt |
| Orchestration.FailedMeansQuiet | bench/active_acquisition/q1.py:2641-2713 | a failed marker means that every child ever created was seen to exit, and preserved output is under the incomplete name |
| Orchestration.UnprovenChildBlocksFinalization | bench/active_acquisition/q1.py:2652-2656 | while any child is unproven the marker is started, never completed or failed |
| Orchestration.CompletedMeansPublished | bench/active_acquisition/q1.py:1228-1272 | a completed marker means all 32 children exited zero, one no-replace publication happened, and the marker holds the digests of the six published files |
| Orchestration.FinalMarkerStays | bench/active_acquisition/q1.py:2673-2713 | a final marker never changes again, nor does a completed attempt's output |
| Orchestration.LanesAreBounded | bench/active_acquisition/q1.py:3777-3844 | at most four lanes are unfinished, and the parent waits only with the pool full or all lanes started |
| Orchestration.StepMovesMarker | bench/active_acquisition/q1.py:1228-1280 | a step of the attempt leaves its marker, or moves it from unclaimed to started, or from started to completed or failed |
| Orchestration.RegistryMovesMarker | bench/active_acquisition/attempt.py:191-411 | while the power stays on, a system call on the marker file moves what the file says only in those same ways |
| AttemptRegistry.FinalizationIsReached | bench/active_acquisition/attempt.py:234-279 | every finalization of a claim that its arguments allow can return, by a run of system calls without a death or a power loss |
| Orchestration.StepIsRealised | bench/active_acquisition/q1.py:1228-1280 | every step of an attempt is matched by system calls on the marker file that lead from the state in which the file says what the marker is to the one in which it says what the marker becomes |
| Orchestration.AttemptIsRealised | bench/active_acquisition/q1.py:1228-1280 | the marker file's system runs along with every run of an attempt and agrees with its marker |
| Workers.Supervisor.Poll | bench/active_acquisition/q1.py:3627-3640 | a child reads as live exactly if it was not proven exited, and once proven it stays so |
| Workers.Supervisor.Quiesce | bench/active_acquisition/q1.py:3642-3721 | exactly the children not proven exited are returned, each was sent terminate and then kill, and only live children were signalled |
| Workers.Supervisor.WaitExact | bench/active_acquisition/q1.py:3744-3775 | returns normally exactly when every child ends well; otherwise the error says whether a child is unproven |
| Workers.Supervisor.RunBounded | bench/active_acquisition/q1.py:3777-3844 | never more than the limit active, started launches are a prefix each started once, nothing starts after the first failure, the outcome is the closed form, and it terminates |
| Workers.WalkStops | bench/active_acquisition/q1.py:3777-3844 | the numbers of started and finished launches at the stopping event are determined, and everything before it went well |
| Workers.RunSucceedsExactly | bench/active_acquisition/q1.py:3777-3844 | the runner returns normally exactly when every launch starts and ends well |
| Workers.BoundedCapture.Record | bench/active_acquisition/q1.py:454-465 | tail, saturating count and overflow flag are those of the whole stream drained so far, however it was chunked |
| Frames.UnpackPack | bench/active_acquisition/q1.py:974-984 | the big-endian header decodes to the length it was made from |
| Frames.PackUnpack | bench/active_acquisition/q1.py:1120-1125 | every header is the packing of the length it declares |
| Frames.AppendFrame | bench/active_acquisition/q1.py:974-984 | appends exactly one frame and returns its offset and length, or refuses an empty or oversized payload and writes nothing |
| Frames.ReadFrame | bench/active_acquisition/q1.py:1107-1129 | the stateful reader computes ReadAt and leaves the stream behind the frame |
| Frames.ReadAtExactly | bench/active_acquisition/q1.py:1107-1129 | an indexed read yields a payload exactly when that payload's frame stands at the offset |
| Frames.ConcatReads | bench/active_acquisition/q1.py:974-1129 | every frame of a file of frames is read back at its own offset |
| Frames.FramesFill | bench/active_acquisition/q1.py:2206-2230 | frames that read at their own places and end where the file ends are the whole file |
| Frames.UniqueParse | bench/active_acquisition/q1.py:974-1129 | a file is the concatenation of at most one sequence of storable payloads |
| Merge.Merger.CopyFrame | bench/active_acquisition/q1.py:2130-2140 | one indexed frame is appended and indexed at its new offset, or the read error is the result |
| Merge.Merger.MergeLane | bench/active_acquisition/q1.py:2124-2143 | a lane adds all its frames, rows and restored rows in order, or fails on a bad frame or a trailing byte |
| Merge.Merger.MergeAll | bench/active_acquisition/q1.py:2106-2143 | the whole merge is the specified fold over masters and arms, and the output file is always the frames its index names |
| Merge.AddFramesAre | bench/active_acquisition/q1.py:2128-2142 | copying frame by frame adds exactly the payloads the lane's index reads, or stops with the first error |
| Merge.MastersAddAllLanes | bench/active_acquisition/q1.py:2122-2143 | merging master by master adds all lanes one after the other, independently of the copied rows |
| Merge.MergePreservesContent | bench/active_acquisition/q1.py:2106-2143 | for any lane budget and payloads the merge succeeds, offsets are contiguous from 0, and every merged entry reads back the original payload in order |
| Merge.ContiguousLaneIsWhole | bench/active_acquisition/q1.py:2128-2142 | a lane whose index entries start at the producer's offsets loses nothing: its merged frames are its whole sidecar |
| Merge.LaneIsWholeExactly | bench/active_acquisition/q1.py:2128-2142 | a lane that the merge takes is a producer's, whole and wholly indexed, exactly when each index entry starts where the one before it ends, the first at 0 |
| Merge.RereadFramePasses | bench/active_acquisition/q1.py:2141-2142 | an index that reads one of two equal frames twice passes the trailing-byte check and its merged frames are the sidecar, yet it leaves a gap |
| Merge.SkippedFrameIsDropped | bench/active_acquisition/q1.py:2141-2142 | a lane index that skips a frame passes the trailing-byte check and the frame is lost |
| Consolidation.KeysAreOrdinals | bench/active_acquisition/q1.py:2185-2188 | div/mod keys and ordinals below the budget determine each other |
| Consolidation.OrdinalsAreKeys | bench/active_acquisition/q1.py:2185-2188 | every in-budget key is the key of exactly its ordinal |
| Consolidation.CheckRow | bench/active_acquisition/q1.py:2183-2227 | the checks of one row report the first failure in source order and leave the stream behind the frame |
| Consolidation.ZipMeans | bench/active_acquisition/q1.py:2173-2179 | the strict zip gives rows exactly where every stream has a line that decodes and ends exactly where all have ended; the first surprise, in stream order, is a line that does not decode or a difference in length |
| Consolidation.ValidateAndAggregate | bench/active_acquisition/q1.py:2146-2240 | accepts exactly when every row decodes and passes, counts are the budget and no byte trails; the error is that of the first row that cannot be read in step or fails, as the strict zip of the four streams meets it; totals and counts are those of the rows |
| Consolidation.FramesParse | bench/active_acquisition/q1.py:2206-2230 | reading every indexed frame to the end succeeds exactly when the file is the payloads' frames in index order and nothing else |
| Consolidation.AcceptedExactly | bench/active_acquisition/q1.py:2146-2240 | the validator accepts exactly the artifacts with the full budget of decodable rows in key order and a frame file that is nothing but the rows' payloads |
| Consolidation.OneContent | bench/active_acquisition/q1.py:2206-2230 | an index and a frame file determine the payloads |
| Consolidation.KeyInLane | bench/active_acquisition/q1.py:2185-2188 | the keys of a lane are exactly one block of consecutive ordinals |
| Consolidation.AcceptedAggregate | bench/active_acquisition/q1.py:2219-2240 | in an accepted run each lane counts its full budget and totals exactly its own block of rows |
| Consolidation.MergedRunIsAccepted | bench/active_acquisition/q1.py:2106-2240 | artifacts merged from workers that wrote in order pass every order, offset, length, digest, count and trailing-byte check, for any budget |
| Publication.RowsReadBack | bench/active_acquisition/q1_audit.py:2307-2347 | rows printed one line after the other are read back one by one by the auditor's bounded line reader, and then the file is at its end |
| Publication.OnlySemanticsLeft | bench/active_acquisition/q1_audit.py:2527-2733 | of published files that the producer's validator accepted, the auditor's pass records a violation exactly if a semantic check does |
| Publication.MergedRunIsAudited | bench/active_acquisition/q1.py:2106-2240 | a run whose workers wrote in order is merged, accepted once its rows agree, and published as evidence on which only the semantic checks have anything to say |
| Violations.Accumulator.Add | bench/active_acquisition/q1_audit.py:549-553 | the message is put behind what its gate received, the exact total and the first 128 messages are kept, and the accumulator is no longer clean |
| Violations.Accumulator.Extend | bench/active_acquisition/q1_audit.py:555-557 | what the gates received is what adding the faults one by one gives |
| Violations.FaultsReachTheirGates | bench/active_acquisition/q1_audit.py:555-557 | each gate receives exactly the messages meant for it, in order, behind what it had |
| Violations.Accumulator.Rows | bench/active_acquisition/q1_audit.py:559-564 | the report of a gate is the bounded report of everything it received |
| Violations.ReportIsHonest | bench/active_acquisition/q1_audit.py:542-564 | a report is empty exactly if nothing was received, is bounded, and still tells the exact total |
| AuditStream.LineEndFrom | bench/active_acquisition/q1_audit.py:2315-2328 | a bounded read that stops inside a line leaves the rest of the same line, and one that ends in a newline has finished it |
| AuditStream.CountingLines | bench/active_acquisition/q1_audit.py:2350-2360 | newlines plus an unfinished last line count the physical lines |
| AuditStream.Channel.ReadRow | bench/active_acquisition/q1_audit.py:2307-2347 | consumes and hashes exactly one physical line, of any size, and yields its row only if it fits and decodes |
| AuditStream.Channel.ConsumeRemainder | bench/active_acquisition/q1_audit.py:2350-2360 | hashes everything left and returns its size and number of rows |
| AuditStream.Channel.ReadHashed | bench/active_acquisition/q1_audit.py:2442-2461 | in bounded chunks consumes and hashes exactly the next bytes, kept only on request |
| AuditStream.Channel.ReadCheckpoint | bench/active_acquisition/q1_audit.py:2464-2505 | adds no violation exactly when the producer's own indexed reader would accept the frame at this position, and hashes what it consumed |
| AuditStream.Channel.CheckDigest | bench/active_acquisition/q1_audit.py:2695-2697 | compares the digest of the entire file content, which is what was fed |
| AuditStream.LockstepKeys | bench/active_acquisition/q1_audit.py:2586-2589 | the three nested loops visit the keys in the producer's ordinal order |
| AuditStream.Pass.AuditRow | bench/active_acquisition/q1_audit.py:2589-2682 | one lockstep row keeps: violation-free so far exactly if all rows so far are clean |
| AuditStream.Pass.AuditRows | bench/active_acquisition/q1_audit.py:2586-2682 | unless a check raised, after all keys the pass is violation-free exactly if every row is clean, and the masters, arms, returns and processes collected are those of the rows read |
| AuditStream.StreamAudit | bench/active_acquisition/q1_audit.py:2527-2733 | for every file content: no violation exactly on clean evidence; unless a check raised, row counts are physical line counts and the returns are those of the rows; a clean pass counted the exact budget |
| AuditStream.CleanLines | bench/active_acquisition/q1_audit.py:2586-2688 | on clean evidence each of the four row files holds exactly the budgeted number of lines |
| AuditStream.AllSeen | bench/active_acquisition/q1_audit.py:2626-2628 | on clean evidence the masters and arms met are all of them and no others |
| AuditStream.StreamedReturns | bench/active_acquisition/q1_audit.py:2644-2649 | whatever the files hold, a lane collects the returns of its own block of rows, in order and nothing else |
| AuditStream.CleanReturns | bench/active_acquisition/q1_audit.py:2644-2649 | on clean evidence every lane has exactly one return for each of its episodes |
| AuditStream.SameReads | bench/active_acquisition/q1_audit.py:2464-2505 | frame by frame the sequential reader and the seek-based validator agree, given eight-byte header fields |
| AuditStream.ReadersAgree | bench/active_acquisition/q1_audit.py:2464-2505 | the auditor accepts a frame file and index exactly when the producer's validator does and rows declare eight header bytes: one list of payloads and nothing else |
| AuditStream.CleanFrames | bench/active_acquisition/q1_audit.py:2464-2505 | clean evidence holds one payload per budgeted key, with its digest, and no other byte |
| AuditVerdict.FoldGates | bench/active_acquisition/q1_audit.py:1520-1536 | every gate is reported with its bounded violations and passes exactly if it received none |
| AuditVerdict.PrefixIsLeading | bench/active_acquisition/q1_audit.py:1521-1538 | the accepted prefix is exactly the gates before the first that received a violation |
| AuditVerdict.LeadingIsPrefix | bench/active_acquisition/q1_audit.py:1701-1717 | the validator reads the same prefix off the rows that the generator folded |
| AuditVerdict.RecomputeMeans | bench/active_acquisition/q1_audit.py:3842-3869 | each lane's mean is the mean of its returns, or zero where their number is short, and no violation is added exactly if no lane is short |
| AuditVerdict.CheckPartition | bench/active_acquisition/q1_audit.py:2508-2524 | no violation is added exactly if each master has one producer process and each lane one restorer process |
| AuditVerdict.OneProducer | bench/active_acquisition/q1_audit.py:2508-2524 | in a run found sound, all rows of a master that name their process name the same one |
| AuditVerdict.ValidateAggregate | bench/active_acquisition/q1_audit.py:3907-3965 | no violation is added exactly if the producer's aggregate loads and its counts, means and comparisons are the recomputed ones, numbers up to the tolerance |
| AuditVerdict.CleanIsFullRun | bench/active_acquisition/q1_audit.py:3848-3858 | clean evidence leaves no lane short of returns |
| AuditVerdict.CleanDifferences | bench/active_acquisition/q1_audit.py:3872-3878 | on clean evidence the paired differences are those of the returns reconstructed from the two arms' own rows |
| AuditVerdict.BuiltComparisonsCohere | bench/active_acquisition/q1_audit.py:3872-3896 | comparison rows as built satisfy the validator's statistics, although the two divide in a different order |
| AuditVerdict.PassingIsClean | bench/active_acquisition/q1_audit.py:1520-1538 | all gates pass exactly when nothing was ever received, and exactly then the whole order is accepted |
| AuditVerdict.ValidateMarker | bench/active_acquisition/q1_audit.py:2186-2283 | no violation exactly for a document with the frozen field set, identity and salt commitment, a nonzero capability, the completed status and budget, and the digests of the published files; the capability is reported as soon as the marker is identified |
| AuditVerdict.Audit | bench/active_acquisition/q1_audit.py:1405-1609 | for every input the artifact satisfies the validator; it passes exactly on sound inputs whose producer aggregate agrees with the recomputation and whose comparisons all pass; then counts are the exact budget, comparisons are of the returns streamed from the rows, and the marker commits to the digests of exactly the bytes read |
| EpisodeCheck.FaultlessReturn | bench/active_acquisition/q1_audit.py:2757-2900 | an episode without a fault has as its reconstructed return the one that the salt determines for the action expected of its arm |
| EpisodeCheck.ExpectedIsProduced | bench/active_acquisition/q1_audit.py:2778-2787 | for every salt, the auditor's return of the expected action is the producer's return of the action the arm's scores select |
| EpisodeCheck.CleanReturnsAreDetermined | bench/active_acquisition/q1_audit.py:2644-2649 | on evidence without a violation the returns of every lane are exactly those that the salt and the arm's selection rule determine |
| EpisodeCheck.ProspectMatchesOracle | bench/active_acquisition/q1_audit.py:3842-3869 | in a run that passes, Prospect's and the oracle arm's lanes hold the same returns and have the same means |
| Identifiers.DecimalInjective | bench/active_acquisition/q1_audit.py:3050 | decimal rendering is injective on all naturals |
| Identifiers.PathsDisjoint | bench/active_acquisition/q1_audit.py:3050 | one string lies under the namespace path of at most one key, for unboundedly many masters and episodes and any colon-free arms |
| Identifiers.RecordIdentifiers | bench/active_acquisition/q1_audit.py:3039-3104 | the gates receive exactly the row's faults in order, and none exactly if every identity is a string in the row's namespace and they are pairwise distinct |
| Identifiers.GloballyUnique | bench/active_acquisition/q1_audit.py:3039-3107 | if no row of one run violates, identities at any two different places of the whole run differ |
| Identifiers.LockstepKeysDistinct | bench/active_acquisition/q1_audit.py:2586-2589 | the keys of different rows differ and the frozen arm names are colon-free |
| Identifiers.CleanRunIsUnique | bench/active_acquisition/q1_audit.py:2622-2632 | evidence on which the streaming pass, with its run binding and identity checks, records no violation has different identities at any two places of the whole run |
| Identifiers.SharedIdentity | bench/active_acquisition/q1_audit.py:3039-3107 | for any two runs and keys, two whole rows that both pass can share an identity exactly when one row's namespace extends the other's |
| Identifiers.UnboundRunsCollide | bench/active_acquisition/q1_audit.py:3039-3107 | without the run binding, whole rows of any two keys, with their eight and seven section identities and all candidates, can pass with the same identities throughout |
| Base64.WindowDecodes | bench/active_acquisition/q1_audit_privacy.py:182-205 | the strict decoder yields 16 bytes from a window exactly when its first 22 characters are data and no lone pad follows, and then the bytes of their sextets |
| Base64.DecodeEncode | bench/active_acquisition/q1_audit_privacy.py:189-198 | the strict decoder undoes the padded standard and URL-safe encoders of sections 4 and 5 of RFC 4648 on every input |
| Base64.StandardIsCovered | bench/active_acquisition/q1_audit_privacy.py:191-205 | whatever the standard pass finds the URL-safe pass finds too |
| Base64.Base64Matches | bench/active_acquisition/q1_audit_privacy.py:182-205 | the windowed loop with its two passes finds exactly the specified base64 occurrences |
| Base64.EncodingFoundExactly | bench/active_acquisition/q1_audit_privacy.py:182-205 | an encoding of any bytes, in either alphabet, padded or not, cut anywhere, whatever follows, is found at a character exactly if the 16 bytes starting at its bits are an indexed prefix and no lone pad follows |
| Base64.AlignedReads | bench/active_acquisition/q1_audit_privacy.py:7-11 | behind a multiple of three bytes a value is read from a character of its own |
| Base64.NothingElseIsFound | bench/active_acquisition/q1_audit_privacy.py:182-205 | a text that is nothing but an encoding, whole or cut, is found exactly at the characters from which an indexed prefix is read |
| Base64.EncodingsAreFound | bench/active_acquisition/q1_audit_privacy.py:182-205 | a value encoded behind any multiple of three bytes, at least as far as its 16 bytes, is found except exactly for a lone pad, which can only stand where the encoding was cut or never padded |
| PrivacyScanner.IndexPrivateValues | bench/active_acquisition/q1_audit_privacy.py:44-65 | the index is exactly the 16-byte prefixes, and a shorter value is refused |
| PrivacyScanner.HexMatches | bench/active_acquisition/q1_audit_privacy.py:173-180 | finds exactly the prefixes written in hexadecimal digits of any case |
| PrivacyScanner.LoweredMatches | bench/active_acquisition/q1_audit_privacy.py:173-180 | lower-casing and comparing renderings is reading digits of any case |
| PrivacyScanner.ContainsPrivatePrefix | bench/active_acquisition/q1_audit_privacy.py:155-171 | true exactly if some position starts with an indexed prefix in one of the three forms |
| PrivacyScanner.Scan.Visit | bench/active_acquisition/q1_audit_privacy.py:73-153 | refuses exactly the values outside the JSON model, and otherwise adds exactly the specified paths |
| PrivacyScanner.ScanRefinesSpecification | bench/active_acquisition/q1_audit_privacy.py:73-153 | a path is reported exactly if a leaking string, key or value, stands there at any depth |
| PrivacyScanner.EmbeddedValuesLeak | bench/active_acquisition/q1_audit_privacy.py:155-205 | a private value written raw, in hex of any case, or in base64 behind a multiple of three bytes and outside the lone-pad case, whole or cut, at any offset, makes the string leak |
| PrivacyScanner.LonePadIsMissed | bench/active_acquisition/q1_audit_privacy.py:182-205 | a concrete string with such a form that does not leak |
| PrivacyScanner.MisalignedIsMissed | bench/active_acquisition/q1_audit_privacy.py:7-11 | a string that is a base64 encoding of one or two bytes and a private value, in either alphabet, padded or not, does not leak |
| SemanticKeys.BuildKey | bench/active_acquisition/seeding.py:667-680 | the segment loop refuses with the first failing check in order and otherwise returns the delimited rendering |
| SemanticKeys.SameKeyExactly | bench/active_acquisition/seeding.py:667-680 | two accepted inputs give one key exactly when namespaces and names agree and each value is equal, or one is an integer and the other its decimal text |
| SemanticKeys.RenderingsCollide | bench/active_acquisition/seeding.py:671-679 | any integer and its decimal string are both accepted and give the same key |
| SemanticKeys.AuditorBuildsTheSame | bench/active_acquisition/q1_audit.py:3969-3988 | the auditor's builder gives the same bytes and errors, except that it refuses the public uniform namespace |
| SemanticKeys.KeysIdentifyDraws | bench/active_acquisition/seeding.py:624-660 | the four key families are disjoint and each determines master, episode and action or decision |
| SemanticKeys.DrawsHaveKeys | bench/active_acquisition/seeding.py:624-660 | every draw of every master and episode has a key, the same for the auditor |
| SemanticKeys.UniformKeyApart | bench/active_acquisition/seeding.py:663-664 | the public uniform key is never a key built from fields |
| SemanticKeys.UniformKeysIdentify | bench/active_acquisition/seeding.py:663-664 | the uniform key determines master and episode |
| Schedule.RankedHolds | bench/active_acquisition/seeding.py:264-272 | the ranking is ascending and holds exactly the pair of each episode |
| Schedule.ReversedExactly | bench/active_acquisition/seeding.py:264-277 | an episode is reversed exactly when fewer than half of the episodes rank below it, for every digest function |
| Schedule.ReversedRankLower | bench/active_acquisition/seeding.py:264-277 | every reversed pair ranks below every direct pair |
| Schedule.ExactlyBalanced | bench/active_acquisition/seeding.py:273-277 | exactly half the episodes are reversed even if digests collide, so the auditor's own balance check (`bench/active_acquisition/q1_audit.py:2582-2585`) never fires on its schedule |
| Schedule.PrivateSchedule.ThetaSchedule | bench/active_acquisition/seeding.py:256-279 | any sequence of cached calls returns what a fresh computation returns |
| Schedule.PrivateSchedule.Theta | bench/active_acquisition/seeding.py:281-286 | the cached lookup is the episode's regime, or a refusal outside the budget |
| Schedule.AuditorComputesTheSame | bench/active_acquisition/q1_audit.py:314-329 | the auditor's schedule equals the producer's for every salt |
| Draws.AgreesBelowThreshold | bench/active_acquisition/seeding.py:475-480 | a draw agrees exactly if it lies below the rounded-up threshold |
| Draws.ExactFrequency | bench/active_acquisition/seeding.py:468-500 | exactly the rounded-up share of all draws agrees, off by less than one draw |
| Draws.AgreementIsMonotone | bench/active_acquisition/seeding.py:468-500 | on one draw a greater probability agrees wherever a smaller one does, and certainty always agrees |
| Draws.MatchingNeverHurts | bench/active_acquisition/seeding.py:489-500 | a draw that succeeds against the regime succeeds with it |
| Draws.BinsAreQuarters | bench/active_acquisition/seeding.py:483-486 | the four nuisance bins are four equal intervals |
| Draws.AuditorReconstructsReturns | bench/active_acquisition/q1_audit.py:2757-2900 | for every salt, master, episode and candidate action the auditor's reconstruction equals the producer's return |
| Draws.PairedArms | bench/active_acquisition/q1.py:1601-1634 | for every salt and episode: of the ranked arms only Prospect and the oracle arm return the same, and the uniform arm returns the same as a ranked arm exactly where its public digest names that arm's action |
| Draws.ReturnsTellActions | bench/active_acquisition/q1_audit.py:2828-2886 | in every world two actions return the same in an episode exactly when they are one action |
| Draws.PairedExactly | bench/active_acquisition/q1.py:1601-1634 | whatever the salt, two arms return the same in an episode exactly when they select one action there |
| Draws.LaneChoiceIs | bench/active_acquisition/q1.py:141-148 | the action an arm's scores select at the fresh prior one half is its frozen action, and the uniform arm's is what its public digest names |
| Information.NormalizedIs | src/prospect/epistemics/information.py:21-32 | what normalization returns is a distribution, and a distribution is left as it is |
| Information.ExpectedInformationGain | src/prospect/epistemics/information.py:81-97 | for any number of hypotheses: refuses exactly what cannot be normalized, and otherwise returns the prior entropy less the expected posterior entropy, clamped |
| Information.ExpectedValueOfSampleInformation | src/prospect/epistemics/information.py:123-158 | for any number of hypotheses and decisions: refuses exactly a negative cost, what cannot be normalized or unusable utilities; decision value, gain, net and prior decision are those of the normalized inputs |
| Information.InformationGainIsNonNegative | src/prospect/epistemics/information.py:81-97 | for every belief over any number of hypotheses and every likelihood table, the expected information gain is not negative |
| Information.EvidenceNeverHurts | src/prospect/epistemics/information.py:123-158 | for every belief, likelihood table and utilities, the expected value of evidence for the decision is not negative |
| Arms.DecisionValueIsOracles | bench/active_acquisition/problem.py:305-310 | on the declared problem the general decision value is the exact oracle's, for every prior |
| Arms.Diagnose | bench/active_acquisition/problem.py:293-326 | for every declared action, Prospect's diagnostics are the exact oracle's quantities at every prior, with observation entropy and information gain, and other priors are refused |
| Arms.ObservationEntropyIs | bench/active_acquisition/problem.py:301-317 | at every prior a skip is certain, a pulse is at most one bit uncertain and the scan two bits |
| Arms.GainIs | bench/active_acquisition/problem.py:305-318 | at every prior skip and scan gain nothing, the overpowered pulse gains the whole prior entropy, and weak and strong gain less unless the prior is certain |
| Arms.Select | bench/active_acquisition/runtime_lane.py:571-676 | diagnosing, scoring and selecting yields the first greatest score of the arm, or the uniform arm's ordinal |
| Arms.ChoicesAre | bench/active_acquisition/runtime_lane.py:571-697 | what every arm selects, in closed form, for every prior |
| Arms.FrozenExactly | bench/active_acquisition/q1.py:141-148 | the frozen actions are what all six scored arms select exactly for priors above 7/20 and up to 23/40 |
| Arms.AuditorScoresAgree | bench/active_acquisition/q1_audit.py:2950-3025 | the auditor's score of every action for every arm is the producer's at one half, logarithms included |
| Oracle.PosteriorExactly | bench/active_acquisition/oracle.py:102-120 | conditioning fails exactly on a bad prior, an unknown outcome or one ruled out, and otherwise gives a probability |
| Oracle.Enumerate | bench/active_acquisition/oracle.py:156-173 | the loop that skips zero-probability outcomes sums the expected value and immediate payoff |
| Oracle.Evaluate | bench/active_acquisition/oracle.py:139-190 | every field of the evaluation is the quantity it is named for, for every prior |
| Oracle.InformationNeverHurts | bench/active_acquisition/oracle.py:156-175 | for any likelihood table, the expected terminal value after observing is at least that of deciding at once |
| Oracle.PosteriorsAverage | bench/active_acquisition/oracle.py:156-163 | for any likelihood table the expected posterior is the prior |
| Oracle.InformationIsFair | bench/active_acquisition/oracle.py:139-190 | for every declared action and prior the expected posterior is the prior and the decision value is not negative |
| Oracle.DecisionValueIs | bench/active_acquisition/oracle.py:139-190 | the decision value is 0 for skip and nuisance and 4/5 max(0, q - max(p, 1-p)) for a pulse of either sign |
| Oracle.BetterProbesAreWorthMore | bench/active_acquisition/oracle.py:139-190 | weak is at most strong, strong at most overpowered, and overpowered always reaches 9/10 |
| Oracle.StrongBeyondThreshold | bench/active_acquisition/oracle.py:139-204 | skip is best up to 7/20 where it ties with strong, and strong is strictly best above |
| Oracle.Decide | bench/active_acquisition/oracle.py:192-205 | for every prior the first maximum is skip up to 7/20 and strong above, and other priors are refused |
| Oracle.AuditorPosteriorIsBayes | bench/active_acquisition/q1_audit.py:3028-3036 | the auditor's posterior table is Bayes' rule at one half for every outcome |
| Oracle.AuditorTablesAreExact | bench/active_acquisition/q1_audit.py:252-291 | the auditor's tables of expected values are the oracle's at one half |
| PosteriorCodec.DecodeEncode | bench/active_acquisition/runtime_lane.py:156-232 | decoding undoes encoding exactly for models without blank identifiers, blank as Python strips |
| PosteriorCodec.BlankIdentifierIsRefused | bench/active_acquisition/runtime_lane.py:156-232 | a valid model with an experience identifier of one space is encoded and then refused |
| PosteriorCodec.EncodeDecode | bench/active_acquisition/runtime_lane.py:180-232 | encoding undoes decoding on every accepted payload, and what was decoded is valid and reduced |
| PosteriorCodec.AuditedDocument | bench/active_acquisition/q1_audit.py:3190-3245 | what the auditor accepts is the canonical document of the model it reads |
| PosteriorCodec.DecodersAgree | bench/active_acquisition/q1_audit.py:3190-3245 | the two decoders accept the same payloads and read the same model |
| PosteriorCodec.CountsAlongChain | bench/active_acquisition/runtime_lane.py:258-277 | along any chain of validated states that starts without evidence, whatever the decoder, the evidence count is the position |
| Restart.IdentitySource.Next | src/prospect/decision/policy.py:64-72 | one identity with the current counter, and the counter advances by one |
| Restart.Interact | src/prospect/runtime/agent.py:243-412 | one interaction issues its identities at the specified counters, candidates first |
| Restart.AcquisitionPhase | bench/active_acquisition/q1.py:1737-1765 | from zero the acquisition phase ends at 43, plus three for each abandoned learning attempt |
| Restart.CounterReadsBack | bench/active_acquisition/checkpoint.py:584-607 | a dumped counter is read back exactly up to 64 |
| Restart.RollbacksWithinBound | bench/active_acquisition/checkpoint.py:52-54 | the counter survives the checkpoint exactly for up to seven abandoned attempts |
| Restart.LoadDump | bench/active_acquisition/restore_worker.py:224-265 | loading a dumped episode gives it back exactly when its counter is within the bound |
| PosteriorCodec.ReducedIsNormal | bench/active_acquisition/runtime_lane.py:1094-1100 | a fraction reduced by the greatest common divisor is in lowest terms and has the same value |
| Restart.PosteriorRatioIs | bench/active_acquisition/runtime_lane.py:1734-1744 | for every prior fraction the learned fraction is the exact oracle's posterior in lowest terms, and learning raises exactly where the oracle does |
| Restart.AcquiredIs | bench/active_acquisition/runtime_lane.py:1073-1100 | every candidate action learns from each of its outcomes, and what it leaves is committed and can be checkpointed |
| Restart.OneSelection | bench/active_acquisition/q1_audit.py:2985-3014 | the candidate values are the auditor's closed form, and policy, runner and auditor name one action, ties included |
| Restart.TakeTerminalStep | bench/active_acquisition/q1.py:1816-1848 | the terminal step is refused exactly when the model is not the committed one, and otherwise is the specified function of the pending episode; the policy's decision never differs from the one the environment was prepared for |
| Restart.ContinueRestored | bench/active_acquisition/restore_worker.py:224-307 | the fresh process refuses components that differ from the index, a checkpoint that does not load or a model that is not the committed one, and otherwise takes the terminal step of exactly what the checkpoint holds |
| Restart.LiveAndRestoredAgree | bench/active_acquisition/restore_worker.py:249-346 | for every action, every outcome of it and every way decisions turn out, live and restored continuations give identical candidates with identical values, action, return and identities, up to seven abandoned attempts; values, action and return are those of the exact posterior |
| Restart.AuditorAcceptsExactly | bench/active_acquisition/q1_audit.py:3341-3371 | the terminal identities meet the auditor's counter and offsets exactly when no attempt was abandoned |

## Left out

- JSON Schema validation, canonical JSON text and all checks that look at one row only are parameters of the model; they can only add violations or refusals.
- Descriptor flags, permission bits, links, path identity checks, sockets, selectors and real clocks; only the lock, exclusive creation, rename, fsync, exit and timeout events they produce are kept.
- Floating-point rounding, summation order and Student-t tables; sums are exact, and square root and logarithm are parameters.
- Asynchronous interrupts between a spawn returning and its registration, and interrupts inside the failure handler; the parent may raise or die at every modelled step.
- The rehearsal mode, the qualification probes, entry qualification and the worker-capability wire format.
- The checks of the output directory's custody and of the aggregate's own bindings and flags; they are among the faults given to the audit from outside.
- PrivacyScanner.Scan.Visit: container cycles cannot be written as a JSON value, so the cycle refusal is not modelled, and paths are sequences of steps rather than rendered strings, returned as a set rather than sorted.
- Base64.WindowDecodes: models the strict mode of Python's binascii decoder; its differences between versions lie in inputs of fewer than 22 data characters, where the answer is the same.
- SemanticKeys.BuildKey: fields of the declared key families only contain text and integers; other Python objects are one case that is refused.
- Restart.LoadDump: keeps of the checkpoint's domain graph the lineage that the terminal step checks, as a value and not as bytes; the live and the restored step run the same code in the source and in the model.
- AuditStream.StreamAudit: errors of the operating system are not modelled, so the files open and a pass aborts only when a check raises.
- EpisodeCheck.FaultlessReturn: of the semantic check, the fields that do not enter the return (candidate rows, costs as printed, posteriors, model digests, counts) can only add faults and are one parameter.
- AttemptRegistry.StepGood: writes persist as prefixes of a document and directory entries revert to an earlier value; reordered data blocks inside one file are not modelled.
- Draws.PairedExactly: returns are functions of action, master, episode and salt by construction of the key families; runtime effects outside them are not modelled.
- Orchestration.AttemptIsRealised: relates the marker of an attempt to undisturbed runs of the marker file's system; attempts are not modelled over power losses, which are part of the file's system only.
- Publication.MergedRunIsAudited: how a row is printed and parsed is a parameter, of which only canonical lines are asked.
- `bench/active_acquisition/policies.py`, `contracts.py`, `qualification.py` and `rehearsal.py`: a second copy of the arms' scores, literal tables and finite matrices would only add easy members.
