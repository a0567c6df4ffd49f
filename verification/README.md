# Verified models of the offline builders

This project models the logic of the repository's offline scripts and proves what they promise. The
main model is the durable embedding ledger with the worker loop on top of it; around it stand the
smaller algorithmic cores: batch planning, deck rewriting, lattice image search, snapshot export and
verification, the resumable frontier builder, a streaming JSON reader, and bounded checks.

| file | what it models |
|---|---|
| `LedgerModel.dfy`, `Ledger.dfy` | the ledger's tables and operations as values, and the class that performs them with the source's loops |
| `LedgerHistory.dfy`, `LedgerBinding.dfy` | what every history of operations, crashes and reopenings keeps; what completions are bound to |
| `LedgerCost.dfy`, `LedgerOutcome.dfy` | what reservations cost and how little the ceiling leaves for retries; exactly when each operation succeeds and what it writes |
| `PendingInputs.dfy`, `RunProgress.dfy`, `RunSteps.dfy`, `EmbeddingRun.dfy` | the batching generator, where every member is during a run, the loop step by step as functions, and the scheduler loop itself |
| `LongestFirst.dfy`, `ApiTestScope.dfy` | list scheduling on eight bins and the batch plan built with it |
| `DeckText.dfy`, `DeckAssign.dfy` | lines and assignments, and the regular expression that assignments match |
| `DeckGrammar.dfy`, `DeckReading.dfy`, `DeckLayout.dfy` | the deck reader, what each line of a deck is, and exactly which texts read |
| `DeckRewrite.dfy`, `DeckDelta.dfy`, `DeckPreparation.dfy` | the rewrite and its simulation, the delta ledger, the pinned preparation |
| `Lattice.dfy`, `PlanarForm.dfy`, `NearestImage.dfy`, `OrbitGroups.dfy` | the exact image search, quadratic forms in the plane, the 27-image scan and exactly when it is enough, grouping of symmetry images |
| `Utf8Order.dfy`, `SnapshotRows.dfy`, `SnapshotFiles.dfy`, `SnapshotChecksums.dfy`, `SnapshotBundle.dfy`, `SnapshotExport.dfy` | row order, JSON-lines files, line ends and path names, the checksum file, the verifier, the exporter |
| `FrontierCheckpoint.dfy`, `FrontierBuild.dfy` | the checkpoint's tables and the slice builder |
| `JsonScan.dfy`, `ArrayReader.dfy`, `JsonPrint.dfy`, `JsonParse.dfy` | where a JSON value ends, the chunked reader, the grammar of written values, and that the scanner decides exactly that grammar |
| `CanonicalValue.dfy`, `VisibilityResolve.dfy`, `VisibilityOrder.dfy`, `SampleLists.dfy` | the worklist check, the memoised resolver and when its order matters, bounded samples |
| `Order.dfy`, `Sorting.dfy`, `Sequences.dfy`, `Wrappers.dfy` | text order, stable sorting, sequences, options and results |

Code that changes state is a class or a method with the source's loops, proved equal to a
specification function; the promises are then proved of that function for all inputs, all runs or all
histories. SQLite tables are maps and sequences with their keys; a transaction is one step; a crash
leaves the file as it was before or after a step. Provider answers, their order and the passing of
time are arbitrary inputs.

Four results where a promise fails, each with its condition or a concrete case:

- The ledger does not keep completed and rejected members apart by itself
  (`LedgerBinding.CompletedAndRejected`). `LedgerBinding.DisjointExactlyWhen` says which operations keep
  them apart, and `LedgerBinding.CarefulHistoryDisjoint` which callers do so over every history: those that
  answer only attempts of their own and reserve no rejected member and none they await. The worker loop
  keeps them apart in every run (`EmbeddingRun.Runs`); `LedgerBinding.CompletedAndRejectedHappens` is a ledger for which
  two reservations of one member do not.
- The 27-image scan is not a nearest-image search in every cell, as its comment says. Among the invertible
  cells whose third axis is perpendicular to the other two, `NearestImage.ScanDecidesExactlyWhen` gives the
  exact condition on the cell: the inner product of the first two axes is at most the smaller of their
  squared lengths, or exactly half of the larger one. Orthogonal and hexagonal cells meet it
  (`NearestImage.FamiliesAreBlunt`); `NearestImage.ScanMissesInSkewCell` is a cell that does not. For cells
  whose third axis is tilted no condition is stated: the code excludes them.
- The memoised resolver depends on the visiting order on cycles (`VisibilityResolve.CycleDependsOnOrder`)
  and on chains of more than 32 materials; `VisibilityOrder.OrderFreeExactlyWhen` is the exact condition.
- A bundle built from valid arguments can fail its own verification, as with a blank schema revision
  (`SnapshotExport.BlankRevisionFails`). `SnapshotExport.BuildBundle` states the exact condition, and
  `SnapshotExport.ExportSnapshot` that such a bundle is never published.

`dafny verify dfyconfig.toml` checks the whole project.

## Model

| member | source | states |
|---|---|---|
| `EmbeddingLedger.Ledger.Open` | scripts/embed_legacy_index_pack.py:79-192 | opening a new or existing file gives exactly the specified session: the policy must match, and the budget is recomputed from every attempt ever recorded |
| `EmbeddingLedger.Ledger.CountTries` | scripts/embed_legacy_index_pack.py:306-324 | the raised try counters of a whole batch, or the first member that is completed or has been tried three times |
| `EmbeddingLedger.Ledger.Reserve` | scripts/embed_legacy_index_pack.py:269-329 | the new attempt, counters and budget, or the first refusal in the source's order, with nothing changed; a success charges and records the characters of all the batch's texts and the tokens of all its inputs, and lists its members |
| `EmbeddingLedger.Ledger.Finish` | scripts/embed_legacy_index_pack.py:331-384 | all rows of the batch with a complete outcome, or an error and nothing: a key conflict on any row, or a second outcome, undoes the whole call |
| `EmbeddingLedger.Ledger.Fail` | scripts/embed_legacy_index_pack.py:386-412 | one outcome for the attempt and, exactly for a lone input refused as too long, its rejection; allowed on a sealed ledger |
| `EmbeddingLedger.Ledger.Verify` | scripts/embed_legacy_index_pack.py:431-500 | the report of a complete inventory, or the first thing wrong in member order |
| `EmbeddingLedger.Ledger.Seal` | scripts/embed_legacy_index_pack.py:502-515 | stores the verified report once; later calls confirm it or fail |
| `LedgerOutcome.OpensExactlyWhen` | scripts/embed_legacy_index_pack.py:79-192 | a ledger opens exactly over a sealed, complete pack of the given hash, as a new file where there is none or on a file of the same policy; the budget counts every character, token and request of the file's attempts |
| `LedgerCost.ReserveExactlyWhen` | scripts/embed_legacy_index_pack.py:269-329 | a reservation succeeds exactly for 1 to 250 different valid inputs within the token limit of a request, none completed or tried three times, on an unsealed ledger, that stay within 105 percent of the input pack's characters and tokens, rounded up, and within ten requests or one per member |
| `LedgerCost.HistoryPriced` | scripts/embed_legacy_index_pack.py:296-303 | over every history with batches of the input pack, every attempt lists different members and records exactly their characters and tokens |
| `LedgerCost.SpentIsRepeated` | scripts/embed_legacy_index_pack.py:183-188 | what all attempts were charged is what the members cost, each as often as it was reserved |
| `LedgerCost.CeilingLimitsRetries` | scripts/embed_legacy_index_pack.py:98-103 | over every history of a new ledger whose pack's report is true: all reservations together stay within five percent over the input pack; once every member has been reserved, second and third tries cost at most those five percent; and all members cannot have been reserved twice unless the input pack has at most one character and one token |
| `LedgerOutcome.FinishExactlyWhen` | scripts/embed_legacy_index_pack.py:331-384 | answers are recorded exactly for an open attempt reserved for these inputs, each with the receipt of its text and vector, and rows whose numbers and ids are new |
| `LedgerOutcome.FinishWrites` | scripts/embed_legacy_index_pack.py:355-384 | then each member gets its row with the stored form of its vector, the attempt is complete and nothing else changes; otherwise nothing changes |
| `LedgerOutcome.ReportSays` | scripts/embed_legacy_index_pack.py:431-500 | the report lists the completion of every member in order and counts all of the provider's tokens |
| `LedgerHistory.EventKeeps` | scripts/embed_legacy_index_pack.py:269-412 | every single operation keeps the whole invariant and only adds rows |
| `LedgerHistory.HistoryKeeps` | scripts/embed_legacy_index_pack.py:146-188 | over every history of reservations, answers, seals, crashes and reopenings: the budget is the fold of all attempts and within the three caps, a member's try count is the number of attempts that list it and at most three, every attempt has at most one outcome, every completion and every rejection belongs to an attempt that lists the member with the matching outcome; and no row ever written changes |
| `LedgerHistory.ReopenRestores` | scripts/embed_legacy_index_pack.py:183-192 | reopening the file of any session gives back that very session: a crash refunds no budget and loses nothing committed |
| `LedgerHistory.SealedForever` | scripts/embed_legacy_index_pack.py:502-515 | once sealed, after every later history (late failures included) verifying again returns the identical report, and sealing again confirms it |
| `LedgerHistory.VerifyFrozen` | scripts/embed_legacy_index_pack.py:431-500 | verification depends on completions, their attempts and their attempts' outcomes alone |
| `LedgerBinding.FinishBinds` | scripts/embed_legacy_index_pack.py:344-370 | what finishing writes is bound to the input pack's member of that number, its text and the stored form of its vector |
| `LedgerBinding.PackHistoryBinds` | scripts/embed_legacy_index_pack.py:331-384 | over every history with batches of the input pack, every completion stays bound to its member |
| `LedgerBinding.VerifiedIsComplete` | scripts/embed_legacy_index_pack.py:437-488 | a successful verification means the completion keys are exactly 1 to the member count, every row bound, every attempt completed and listing its member |
| `LedgerBinding.SealsExactlyWhenComplete` | scripts/embed_legacy_index_pack.py:502-515 | on any file that a history has produced, sealing succeeds if and only if every member is completed |
| `LedgerBinding.DisjointExactlyWhen` | scripts/embed_legacy_index_pack.py:331-412 | an operation makes a member both completed and rejected if and only if it completes a rejected member or rejects a completed one: the ledger itself checks neither |
| `LedgerBinding.CompletedAndRejected` | scripts/embed_legacy_index_pack.py:331-412 | two open attempts for one member end with it completed and rejected although every call succeeds |
| `LedgerBinding.CompletedAndRejectedHappens` | scripts/embed_legacy_index_pack.py:269-329 | a new ledger over a pack of one member meets all conditions of that case: the caps let both reservations through |
| `LedgerBinding.CarefulHistoryDisjoint` | scripts/embed_legacy_index_pack.py:269-412 | processes that reserve no rejected member and none they await an answer for, and answer only attempts of their own, keep completed and rejected members apart over every history, crashes and reopenings included |
| `PendingInputs.GreedyBatchesCover` | scripts/embed_legacy_index_pack.py:238-267 | the batches concatenate to the open members in order; each is non-empty and within both limits unless one input alone exceeds the token limit |
| `PendingInputs.GreedyIsMinimal` | scripts/embed_legacy_index_pack.py:259-267 | no order-preserving split within both limits has fewer batches |
| `PendingInputs.FewerItemsFewerBatches` | scripts/embed_legacy_index_pack.py:259-267 | leaving out leading items never needs more batches |
| `PendingInputs.Advance` | scripts/embed_legacy_index_pack.py:244-267 | from one yield of the generator to the next: the greedy batch of everything still open as the tables stand when rows are fetched, and the rest left for later |
| `PendingInputs.PendingScan.Next` | scripts/embed_legacy_index_pack.py:238-267 | the generator yields the greedy batch of what it had still to yield and keeps the rest, its fetched but unplaced row included |
| `RunProgress.StartConserved` | scripts/embed_legacy_index_pack.py:617-621 | before the first pass every member is settled or still to be scanned |
| `RunProgress.ScanMoves` | scripts/embed_legacy_index_pack.py:633-634 | taking a scanned batch keeps every member in exactly one place |
| `RunProgress.RetryMoves` | scripts/embed_legacy_index_pack.py:633-634 | taking a split retry keeps every member in exactly one place and moves no other |
| `RunProgress.ReserveRefusals` | scripts/embed_legacy_index_pack.py:638-638 | reserving what the loop took can only be refused by a cap, the try limit or the input limits: never as a duplicate or as completed |
| `RunProgress.ReserveMoves` | scripts/embed_legacy_index_pack.py:638-644 | reserving moves a batch in flight; no member is reserved more than twice in a run |
| `RunProgress.FinishSucceeds` | scripts/embed_legacy_index_pack.py:655-656 | with validated answers finishing a call in flight never meets a duplicate completion |
| `RunProgress.FinishMoves` | scripts/embed_legacy_index_pack.py:655-656 | finishing a call settles exactly its members; every other member keeps its place |
| `RunProgress.FailSucceeds` | scripts/embed_legacy_index_pack.py:657-658 | recording a failure of a call in flight always succeeds, and never rejects a completed member |
| `RunProgress.FailMoves` | scripts/embed_legacy_index_pack.py:657-690 | a failure rejects a lone oversized input, queues the members of an oversized batch one by one, and defers any other batch to a later run |
| `RunProgress.SealMoves` | scripts/embed_legacy_index_pack.py:695-697 | sealing moves no member |
| `EmbeddingRun.Send` | scripts/embed_legacy_index_pack.py:632-646 | taking a batch, reserving it and putting it in flight, exactly as specified: the head of the retry queue on its own with the scan untouched, or else a batch of the scan within its limit; a refusal is the ledger's own; conservation is kept |
| `EmbeddingRun.Land` | scripts/embed_legacy_index_pack.py:652-690 | recording one answer, exactly as specified: what the ledger makes of it, and whether its batch is settled, queued one by one for a retry, given up, or stops the loop; the answer's code is the attempt's outcome; conservation is kept |
| `EmbeddingRun.Pass` | scripts/embed_legacy_index_pack.py:622-693 | one pass of the loop, exactly as specified: sends while the loop and the rate limit allow, the call cap, then every returned call; never more calls in flight than allowed; a generous pass lowers the remaining work |
| `EmbeddingRun.Run` | scripts/embed_legacy_index_pack.py:610-699 | a whole run over any schedule of answers is exactly the specified run: every member is always in exactly one of settled, in flight, queued, unscanned, deferred; at most the allowed number of calls, and never more in flight than the concurrency; limits are refused exactly outside 1 to 8, 1 to 600 and 1 to ten or the member count; with an honest provider only policy limits raise; the loop ends within four generous passes per allowed call and two; it seals exactly when all members are completed; unfinished it has completed or rejected every member, or stopped, which it does only at the call limit or for a failure that is no input limit; members are deferred only for such failures |
| `EmbeddingRun.Runs` | scripts/embed_legacy_index_pack.py:610-699 | over a new file and any number of runs on it, however each ends, no member is both completed and rejected |
| `RunSteps.RunExplained` | scripts/embed_legacy_index_pack.py:610-699 | in every run that does not raise, members are given up only for a failure that is no input limit, and the loop stops only for one or at the call limit |
| `LongestFirst.LongestFirstBound` | scripts/api_test_scope.py:83-86 | for all positive weights, every bin of the longest-first schedule is within 31/24 of the heaviest bin of any other schedule into eight bins |
| `LongestFirst.AverageBound` | scripts/api_test_scope.py:83-86 | a bin exceeds an eighth of the total by at most 7/8 of its last job |
| `LongestFirst.LargeJobsOptimal` | scripts/api_test_scope.py:83-86 | where another schedule has at most two jobs a bin, longest-first is no worse than it |
| `LongestFirst.MirrorPairFits` | scripts/api_test_scope.py:83-86 | any schedule within the limit leaves room for a large job and its mirror together |
| `LongestFirst.EveryBinUsed` | scripts/api_test_scope.py:87-88 | with at least eight jobs no group stays empty |
| `ApiTestScope.SortedIsDescending` | scripts/api_test_scope.py:83-86 | the sort on unclamped weights is a descending order of the clamped charges |
| `ApiTestScope.ScheduleOfGroups` | scripts/api_test_scope.py:82-86 | every split of the modules into eight groups is a schedule with the same bin weights |
| `ApiTestScope.LightestBin` | scripts/api_test_scope.py:84-84 | the first group that is least by total, then by size |
| `ApiTestScope.FillGroups` | scripts/api_test_scope.py:82-86 | the assignment loop builds a greedy schedule of exactly the modules given |
| `ApiTestScope.FoldedPairsBest` | scripts/api_test_scope.py:89-93 | pairing k-th lightest with k-th heaviest minimises the heaviest pair over all perfect pairings |
| `ApiTestScope.Balanced` | scripts/api_test_scope.py:80-93 | the plan is refused exactly for fewer than eight modules or a selection not in name order; otherwise it splits the selection, is within 31/24 of every other split, pairs best, and comes in the folded order, all measured in seconds read off the weight map: the listed weight, at least a hundredth, or a minute for a module without one |
| `Order.TextFirstDifference` | scripts/api_test_scope.py:83-83 | text order goes by the first character that differs, and a proper beginning comes first |
| `DeckText.SplitOfJoin` | scripts/build_sclib_pbesol_preparation.py:105-106 | joining proper lines and splitting again gives the lines back |
| `DeckText.JoinOfSplit` | scripts/build_sclib_pbesol_preparation.py:105-106 | splitting a text loses nothing; lines that end in a bare line feed are proper lines |
| `DeckText.ParseOfFieldLine` | scripts/build_sclib_pbesol_preparation.py:29-30 | a written assignment parses to its own key and literal |
| `DeckAssign.ParsesExactlyWhen` | scripts/build_sclib_pbesol_preparation.py:29-30 | a line is read as a key and a literal if and only if the regular expression of assignments gives them: name and subscript, quoted text with doubled quotes, logical in any case, or number with sign, point and exponent, one comma at most, whitespace anywhere between |
| `DeckText.StripMeans` | scripts/build_sclib_pbesol_preparation.py:108-108 | stripping takes all whitespace off both ends and nothing else |
| `DeckText.StripOfFieldLine` | scripts/build_sclib_pbesol_preparation.py:107-108 | a written line strips to its bare assignment |
| `DeckGrammar.ReadDeck` | scripts/build_sclib_pbesol_preparation.py:103-135 | the reading loop gives the specified deck, or none where the source raises |
| `DeckGrammar.TraceDeck` | scripts/build_sclib_pbesol_preparation.py:107-133 | every recorded field and block limit was read on its recorded line, and every line was read inside the block its number says |
| `DeckReading.EveryLineIs` | scripts/build_sclib_pbesol_preparation.py:107-133 | in every deck that reads, each line is blank, opens or closes the group recorded there, assigns the field recorded there inside its group, or outside all groups names a card or is a recorded row: none is skipped |
| `DeckLayout.ReadsExactlyWhen` | scripts/build_sclib_pbesol_preparation.py:103-135 | a text reads if and only if its lines are proper and laid out as a deck: the groups' blocks in order, with known keys, accepted literals and no key twice, then the three cards, blank lines anywhere |
| `DeckRewrite.RuleFromLine` | scripts/build_sclib_pbesol_preparation.py:206-214 | the rules looked up by line number in the finished deck are those that the lines' own kinds give |
| `DeckRewrite.AddedLines` | scripts/build_sclib_pbesol_preparation.py:218-226 | reading the added lines of a group adds exactly their literals |
| `DeckRewrite.Simulates` | scripts/build_sclib_pbesol_preparation.py:217-231 | after every prefix of the source the derived reader is in a state that mirrors the source reader's |
| `DeckDelta.BuildRules` | scripts/build_sclib_pbesol_preparation.py:206-214 | the rule dictionary: replacements win over dropped fields and removed blocks |
| `DeckDelta.BuildInserts` | scripts/build_sclib_pbesol_preparation.py:215-215 | a line gets the additions of the group that ends on it, and any other line none |
| `DeckDelta.BuildSettings` | scripts/build_sclib_pbesol_preparation.py:235-239 | the settings are the source literals without removed groups and dropped fields, updated with the replacements and the additions |
| `DeckDelta.RewriteLines` | scripts/build_sclib_pbesol_preparation.py:216-231 | the rewriting loop emits exactly the specified lines and accounts for each: replaced fields are written anew, dropped fields and removed groups are gone, every other line stands character by character, and the additions stand in order before the end of their group |
| `DeckDelta.Derive` | scripts/build_sclib_pbesol_preparation.py:216-240 | the two coverage checks never fail: the ledger's before-lines are the source, its after-lines the derived deck, source and derived numbers run 1 to n in order, and every action is the one its lines say |
| `DeckDelta.Commutes` | scripts/build_sclib_pbesol_preparation.py:107-135 | rewriting commutes with reading: re-reading the derived text under the extended grammar succeeds with exactly the returned settings and the same cards, for every deck that reads |
| `DeckPreparation.RewriteFits` | scripts/build_sclib_pbesol_preparation.py:196-215 | every accepted source meets the conditions of the rewrite |
| `DeckPreparation.Prepare` | scripts/build_sclib_pbesol_preparation.py:103-240 | parsing and deriving: refused exactly for a source without the pinned groups, fields and values, or a prefix that is too long or has other characters; otherwise every line and every setting is accounted for by name, and the derived deck rereads to those settings and the source's cards |
| `DeckPreparation.SettingsByField` | scripts/build_sclib_pbesol_preparation.py:196-239 | the returned settings one by one: which fields each group has, which keep the source's literal, and the value of every replaced or added one, `nstep` by phase, `ecutrho` and `nbnd` as the profile's numbers |
| `DeckPreparation.DecimalWrites` | scripts/build_sclib_pbesol_preparation.py:201-201 | a number is written as the decimal digits that stand for it, with no zero in front |
| `Lattice.SearchIsExact` | scripts/build_discovery_host_references.py:42-54 | the finite box search is true if and only if some integer shift at all brings the points, in space, closer than the tolerance, in every invertible cell |
| `Lattice.InvertsExactlyWhen` | scripts/build_discovery_host_references.py:51-51 | the condition on the inverse is that it gives every vector back |
| `Lattice.NearIsInBox` | scripts/build_discovery_host_references.py:45-52 | a near shift lies in the box, by Cauchy and Schwarz on the rows of the inverse |
| `Lattice.SearchIsSymmetric` | scripts/build_discovery_host_references.py:42-54 | the relation is symmetric |
| `Lattice.SearchIsPeriodic` | scripts/build_discovery_host_references.py:42-54 | the relation is unchanged by integer translations of either point |
| `Lattice.NearChain` | scripts/build_discovery_host_references.py:42-54 | two points near a third are within twice the tolerance of each other |
| `NearestImage.PeriodicDistanceSquared` | scripts/build_discovery_structure_references.py:20-28 | the least of the 27 adjacent images; in upright cells with blunt axes, orthogonal and hexagonal ones among them, for points of the unit cell, the least of all images |
| `NearestImage.AdjacentIsEnough` | scripts/build_discovery_structure_references.py:20-28 | in those cells every integer shift is matched or beaten by one with entries in -1, 0, 1 |
| `NearestImage.ScanDecidesExactlyWhen` | scripts/build_discovery_structure_references.py:20-28 | in an invertible cell whose third axis is perpendicular to the others, the scan finds the nearest image of all points of the unit cell if and only if the inner product of the first two axes is at most the smaller of their squared lengths, or exactly half of the larger one |
| `NearestImage.ScanMisses` | scripts/build_discovery_structure_references.py:20-28 | in every other such cell two points of the unit cell have an image that all 27 adjacent ones exceed |
| `PlanarForm.AdjacentTranslate` | scripts/build_discovery_structure_references.py:20-28 | over blunt axes every integer translate of a vector is matched or beaten by an adjacent one |
| `PlanarForm.MissesSome` | scripts/build_discovery_structure_references.py:20-28 | over axes that are not blunt some vector has a translate that all adjacent ones exceed |
| `NearestImage.ScanMissesInSkewCell` | scripts/build_discovery_structure_references.py:20-22 | in a skew cell a shift by two can be nearer than every adjacent one |
| `OrbitGroups.GroupOrbit` | scripts/build_discovery_host_references.py:129-140 | the grouping loop: every operation joins the first group whose representative it is near, or opens one |
| `OrbitGroups.GroupsPartition` | scripts/build_discovery_host_references.py:129-140 | every operation is in exactly one group, near its representative and near no earlier one |
| `OrbitGroups.GroupsAreClasses` | scripts/build_discovery_host_references.py:129-140 | where nearness is an equivalence on the images the groups are its classes |
| `OrbitGroups.KeptImagesApart` | scripts/build_discovery_host_references.py:129-140 | no integer shift brings two kept images closer than the tolerance |
| `Utf8Order.ByteOrderIsTextOrder` | scripts/export_ml_foundation_snapshot.py:112-119 | byte order of UTF-8 encodings is code-point order (sections 1 and 3 of RFC 3629), and different texts have different bytes |
| `Utf8Order.EncodingForms` | scripts/export_ml_foundation_snapshot.py:112-119 | the encoding has the forms of section 3 of RFC 3629, and its bytes give the character back |
| `Utf8Order.CheckStrictOrder` | scripts/export_ml_foundation_snapshot.py:504-514 | the strict order comparison accepts exactly ascending keys |
| `Utf8Order.PassesExactlyWhenDistinct` | scripts/export_ml_foundation_snapshot.py:929-937 | rows pass it if and only if they are in byte order and no key repeats |
| `SnapshotRows.StreamRows` | scripts/export_ml_foundation_snapshot.py:477-528 | the writer's loop: the rendered rows and their number, or an error exactly for a missing or unordered key |
| `SnapshotRows.VerifyRows` | scripts/export_ml_foundation_snapshot.py:886-939 | the verifier's loop: the number of rows, or an error exactly for a bad line or an unordered key |
| `SnapshotRows.WrittenRowsVerify` | scripts/export_ml_foundation_snapshot.py:886-939 | what the writer writes is accepted with the same count if and only if the rows meet the field contract |
| `SnapshotRows.AcceptsExactlyWritten` | scripts/export_ml_foundation_snapshot.py:886-939 | a file is accepted with n rows if and only if n rows with the exact fields and ascending keys are written as that text |
| `SnapshotRows.AcceptedKeysDiffer` | scripts/export_ml_foundation_snapshot.py:929-937 | an accepted file repeats no key |
| `SnapshotChecksums.WriteChecksums` | scripts/export_ml_foundation_snapshot.py:690-697 | the file holds one line per name, in name order, with its digest |
| `SnapshotChecksums.ReadChecksums` | scripts/export_ml_foundation_snapshot.py:942-955 | the parser gives the digest of every name, or none exactly for a malformed line or a repeated name |
| `SnapshotChecksums.ChecksumsReadBack` | scripts/export_ml_foundation_snapshot.py:690-697 | what is written is read back as exactly the digests of the named files |
| `SnapshotChecksums.ChecksumsAreListed` | scripts/export_ml_foundation_snapshot.py:942-955 | an accepted checksum file has one line of digest, two blanks and name for every file it gives a digest of, and no other line |
| `SnapshotFiles.NameExactlyWhen` | scripts/export_ml_foundation_snapshot.py:853-861 | a path names a file if and only if it is relative, has no backslash, and apart from empty components and single dots is the file's own name, not two dots |
| `SnapshotFiles.NamesAreSafe` | scripts/export_ml_foundation_snapshot.py:853-861 | whatever a manifest path names is a plain file name, nothing outside the directory |
| `SnapshotFiles.PlainNames` | scripts/export_ml_foundation_snapshot.py:853-861 | a path without a slash names itself or is refused |
| `SnapshotFiles.SameFile` | scripts/export_ml_foundation_snapshot.py:853-861 | a slash behind a path and a leading dot and slash name the same file |
| `SnapshotFiles.TranslatedByLine` | scripts/export_ml_foundation_snapshot.py:1130-1136 | reading as text works line by line: each line end becomes a line feed and all else stays |
| `SnapshotFiles.LineEndsAgree` | scripts/export_ml_foundation_snapshot.py:1130-1136 | reading as text turns each of the three line ends into a line feed |
| `SnapshotBundle.VerifyEntries` | scripts/export_ml_foundation_snapshot.py:1030-1102 | the loop over the manifest's entries accepts exactly when every entry names, after its path is reduced to a file name, a file of its own that meets it, and collects their digests |
| `SnapshotBundle.VerifyBundle` | scripts/export_ml_foundation_snapshot.py:958-1155 | the verifier accepts exactly when header, counts, keys, entries, top level and hash files are all in order, the hash files as they read after line ends are translated, and nothing else is in the directory |
| `SnapshotBundle.AcceptedHeader` | scripts/export_ml_foundation_snapshot.py:958-1029 | the header of every accepted bundle, field by field |
| `SnapshotBundle.AcceptedManifest` | scripts/export_ml_foundation_snapshot.py:1030-1128 | the manifest of every accepted bundle has exactly the known data sets, counts and bytes of the files, a query digest for each, and declares neither vectors nor a chunk inventory |
| `SnapshotBundle.AcceptedLicense` | scripts/export_ml_foundation_snapshot.py:1075-1102 | every accepted bundle has a license that agrees with the manifest, is not cleared for release and closes the four policies |
| `SnapshotBundle.ManifestFixesBundle` | scripts/export_ml_foundation_snapshot.py:1030-1155 | a directory with the manifest of an accepted bundle, and no colliding digests, is accepted if and only if it has the same files with the same content, but for the line ends of the hash file and the layout of the checksum file |
| `SnapshotBundle.HashFileMayEndInReturn` | scripts/export_ml_foundation_snapshot.py:1130-1136 | an accepted bundle stays accepted when its hash file ends in a carriage return and a line feed |
| `SnapshotExport.StreamFiles` | scripts/export_ml_foundation_snapshot.py:788-804 | the export loop succeeds exactly when every data set is in order and has the captured number of rows, and then holds each as it was streamed, with its entry and query digest |
| `SnapshotExport.BuildBundle` | scripts/export_ml_foundation_snapshot.py:705-833 | when a bundle is built, and that it passes the verifier if and only if its rows have the fields of their data sets, the captured timestamp is aware, the revision not blank and the transaction snapshot not empty; what it holds is what was asked for and captured |
| `SnapshotExport.ExportSnapshot` | scripts/export_ml_foundation_snapshot.py:705-850 | what was built is verified and only published when accepted: an export is published exactly when arguments, capture, rows and captured texts are all in order; it then verifies, its manifest and license read back with the arguments, the captured texts and all counts, its data files are the rows, and there is no other file |
| `SnapshotExport.BundleDeclares` | scripts/export_ml_foundation_snapshot.py:549-607 | whatever is put together declares the arguments and the captured state, one field after the other |
| `SnapshotExport.BlankRevisionFails` | scripts/export_ml_foundation_snapshot.py:834-850 | an empty catalogue with a blank revision: a bundle is built, its own verification refuses it, and nothing is published |
| `FrontierCheckpoint.SaveKeeps` | api/services/similar_frontier_checkpoint.py:74-103 | a save keeps the tables sound, only adds targets and leaves every other list as it was |
| `FrontierCheckpoint.SavesExactlyWhen` | api/services/similar_frontier_checkpoint.py:74-103 | a list is saved under a new key exactly when it has 55 hits on different vectors, at distances from 0 to 2 in ascending order, and no stored target says otherwise of one of its vectors |
| `FrontierCheckpoint.FindsExactlyWhen` | api/services/similar_frontier_checkpoint.py:106-131 | a prefix is found exactly when the list is stored for these exclusions with 55 ranks and the prefix's ranks are of different targets that are there, at distances from 0 to 2 in ascending order; otherwise it is missing or corrupt, and what is found is the targets of the ranks |
| `FrontierCheckpoint.SaveThenFind` | api/services/similar_frontier_checkpoint.py:106-131 | what was saved is read back, any prefix of it |
| `FrontierCheckpoint.FindStable` | api/services/similar_frontier_checkpoint.py:106-131 | later saves never change what an earlier one reads as |
| `FrontierCheckpoint.OnlyReplays` | api/services/similar_frontier_checkpoint.py:98-103 | under a saved key nothing but the same list can be saved |
| `FrontierCheckpoint.ReplayIsAccepted` | api/services/similar_frontier_checkpoint.py:98-103 | saving the same list again is accepted and changes nothing |
| `FrontierCheckpoint.SaveHealthy` | api/services/similar_frontier_checkpoint.py:74-103 | a complete ordered list whose targets agree with those stored is always saved under a key of its own, and the tables keep agreeing |
| `FrontierBuild.Builder.SaveList` | api/services/similar_frontier_checkpoint.py:74-103 | the saving loop, with nothing kept of a refused list |
| `FrontierBuild.Builder.BuildPaper` | scripts/build_similar_frontier.py:157-199 | the sources of a paper in order: saved ones are skipped, each list saved reads as the answer given, it fails only where the answer for the first source without a list is missing or refused, and breaks off only at the limit; a paper saved before a crash is completed without a query |
| `FrontierBuild.Builder.BuildSlice` | scripts/build_similar_frontier.py:115-219 | one slice, however it ends: everything up to the cursor is saved, a saved source is never queried again, new lists read as the answers given, limits are kept; it stops only where a query is lost, where the process dies between a paper's last save and its cursor update, or where the scope changes; done without exhaustion it has reached a limit, and exhaustion means the whole inventory is saved |
| `FrontierBuild.Builder.BuildAll` | scripts/build_similar_frontier.py:115-219 | any number of slices with any limits, crashes and lost queries: no more finished slices without exhaustion than sources and papers were left, and, where answers agree on their targets, more undisturbed slices than that exhaust the inventory |
| `FrontierBuild.UndisturbedNotBroken` | scripts/build_similar_frontier.py:159-200 | a slice in which every query is answered in agreement with the checkpoint and nothing crashes is never broken off |
| `FrontierBuild.CursorStep` | scripts/build_similar_frontier.py:202-209 | the cursor moves by exactly one paper, and only over saved ones |
| `FrontierBuild.SaveStep` | scripts/build_similar_frontier.py:190-200 | saving one answer keeps coverage, the query log and the inventory, and adds exactly one list |
| `JsonScan.DecodeMore` | scripts/build_discovery_host_reference.py:45-62 | a decoded object is decoded the same when more text follows, and whatever decodes still does (sections 4 and 7 of RFC 8259) |
| `JsonScan.NoEarlyObject` | scripts/build_discovery_host_reference.py:45-62 | no proper prefix of an object's text is a complete value |
| `JsonScan.DecodeLess` | scripts/build_discovery_host_reference.py:45-62 | a value that ends inside the text read so far is decoded there |
| `ArrayReader.DrainMore` | scripts/build_discovery_host_reference.py:47-60 | draining a buffer in two steps is draining it at once |
| `ArrayReader.TakeRecords` | scripts/build_discovery_host_reference.py:48-60 | takes exactly the records that draining the buffer gives, numbered on from those before, and leaves the remainder that starts no complete value; fails exactly on a value that is not an object |
| `ArrayReader.ReadArray` | scripts/build_discovery_host_reference.py:45-62 | for every split into chunks: the records, rows and remainder of the whole text at once, unless the bound is hit, and it is hit exactly when some prefix leaves too long a remainder |
| `ArrayReader.FittingNeverOverfull` | scripts/build_discovery_host_reference.py:61-62 | on a text whose records fit the bound it is never hit |
| `ArrayReader.SelectedExactly` | scripts/build_discovery_host_reference.py:55-58 | every wanted record and no other is kept, once, under its row number, in order |
| `JsonPrint.PrintedArrayIsRead` | scripts/build_discovery_host_reference.py:45-62 | an array of objects, written with any blanks, escapes, numbers and non-finite words, is read as exactly its objects' texts in order |
| `JsonParse.ReadsExactlyWhen` | scripts/build_discovery_host_reference.py:52-52 | a text is read as one value to its end if and only if the grammar gives it (sections 2 to 7 of RFC 8259, with NaN and the infinities) |
| `JsonParse.RecordsAreObjects` | scripts/build_discovery_host_reference.py:45-62 | the reader loses and invents nothing: its records are objects, with nothing but blanks, commas and opening brackets before each, and what it leaves is the end of the text |
| `CanonicalValue.Check` | scripts/index_migration_contract.py:57-70 | the worklist accepts exactly the values with at most 100000 nodes (keys included), depth at most 32, text keys and permitted leaves |
| `CanonicalValue.DepthByPaths` | scripts/index_migration_contract.py:60-65 | the depth bound holds exactly when every path from the value has that many steps at most |
| `CanonicalValue.TypedByPaths` | scripts/index_migration_contract.py:63-68 | a value is well typed exactly when every leaf on every path has a permitted type and every dictionary there has text keys |
| `CanonicalValue.PoppedFits` | scripts/index_migration_contract.py:60-69 | a popped value fits exactly when it is permitted itself and its children fit one level down |
| `VisibilityResolve.VisibilityByFields` | scripts/audit_source_visibility_snapshot.py:57-75 | where chains end, exactly the complete materials of the graph have a visibility: the policy's answer to the material and its parent's visibility |
| `VisibilityResolve.EndsExactlyWhen` | scripts/audit_source_visibility_snapshot.py:60-61 | a chain ends within a bound exactly when no way up through complete materials is longer |
| `VisibilityResolve.OrderDoesNotMatter` | scripts/audit_source_visibility_snapshot.py:57-83 | where every parent chain ends within 32 complete materials, resolving in any order gives each material the plain recursion's answer |
| `VisibilityOrder.OrderFreeExactlyWhen` | scripts/audit_source_visibility_snapshot.py:57-83 | for every policy the answers agree with the plain recursion in every order, if and only if, apart from materials that name themselves as parent, every parent chain ends within 32 complete materials; the policy that keeps its parent's whole answer needs exactly that |
| `VisibilityOrder.OrderDoesNotMatterApartFromLoops` | scripts/audit_source_visibility_snapshot.py:57-83 | under that condition the same holds for every policy |
| `VisibilityOrder.LongOrCyclic` | scripts/audit_source_visibility_snapshot.py:60-61 | a chain that does not end within the limit has 33 different materials or runs into a cycle |
| `VisibilityResolve.MemoGrows` | scripts/audit_source_visibility_snapshot.py:59-61 | on every graph, cycles included: what is resolved stays, and only complete materials off the path are added |
| `VisibilityResolve.PlainIsByChain` | scripts/audit_source_visibility_snapshot.py:57-71 | where all chains end within the limit, the guarded recursion gives the chain's own answer on every path that leads to a material |
| `VisibilityResolve.CycleDependsOnOrder` | scripts/audit_source_visibility_snapshot.py:57-82 | on a cycle of two the answers depend on the order |
| `VisibilityResolve.Resolver.Resolve` | scripts/audit_source_visibility_snapshot.py:57-75 | the recursive method terminates on every graph and leaves exactly the specified memo |
| `VisibilityResolve.Resolver.ResolveAll` | scripts/audit_source_visibility_snapshot.py:81-86 | the loop over materials: each answer is that of the memo after the materials before it |
| `SampleLists.CutBeforeInsert` | scripts/audit_anomaly_aggregation.py:199-201 | cutting before an insertion and after it is the same as cutting after it: what was cut off cannot come back |
| `Sorting.SortIsStable` | scripts/audit_anomaly_aggregation.py:199-199 | the sort keeps the order of elements that its key does not tell apart |
| `SampleLists.FirstOfSorted` | scripts/audit_anomaly_aggregation.py:199-201 | as many samples as the limit allows, in order, and every sample left out is behind every one kept |
| `SampleLists.StreamWithPop` | scripts/audit_anomaly_aggregation.py:193-201 | the bounded list is the first entries of a stable sort of all samples, for every limit, zero included |
| `SampleLists.StreamWithCut` | scripts/audit_property_aggregation.py:230-234 | the form that cuts at the limit gives the same list, and keeps nothing under a limit of zero |
| `SampleLists.UniqueIdsDecide` | scripts/audit_property_aggregation.py:197-234 | with unique ids the result does not depend on the order of the rows |
| `SampleLists.UniqueScopedIdsDecide` | scripts/audit_anomaly_aggregation.py:193-201 | with unique pairs of scope and id the anomaly audit's samples do not depend on it either |

## Left out

- File descriptors, permissions, locks, fsync, temporary directories, atomic renames, symbolic link checks and SQLite pragmas and integrity checks: platform behaviour; only the atomic effect of a commit is kept.
- SHA-256: digests are kept as the value that is hashed, or as an uninterpreted function; only `SnapshotBundle.ManifestFixesBundle` needs two particular bundles to be free of collisions.
- The report's completion manifest digest: the report keeps the manifest itself.
- Rebuilding an input from the input pack's tables: a pack is its sequence of members, numbered from 1, with unique ids.
- The times stored with attempts and outcomes, the worker's log output, rate pacing by the clock and threads: a pass of the loop gets an arbitrary number of sends and arbitrary finished calls.
- Binary32 rounding of vectors, token counting and the embedding contract's own hashes: parameters, with the law that storing a vector keeps its hash.
- EmbeddingRun.Run: termination is stated over passes in which the rate limit lets a call start and calls in flight have returned; a provider that never returns is outside it.
- Floating point in weights, cells and distances: exact reals; the squared distance stands for the distance.
- Lattice.SearchIsExact: the radii are given as the exact square roots of what the source computes.
- Parsing CIF files, applying symmetry operations and reading cells through Gemmi: points and cells are given.
- DeckPreparation.Prepare: the pinned values, species, coordinates and mesh of a source, the pseudopotential directory check and the bound on the size of numbers are one predicate each; digits, letters and case are those of ASCII.
- The reason texts, schema names and hashes of the delta document, UPF validation, geometry and publication of the prepared directory.
- `select`, `service_groups` and the other steps of the API test plan: set unions and constants.
- PostgreSQL, the queries' text and the captured counts of records: rows, counts and metadata are given; `ORDER BY ... COLLATE "C"` is byte order of UTF-8.
- The contents of a bundle's files are the texts that their bytes decode to; a file that is not UTF-8 is not modelled.
- NearestImage.ScanDecidesExactlyWhen: cells whose third axis is not perpendicular to the first two, which the scan's own comment rules out.
- SnapshotExport.ExportSnapshot: the JSON serialisation of rows and documents is a pair of functions with the law that reading a written document gives it back.
- The historical declaration checks and messages of the verifier: a failed check is one refusal; the scientific declaration is one text.
- Repeated names among a snapshot's own columns, secrets in error messages and the command line.
- FrontierBuild.Builder.BuildSlice: the inventory is fixed during a history and papers come in one text order; the disk space check, backups in progress and changed pins are answers that stop a slice.
- Vector decoding, neighbour search and coverage audits of the frontier.
- ArrayReader.ReadArray: which records are wanted is a predicate on their text; the final comparison with the pinned numbers of rows and entries, and the limit of the interpreter's recursion, are not modelled.
- JsonParse.ReadsExactlyWhen: where values end and what their texts are is modelled, the decoded values themselves are not.
- DeckAssign.ParsesExactlyWhen: the expression's letters and digits are those of ASCII, where the source's also match a few other characters that fold to letters and other decimal digits.
- CanonicalValue.Check: the two error codes and the serialised size limit; values that contain themselves.
- Visibility policy, anomaly review and source statuses: one function of the material and its parent's answer.
- The counters and change records of the two aggregation audits: a row gives a sample or none.
