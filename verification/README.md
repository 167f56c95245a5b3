# Form engine: a verified model

This project models the hard logic of a schema-driven form engine and proves properties of the model
with Dafny 4.11. `dafny verify dfyconfig.toml` checks all of it.

Each module follows one component. Functions give what one step does; where the program updates
objects in place there is also a class whose methods are proved equal to those functions; lemmas over
whole runs then say what the component promises. Where those laws speak of what never happens, an
`Effects` module says what does happen, without the functions that compute it. Code that can be interrupted (by an await, a timer,
a subscriber or an abort signal) is cut into the stretches that run undisturbed, and a run is any
sequence of such stretches with any arguments and any answers of validators, listeners and hosts.

| files | component |
|---|---|
| `Collections`, `JsonData`, `Bindings`, `Decimal`, `Strings` | sets and sequences, JSON trees, typed paths, decimal and separated text |
| `WitnessChecker`, `OmissionSupplier`, `OmissionCompleteness`, `Ownership`, `OwnershipDecisions`, `OmissionSafety` | hidden values removed from a submit payload, the witness of the removal, its independent check, and the ownership rules behind it |
| `OverlapIndex`, `OverlappingOwners` | the two binding tries against the pairwise prefix test |
| `GraphEquality` | structural equality on cyclic object graphs |
| `ImmutableWrite`, `RowMetadata`, `Paths` | immutable writes, array rows and their metadata, JSON Pointer and dot paths |
| `Issues`, `IssueOrder`, `FormState`, `Store`, `StoreEffects`, `Notification` | issue normal form, form state, the transactional store with its stamps and guards, its notification loop |
| `FieldArray`, `WriteEffects` | the array helpers of a field on the store: items and metadata together; what writes and array plans do |
| `Validation`, `ValidationInvariant`, `ValidationRuns`, `ValidationRuntime`, `ValidationEffects`, `FinalGeneration`, `FinalEffects` | asynchronous validation and the FINAL submit witness |
| `Scheduler`, `ScopedAsyncScheduler`, `SchedulerEffects` | the scheduler of per-field asynchronous validators |
| `ActionLanes`, `ActionExecutor`, `LaneEffects` | the lanes of declarative actions |
| `FsxTree`, `FsxGrammar`, `FsxReadings`, `FsxParser`, `FsxLowerer`, `FsxNodes` | the FSX front end |

Results that differ from what one might expect of the program:

- `structuredEqual` can accept two graphs that share objects although no isomorphism maps one root to
  the other (`GraphEquality.SharedTopologyDiffers`). What it decides exactly is
  `GraphEquality.EqualIffCorresponding`; which of the accepted graphs are isomorphic is
  `GraphEquality.EqualIsIsomorphicIffHome`, and those that share at most objects without further
  objects always are (`GraphEquality.EqualIffIsomorphic`).
- An array action planned by `offset` trusts the index of its own row: with a stale index it plans a
  move whose source row does not exist (`RowMetadata.StaleOffset`). It acts inside the array exactly
  when that index still does (`RowMetadata.PlansInRange`).
- An array operation writes the items first and lets the metadata follow in an update of its own. When a
  metadata key such as `rows.0.first name` cannot be printed at its new row, that update throws: the items
  have moved, the metadata stays behind, and the update's transaction stays open, so the undoing
  operation is refused like every other (`FieldArrays.AwkwardRoundTrip`). An operation and its undoing
  restore data and metadata exactly when every row key can be printed or the operation changed no item
  (`FieldArrays.RoundTrip`).
- Issues at different paths can have the same duplicate key, because segments are joined with dots
  (`Issues.DottedPathsCollide`), and so can issues with different texts, because fields are joined with
  bars (`Issues.BarsCollide`). Keys are equal exactly when the fields read the same once split at bars
  (`Issues.KeysShowFields`), the keys of two paths exactly when the paths read the same once split at
  dots (`Issues.KeysShowReadings`), and a key belongs to one path alone exactly for a single segment that
  is neither empty nor dotted (`Issues.KeyIsUnique`).
- `toDot` prints the empty ui path as a text `parsePath` refuses (`Paths.EmptyUiPath`), and prints a
  negative index as a text that reads back as a key. Every other printable path comes back
  (`Paths.DotRoundTrip`).
- The producer of a witness does not limit it, so the checker refuses what the producer made exactly
  when the witness has more than 256 entries (`OmissionCompleteness.ProducedIsAccepted`), a number that
  the decisions determine (`OmissionCompleteness.SizeOfProduced`).
- A store can stay busy, refusing every transaction until it is disposed: after a transaction that its
  holder commits or rolls back directly (`Stores.EndedDirectlyRefuses`), and after one that is left open,
  by an update whose mutator throws or whose commit fails, by a status projection whose commit fails, or
  by a holder that loses it (`Stores.LeftOpenRefuses`). It is busy exactly after one of these without an
  effective disposal since (`Stores.BusyIffLetGo`). Only the first disposal has an effect: what happens
  after it keeps the store busy for good.
- A write without an admitted target can leave an array with a hole or fail half way; it succeeds
  densely exactly when every array it makes starts at 0 (`ImmutableWrite.WriteIsDense`).

## Model

| member | source | states |
|---|---|---|
| WitnessChecker.Verify | packages/core/src/submit-adapter-proof.ts:183-201 | The loops of the checker accept exactly the witnesses that meet the declarative reading: the projection prunes the original, the omitted paths are exactly the missing ones and are gone from the final data, protected values hold, anchored rows stay in place |
| WitnessChecker.Compare | packages/core/src/submit-adapter-proof.ts:50-71 | The walk over original and projection succeeds exactly when the one prunes the other, and the deleted paths it collects are exactly the missing ones below the start, each once |
| WitnessChecker.VerifyOmissions | packages/core/src/submit-adapter-proof.ts:131-162 | Accepts exactly when the listed paths are the deleted ones, once each, of the stated type, with their containers intact, and nothing at them is left |
| WitnessChecker.VerifyProtected | packages/core/src/submit-adapter-proof.ts:164-181 | Accepts exactly when every protected path carries its witnessed value in projection and final data, with no two protected paths overlapping each other or an omission |
| WitnessChecker.VerifyAnchors | packages/core/src/submit-adapter-proof.ts:107-129 | Accepts exactly when every array with an omission below one of its rows is anchored, once, by row identities that agree in all three trees |
| WitnessChecker.VerifyRows | packages/core/src/submit-adapter-proof.ts:73-105 | The rows of an anchored array carry pairwise different identities, and row i of the original is row i of projection and final data |
| WitnessChecker.AcceptedProjection | packages/core/src/submit-adapter-proof.ts:50-71 | Soundness: what is accepted is the original with all omitted paths removed at once by an independent reference removal, and nothing else changed |
| WitnessChecker.AcceptedOmission | packages/core/src/submit-adapter-proof.ts:131-162 | Soundness: nothing at or below an omitted path is left in the projection or in the final data |
| WitnessChecker.AcceptedProtection | packages/core/src/submit-adapter-proof.ts:164-181 | Soundness: a protected value and everything inside it is the witnessed one in projection and final data |
| WitnessChecker.AcceptedRows | packages/core/src/submit-adapter-proof.ts:73-129 | Soundness: for an array an omission goes through, row i of the final data is identified with row j of the original exactly when i equals j, so no permutation passes |
| OmissionSupplier.RemoveAllAt | packages/declarative/src/omission-structure.ts:36-49 | After the removals nothing is left at or below a removed path, every other path reads what it read before less what was removed below it, and a leaf is untouched |
| OmissionSupplier.RemovedAreMissing | packages/declarative/src/omission-structure.ts:36-49 | With no removed path above another, the paths missing afterwards are exactly the removed ones |
| OmissionSupplier.ProtectedPaths | packages/declarative/src/omission-supplier.ts:103-117 | The protected paths cover every other binding, keep the first of overlapping ones, and the loop fails exactly when a protected binding clashes with an omission |
| OmissionSupplier.RowKey | packages/declarative/src/omission-structure.ts:51-67 | Finds the first key whose values are primitive, different in every row and unchanged by the projection, and fails exactly when there is none |
| OmissionSupplier.Anchors | packages/declarative/src/omission-structure.ts:69-85 | Anchors exactly the arrays some omission goes through, each once, and fails exactly when one of them has no row key |
| OmissionSupplier.ProjectParts | packages/declarative/src/omission-supplier.ts:119-152 | Produces data and witness exactly for the inputs that satisfy a condition on paths, containers and row keys, and they are the original with the exclusive paths removed and a truthful witness |
| OmissionCompleteness.ProducedIsAccepted | packages/core/src/submit-adapter-proof.ts:183-201 | Completeness: whatever the producer makes is accepted with final equal to projected data if and only if its witness stays within 256 entries |
| OmissionCompleteness.ProtectedAreOutermost | packages/declarative/src/omission-supplier.ts:103-117 | The producer protects exactly as many values as there are outermost present paths among the other bindings |
| OmissionCompleteness.SizeOfProduced | packages/declarative/src/omission-supplier.ts:119-152 | The number of entries of a produced witness is determined by data and decisions: one a removed path, one an outermost other path, one an array a removed path goes through |
| OmissionCompleteness.ProjectBoundOmission | packages/declarative/src/omission-supplier.ts:154-198 | The self-checked projection returns a result if and only if the input can be projected and the witness its decisions determine stays within the cap, and the result is the accepted projection of these very decisions |
| Ownership.FindUnclaimed | packages/declarative/src/runtime-ownership.ts:134-165 | The recursive report of unclaimed positions equals its specification over the capture |
| Ownership.LeavesAccounted | packages/declarative/src/runtime-ownership.ts:134-165 | Every leaf of the capture is named or extended by a field's binding, or lies at or below a position reported as unknown |
| Ownership.ProjectOwnership | packages/declarative/src/runtime-ownership.ts:167-230 | The index-based protection step computes the ownership model defined by naive counting of overlapping bindings |
| OwnershipDecisions.FieldIsExclusive | packages/declarative/src/runtime-ownership.ts:195-214 | A field is decided exclusive if and only if it is bound and inactive, no active field, nothing unclaimed and no stray owner overlaps it, and no visible repeater lies strictly below it, all in terms of the snapshot |
| OwnershipDecisions.FieldIsProtected | packages/declarative/src/exclusive-binding-decision.ts:27-42 | A field is decided protected if and only if it is active, or could be omitted without doubt and an active field overlaps it or a visible repeater lies strictly below it |
| OwnershipDecisions.RepeaterIsExclusive | packages/declarative/src/runtime-ownership.ts:195-214 | The same for a repeater, which no other repeater protects |
| OwnershipDecisions.ReportedIffOutermost | packages/declarative/src/runtime-ownership.ts:134-165 | A position is reported as unknown if and only if it is there, nothing claims it, and all containers on its way are claimed |
| Ownership.DecideExclusiveBindings | packages/declarative/src/exclusive-binding-decision.ts:27-81 | The index-based classification agrees with the decision defined by naive counting |
| Ownership.ExclusiveIsBound | packages/declarative/src/runtime-ownership.ts:65-84 | A field decided exclusive is present in the data, so removing it cannot fail |
| Ownership.ExclusiveIsClear | packages/declarative/src/exclusive-binding-decision.ts:27-42 | An exclusive owner is inactive and overlaps no visible or included field and nothing unknown |
| Ownership.OmissionIsSafe | packages/declarative/src/exclusive-binding-decision.ts:27-66 | Omission safety: every leaf at or below an exclusive binding is named or extended by a field's binding, and no active field touches it |
| OmissionSafety.LostLeafIsInactive | packages/declarative/src/omission-supplier.ts:154-198 | End to end, each leaf a projection lost was claimed by a field and touched by no active one |
| OmissionSafety.OmittedIsRemovable | packages/declarative/src/exclusive-binding-decision.ts:27-66 | Every path the ownership rules let the producer remove names a record field that is present, and nothing unknown overlaps it |
| OmissionSafety.ProjectableIffSeparable | packages/declarative/src/omission-supplier.ts:119-152 | The decisions of an ownership model can be projected if and only if the data can be cloned, bindings and unknown positions can be typed, and the removed paths are apart, clear of other present fields and anchored |
| OmissionSafety.ProjectCapture | packages/declarative/src/omission-supplier.ts:154-198 | The chain from capture to payload yields a result if and only if the form is current and without diagnostics, its decisions can be projected and their witness fits the cap; the result is the accepted projection of its own decisions |
| OverlapIndex.OwnershipOverlapIndex.Add | packages/declarative/src/ownership-overlap-index.ts:18-36 | Adding a binding to the heap of nodes extends the ghost sequence of bindings by it and keeps every node's tallies true |
| OverlapIndex.OwnershipOverlapIndex.Query | packages/declarative/src/ownership-overlap-index.ts:38-49 | After any adds a query returns the numbers of equal, strictly extending and prefix-comparable bindings, as counted pair by pair |
| OverlappingOwners.VisitFlags | packages/declarative/src/scoped-async-overlaps.ts:15-40 | The visit of the trie flags exactly the owners that have a comparable partner or lie below one |
| OverlappingOwners.FindOverlappingOwners | packages/declarative/src/scoped-async-overlaps.ts:15-40 | Returns exactly the owners that the pairwise check of the synchronous host would reject |
| GraphEquality.EqualIffCorresponding | packages/core/src/equality.ts:7-51 | On every finite heap equality terminates, and it holds exactly when some partial bijection, followed up to identity, relates the two values |
| GraphEquality.EqualIffIsomorphic | packages/core/src/equality.ts:7-51 | On graphs that share no object, or only objects that hold no further objects, it holds exactly when a label-preserving isomorphism maps one root to the other |
| GraphEquality.EqualIsIsomorphicIffHome | packages/core/src/equality.ts:7-51 | Whatever two graphs share, given that they compare equal an isomorphism relates their roots if and only if everything reached from an object paired with itself can be compared and was paired with nothing else |
| GraphEquality.SharedEqual | packages/core/src/equality.ts:15-33 | A family of graphs with a shared object is accepted as equal |
| GraphEquality.SharedExampleExists | packages/core/src/equality.ts:15-33 | That family is not empty |
| GraphEquality.SharedTopologyDiffers | packages/core/src/equality.ts:15-33 | No isomorphism of the whole heap relates the roots of that family, so the identity shortcut loses topology |
| GraphEquality.StructurallyEqual | packages/core/src/equality.ts:7-46 | The version that updates the two correspondence maps in place computes the specified answer |
| ImmutableWrite.ValidateWriteTarget | packages/expressions/src/write-target.ts:34-50 | The loop admits exactly the paths whose every container exists and can be inspected and whose last step is a field, or an index of its array up to the length; it returns the last container |
| ImmutableWrite.SetImmutablePath | packages/core/src/immutable-path.ts:66-69 | The checking loop and the copying recursion together compute the specified write, refusing exactly the inputs it refuses |
| ImmutableWrite.WriteLens | packages/core/src/immutable-path.ts:24-69 | For admitted targets and safe segments a write succeeds, reads back, keeps every path that does not touch it, keeps the key order of records, is absorbed by a later write, and does nothing when it writes what is there |
| ImmutableWrite.ElsewhereKept | packages/core/src/immutable-path.ts:46-64 | A path that does not overlap the written one, segments compared as strings, reads what it read before |
| ImmutableWrite.FreshIsDense | packages/core/src/immutable-path.ts:46-64 | Below a missing position a write leaves no hole if and only if every array-like segment is 0 |
| ImmutableWrite.WriteIsDense | packages/core/src/immutable-path.ts:24-69 | A write into any root succeeds with dense arrays if and only if the existing containers pass the check and every array made below the first missing position starts at 0 |
| WriteEffects.WrittenReads | packages/core/src/immutable-path.ts:24-64 | Whatever a write without an admitted target writes densely reads back |
| WriteEffects.WrittenKeeps | packages/core/src/immutable-path.ts:24-64 | And every path that does not overlap it reads as before, new containers or not |
| ImmutableWrite.AdmittedIsWritten | packages/expressions/src/write-target.ts:25-50 | Any target the expression layer admits is written without failure, and the written tree has no hole |
| Paths.TwoPassIsUnescape | packages/core/src/path-pointer.ts:11-28 | Replacing ~1 first and ~0 second equals decoding the escapes of sections 3 and 4 of RFC 6901 from left to right, on every validly escaped segment |
| Paths.TwoPassIsEscape | packages/core/src/path-parser.ts:100-103 | The two replacements of the encoder equal escaping character by character |
| Paths.SegmentRoundTrip | packages/core/src/path-pointer.ts:11-28 | Every text encodes to a valid, slash-free segment that decodes to it |
| Paths.KeyPathsRoundTrip | packages/core/src/path-parser.ts:93-103 | Parsing the pointer of a data path, the empty one included, gives the path back if and only if all segments are strings |
| Paths.PathOfPointer | packages/core/src/path-pointer.ts:4-28 | Every valid pointer, the empty one included, is what its parsed path prints |
| Paths.DotRoundTrip | packages/core/src/path-parser.ts:117-136 | For every printable path, parsing its dot form gives it back if and only if it is not the empty ui path and no index is negative |
| Paths.DotOfParse | packages/core/src/path-dot.ts:14-53 | A text whose parsed path can be printed is printed back unchanged if and only if it is no slash pointer |
| Paths.EmptyUiPath | packages/core/src/path-parser.ts:134-135 | The printed empty ui path does not parse |
| Paths.ValidatePointerEscapes | packages/core/src/path-pointer.ts:16-28 | The index loop accepts exactly the texts whose every tilde starts an escape |
| Paths.PathParser.Lookup | packages/core/src/path-parser.ts:46-80 | With default namespaces the bounded cache cannot be observed: every answer is the pure parser's and errors are not cached |
| RowMetadata.Reindex | packages/core/src/field-meta-shift.ts:59-85 | The loop fails exactly when some key cannot be printed, and otherwise its result holds exactly the entries carried over, one for one |
| RowMetadata.NewKeysDiffer | packages/core/src/field-meta-shift.ts:59-85 | No two metadata keys collide under a row step, whether dot or pointer keys |
| RowMetadata.RowKeeps | packages/core/src/field-meta-shift.ts:59-85 | Each entry of a surviving row, any descendant and either kind of key, is found at that row's new index |
| RowMetadata.RowComesFrom | packages/core/src/field-meta-shift.ts:59-85 | Each entry found in a row afterwards belonged to the row that moved there, so an inserted row has none |
| RowMetadata.OutsideKeeps | packages/core/src/field-meta-shift.ts:59-85 | Keys outside the array's rows are untouched |
| RowMetadata.ReindexCancels | packages/core/src/field-meta-shift.ts:11-57 | Reindexing by a step and then by one that undoes it restores the metadata exactly |
| RowMetadata.InsertCancels | packages/core/src/field-meta-shift.ts:11-21 | Removing at the inserted index undoes an insertion |
| RowMetadata.MoveCancels | packages/core/src/field-meta-shift.ts:123-128 | Moving back undoes a move |
| RowMetadata.SwapCancels | packages/core/src/field-meta-shift.ts:46-57 | Swapping again undoes a swap |
| RowMetadata.InsertFollows | packages/core/src/array-helpers.ts:48-55 | Items move under an in-range insertion exactly as the metadata's row step says |
| RowMetadata.RemoveFollows | packages/core/src/array-helpers.ts:39-46 | Items move under an in-range removal exactly as the metadata's row step says |
| RowMetadata.MoveFollows | packages/core/src/array-helpers.ts:57-67 | Items move under an in-range move exactly as the metadata's row step says |
| RowMetadata.SwapFollows | packages/core/src/array-helpers.ts:69-78 | Items move under an in-range swap exactly as the metadata's row step says |
| FieldArrays.RoundTrip | packages/core/src/array-helpers.ts:39-78 | Inserting and removing, moving and moving back, swapping twice: data and metadata come back, but for the mark on the array's own entry, if and only if every row key can be printed at its new row or the operation changed no item; otherwise the store stays busy and the undoing is refused |
| FieldArrays.AwkwardRoundTrip | packages/core/src/form-runtime.ts:266-272 | The failing inputs: for any array with a touched first-row cell whose name cannot be printed with dots, the inserted row stays and the store refuses every transaction from then on |
| FieldArrays.FirstNameIsAwkward | packages/core/src/field-policy.ts:59-64 | The metadata key "rows.0.first name" is one of them |
| FieldArrays.FirstStep | packages/core/src/array-helpers.ts:39-78 | An operation on an array that can be written puts its items in place; the metadata follows them, or, when some row key cannot be printed, stays while the store becomes busy |
| FieldArrays.ArrayWrites | packages/core/src/immutable-path.ts:66-69 | An array that is there can be overwritten when its containers pass the check, reads back, and writing the old one back gives the old data |
| FieldArrays.FieldArray.Set | packages/core/src/pipeline.ts:355-377 | A write through the pipeline is refused beside another transaction, is rolled back when it fails, and otherwise commits the written data with the array's entry marked |
| WriteEffects.AcceptedWrite | packages/core/src/pipeline.ts:184-200 | An accepted write reads back, keeps what it does not touch, and marks exactly the array's own entry, touched and, if it was not, dirty |
| WriteEffects.AcceptedIff | packages/core/src/pipeline.ts:355-377 | It is accepted if and only if no transaction is under way, nothing vetoes or throws, and the target can be written densely; otherwise the store is as before |
| FieldArrays.FieldArray.Follow | packages/core/src/form-runtime.ts:266-272 | The update of the metadata carries every entry to its row, or throws exactly when some key cannot be printed and then leaves its transaction open |
| FieldArrays.FieldArray.InsertValue | packages/core/src/array-helpers.ts:48-55 | The slices around the item are written and the metadata shifted, as the specified operation on the store |
| FieldArrays.FieldArray.MoveValue | packages/core/src/array-helpers.ts:57-67 | Splicing the row out and in on a copy, writing it and moving the metadata is the specified operation on the store, its failure included |
| RowMetadata.FormatOfParse | packages/core/src/field-meta-shift.ts:87-121 | A metadata key that parses and can be printed is printed back unchanged |
| RowMetadata.ParseOfFormat | packages/core/src/field-meta-shift.ts:87-121 | A printed metadata path parses to itself, and to the same kind of key |
| RowMetadata.PlansInRange | packages/declarative/src/action-builtins.ts:145-208 | Every ready plan acts inside the array, except that a plan by offset does so if and only if its own row index still does |
| WriteEffects.InsertPlanned | packages/declarative/src/action-builtins.ts:145-155 | An insertion is planned exactly at the named row, or else the action's own, when it lies in the array or at its end |
| WriteEffects.ReorderRefused | packages/declarative/src/action-builtins.ts:179-182 | A move or swap by from and to is refused as a payload exactly when one of its ends is not named by a safe integer |
| RowMetadata.StaleOffset | packages/declarative/src/action-builtins.ts:172-178 | A stale row index one past the end yields a ready move whose source row does not exist |
| Issues.IssuesChain | packages/core/src/validation.ts:5-50 | With or without an order of stages the comparison of issues chains over any three issues, so it is a preorder |
| Issues.IssuesFlip | packages/core/src/validation.ts:5-50 | With or without an order of stages, swapping the arguments flips the comparison, so it is total |
| Issues.SortIsStable | packages/core/src/validation.ts:17-54 | Sorting keeps issues that compare equal in their order |
| Issues.SortSorts | packages/core/src/validation.ts:17-54 | The sorted issues are in order pair by pair |
| IssueOrder.ComparisonIsOrder | packages/core/src/validation.ts:5-54 | The comparison is the order by stage, severity, namespace, path, code, validator and message, each stated without the comparison's own functions: listed stages before unlisted ones by their last listing, errors before warnings before information, data before ui, texts and paths at their first difference |
| IssueOrder.SortedMeansOrdered | packages/core/src/validation.ts:17-54 | No sorted issue precedes, in that order, one that stands before it |
| Issues.SortKeeps | packages/core/src/validation.ts:17-54 | Sorting loses and duplicates nothing |
| Issues.DedupeIssues | packages/core/src/validation.ts:62-72 | The filter with its set of seen keys computes the specified deduplication |
| IssueOrder.FirstsAreKept | packages/core/src/validation.ts:62-72 | Deduplication keeps exactly the first issue of every key, in the order they came |
| Issues.NormalForm | packages/core/src/validation.ts:74-79 | For any order of stages the normal form is sorted, has one issue a key, loses no key and is its own normal form |
| Issues.KeysShowReadings | packages/core/src/validation.ts:56-60 | Issues that differ only in their paths have the same duplicate key if and only if the paths read the same once every segment is split at its dots, the empty path reading like one empty segment |
| Issues.DotFreeKeysDiffer | packages/core/src/validation.ts:56-60 | For non-empty paths without dots the keys are equal if and only if the texts of the segments are |
| Issues.DottedPathsCollide | packages/core/src/validation.ts:56-60 | Every path that is empty, has an empty or a dotted segment alone, or has several segments shares its key with a path of other texts |
| Issues.KeyIsUnique | packages/core/src/validation.ts:56-60 | A path's key belongs to its texts alone if and only if it is one segment, neither empty nor dotted |
| Issues.KeysShowFields | packages/core/src/validation.ts:56-72 | Any two issues have the same duplicate key if and only if both were emitted under one id, or neither was emitted and their fields read the same once split at bars |
| Issues.BarsCollide | packages/core/src/validation.ts:56-60 | A bar moved from the validator's id into the message leaves the key as it was |
| Issues.BarFreeKeysDiffer | packages/core/src/validation.ts:56-60 | Issues without bars in their fields share a key if and only if they agree in every field, their paths up to the reading |
| FormStates.MetadataIsNotSemantic | packages/core/src/store-metadata.ts:58-116 | No metadata change touches data, ui state, policy or stage, and each leaves the rendered issues in step with the retained ones |
| FormStates.CompletionIsGuarded | packages/core/src/attempt-issues.ts:50-72 | Only the running attempt of that id and revision is completed, and it fails exactly when some error comes first among the issues with its key |
| StoreEffects.CompletionEnds | packages/core/src/attempt-issues.ts:50-73 | A completed validation ends exactly the running attempt it names, as failed if its issues hold an error and as succeeded otherwise |
| StoreEffects.RejectionFails | packages/core/src/attempt-issues.ts:75-87 | Only a succeeded attempt can be rejected; it then fails with the retained issues before its own |
| StoreEffects.OutcomeRecorded | packages/core/src/store-metadata.ts:58-98 | The outcome of a submit is recorded under its id, with its issues added to those there are |
| Stores.StampsAreSound | packages/core/src/store.ts:105-286 | Over any run of store operations equal write counts mean equal data, ui state, policy and stage, and with equal epochs also equal ownership |
| Stores.RunGrows | packages/core/src/store.ts:105-286 | Over any run no counter decreases, and a disposed store stays disposed |
| Stores.RunIsSound | packages/core/src/store.ts:105-328 | Over any run a transaction's baseline is the current state, and rendered issues stay in step with retained ones |
| Stores.GuardIsSound | packages/core/src/owned-semantic-guard.ts:5-20 | A guard taken in ownership mode never accepts a semantic change |
| Stores.GuardIsExact | packages/core/src/owned-semantic-guard.ts:5-20 | Over any run the guard turns false if and only if some step committed a semantic transaction, failed to publish, or disposed the store |
| Stores.EpochMovesOnce | packages/core/src/store.ts:261-276 | Without a semantic write an unowned store's epoch moves at most once, at its first issue publication |
| Stores.ReceiptIsExact | packages/core/src/scoped-capture-receipt.ts:19-50 | Over any run a receipt of an unowned capture accepts if and only if there was no write, no failure and no switch to ownership: one epoch of tolerance is always enough |
| Stores.EndedDirectlyRefuses | packages/core/src/store.ts:188-200 | A failing input: after its holder ended the active transaction directly, the store refuses to begin and to roll back and keeps its state |
| Stores.LeftOpenRefuses | packages/core/src/form-runtime.ts:266-272 | Other failing inputs: after an update whose mutator throws or whose commit fails, or a status projection whose commit fails, the transaction is active still, nobody holds it, and the store refuses to begin |
| Stores.BusyMeansRefusing | packages/core/src/store.ts:188-328 | A store is busy if and only if, whatever anybody does short of an effective disposal, a transaction stays active |
| Stores.BusyIffLetGo | packages/core/src/store.ts:188-328 | Over any run the store ends up busy if and only if some transaction was ended directly or left open and no effective disposal came later |
| Stores.BusyIsFrozen | packages/core/src/store.ts:188-328 | Until an effective disposal no operation changes a busy store's transaction, state, writes or epoch |
| Stores.FormStore.UpdateState | packages/core/src/runtime-state.ts:17-24 | Begin, mutate, commit without a rollback, as the specified step; where it throws although no transaction was active, the store is busy |
| Stores.Transaction.Mutate | packages/core/src/transaction.ts:78-93 | Mutation of an active transaction updates draft, dirty and semantic flags as specified, and is refused otherwise |
| Stores.FormStore.CommitTransaction | packages/core/src/store.ts:215-248 | The committed state, counters, ownership and the transaction's end are those of the specified step, for the active transaction only, and every published state carries the current stamp |
| StoreEffects.CommitPublishes | packages/core/src/store.ts:215-248 | A commit publishes every part of its draft and counts a write; a metadata-only one publishes all parts but data, ui state and policy, which stay, and counts none |
| StoreEffects.WrittenIsRead | packages/core/src/store.ts:188-248 | The state given to a transaction of one's own is the state the store has afterwards, up to the rendering of attempt issues |
| StoreEffects.NothingPublished | packages/core/src/store.ts:215-248 | A rollback, a commit of an untouched draft and one that fails leave the state as it was |
| StoreEffects.StatusPublished | packages/core/src/validation-status-projection.ts:1-40 | Exactly the named fields are marked as validating, all other marks go, and nothing else changes |
| Stores.FormStore.ProjectValidationStatus | packages/core/src/store.ts:119-153 | Publishes status without a write in ownership mode and by a transaction otherwise, as the specified step |
| Stores.FormStore.PublishOwnedMetadata | packages/core/src/store.ts:155-170 | Publishes, refuses or counts a failure as the specified step |
| Stores.FormStore.PublishIssueOnly | packages/core/src/store.ts:251-276 | Replaces the issues by their normal form, moving the epoch only when the state is first owned, or counts a failure |
| Stores.CaptureReceipt.Check | packages/core/src/scoped-capture-receipt.ts:30-49 | The closure's checks and its accepted epoch follow the specified receipt |
| Notification.Notifier.NotifyOwned | packages/core/src/store.ts:347-374 | Whatever listeners do, the loop ends after at most 1024 calls, never repeats a delivery, ends quietly only when every subscribed listener's last state is the current one, and overflows only when one more call was due |
| Notification.Notifier.Pass | packages/core/src/store.ts:354-370 | A pass that calls nobody proves that every subscribed listener is up to date |
| ValidationInvariant.StepKeeps | packages/core/src/validation-coordinator.ts:83-392 | Every stretch of the runtime keeps who holds which validator, the rise of generations, the order of publications and the timeliness of live runs |
| ValidationRuns.LiveIsCurrent | packages/core/src/validation-coordinator.ts:83-112 | Over every interleaving a run is live exactly when it is current, so the revision, lifecycle and generation tests never fail for a live run |
| ValidationRuns.LiveRunsAreDisjoint | packages/core/src/validation-coordinator.ts:166-209 | Over every interleaving at most one live run holds a given validator |
| ValidationRuns.NoStaleResult | packages/core/src/validation-coordinator.ts:148-164 | Over every interleaving each publication comes from a run started, and given its values, at the revision current when it publishes |
| ValidationRuns.PublicationsAreInOrder | packages/core/src/validation-coordinator.ts:148-164 | Over every interleaving, for one validator an earlier run never publishes after a later one |
| ValidationRuns.PublishersAreLive | packages/core/src/validation-coordinator.ts:148-164 | Over every interleaving issues are replaced only by a run that settles while it is live, with values of the current revision |
| ValidationRuns.PublishesOnce | packages/core/src/validation-coordinator.ts:148-164 | Over every interleaving in which the code of each run comes to its settlement once, no run publishes twice |
| ValidationRuns.VerdictIsExact | packages/core/src/validation-foreground-settlement.ts:28-50 | Whatever subscribers do while issues are published and the end is projected, completion is reported if and only if the run was live when it settled and when its issues had been seen, nothing was started, mutated, reset or cancelled afterwards, the semantic guard held at all three tests and the caller never aborted |
| ValidationRuns.CompletedIsUpToDate | packages/core/src/validation-foreground-settlement.ts:28-50 | A completed run speaks of the revision and lifecycle that are current when it is reported |
| ValidationEffects.ChangeReschedules | packages/core/src/validation-coordinator.ts:339-358 | After a change exactly the validators the event calls for and those that were pending have a pending run, each new, live and of the new revision; the called ones at the event's path, the others at their old one |
| ValidationEffects.BlurSchedules | packages/core/src/validation-coordinator.ts:348-358 | An event without a change schedules those it calls for and leaves all other runs alone |
| ValidationEffects.AutomaticPublishes | packages/core/src/validation-coordinator.ts:148-164 | An automatic run that settles publishes once if it is live, has read its values and the semantic guard holds, and does nothing otherwise |
| ValidationEffects.ForegroundPublishes | packages/core/src/validation-foreground-settlement.ts:28-45 | A foreground run that settles publishes once if it is live, guarded and no candidate; live but unguarded it is superseded |
| ValidationEffects.StartTakesOver | packages/core/src/validation-coordinator.ts:195-269 | A foreground start takes exactly its validators from their automatic runs, counts their generations on and leaves all other runs alone |
| ValidationEffects.ChangeOfAllEnds | packages/core/src/validation-coordinator.ts:360-368 | A change of unknown place supersedes every live run and schedules none |
| ValidationEffects.LifecycleEndAborts | packages/core/src/validation-coordinator.ts:386-392 | The end of a lifecycle aborts every live run, and disposal is for good |
| Validation.SelectValidators | packages/core/src/validation-coordinator-support.ts:68-80 | Selects exactly the validators of the trigger whose fields overlap the path, or that name no field while a trigger is given |
| ValidationObjects.ValidationRuntime.ScheduleRun | packages/core/src/validation-coordinator.ts:166-193 | Supersedes what holds the validator, claims its next generation and starts the new run, as the specified step |
| ValidationObjects.ValidationRuntime.StartForeground | packages/core/src/validation-coordinator.ts:195-269 | The loops of a foreground start compute the specified step, including its early exits and the immediate cancellation of an outdated snapshot |
| ValidationObjects.ValidationRuntime.TriggerEvent | packages/core/src/validation-coordinator.ts:339-358 | A mutation cancels everything, reschedules the unrelated runs and schedules the selected ones, as the specified step, whose outcome is `ValidationEffects.ChangeReschedules` |
| ValidationObjects.ValidationRuntime.CancelToken | packages/core/src/validation-coordinator.ts:96-112 | Cancels once, and releases exactly the slots the run holds |
| ValidationObjects.ValidationRuntime.SettleForeground | packages/core/src/validation-foreground-settlement.ts:28-45 | Publishes only a current run, nothing for a candidate, and cancels a stale one |
| FinalGenerations.CurrentIsExclusive | packages/core/src/final-generation.ts:15-51 | In any history the witness is current only if exactly one synchronous and one foreground run were started since it was taken, both its own, each settled, the synchronous one first, with no write, mutation, abort or deactivation since the preparation |
| FinalGenerations.SubmitIsExclusive | packages/core/src/submit-handler.ts:246-316 | Over any history the bound lane records at most one call of `onSubmit`, after its candidate passed the gate, and at that instant the same holds |
| FinalGenerations.OutcomeIsExclusive | packages/core/src/submit-handler.ts:262-275 | The handler's outcome is accepted only if the same still holds when it has settled |
| FinalGenerations.LostLaneIsSilent | packages/core/src/submit-handler.ts:246-316 | Once the witness is lost, the lane records no further call and accepts no outcome, whatever follows |
| FinalGenerations.OvertakenForGood | packages/core/src/final-generation.ts:15-51 | Once any other run has started, be it the first of its kind, or an own run could not be claimed, or the attempt was disturbed, the witness never becomes current again |
| FinalGenerations.LostIffNeverCurrent | packages/core/src/final-generation.ts:15-51 | That is exact: in every other state the witness can still be made current |
| FinalGenerations.ForeignStartLoses | packages/core/src/final-generation.ts:15-51 | A foreign run or a mutation loses the witness at once |
| FinalGenerations.UndisturbedIsCurrent | packages/core/src/guarded-submit-validation.ts:161-205 | An undisturbed attempt does become current, calls `onSubmit` once and has its outcome accepted |
| FinalEffects.LaneStands | packages/core/src/submit-handler.ts:246-316 | After any history the lane stands exactly where its own stretches have brought it: each ran at the first act it waited for, with the witness current and everything else well; the first that lacked one of them refused for good, the fourth called `onSubmit`, and the last accepted the outcome |
| FinalGenerations.FinalGeneration.SyncBegin | packages/core/src/final-generation.ts:27-31 | Claims the generation just started if and only if nothing synchronous had started since the witness was taken and the guard holds |
| FinalGenerations.FinalGeneration.AsyncBegin | packages/core/src/final-generation.ts:37-41 | Claims the generation just started if and only if nothing asynchronous had started, the guard holds and the own synchronous run has settled |
| FinalGenerations.FinalGeneration.SyncCurrent | packages/core/src/final-generation.ts:47 | Says yes only if the history so far holds exactly the own synchronous run, settled, no foreground run, and no disturbance |
| FinalGenerations.FinalGeneration.CurrentNow | packages/core/src/final-generation.ts:48-49 | Says yes only if the history so far is this attempt's own from one end to the other, each run settled and nothing disturbing it |
| Schedulers.ObservationsAreBacked | packages/core/src/scoped-async-scheduler.ts:122-169 | In every reachable state observations exist only for keys with issues, and keys count as being published only while a foreground publication is under way |
| Schedulers.ThrowingRestoresExactly | packages/core/src/scoped-async-scheduler.ts:122-169 | A publication that throws at once (single, revocation or staged foreground) leaves issues and observations exactly as they were |
| Schedulers.ThrowRestoresAfterAll | packages/core/src/scoped-async-scheduler.ts:339-376 | Whatever subscribers did meanwhile, a publication that throws restores exactly those of its keys nobody has touched since and leaves every other key alone |
| Schedulers.SupersededAreAborted | packages/core/src/scoped-async-scheduler.ts:106-120 | In every reachable state a run that is not its key's pending run has been aborted and is not current |
| Schedulers.PublishersAreCurrent | packages/core/src/scoped-async-scheduler.ts:183-215 | Only a started run that is current at that instant publishes |
| Schedulers.PublicationsAreInOrder | packages/core/src/scoped-async-scheduler.ts:206-246 | Over any run no run publishes twice, and for one key none publishes after a later one has |
| SchedulerObjects.ScopedAsyncScheduler.Revoke | packages/core/src/scoped-async-scheduler.ts:143-159 | The loop empties the issues of exactly the non-empty keys and remembers them, as the specified step |
| SchedulerObjects.ScopedAsyncScheduler.UndoRevocation | packages/core/src/scoped-async-scheduler.ts:161-168 | The loop puts back exactly the keys still empty by this revocation |
| SchedulerObjects.ScopedAsyncScheduler.ResetAll | packages/core/src/scoped-async-scheduler.ts:378-386 | Reset aborts every pending run and forgets issues and observations, as the specified step |
| SchedulerObjects.ScopedAsyncScheduler.ScheduleField | packages/core/src/scoped-async-scheduler.ts:217-238 | Cancels the key's pending run and makes the new one pending |
| SchedulerEffects.EventSchedules | packages/core/src/scoped-async-scheduler.ts:248-292 | After an event whose revocation succeeds with the generation unmoved, whatever subscribers did meanwhile, a key has a new pending run if and only if its field is selected, or the event is a change and its run was pending and unfinished; due after the debounce in the first case and at the old deadline in the second |
| SchedulerEffects.EventRevokes | packages/core/src/scoped-async-scheduler.ts:248-273 | An event counts the generation on, forgets who was being published, and empties exactly the issues that are outdated |
| SchedulerEffects.ChangeAborts | packages/core/src/scoped-async-scheduler.ts:248-256 | On a change every run that was pending has been aborted |
| SchedulerEffects.LiveRunPublishes | packages/core/src/scoped-async-scheduler.ts:183-215 | A current pending run starts with its timer, publishes once when it settles, and is finished when that succeeds |
| SchedulerEffects.PrepareAborts | packages/core/src/scoped-async-scheduler.ts:288-337 | Preparing a foreground run aborts the pending runs of exactly its keys |
| ActionLanes.LanesAreServed | packages/declarative/src/action-executor.ts:79-151 | After any run, once no code is under way, every lane in the map has exactly one live run, at most 32 waiting intents, and its queue is exactly the calls that wait for it |
| ActionLanes.NoCallIsLost | packages/declarative/src/action-executor.ts:79-151 | Then every call has resolved, awaits an aborted run, or runs or waits in a lane that is still in the map |
| ActionLanes.ResolvedForGood | packages/declarative/src/action-executor.ts:231-250 | A call that has resolved keeps its result across replacement, reset and disposal |
| ActionLanes.StepsAreBounded | packages/declarative/src/action-executor.ts:103-151 | Over any run all calls together take at most eight steps for each call of `execute`, so starting, failing and draining terminate |
| ActionLanes.QueuesAreFifo | packages/declarative/src/action-executor.ts:146-151 | In every step a queue grows at its end, gives up its head to be started, or is resolved as a whole |
| ActionLanes.StepMinds | packages/declarative/src/action-executor.ts:79-250 | Every step keeps each lane in the map occupied or attended by a call that will occupy or drain it |
| ActionLanes.StepSweeps | packages/declarative/src/action-executor.ts:231-250 | Nested cancellations of all lanes never leave a spared lane outside the map unvisited |
| LaneEffects.DropDrops | packages/declarative/src/action-executor.ts:92-100 | A dropping call at a busy lane is dropped, and nothing else changes |
| LaneEffects.EnqueueWaits | packages/declarative/src/action-executor.ts:92-100 | A queueing call waits behind all others, or is dropped exactly when 32 are waiting; the active run stays |
| LaneEffects.ReplaceTakesOver | packages/declarative/src/action-executor.ts:92-100 | A replacing call aborts exactly the active run and, undisturbed, starts in its place |
| LaneEffects.FreeLaneRuns | packages/declarative/src/action-executor.ts:79-130 | A call for a lane that is not there runs at once |
| LaneEffects.RunEnds | packages/declarative/src/action-executor.ts:132-151 | An undisturbed run resolves with its result, and its lane goes to the head of the queue or is forgotten |
| LaneEffects.VisitCancels | packages/declarative/src/action-executor.ts:222-250 | A cancelled lane's waiting calls resolve as aborted, and its run is aborted unless spared |
| ActionExecutors.DeclarativeActionExecutor.Execute | packages/declarative/src/action-executor.ts:71-101 | With listeners that call back into the executor as often and as deeply as they like, `execute` terminates, leaves no call under way, and at rest before leaves every lane in the map with one live run and at most 32 waiting intents |
| ActionExecutors.DeclarativeActionExecutor.MeetBusyLane | packages/declarative/src/action-executor.ts:79-101 | For a call that meets a lane: drop resolves it as dropped and leaves run, queue and aborted runs alone; queue leaves the run and appends the call, or drops it exactly at 32 waiting intents; replace aborts exactly the run and never drops |
| ActionExecutors.DeclarativeActionExecutor.Start | packages/declarative/src/action-executor.ts:103-130 | Starting a call, and on failure the next one of its lane and so on, terminates and leaves none of them under way |
| ActionExecutors.DeclarativeActionExecutor.RunSettled | packages/declarative/src/action-executor.ts:132-144 | When a run settles its call resolves, the next intent starts, and the executor comes to rest again |
| ActionExecutors.DeclarativeActionExecutor.CancelAll | packages/declarative/src/action-executor.ts:231-250 | Cancelling everything, nested cancellations and calls included, terminates, undoes no resolved result and comes to rest |
| ActionExecutors.DeclarativeActionExecutor.Dispose | packages/declarative/src/action-executor.ts:334-337 | After disposal no lane is left in the map, whatever listeners did meanwhile |
| ActionExecutors.DeclarativeActionExecutor.FailOut | packages/declarative/src/action-executor.ts:126-130 | A failed call resolves and hands its lane to the head of its queue, which leaves the queue and starts |
| FsxTrees.PathsAgree | packages/fsx-authoring/src/lower.ts:44-89 | Whatever the nesting of aliases, the path the parser used for an element is the path the lowerer reports for its node |
| FsxTrees.CountsEmitted | packages/fsx-authoring/src/parser.ts:132-134 | An element emits as many nodes as the parser counts for it |
| FsxTrees.NodePlaced | packages/fsx-authoring/src/lower.ts:44-123 | Following a reported path through the emitted tree leads to the node of its element |
| FsxNodes.EveryElementHasNode | packages/fsx-authoring/src/lower.ts:44-89 | Every element but the aliases gets one node, in the order of the text |
| FsxNodes.NodesMirrorElements | packages/fsx-authoring/src/lower.ts:90-123 | The node at a reported path has the kind and the id of its element, and a child for each element that stands in it directly or through aliases |
| FsxTrees.AliasSplitIsUnique | packages/fsx-authoring/src/parser.ts:115-117 | There is one way to split the text of a slot's path into a prefix and a bracketed number, and it gives back collection and index |
| FsxParsers.FsxParser.Parse | packages/fsx-authoring/src/parser.ts:13-20 | On every input, with guests that stop after their opening brace, the parse terminates, and it succeeds if and only if the text is a program of the grammar, with a tree it reads as; spans are non-empty, in bounds, ordered and disjoint even after an error; a result has the parser's paths and properly nested ranges |
| FsxParsers.FsxParser.ParseElement | packages/fsx-authoring/src/parser.ts:101-130 | Succeeds exactly when an element can be read here within the limits of nodes and depth, and returns that element: its name, attributes, children, ranges and paths as the grammar says; paths, authoring paths and counts through aliases are the handed-down ones |
| FsxParsers.FsxParser.ParseAttributes | packages/fsx-authoring/src/parser.ts:79-90 | Succeeds exactly when attributes of different names stand here, apart by white space, up to the end of the tag, and returns them in order with names, values and ranges |
| FsxReadings.OneProgram | packages/fsx-authoring/src/parser.ts:13-130 | The grammar is unambiguous: a text reads as one tree at most |
| FsxParsers.FsxParser.GuestStop | packages/fsx-authoring/src/guest.ts:7-50 | Reports the opening brace and, exactly when the guest stopped at the host's brace, the closing one, even when the expression is then refused; succeeds exactly for a valid expression that ends at a closing brace |
| FsxLowerers.FsxLowerer.Lower | packages/fsx-authoring/src/lower.ts:18-38 | Succeeds if and only if the root is an admitted form with an admissible id, every element below is admitted and of a known kind, leaves have no children, and all ids are admissible and different; then form id, root group id and all emitted ids differ, every reported path is its node's place, and paths agree with the parser's |
| FsxLowerers.FsxLowerer.DeclareId | packages/fsx-authoring/src/ids.ts:10-44 | Succeeds exactly for a quoted, non-empty, admissible id not declared before, and then declares it |
| FsxLowerers.FsxLowerer.FreshGroup | packages/fsx-authoring/src/lower.ts:27-30 | The search for a root id no element has taken terminates and finds one |
| FsxLowerers.Compile | packages/fsx-authoring/src/lower.ts:18-57 | Parsing and lowering together: compiles exactly the texts whose tree lowers; in whatever compiles, parser paths, reported paths and places coincide and all ids differ |

## Left out

- Prototypes, accessors, symbol keys, frozen objects and proxies; a container whose data cannot be captured is the `Foreign` value.
- Floating point, NaN, negative zero and UTF-16: numbers are integers and strings are sequences of characters.
- Clocks and timers: a timer is a step that may happen at any time, a timeout an abort.
- `projectRuntime` always throws at this revision (packages/declarative/src/runtime-projection.ts:15-17), so fields, repeaters and the captured data are inputs of the ownership model.
- The shape of a witness object (its own keys and their types) is given by its datatype, so the checks for it are not modelled.
- The copy budgets of `Boundary`, `applyEgress` and the submit preparation checkpoint.
- Trees of payload data are values: the in-place `delete` of omission-structure.ts:36-49 returns a new tree, and the trie of scoped-async-overlaps.ts is a value while that of ownership-overlap-index.ts is a heap of nodes.
- Store states are values: that a caller may keep a reference to a committed draft and edit it in unowned mode is not modelled, nor is the reuse of an equal policy object at commit.
- Abort listeners and the preparation of a scoped foreground are taken not to call back into the coordinator or the scheduler before the stretch that aborted has ended; subscribers, timers and awaits interleave freely.
- The projected `validating` flag of the coordinator, the diagnostics of a validator's own failure and the contents of published issues.
- The matching of array observations (scoped-async-observation.ts): which keys are stale is an input of an event.
- The submit pipeline outside the FINAL witness: middleware, plugins, the unbound lane and the outcome published after `onSubmit`.
- PublishesOnce: a publication that itself throws in the coordinator's automatic run, whose catch then publishes the validator's failure, is not modelled as a second publication.
- What a field's write sets off in listeners, validators, plugins and subscribers before the metadata follows its rows; arrays in the ui state.
- Readable states of actions (`readState`, availability) and the array actions' target lookup and item limits.
- FSX attributes beyond names, values and ids: expressions, environments, aliases' names, renderers and the source map's attribute entries; they decide whether lowering succeeds, through an oracle.
- The value of a quoted FSX literal is an oracle, as is where a guest expression stops.
- Runtime expansion and runtime references, registries, React bindings and the editor.
