# The reference library, modelled in Dafny

A Library is a durable catalogue of files. A scan walks an authorized Root and
merges what it finds, in batches, into Locations, Sources, revisions and Assets;
a file found again keeps its identity, a renamed one only under strict evidence.
Sessions edit Assets and Collections, serve bounded pages of an ordered query,
and prove the canonical meaning of the catalogue by a digest with pages that are
tied to it. An engine runs scans and renditions on threads, a private cache
holds renditions, a client caches pages of the query, and a native shell keeps
the grants, the process and the event stream. This project models these parts
and proves what each of them promises, over every input, run or interleaving.

| file | models |
|---|---|
| `Tables`, `Reconcile`, `ScanOutcome`, `Catalogue`, `MergeLaws` | the tables, the merge of one candidate and of whole scans, the rows changed in place, and what new rows say |
| `Walk`, `ScanRun`, `ScanFidelity`, `ScanHistory` | the file tree, the explicit-stack scan, the catalogue as a picture of the tree, a scan as a run of the Library |
| `Commands`, `LibrarySession`, `Tokens` | root, Asset and Collection commands, and token normalisation |
| `History`, `Interleaving`, `EditOrder`, `SessionRuns` | every run of a Library, one transaction at a time, and what the commands do in it |
| `Projection`, `CanonicalJson`, `CanonicalStream`, `CanonicalRecords` | the nine record sets, canonical JSON, and the digest's input |
| `JsonReader`, `CanonicalDocuments`, `PageDocuments`, `DigestInput` | what a reader of JSON and of frames finds in them |
| `Decimals`, `CanonicalPages`, `SnapshotSession` | cursors, bounded canonical pages, the cached digest |
| `AssetPages`, `AssetSnapshots`, `AssetPager`, `PagerLaws` | pages of the Asset query, their snapshots, and the client's cache |
| `Engine`, `EngineLaws`, `RenditionLedger` | work queue, threads and closing; how many finished jobs are kept |
| `KeyGates`, `RenditionCache`, `SharedCache` | cache permits; the publish protocol; both together, many tasks on one cache |
| `Grants`, `Supervisor`, `Events`, `WireFrames` | security-scoped grants, the process supervisor, event coalescing, frames on the pipe |

Operations that the program performs on mutable state are methods of classes,
each proved against a function on values; the laws are lemmas about those
functions and about the state machines in `History`, `Engine`, `KeyGates`,
`SharedCache` and `AssetPager`. `Wrappers`, `Sequences` and `Sets` hold what
several of them need.

## Assumptions

- A transaction is one atomic step. An id is the serial number of its random
  draw, so two draws never collide; the text order of ids is any injective order.
- The file tree answers every open, listing and inspection; directory names are
  unique. Inspecting a file is a function of the file. Asking whether a stored
  path is absent never says so of a regular file that is there.
- Fingerprints and the digest's hash are injective, so files of one fingerprint
  have one size. Rendering yields bytes that decode and stay within the byte
  limit (`RenditionCache.SoundExists`). Only the cache writes to its files.
- UTF-8, the hexadecimal form of paths and the text of ids are injective, id
  texts hold no zero byte, and a UTF-8 text is at least as long as the string
  (`CanonicalRecords.FaithfulExists`). A JSON number is the text it prints as.
- An Asset summary starts with its asset id and its location id.
- Timers fire when they are due, a microtask runs at once, the outside calls of
  the grant store answer in any way, and each check of a scan for cancellation
  answers as an arbitrary function of how many came before it.

## What the proofs brought to light

- The pager asks for the first page again without replacing its items, and then
  the snapshot claim can fail. It stands exactly if that page brings the held
  revision, or no old item is left and every later page still in flight lies
  beyond the end of two results of equal length (`AssetPager.MergeExact`). Two
  ordinary failures: the first page is dropped from the cache, the revision
  moves, and the reader scrolls back (`AssetPager.ScrollingBackDisagrees`); a
  refresh fails and the old items stay without a snapshot
  (`AssetPager.FailedRefreshDisagrees`).
- A rendition's source is compared with its fingerprint before and after it is
  rendered, on one open descriptor: a file put in its place is never read, but
  writing to it in place is seen. The record that is published is true exactly if
  what was decoded renders as the source does (`RenditionCache.PublishedExact`,
  `SharedCache.RecordExact`); a source written over in between, and written back,
  leaves a served hit that is not its rendering (`SharedCache.WrittenOver`).
- Opening a Library commits its recovery in separate writes. A stop between them
  can leave changed rows that no revision counts (`Commands.RecoverAgain`); the
  rows are not canonical, and the next opening finds the same state.
- A rendition that the engine refuses, and one that an opening fails, is not
  followed by a pruning. The ledger holds what the last pruning left and those
  finished since, and more than 128 finished jobs exactly if these are too many
  (`RenditionLedger.LedgerBound`); 129 refusals in a row are enough
  (`RenditionLedger.RefusalsExceed`).
- `activatePersistedRoots` goes on after a renewed bookmark could not be written,
  so a quarantined store can hold an active Root (`Grants.PassLeaks`;
  `Grants.PassLeaves` gives the exact condition).
- A frame of an older generation fails the current generation of the supervisor,
  and so does the timeout of a request that an older process left waiting.
- Opening a Library withdraws the authority of linked Roots without advancing
  the revision, so equal revisions mean equal query results only within one
  session (`AssetSnapshots.ReopenSeen`). Root states are not canonical, so the
  digest is not concerned.
- The limit of Collections per Asset cannot be reached
  (`Commands.AssetLimitNeverReached`).
- A frame header cut short reads as the end of the stream, not as an error.

## Model

| member | source | states |
|---|---|---|
| `Reconcile.Existing` | crates/reference-core/src/discovery.rs:486-511 | Looking a candidate up finds a Location exactly if one has its Root and path, and finds that one |
| `Reconcile.Relocated` | crates/reference-core/src/discovery.rs:513-581 | A renamed row is found exactly if there is one under the strict evidence: same file id, one link, no second row with that file id, equal size and fingerprint, and nothing left at the old path |
| `Reconcile.RelocateKeeps` | crates/reference-core/src/discovery.rs:583-602 | Moving a row to a free path keeps the catalogue consistent and every identity link |
| `Reconcile.RefreshKeeps` | crates/reference-core/src/discovery.rs:604-669 | Refreshing a row keeps the catalogue consistent; no revision loses its Source, size or fingerprint |
| `Reconcile.InsertKeeps` | crates/reference-core/src/discovery.rs:671-763 | Five fresh rows for a new file keep the catalogue consistent: the new Source has one Location, one origin, one Asset and a revision of its own |
| `Reconcile.OneKeeps` | crates/reference-core/src/discovery.rs:420-438 | Merging any candidate in any consistent catalogue, whichever of the three branches it takes, keeps consistency and every identity link |
| `ScanOutcome.BatchesAgree` | crates/reference-core/src/discovery.rs:407-475 | Where batches are cut does not matter: merging one list and then another is merging their concatenation |
| `ScanOutcome.OneTouches` | crates/reference-core/src/discovery.rs:420-438 | One candidate touches one row: its own, which was at its path or at a path with nothing left; every other row, its Source and its current revision stay |
| `ScanOutcome.AllMatch` | crates/reference-core/src/discovery.rs:407-475 | After merging candidates at distinct paths each of them has its row with everything it observed, the earlier ones too |
| `ScanOutcome.AllTouch` | crates/reference-core/src/discovery.rs:407-475 | A row that is not at a candidate path of this Root afterwards is the row it was |
| `ScanOutcome.RenameKeepsRow` | crates/reference-core/src/discovery.rs:513-602 | Under the rename evidence the same Location, Source and current revision are found again at the new path and no table gains a row |
| `ScanOutcome.MovesOnlyWhenRenamed` | crates/reference-core/src/discovery.rs:420-438 | A Location changes its path exactly when no row is at the new path and it is the row renamed by that evidence |
| `ScanOutcome.AllNeverMisses` | crates/reference-core/src/discovery.rs:372-392 | Merging candidates never makes a Location missing: a missing one was missing before and is unchanged |
| `ScanOutcome.MarkStep` | crates/reference-core/src/discovery.rs:796-825 | Marking one more unseen Location is one update of its row and one of its Source, whose lineage is active exactly while a Location of it is not missing |
| `ScanOutcome.MarkUnseenKeeps` | crates/reference-core/src/discovery.rs:765-830 | Giving unseen rows their states keeps consistency, identity and curation |
| `ScanOutcome.MarkUnseenRows` | crates/reference-core/src/discovery.rs:765-830 | An unseen row of the Root takes its per-entry state, permission_denied below an unreadable directory, or missing, and its Source is lost exactly when it is missing; any other row is untouched |
| `ScanOutcome.UnseenRowState` | crates/reference-core/src/discovery.rs:796-825 | The state of its own entry comes first, then permission_denied below or at an unreadable directory, then missing |
| `ScanOutcome.ScannedCandidates` | crates/reference-core/src/discovery.rs:324-353 | After a completed scan each candidate path has exactly one Location in the Root, and it carries the state, size, time, file id, display name and fingerprint of the candidate |
| `ScanOutcome.ScannedUnseen` | crates/reference-core/src/discovery.rs:765-830 | After a completed scan every other Location of the Root was there before, at the same path, with the unseen state; its Source keeps its current revision |
| `ScanOutcome.ScannedElsewhere` | crates/reference-core/src/discovery.rs:324-353 | Locations of other Roots, their Sources and current revisions are untouched by a completed scan, and none is added |
| `ScanOutcome.ScannedKeeps` | crates/reference-core/src/discovery.rs:407-475 | A completed scan keeps consistency, every identity link, and Assets, Collections, memberships and Roots as they were |
| `ScanOutcome.RescanIdle` | crates/reference-core/src/discovery.rs:604-669 | Scanning what the catalogue already says writes nothing but the revision counter |
| `MergeLaws.OneRevises` | crates/reference-core/src/discovery.rs:604-669 | After a candidate is merged, the current revision of its row is the one it was if the fingerprint is the same, and else a fresh one with size, time, fingerprint and media of the candidate; every other revision stands |
| `MergeLaws.NewFile` | crates/reference-core/src/discovery.rs:671-763 | A candidate without a row adds one Source, one revision with its size and time, one Location, one Asset that nobody edited yet and one origin, all with new ids, and changes no other row |
| `MergeLaws.MovedExactly` | crates/reference-core/src/discovery.rs:513-581 | A row is moved exactly if no row is at the new path, the file has one link, the row is the only one of the Root at another path with its file id, size and fingerprint are those of its current revision, and nothing is left at its path |
| `MergeLaws.OneSized` | crates/reference-core/src/discovery.rs:732-763 | If every revision has the size of its content, so it is after any merge |
| `MergeLaws.AllSized` | crates/reference-core/src/discovery.rs:407-475 | and after merging any candidates |
| `MergeLaws.RestSized` | crates/reference-core/src/discovery.rs:765-830 | and after giving unseen rows their states |
| `MergeLaws.FoundAgain` | crates/reference-core/src/discovery.rs:513-602 | A file that a scan matched and that is found again, the same, at a free path, with one link, a file id of its own and nothing left at the old path, keeps its Location, Source, current revision and Asset, and no row is added |
| `MergeLaws.ScannedThenMoved` | crates/reference-core/src/discovery.rs:407-602 | So the two scans compose: whatever the first one found in whatever catalogue, a file of it that is then moved keeps its Location, Source, current revision and Asset |
| `ScanOutcome.ConcludedRows` | crates/reference-core/src/discovery.rs:832-891 | The end of a scan sets the state of its Root and state and counts of its job, and nothing else |
| `ScanOutcome.FailedRows` | crates/reference-core/src/discovery.rs:893-926 | A failed scan gives the Root and all its Locations the states of its error: a missing Root an offline volume, a refusal needs-permission, any other I/O error unavailable, a scan limit an error and no Location state; the job fails and nothing else changes |
| `CatalogueStore.FirstPage` | crates/reference-core/src/discovery.rs:774-794 | The keyset query returns the unseen rows lowest in id order, all of them or a full page of 256, in order |
| `CatalogueStore.Catalogue.ExistingLocation` | crates/reference-core/src/discovery.rs:486-511 | The query by Root and path returns the one such row |
| `CatalogueStore.Catalogue.RelocatedLocation` | crates/reference-core/src/discovery.rs:513-581 | The rename query and its checks find exactly the row of the strict evidence |
| `CatalogueStore.Catalogue.RelocateExisting` | crates/reference-core/src/discovery.rs:583-602 | The in-place path update is that of the specification and changes nothing else |
| `CatalogueStore.Catalogue.RefreshExisting` | crates/reference-core/src/discovery.rs:604-669 | The in-place update of Location, Source and revision rows is that of the specification: a new revision exactly if the fingerprint differs, with the size and time that were seen (`MergeLaws.OneRevises`) |
| `CatalogueStore.Catalogue.InsertNew` | crates/reference-core/src/discovery.rs:671-763 | The inserts are those of the specification, ids drawn in the order Source, revision, Location, Asset, origin; the rows say what was seen (`MergeLaws.NewFile`) |
| `CatalogueStore.Catalogue.Merge` | crates/reference-core/src/discovery.rs:420-438 | Existing row first, then a renamed one, then a new one; consistency and identity are kept |
| `CatalogueStore.Catalogue.NextUnresolved` | crates/reference-core/src/discovery.rs:774-794 | The next page after an id: the lowest unseen rows of the Root above it |
| `CatalogueStore.Catalogue.Restate` | crates/reference-core/src/discovery.rs:796-825 | The two updates for one unseen row, the lineage decided by whether some Location of the Source is not missing |
| `CatalogueStore.Catalogue.MarkUnseenLocations` | crates/reference-core/src/discovery.rs:765-830 | The keyset loop marks every unseen row of the Root once, whatever the id order, terminates, and advances the revision once |
| `CatalogueStore.Catalogue.Progress` | crates/reference-core/src/discovery.rs:439-462 | The end of a batch stores the counts in the job row and advances the revision |
| `CatalogueStore.Catalogue.Conclude` | crates/reference-core/src/discovery.rs:832-891 | Completion and cancellation set Root and job row together and advance the revision |
| `CatalogueStore.Catalogue.MarkFailed` | crates/reference-core/src/discovery.rs:893-926 | Failure sets the Root state by the kind of error, every Location of the Root to the matching state (none for a scan limit), and the job to failed |
| `Walk.SurveyExact` | crates/reference-core/src/discovery.rs:140-322 | A path is found by the walk exactly as looking it up by itself yields: every readable directory entered, every acceptable file offered, every refusal noted, nothing else |
| `Walk.SurveyApart` | crates/reference-core/src/discovery.rs:140-322 | No path is found twice |
| `ScanRun.Scan.constructor` | crates/reference-core/src/discovery.rs:120-139 | A scan starts with the Root on the stack and empty batch, counts and notes; when it will be told to stop is given from outside, check by check |
| `ScanRun.Scan.FlushBatch` | crates/reference-core/src/discovery.rs:407-475 | A flush merges the pending candidates in order, records seen paths and counts, and loses none; an empty batch writes nothing |
| `ScanRun.Scan.Note` | crates/reference-core/src/discovery.rs:268-320 | One finding goes to the batch, the per-entry states or the unreadable directories; a batch of 32 is flushed |
| `ScanRun.Scan.Encounter` | crates/reference-core/src/discovery.rs:210-320 | One name is pushed as a directory, recorded, passed over, or ends the scan with its error or the queue limit |
| `ScanRun.Scan.Visit` | crates/reference-core/src/discovery.rs:210-322 | The loop over one listing records exactly the entries it yields and leaves on the stack exactly the directories it names |
| `ScanRun.Scan.Take` | crates/reference-core/src/discovery.rs:140-208 | A directory off the stack is reopened from the Root and listed; what it yields and what the stack still owes add up; entry limits end the scan |
| `ScanRun.Scan.FinishCancelled` | crates/reference-core/src/discovery.rs:372-392 | A cancelled scan equals merging just the candidates collected so far; the Root returns to connected; nothing becomes missing |
| `ScanRun.Scan.FinishCompleted` | crates/reference-core/src/discovery.rs:324-353 | A finished traversal merges the rest, marks unseen rows and stores the counts of all candidates |
| `ScanRun.Scan.Run` | crates/reference-core/src/discovery.rs:120-370 | Every run of the explicit-stack walk terminates and ends in one of three ways: cancelled exactly if a check says so, with the candidates so far; completed, having found exactly what the recursive walk finds, with the catalogue of a completed scan, for certain if no check says stop, no answer of the tree ends the walk and the entries are within the limits; failed, with whole batches kept and counted and the Root in the state of the error, on a scan limit only when the tree exceeds one and on an I/O error only when the tree gives that error at some path |
| `ScanRun.UnsupportedCounts` | crates/reference-core/src/discovery.rs:439-462 | The count of unsupported files is the number of candidates without a preview |
| `ScanHistory.BatchesRun` | crates/reference-core/src/discovery.rs:407-475 | The batches of a scan, run as transactions of the Library, leave exactly the catalogue that the scanner leaves |
| `ScanHistory.CompletedIsRun` | crates/reference-core/src/discovery.rs:324-353 | A completed scan is a run of the Library, down to the revision |
| `ScanHistory.CancelledIsRun` | crates/reference-core/src/discovery.rs:372-392 | So is a cancelled scan |
| `ScanHistory.FailedIsRun` | crates/reference-core/src/discovery.rs:893-926 | and so is one that fails |
| `ScanHistory.BatchesFlush` | crates/reference-core/src/discovery.rs:407-475 | The candidates that those transactions merge are the candidates of the walk, in order |
| `ScanFidelity.FilesHaveRows` | crates/reference-core/src/discovery.rs:407-475 | In a catalogue that pictures a tree every accepted file has exactly one Location in the Root, with its state, size, time, file id and fingerprint |
| `ScanFidelity.RowsHaveTreeState` | crates/reference-core/src/discovery.rs:765-830 | and every Location of the Root has exactly the state that following its path in the tree gives |
| `ScanFidelity.ScanPictures` | crates/reference-core/src/discovery.rs:120-353 | A completed scan of a fixed tree makes the catalogue picture it |
| `ScanFidelity.ScanTwice` | crates/reference-core/src/discovery.rs:120-353 | A second scan of the unchanged tree changes nothing but the revision |
| `ScanFidelity.SoundExact` | crates/reference-core/src/discovery.rs:140-322 | No answer ends the walk exactly if the Root can be read, is refused or is absent, and no path leads to an error other than absence or refusal |
| `ScanFidelity.InterleavedScanPictures` | crates/reference-core/src/discovery.rs:120-353 | The catalogue pictures the tree at the end of the traversal also when the batches were cut anywhere and interleaved with edits, commands, renditions and scans of other Roots |
| `Commands.AssetLimitNeverReached` | crates/reference-core/src/editorial.rs:608-630 | The limit of Collections per Asset equals the limit of Collections, so a membership command is never refused because of it |
| `Commands.NamesClash` | crates/reference-core/src/editorial.rs:1084-1100 | Two Collection names clash exactly if they differ at most in the case of ASCII letters |
| `Commands.PrunedBound` | crates/reference-core/src/rendition.rs:330-340 | A pruning leaves the latest 128 finished rendition jobs, or all of them if they are fewer, and removes only older finished ones |
| `Commands.WriteFinishes` | crates/reference-core/src/session.rs:828-836 | Refusing a rendition that is under way makes one finished job more, and prunes nothing |
| `Commands.RecoveryFinishes` | crates/reference-core/src/session.rs:1073-1080 | Opening a Library makes as many finished jobs more as there were live ones, and leaves none live |
| `RenditionLedger.StepCounts` | crates/reference-core/src/session.rs:809-836 | Every transaction, whatever it is, changes the number of finished rendition jobs exactly by what it finishes, cut to 128 if it prunes |
| `RenditionLedger.RunCounts` | crates/reference-core/src/rendition.rs:306-340 | Over every run the ledger holds exactly what the last pruning left and what was refused or failed by an opening since then |
| `RenditionLedger.LedgerBound` | crates/reference-core/src/rendition.rs:330-340 | In every run of a new Library there are at most 128 finished rendition jobs and those refused or failed since the last pruning, and more than 128 exactly if these do not fit in what it left |
| `RenditionLedger.RefusalsExceed` | crates/reference-core/src/session.rs:809-836 | From any state with a Root 129 refused requests in a row leave 129 finished rendition jobs |
| `LibrarySession.Session.constructor` | crates/reference-core/src/session.rs:231-292 | Opening fails every unfinished job, turns scanning Roots to error and other linked Roots to needs-permission, advances the revision exactly if a job or scan was left over, changes nothing else, and authorizes none |
| `LibrarySession.Session.AddRoot` | crates/reference-core/src/session.rs:311-423 | Adding a Root, or scanning a matching one again, is refused for an unknown Root, 64 Roots or an unfinished job; else exactly one scan starts under a new job, every other Root stays as it is, and that Root joins those already authorized |
| `LibrarySession.Session.BindRoot` | crates/reference-core/src/session.rs:474-530 | Binding is refused exactly for an unknown Root, an unfinished job or missing evidence, in this order, and a refusal changes nothing; else the Root is connected and authorized, the revision one on, and nothing else changes |
| `LibrarySession.Session.ScanBoundRoot` | crates/reference-core/src/session.rs:540-596 | A rescan is refused exactly for an unknown Root, a missing authority or an unfinished job, in this order; else exactly one scan of it starts under a new job and nothing else changes |
| `LibrarySession.Session.UpdateAsset` | crates/reference-core/src/editorial.rs:309-376 | An edit is accepted exactly at the expected revision; then each field is what the patch sets or what it was, both revisions are one on, and every other row is unchanged |
| `LibrarySession.Session.CreateCollection` | crates/reference-core/src/editorial.rs:478-505 | A name that is taken apart from ASCII case, then a full Library, is refused; else there is one Collection more, new and without members, and nothing else changes |
| `LibrarySession.Session.RenameCollection` | crates/reference-core/src/editorial.rs:507-541 | A rename is refused exactly for an unknown Collection, another revision, or a name that another Collection has; else only that Collection changes, one revision on |
| `LibrarySession.Session.DeleteCollection` | crates/reference-core/src/editorial.rs:543-561 | Deleting is refused exactly for an unknown Collection; else the Collection and exactly its memberships are gone and nothing else changes |
| `LibrarySession.Session.SetMembership` | crates/reference-core/src/editorial.rs:563-653 | Refused exactly for a list that is empty, over 250 or names an Asset twice, an unknown Collection, or an unknown Asset; else the row-by-row loop leaves each Asset as asked and every other membership as it was, counts those it changed, and advances the revisions only if there is one |
| `EditOrder.RunMoves` | crates/reference-core/src/editorial.rs:309-376 | Over every run the revision of an Asset never falls, and while it stands the Asset stands |
| `EditOrder.NoLostUpdate` | crates/reference-core/src/editorial.rs:340-346 | After an accepted edit, whatever runs, another edit made on the same revision is refused |
| `SessionRuns.AddRuns` | crates/reference-core/src/session.rs:311-423 | Adding a Root, or scanning one again, as a step of a run: refused it changes nothing, else exactly one scan has started under a job of its own, with a live thread that can run it from the beginning |
| `SessionRuns.RescanRuns` | crates/reference-core/src/session.rs:540-596 | So for a rescan |
| `SessionRuns.EditRuns` | crates/reference-core/src/editorial.rs:309-653 | Every edit as a step of a run has exactly the effect that the session promises of it, or is refused for exactly its reasons and changes nothing; the limit of Collections per Asset refuses none |
| `SessionRuns.RenditionRuns` | crates/reference-core/src/rendition.rs:306-340 | A rendition that is asked for, admitted, taken and ended goes from queued through running to its outcome, and nobody has it any more |
| `Tokens.StableSortSorts` | crates/reference-core/src/editorial.rs:914-915 | Ordering tokens by lower case keeps all of them and the order of those with the same key |
| `Tokens.OneStableOrder` | crates/reference-core/src/editorial.rs:914-915 | and only one sequence does |
| `Tokens.KeptOnce` | crates/reference-core/src/editorial.rs:907-912 | No two kept tokens are equal apart from ASCII case and every token equals a kept one |
| `Tokens.KeptFirst` | crates/reference-core/src/editorial.rs:907-912 | A kept token is the first of its kind |
| `Tokens.KeptInOrder` | crates/reference-core/src/editorial.rs:907-912 | Kept tokens stand in the order of their first occurrences |
| `Tokens.NormalizedTrims` | crates/reference-core/src/editorial.rs:896-916 | Every normalised token is the first of its kind among the trimmed values, and every trimmed value is there, apart from ASCII case |
| `Tokens.NormalizedMeans` | crates/reference-core/src/editorial.rs:896-916 | Normalised tokens are the first of their kind, trimmed, in stable order, and normalising them again changes nothing |
| `Tokens.NormalizeTokens` | crates/reference-core/src/editorial.rs:896-916 | The loop refuses exactly more than 64 values or one that is, when trimmed, empty, over 100 characters or with a NUL, and otherwise returns the normalised tokens |
| `History.StepKeeps` | crates/reference-core/src/session.rs:1100-1108 | Every transaction keeps the invariant of the Library, identity links and forward-moving jobs, and cannot change a canonical record without advancing the revision; the order of job states follows from who writes them |
| `History.RunAdvances` | crates/reference-core/src/session.rs:1073-1108 | So does every run mixing completed, cancelled, failed and vanished scans, root commands, edits, rendition jobs and reopenings |
| `History.StepManned` | crates/reference-core/src/rendition.rs:306-328 | The row of a rendition is queued while it is admitted or in the queue and running while its one worker has it, although no write looks at the row |
| `History.OneOfEach` | crates/reference-core/src/discovery.rs:671-730 | In every run of a new Library each Source has exactly one Location, one origin, one Asset of its own and a current revision that belongs to it |
| `History.OneScanPerRoot` | crates/reference-core/src/session.rs:557-565 | In every run of a new Library no Root has two unfinished scan jobs, and no two scan threads work on one Root |
| `History.RecoverKeeps` | crates/reference-core/src/session.rs:1073-1098 | However many of the four writes of opening were made before the process stopped, consistency, identity and canonical meaning are kept, no scan or rendition survives, and after the first write no job is unfinished |
| `Commands.RecoverAgain` | crates/reference-core/src/session.rs:1073-1098 | Opening again after a stop between the writes ends with the same rows; the revision differs exactly if something was changed, not yet counted, and nothing was left to change |
| `Interleaving.OnlyTraversalMisses` | crates/reference-core/src/discovery.rs:765-830 | Only the end of a finished traversal makes a Location missing; after any other transaction a missing one is as it was |
| `Interleaving.RunMisses` | crates/reference-core/src/discovery.rs:893-926 | and so over every run without such an end |
| `Interleaving.StepUntouched` | crates/reference-core/src/discovery.rs:407-475 | A transaction that is not of a scan of a Root leaves every Location of the Root, its Source and current revision untouched |
| `Interleaving.SettledStands` | crates/reference-core/src/discovery.rs:765-830 | A finished scan's picture of its Root stands over every run until the Root is scanned again |
| `Interleaving.RescanMeans` | crates/reference-core/src/canonical.rs:318-453 | Scanning an unchanged Root again changes no canonical record, whatever was edited or scanned in between |
| `Interleaving.CollectedStands` | crates/reference-core/src/discovery.rs:407-475 | Everything that a live scan has merged is still matched at the end of any interleaving |
| `Interleaving.InterleavedScanSettles` | crates/reference-core/src/discovery.rs:324-353 | Marking the unseen rows then settles the Root for exactly the candidates of its batches |
| `CanonicalJson.WriteSplit` | crates/reference-core/src/canonical.rs:252-284 | Printed documents are self-delimiting: two of them with anything after them give the same bytes only if they mean the same, objects taken as maps |
| `CanonicalJson.WriteExact` | crates/reference-core/src/canonical.rs:245-284 | Two documents print the same bytes exactly if they mean the same |
| `CanonicalJson.NormalWrites` | crates/reference-core/src/canonical.rs:478-492 | Normalising a document never changes its printed bytes |
| `CanonicalJson.SortKeys` | crates/reference-core/src/canonical.rs:268-283 | Sorting member names yields each once in ascending byte order |
| `CanonicalJson.LessMeans` | crates/reference-core/src/canonical.rs:268-283 | Byte order compares the first byte that differs, and a proper prefix is less |
| `CanonicalJson.AscendingRises` | crates/reference-core/src/canonical.rs:268-283 | Member names in order rise strictly in byte order |
| `JsonReader.EscapeForms` | crates/reference-core/src/canonical.rs:257 | Which bytes are escaped how: seven have a two-character form, other control characters their number in lower-case hexadecimal, and no other byte is escaped |
| `JsonReader.StringReads` | crates/reference-core/src/canonical.rs:257 | A printed string reads back, by the grammar of section 7 of RFC 8259, as the text, and what follows it is left alone |
| `JsonReader.EscapePlain` | crates/reference-core/src/canonical.rs:257 | No byte below 32 is left in a printed string |
| `JsonReader.CanonicalReads` | crates/reference-core/src/canonical.rs:252-284 | A printed document reads back, by the grammar of RFC 8259, as what it means, and what follows it is left alone |
| `JsonReader.CompactReads` | crates/reference-core/src/canonical.rs:188-215 | So does a document that keeps the order of its members |
| `CanonicalJson.Output.WriteString` | crates/reference-core/src/canonical.rs:257 | The string writer appends the quoted text, whose escapes `JsonReader.EscapeForms` and `JsonReader.StringReads` fix |
| `CanonicalJson.Output.WriteJson` | crates/reference-core/src/canonical.rs:252-284 | The writer appends exactly the canonical text of a document, whatever its nesting |
| `CanonicalStream.BigExact` | crates/reference-core/src/canonical.rs:240-243 | Eight-byte big-endian lengths determine the number |
| `CanonicalStream.FramesExact` | crates/reference-core/src/canonical.rs:240-243 | A stream of length-prefixed pieces is read in one way only |
| `CanonicalStream.StreamExact` | crates/reference-core/src/canonical.rs:217-238 | Two digest inputs over the same section names are equal exactly if every section has as many records and they mean the same one by one |
| `CanonicalStream.HashSection` | crates/reference-core/src/canonical.rs:222-234 | One section feeds its name, its count and each record, framed, in order |
| `CanonicalStream.DigestSnapshot` | crates/reference-core/src/canonical.rs:217-238 | The hasher is fed exactly the domain and all sections, and the counts are those of the sections |
| `DigestInput.InputReads` | crates/reference-core/src/canonical.rs:217-243 | Taken apart by its lengths, the input of the digest is the domain and then for every section its name, eight bytes of count, and so many documents, each of which reads to its end as what it means |
| `DigestInput.CatalogueInput` | crates/reference-core/src/canonical.rs:217-243 | The input of a catalogue has the nine sections in their places, and in each of them exactly the documents of the rows |
| `WireFrames.HeaderBytes` | crates/reference-protocol/src/lib.rs:845-857 | A length is written most significant byte first |
| `CanonicalRecords.RecordFormed` | crates/reference-core/src/canonical.rs:318-453 | The document of every record is well formed: no member name twice |
| `CanonicalRecords.RecordExact` | crates/reference-core/src/canonical.rs:318-453 | The document of a record determines its spelling, ids as texts, across Libraries, and within one Library the record |
| `CanonicalDocuments.LibrarySays` | crates/reference-core/src/canonical.rs:342-350 | The document of the Library row, member by member: its id and name |
| `CanonicalDocuments.RootSays` | crates/reference-core/src/canonical.rs:351-360 | The document of a Root, member by member |
| `CanonicalDocuments.SourceSays` | crates/reference-core/src/canonical.rs:361-370 | The document of a Source |
| `CanonicalDocuments.RevisionSays` | crates/reference-core/src/canonical.rs:371-388 | The document of a revision, its media with height, width, preview kind and grid preview under their names |
| `CanonicalDocuments.LocationSays` | crates/reference-core/src/canonical.rs:389-401 | The document of a Location |
| `CanonicalDocuments.OriginSays` | crates/reference-core/src/canonical.rs:402-415 | The document of an origin |
| `CanonicalDocuments.AssetSays` | crates/reference-core/src/canonical.rs:416-429 | The document of an Asset |
| `CanonicalDocuments.CollectionSays` | crates/reference-core/src/canonical.rs:430-438 | The document of a Collection |
| `CanonicalDocuments.MembershipSays` | crates/reference-core/src/canonical.rs:439-452 | The document of a membership |
| `CanonicalDocuments.SectionSays` | crates/reference-core/src/canonical.rs:318-453 | Each section has its name, and its records are exactly the documents of the rows of its table |
| `CanonicalDocuments.SectionOrder` | crates/reference-core/src/canonical.rs:318-453 | A section stands in ascending byte order of ids, memberships by Collection and then by Asset |
| `CanonicalDocuments.LineReads` | crates/reference-core/src/canonical.rs:245-250 | What is printed of a record reads back as the document of its row |
| `CanonicalDocuments.DomainSays` | crates/reference-core/src/canonical.rs:217-219 | The domain is the name of the projection, a zero byte and its version |
| `CanonicalRecords.RecordsKeyed` | crates/reference-core/src/canonical.rs:318-453 | Within each of the nine sections the order key tells any two records apart |
| `CanonicalRecords.PairOrder` | crates/reference-core/src/canonical.rs:440-441 | The key of a membership orders by Collection id, then by Asset id, and determines both |
| `CanonicalRecords.LibrariesExact` | crates/reference-core/src/canonical.rs:217-238 | Two Libraries, with ids of their own, feed the same bytes to the digest exactly if all nine record sets are spelled the same |
| `CanonicalRecords.DigestExact` | crates/reference-core/src/canonical.rs:217-238 | Two states of one Library feed the same bytes to the digest exactly if all nine record sets are equal |
| `CanonicalRecords.FaithfulExists` | crates/reference-core/src/canonical.rs:318-453 | There are texts of ids, strings and paths as the theorems about records assume them |
| `Decimals.DecimalReads` | crates/reference-core/src/canonical.rs:512-515 | The text of a number reads back as the number and has no leading zero |
| `Decimals.ReadsDecimal` | crates/reference-core/src/canonical.rs:494-510 | A digit text without leading zero is the text of the number it reads as |
| `Decimals.DigitAt` | crates/reference-core/src/canonical.rs:512-515 | The last digit of a number text counts ones, and each one before it ten times as much |
| `Decimals.CursorBijection` | crates/reference-core/src/canonical.rs:494-515 | Encoding and decoding cursors are inverse between 64-bit offsets and accepted texts |
| `Decimals.CursorRefused` | crates/reference-core/src/canonical.rs:494-510 | A text is refused exactly if it is no encoding of a 64-bit offset |
| `CanonicalPages.PageSizeIs` | crates/reference-core/src/canonical.rs:188-215 | The byte count kept step by step (empty envelope, records, separators, next cursor) is the size of the printed frame |
| `CanonicalPages.SizeGrows` | crates/reference-core/src/canonical.rs:133-160 | One more record never makes a frame smaller, although a next cursor of null is longer than a short one, because every record outweighs that |
| `CanonicalPages.FitShrinks` | crates/reference-core/src/canonical.rs:133-160 | If some records fit a frame, so does every shorter non-empty run |
| `CanonicalPages.Gather` | crates/reference-core/src/canonical.rs:133-160 | The loop stops at the limit, the end, or the first record that no longer fits, and tells a first record that does not |
| `CanonicalPages.PageFromSnapshot` | crates/reference-core/src/canonical.rs:111-186 | A page is the longest run of records within limit and frame, each refusal has its exact condition, and the final size check fires only on a page without records |
| `CanonicalPages.ReadAll` | crates/reference-core/src/canonical.rs:111-186 | Following next cursors from the start yields every record once, in order, in finitely many non-empty pages, or stops exactly at a record that does not fit a frame by itself |
| `PageDocuments.PageReads` | crates/reference-core/src/canonical.rs:188-215 | The bytes whose number is bounded read back as the response with exactly this page: its records, its total and its next cursor |
| `PageDocuments.AssetPageReads` | crates/reference-core/src/editorial.rs:745-806 | The bytes that the Asset query bounds, its four-byte header included, read back as the response with exactly this page |
| `SnapshotSession.DatedStands` | crates/reference-core/src/session.rs:1100-1108 | A cached digest at the current revision still summarises the current projection after any run of transactions |
| `SnapshotSession.Session.CanonicalDigest` | crates/reference-core/src/session.rs:983-991 | The digest is that of the read transaction and is cached with its revision |
| `SnapshotSession.Session.CanonicalPage` | crates/reference-core/src/session.rs:993-1028 | With anything running between its two transactions, a served page is a page of exactly the projection whose digest was asked for; SnapshotChanged is raised exactly if digest or revision moved |
| `SnapshotSession.Session.FollowPages` | crates/reference-core/src/canonical.rs:87-186 | With any transactions between and within the requests, following next cursors through the session yields every record of the projection that the digest summarises, once and in order, or the snapshot changed, or a record does not fit a frame |
| `SnapshotSession.NeverMixed` | crates/reference-core/src/canonical.rs:87-109 | Two pages served for one digest, whenever that was, come from equal projections |
| `AssetPages.SummaryHeavy` | crates/reference-protocol/src/lib.rs:467-489 | An Asset summary is long enough to outweigh what a next offset saves |
| `AssetPages.FitsFewer` | crates/reference-core/src/editorial.rs:745-806 | Frame fit is monotone in the number of items |
| `AssetPages.ByteBound` | crates/reference-core/src/editorial.rs:745-806 | The binary search returns the longest prefix whose frame fits, or is refused exactly if not even one item fits |
| `AssetPages.QueryAssets` | crates/reference-core/src/editorial.rs:200-295 | A page is the longest fitting piece of the ordered result from the offset within the limit, with total, revision, next offset, and facets on the first page alone; each refusal of an existing filter has its exact condition, and a moved snapshot is told with both revisions |
| `AssetPages.QueryFiltered` | crates/reference-core/src/editorial.rs:27-31 | A filter that is gone is refused after limit and offset are checked and before the revision is |
| `AssetPages.QueryAll` | crates/reference-core/src/editorial.rs:200-295 | Following next offsets in one view yields the whole ordered result or stops at a row too large for a frame |
| `AssetSnapshots.SeenStep` | crates/reference-core/src/session.rs:1100-1108 | Every transaction but reopening leaves what the query sees as it was or advances the revision |
| `AssetSnapshots.SeenRun` | crates/reference-core/src/session.rs:1100-1108 | Within one session an equal revision means the query sees the same |
| `AssetSnapshots.SeenAll` | crates/reference-core/src/session.rs:1100-1108 | The query sees the same exactly if every table but the job ledger is the same |
| `AssetSnapshots.ReopenSeen` | crates/reference-core/src/session.rs:1073-1098 | Across a reopening without leftover work the revision stays, and the query sees the same exactly if no linked Root was in a state other than needs-permission or error |
| `AssetSnapshots.FollowOffsets` | crates/reference-core/src/editorial.rs:211-294 | With any transactions between the requests, following next offsets under the first page's revision yields the whole result of the first page's view, or the revision moved, which is the only way a filter can disappear on the way, or a row is too large |
| `AssetPager.RetainedBound` | packages/workspace/src/use-asset-pager.ts:205-210 | The eight most recently used pages are retained, or all of them |
| `AssetPager.AtMostEightHundred` | packages/workspace/src/use-asset-pager.ts:84-101 | so at most 800 items stay cached |
| `AssetPager.StaleAnswer` | packages/workspace/src/use-asset-pager.ts:77-78 | A reply of an older generation changes nothing that is shown or cached |
| `AssetPager.AcceptAgrees` | packages/workspace/src/use-asset-pager.ts:76-103 | Merging a safe reply keeps total and cached items in agreement with the ordered result at the revision that is then held |
| `AssetPager.AcceptPending` | packages/workspace/src/use-asset-pager.ts:76-103 | and no later page that is still in flight can break that |
| `AssetPager.RunBounded` | packages/workspace/src/use-asset-pager.ts:84-101 | Over every run, whatever is answered, at most 800 items are cached |
| `AssetPager.RunAgrees` | packages/workspace/src/use-asset-pager.ts:46-156 | Over every run in which first pages are safe to merge, whenever a snapshot revision is held the total and the cached items are those of the ordered result at that revision |
| `AssetPager.MergeExact` | packages/workspace/src/use-asset-pager.ts:78-101 | A first page that does not replace leaves the cache in agreement, whatever the ordered results are and whatever fair replies follow, exactly if it brings the held revision, or no old item is left and every later page in flight lies beyond the end of two equally long results |
| `AssetPager.FailedRefreshDisagrees` | packages/workspace/src/use-asset-pager.ts:130-139 | A refresh that fails and a later request for the first page end, with honest replies only, in a cache that disagrees with the result at the held revision |
| `AssetPager.ScrollingBackDisagrees` | packages/workspace/src/use-asset-pager.ts:46-103 | Scrolling eight pages down drops the first page; scrolling back after the result changed puts the new first page beside old items, with honest replies only |
| `AssetPager.Pager.constructor` | packages/workspace/src/use-asset-pager.ts:176-192 | The hook starts by asking for the first page with replace |
| `AssetPager.Pager.LoadPage` | packages/workspace/src/use-asset-pager.ts:46-60 | A page is asked for unless it is loaded or in flight; a later page without a snapshot asks for the first page instead |
| `AssetPager.Pager.RestartSnapshot` | packages/workspace/src/use-asset-pager.ts:61-75 | A restart outdates all requests, empties the cache and asks for the first page with replace |
| `AssetPager.Pager.RefreshAll` | packages/workspace/src/use-asset-pager.ts:130-139 | A refresh outdates all requests, keeps the items shown and asks for the first page with replace |
| `AssetPager.Pager.AcceptPage` | packages/workspace/src/use-asset-pager.ts:79-102 | An accepted page is merged and the cache cut down to the most recently used pages |
| `AssetPager.Pager.Receive` | packages/workspace/src/use-asset-pager.ts:76-112 | Each kind of reply has exactly the effect of the specification, which `PagerLaws` states for each, and the request leaves the in-flight map only if it is still the one there |
| `PagerLaws.MoveRestarts` | packages/workspace/src/use-asset-pager.ts:61-75 | In the current generation a reply that the snapshot changed, or a later page at another revision, leaves no items, total 0, no snapshot, no error and a higher generation with exactly one request: for the first page, with replace |
| `PagerLaws.FailureShows` | packages/workspace/src/use-asset-pager.ts:104-113 | A failure shows the error and leaves cache, snapshot, generation and all other requests alone |
| `PagerLaws.PageShows` | packages/workspace/src/use-asset-pager.ts:76-103 | After an accepted page exactly these items are cached: its own, if their page is retained, and the retained old ones that it does not fill, unless it replaces them; total and snapshot are those it brings |
| `PagerLaws.OldAnswer` | packages/workspace/src/use-asset-pager.ts:77-78 | A reply of an older generation changes nothing but the list of requests, and takes no other one off it |
| `PagerLaws.RestartStarts` | packages/workspace/src/use-asset-pager.ts:61-75 | A restart leaves nothing cached, outdates every request and asks for the first page from scratch |
| `PagerLaws.RefreshStarts` | packages/workspace/src/use-asset-pager.ts:130-139 | A refresh does so too, but goes on showing the items and the error |
| `PagerLaws.PagerStarts` | packages/workspace/src/use-asset-pager.ts:176-192 | The hook starts with nothing cached and one request, for the first page |
| `PagerLaws.RequestAsks` | packages/workspace/src/use-asset-pager.ts:46-60 | A page that is loaded or in flight is not asked for again; any other is, at the held snapshot, or the first page is if there is none |
| `PagerLaws.LookedAtStays` | packages/workspace/src/use-asset-pager.ts:46-50 | A page that is looked at becomes the most recently used and is retained |
| `Engine.StepAccounts` | crates/reference-core/src/server.rs:140-191 | Every step keeps the count of pending work equal to queued, running and untaken work and every accepted request in one place |
| `Engine.StepKeeps` | crates/reference-core/src/server.rs:79-191 | Every step of engine, workers and scan threads keeps the whole invariant |
| `Engine.RunValid` | crates/reference-core/src/server.rs:79-191 | In every reachable state the counter is queued plus running plus untaken, and no accepted authorization is lost or answered twice |
| `Engine.PendingBound` | crates/reference-core/src/server.rs:140-191 | In every reachable state at most ten requests are pending, of which at most eight are queued, and the counter tells how many |
| `Engine.NeverSaturates` | crates/reference-core/src/server.rs:739-742 | The saturating decrement never saturates |
| `Engine.AllAnswered` | crates/reference-core/src/server.rs:739-764 | When nothing is pending, exactly the accepted requests have been answered; with what, `EngineLaws.DeliveredAsSent` says |
| `EngineLaws.DeliveredAsSent` | crates/reference-core/src/server.rs:739-764 | Over every run answers are taken in the order they were sent, each for the work it was sent for, and with its descriptor exactly if the rendition succeeded and its session was open when the answer was taken |
| `EngineLaws.TakenInOrder` | crates/reference-core/src/server.rs:84-125 | Over every run work is taken in the order it was accepted |
| `EngineLaws.SentWasTaken` | crates/reference-core/src/server.rs:84-125 | and every answer is for work that was taken before |
| `EngineLaws.AdmittedExactly` | crates/reference-core/src/server.rs:140-191 | A request is accepted exactly if its session is open, its job is new, the started event was queued, fewer than ten are pending and fewer than eight are queued; else nothing is queued, counted or put on record |
| `EngineLaws.ScanAdmittedExactly` | crates/reference-core/src/server.rs:245-351 | A scan starts exactly if its session is open, its job is new and fewer than two scans are on record |
| `EngineLaws.CancelTells` | crates/reference-core/src/server.rs:601-621 | Cancelling tells exactly the named job, if it is one of the open session that asks and has not ended |
| `EngineLaws.ClosesWhenMarked` | crates/reference-core/src/server.rs:672-721 | Once every job of a session is past its last write, closing it succeeds: exactly its jobs are forgotten, and queue, answers and the other sessions stay |
| `Engine.CloseOutcome` | crates/reference-core/src/server.rs:236-244 | Closing either ends the session with none of its jobs left, or on a timeout keeps it with queue, threads and jobs |
| `Engine.ClosedStaysQuiet` | crates/reference-core/src/server.rs:672-721 | After a close no worker and no scan thread writes for the session and no descriptor is delivered for it, whatever happens next |
| `Engine.FewScans` | crates/reference-core/src/server.rs:245-351 | At most two scan threads write at any time |
| `KeyGates.StepKeeps` | crates/reference-core/src/rendition.rs:774-836 | A gate in use is the registered one of its path and is active exactly while one task holds its permit, also when dead gates are forgotten |
| `KeyGates.OnePermit` | crates/reference-core/src/rendition.rs:774-836 | In every reachable state at most one permit is live per cache path |
| `KeyGates.LockGranted` | crates/reference-core/src/rendition.rs:774-836 | A task that waits gets the permit exactly if no task holds one for its path |
| `KeyGates.AskedGate` | crates/reference-core/src/rendition.rs:774-836 | A task that asks waits for a gate of its path, and the registry then knows only gates in use |
| `KeyGates.ReleaseFrees` | crates/reference-core/src/rendition.rs:774-836 | A permit given back goes to the next task of its path that locks |
| `RenditionCache.HitIsRendering` | crates/reference-core/src/rendition.rs:573-643 | A grid cache hit is the rendering of the very source that was asked for |
| `RenditionCache.HitExactly` | crates/reference-core/src/rendition.rs:573-643 | With a true record there is a hit exactly if the record is of this provider version and this source, and the rendering of the source stands beside it |
| `RenditionCache.RenderedExactly` | crates/reference-core/src/rendition.rs:387-450 | A rendering is kept exactly if there is one and the source afterwards is what it is expected to be |
| `RenditionCache.PublishedExact` | crates/reference-core/src/rendition.rs:387-450 | What an attempt publishes is a hit in any case; its record is true exactly if the source renders the same as what was read in its place |
| `RenditionCache.SoundExists` | crates/reference-core/src/rendition.rs:387-450 | There are tools as the theorems about the cache assume them, also ones that render two given contents differently |
| `RenditionCache.Entry.Authorize` | crates/reference-core/src/rendition.rs:93-223 | Whatever file step fails, wherever the process stops and whenever the source is written to, what happens to the files is an attempt of the state machine, served exactly if it gets to its end; serving means a hit; a hit and a changed source change no file; a record that is new is that of what was read, and true exactly if that renders as the source does |
| `RenditionCache.Entry.Publish` | crates/reference-core/src/rendition.rs:128-223 | Publishing renames the rendering of what was read before its record, publishes nothing if the source no longer has its fingerprint, and leaves no record or a hit whose record is true exactly if what was read renders as the source does |
| `SharedCache.StepKeeps` | crates/reference-core/src/rendition.rs:93-223 | However the file steps of many tasks are interleaved under their permits, with tasks giving up and processes stopping, a holder finds the files as it left them, and nobody touches a served hit |
| `SharedCache.BegunExactly` | crates/reference-core/src/rendition.rs:93-126 | A task begins exactly if the source that it finds is the content its cache path is for |
| `SharedCache.ServedStands` | crates/reference-core/src/rendition.rs:127-144 | Once a rendition has been served its files stay as they are, over every run |
| `SharedCache.RecordExact` | crates/reference-core/src/rendition.rs:387-450 | In every reachable state a record is true exactly if what was read for its rendering renders as the source does, and what is served is the rendering of what was read |
| `SharedCache.PlainServes` | crates/reference-core/src/rendition.rs:93-223 | If every rendering of a run reads what renders as the source does, every record is true and everything served is the rendering of its source |
| `SharedCache.AttemptRuns` | crates/reference-core/src/rendition.rs:93-223 | A task that holds the permit and is not disturbed goes through exactly the attempt that the method makes |
| `SharedCache.WrittenOver` | crates/reference-core/src/rendition.rs:387-450 | A run of the cache in which the source is written over while it is decoded, and written back, ends in a served hit that is not the rendering of the source |
| `SharedCache.Unguarded` | crates/reference-core/src/rendition.rs:127-144 | Without the permit a task that looked too early removes what another one was just served |
| `Grants.GrantStore.constructor` | apps/macos/Sources/ReferenceLibraryMac/SecurityScopedGrantStore.swift:121-142 | A readable file is restored without provisional grants and an absent one is empty; an unreadable one, or a failed clean-up, quarantines; nothing is accessed |
| `Grants.GrantStore.Activate` | apps/macos/Sources/ReferenceLibraryMac/SecurityScopedGrantStore.swift:344-362 | An activation succeeds exactly if the bookmark resolves, a stale one is renewed and written, and access starts; a failed write quarantines |
| `Grants.RefreshedMeans` | apps/macos/Sources/ReferenceLibraryMac/SecurityScopedGrantStore.swift:344-362 | A renewed bookmark is stored in the place of the old one and every other one stands |
| `Grants.GrantStore.PrepareLibrary` | apps/macos/Sources/ReferenceLibraryMac/SecurityScopedGrantStore.swift:144-156 | A library grant remembers the bookmark it would replace |
| `Grants.GrantStore.CommitLibrary` | apps/macos/Sources/ReferenceLibraryMac/SecurityScopedGrantStore.swift:158-178 | A library grant is stored and its access made the only one, or the grants are as before, in memory and on disk, or the store is quarantined |
| `Grants.GrantStore.RollbackLibrary` | apps/macos/Sources/ReferenceLibraryMac/SecurityScopedGrantStore.swift:180-190 | The earlier bookmark is restored or the entry removed; a failed write quarantines; the access of that library ends, and that of another stays |
| `Grants.RollbackUndoes` | apps/macos/Sources/ReferenceLibraryMac/SecurityScopedGrantStore.swift:144-190 | Whatever the store has done since, rolling a grant back restores what was stored for its library when it was prepared and touches no other library |
| `Grants.GrantStore.AbandonOpening` | apps/macos/Sources/ReferenceLibraryMac/AppModel.swift:446-467 | A library whose launch fails after its grant was committed leaves the stored grants as they were, or the store quarantined |
| `Grants.GrantStore.ActivateLibrary` | apps/macos/Sources/ReferenceLibraryMac/SecurityScopedGrantStore.swift:192-207 | Activation needs a stored bookmark that works and makes its access the only one; a renewed bookmark is stored for that library, and a failed write of it quarantines |
| `Grants.GrantStore.PrepareRoot` | apps/macos/Sources/ReferenceLibraryMac/SecurityScopedGrantStore.swift:209-246 | A Root grant is recorded and accessed under a fresh token, or nothing stays of it |
| `Grants.GrantStore.CommitRoot` | apps/macos/Sources/ReferenceLibraryMac/SecurityScopedGrantStore.swift:248-270 | A provisional Root becomes a Root of the active library with its bookmark and its access, the replaced access is stopped and every other grant stands, or everything is as before |
| `Grants.GrantStore.DiscardRoot` | apps/macos/Sources/ReferenceLibraryMac/SecurityScopedGrantStore.swift:272-283 | Discarding stops the access and removes the record, and touches no other, or quarantines |
| `Grants.GrantStore.ActivateRoots` | apps/macos/Sources/ReferenceLibraryMac/SecurityScopedGrantStore.swift:285-302 | What the pass over all Roots of the library, in any order, leaves active and whether it quarantined is the pass function of the outcomes; exactly the renewed bookmarks are stored, each for its Root; accesses stay balanced |
| `Grants.PassMeans` | apps/macos/Sources/ReferenceLibraryMac/SecurityScopedGrantStore.swift:285-302 | A pass quarantines exactly if some renewed bookmark could not be written; it leaves active, each under its URL, while the disk stands exactly the Roots that work, and else exactly those opened without a new bookmark and not followed by an attempt to store one |
| `Grants.GrantStore.RemoveRoot` | apps/macos/Sources/ReferenceLibraryMac/SecurityScopedGrantStore.swift:309-324 | Removal takes exactly this Root from disk and stops its access, or quarantines with the state restored and every access stopped |
| `Grants.GrantStore.DeactivateAll` | apps/macos/Sources/ReferenceLibraryMac/SecurityScopedGrantStore.swift:326-334 | Every access in the three tables is stopped exactly once |
| `Grants.GrantStore.Quarantine` | apps/macos/Sources/ReferenceLibraryMac/SecurityScopedGrantStore.swift:370-373 | A quarantined store stops every access |
| `Grants.PassLeaves` | apps/macos/Sources/ReferenceLibraryMac/SecurityScopedGrantStore.swift:285-302 | A pass that quarantines leaves nothing active exactly if no Root was opened after its last attempt to renew a bookmark |
| `Grants.PassLeaks` | apps/macos/Sources/ReferenceLibraryMac/SecurityScopedGrantStore.swift:285-302 | A pass of two Roots that quarantines on the first and leaves the second active |
| `Events.Invalidator.Accept` | packages/workspace/src/workspace-events.ts:64-105 | An event adds exactly what its kind concerns; an urgent one publishes everything pending at once; published and pending together stay what was accepted |
| `Events.Invalidator.Schedule` | packages/workspace/src/workspace-events.ts:120-126 | The quiet timer starts anew, the maximum timer only if it is not running |
| `Events.Invalidator.Flush` | packages/workspace/src/workspace-events.ts:128-148 | What is pending is published as one batch and nothing stays pending; with nothing pending nothing happens |
| `Events.Invalidator.Fire` | packages/workspace/src/workspace-events.ts:120-148 | A due timer publishes what is pending, no later than 400 ms after the first pending event |
| `Events.Invalidator.Reset` | packages/workspace/src/workspace-events.ts:107-114 | A reset forgets what is pending and publishes nothing |
| `Events.CountersMove` | packages/workspace/src/workspace-events.ts:32-47 | A counter moves exactly if some accepted effect concerned it |
| `Events.EventMoves` | packages/workspace/src/workspace-events.ts:64-105 | Which counters each kind of event moves, and whose details it concerns |
| `Supervisor.CoreSupervisor.Send` | apps/macos/Sources/ReferenceLibraryMac/CoreSupervisor.swift:161-182 | A request is refused at once for its reason, or waits, or fails with the generation when it cannot be written |
| `Supervisor.CoreSupervisor.Receive` | apps/macos/Sources/ReferenceLibraryMac/CoreSupervisor.swift:184-237 | For the standing generation: a sound reply resumes exactly its request with the frame, a valid error reply exactly its request with that error, both keeping the generation; an unsound or invalid one fails it and all who wait, as does one to nobody, a malformed frame, a repeated number or a frame of another generation; a later event is forwarded, and a matching started event makes its job known, cancelled if its request was |
| `Supervisor.CoreSupervisor.ReceiveStarted` | apps/macos/Sources/ReferenceLibraryMac/CoreSupervisor.swift:239-253 | A started event is taken only for a known authorization without a job |
| `Supervisor.CoreSupervisor.ReceiveEvent` | apps/macos/Sources/ReferenceLibraryMac/CoreSupervisor.swift:193-217 | Events are forwarded once, in increasing order of their numbers; a repeated number fails the generation |
| `Supervisor.CoreSupervisor.FailGeneration` | apps/macos/Sources/ReferenceLibraryMac/CoreSupervisor.swift:281-288 | Failing resumes everybody who waits, once, and gives one restart notice unless stopping |
| `Supervisor.CoreSupervisor.ClearProcess` | apps/macos/Sources/ReferenceLibraryMac/CoreSupervisor.swift:290-296 | Everybody who waits is resumed with the failure and nobody waits afterwards |
| `Supervisor.CoreSupervisor.Timeout` | apps/macos/Sources/ReferenceLibraryMac/CoreSupervisor.swift:271-274 | A request that waits too long fails the generation and is resumed; one that is done changes nothing |
| `Supervisor.CoreSupervisor.TransportFailed` | apps/macos/Sources/ReferenceLibraryMac/CoreSupervisor.swift:276-279 | Only the transport of the current generation fails it |
| `Supervisor.CoreSupervisor.FinishStop` | apps/macos/Sources/ReferenceLibraryMac/CoreSupervisor.swift:146-159 | After a stop every request ever issued has been resumed |
| `Supervisor.CoreSupervisor.Authorize` | apps/macos/Sources/ReferenceLibraryMac/CoreSupervisor.swift:109-116 | At most 32 authorizations are tracked, whether or not the generation stands |
| `Supervisor.CoreSupervisor.RecordJob` | apps/macos/Sources/ReferenceLibraryMac/CoreSupervisor.swift:249-252 | A job that becomes known after its request was cancelled is cancelled |
| `Supervisor.CoreSupervisor.CancelAuthorization` | apps/macos/Sources/ReferenceLibraryMac/CoreSupervisor.swift:255-260 | A cancelled request cancels its job if it is known, else when it becomes known |
| `Supervisor.CoreSupervisor.FinishAuthorization` | apps/macos/Sources/ReferenceLibraryMac/CoreSupervisor.swift:126-132 | A reply without a known job fails the generation |
| `WireFrames.EncodeParses` | crates/reference-protocol/src/lib.rs:824-857 | A written frame reads back as itself and leaves the rest of the stream alone |
| `WireFrames.AllRead` | crates/reference-protocol/src/lib.rs:824-857 | Whatever frames were written are read in order, and then the end |
| `WireFrames.CutRead` | crates/reference-protocol/src/lib.rs:824-843 | A stream cut anywhere yields an initial run of the frames, then the end or an error, never another frame |
| `WireFrames.OversizeRefused` | crates/reference-protocol/src/lib.rs:824-843 | A header over the limit is refused with the length it holds |
| `WireFrames.Pipe.WriteFrame` | crates/reference-protocol/src/lib.rs:845-857 | A payload over the limit is refused and writes nothing |
| `WireFrames.Pipe.ReadFrame` | crates/reference-protocol/src/lib.rs:824-843 | Reading consumes exactly one frame, or reports the end, an oversized length, or a cut payload |

## Left out

- System calls, file descriptors, symbolic-link and ownership checks, image decoding, hashing, clocks and power loss: they appear only through the assumptions above.
- Classification of media, mime and extension tables, error texts, validation of identifiers and shape checks: long lookups that one reading settles.
- The SQL text, migrations and schema checks: the tables are maps with primary keys. A write that the database refuses is not modelled, except that a scan thread may vanish.
- The choice of the Root that an added folder matches, and the evidence for a re-bound one: the outcome of each check is a parameter.
- Filters, sorting and facets of the Asset query: the ordered result is a function of what the query sees.
- Trimming and length limits of titles, notes and Collection names: patches and names arrive normalised.
- Times of rows, events sent to the client during a scan, and the legacy whole-document dump.
- The preview profile of the rendition cache: its hit compares length and fingerprint with the source directly; only the grid profile has a record and crash points.
- Several processes sharing one cache: the gate works within one process.
- The pager's facets, error texts, summary refresh and its React scheduling: a state update is applied when the reply is accepted, and the continuation that asks for a later page again is a separate request.
- Deadlines and cancellation inside a rendition: they are among the failures that any file step may have.
- The engine's other commands, its event queue and the shutdown loop: they do not touch the accounts of work and sessions.
- Shortlist, pan and scroll helpers, preferences, user interface and bridge wiring.
- RenditionCache.Entry.Authorize: does not model temporary files, which no request reads.
- LibrarySession.Session.UpdateAsset: takes a patch whose texts and tokens are already normalised; token lists are normalised by `Tokens.NormalizeTokens`.
