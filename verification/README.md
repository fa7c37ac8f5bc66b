# VirtValidate: the deterministic middle layer

VirtValidate turns a VMware inventory into migration plans for OpenShift Virtualization. Between the spreadsheets
at one end and the MTV documents at the other lies a layer without I/O that promises a great deal: re-import is
idempotent, no VM is lost, what the pre-check passes can be generated, no LLM can damage a mapping. This project models
that layer and proves which of the promises hold, for all inputs, and exactly when the others do.

Modules, by component:

- **Inventory import.** `ImportShelf` is one vCenter's rows behind the two-key index, `ImportInvariants` what a walk
  over a file keeps, and `ImportColumns` what each VM holds afterwards. `ImportIntake` says which rows are taken.
  `Reimport`, `ReimportCounts`, `ReimportLimits`, `ReimportSwaps`, `ReimportExact` and `CreateOnlyOrder` prove when a
  second import counts nothing or does nothing. `ImportWorld` puts the vCenters together and `ImportOrder` carries the
  results over to the whole table; `ImportTally`, `ImportStages` and `ImportEngine` are the importer as it runs, with
  batches, rollback, replay and counters, which `ImportCounts` explains by the table. `ForgottenVms` proves what a
  rollback costs, and `ImportResume` when a second upload finishes an interrupted import. `ImportJobs` is the life of
  a job under interleaved requests, workers and restarts, with each handler as one step; `ImportRaces` takes the
  handlers apart.
- **Anti-affinity.** `Family` (keys), `FirstFit` (bucket allocation), `FamilySplit` (the splitter).
- **Wave concurrency.** `Concurrency`.
- **Bulk capture.** `BulkCapture`: the task store, and the workers under two nested semaphores as interleaved steps.
- **From Stage 0 to documents.** `Mapping`, `MappingValidation`, `MtvDocuments`, `Mtv`, `MtvPreCheck`, `MtvMaps`,
  `MtvOrder`, `MtvExact`, `StageZero`; in terms of rows, catalog and attributes: `StageZeroGaps`, `MtvMeaning`,
  `MtvProblems`, `NamespaceNames`, `EmittedWaves`.
- **Plan creation and preview.** `PlanChunking`, `PlanChunkOrder`, `Grouping`, `Plans`, `PlanTheorems`, `PlanPreview`,
  `PlanRequests`, `PlanOrder`, `PlanEligibility`.
- **Suggestions.** `SuggestionParsing`, `SuggestionMeaning`, `Shortlists`, `Suggester`, `Suggestions`,
  `SuggestionRows`.
- **Catalog import.** `CatalogImport`, `CatalogMerge`.
- `Text`, `Sequences`, `Sorting` and `Sets` are shared ground.

Code that works in steps is a method or a class with the source's fields, proved equal to a function of its inputs or
old state; the theorems are about those functions. Oracles stand for what the code cannot see: the LLM's replies are an
arbitrary script, scores and text measures arbitrary functions, foreign integrity violations and cancel requests
arbitrary predicates.

`dafny verify dfyconfig.toml` checks the project.

## Where the code and its documentation differ

Each of these follows the code, and is stated as an exact condition where there is one.

- *Re-import yields created=0, updated=0* (`import_jobs.py:12-17`). The rows behind an index are read without an order
  (`import_jobs.py:188`), and of several VMs of one name the last one read is found. So the promise holds from every
  inventory exactly for files in which every row carries a MoRef (`ReimportExact.AnyOrderExactly`). If rows are read in
  stored order every time, as an append-only table usually yields them, the counts are zero for more files
  (`ReimportExact.CountsNothingExactly`), and counts and missing flags come back for some of those
  (`ReimportExact.ReimportIsNoOpExactly`). Outside each condition some inventory shows the difference.
  Create-only mode depends on the order as well (`CreateOnlyOrder.CreateOnlyAnyOrderExactly`).
- *Flags VMs that were absent from the file* (`import_jobs.py:15-17`). A rollback clears the indexes together with what
  they have seen, so VMs of earlier batches can be flagged although the file has them
  (`ImportWorld.ReplayForgetsExample`). From every inventory that spares them exactly if the vCenter has no row before
  the rollback, or none after it, since a vCenter that no later row touches is not swept
  (`ForgottenVms.AlwaysRemembersExactly`). For safe files this holds inventory by inventory and over any number of
  rollbacks (`ForgottenVms.ForgottenExactly`), and so of the importer as it runs (`ImportEngine.Importer.RunImport`).
  Without a rollback the sweep is exact (`ImportInvariants.MissingExactly`).
- *Upload the file again to finish* (`import_jobs.py:68-71`). In create-only mode that is so for every file
  (`ImportResume.CreateOnlyImportFinishes`). With rows read in stored order, an upsert ends in the table of an
  uninterrupted run, from every table and wherever it stopped, exactly if each vCenter has one row of the file at
  most, or none with a MoRef (`ImportResume.ImportFinishesExactly`): the second upload starts with fresh indexes, and
  they may give a name to another VM.
- *Two imports racing* (`imports.py:87-95`). The check for another import and the row that would make a later check fail
  are written apart, in an upload by as much as it takes to store the file. Two requests get through exactly if one
  checks while another accepted one has not written (`ImportRaces.RaceExactly`, `ImportRaces.TwoUploadsExample`), and a
  start that has been checked revives a job cancelled meanwhile (`ImportRaces.FinishedChangesExactly`,
  `ImportRaces.RevivedExample`). With atomic handlers neither happens (`ImportJobs.EveryRun`).
- *The same logic the emitter runs* (`mapping_validation.py:18-21`). Stage 0 accepts any row that names a source, the
  emitter asks only the first (`StageZero.ShadowedRowExample`); Stage 0 strips the attributes that criteria rows
  compare, the emitter does not (`StageZero.NamespaceCheckExactly`); and asked directly with mappings, Stage 0 passes
  VMs without a vCenter that no wave can be generated for (`StageZero.VcenterlessWaveFails`,
  `StageZero.VcenterlessExample`), though plan creation never asks it so (`PlanTheorems.VcenterlessIsNeverPlanned`).
  `StageZero.StageZeroExactly` is what remains true.
- *Deterministic regardless of input order* (`plan_chunking.py:59-60`). A partition that fits in one plan keeps the
  order it came in (`PlanChunking.OrderMattersExactly`); so do the plans of a preview and of a creation that read the
  selection in different orders (`PlanOrder.PreviewAgreesInAnyOrder`).
- *Two waves share an id iff they are parallel-safe* (`concurrency.py:14-15`). The same id implies safe; the converse
  holds exactly when being parallel-safe is transitive among the waves (`Concurrency.IdsMeanSafeExactly`,
  `Concurrency.SafeButApartExample`).
- *One vCenter can't starve another* (`bulk_capture.py:11`). A VM that waits for its vCenter's permit holds a global
  one, so the VMs of one vCenter can hold them all exactly when there are enough of them
  (`BulkCapture.StarvationExactly`, `BulkCapture.StarvationExample`). What does hold: limits, progress, termination.
- *An unchanged paste* (`catalog_import.py:451-453`). Two pasted default StorageClasses displace each other for ever,
  and an empty pasted namespace of an existing network is reported as a change on every preview
  (`CatalogImport.FixpointExactly`).
- *At most two sub-groups* of a split is a fact about named VMs only, since an unnamed VM counts towards no family. Two
  are enough exactly if the group holds at most twice the cap of the family without a name
  (`FamilySplit.TwoSubGroupsExactly`, `FamilySplit.UnnamedVmsAllSeparate`).
- *The resulting namespace is DNS-1123 compliant* (`mtv.py:209-212`). So it is exactly if the configured prefix is fit
  to begin a name and the whole is not too long (`NamespaceNames.ApplicationNamespaceExactly`).
- *Returns the lower-cased name verbatim* (`family.py:74-76`) when there is no family pattern: an underscore is still
  rewritten (`Family.UnderscoreExample`); `Family.VerbatimExactly` says when the name does come back verbatim.

## Model

| member | source | states |
|---|---|---|
| `ReimportExact.CountsNothingExactly` | backend/app/core/import_jobs.py:12-17 | "created=0, updated=0" on re-import, rows read in stored order both times: it holds from every inventory with unique MoRefs if and only if no MoRef-less row follows a MoRef row of its name, and every MoRef row after a MoRef-less one has its name and brings all it brings |
| `ReimportExact.ReimportIsNoOpExactly` | backend/app/core/import_jobs.py:12-17 | Counts and missing flags both as before, rows read in stored order both times: from every inventory if and only if MoRef rows come first and share no name with MoRef-less ones |
| `ReimportExact.AnyOrderExactly` | backend/app/core/import_jobs.py:178-195 | The query that loads an index asks for no order. With the rows reread in any order, a second import counts nothing, and does nothing at all, from every inventory if and only if every row of the file carries a MoRef |
| `ReimportCounts.RepeatableCountsNothing` | backend/app/core/import_jobs.py:276-333 | Rows read in stored order: from any inventory with unique MoRefs the second import of such a file reports every row unchanged, even where it finds another VM than the first did |
| `Reimport.SafeFileSettles` | backend/app/core/import_jobs.py:276-333 | Rows read in stored order: the second upsert of a file with distinct keys, MoRef rows first and names apart reports every row unchanged and leaves every stored row, flags included, as it was |
| `Reimport.FoundAgain` | backend/app/core/import_jobs.py:197-206 | Rows read in stored order: after a first run of such a file, every row finds the VM it landed on, holding all it brings |
| `Reimport.HitIsNew` | backend/app/core/import_jobs.py:178-206 | Distinct row keys land on distinct VMs, although adopting a VM by name never updates the MoRef index |
| `ReimportLimits.SharedNameAfter` | backend/app/core/import_jobs.py:197-206 | For any file with a MoRef row followed by a MoRef-less row of its name, an inventory on which the second import writes again |
| `ReimportSwaps.NotAbsorbed` | backend/app/core/import_jobs.py:231-249 | For any file with a MoRef-less row and a later MoRef row of its name that does not bring all it brings, an inventory on which the second import writes again |
| `ReimportSwaps.RenamedAway` | backend/app/core/import_jobs.py:301-305 | For any file with a MoRef-less row and a later MoRef row of another name, an inventory on which the VM matched by name is renamed and the second import writes another one |
| `ReimportLimits.SharedNameBefore` | backend/app/core/import_jobs.py:411-417 | For any file with a MoRef-less row before a MoRef row of its name, an inventory whose counts or missing flags differ after the second import |
| `Reimport.CreateOnlySettles` | backend/app/core/import_jobs.py:295-299 | Rows read in stored order: in create-only mode a second run of any file from any inventory creates nothing and changes nothing |
| `CreateOnlyOrder.CreateOnlyAnyOrderExactly` | backend/app/core/import_jobs.py:197-206 | Rows reread in any order: a second create-only run creates nothing, from every inventory, if and only if no row of the file carries a MoRef |
| `ImportColumns.UpdatedColumn` | backend/app/core/import_jobs.py:231-249 | One update, column by column: a number, a flag, or a non-empty text, list or document replaces what was stored; every column that the row leaves out or leaves blank keeps its value |
| `ImportColumns.UpdatedExactly` | backend/app/core/import_jobs.py:231-249 | A row is reported as changed exactly when it brings another name, another MoRef, or another value for some column |
| `ImportShelf.ChangesExactly` | backend/app/core/import_jobs.py:231-249 | There is a change to report exactly when the stored row does not reflect the incoming one, which it does afterwards; what it reflects already leaves the row as it is but for the missing flag |
| `ImportColumns.LastWordsCount` | backend/app/core/import_jobs.py:276-333 | After an upsert of any file each VM has the name of the last row that landed on it, the MoRef of the last one that had a MoRef, and of each column the value of the last one that brought it; what no row brought is as stored, or as the creating row had it |
| `ImportColumns.KeptColumn` | backend/app/core/import_jobs.py:231-249 | A thinner re-export blanks no good data: a column that no landing row brings keeps its value through the import and the sweep |
| `ImportColumns.CreateOnlyTouchesNothing` | backend/app/core/import_jobs.py:295-299 | A create-only import leaves every stored VM exactly as it was and creates each new one as its row has it |
| `ReimportCounts.MatchExactly` | backend/app/core/import_jobs.py:197-206 | With freshly loaded indexes a row means the VM of its MoRef if there is one; otherwise the last VM of its name, unless that has a MoRef and the row has another |
| `ImportInvariants.WalkKeepsConsistent` | backend/app/core/import_jobs.py:178-206 | Over any file with distinct keys, MoRefs stay unique and the stale MoRef index can only miss MoRefs that the file itself has already brought |
| `ImportInvariants.WalkKeepsMorefs` | backend/app/core/import_jobs.py:231-249 | Whatever the file and the inventory, no VM is deleted and a non-empty MoRef never changes |
| `ImportInvariants.MissingExactly` | backend/app/core/import_jobs.py:411-430 | After a completed upsert a VM is flagged missing if and only if no row of the file matched or created it |
| `ImportInvariants.Untouched` | backend/app/core/import_jobs.py:276-333 | A VM that no row lands on is left exactly as it was |
| `ImportWorld.ImportProjects` | backend/app/core/import_jobs.py:266-273 | An import into several vCenters is one independent walk per vCenter |
| `ImportWorld.ImportKeepsUnique` | backend/app/core/import_jobs.py:336-347 | From a table with unique MoRefs, the rows taken from a file never break uniqueness |
| `ImportWorld.SecondImportIsNoOp` | backend/app/core/import_jobs.py:12-17 | Whole table, rows read in stored order: re-importing a safe file reports only unchanged rows and returns the same table |
| `ImportOrder.SecondImportCounts` | backend/app/core/import_jobs.py:12-17 | Whole table, rows read in stored order: re-importing a repeatable file reports only unchanged rows |
| `ImportOrder.SecondImportInAnyOrder` | backend/app/core/import_jobs.py:178-195 | Whole table, rows reread in any order: re-importing a file of MoRefs reports only unchanged rows and leaves the table as it was read |
| `ImportWorld.SecondCreateOnlyIsNoOp` | backend/app/core/import_jobs.py:295-299 | Whole table, rows read in stored order: a second create-only import is a no-op for any file |
| `ImportWorld.FinalProjects` | backend/app/core/import_jobs.py:410-430 | A vCenter the file touches ends as its own walk and sweep leave it; a vCenter it does not touch is not swept |
| `ImportWorld.SweepIsExact` | backend/app/core/import_jobs.py:410-430 | In every touched vCenter, flagged missing means: no row since the indexes were last cleared landed on the VM |
| `ImportWorld.ReplayForgets` | backend/app/core/import_jobs.py:341-352 | How a replay costs flags: a VM that rows before it landed on, and none after it, is flagged missing although the file has it |
| `ForgottenVms.AlwaysRemembersExactly` | backend/app/core/import_jobs.py:341-352 | For any file of one vCenter and one rollback: from no inventory is a VM that the rows before the rollback landed on flagged missing, if and only if there are no rows before it or none after it |
| `ForgottenVms.ForgottenExactly` | backend/app/core/import_jobs.py:341-352 | For a safe file, from each inventory and over any number of rollbacks: no VM that earlier stages landed on is flagged, if and only if the vCenter has no rows before the last rollback or none after it |
| `ForgottenVms.ImportForgetsExactly` | backend/app/core/import_jobs.py:410-430 | The same for an import that commits some of the rows taken from a safe file |
| `ImportWorld.ReplayForgetsExample` | backend/app/core/import_jobs.py:341-352 | Two new VMs, one of them replayed: the other ends up flagged as missing |
| `ImportWorld.TakenRowsAreDistinct` | backend/app/core/import_jobs.py:466-477 | Duplicate rejection leaves distinct keys per vCenter, as long as a sheet row yields one VM |
| `ImportWorld.IntakeConserves` | backend/app/core/import_jobs.py:458-483 | Every input is exactly one of taken, rejected, unrouted or a warning |
| `ImportIntake.IntakeExactly` | backend/app/core/import_jobs.py:458-478 | Input by input: a mapped host goes to its mapped vCenter and any other to the default one, if there is one; the VM is taken unless another sheet row had its MoRef or name in that vCenter before; issues are counted by their kind |
| `ImportTally.SharesExactly` | backend/app/core/import_jobs.py:395-407 | The share of each vCenter grows by what its own rows count as |
| `ImportCounts.OutcomesExactly` | backend/app/core/import_jobs.py:276-333 | Row by row, a row counts as created when it adds a VM to the table, as updated when it changes name, MoRef or a column of a stored one, and as unchanged otherwise |
| `ImportCounts.WorkExactly` | backend/app/core/import_jobs.py:395-407 | Each counter of a stage is the number of rows with that effect on the table |
| `ImportCounts.CreatedInStages` | backend/app/core/import_jobs.py:395-407 | Over any number of stages, as many rows count as created as the table has more VMs |
| `ImportStages.StagesLoseNothing` | backend/app/core/import_jobs.py:335-366 | Rows committed in any number of stages, each from empty indexes, never delete a VM or change a MoRef |
| `ImportEngine.Importer.Upsert` | backend/app/core/import_jobs.py:276-333 | One row over the two-key index, as the step function says: created, updated, unchanged, what is seen, and what the index becomes |
| `ImportEngine.Importer.Commit` | backend/app/core/import_jobs.py:368-408 | A transaction moves the counters only after the flush succeeded; then counts, shares and table are those of the rows committed so far, and MoRefs are unique if they were |
| `ImportEngine.Importer.Rollback` | backend/app/core/import_jobs.py:341-346 | Rollback returns to the committed table and job, with empty indexes; the rows committed so far stay committed, as a closed stage |
| `ImportEngine.Importer.Replay` | backend/app/core/import_jobs.py:347-365 | A replayed row either joins the rows committed so far or is rejected, and then closes a stage; table and counts stay those of the committed rows |
| `ImportEngine.Importer.FlushBatch` | backend/app/core/import_jobs.py:335-366 | Each row of a batch ends up valid or rejected whatever fails, and what was committed is a subsequence of what was committed before and the batch; a rollback happens only after a violation |
| `ImportEngine.Importer.MarkMissing` | backend/app/core/import_jobs.py:410-430 | The sweep over all loaded vCenters gives the swept table, and counts as missing exactly the VMs that it flags and that were not flagged before |
| `ImportEngine.Importer.ReadOne` | backend/app/core/import_jobs.py:458-478 | Route an input; unrouted, duplicate, or waiting in the batch |
| `ImportEngine.Importer.RunImport` | backend/app/core/import_jobs.py:433-482 | Every run, cancelled or replayed included: the committed rows are a subsequence of the rows taken from the file, the table is what they make of the old one stage by stage (and the sweep, on completion), the counts, newly missing VMs included, are theirs and balanced per vCenter, no VM is deleted, no MoRef changes and MoRefs stay unique. On completion every input is valid, rejected, unrouted or a warning. Without a rollback the committed rows are a prefix of those taken, at the end all of them; without foreign writes there is no rollback. A completed upsert of a safe file flags VMs that earlier stages landed on in exactly the vCenters that have rows on both sides of the last rollback |
| `ImportStages.NothingBreaks` | backend/app/core/import_jobs.py:335-347 | No batch of a file with distinct keys violates uniqueness by itself, so a replay needs a foreign write |
| `ImportEngine.SecondImportCountsNothing` | backend/app/core/import_jobs.py:12-17 | Rows read in stored order: the counters of a second import of a repeatable file are created = 0, updated = 0, and for a safe file the table is the same |
| `ImportEngine.RereadCountsNothing` | backend/app/core/import_jobs.py:12-17 | Rows reread in any order: the same, counters and table, for a file of MoRefs |
| `ImportResume.FinishesExactly` | backend/app/core/import_jobs.py:68-71 | Interrupted upserts, rows read in stored order: uploading the file again ends where an uninterrupted run would have, from every inventory with unique MoRefs and after any number of rows, if and only if no row of the file has a MoRef or it has one row at most |
| `ImportResume.ImportFinishesExactly` | backend/app/core/import_jobs.py:68-71 | The same for the whole table: if and only if each vCenter has one row of the file at most, or none with a MoRef |
| `ImportResume.SomeNotFinished` | backend/app/core/import_jobs.py:178-206 | For any other file, an inventory and a point of interruption after which the second upload ends in another table |
| `ImportResume.CreateOnlyFinishes` | backend/app/core/import_jobs.py:295-299 | In create-only mode an interrupted import is finished by uploading the file again, for any file and inventory, rows read in stored order |
| `ImportResume.CreateOnlyImportFinishes` | backend/app/core/import_jobs.py:295-299 | The same for the whole table |
| `ImportJobs.ImportService.UploadRvtools` | backend/app/api/imports.py:130-174 | With an atomic handler: accepted only while no import is active; a refused upload changes nothing |
| `ImportJobs.ImportService.Start` | backend/app/api/imports.py:196-225 | With an atomic handler: accepted only for a job that waits for routing, with a routing, while no import is active |
| `ImportJobs.ImportService.Cancel` | backend/app/api/imports.py:228-244 | A waiting job is finished at once, a running one is only asked to stop, a finished one is left alone |
| `ImportJobs.ImportService.FailOrphanImports` | backend/app/core/import_jobs.py:559-580 | Startup fails everything in flight, and waiting jobs whose spool file is gone |
| `ImportJobs.StepKeeps` | backend/app/api/imports.py:87-95 | With atomic handlers, every interleaved step of handlers, workers and restarts keeps: at most one active job, with its worker; a spool file exactly until the end |
| `ImportJobs.EveryRun` | backend/app/core/import_jobs.py:94-100 | With atomic handlers, over every run the invariant holds, and finished jobs never change again |
| `ImportJobs.TerminalIsAbsorbing` | backend/app/core/import_jobs.py:94-100 | With atomic handlers, no step changes a finished job |
| `ImportJobs.RecoveryLeavesNothingActive` | backend/app/core/import_jobs.py:559-580 | After a restart no job is active, and a job waits for routing only if its file is there |
| `ImportJobs.OneImportAtATime` | backend/app/api/imports.py:87-95 | With atomic handlers, no run from an empty appliance reaches two active jobs |
| `ImportJobs.StatusExactly` | backend/app/api/imports.py:130-244 | With atomic handlers: what each step does to the status of each job, by name; no job goes away, and one that comes to its end gives up its spool file |
| `ImportJobs.BusyExactly` | backend/app/api/imports.py:87-95 | The check refuses exactly while some job is uploaded, being scanned or being imported |
| `ImportRaces.RacingHandlers.CheckUpload` | backend/app/api/imports.py:87-149 | An upload up to the point where it starts to store its file: it passes only while no import is active, and writes no job yet |
| `ImportRaces.RacingHandlers.CheckStart` | backend/app/api/imports.py:196-220 | A start up to its busy check: it passes only for a job that waits for routing, with a routing, while no import is active |
| `ImportRaces.RacingHandlers.Write` | backend/app/api/imports.py:130-225 | The rest of either handler: the job row is written and the task queued, whatever happened since the check |
| `ImportRaces.RaceExactly` | backend/app/api/imports.py:87-95 | With checks and writes apart: in a run from an empty appliance, requests that have passed can leave two tasks or two active jobs by merely writing, if and only if some check passes while another accepted request has not written yet |
| `ImportRaces.RunStaysAlone` | backend/app/api/imports.py:87-95 | Without such an overlap, no reachable state has two tasks or two active jobs |
| `ImportRaces.TwoUploadsExample` | backend/app/api/imports.py:130-173 | Two uploads, the second of which checks while the first is still storing its file: two active jobs |
| `ImportRaces.FinishedChangesExactly` | backend/app/api/imports.py:196-225 | Among such runs, a step changes a finished job if and only if it is the write of a start of that job |
| `ImportRaces.RevivedExample` | backend/app/api/imports.py:196-244 | A job cancelled between check and write of its start is importing again, without its file |
| `ImportRaces.LandedAtOnce` | backend/app/api/imports.py:87-225 | A request whose write follows its check at once does to the jobs what the atomic handler does |
| `ImportRaces.OtherMovesAgree` | backend/app/api/imports.py:87-244 | Scans, imports, cancels and restarts do to the jobs what they do with atomic handlers; a check and a withdrawal do nothing |
| `ImportJobs.EarlyCancelIsDeferred` | backend/app/api/imports.py:239-242 | A cancel of a job without routing before its scan has ended is not acted on, in any run of other steps: when the scan ends the job waits for routing |
| `Family.DetectFamily` | backend/app/core/family.py:70-114 | The tokenizer that pops tokens off a list computes the family key |
| `Family.SplitJoin` | backend/app/core/family.py:92-114 | Splitting undoes joining, for any tokens |
| `Family.FamilyIsIdempotent` | backend/app/core/family.py:70-114 | A family key is its own family key, for every name |
| `Family.SameFamilyIffSameStem` | backend/app/core/family.py:70-114 | Names with a non-role stem share a family exactly when their stems agree up to case |
| `Family.SpellingDoesNotMatter` | backend/app/core/family.py:70-114 | Letter case and the choice of separator never change the family of a name with a stem |
| `Family.TrailingNumberDoesNotMatter` | backend/app/core/family.py:96-102 | Appending a numeric token never changes the family of a name with a stem |
| `Family.StemlessStandsAlone` | backend/app/core/family.py:97-111 | A name of digits or of a bare role shares a family only with its own spellings |
| `Family.NumberedMembersExactly` | backend/app/core/family.py:33-67 | `x-01` and `x-02` share a family for every token x that is not a number, except the fourteen bare roles in any letter case |
| `Family.DroppedExactly` | backend/app/core/family.py:96-102 | What is dropped from the end is numbers, and all of them |
| `Family.VerbatimExactly` | backend/app/core/family.py:73-76 | The key is the lower-cased name verbatim if and only if no stem is left, or nothing is dropped from the name and it has no underscore |
| `Family.UnderscoreExample` | backend/app/core/family.py:92-114 | A name without numbers or roles that comes back with its underscore rewritten |
| `FamilySplit.FamilyCap` | backend/app/core/family.py:130-149 | Half the family, rounded up, and at least one |
| `FirstFit.RoomFrom` | backend/app/core/family.py:226-232 | The first bucket with room: every bucket before it is full for the family |
| `FirstFit.AllocationIsChunked` | backend/app/core/family.py:217-237 | First fit cuts each family into consecutive runs of cap members, one run per bucket |
| `FirstFit.KthMemberLands` | backend/app/core/family.py:217-237 | The k-th member of a family lands in bucket k / cap |
| `FirstFit.NoFewerBuckets` | backend/app/core/family.py:217-237 | No partition of the same VMs within the caps has fewer pieces |
| `FirstFit.OneBucketIffWithin` | backend/app/core/family.py:205-241 | One bucket is enough exactly when no family exceeded its cap: the single-bucket branch is unreachable |
| `FamilySplit.SplitOverconcentratedFamilies` | backend/app/core/family.py:152-267 | The loops over groups, families and buckets compute the specified split; no VM is lost or doubled, and no output group has more than half, rounded up, of the named VMs that a family has in all groups |
| `FamilySplit.SplitOneExactly` | backend/app/core/family.py:205-265 | A group is split exactly when some family exceeds its cap, and then into the allocated buckets |
| `FamilySplit.SplitIsSound` | backend/app/core/family.py:158-176 | No VM is lost or doubled, and no output group exceeds the cap of any family |
| `FamilySplit.SplitIsIdempotent` | backend/app/core/family.py:172-174 | Splitting the output again changes nothing |
| `FamilySplit.TwoSubGroupsSuffice` | backend/app/core/family.py:158-164 | A group of named VMs that must be split is cut into exactly two sub-groups |
| `FamilySplit.NoFewerSubGroups` | backend/app/core/family.py:217-241 | Named or not, no group is cut into more pieces than the caps force |
| `FamilySplit.TwoSubGroupsExactly` | backend/app/core/family.py:191-241 | Any group of a plan: two sub-groups are enough if and only if it holds at most twice the cap of the family without a name |
| `FamilySplit.UnnamedVmsAllSeparate` | backend/app/core/family.py:191-209 | A group of n VMs, none of which has a name, falls into n pieces when it is the only one |
| `FamilySplit.SubGroupKeepsPeers` | backend/app/core/family.py:243-265 | A sub-group keeps exactly the HA peers whose VM it holds, and its parent's vCenter, namespace and cluster |
| `FamilySplit.SubGroupsDiffer` | backend/app/core/family.py:243-265 | The sub-groups of a group have different keys, and list their VMs in ascending order |
| `FamilySplit.PairIsParted` | backend/app/core/family.py:158-164 | The two VMs of a two-member family never share an output group |
| `FamilySplit.NumberedPairIsParted` | backend/app/core/family.py:70-114 | In particular VMs named stem-01 and stem-02 when they are all there is of that family |
| `Concurrency.AssignConcurrencyGroups` | backend/app/core/concurrency.py:75-110 | The loop returns the same list with a greedy colouring in it: no two waves of one id have a group of the same vCenter or a named VM of the same family, and every smaller id is held by an earlier wave that has |
| `Concurrency.FamilyKeysForWave` | backend/app/core/concurrency.py:35-53 | Exactly the families of the wave's named VMs |
| `Concurrency.UsedColours` | backend/app/core/concurrency.py:90-104 | Exactly the colours of already coloured waves that conflict |
| `Concurrency.LowestFree` | backend/app/core/concurrency.py:105-107 | The smallest colour not in use |
| `Concurrency.SameIdIsSafe` | backend/app/core/concurrency.py:3-15 | Two waves with the same id share no vCenter and no family |
| `Concurrency.IdsAreTight` | backend/app/core/concurrency.py:89-109 | Every smaller id is held by an earlier conflicting wave, so an id is at most their number |
| `Concurrency.LayoutIsCanonical` | backend/app/core/concurrency.py:17-19 | Any two greedy colourings of the same waves agree, whatever order the list had |
| `Concurrency.OneVcenterIsSerial` | backend/app/core/concurrency.py:21-26 | n mutually conflicting waves, such as n waves of one vCenter, get exactly 0 to n-1 in wave order |
| `Concurrency.ConflictsExactly` | backend/app/core/concurrency.py:56-73 | Two waves conflict exactly when both have a group of one vCenter, or a named VM of one family |
| `Concurrency.ApartIsSerial` | backend/app/core/concurrency.py:21-26 | n waves any two of which must stay apart get ids below n, in wave order, after the algorithm has run |
| `Concurrency.OneVcenterWaves` | backend/app/core/concurrency.py:21-26 | Waves that each have a group of one vCenter must all stay apart |
| `Concurrency.IdsMeanSafeExactly` | backend/app/core/concurrency.py:3-15 | Sharing an id means being parallel-safe, both ways and for all pairs, if and only if being parallel-safe is transitive among the waves |
| `Concurrency.SafeButApartExample` | backend/app/core/concurrency.py:14-15 | Three waves, two of them parallel-safe with different ids |
| `BulkCapture.BulkCaptureTaskStore.SetVmStatus` | backend/app/core/bulk_capture.py:108-134 | One VM entry is created or updated and a terminal status counted; unknown tasks are ignored |
| `BulkCapture.StepKeeps` | backend/app/core/bulk_capture.py:152-198 | No interleaving of worker steps breaks permit conservation or the agreement of counters and per-VM statuses |
| `BulkCapture.LimitsOverEveryRun` | backend/app/core/bulk_capture.py:234-254 | In every reachable state at most max(1, max_parallel) VMs are reported as capturing, and at most max(1, per_vcenter_parallel) of one vCenter capture |
| `BulkCapture.CapturesExactly` | backend/app/core/bulk_capture.py:234-254 | n VMs of one vCenter capture at once in some reachable state if and only if it has as many and both limits, each at least one, allow it |
| `BulkCapture.OutcomesExactly` | backend/app/core/bulk_capture.py:177-198 | Over every run: a VM whose capture ended without an error is completed, one whose capture raised is failed with that error and its seconds, none ends twice, and until then neither is reported; the counters are the numbers of captures that ended either way |
| `BulkCapture.FinishedRun` | backend/app/core/bulk_capture.py:256-258 | A run that is over ends with its finalization as finished, whatever failed |
| `BulkCapture.NeverStuck` | backend/app/core/bulk_capture.py:167-174 | A batch that is not finalized always has an enabled step: the nested permits cannot deadlock |
| `BulkCapture.EveryRunFinishes` | backend/app/core/bulk_capture.py:244-258 | Every run has at most 6n + 1 steps; one that cannot go on is finalized, with completed + failed = n and each counter equal to the number of VMs of that status |
| `BulkCapture.StarvationExactly` | backend/app/core/bulk_capture.py:9-11 | A VM can be kept waiting while the VMs of one other vCenter hold every global permit, in some reachable state, if and only if that vCenter has at least max(1, max_parallel) VMs, whatever the per-vCenter limit |
| `BulkCapture.StarvingIdlesPermits` | backend/app/core/bulk_capture.py:167-174 | In such a state no more than the per-vCenter limit of VMs capture, however many global permits are held |
| `BulkCapture.StarvationExample` | backend/app/core/bulk_capture.py:167-174 | Three VMs and a run after which the third, whose vCenter is idle, waits on a global permit held by the second, which waits for its vCenter |
| `MappingValidation.MappedNetworks` | backend/app/core/mapping_validation.py:77-88 | Sources with a non-blank target or marked ignored |
| `MappingValidation.MappedDatastores` | backend/app/core/mapping_validation.py:91-100 | Sources with a non-blank StorageClass |
| `MappingValidation.ValidatePlanInputs` | backend/app/core/mapping_validation.py:180-285 | The nested loops report exactly the specified gaps, in order |
| `MappingValidation.CleanDecomposes` | backend/app/core/mapping_validation.py:207-285 | A selection is clean exactly when each of its VMs is |
| `MappingValidation.CleanVmExactly` | backend/app/core/mapping_validation.py:225-283 | A VM of a known vCenter is clean exactly when networks, datastores and namespace are all covered and it names a datastore |
| `StageZeroGaps.GapExactly` | backend/app/core/mapping_validation.py:180-285 | Stage 0 reports a gap about a VM if and only if it is one: a network or datastore that no row of its mapping sends anywhere, no datastore at all, no namespace from rules on stripped attributes, or no mapping of its vCenter |
| `MtvDocuments.SemanticErrors` | backend/app/core/mtv_validate.py:48-84 | The validator's loops find exactly the specified flaws |
| `MtvDocuments.PassesExactly` | backend/app/core/mtv_validate.py:48-84 | A document passes exactly when its names are DNS-1123 and each of its items is sound |
| `MtvProblems.FlawExactly` | backend/app/core/mtv_validate.py:48-84 | The validator makes a complaint if and only if it holds of that document and item, with the name and MoRef patterns spelled out, the line break they let pass included |
| `Mtv.CollectAll` | backend/app/core/mtv.py:294-349 | The map builders' double loop: first use of each source, or the first unmapped one |
| `Mtv.BuildNetworkMap` | backend/app/core/mtv.py:283-362 | The specified NetworkMap entries or the first network without a target |
| `Mtv.BuildStorageMap` | backend/app/core/mtv.py:365-410 | The specified StorageMap entries, datastores without a class passed over |
| `Mtv.BuildPlan` | backend/app/core/mtv.py:413-475 | The Plan document, or an error when the wave spans several namespaces |
| `Mtv.PreCheck` | backend/app/core/mtv.py:505-582 | Exactly the VMs without a namespace and the sources without a target |
| `Mtv.GenerateWave` | backend/app/core/mtv.py:478-617 | Pre-check, maps, plan and validation in the order of the code, with its errors |
| `MtvPreCheck.PreCheckExactly` | backend/app/core/mtv.py:505-582 | The pre-check passes a wave exactly when each VM has a namespace and targets for everything it names |
| `MtvMaps.CollectIsExact` | backend/app/core/mtv.py:294-349 | A collected map keeps exactly the deciding use of each source, once, in first-seen order |
| `MtvMaps.MapsAreExact` | backend/app/core/mtv.py:283-410 | Every generated wave: one entry per distinct network and datastore, decided by the first VM that uses it, and every NIC and disk covered |
| `MtvOrder.MapsAreInOrder` | backend/app/core/mtv.py:294-410 | The sources of both generated maps are the networks and the datastores of the wave in first-seen order, read VM by VM |
| `MtvOrder.FirstSeenIsExact` | backend/app/core/mtv.py:294-308 | First-seen order: each non-empty name once, none missing, and reading on only adds at the end |
| `MtvMeaning.GeneratedMeans` | backend/app/core/mtv.py:283-475 | Every generated wave: all VMs land in the Plan's target namespace as rules, attributes and defaults have it; a network is ignored, goes to the pod network, or to the named NAD as the first row naming it and its catalog entry say; a datastore gets the StorageClass, modes and offload of the first row naming it |
| `MtvMeaning.SlugExactly` | backend/app/core/mtv.py:209-225 | A slug is the lower-case runs of letters and digits joined with single dashes |
| `MtvMeaning.LandsExactly` | backend/app/core/mtv.py:149-206 | First criteria row that applies, environment up to case and spaces, or derived application namespace; else the VM's own, else the default |
| `EmittedWaves.EmittedMeans` | backend/app/core/plan_pipeline.py:166-262 | Every emitted wave uses the mapping of its first VM of a known vCenter, and says where each VM lands, where each network goes and what each datastore becomes, from stored columns, mapping rows and catalog |
| `EmittedWaves.DownloadAgrees` | backend/app/api/plans.py:941-962 | A downloaded wave of one vCenter is rendered with the same mapping as by the pipeline |
| `MtvProblems.ProblemsExactly` | backend/app/core/mtv.py:505-582 | With a mapping the pre-check lists exactly the VMs that land nowhere and each network and datastore of a VM without a target, with the VM's name |
| `MtvProblems.WaveNamesDiffer` | backend/app/core/mtv.py:279-280 | Two waves have the same document names if and only if plan and wave number agree |
| `MtvProblems.DocumentNamesDiffer` | backend/app/core/mtv.py:353-475 | The three documents of a wave have different names and one namespace |
| `NamespaceNames.ApplicationNamespaceExactly` | backend/app/core/mtv.py:196-225 | The namespace derived from an application is a DNS-1123 name if and only if the prefix is fit to begin one and the whole has at most 253 characters |
| `MtvExact.GenerateExactly` | backend/app/core/mtv.py:495-617 | With a mapping, generation succeeds if and only if every VM is ready, there is one namespace, some datastore is named, and names, MoRefs and Secrets are in order |
| `MtvExact.BundlePassesExactly` | backend/app/core/mtv_validate.py:48-84 | The three documents of a ready wave pass the validator if and only if names fit, VMs are identified and no offload Secret is blank |
| `MtvExact.OrdinaryNumbersFit` | backend/app/core/mtv.py:279-280 | Plan and wave numbers of up to a hundred digits never make a metadata name too long |
| `StageZero.StageZeroExactly` | backend/app/core/mapping_validation.py:18-21 | After a clean Stage 0 a one-vCenter wave is generated if and only if the first rows answer, the raw attributes give a namespace, there is one namespace, and the validator's conditions hold |
| `StageZero.StageZeroSuffices` | backend/app/core/mapping_validation.py:18-21 | With unique source names and trimmed attributes (or a namespace to fall back on) a clean Stage 0 leaves only the one-namespace rule and the validator |
| `StageZero.NamespaceCheckExactly` | backend/app/core/mapping_validation.py:103-144 | Stage 0's namespace check implies the emitter's, for all rules, exactly when an override or default exists or the attributes carry no surrounding spaces |
| `StageZero.VcenterlessWaveFails` | backend/app/core/mapping_validation.py:217-224 | Asked directly with mappings, Stage 0 may pass VMs without a vCenter; a wave of such VMs can never be generated |
| `StageZero.VcenterlessExample` | backend/app/core/mapping_validation.py:217-224 | A VM without a vCenter that Stage 0 passes and that cannot be generated |
| `StageZero.ShadowedRowExample` | backend/app/core/mapping_validation.py:77-88 | A blank row above the row with the target: Stage 0 is clean, generation fails |
| `PlanChunking.ChunkPartition` | backend/app/core/plan_chunking.py:48-76 | The slicing loop computes the specified chunks, and refuses a limit that is not positive |
| `PlanChunking.ChunksAreExact` | backend/app/core/plan_chunking.py:48-76 | Every VM is in one batch, none is empty or over the limit, sizes differ by at most one, one batch fewer would not do |
| `PlanChunking.OrderMattersExactly` | backend/app/core/plan_chunking.py:59-60 | The documented independence of input order holds exactly when more than one batch is needed, or the orders are the same |
| `PlanChunkOrder.BatchesAreInOrder` | backend/app/core/plan_chunking.py:39-45 | Over the limit, batches are cut from the list in dictionary order of application, family, name and id |
| `PlanRequests.PartitionVms` | backend/app/api/plans.py:87-104 | VMs grouped by vCenter, cluster and namespace in first-seen order, and the unresolvable rest |
| `PlanRequests.CutBatches` | backend/app/api/plans.py:122-134 | Partition order, then batch order |
| `PlanRequests.ScreenPart` | backend/app/api/plans.py:169-189 | Exactly the VMs of a partition that have a gap of their own are excluded |
| `PlanRequests.ExcludeUncovered` | backend/app/api/plans.py:159-190 | The same for all partitions; empty partitions disappear |
| `PlanRequests.GapsById` | backend/app/api/plans.py:174-187 | With distinct ids, gaps collected by id are exactly a VM's own |
| `PlanRequests.PlanStore.TransitionToPlanned` | backend/app/core/vm_lifecycle.py:120-160 | Either every VM was available and becomes planned, or nothing changes |
| `PlanRequests.PlanStore.WritePlans` | backend/app/api/plans.py:381-390 | One transaction: all batches are admitted or no lifecycle state and no plan row changes |
| `PlanRequests.PlanStore.CreatePlan` | backend/app/api/plans.py:211-473 | The request as a whole: its errors, in order, the rows it writes and the lifecycle states it leaves |
| `PlanRequests.PreviewPlans` | backend/app/api/plans.py:477-607 | The preview of a request, computed in its own loops |
| `PlanRequests.CreationExactly` | backend/app/api/plans.py:244-390 | A well-formed request succeeds exactly when its VMs allow it one by one; then exactly the plannable VMs become planned |
| `PlanEligibility.CheckedExactly` | backend/app/api/plans.py:244-261 | A request is refused for no VMs, for more different ones than the ceiling, or for unknown ones, which are listed; otherwise exactly the VMs asked for are read |
| `PlanEligibility.EligibleExactly` | backend/app/api/plans.py:87-156 | A VM can be planned under a vCenter, cluster and namespace if and only if no critical finding blocks it (nor, in a warm plan, one against warm), unless overridden, it resolves there, and the first usable mapping covers it |
| `PlanEligibility.PlannedExactly` | backend/app/api/plans.py:244-390 | In a created series a VM is in a plan of a vCenter, cluster and namespace if and only if it was asked for and is eligible there |
| `PlanEligibility.LifecycleExactly` | backend/app/core/vm_lifecycle.py:120-160 | Each planned VM was available and is planned now; no other VM changes |
| `PlanEligibility.ExclusionsExactly` | backend/app/api/plans.py:159-190 | Each exclusion names the blocking findings by id, the lack of a target, or the gaps, those of the inventory apart from those of the mapping |
| `PlanEligibility.RowsExactly` | backend/app/api/plans.py:391-425 | One plan row per batch, in order, numbered from one, with the size of the series |
| `Grouping.GroupOrder` | backend/app/api/plans.py:87-104 | Partitions come in first-seen order |
| `PlanTheorems.SkipConserves` | backend/app/api/plans.py:263-370 | With skip_ineligible every selected VM is in exactly one batch or excluded exactly once |
| `PlanTheorems.BatchesKeepVerdicts` | backend/app/api/plans.py:309-370 | A batch is not empty, not over the limit, and all its VMs have the batch's vCenter, cluster and namespace |
| `PlanTheorems.BatchesAreCovered` | backend/app/api/plans.py:387-390 | With skip_ineligible the Stage 0 error of a batch is unreachable |
| `PlanTheorems.ExclusionsKeepVerdicts` | backend/app/api/plans.py:263-318 | Each exclusion states the VM's own reason |
| `PlanTheorems.SkipSucceedsExactly` | backend/app/api/plans.py:328-366 | There is a series exactly when some VM can be planned |
| `PlanTheorems.StrictSucceedsExactly` | backend/app/api/plans.py:277-390 | Without skip_ineligible a series gets through Stage 0 exactly when every VM can be planned |
| `PlanTheorems.StrictAgreesWithSkip` | backend/app/api/plans.py:263-370 | A selection that can be planned whole gets the same series either way |
| `PlanTheorems.AdmitExactly` | backend/app/api/plans.py:375-390 | A series is admitted exactly when every batch is covered and all its VMs were available; it never trips over its own batches |
| `PlanTheorems.VcenterlessIsNeverPlanned` | backend/app/api/plans.py:147-156 | Plan creation and preview look up mappings by the VM's vCenter, so they never plan a VM without one |
| `PlanPreview.PreviewAgrees` | backend/app/api/plans.py:477-486 | Of a selection read in one order: preview and creation agree on the batches under every key, and on batches and exclusions as multisets |
| `PlanOrder.SeriesInAnyOrder` | backend/app/api/plans.py:244-370 | A request over the same VMs read in another order succeeds too, leaves out the same VMs for the same reasons, and plans the same VMs, in as many plans, under every key |
| `PlanOrder.PreviewAgreesInAnyOrder` | backend/app/api/plans.py:477-501 | Preview and creation that read the selection in different orders: the same exclusions, the same VMs under every key, and the same plans under a key if and only if its VMs do not fit in one plan or come in the same order |
| `PlanPreview.EmptyPreviewExactly` | backend/app/api/plans.py:576-582 | The preview is empty exactly when creation is refused with nothing left |
| `SuggestionParsing.Parse` | backend/app/core/mapping_suggester.py:330-377 | The parser's loop over an arbitrary JSON value: the answers or its first error |
| `SuggestionParsing.AcceptedExactly` | backend/app/core/mapping_suggester.py:330-377 | A reply is accepted exactly when it lists suggestions, none is broken or doubled, and every question is answered; the result holds those answers and no others |
| `SuggestionParsing.AcceptedTargets` | backend/app/core/mapping_suggester.py:356-368 | An accepted target is on the shortlist, whatever the reply |
| `SuggestionMeaning.TargetExactly` | backend/app/core/mapping_suggester.py:356-368 | `Cn` stands for the n-th name of the shortlist and a plain listed name for itself; null, empty, "null" and "none" for nothing |
| `SuggestionMeaning.AnswerExactly` | backend/app/core/mapping_suggester.py:369-374 | A named target is as sure as the reply says; anything but high and medium counts as low, and no target has no confidence |
| `SuggestionMeaning.ReadingExactly` | backend/app/core/mapping_suggester.py:343-355 | An entry counts for a source exactly when it names it, by text or as an echoed entry, and it was asked about |
| `SuggestionMeaning.FieldExactly` | backend/app/core/mapping_suggester.py:318-327 | A repeated key has its last value, but repeated lists are read as one |
| `Shortlists.Shortlist` | backend/app/core/mapping_suggester.py:257-271 | The round-robin loop that stops at ten computes the full round-robin |
| `Shortlists.ShortlistIsFair` | backend/app/core/mapping_suggester.py:257-271 | At most ten candidates, distinct names, all from the catalog, and every source of a batch finds its best candidate |
| `Shortlists.SmallCatalogIsListed` | backend/app/core/mapping_suggester.py:257-271 | A catalog of at most ten names is listed completely |
| `Shortlists.RankingExactly` | backend/app/core/mapping_suggester.py:257-259 | Ranked from the highest score to the lowest; targets of one score stay in the catalog's order |
| `Suggester.Closest` | backend/app/core/mapping_suggester.py:188-195 | The closest name; no other scores higher |
| `Suggester.AskBackend` | backend/app/core/mapping_suggester.py:402-464 | Up to three calls to an arbitrary backend, stopping at an accepted answer or a failure |
| `Suggester.LlmBatch` | backend/app/core/mapping_suggester.py:380-465 | One row per source of the batch, from the accepted answers or the fallback; without a backend, the fallback and no call |
| `Suggestions.SuggestionsAreTotalAndSound` | backend/app/core/mapping_suggester.py:20-25 | For any LLM: one row per source, in its own name, whose target is in the catalog or absent |
| `Suggestions.Suggest` | backend/app/core/mapping_suggester.py:468-502 | The whole run as it loops, with or without a backend: rows in the order of the sources |
| `Suggestions.RulesAreSound` | backend/app/core/mapping_suggester.py:181-227 | The rules only ever name targets of the catalog |
| `SuggestionRows.NetworkRulesExactly` | backend/app/core/mapping_suggester.py:181-213 | The VLAN decides first, then the one equal name, then the one with the same words, else no rule |
| `SuggestionRows.VlanRuleExactly` | backend/app/core/mapping_suggester.py:182-195 | Alone on the source's VLAN means high confidence, several mean the closest name with medium |
| `SuggestionRows.StorageRulesExactly` | backend/app/core/mapping_suggester.py:216-227 | The only StorageClass, or else the one equal name |
| `SuggestionRows.ScoresExactly` | backend/app/core/mapping_suggester.py:157-171 | A shared VLAN adds one to a name score, being the default StorageClass five hundredths |
| `SuggestionRows.AskExactly` | backend/app/core/mapping_suggester.py:402-464 | Of three replies at most the first accepted or failed one decides the answers, their kind and the number of calls; three rejected ones mean the fallback |
| `SuggestionRows.SuggestedExactly` | backend/app/core/mapping_suggester.py:468-502 | The row of a source is the rule's if a rule decides it, and otherwise what its batch of at most ten made of it |
| `Suggestions.CertainExactly` | backend/app/core/mapping_suggester.py:182-195 | A suggestion is high confidence exactly when one catalog entry alone is on the source's VLAN, and then it names that entry |
| `Suggestions.RulesAreFinal` | backend/app/core/mapping_suggester.py:482-501 | With distinct source names no LLM changes a row that a rule decided |
| `Suggestions.CallsAreBounded` | backend/app/core/mapping_suggester.py:488-501 | At most three calls per batch, and as few batches as the limit allows |
| `Suggestions.FallbackExactly` | backend/app/core/mapping_suggester.py:230-251 | The fallback names a target exactly when one scores above the threshold or a default may be used; a target chosen by score is a best one |
| `CatalogImport.AddNetwork` | backend/app/core/catalog_import.py:309-320 | The first network of a name wins; names stay distinct |
| `CatalogImport.NetworksMerge` | backend/app/api/target_entities.py:734-756 | Each field is the pasted value where there is one and the old value elsewhere; no entry is deleted and one not pasted stays as it is |
| `CatalogMerge.NetworksByField` | backend/app/api/target_entities.py:734-756 | An existing network is merged field by field, a new one stored as pasted, and any other stays |
| `CatalogMerge.StorageByField` | backend/app/api/target_entities.py:757-812 | An existing StorageClass is merged field by field, a new one stored as pasted, any other stays; the default is the last entry that asks to be, or else whatever it was |
| `CatalogMerge.NamespacesByName` | backend/app/api/target_entities.py:783-802 | A pasted namespace has the pasted network, any other stays |
| `CatalogImport.NetworkSettlesExactly` | backend/app/core/catalog_import.py:437-458 | After an import a network needs no further change exactly when it is not an existing entry pasted with an empty namespace |
| `CatalogImport.OneDefaultAfterwards` | backend/app/api/target_entities.py:804-812 | At most one StorageClass is the default after any import, if that was so before |
| `CatalogImport.StorageSettlesExactly` | backend/app/core/catalog_import.py:459-467 | Re-planning finds the StorageClasses settled exactly when the paste has at most one default |
| `CatalogImport.TwoDefaultsNeverSettle` | backend/app/api/target_entities.py:783-784 | With two pasted defaults no number of imports comes to rest |
| `CatalogImport.NamespaceSettles` | backend/app/core/catalog_import.py:468-476 | Namespaces always settle |
| `CatalogImport.FixpointExactly` | backend/app/core/catalog_import.py:444-484 | Re-planning the same paste finds nothing to do if and only if it has at most one default StorageClass and gives no existing network an empty namespace |
| `CatalogImport.NoConflict` | backend/app/api/target_entities.py:758-773 | Distinct StorageClass names never break the unique constraint |
| `CatalogImport.TargetCatalog.EnforceSingleStorageDefault` | backend/app/api/target_entities.py:84-93 | Every other StorageClass stops being the default |
| `CatalogImport.TargetCatalog.Import` | backend/app/api/target_entities.py:733-821 | One transaction over the three catalogs: all of it, or nothing when a name is created twice |

## Left out

- YAML text, the vendored CRD schemas and provider references: documents are values, and only the semantic checks are
  modelled.
- The spreadsheet parser: it yields VMs and row issues, and every VM carries a name, a row number and a host name.
- Environment detection and migratability assessment, which derive columns from other columns of a VM; audit rows;
  timestamps.
- Database ids: a VM is its position in its vCenter's table, which is kept per vCenter, since no import moves a VM.
  Within one import, an index that is cleared is loaded again in the stored order; between imports, the lemmas say
  which order they assume.
- Failures other than integrity violations in the middle of an import: they roll back and finish the job like a cancel.
- ImportJobs.ImportService.UploadRvtools: does not model the stored file's size and type, and the check for another
  import and the new job row are one step here; `ImportRaces` takes them apart.
- ImportJobs.ImportService.Start: does not model the lookup of the vCenters a routing names, and its check and its
  write are one step here; `ImportRaces` takes them apart.
- ImportRaces.RacingHandlers.CheckUpload: takes the job's id, which must be new, at the check, where the source draws
  a UUID after it.
- Database transactions that overlap within the write of a handler.
- Interruptions of an import in which rows were replayed or rejected: `ImportResume` is about the rows that an
  undisturbed run commits.
- The order in which semaphores wake their waiters.
- Crash of the bulk capture orchestrator itself; every capture either completes or fails.
- Concurrency.AssignConcurrencyGroups: says nothing about waves with repeated numbers, since the planner numbers them
  apart.
- Plan names, slugs, series ids and the generation task behind each plan row; vCenter and cluster names.
- Target resolution and selection queries: they give each VM a target, a finding list and its mapping rows; VM ids are
  distinct as a primary key is.
- The distinction between a VM that vanished between selection and transition and one that is not available.
- PlanRequests.PreviewPlans: does not model the columns other than batches and exclusions (estimated waves, network
  and storage target lists, unresolved reasons).
- Prompts, the JSON text of a reply, its code fences, rationales and inference records: a reply is an arbitrary JSON
  value or none.
- Token, word and VLAN patterns in names: arbitrary functions, so what is proved about the rules holds for any of them.
- Parsing of pasted cluster YAML, except that the first network of a name is kept; bridge mappings; preview warnings
  and counts.
- The default flag of networks, which catalog import never enforces.
- Unicode: letters and digits are ASCII.
