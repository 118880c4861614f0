# Verification model of elbi's stateful core

This project models the parts of elbi whose correctness is a statement about whole runs or about
preserved meaning, and proves those statements with Dafny. `dafny verify dfyconfig.toml` checks it.

| part | files |
|---|---|
| three-way sync of a repo with an app | `Ordering`, `ConfigSync`, `SyncEffect`, `SyncRuns`, `SyncForms`, `Checkout` |
| background jobs | `JobStore`, `JobService`, `JobRunner`, `JobLink` |
| the two cache stores and the collector's race with `put` | `CacheStore`, `CacheGc` |
| the backward slice of a module | `Slicer`, `SliceForms`, `SliceMeaning`, `SliceLimits` |
| tool calls written as text | `ToolCalls`, `ToolPrompt`, `ToolRoundTrip`, `ToolLimits`, `ToolValues`, `ToolTranscript`, `ToolMatches` |
| the hash-chained audit log | `AuditLog`, `AuditRuns`, `AuditNumbers` |
| JSON inside a script element | `SnapshotJson`, `SnapshotSafe` |
| stale-while-revalidate serving | `Serving`, `ServingRuns`, `ServingOrder`, `ServingLink` |
| provisioning of package volumes | `Provisioning`, `ProvisionRuns`, `ProvisionMarks`, `ProvisionLink` |
| the verifying agent loop | `AgentLoop`, `AgentRuns`, `AgentAnswers` |

Code that updates fields is a class whose methods are proved against specification functions; code
that interleaves is a state machine whose steps are the source's atomic pieces (one store call, one
critical section, one stretch between awaits, one docker command), with an inductive invariant and
statements about every reachable state. Hashes, signatures, pickling, YAML and JSON libraries, the
oracle and the model are parameters; what is expected of them is written out as a predicate
(`Faithful` in each module) and required where it is used. Where a component is both a class and a state
machine, the `Link` module says that a method undisturbed is a run of the machine's steps. What a main
operation answers is also stated on its inputs alone, without the functions it is specified by (`SyncForms`,
`SliceForms`, `ToolTranscript`, `ToolMatches`, `AuditNumbers`, `AgentAnswers`).

## Where the code does less than its documentation

Each of these is a lemma with a concrete run or input, beside one that says exactly when the promise
does hold.

- Sync: recording after a sync absorbs the drift the sync skipped, so the next one overwrites that
  app edit (`SkippedDriftIsThenOverwritten`, `SecondSyncIsQuietExactly`, `DriftBesideAnEdit`).
- Jobs: the unlocked `running` write can bring a cancelled job back, which then completes twice and
  lives beside a second job of its key; a cancel that looks a job up before its handle is published
  settles it without the worker hearing of it (`CompletionsCounted`, `TwoLiveJobs`, `TwoCompletions`,
  `UnheardCancel`).
- Cache: the grace does not cover a reused orphan blob, nor a deletion that hits a blob rewritten since
  its age was read, and it must exceed lag plus mark span strictly (`GraceProtectsExactly`,
  `ReusedOrphan`, `TornDeletion`, `MissedRecord`).
- Slices: a helper or variable that stands below the function using it is dropped, since the walk
  passes it before anything asks for it; of two submodules of one package the earlier import is
  dropped; decorators of helpers are not copied, and names bound by unpacking, by an assignment
  expression, by augmented assignment or inside a compound statement are missed, which can also stop a
  statement the slice carries for no need; the names returned include an assignment's own target
  (`SliceKeepsMeaningExactly`, `HelperBelowIsLost`, `VariableBelowIsLost`, `EarlierSubmoduleIsLost`,
  `DecoratorIsLost`, `UnpackingIsLost`, `WalrusIsLost`, `CompoundIsLost`, `UnneededReaderIsLost`,
  `AssignmentAsksForItsTarget`).
- Tool calls: a parameter or function name ending in `</function` spells a close tag
  (`RoundTripExactly`, `StopWordExactly`, `ParameterNameEndsTheCall`, `CallNameStopsEarly`); a value is
  lost when its text holds a close tag or is not trimmed, or when it is a string that is itself JSON
  (`ValuesExactly`, `LostValues`).
- Audit: a record appended to a log whose last line is unfinished is written onto that line
  (`RecordKeepsChainExactly`, `UnfinishedLineBreaks`).
- Serving: with `expire` set and no ttl, an unchanged answer is served at any age
  (`NeverExpiredExactly`, `OldHit`); a slow computation replaces a newer entry by an older one
  (`GoesBackExactly`, `OlderReplaces`); a cancelled call records no event (`OneEventPerCall`,
  `CancelledCallIsSilent`).
- Provisioning: removals are not checked, so an install abandoned at a timeout, or a volume that
  cannot be removed, ends up under another install and then under the sentinel
  (`ProvisioningIsSafeExactly`, `UnkindIsUnsafe`, `OneAtATimeExactly`,
  `TwoInstalls`).
- Agent loop: a claim certified in the closing turn without an `answer` ends unverified
  (`SilentExactly`, `LateCertificateIsLost`, `LoneCertificate`).

## Model

| member | source | states |
|---|---|---|
| `Ordering.Ordered` | packages/elbi-cli/src/elbi_cli/config_sync.py:222-248 | the loop over `pending` terminates and returns what peeling gives: round after round of objects that refer to nothing still pending, then whatever is left |
| `Ordering.OrderedPermutes` | packages/elbi-cli/src/elbi_cli/config_sync.py:222-248 | the order is a permutation of the names |
| `Ordering.FreePrefixRefersBackwards` | packages/elbi-cli/src/elbi_cli/config_sync.py:222-248 | every object served by the rounds refers only to itself, to objects outside the set, or to objects placed before it |
| `Ordering.StuckTailKeepsItsOrder` | packages/elbi-cli/src/elbi_cli/config_sync.py:236-248 | the objects left over stand last, in their original order |
| `Ordering.StuckIsGreatestKnot` | packages/elbi-cli/src/elbi_cli/config_sync.py:236-248 | the left-over objects are the greatest set each of whose members refers to another member |
| `Ordering.StuckExactlyWhenCyclic` | packages/elbi-cli/src/elbi_cli/config_sync.py:222-248 | something is left over exactly when the references, self-references aside, have a cycle |
| `Ordering.AcyclicExactlyWhenServed` | packages/elbi-cli/src/elbi_cli/config_sync.py:222-248 | the whole order has every reference before its referrer exactly when there is no cycle |
| `ConfigSync.LegacyIsConservative` | packages/elbi-cli/src/elbi_cli/config_sync.py:1336-1364 | against a v1 digest an object gets the answer the v2 digest of the same original gives, or conflict, never an update in place of drift or conflict; and exactly when the two answers agree |
| `SyncEffect.SyncChangesExactly` | packages/elbi-cli/src/elbi_cli/config_sync.py:1444-1472 | which changes a sync makes: exactly the pushes of objects neither unchanged nor drifted, and the deletes of pruned surfaces |
| `SyncEffect.SyncedApp` | packages/elbi-cli/src/elbi_cli/config_sync.py:1404-1473 | what the app holds after a sync, object by object: pushed, pruned, or as it was |
| `SyncEffect.NothingToApply` | packages/elbi-cli/src/elbi_cli/config_sync.py:1444-1473 | a sync reports nothing exactly when there is nothing to push or prune |
| `SyncRuns.SecondSyncIsQuietExactly` | packages/elbi-cli/src/elbi_cli/config_sync.py:1404-1473 | an immediate second sync never refuses, and applies nothing exactly when the first applied nothing or there was no drift |
| `SyncRuns.SkippedDriftIsThenOverwritten` | packages/elbi-cli/src/elbi_cli/config_sync.py:1510-1526 | when the first sync applied anything, recording absorbs the drift it skipped and the next sync pushes over that app edit |
| `SyncRuns.DriftBesideAnEdit` | packages/elbi-cli/src/elbi_cli/config_sync.py:1404-1526 | such a two-sync run exists for any two objects of a surface that can differ |
| `SyncRuns.PlanAfterPull` | packages/elbi-cli/src/elbi_cli/config_sync.py:1375-1401 | after a pull every app object plans as unchanged, any other file as create, and nothing as delete |
| `SyncRuns.PushesFromFind` | packages/elbi-cli/src/elbi_cli/config_sync.py:1452-1462 | from any point of a surface's push order on, each pushed body finds what it refers to |
| `SyncRuns.SyncFindsReferences` | packages/elbi-cli/src/elbi_cli/config_sync.py:1452-1462 | in the acyclic case, at every push of a sync each in-repo reference of the pushed body is already in the app |
| `SyncRuns.RunTracks` | packages/elbi-cli/src/elbi_cli/config_sync.py:1510-1526 | over every run of app edits, repo edits, pulls and syncs each baseline entry is the digest of what the app held when it was recorded |
| `SyncRuns.OnlyRecordedContentIsReplaced` | packages/elbi-cli/src/elbi_cli/config_sync.py:1336-1364 | in every such run an unforced sync replaces an app object that has a baseline only if it still holds the recorded content |
| `SyncRuns.UpdateMeansAppStoodStill` | packages/elbi-cli/src/elbi_cli/config_sync.py:1336-1364 | an update means the app's form is the one its mark digests, current or legacy |
| `SyncRuns.MarksSurviveSubsetRuns` | packages/elbi-cli/src/elbi_cli/config_sync.py:106-147 | a surface left out keeps its marks, legacy tag included, through any number of subset runs |
| `SyncForms.ActionExactly` | packages/elbi-cli/src/elbi_cli/config_sync.py:1336-1364 | whatever a mark was taken from, an object here and there is unchanged exactly when the two forms agree, drifted when only the app's has moved since the mark, updated when only the repo's has or there is no mark, and in conflict when both have |
| `SyncForms.RefusedExactly` | packages/elbi-cli/src/elbi_cli/config_sync.py:1404-1449 | a sync is refused, leaving everything as it was, exactly when a chosen file does not parse or, without force, some chosen object has moved on both sides |
| `SyncForms.SyncExactly` | packages/elbi-cli/src/elbi_cli/config_sync.py:1444-1473 | a sync that goes through reports exactly the pushes and deletions due by those forms, leaves each pushed body in the app as the app stores it, and touches no file |
| `SyncForms.PushesComeFirst` | packages/elbi-cli/src/elbi_cli/config_sync.py:1452-1472 | on a surface every push comes before every deletion |
| `SyncForms.SyncRecords` | packages/elbi-cli/src/elbi_cli/config_sync.py:1468-1473 | a sync that changed something records the forms of what the app then holds; one that changed nothing leaves the record |
| `SyncForms.RecordIs` | packages/elbi-cli/src/elbi_cli/config_sync.py:1510-1526 | the record holds the form of every chosen app object, and of other surfaces nothing, or after a subset run what it held, tagged if it was of an older version |
| `SyncForms.PullExactly` | packages/elbi-cli/src/elbi_cli/config_sync.py:1476-1507 | a pull writes every chosen app object, drops a chosen file exactly when the app lacks the object and the record knew it, keeps every other file, makes the folders, and records the app |
| `SyncForms.PullFailsExactly` | packages/elbi-cli/src/elbi_cli/config_sync.py:1476-1507 | a pull fails exactly when a chosen file does not parse, and then leaves app and record as they were |
| `Checkouts.VerdictsExactly` | packages/elbi-cli/src/elbi_cli/config_sync.py:1315-1372 | the changes classified are those of the objects' three-way comparison |
| `Checkouts.Classify` | packages/elbi-cli/src/elbi_cli/config_sync.py:1315-1372 | the loop over a surface's files appends exactly the verdicts, then the deletes when pruning |
| `Checkouts.ConflictsClassified` | packages/elbi-cli/src/elbi_cli/config_sync.py:1436-1449 | a conflict shows up among the classified changes exactly when some object is in conflict |
| `Checkouts.ConflictRefusesEverything` | packages/elbi-cli/src/elbi_cli/config_sync.py:1436-1449 | an unforced sync whose classification of any one chosen surface holds a conflict is refused and leaves the world as it was; with none on any surface it goes through |
| `Checkouts.Checkout.Record` | packages/elbi-cli/src/elbi_cli/config_sync.py:1510-1526 | the baseline becomes the digests of what the app holds, other surfaces kept on a subset run |
| `Checkouts.Checkout.FindConflict` | packages/elbi-cli/src/elbi_cli/config_sync.py:1436-1449 | finds a conflict exactly when one exists, and changes nothing |
| `Checkouts.Checkout.DependencyOrder` | packages/elbi-cli/src/elbi_cli/config_sync.py:222-248 | the push order is that of the peeling sort on the surface's references |
| `Checkouts.Checkout.Sync` | packages/elbi-cli/src/elbi_cli/config_sync.py:1404-1473 | the method over app, files and state leaves the world, and reports the changes, of the sync verb; a refusal leaves all three as they were |
| `Checkouts.Checkout.Pull` | packages/elbi-cli/src/elbi_cli/config_sync.py:1476-1507 | the method leaves the world, and reports the outcome, of the pull verb |
| `JobStore.LatestIsLast` | packages/elbi-core/src/elbi_core/jobs.py:130-136 | the job found for a key is the last one created for it |
| `JobStore.InMemoryJobStore.Create` | packages/elbi-core/src/elbi_core/jobs.py:119-123 | the job is filed and last in order |
| `JobStore.InMemoryJobStore.Get` | packages/elbi-core/src/elbi_core/jobs.py:125-128 | the job of that id or none |
| `JobStore.InMemoryJobStore.FindByKey` | packages/elbi-core/src/elbi_core/jobs.py:130-136 | scanning from the newest finds the most recent job of the key, or none |
| `JobStore.InMemoryJobStore.Update` | packages/elbi-core/src/elbi_core/jobs.py:138-143 | only that job changes |
| `JobStore.InMemoryJobStore.ReconcileOrphans` | packages/elbi-core/src/elbi_core/jobs.py:193-213 | every queued or running job becomes failed and no other changes; the completions are the failed jobs, each once, the later submitted first |
| `JobStore.OrphansExactly` | packages/elbi-core/src/elbi_core/jobs.py:193-213 | the jobs announced are exactly those caught queued or running, the later submitted first |
| `JobService.Runner.Submit` | packages/elbi-core/src/elbi_core/jobs.py:215-238 | a key whose latest job is queued, running or succeeded gets that job back and nothing changes; otherwise a fresh one is queued with its handle |
| `JobService.Runner.Finish` | packages/elbi-core/src/elbi_core/jobs.py:295-309 | the first terminal state wins, drops the handle and is announced once; a later one changes nothing |
| `JobService.Runner.Cancel` | packages/elbi-core/src/elbi_core/jobs.py:244-252 | a queued job is cancelled and announced at once, a running one is only told, a finished one is left alone |
| `JobService.Runner.Work` | packages/elbi-core/src/elbi_core/jobs.py:269-293 | undisturbed, a worker leaves its job cancelled, failed or succeeded as the event and the work say, whatever the job was; announcing each job once is kept exactly unless a settled job's worker starts with its event unset |
| `JobRunner.StepKeepsInv` | packages/elbi-core/src/elbi_core/jobs.py:215-309 | every atomic step of submitters, cancellers and workers keeps the invariant on cells, cancels, the lock and the order |
| `JobRunner.StepKeepsAccount` | packages/elbi-core/src/elbi_core/jobs.py:295-309 | every step keeps the account: terminal entries are completions delivered plus those owed |
| `JobRunner.StepKeepsDeduped` | packages/elbi-core/src/elbi_core/jobs.py:215-238 | every step keeps that earlier jobs of a key have failed, been cancelled or been overwritten before a later one was accepted |
| `JobRunner.CompletionsCounted` | packages/elbi-core/src/elbi_core/jobs.py:244-309 | once a job's worker and cancels have returned, its completions equal its entries into a terminal state, one or two; two exactly when a cancel settled it between the worker's check and its `running` write, or settled it unheard because its handle was not yet published |
| `JobRunner.LiveJobIsReturned` | packages/elbi-core/src/elbi_core/jobs.py:215-238 | a live job never overwritten is the latest of its key, the only one, and what every further submit returns without starting anything |
| `JobRunner.RetriedKeyStartsFresh` | packages/elbi-core/src/elbi_core/jobs.py:215-238 | a submit starts a fresh job, from then on the latest of its key, exactly when the latest so far is missing, failed or cancelled; otherwise it changes nothing |
| `JobRunner.GapOpens` | packages/elbi-core/src/elbi_core/jobs.py:269-273 | a reachable state with the worker past its check and a cancel about to settle the job |
| `JobRunner.TwoLiveJobs` | packages/elbi-core/src/elbi_core/jobs.py:269-273 | a run that leaves two live jobs of one key, the first brought back from cancelled |
| `JobRunner.TwoCompletions` | packages/elbi-core/src/elbi_core/jobs.py:269-309 | a run in which one job completes twice |
| `JobRunner.UnheardCancel` | packages/elbi-core/src/elbi_core/jobs.py:230-252 | a run in which a job cancelled before its handle is published runs all the same and completes twice, with nothing between its worker's check and write |
| `JobLink.SubmitIsItsSteps` | packages/elbi-core/src/elbi_core/jobs.py:215-238 | in every reachable state the machine has a run in which one submit goes through alone and ends with the jobs, order and handle that the method leaves |
| `JobLink.CancelIsItsSteps` | packages/elbi-core/src/elbi_core/jobs.py:244-252 | and one in which a cancel goes through alone and ends with the state, event and completions the method leaves, every other job as it was |
| `JobLink.WorkIsItsSteps` | packages/elbi-core/src/elbi_core/jobs.py:269-309 | and one in which a worker goes from its check to its end, told by a cancel on the way or not, and leaves the state and completions that the method leaves |
| `CacheStore.MemoryCacheStore.Get` | packages/elbi-core/src/elbi_core/cache.py:154-156 | the entry of that version or none |
| `CacheStore.MemoryCacheStore.Put` | packages/elbi-core/src/elbi_core/cache.py:158-160 | exactly that entry is set |
| `CacheStore.MemoryCacheStore.InvalidateTag` | packages/elbi-core/src/elbi_core/cache.py:162-167 | exactly the tagged entries go, and they are counted |
| `CacheStore.Unlink` | packages/elbi-core/src/elbi_core/cache.py:276-341 | walking a directory file by file deletes exactly the files that are to go, and counts them |
| `CacheStore.PutAgrees` | packages/elbi-core/src/elbi_core/cache.py:236-260 | storing a record over a new or an already filed blob keeps records and blobs in agreement, and is setting one entry of the map they stand for |
| `CacheStore.SweepKeepsEntries` | packages/elbi-core/src/elbi_core/cache.py:318-341 | deleting blobs no record names changes no entry |
| `CacheStore.LocalCacheStore.Get` | packages/elbi-core/src/elbi_core/cache.py:206-234 | on an agreeing store the answer is the map's; on any, a missing blob, a wrong signature or bytes that do not load are refused, a signature before unpickling |
| `CacheStore.LocalCacheStore.Put` | packages/elbi-core/src/elbi_core/cache.py:236-260 | sets one entry and writes its blob unless it is there, or refuses an unpicklable result and changes nothing |
| `CacheStore.LocalCacheStore.InvalidateTag` | packages/elbi-core/src/elbi_core/cache.py:262-282 | exactly the tagged entries go and are counted, and the unreferenced blobs past the grace go with them |
| `CacheStore.LocalCacheStore.Gc` | packages/elbi-core/src/elbi_core/cache.py:284-292 | entries are untouched, and the blobs reclaimed are counted |
| `CacheStore.LocalCacheStore.EvictOlderThan` | packages/elbi-core/src/elbi_core/cache.py:294-316 | keeps exactly the entries no older than the limit, counts the rest, and sweeps |
| `CacheStore.LocalCacheStore.Sweep` | packages/elbi-core/src/elbi_core/cache.py:318-341 | deletes exactly the unreferenced blobs that have outlived the grace |
| `CacheStore.LocalCacheStore.Clear` | packages/elbi-core/src/elbi_core/cache.py:343-347 | nothing is left |
| `CacheStore.RunBoth` | packages/elbi-core/src/elbi_core/cache.py:148-347 | over any history of put, get, invalidate, gc and clear the two stores give the same answers and counts and end with the same entries |
| `CacheGc.UnlinkSpares` | packages/elbi-core/src/elbi_core/cache.py:318-341 | what a deletion takes is too old to be anything a prompt put relies on |
| `CacheGc.StepKeepsInv` | packages/elbi-core/src/elbi_core/cache.py:236-341 | every step of puts and collectors keeps the blob of each prompt record |
| `CacheGc.CarefulIsSafe` | packages/elbi-core/src/elbi_core/cache.py:236-341 | with lag plus mark span below the grace no reachable state has a prompt record without its blob |
| `CacheGc.GraceProtectsExactly` | packages/elbi-core/src/elbi_core/cache.py:284-292 | the grace protects every record landing within `lag` of its blob's mtime exactly when lag plus the longest mark is strictly below it and no deletion hits a blob rewritten since it was aged |
| `CacheGc.MissedRecord` | packages/elbi-core/src/elbi_core/cache.py:318-341 | the run that loses a blob as soon as lag plus span reaches the grace |
| `CacheGc.ReusedOrphan` | packages/elbi-core/src/elbi_core/cache.py:247-260 | the run in which an instant put that reuses an old orphan blob, whose mtime is not refreshed, loses it |
| `CacheGc.TornDeletion` | packages/elbi-core/src/elbi_core/cache.py:333-341 | the run in which a deletion hits a blob written since its age was read |
| `Slicer.Preamble` | packages/elbi-core/src/elbi_core/_source.py:98-162 | the backward loop over `wanted`, `keep` and `futures` returns the slice and the wanted names of the recursive definition |
| `SliceMeaning.SliceKeepsMeaning` | packages/elbi-core/src/elbi_core/_source.py:98-162 | if nothing needed is lost, then whenever the whole module runs through, so does the slice, and every wanted name, with every name it may look up when it is used, stands for what it does in the module |
| `SliceMeaning.SliceKeepsMeaningExactly` | packages/elbi-core/src/elbi_core/_source.py:98-162 | it does so under every meaning of the statements, what they fail on included, and from every environment exactly when no statement that binds a live name is skipped or stripped of decorators, and no live feature import is skipped; a name is live by what the wanted ones are made from or may look up later, and by what any statement of the slice reads as it runs |
| `SliceForms.BoundNamesExactly` | packages/elbi-core/src/elbi_core/_source.py:43-54 | the names a statement is taken to bind: an import's `as` name or else the root of the module's, what is defined, and each target that is a bare name |
| `SliceForms.DerivationExactly` | packages/elbi-core/src/elbi_core/_source.py:57-67 | a derivation is a function under a decorator of that name, bare, called or an attribute |
| `SliceForms.FreeNamesExactly` | packages/elbi-core/src/elbi_core/_source.py:70-78 | a fragment's names are exactly those some name node or attribute inside it says |
| `SliceForms.BareExactly` | packages/elbi-core/src/elbi_core/_source.py:108-108 | a definition is copied without its decorators, anything else as it stands |
| `SliceForms.SliceInOrder` | packages/elbi-core/src/elbi_core/_source.py:98-162 | the slice is the feature imports, the last first, and then copies of other statements in the module's order, never of a derivation |
| `SliceLimits.FeaturesAreNeverLost` | packages/elbi-core/src/elbi_core/_source.py:109-113 | in a module whose feature imports come first they are never what is lost |
| `Slicer.WantedIsUnaccounted` | packages/elbi-core/src/elbi_core/_source.py:81-88 | the names returned are exactly those the slice mentions, or was asked for, before any of its statements binds them |
| `SliceLimits.ReturnedCoversNeeded` | packages/elbi-core/src/elbi_core/_source.py:81-88 | when nothing is lost, agreeing on the returned names and on what packages hold is enough for the slice to run through when the module does, with the module's meaning |
| `SliceLimits.AssignmentAsksForItsTarget` | packages/elbi-core/src/elbi_core/_source.py:70-78 | the returned names can be more than those needed: an assignment mentions its own target |
| `SliceLimits.DecoratorIsLost` | packages/elbi-core/src/elbi_core/_source.py:108-108 | a decorated helper is copied from its `def` line on, without its decorator |
| `SliceLimits.UnpackingIsLost` | packages/elbi-core/src/elbi_core/_source.py:49-52 | a statement binding names by unpacking is not seen to bind them and is dropped |
| `SliceLimits.CompoundIsLost` | packages/elbi-core/src/elbi_core/_source.py:30-40 | so is one that binds them by an augmented assignment or inside a compound statement |
| `SliceLimits.WalrusIsLost` | packages/elbi-core/src/elbi_core/_source.py:49-52 | so is one that binds a name only by an assignment expression |
| `SliceLimits.UnneededReaderIsLost` | packages/elbi-core/src/elbi_core/_source.py:72-78 | a function's parameter asks for the module's variable of that name; its statement is carried, unneeded, and what it reads is bound by a compound statement that is dropped, so the slice can fail where the module does not |
| `SliceLimits.HelperBelowIsLost` | packages/elbi-core/src/elbi_core/_source.py:105-112 | a function that calls a helper defined below it is carried without the helper, which is returned as missing |
| `SliceLimits.VariableBelowIsLost` | packages/elbi-core/src/elbi_core/_source.py:105-112 | a variable set below the function that reads it is dropped, although a wanted value is made by calling the function |
| `SliceLimits.EarlierSubmoduleIsLost` | packages/elbi-core/src/elbi_core/_source.py:49-56 | of two imports of submodules of one package only the later is carried |
| `ToolCalls.FindIsFirst` | packages/elbi-agent/src/elbi_agent/non_native_tools.py:31-32 | a non-greedy search ends at the first occurrence |
| `ToolMatches.MatchExactly` | packages/elbi-agent/src/elbi_agent/non_native_tools.py:31-32 | a call or parameter is matched exactly where one stands: a name up to the first `>`, for a call an optional newline, and a body up to the first close |
| `ToolMatches.ScanExactly` | packages/elbi-agent/src/elbi_agent/non_native_tools.py:121-129 | in any text the scan takes the first match, leaves what stands before it outside, and goes on behind it |
| `ToolMatches.ReplyExactly` | packages/elbi-agent/src/elbi_agent/non_native_tools.py:111-129 | in any reply the calls are the matches in order, each under its trimmed name and index, with the last value given for each trimmed parameter name, decoded as JSON where it is JSON |
| `ToolMatches.ProseExactly` | packages/elbi-agent/src/elbi_agent/non_native_tools.py:118-129 | the prose is what is left outside the matches, trimmed, or none; an empty or missing reply comes back as it is |
| `ToolMatches.TrimExactly` | packages/elbi-agent/src/elbi_agent/non_native_tools.py:121-129 | what is stripped is blanks at both ends and no more |
| `ToolMatches.SpacesAre` | packages/elbi-agent/src/elbi_agent/non_native_tools.py:121-129 | the characters that count as blank, one by one |
| `ToolMatches.RepairedExactly` | packages/elbi-agent/src/elbi_agent/litellm_client.py:275-278 | the close tag is put back exactly on a reply that opens a call and closes none |
| `ToolCalls.ReadArguments` | packages/elbi-agent/src/elbi_agent/non_native_tools.py:124-127 | one dictionary entry per parameter block, a later one of a name replacing an earlier |
| `ToolCalls.ScanCalls` | packages/elbi-agent/src/elbi_agent/non_native_tools.py:121-129 | one pass gives the calls in order with running ids and the text outside their blocks |
| `ToolCalls.ParseCalls` | packages/elbi-agent/src/elbi_agent/non_native_tools.py:111-129 | prose and calls of a reply; an empty or missing reply comes back as it is |
| `ToolPrompt.RenderCall` | packages/elbi-agent/src/elbi_agent/non_native_tools.py:132-142 | a call's text, one parameter to a line; arguments that are not JSON stand for none |
| `ToolPrompt.ToPromptMessages` | packages/elbi-agent/src/elbi_agent/non_native_tools.py:68-108 | each message is rewritten by its role with the ids seen before it |
| `ToolTranscript.TranscriptExactly` | packages/elbi-agent/src/elbi_agent/non_native_tools.py:68-108 | at every place of the transcript: the tools' description ends the system message, a turn with calls becomes a text that the parser reads as its prose and those calls, a result becomes the user's, and any other message is unchanged |
| `ToolPrompt.ResultNamesItsCall` | packages/elbi-agent/src/elbi_agent/non_native_tools.py:100-105 | a result is labelled with the name of the last call made under its id before it, or `tool` |
| `ToolRoundTrip.RoundTrip` | packages/elbi-agent/src/elbi_agent/non_native_tools.py:86-142 | rendering a turn and parsing it returns its prose and the same calls in order with ids from zero |
| `ToolLimits.RoundTripExactly` | packages/elbi-agent/src/elbi_agent/non_native_tools.py:86-142 | for prose and calls the syntax is designed for, it does so exactly when no parameter name ends in all but the last character of the close tag |
| `ToolRoundTrip.PromptToolReply` | packages/elbi-agent/src/elbi_agent/litellm_client.py:275-285 | the reply is parsed with the stop word put back, and ends the loop when it holds no call |
| `ToolRoundTrip.StopWordKeepsFirstCall` | packages/elbi-agent/src/elbi_agent/litellm_client.py:275-285 | a reply cut at the first stop word, repaired, yields the prose and exactly the first call |
| `ToolLimits.StopWordExactly` | packages/elbi-agent/src/elbi_agent/litellm_client.py:275-285 | exactly when that call's own name does not close it |
| `ToolValues.RestScanned` | packages/elbi-agent/src/elbi_agent/non_native_tools.py:112-127 | whatever text is left behind a close tag inside a value, every block it makes the parser see under that argument's name has its body in that text |
| `ToolValues.ValuesExactly` | packages/elbi-agent/src/elbi_agent/non_native_tools.py:86-142 | for calls with plain names, each with at most one doubtful value, the round trip holds exactly when every value's text is trimmed and holds neither close tag and no string is itself JSON |
| `ToolValues.LostValues` | packages/elbi-agent/src/elbi_agent/non_native_tools.py:86-142 | a call is not read back with a string that holds either close tag, begins with a space or is JSON |
| `ToolLimits.ParameterNameEndsTheCall` | packages/elbi-agent/src/elbi_agent/non_native_tools.py:86-142 | a call `f` with a text argument named `f</function` is not read back |
| `ToolLimits.CallNameStopsEarly` | packages/elbi-agent/src/elbi_agent/litellm_client.py:275-285 | a call named `f</function` is read back from the whole reply and lost from the stopped one |
| `AuditLog.LinesConcat` | packages/elbi-core/src/elbi_core/audit.py:217-222 | joining texts at a line break joins their non-empty lines |
| `AuditLog.ResumeState` | packages/elbi-core/src/elbi_core/audit.py:203-214 | scanning lines backwards finds the last sequence number and pairs its successor with the last line's hash |
| `AuditLog.TailState` | packages/elbi-core/src/elbi_core/audit.py:171-200 | whatever the block size, resuming from the tail gives the state of resuming from all lines |
| `AuditLog.ResumeEnd` | packages/elbi-core/src/elbi_core/audit.py:171-214 | a number found in the end of a log is the log's last |
| `AuditLog.ChainPrefix` | packages/elbi-core/src/elbi_core/audit.py:225-240 | every prefix of a valid chain is valid |
| `AuditLog.ChainSnoc` | packages/elbi-core/src/elbi_core/audit.py:262-305 | a line extends a valid chain exactly when no fault is found in it |
| `AuditLog.CheckLine` | packages/elbi-core/src/elbi_core/audit.py:262-305 | the checks on a line find exactly its fault |
| `AuditLog.VerifyChain` | packages/elbi-core/src/elbi_core/audit.py:225-290 | the streaming verifier accepts exactly the valid chains; otherwise it stops at the first bad line with its fault, having counted the valid ones before it |
| `AuditRuns.ChainedSink.constructor` | packages/elbi-core/src/elbi_core/audit.py:122-125 | a sink opened on a log holds the state of all its lines |
| `AuditRuns.ChainedSink.Append` | packages/elbi-core/src/elbi_core/audit.py:132-148 | writes one record and moves the sink's number and hash on |
| `AuditRuns.RecordExtends` | packages/elbi-core/src/elbi_core/audit.py:132-148 | a record written with the resumed state extends a valid chain, the legacy run unchanged |
| `AuditRuns.RunsVerify` | packages/elbi-core/src/elbi_core/audit.py:122-148 | any number of records across any restarts leaves a log that verifies, begins with every line it had and has grown by exactly that number of chained records |
| `AuditRuns.RecordKeepsChainExactly` | packages/elbi-core/src/elbi_core/audit.py:138-142 | a record keeps a valid log valid exactly when the log is empty or ends in a line break |
| `AuditRuns.UnfinishedLineBreaks` | packages/elbi-core/src/elbi_core/audit.py:138-142 | a log of one record without its line break verifies, and no longer does after the next record |
| `AuditNumbers.RecordsAreNumberedOn` | packages/elbi-core/src/elbi_core/audit.py:132-148 | a sink opened any number of times writes its events in order, each under the next number and with the hash of the line before: from 0 on an empty log, from the number of lines where none carries one, and else after the last |
| `AuditNumbers.StateIs` | packages/elbi-core/src/elbi_core/audit.py:171-214 | a sink goes on at the number after the last one carried, or at the number of lines, with the hash of the last line |
| `AuditNumbers.ChainExactly` | packages/elbi-core/src/elbi_core/audit.py:225-290 | a chain is valid exactly when its first lines have no chain fields and the rest count up by one, each holding the hash of the line before |
| `AuditNumbers.FaultExactly` | packages/elbi-core/src/elbi_core/audit.py:262-305 | which fault a line has, exactly, by what it and the line before it hold |
| `AuditRuns.SameHeadExactly` | packages/elbi-core/src/elbi_core/audit.py:225-240 | two valid logs have the same head exactly when their chained records, and the last legacy line before them, are the same |
| `AuditRuns.SameHeadSameLog` | packages/elbi-core/src/elbi_core/audit.py:225-240 | without a legacy run the head determines the log |
| `AuditRuns.TruncationChangesHead` | packages/elbi-core/src/elbi_core/audit.py:152-158 | dropping the newest records leaves a log that verifies under another head |
| `SnapshotSafe.FiniteIsFinite` | packages/elbi-cli/src/elbi_cli/snapshot.py:45-57 | no NaN or infinity is left, and a payload without any is unchanged |
| `SnapshotSafe.DumpedExactlyWhenFinite` | packages/elbi-cli/src/elbi_cli/snapshot.py:129-131 | JSON can write a value exactly when all of it is finite |
| `SnapshotSafe.TranslateIsSafe` | packages/elbi-cli/src/elbi_cli/snapshot.py:40-42 | the emitted text has none of the five characters |
| `SnapshotSafe.CharsParsed` | packages/elbi-cli/src/elbi_cli/snapshot.py:40-42 | a string reads back whatever backslashes and escapes it holds |
| `SnapshotSafe.ValueParsed` | packages/elbi-cli/src/elbi_cli/snapshot.py:127-133 | any value's escaped text parses back to the value, up to what follows it |
| `SnapshotSafe.PageReadsThePayload` | packages/elbi-cli/src/elbi_cli/snapshot.py:40-57 | what a page parses is the payload item by item and key by key, with null exactly for a number JSON does not have, from text without any of the five characters |
| `SnapshotSafe.RenderIsSafeAndFaithful` | packages/elbi-cli/src/elbi_cli/snapshot.py:127-133 | every payload is written, safely, in text that decodes to the payload with each non-finite number as null |
| `Serving.SharedCache.Decide` | packages/elbi-cli/src/elbi_cli/serving.py:138-170 | what is served from the last answer, and that a refresh starts only when none of the key is marked |
| `Serving.SharedCache.ScheduleRefresh` | packages/elbi-cli/src/elbi_cli/serving.py:251-254 | a refresh starts exactly when its key was not marked, and marks it |
| `Serving.SharedCache.EndRefresh` | packages/elbi-cli/src/elbi_cli/serving.py:256-273 | the key is unmarked; the entry is replaced only by a success |
| `ServingRuns.StepKeepsInv` | packages/elbi-cli/src/elbi_cli/serving.py:93-173 | every segment between awaits of calls and refreshes keeps what is known of entries, answers and tasks |
| `ServingRuns.AnswersAreSound` | packages/elbi-cli/src/elbi_cli/serving.py:109-173 | in every interleaving a hit carries the version this call read and an age below the ttl, a stale answer an age below `expire`, a miss the artifact computed after this read, and components the version read before their own artifact was computed |
| `ServingRuns.DecisionIsExact` | packages/elbi-cli/src/elbi_cli/serving.py:138-170 | in every reachable state a call that has read a version gets a hit exactly for a current entry below the ttl, a stale answer exactly for another entry below `expire`, with exactly one refresh of its key then under way, and otherwise computes; what it gets keeps the promise of its status |
| `ServingRuns.OneRefreshPerKey` | packages/elbi-cli/src/elbi_cli/serving.py:251-275 | a key is marked exactly while a refresh of it is under way, and never two are |
| `ServingRuns.OnlySuccessReplaces` | packages/elbi-cli/src/elbi_cli/serving.py:256-273 | only a successful computation replaces an entry, and only its own key's |
| `ServingRuns.OneEventPerCall` | packages/elbi-cli/src/elbi_cli/serving.py:93-107 | a call that returned or raised has recorded exactly one event, which says which and, for a cached derivation's answer, the version the call read; a running or cancelled one has recorded none |
| `ServingRuns.FailureIsRaised` | packages/elbi-cli/src/elbi_cli/serving.py:93-107 | a call raises exactly for an internal derivation, a version that cannot be read or a result that cannot be computed, and is then refused unless cancelled |
| `ServingRuns.CancelledCallIsSilent` | packages/elbi-cli/src/elbi_cli/serving.py:93-107 | a run in which a call is cancelled while it computes and no event is recorded |
| `ServingRuns.OldHit` | packages/elbi-cli/src/elbi_cli/serving.py:138-152 | a run with `expire` and no ttl that serves a hit as old as `expire` |
| `ServingRuns.NeverExpiredExactly` | packages/elbi-core/src/elbi_core/cache.py:66-86 | no answer is ever as old as `expire` exactly when a ttl is set beside it |
| `ServingOrder.StepKeepsOrder` | packages/elbi-cli/src/elbi_cli/serving.py:138-173 | as long as no version is read while a computation of its key is under way, every step keeps that a key has one computation at a time, and none from data older than its entry's |
| `ServingOrder.GoesBackExactly` | packages/elbi-cli/src/elbi_cli/serving.py:138-173 | in any run, some entry of a key is replaced by one computed from older data exactly when a computation that read an older revision stores after one that read a newer revision has stored |
| `ServingOrder.OrderlyNeverGoesBack` | packages/elbi-cli/src/elbi_cli/serving.py:138-173 | no entry goes back as long as no version is read while a computation from an earlier read of its key is under way |
| `ServingOrder.OlderReplaces` | packages/elbi-cli/src/elbi_cli/serving.py:138-173 | the run in which a slow call stores what it computed from the older data over a newer entry |
| `ServingLink.DecideStep` | packages/elbi-cli/src/elbi_cli/serving.py:138-170 | a cache that stands where the machine stands goes where its decision step goes |
| `ServingLink.FinishStep` | packages/elbi-cli/src/elbi_cli/serving.py:154-173 | so it does when a computation is stored |
| `ServingLink.EndStep` | packages/elbi-cli/src/elbi_cli/serving.py:256-273 | and when a refresh ends, well or not |
| `Provisioning.Provisioner.EnsureDepsVolume` | packages/elbi-core/src/elbi_core/container.py:313-378 | one call under its lock returns a name only with a completed install of exactly its packages, succeeds exactly when it should, and leaves exactly the volumes and ready names of `VolumesAfter`: none of its name on failure, and every other as it was |
| `ProvisionRuns.StepKeepsInv` | packages/elbi-core/src/elbi_core/container.py:313-378 | every step of threads, failures and crashes keeps what the holder of a lock knows of its volume |
| `ProvisionMarks.StepKeepsCalm` | packages/elbi-core/src/elbi_core/container.py:313-378 | whatever docker does, every step keeps that a thread in its critical section holds its name's lock, that the name of one at work is not ready, and that every ready name is marked |
| `ProvisionMarks.ReadyStays` | packages/elbi-core/src/elbi_core/container.py:283-287 | whatever docker does, a volume marked ready stays, and stays marked, until the process dies; with a docker that stops and removes it also stays as it is, and whole |
| `ProvisionMarks.OneAtATimeExactly` | packages/elbi-core/src/elbi_core/container.py:313-378 | at most one install works in a volume, in every run, exactly when docker stops an install whose client is gone |
| `ProvisionRuns.ProvisioningIsSafeExactly` | packages/elbi-core/src/elbi_core/container.py:313-378 | returned names are completely installed in every run exactly when docker stops an install whose client is gone and removes an unused volume; and so the sentinel stands only on whole volumes |
| `ProvisionRuns.UnkindIsUnsafe` | packages/elbi-core/src/elbi_core/container.py:343-378 | the run that breaks both otherwise: the result of the removal is not looked at |
| `ProvisionRuns.TwoInstalls` | packages/elbi-core/src/elbi_core/container.py:343-378 | the run in which two installs work in one volume, where docker leaves an abandoned one running |
| `ProvisionLink.CallIsItsSteps` | packages/elbi-core/src/elbi_core/container.py:313-378 | the machine has a run in which one thread makes the whole call alone and ends with the volumes, ready names and outcome the method leaves |
| `AgentLoop.RunState.RunDerive` | packages/elbi-agent/src/elbi_agent/runtime.py:1467-1570 | only a certified conclusion with a claim touches the state: its finding is recorded and the attestation rebuilt |
| `AgentLoop.RunState.Dispatch` | packages/elbi-agent/src/elbi_agent/runtime.py:939-1003 | the output, the terminal result and the new state of one call |
| `AgentLoop.DoCalls` | packages/elbi-agent/src/elbi_agent/runtime.py:854-864 | a turn's calls up to one that ends the run, with their events |
| `AgentLoop.Stream` | packages/elbi-agent/src/elbi_agent/runtime.py:770-897 | the events of a run against every behaviour of model and tools |
| `AgentAnswers.AnswerExactly` | packages/elbi-agent/src/elbi_agent/runtime.py:770-897 | a run that a call ends shows each call and after it what its tool answered, and its result is the conclusion, or the answer: the certified block after the model's words, on the first finding's evidence and rows and every one's name and premises, or on the seed, or grounded exactly when code ran |
| `AgentAnswers.TextExactly` | packages/elbi-agent/src/elbi_agent/runtime.py:847-904 | a run that a turn without calls ends: that text on what vouches for it, unverified without |
| `AgentAnswers.BudgetExactly` | packages/elbi-agent/src/elbi_agent/runtime.py:866-871 | a budget spent with something that vouches ends in that, with nothing told |
| `AgentAnswers.ClosingExactly` | packages/elbi-agent/src/elbi_agent/runtime.py:872-885 | with nothing that vouches, the closing turn's first call that ends the run settles it, its tools' answers not shown |
| `AgentAnswers.SilenceExactly` | packages/elbi-agent/src/elbi_agent/runtime.py:886-897 | with no such call the result is grounded exactly when code ran within the budget |
| `AgentAnswers.EveryRunEnds` | packages/elbi-agent/src/elbi_agent/runtime.py:770-897 | every run ends in one of these ways |
| `AgentAnswers.StopsExactly` | packages/elbi-agent/src/elbi_agent/runtime.py:939-1003 | a call ends a run exactly when it concludes, or answers without a chart that the rows refuse |
| `AgentAnswers.OnceIs` | packages/elbi-agent/src/elbi_agent/runtime.py:1588-1620 | the premises of a result are all its findings' premises, once each, in the order they first come |
| `AgentRuns.LatestIsLatest` | packages/elbi-agent/src/elbi_agent/runtime.py:1537-1553 | the findings kept are the last certified under each name, one each, in the order the names were first certified |
| `AgentRuns.OneHonestResult` | packages/elbi-agent/src/elbi_agent/runtime.py:833-897 | a run ends in exactly one result, its last event; whatever seeded the run, it is verified exactly when an earlier derive certified a claim or the seed was verified, and the run neither concluded nor ended without an answer; it then carries the latest findings, or the seed's |
| `AgentRuns.SilentExactly` | packages/elbi-agent/src/elbi_agent/runtime.py:833-897 | a run ends without an answer exactly when it has no seed, every turn of its budget only calls tools that end and certify nothing, and no call of its closing turn ends it |
| `AgentRuns.LateCertificateIsLost` | packages/elbi-agent/src/elbi_agent/runtime.py:878-897 | after any such turns, whatever the closing turn certified is lost: the result is unverified and carries no finding |
| `AgentRuns.LoneCertificate` | packages/elbi-agent/src/elbi_agent/runtime.py:878-897 | so it is when the closing turn's only call certifies a claim |
| `AgentRuns.UsageIsTheSum` | packages/elbi-agent/src/elbi_agent/runtime.py:839-879 | the result's usage is the sum over every turn the model took, the closing one included |

## Left out

- The HTTP calls and endpoint mapping of each sync surface, JSON Schemas, files holding several objects, and the surfaces whose delete does nothing: a surface is its canonical form, file format and references.
- A push is taken to install a body with the same canonical form, and pushes of different objects not to affect each other.
- SyncRuns.OnlyRecordedContentIsReplaced: without `force` and `prune`, which overwrite and delete whatever the baseline says.
- SyncRuns.SyncFindsReferences: for references within one surface; the order of the surfaces themselves is fixed by the program.
- Checkouts.Checkout.Pull: the list of changes a pull reports.
- Checkouts.Checkout.Sync: the app is one map updated in place; a push that fails half-way through a sync is not modelled.
- JobRunner.CompletionsCounted: progress lines, timestamps, results and error texts are not part of a job's state, and a worker that raises outside `Exception` is one that fails.
- JobService.Runner.Work: the method runs undisturbed; interleaving is the subject of the state machine.
- JobRunner: the thread pool's capacity and its shutdown; a published job may start at any later time.
- CacheStore.LocalCacheStore.Get: an unreadable record file and an artifact of a foreign class are not told apart from a corrupt blob; the key file and the atomic rename of a write are not modelled.
- CacheGc.GraceProtectsExactly: `clear`, and a record that cannot be read during the mark.
- SliceMeaning.SliceKeepsMeaningExactly: relative imports, rebuilt submodules, `__file__` and star imports; a statement is taken to act on the names it binds or writes through, so an object changed or a variable rebound inside a call, or an object changed through another name, is not covered; any imported name may be a submodule; a name a statement has itself bound by an assignment expression is taken to be read from before; each statement has a line of its own.
- ToolCalls: the description of the tools, and argument texts that are JSON but not an object.
- ToolRoundTrip.RoundTrip: prose is trimmed and holds no `<function=`; names are trimmed, not empty and without `>`.
- ToolValues.ValuesExactly: two doubtful values in one call, where one text may hold a block that restores the other; names that end in all but the last character of either close tag.
- AuditLog: lines end at a line feed only, and a file holds no other character that Python takes for a line boundary; several processes writing one log, whose numbers can fork, are left out.
- SnapshotSafe.RenderIsSafeAndFaithful: a finite number stands by its JSON text, and the decoder does not join surrogate escapes, which the encoder never writes; assembling the payload, the title and the template is left out.
- ServingRuns.AnswersAreSound: contracts and policies do not change during a run, the clock never goes back, and a refresh is not cancelled from outside.
- Serving: rendering and previews; a components artifact that fails validation is a computation that fails.
- ProvisionRuns.ProvisioningIsSafeExactly: one process at a time on a host, docker probes that tell the truth, and a volume name that stands for its image and packages without collision.
- AgentLoop.Stream: a tool or client that raises ends the run with no result; notebook, dashboard, feature, metric, monitor and model tools are calls with an output; the transcript and prompts are left out, since every sequence of turns is allowed.
- Certificates, retrieval, configuration parsing, the registry, authoring policies and the web files would add only single-branch members.
