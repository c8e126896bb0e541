# controlai: a Dafny model of its state machines

controlai is a control plane that provisions Docker Compose projects, one TimescaleDB a tenant and one broker with an
ingest service a site. This project models the parts of it that keep state and proves what they keep. The
modules follow the program:

- `Ledger`, `LedgerRefinement`: renders and reconciler ticks that interleave freely over the disk, Docker, the
  desired-state table and the recorded hashes; the question is what an equal hash proves about running containers.
- `Reconciling`, `TickEffects`, `Backoff`, `Convergence`, `Reconciler`: what one tick does as functions on values, the
  same written out as a relation, the theorems about whole runs of ticks, and the imperative loop proved against them.
- `IngestMachine`, `IngestBuffer`: the shared ring with its lock regions as atomic steps and any number of batches in
  flight, and the code that builds the multi-row insert.
- `Runner`: mutex per project, then a semaphore of 15, for unboundedly many callers.
- `Capacity`, `Admission`, `Store`, `Naming`, `Server`, `Requests`: the profile table and prediction, the two plan
  builders, the registry tables, the names derived from slugs, all requests that change the registry as one transition
  function, and what each request changes and leaves alone.
- `CombinedHash`, `Sorting`, `Texts`: canonical text of a render, its decoder, sorting with an unstable sort.
- `Migrate`, `PrintedDocs`: the chain of YAML transforms over a walked file set, its dry run and the startup check; and
  a codec that meets what is asked of the YAML library.
- `Pki`: rotation of a site's server and ingestor certificates over time.
- `Projects`: what several modules share.

State machines are written as `Step`, `Enabled` and `Next`; a run is a list of steps. Code that works in place is a
class whose methods are proved equal to the functions and steps that the lemmas are about. Clocks, faults and the
answers of Docker, SQLite, PostgreSQL and the file system are parameters. Time is in seconds.

## Where the code departs from its intent

Each of these is a lemma about the code as it is.

- `admissionCheck` copies each tenant plan before it appends the existing sites, so they are not counted
  (`Admission.WrittenPlanOmitsExistingSites`, `Server.WrittenRunsOverflow`). Parameter `Builder` of module `Server`
  selects the written or the intended builder; the whole-run bound is proved of the intended one.
- A direction patch is not checked against the capacity limit (`Server.PatchFitsIff` says when that takes a registry
  over it, `Server.PatchRunOverflows` is a run).
- A hash that returns to an earlier value can make the ledger wrong for good (`Ledger.ReusedHashBreaksTheLedger`);
  `Ledger.PublishIsSafeIff` and `Ledger.RunIsSoundIff` give the exact condition for one publish and for a whole run.
- The shutdown drain waits neither for other flushes nor for arrivals (`IngestMachine.DrainIsCompleteIff`,
  `IngestMachine.DrainIsCompleteForScheduleIff`, `IngestMachine.ArrivalDuringDrainIsMissed`), and flushes may
  overtake each other (`IngestMachine.TwoFlushersReorder`).
- ca.crt, unlike the other trust files, is written in place and not looked at again, so that a torn or outdated one
  stays (`Pki.CaCurrentIff`, `Pki.CaFileIsNeverRepaired`, `Pki.TornCaGoesUnnoticed`).
- The ingestor certificate is replaced by every call (`Pki.IngestorRotatesEveryTime`).
- A server key that is lost, for instance because its write failed, is not replaced before the certificate falls due
  (`Pki.LostKeyGoesUnnoticed`, `Pki.LostKeyStaysLost`, `Pki.KeyRecoversIff`).
- `handleApply` on a project that is not provisioned yet creates a row without ids, which the later render does not
  repair (`Naming.ProvisioningLandsIff`, `Naming.ApplyFirstPinsTheSharedFile`). For a TSDB project that lasts until
  its own tenant is purged (`Server.AppliedTsdbIsSweptIff`); for a site project it survives every purge
  (`Server.AppliedSiteIsLost`).
- A torn write of a migrated file that still parses below the target costs the original bytes at the next call
  (`Migrate.OriginalSurvivesTwiceIff`, `Migrate.OriginalIsLost`).
- Re-rendering sets the desired state to `running`, so an accepted patch starts a stopped site
  (`Server.StoppedSurvivesPatchIff`).

Two comments in the source say something else than the code, and the model follows the code: the one above
`renderAndWriteTSDB` (internal/daemon/provision.go:190-193) has a render store the combined hash in
actual_state_cache, which only the reconciler does after `up`; and the triggers listed above `EnsureTrustFiles`
(internal/pki/trust.go:30-35) would leave a fresh ingestor certificate alone.

## Model

| member | source | states |
|---|---|---|
| `Ledger.LedgerIsSound` | internal/recon/reconciler.go:95-216 | In every interleaving of renders, abandoned renders, overlapping ticks, failures and container crashes in which no project republishes a hash: if no render of a project is half done and its recorded hash equals its nonempty desired hash, all its running containers carry exactly the files on disk. A render that fails half-way suspends the claim only until the next publish of the project |
| `Ledger.FreshRunsAreSound` | internal/recon/reconciler.go:95-216 | The same from every state that satisfies the strengthened invariant, which also covers hashes that a tick is about to record |
| `Ledger.StepKeepsInv` | internal/recon/reconciler.go:156-216 | Every atomic step keeps the invariant as long as a publish does not bring back a hash that the ledger holds |
| `Ledger.PublishKeepsInv` | internal/daemon/provision.go:247-281 | Publishing after the writes keeps the invariant although the containers still run the old files: the new hash is held by nobody |
| `Ledger.RecordKeepsInv` | internal/recon/reconciler.go:201-209 | Recording the hash of the snapshot row, not of the current one, after `up` keeps the invariant |
| `Ledger.InvIff` | internal/recon/reconciler.go:95-216 | The invariant fails exactly where the ledger is wrong now or becomes wrong with the next hash write of some tick |
| `Ledger.PublishIsSafeIff` | internal/daemon/provision.go:252-281 | When a project's last open render publishes a hash, the ledger stays right (now and after any pending hash write) if and only if no tick and no table row holds that hash, or the containers run the new files already |
| `Ledger.RunIsSoundIff` | internal/recon/reconciler.go:95-216 | Over whole runs and with no assumption on hashes: every state is right, now and after any pending hash write, if and only if every publish that ends the half-done time of the project meets that condition |
| `Ledger.TwoTicksPaused` | internal/recon/reconciler.go:91-93 | Two ticks of one project can both stand between `up` and the hash write |
| `Ledger.ReusedHashBreaksTheLedger` | internal/recon/reconciler.go:201-209 | Without fresh hashes soundness is false: a run that renders A, B and A again around a paused tick ends with equal hashes, containers on B, files A, and no tick left to repair it |
| `LedgerRefinement.TickRowIsALedgerRun` | internal/recon/reconciler.go:156-235 | Whatever the reconciler does for a row is a run of the ledger machine with the same containers, hashes and disk |
| `LedgerRefinement.TickIsALedgerRun` | internal/recon/reconciler.go:95-153 | A whole tick over any rows and outcomes is a run of the ledger machine with the same containers and hashes |
| `LedgerRefinement.TickSettles` | internal/recon/reconciler.go:95-235 | After any history with fresh hashes, a tick leaves every current running row that it attempts without fault, and whose render is not half done, healthy, on exactly the files of the disk and recorded, whether or not it called up, and whatever its other rows suffer |
| `LedgerRefinement.AttemptAligns` | internal/recon/reconciler.go:158-209 | The same for one row: the decision not to call up is right |
| `LedgerRefinement.RenderIsALedgerRun` | internal/daemon/provision.go:231-284 | Whatever a render leaves behind is what a run of the ledger machine leaves behind: a complete one is published and lifts the spoiled mark of its project, one that was cut short by a write error or lost its upsert is abandoned and sets it |
| `LedgerRefinement.WritesRun` | internal/daemon/provision.go:247-256 | Writing n files one by one puts exactly those files over the project's directory and touches no other project |
| `LedgerRefinement.Provisioner.RenderAndWrite` | internal/daemon/provision.go:194-222 | All files are written before the hash is upserted; a write error leaves the prefix written and the table unchanged |
| `Reconciling.TickIsLocal` | internal/recon/reconciler.go:95-153 | A tick over any rows moves each project exactly as its own row dictates: backoff counters, containers, recorded hash, compose calls and attempts |
| `Reconciling.TickSparesOthers` | internal/recon/reconciler.go:95-153 | A tick leaves every project without a row as it was |
| `Reconciling.RowMovesItsProject` | internal/recon/reconciler.go:106-149 | One row has its whole effect on its own project |
| `Reconciling.RowSparesOthers` | internal/recon/reconciler.go:106-149 | One row, failing or not, changes nothing of another project |
| `TickEffects.TickIsPrescribed` | internal/recon/reconciler.go:95-240 | In a tick over any rows, whatever the others do or suffer, each row has exactly the effect written out for it: silent while it waits; running: silent if nothing has drifted, else one up, which if it goes through starts a nonempty running set from the disk and records the hash; stopped and removed: one down, which removes the containers if it goes through; any other state fails without a call; and one attempt logged, whose failure costs 30, 60, 300 or 1800 seconds |
| `TickEffects.TickIsDone` | internal/recon/reconciler.go:95-153 | The same for all rows of the tick at once |
| `TickEffects.PrescriptionIsDefinite` | internal/recon/reconciler.go:156-240 | That relation leaves nothing open but how many containers up starts |
| `TickEffects.RemovedRowsGoDown` | internal/recon/reconciler.go:236-240 | Every tick that attempts a removed row calls down on its compose file once: no containers are left if that goes through, and one more failure is counted if not |
| `TickEffects.UnknownStatesFail` | internal/recon/reconciler.go:156-240 | A row with an unknown state makes no compose call and counts a failure |
| `Backoff.CountersFollowOwnAttempts` | internal/recon/reconciler.go:107-147 | In every run of serialized ticks the failure count is the number of the project's own trailing failures and nextRetry is the last failure plus that rung; every attempt after a failure waited for it |
| `Backoff.RoundKeepsInv` | internal/recon/reconciler.go:95-153 | One tick over arbitrary rows and outcomes keeps that relation for every project |
| `Backoff.FailingAttemptsAreSpread` | internal/recon/reconciler.go:32-37 | 2 consecutive failing attempts of one project span at least 30 seconds, 3 at least 90, and n >= 4 at least 390 + 1800 (n - 4), whatever happens to other projects |
| `Backoff.WaitByNumber` | internal/recon/reconciler.go:32-37 | In every reachable state, after exactly 1, 2, 3, or 4 and more failing attempts at the end of its log a project waits until 30, 60, 300 or 1800 seconds after the last one; after none it does not wait |
| `Backoff.FailuresSpan` | internal/recon/reconciler.go:417-426 | n consecutive failures are at least the sum of the first n - 1 rungs apart |
| `Backoff.LadderSumClosed` | internal/recon/reconciler.go:32-37 | The waits added up: 30, 90, 390 seconds, and 1800 for each further one |
| `Backoff.WaitIsBounded` | internal/recon/reconciler.go:115-146 | In every reachable state a project waits if and only if its own last attempt failed, for between 30 s and 30 min from it, and for exactly 30 s when the attempt before had succeeded |
| `Convergence.SilentIffConverged` | internal/recon/reconciler.go:156-235 | With Docker and the hash table readable, a row that is not in backoff causes no compose call exactly if it has converged |
| `Convergence.FaultlessRowConverges` | internal/recon/reconciler.go:156-235 | A faultless attempt converges the row: running means nonempty, all running, hash recorded, containers on the files of the disk if `up` was called; stopped means no containers |
| `Convergence.TwoTicksConverge` | internal/recon/reconciler.go:95-235 | Row by row: a running or stopped row that one tick attempts without fault has its desired state, and the next tick calls compose for it no more, whatever the other rows suffer |
| `Convergence.FaultsAreForgotten` | internal/recon/reconciler.go:115-146 | After any run of ticks with any failures, a tick 30 minutes after the last failure of a row that meets no fault of that row attempts it and leaves it converged, whatever the other rows suffer |
| `Reconciler.Loop.CheckNeedsUp` | internal/recon/reconciler.go:158-191 | The decision to call `up`: containers missing, not all running, Docker silent, or the recorded hash different |
| `Reconciler.Loop.ReconcileProject` | internal/recon/reconciler.go:156-235 | The switch over the desired state, against the specification that the theorems above are about |
| `Reconciler.Loop.TickOneRow` | internal/recon/reconciler.go:106-149 | The body of the loop: counters, Docker, hash table and logs after one row |
| `Reconciler.Loop.Tick` | internal/recon/reconciler.go:95-153 | The loop over the snapshot is the composition of its rows, so that each project moves as prescribed; a failed query changes nothing |
| `Reconciler.Host.Compose` | internal/runner/compose.go:40-48 | `up` gives a nonempty all-running set that carries the files on disk, `down` gives none, either may fail |
| `IngestMachine.NoRowIsLost` | services/ingest/main.go:171-252 | In every interleaving of arrivals, swaps and answered inserts, with any number of batches in flight: received = persisted + in flight + ring as multisets |
| `IngestMachine.FirstInFirstOut` | services/ingest/main.go:219-252 | With one flush at a time, persisted, in-flight and ring rows in this order are exactly the received rows in order |
| `IngestMachine.DrainStoresEverything` | services/ingest/main.go:159-166 | A drain that begins with nothing in flight and whose insert succeeds leaves persisted == received |
| `IngestMachine.DrainIsCompleteIff` | services/ingest/main.go:159-166 | Whatever other goroutines do before the drain and between its swap and its answer: a successful drain stores all that the ring held at the swap, what is missing is exactly what other flushes hold and what is in the ring again, and it is complete if and only if there is neither |
| `IngestMachine.DrainIsCompleteForScheduleIff` | services/ingest/main.go:159-166 | If no other flush begins during it, a drain that finds rows is complete if and only if all that happens meanwhile is that every batch in flight at its start is stored |
| `IngestMachine.ArrivalDuringDrainIsMissed` | services/ingest/main.go:159-166 | A row that arrives while the drain waits for the database is not stored |
| `IngestMachine.InsertOkKeepsOrderIff` | services/ingest/main.go:241-251 | A success keeps the order if and only if the batch commutes with the older ones in flight |
| `IngestMachine.InsertFailKeepsOrderIff` | services/ingest/main.go:242-248 | Prepending a failed batch keeps the order if and only if it commutes with the newer ones in flight |
| `IngestMachine.TwoFlushersReorder` | services/ingest/main.go:202-204 | Two flushes at once can store rows out of order |
| `IngestBuffer.StatementStoresBatch` | services/ingest/main.go:229-241 | A statement numbered in this way evaluates, placeholder by placeholder, to the rows of the batch; payload NULL unless IsJSON with a payload |
| `IngestBuffer.StoredColumns` | services/ingest/main.go:229-237 | The six columns of a stored row; payload NULL if and only if the row is not JSON or has none |
| `IngestBuffer.BuildInsert` | services/ingest/main.go:226-241 | The loop numbers six placeholders a row, argument 6k + j is column j of row k, and the statement stores the batch exactly |
| `IngestBuffer.Buffer.Append` | services/ingest/main.go:193-197 | First lock region of the handler: one arrival of the machine |
| `IngestBuffer.Buffer.Swap` | services/ingest/main.go:220-227 | First lock region of flushNow: the whole ring goes in flight, or nothing if it is empty |
| `IngestBuffer.Buffer.Exec` | services/ingest/main.go:242-242 | The insert of a batch in flight stores all of it or none |
| `IngestBuffer.Buffer.Requeue` | services/ingest/main.go:244-247 | A failed batch returns to the front of the ring |
| `IngestBuffer.Buffer.FlushNow` | services/ingest/main.go:219-252 | An undisturbed flush stores the whole ring or changes nothing |
| `IngestBuffer.Buffer.HandleMessage` | services/ingest/main.go:193-204 | The row is buffered behind all others; nothing is flushed below the batch size |
| `IngestBuffer.BatchesStayWithinLimit` | services/ingest/main.go:193-204 | With serial handling and no failed insert, no statement carries more than max(1, BatchSize) rows, wherever the ticker strikes |
| `Runner.RunsAreSafe` | internal/runner/compose.go:82-106 | For any number of callers: at most one call of a project past its mutex, the semaphore counts exactly the running calls, at most 15, and the mutexes held are exactly those of callers past Lock |
| `Runner.SlotIsFreeIff` | internal/runner/compose.go:87-90 | In every run a caller that waits for a slot can get one if and only if fewer than 15 calls run |
| `Runner.StepKeepsOwners` | internal/runner/compose.go:83-99 | Every step, cancellation included, keeps the mutex table equal to the callers between Lock and the deferred Unlock |
| `Runner.StepKeepsCount` | internal/runner/compose.go:87-92 | Every step keeps the semaphore equal to the number of running calls |
| `Runner.NoDeadlock` | internal/runner/compose.go:82-106 | While a call is unfinished some step is enabled that is neither a new call nor a cancellation |
| `Runner.WorkRunsOut` | internal/runner/compose.go:82-106 | Each step of a caller lowers a measure, whatever the schedule |
| `Runner.EverySetOfCallsEnds` | internal/runner/compose.go:82-106 | Once no call arrives a run is bounded by that measure and can only stop with all calls returned, all mutexes free and all slots back |
| `Runner.StuckIsClean` | internal/runner/compose.go:82-106 | A state of the machine without enabled steps is one where everything was given back |
| `Runner.ComposeRunner.LockMutex` | internal/runner/compose.go:83-85 | mu.Lock as a step of the machine |
| `Runner.ComposeRunner.AcquireSlot` | internal/runner/compose.go:87-90 | Semaphore acquisition or its cancellation as a step of the machine |
| `Runner.ComposeRunner.ReleaseSlot` | internal/runner/compose.go:91-91 | The deferred release |
| `Runner.ComposeRunner.UnlockMutex` | internal/runner/compose.go:85-85 | The deferred unlock and the call's result |
| `Runner.ComposeRunner.RunCompose` | internal/runner/compose.go:82-106 | A call that nobody interrupts returns mutex and slot on every path and succeeds exactly if it got a slot and the command exited well |
| `Capacity.PredictTenant` | internal/capacity/profile.go:144-160 | One breakdown line: exactly the sites in order, totals that add up, an error exactly when a site has no profile row |
| `Capacity.Predict` | internal/capacity/profile.go:138-175 | An error exactly when some site has no profile row; otherwise the projection equals the sum of breakdown totals with 350 MB a TSDB, the usable memory is that of the host less 530 MB, the limit is 17/20 of it rounded down, and admissible means within the limit |
| `Capacity.LimitInNumbers` | internal/capacity/profile.go:139-143 | The limit in numbers: mb is within it exactly if 20 mb <= 17 (memory in MB - 530) |
| `Capacity.ProfileTable` | internal/capacity/profile.go:53-66 | A site has a profile if and only if it is one of six, with these broker and ingest sizes |
| `Capacity.TenantOrderIsIrrelevant` | internal/capacity/profile.go:138-175 | The projection depends on the multiset of tenant plans only |
| `Admission.RegistryMB` | internal/daemon/server.go:222-239 | The plan of the whole registry projects to 350 MB a tenant plus the profile of each stored site once |
| `Admission.BuildRegistryPlan` | internal/daemon/server.go:222-239 | The builder of handleCapacity lists every tenant with all its sites |
| `Admission.BuildAdmissionPlan` | internal/daemon/server.go:1320-1377 | The builder of admissionCheck as written, on heap cells: appends through the pointer do not reach the copies, so the plan holds bare tenants and the proposal |
| `Admission.WrittenPlanOmitsExistingSites` | internal/daemon/server.go:1336-1352 | The written plan is short of the intended one by exactly the RSS of all existing sites |
| `Admission.WrittenCheckIsRightIff` | internal/daemon/server.go:1378-1392 | The written check agrees with the intended one if and only if the limit does not lie between the two projections |
| `Admission.ProposalAdds` | internal/daemon/server.go:1353-1377 | The proposal adds its site and, if its tenant is new, one TSDB |
| `Admission.AdmitsIff` | internal/daemon/server.go:1378-1392 | A plan is admitted if and only if every site has a profile and 20 times its projection is at most 17 times the memory less 530 MB |
| `Server.ReachableRegistryIsPredictable` | internal/capacity/profile.go:138-175 | After any sequence of requests every stored site has a profile row, keys are unique, and the projection is 350 a tenant plus the `uni` profiles plus 20 MB a `bi` site |
| `Server.HandlePins` | internal/store/sqlite/store.go:476-484 | Each request keeps rows and project ids in step, and only a purge takes a row off its compose file |
| `Server.AdmittedRunsFit` | internal/daemon/server.go:1320-1392 | With the intended builder every run of requests keeps the projection within the limit plus 20 MB a `bi` site, and with every site counted as `uni` within the limit; in numbers, 20 (350 tenants + uni sizes) <= 17 (memory in MB - 530) |
| `Server.HandleIsSafe` | internal/daemon/server.go:253-795 | Each request, accepted or refused, keeps integrity, known profiles and, with the intended builder, the fit |
| `Requests.LifecycleEffect` | internal/daemon/server.go:696-1000 | Retention patch, starts, stop of a site and apply set one desired row to running or stopped, with the render's hash or none, keep the ids of an existing row, and change nothing else but the status of a started tenant |
| `Requests.StopTenantEffect` | internal/daemon/server.go:719-747 | The TSDB and every site of the tenant are wanted stopped without hash, and nothing else changes |
| `Requests.DeleteTenantEffect` | internal/daemon/server.go:435-472 | Without purge: the same, and the tenant is orphaned |
| `Requests.PurgeTenantEffect` | internal/store/sqlite/store.go:227-267 | With purge: all other tenants and all their sites are there as before and in order, none of the tenant is left, and a desired row stays if and only if it neither carries the tenant's id nor is its TSDB project |
| `Requests.DeleteSiteEffect` | internal/daemon/server.go:666-694 | Without purge: the site is orphaned and its project wanted stopped |
| `Requests.PurgeSiteEffect` | internal/store/sqlite/store.go:386-413 | With purge: all other sites are there as before and in order, and a desired row stays if and only if it does not carry the site's id |
| `Requests.CreateTenantEffect` | internal/daemon/server.go:253-318 | A tenant is created if and only if its slug is valid, its id free and the plan admitted; then one active row is appended and its TSDB rendered to running |
| `Requests.CreateSiteEffect` | internal/daemon/server.go:474-580 | A site is created, with the handler's defaults, if and only if all checks pass; then one row is appended and its project rendered to running |
| `Requests.PatchSiteEffect` | internal/daemon/server.go:606-664 | A patch is accepted if and only if the site exists and direction and codec are well formed; then exactly the named fields of exactly that row change and the site is rendered |
| `Server.ProfileRows` | internal/capacity/profile.go:40-66 | The profile table is closed under direction flips, and `bi` costs 20 MB more |
| `Server.PatchMovesProjection` | internal/daemon/server.go:606-664 | A patch moves the projection by plus or minus 20 MB for a change of direction and not at all otherwise, whatever the limit says |
| `Server.PatchFitsIff` | internal/daemon/server.go:606-664 | A patch takes a registry that fits over the limit if and only if it switches an existing site from uni to bi, is accepted, and the 20 MB are not there |
| `Server.PatchRunOverflows` | internal/daemon/server.go:606-664 | With a limit of at least 430 and below 450 MB three accepted requests, create tenant, create site, patch, end at 450 MB |
| `Server.StoppedSurvivesPatchIff` | internal/daemon/provision.go:275-281 | A stopped site stays stopped through a patch if and only if the patch is refused or its render fails |
| `Server.WrittenRunsOverflow` | internal/daemon/server.go:1336-1352 | With the written builder there is no bound: a host with room for one EMQX site admits one for every slug, each at its full 460 MB |
| `Server.Daemon.AdmissionCheck` | internal/daemon/server.go:1320-1392 | The handler check refuses an unpredictable plan and one above the limit |
| `Server.Daemon.CreateTenant` | internal/daemon/server.go:253-318 | Order of checks, insert, render; any failure before the insert changes nothing |
| `Server.Daemon.CreateSite` | internal/daemon/server.go:474-580 | Order of checks, admission, insert, render |
| `Server.Daemon.PatchSite` | internal/daemon/server.go:606-664 | Validation, update without admission, re-render to `running` |
| `Server.Daemon.DeleteTenant` | internal/daemon/server.go:435-472 | The rows of the TSDB and of every site are set first, then the registry changes |
| `Server.Daemon.DeleteSite` | internal/daemon/server.go:666-694 | The same for one site |
| `Server.Daemon.ChangeState` | internal/daemon/server.go:696-793 | Retention patch, start, stop and apply, with the empty hash that start, stop and apply upsert |
| `Server.Daemon.ServeAll` | internal/daemon/server.go:253-1000 | A run of handlers on the database is a run of the transition function of the theorems above |
| `Server.RunsPinPaths` | internal/recon/reconciler.go:368-376 | In every run without purges a project that has a row stays on the compose file of that row; in every run rows spell their project id or carry no ids |
| `Store.PurgeTenantKeepsIntegrity` | internal/store/sqlite/store.go:227-267 | A purge leaves no site without its tenant and no duplicate key |
| `Store.PurgeSiteKeepsIntegrity` | internal/store/sqlite/store.go:386-413 | The same for one site |
| `Store.SameKeysKeepIntegrity` | internal/store/sqlite/store.go:423-451 | Soft deletes, status changes and patches keep keys and references |
| `Store.CreateKeepsIntegrity` | internal/store/sqlite/store.go:307-321 | An accepted insert keeps keys and references |
| `Store.Database.InsertTenant` | internal/store/sqlite/store.go:128-141 | Duplicate key, or the row behind the others |
| `Store.Database.InsertSite` | internal/store/sqlite/store.go:307-321 | Duplicate key, missing tenant, or the row behind the others |
| `Store.Database.PatchSite` | internal/store/sqlite/store.go:423-451 | Only the named row changes, empty arguments keep a field, an unknown id is reported |
| `Store.Database.RemoveTenant` | internal/store/sqlite/store.go:227-267 | Purge removes the tenant, its sites and their desired rows, otherwise the tenant is marked orphaned |
| `Store.Database.RemoveSite` | internal/store/sqlite/store.go:386-413 | Purge removes the site and its desired rows, otherwise it is marked orphaned |
| `Store.Database.UpsertDesiredState` | internal/store/sqlite/store.go:476-485 | An existing row keeps its tenant and site ids |
| `Naming.ValidateSlug` | internal/daemon/server.go:1440-1462 | Accepts exactly the strings of the documented pattern |
| `Naming.SiteProjectsAreInjective` | internal/daemon/provision.go:275-277 | Two accepted tenant and site slugs give one project id if and only if they are the same pair, hyphens notwithstanding |
| `Naming.TsdbProjectsAreApart` | internal/daemon/provision.go:213-216 | TSDB project ids are injective and never those of a site |
| `Naming.SniHostnamesAreInjective` | internal/daemon/provision.go:121-121 | SNI hostnames name site, tenant and domain uniquely |
| `Naming.ComposePathsFollowProjects` | internal/recon/reconciler.go:368-376 | Two provisioned rows share a compose file if and only if they are rows of one project |
| `Naming.ComposeFileIsWhereRendered` | internal/daemon/provision.go:205-210 | The reconciler looks for the compose file of a row in the directory that the render publishing the row has written to |
| `Naming.NamesAreSpelled` | internal/daemon/provision.go:121-121 | The spelling of ids, projects and hostnames on an example |
| `Requests.ReachableNamesAreApart` | internal/daemon/provision.go:275-277 | In every registry that the handlers can build, any two sites have different compose projects and different SNI hostnames under any domains, and so have a TSDB and a site |
| `Naming.UpsertsPinThePath` | internal/store/sqlite/store.go:476-484 | No sequence of upserts, whatever ids it passes, moves an existing row to another compose file |
| `Naming.RenderLandsIff` | internal/store/sqlite/store.go:476-484 | A render leaves its project on the compose file that it wrote if and only if there was no row or one with the same ids |
| `Naming.ProvisioningLandsIff` | internal/recon/reconciler.go:368-376 | Among provisioned and applied rows: if and only if there was no row or one with a tenant id |
| `Naming.ApplyFirstPinsTheSharedFile` | internal/recon/reconciler.go:375-375 | A site or TSDB row that handleApply created first stays on the shared compose file through every later upsert, although the render fills its hash in |
| `Naming.ComposePathsFollowIds` | internal/recon/reconciler.go:368-376 | Two rows, however they came about, share a compose file if and only if their ids are equal |
| `Server.BlankRowStaysIff` | internal/store/sqlite/store.go:227-250 | One request leaves a row without ids in place if and only if it is not a purge of the tenant whose TSDB it is (or of an empty id) |
| `Server.AppliedSiteIsLost` | internal/store/sqlite/store.go:386-400 | A site project that handleApply named first stays on the shared compose file in every run of requests, purges of its tenant and site included |
| `Server.AppliedTsdbIsSweptIff` | internal/store/sqlite/store.go:240-244 | The row of a TSDB project that handleApply named first goes if and only if its own tenant is purged |
| `CombinedHash.ComputeCombinedHash` | internal/daemon/provision.go:175-187 | The hash is the digest of the sorted list's text |
| `CombinedHash.OrderIsIrrelevant` | internal/daemon/provision.go:175-187 | With one hash a path, any order of the results and any tie-breaking of the unstable sort give one text |
| `CombinedHash.CanonicalIff` | internal/daemon/provision.go:175-187 | One hash a path makes the text canonical, and for newline-free paths and hex hashes nothing less does |
| `CombinedHash.DecodeText` | internal/daemon/provision.go:182-185 | With newline-free paths and hex hashes, the hashed text decodes back to exactly the list |
| `CombinedHash.CombinedHashIdentifiesFiles` | internal/daemon/provision.go:175-187 | Equal file sets give equal combined hashes in any order; with newline-free paths, hex hashes and an injective digest the converse holds too |
| `CombinedHash.NewlineInPathCollides` | internal/daemon/provision.go:182-185 | A newline in a path makes two different file sets hash alike |
| `Sorting.SortingIsUnique` | internal/daemon/provision.go:178-181 | If the key determines the element, every sorting of a list is the same list |
| `Migrate.MigratedFile` | internal/migrate/yaml/migrator.go:39-82 | A migrated file reads as the composition of the registered transforms, carries the target version, and its old bytes are in the side-car; nothing else changes |
| `PrintedDocs.FaithfulCodecExists` | internal/migrate/yaml/migrator.go:75-79 | The fidelity asked of the YAML library can be met: a codec that prints and reads back every document |
| `Migrate.MigrationIsIdempotent` | internal/migrate/yaml/migrator.go:52-57 | Repeating a migration changes nothing and reports nothing |
| `Migrate.OriginalSurvives` | internal/migrate/yaml/migrator.go:58-80 | A file that did not migrate is untouched unless the final write was torn, and then its bytes are in the side-car |
| `Migrate.OriginalSurvivesTwiceIff` | internal/migrate/yaml/migrator.go:58-80 | Over two calls the original bytes survive if and only if the first left the file alone, or what it left is not a file to migrate, or the second left no trace in the side-car: a torn write that still parses below the target costs them |
| `Migrate.OriginalIsLost` | internal/migrate/yaml/migrator.go:58-80 | With every faithful codec there are an original and a torn write after which the second call, without any fault, leaves the original nowhere |
| `Migrate.DryRunAgrees` | internal/migrate/yaml/migrator.go:87-125 | A successful real walk returns exactly the list of the dry run on the same tree |
| `Migrate.WalkSucceedsIff` | internal/migrate/yaml/migrator.go:87-125 | On a working disk the real walk succeeds if and only if the dry run does and every announced file has an accepting chain |
| `Migrate.WalkedFile` | internal/migrate/yaml/migrator.go:87-125 | A successful walk brings every configuration file below the target to it and leaves the bytes of the others |
| `Migrate.Migrator.Visit` | internal/migrate/yaml/migrator.go:91-122 | The callback of the walk at one entry |
| `Migrate.WalkSparesOthers` | internal/migrate/yaml/migrator.go:95-99 | Files that are neither configurations nor side-cars are never written |
| `Migrate.FailingWalkStops` | internal/migrate/yaml/migrator.go:87-125 | A failing walk leaves what the walk of the entries up to the failure leaves, and lists the files migrated before it |
| `Migrate.VersionsAfterWalk` | internal/migrate/yaml/migrator.go:87-179 | After a successful walk to T every configuration file parses, and its version is above T if and only if it was above T before |
| `Migrate.ConfigsByName` | internal/migrate/yaml/migrator.go:89-99 | The walks look at exactly the files named tenant.yaml and site.yaml, in any directory |
| `Migrate.DryRunLists` | internal/migrate/yaml/migrator.go:100-115 | The dry run fails exactly at an unreadable entry or a configuration file that is missing or does not parse, and otherwise lists exactly the configuration files below the target |
| `Migrate.ChainIff` | internal/migrate/yaml/migrator.go:63-73 | The chain of a migration has a result if and only if there is a sequence of documents in which each is what the transform registered for its version makes of the one before, stamped with the next version |
| `Migrate.MigratedStepByStep` | internal/migrate/yaml/migrator.go:63-80 | What a migrated file reads as can be reached in this way from what it read as before |
| `Migrate.VersionByKind` | internal/migrate/yaml/migrator.go:182-196 | Versions that are missing, not numeric or beyond int64 count as 0, integers as themselves, whole floats as their value |
| `Migrate.Truncate` | internal/migrate/yaml/migrator.go:190-191 | A float with a fraction is truncated toward zero |
| `Migrate.Migrator.MigrateFile` | internal/migrate/yaml/migrator.go:39-82 | The version loop, side-car first, against the chain of transforms |
| `Migrate.Migrator.WalkAndMigrate` | internal/migrate/yaml/migrator.go:87-125 | The real walk |
| `Migrate.Migrator.CheckOnly` | internal/migrate/yaml/migrator.go:100-115 | The dry run of the walk |
| `Migrate.Migrator.CheckSchemaVersions` | internal/migrate/yaml/migrator.go:137-179 | The offenders are exactly the configuration files that are missing, do not parse, or have a version above the binary's |
| `Migrate.Migrator.MigrateThenStart` | internal/migrate/yaml/migrator.go:132-179 | After a successful migration to T the start for T is refused for exactly the configuration files that were above T before it |
| `Pki.SanSetsEqual` | internal/pki/ensure.go:80-95 | True if and only if the two lists are equal as multisets; the inputs are not touched |
| `Pki.SortedCopiesAgreeIff` | internal/pki/ensure.go:84-94 | Sorted copies are equal if and only if the lists are permutations, so the comparison is an equivalence |
| `Pki.NeverSeenExpired` | internal/pki/trust.go:54-78 | If successive successful calls are less than 30 days apart, whatever calls fail between them and how far they get: at every instant from the end of the first successful one to 30 days after the last, the server certificate on disk is unexpired and carries exactly the required name |
| `Pki.CallKeepsCover` | internal/pki/trust.go:54-78 | No call, however it fails, spoils the validity that an earlier one has left |
| `Pki.ServerFilesAfter` | internal/pki/trust.go:64-78 | Whatever fails, server.crt is the old one or a fresh whole one, and server.key changes only after it |
| `Pki.CoverLasts` | internal/pki/trust.go:54-78 | What a successful call leaves is valid for 30 days from its check through any further calls |
| `Pki.CallLeavesThirtyDays` | internal/pki/trust.go:54-78 | What one successful call leaves, fresh or kept, is issued by the current CA and valid for 30 days from the check |
| `Pki.NextCallRotatesIff` | internal/pki/ensure.go:33-77 | After a successful call the next one finds the server certificate due if and only if the CA is not valid then or the certificate is within 30 days of its end |
| `Pki.SecondCallIsQuiet` | internal/pki/trust.go:54-78 | While the CA is valid an immediate second call, successful or not, leaves the server certificate and its key alone |
| `Pki.IngestorRotatesEveryTime` | internal/pki/ensure.go:58-61 | Every successful call replaces the ingestor certificate, however fresh, because verification asks for ServerAuth |
| `Pki.KeyMatchesIff` | internal/pki/trust.go:64-78 | After any call the server key fits if and only if the call wrote certificate and key whole, or left the certificate alone and the key fitted before; after a successful one, if and only if the certificate was due or the key fitted |
| `Pki.KeyRecoversIff` | internal/pki/trust.go:54-78 | Over runs of successful calls a missing key comes back if and only if the certificate falls due at one of them |
| `Pki.LostKeyStaysLost` | internal/pki/ensure.go:33-77 | While its certificate is good a lost key stays lost, over any number of calls, successful or not |
| `Pki.LostKeyGoesUnnoticed` | internal/pki/trust.go:71-76 | In an empty directory a call that fails at server.key leaves the certificate, and the next call succeeds without writing the key |
| `Pki.CaCurrentIff` | internal/pki/trust.go:46-52 | ca.crt is the configured CA after a call if and only if it was before, or nothing was there and the call wrote it |
| `Pki.CaFileIsNeverRepaired` | internal/pki/trust.go:47-48 | A ca.crt that is there, torn or of a former CA, stays as it is through any further calls |
| `Pki.TornCaGoesUnnoticed` | internal/pki/trust.go:49-51 | After a torn first write of ca.crt the next call succeeds and leaves it torn |
| `Pki.RotationReasons` | internal/pki/ensure.go:33-77 | Each reason for rotation, and none, exactly when: not a certificate; not valid under the CA for server authentication now; ending within 30 days; other names |
| `Pki.IngestorFilesAfter` | internal/pki/trust.go:80-112 | Whatever fails, the ingestor certificate is the old one or a fresh one for 365 days, and its key the old one or the one that belongs to it |
| `Pki.IssuedServerCert` | internal/pki/trust.go:60-63 | The issued server certificate: CA, single name, ten years from five minutes ago, key |
| `Pki.TrustDir.Check` | internal/pki/ensure.go:34-77 | The decision chain in its order: missing, corrupt, CA, expiry, SANs |
| `Pki.TrustDir.EnsureTrustFiles` | internal/pki/trust.go:39-112 | Server half, then ingestor half; a file operation that fails leaves what was written before it |

## Left out

- Backoff.FailingAttemptsAreSpread: holds for serialized ticks. `Trigger` starts a tick beside the periodic one and both use `r.states` without a lock; that race is not modelled for the counters. The ledger theorems do allow overlapping ticks.
- Ledger.LedgerIsSound: `up` reads the compose directory in one step, and a project's directory is identified with its project id. The exception, a row first created by handleApply, is Naming.ApplyFirstPinsTheSharedFile.
- LedgerRefinement.Provisioner.RenderAndWrite: a file is replaced in one step (it is written beside and renamed); two renders that share the temporary name are not modelled, nor the Traefik file that a site render writes before its upsert. A failure there is a render that is abandoned.
- Ledger.PublishIsSafeIff: speaks of a publish after which no render of the project is half done; while one is, the property claims nothing. Ledger.RunIsSoundIff covers all publishes.
- Reconciler.Loop.Tick: `ensureTraefikDynamic`, the trust-file pass at the head of a tick, audit events and log lines are not part of this model.
- Reconciler.Host.Compose: `docker compose` is one call with an outcome; partial output, timeouts and the exit code are not modelled. A failed call leaves any containers.
- IngestMachine.DrainIsCompleteIff: `ingestDB.Close()` follows the drain and waits for connections in use, so that other inserts may still be answered; that wait and the ten-second budget are not part of this model.
- IngestBuffer.Buffer.Exec: an insert is all or nothing and its answer is reliable; a connection lost after the commit, which would store a batch twice, is not modelled.
- IngestBuffer.BuildInsert: placeholders are numbers; the digits of `$n`, the `::jsonb` cast and the joining of the text are not modelled, nor is PostgreSQL's limit on parameters.
- IngestBuffer.BatchesStayWithinLimit: a failed insert grows the next batch beyond the limit, so it is excluded; concurrent handlers are excluded as well.
- IngestBuffer.Buffer.HandleMessage: the topic is not split and the payload not decoded; the row is given.
- Runner.RunsAreSafe: `restartBroker` and the backup job call Docker without the runner and are outside the bound of 15.
- Runner.EverySetOfCallsEnds: a running command is taken to exit; the order in which the semaphore serves its waiters is left open.
- Runner.ComposeRunner.RunCompose: describes a call that no other caller interrupts; interleaved calls are what the step lemmas cover.
- Capacity.Predict: the factor 0.85 is 17/20 with floor. Rounding of the binary product is not modelled.
- Server.AdmittedRunsFit: requests are served one after the other and the memory of the host is fixed; two concurrent creates can both pass the check.
- Server.Daemon.ChangeState: project_id filters and fields, tokens, retention values, the blocking wait of apply and HTTP status codes are left out.
- Server.Daemon.ServeAll: SQLite answers every statement; the handlers drop the errors of their upserts, and what a dropped one leaves is only covered by LedgerRefinement.
- Server.Daemon.DeleteTenant: whether containers come down before a purge removes the desired row is not claimed; the row may be gone before a tick reads it.
- Store.Database.RemoveTenant: tables other than tenants, sites and desired_state are left out, among them the recorded hashes, which survive a purge.
- Store.Database.PatchSite: ORDER BY of the list queries is not modelled; Capacity.TenantOrderIsIrrelevant says why admission does not depend on it.
- Naming.SniHostnamesAreInjective: the rules for the domain itself are not modelled; it may be any string.
- Naming.ComposePathsFollowIds: `filepath.Join` is concatenation; ids that it would clean away (empty beside a site id, `.` and `..`, or holding a slash) and a data directory that is not clean are excluded.
- Reconciler.Host: the tables behind GetCombinedHash and UpsertCombinedHash are a map; their methods are the environment of the loop and have no row above.
- CombinedHash.CombinedHashIdentifiesFiles: SHA-256 is an injective function given as a parameter.
- Migrate.MigratedFile: the YAML library is a codec; comments and key order, which it does not keep, are outside the claim, a whole float may come back as an integer, and infinities and NaN are not among the numbers. A document that is null is a document without keys. A transform returns a document or an error: one that returns a nil map without error makes the stamp panic. int() of a float64 beyond int64 is truncation, where Go leaves it to the implementation.
- Migrate.OriginalSurvivesTwiceIff: leaves aside a torn write that happens to spell the original bytes.
- Migrate.Migrator.CheckSchemaVersions: the text of the report is not modelled, only which files are in it.
- Migrate.Migrator.WalkAndMigrate: the directory walk is a list of entries in order; an error of one entry is `Unreadable`.
- Pki.NeverSeenExpired: ten years are at least 3650 days; calendar arithmetic is not modelled. The calls of a site end one after the other, and a call changes the files at its end. A host crash between a rename and the disk is not modelled. The CA need not be valid.
- Pki.TrustDir.EnsureTrustFiles: certificates are records of issuer, validity, names, usage and key; x509 chains, AES-GCM and PEM parsing are libraries. A stat of ca.crt that fails for another reason than absence counts as absence.
- Pki.SanSetsEqual: `sort.Strings` is specified by the sorting function and sorts the copy in one assignment.
- HTTP routing, JSON, CLI, MQTT clients, template rendering, logs, backup pruning and cloud scripts are input and output without state of their own.
