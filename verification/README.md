# Verification of the CENTINAL26 automation runtime

This project models the protocols, state machines, graph walks and fold-style algorithms of the
runtime in Dafny and proves their whole-run guarantees. `dafny verify dfyconfig.toml` checks everything.

What is modelled, one module per component:

- **Outbound job protocol** (`OutboundWire`, `OutboundQueue`, `OutboundWorker`, `OutboundProtocol`,
  `OutboundSafety`, `OutboundTokens`, `OutboundReplay`). The controller and the worker are classes; each method is
  proved equal to a function of its old state. Those functions are composed into a transition system over a network
  that may lose, duplicate, delay, reorder and forge records, with workers that crash between any two of their steps.
  HMAC is ideal: a record verifies under an honest secret only if its holder signed that body. A rejection
  carries no signature of its own, but the header under which it is posted signs it, so it counts as signed.
- **Lease-based task daemon** (`TaskDaemon`, `TaskRuns`, `TaskReopening`). Every autocommitted SQL statement is one
  step; any number of workers interleave over one table and crash anywhere, also between the commit of a claim and
  reading the row back.
- **Persistent qualification kernel** (`PersistentKernel`, `HashChain`). A commit is four writes and may stop
  after any of them; a run is any sequence of completed and interrupted commits.
- **Dependency walks** (`ModuleManager`, `FederationCycle`, `FederationRegistry`, `TaintClosure`, `Graph`).
- **Canonical bundles** (`CanonicalBundle`, `StructuredDedupe`, `DedupeDerivation`, `DedupeEnrichment`,
  `DedupeContent`, `DedupeClash`, `CanonicalStore`). The cross-reference validator, the deterministic derivation,
  the append-only store.
- **Fast forms of simple things** (`ContextBuilder`, `ContextReading`, `ClockEntries`, `ClockSums`).
- **Congruence and accounting** (`ReviewGate`, `ReviewDecisions`, `GrantBridge`, `GrantRuns`). Processes of the
  bridge interleave between using up a grant, reading the last audit hash, appending the entry and submitting.

`Common` and `TextOrder` hold what the components share.

Conventions. SHA-256 is an injective function where a result needs it (`HashChain.Injective`,
`PersistentKernel.GoodDigests`); tokens, task ids and event ids drawn at random are fresh. Clock readings,
jitter, handler outcomes, downloads and exit codes are arbitrary inputs. Strings are ordered by code point, as
Python orders them.

Where a property fails of the code, the code is kept and the exact condition is proved:

- A finishing UPDATE of the daemon does not test the lease owner, so a late finish can reopen a verified task.
  `TaskRuns.LateFinishReopens` is such a run. `TaskReopening.TerminalLeftIff` gives the exact condition: some
  continuation takes a task out of VERIFIED or FAILED exactly when a worker holds that task at a point from which it
  may still write something else, read off the point, the capability and the attempt count of the row it acts on.
  `TaskReopening.UnheldAbsorbing` covers tasks that nobody holds, `TaskRuns.TerminalAbsorbing` for runs in which
  that task is not finished late, `TaskRuns.SingleWorkerAbsorbing` for one worker.
- At-most-once execution holds only inside the replay window (`OutboundSafety.ReplayAcceptedIff`,
  `OutboundWorker.Readmitted`). Over all runs in which the controller draws 32 hexadecimal digits, a job can be
  executed twice exactly when its nonce is below the 4096 largest tokens (`OutboundReplay.TwiceIff`);
  `OutboundReplay.ExecutedTwice` is the run, `OutboundReplay.HighNonceOnce` the safe half.
- Concurrent processes of the Hermes bridge can break the audit chain, because the last hash is read and the entry
  appended without a lock: `GrantRuns.ChainBreaks` is such a run, and `GrantRuns.AuditIntactIff` says that the file
  checks exactly when no entry was appended between another one's read and append.
- A kernel that never committed does not verify clean (`PersistentKernel.NeverCommitted`). A crash after the sidecar
  write goes unnoticed exactly when the presence of the marker already agrees with the goal flag
  (`PersistentKernel.CleanIff`); `PersistentKernel.HarmlessCrashUnnoticed` and
  `PersistentKernel.StaleMarkerUnnoticed` are instances, the second leaving the marker of an older release.
- Enriching a valid bundle fails exactly when a derived id is taken for other content
  (`DedupeEnrichment.EnrichIff`); `DedupeClash.ValidButClashes` is a valid bundle for which it does.

## Model

| member | source | states |
|---|---|---|
| OutboundWire.SignVerifies | automation/controller/outbound_queue.py:32-42 | a signed record verifies under a secret exactly when that secret signed it, and signing leaves the body readable |
| OutboundWire.JobBodyInjective | automation/controller/outbound_queue.py:113-124 | the job record determines the job: no two jobs share a body |
| OutboundQueue.Controller.Register | automation/controller/outbound_queue.py:67-95 | recorded, field by field, exactly for a credential of 32 bytes or more, well-formed fields and, for a known device, unchanged identity material; a refusal changes nothing; repeating an accepted one changes nothing but its time stamp |
| OutboundQueue.RegisterAgain | automation/controller/outbound_queue.py:86-95 | registering a registered device again succeeds exactly for the identity material it has, and changes nothing but the time of registration |
| OutboundQueue.Controller.Submit | automation/controller/outbound_queue.py:97-125 | accepted exactly for a registered device, one of the two capabilities and a time to live of at most an hour; the record returned and the job queued have exactly the device, capability, parameters, expiry, task id, nonce and commit asked for, under the device's tag; a refusal changes nothing |
| OutboundQueue.SubmittedIsOffered | automation/controller/outbound_queue.py:97-137 | a job put on an empty queue is what the next poll before its expiry offers, field by field as requested |
| OutboundQueue.Controller.Poll | automation/controller/outbound_queue.py:127-137 | the loop pops exactly the expired head jobs and offers the next one, unexpired, field by field and under the device's tag, without removing it |
| OutboundQueue.Controller.Accept | automation/controller/outbound_queue.py:139-169 | every error path leaves the state alone; an accepted result carries the device's tag, its commit and the task it is acknowledged for, and is recorded as it came; its nonce is consumed and its task removed |
| OutboundWorker.NoErrorsIff | automation/device/outbound_worker.py:154-186 | the worker reports no error exactly for the jobs that meet all its demands |
| OutboundWorker.GenuineJobAccepted | automation/device/outbound_worker.py:154-186 | a controller's job is accepted exactly by its target with the right secret and commit, before expiry, with a nonce outside the window |
| OutboundWorker.WindowHoldsLargest | automation/device/outbound_worker.py:142-152 | after any history the persisted list is the sorted list of the 4096 largest nonces ever remembered |
| OutboundWorker.Readmitted | automation/device/outbound_worker.py:148-152 | a remembered nonce is admitted again exactly when at least 4096 larger nonces have been remembered |
| OutboundWorker.Worker.RememberNonce | automation/device/outbound_worker.py:148-152 | one more nonce keeps the file equal to the window over the whole history |
| OutboundWorker.Worker.AppendJournal | automation/device/outbound_worker.py:111-122 | an append extends the journal by one linked entry and keeps the whole chain checking |
| OutboundWorker.Worker.ExecuteJob | automation/device/outbound_worker.py:188-228 | a rejected job leaves the nonce file alone and is journalled as rejected; an accepted one is remembered, journalled as completed and yields exactly the record of task, capability, device, commit, status, output, time and previous evidence, signed; the chain keeps checking |
| OutboundProtocol.OutstandingDrop | automation/controller/outbound_queue.py:131-135 | popping expired heads removes from the outstanding list exactly the popped tasks, all of them expired |
| OutboundSafety.NonceNeverConsumedTwice | automation/controller/outbound_queue.py:163-165 | the nonce-already-consumed branch is unreachable |
| OutboundSafety.DeliveredJobIsGenuine | automation/device/outbound_worker.py:154-188 | whatever the network delivers, a job that passes validation is an enqueued job for that device |
| OutboundSafety.AcceptedResultIsGenuine | automation/controller/outbound_queue.py:139-169 | whatever the network delivers, an accepted result was signed after an execution |
| OutboundSafety.StepKeeps | automation/controller/outbound_queue.py:62-169 | every step of every party keeps the protocol invariant |
| OutboundSafety.ReachableInv | automation/device/outbound_worker.py:125-228 | the invariant holds in every world that a run of any length reaches |
| OutboundSafety.AtMostOnce | automation/device/outbound_worker.py:170-192 | in every run a job is never executed by another device, and at most once by its own while the replay window has not overflowed |
| OutboundSafety.ExecutedAsRequested | automation/controller/outbound_queue.py:97-125 | in every run, whatever a device executes was asked for at the controller: for that device, with that capability and those parameters, under that task id, nonce and expiry |
| OutboundSafety.AcknowledgedOnce | automation/controller/outbound_queue.py:139-169 | every acknowledged result stems from an execution of that task by its target with its capability and commit, and from exactly one inside the window |
| OutboundSafety.QueueBookkeeping | automation/controller/outbound_queue.py:97-169 | each enqueued job is in exactly one of outstanding, acknowledged, dropped; queues keep enqueue order; consumed nonces are those of acknowledged tasks |
| OutboundSafety.PollDropsOnlyExpired | automation/controller/outbound_queue.py:127-137 | a poll drops only expired jobs of that device and offers the oldest outstanding one, which is unexpired |
| OutboundSafety.ReplayAcceptedIff | automation/device/outbound_worker.py:170-174 | replaying an unexpired remembered job succeeds exactly when 4096 larger nonces were remembered since |
| OutboundReplay.ExecutedTwice | automation/device/outbound_worker.py:142-192 | for every choice of credentials and every token below the 4096 largest, a reachable world with token nonces and task ids only, in which a device has executed the job of that nonce twice |
| OutboundReplay.HighNonceOnce | automation/device/outbound_worker.py:142-192 | in every run with token nonces only, a job whose nonce is one of the 4096 largest tokens is executed at most once |
| OutboundReplay.TwiceIff | automation/controller/outbound_queue.py:110-124 | over all runs with token nonces and task ids, a job can be executed twice exactly when its nonce is below the 4096 largest tokens |
| OutboundTokens.FewAbove | automation/controller/outbound_queue.py:113-120 | among drawn tokens fewer than 4096 are above one of the 4096 largest |
| OutboundSafety.AcceptIff | automation/controller/outbound_queue.py:139-169 | in every run a result is newly acknowledged exactly when it names one outstanding job with its device, capability and commit, signed by that device |
| OutboundSafety.ExecutionAcknowledged | automation/device/outbound_worker.py:216-228 | round trip: what a device signs after running an outstanding job is acknowledged for exactly that job |
| OutboundSafety.FreshJobAcceptedUntilExpiry | automation/controller/outbound_queue.py:110-124 | a fresh job is accepted by its device at every moment before its time to live is over and at none after; the time to live is at most an hour |
| OutboundSafety.IdentityNeverChanges | automation/controller/outbound_queue.py:86-94 | once registered, a device keeps commit, credential and enrolment through every step |
| TaskDaemon.Database.RecoverLeases | termux/centinal26_daemon.py:212-218 | row by row: a running row with an expired lease becomes RETRY_WAIT without owner or lease and keeps the rest, every other row is untouched, no row comes or goes |
| TaskDaemon.Database.Claim | termux/centinal26_daemon.py:221-245 | the oldest row that is queued or waits for a retry and whose time has come is leased for 300 seconds and counted; None exactly when the time of no such row has come, and then nothing changes |
| TaskDaemon.Database.ExecuteOne | termux/centinal26_daemon.py:248-295 | without interference, field by field the evidence and the final row for an unregistered capability, a verdict and a caught exception, with backoffs of 20, 40 and 80 seconds plus jitter after the first three attempts; no other row changes |
| TaskRuns.StepInv | termux/centinal26_daemon.py:212-295 | every statement of every worker keeps the invariant: leases, recorded verdicts, distinct claims |
| TaskRuns.LeasesAndVerdicts | termux/centinal26_daemon.py:229-275 | in every interleaving RUNNING carries a lease and VERIFIED has a recorded PASS verification |
| TaskRuns.AttemptsBounded | termux/centinal26_daemon.py:212-295 | in every interleaving, late finishes included, attempts never exceed four plus the number of moments at which that task's expired lease was reset |
| TaskRuns.BackoffWindow | termux/centinal26_daemon.py:277-281 | the backoff after count c lies in [5*2^(c+1), 5*2^(c+1)+7]; the windows strictly increase and the 900 second cap is never reached |
| TaskRuns.ErrorSchedule | termux/centinal26_daemon.py:276-295 | a caught exception schedules a retry exactly for counts one to three, inside that count's window |
| TaskRuns.BackoffWaited | termux/centinal26_daemon.py:221-295 | in every interleaving, after a worker that read count c noted an exception and wrote the retry, the next claim of the task comes at least 20, 40 or 80 seconds after that exception |
| TaskRuns.ClaimsSeparated | termux/centinal26_daemon.py:212-245 | between any two claims of one task lies a recovery of its expired lease or a finishing write |
| TaskRuns.CurrentIffNotRecovered | termux/centinal26_daemon.py:212-275 | until someone finishes this task late, a worker's claim on it is current exactly when its lease has not been recovered, whatever happens to other tasks |
| TaskReopening.TerminalLeftIff | termux/centinal26_daemon.py:212-295 | in any state of the system, some continuation takes a decided task to another state exactly when a worker holds it at a point from which it may still write another state |
| TaskReopening.UnheldAbsorbing | termux/centinal26_daemon.py:212-295 | a decided task that no worker holds keeps its row and stays unheld in every continuation |
| TaskRuns.TerminalAbsorbing | termux/centinal26_daemon.py:272-295 | in every multi-worker run without a late finish of the task itself, VERIFIED and FAILED are absorbing for it |
| TaskRuns.SingleWorkerAbsorbing | termux/centinal26_daemon.py:313-327 | with one worker, crashed and restarted at will, VERIFIED and FAILED are absorbing |
| TaskRuns.LateFinishReopens | termux/centinal26_daemon.py:272-295 | a concrete two-worker run in which a late finish reopens a verified task |
| HashChain.AppendLinked | automation/persistent/kernel.py:93-113 | an appended log checks exactly when the log it extends checks |
| HashChain.EntryLinked | automation/persistent/kernel.py:93-113 | a log with one more entry, whatever its link, checks exactly when the log checked and the link is its head |
| HashChain.AppendAllLinked | automation/persistent/kernel.py:93-113 | any number of appends keeps a chain checking and records the bodies in order after what was there |
| HashChain.SameHeadSameLog | automation/persistent/kernel.py:192-205 | two logs that check and share their head hash are equal entry by entry |
| PersistentKernel.Kernel.AppendEvent | automation/persistent/kernel.py:93-113 | the event is appended with the link to the previous head, and its hash is the new head |
| PersistentKernel.Kernel.Commit | automation/persistent/kernel.py:115-182 | field by field, the ledger line, the state, its digest and the marker, which is there exactly when each of the ten checks is given and true and the policy allows; what is on disk before the first write and after each one is the sequence of states a crash can leave |
| PersistentKernel.Kernel.VerifyLines | automation/persistent/kernel.py:192-205 | one pass carrying the previous hash reports exactly the broken links and hashes |
| PersistentKernel.Kernel.Verify | automation/persistent/kernel.py:184-215 | the reported problems are the specified ones, in order; ReportedIff and LinesReported say what each of them means |
| PersistentKernel.ReportedIff | automation/persistent/kernel.py:184-215 | each report is made exactly when it is true of the files: the flag against the eleven stored checks by name, the marker against the flag, the policy verdict, the digest and the head |
| PersistentKernel.LinesReported | automation/persistent/kernel.py:192-205 | the chain and the hash of a line are reported exactly when that line's link or hash is wrong |
| PersistentKernel.LedgerCleanIffLinked | automation/persistent/kernel.py:192-205 | the ledger part of verify is clean exactly when the whole chain checks |
| PersistentKernel.WritesKeepInv | automation/persistent/kernel.py:115-182 | a commit stopped after any number of writes keeps the invariant of the files |
| PersistentKernel.CompletedCommitVerifies | automation/persistent/kernel.py:115-215 | from any state left by completed and interrupted commits, one completed commit verifies clean |
| PersistentKernel.GoalIff | automation/persistent/kernel.py:115-182 | after any run, a completed commit reaches the goal, in flag, status and marker alike, exactly when each of the ten checks is given and true and the policy allows the release |
| PersistentKernel.StaleReported | automation/persistent/kernel.py:187-207 | a stale sidecar and a stale ledger head are each reported exactly when they are there |
| PersistentKernel.CrashReported | automation/persistent/kernel.py:145-215 | a crash between ledger append and sidecar write is always reported; after the sidecar write exactly when marker and goal flag differ |
| PersistentKernel.CleanIff | automation/persistent/kernel.py:115-215 | after an attempt that wrote anything, verify is clean exactly when it completed or missed only a marker write that changes nothing |
| PersistentKernel.HarmlessCrashUnnoticed | automation/persistent/kernel.py:115-215 | whatever ids and clock readings, a first commit that stops before the marker write without having reached the goal verifies clean |
| PersistentKernel.StaleMarkerUnnoticed | automation/persistent/kernel.py:115-215 | whatever ids and clock readings, a commit for a second release that stops before the marker write verifies clean and leaves the marker of the first |
| PersistentKernel.NeverCommitted | automation/persistent/kernel.py:76-215 | the default state is reported for its missing goal flag |
| PersistentKernel.MetricsConsistent | automation/persistent/kernel.py:120-176 | in every run the written state agrees with its own goal flag and never counts more cycles than ledger lines |
| PersistentKernel.MetricsCount | automation/persistent/kernel.py:122-137 | in every run cycles count states written, recoveries those so described, demotions exactly the times the goal was lost |
| PersistentKernel.StatePinsLedger | automation/persistent/kernel.py:192-206 | two clean kernels with the same state file have the same ledger |
| ModuleManager.DryRunIff | deploy/automation_os/module_manager.py:120-151 | a dry run succeeds exactly when no cycle is reachable and every reachable module is known, comes from a pinned Git blob, and needs Termux only on Termux |
| ModuleManager.DryRunCycleIsReal | deploy/automation_os/module_manager.py:128-129 | the path of a cycle error is a dependency walk that contains a real cycle |
| ModuleManager.DryRunPlan | deploy/automation_os/module_manager.py:120-151 | the plan names the module, its cache file and one plan for each dependency, in order |
| ModuleManager.DryRunExplained | deploy/automation_os/module_manager.py:120-151 | every error of a dry run is about something reachable that is really so |
| ModuleManager.ReachableSucceeded | deploy/automation_os/module_manager.py:135-143 | if dependencies come first in the history and a module succeeded, everything reachable from it succeeded |
| ModuleManager.Installer.Download | deploy/automation_os/module_manager.py:60-86 | for every answer of the network: refused, failed, rejected for its digest, or stored under the module's cache name |
| ModuleManager.Installer.FetchAndRun | deploy/automation_os/module_manager.py:153-202 | for every answer of network, parser and script, what the attempt ends in, records and starts |
| ModuleManager.Installer.InstallSelf | deploy/automation_os/module_manager.py:153-202 | skip, success and each failure: the record and the history entry written, nothing else, and nothing intact is lost |
| ModuleManager.Installer.InstallDependencies | deploy/automation_os/module_manager.py:135-143 | the loop leaves every dependency clean on top of the stack, succeeded and installed, and starts and reports only what is justified |
| ModuleManager.Installer.Install | deploy/automation_os/module_manager.py:120-202 | a normal return means reachable modules are known, fit for the host, acyclic, in history after their dependencies, and installed at their pinned blobs; every error is about something reachable that is really so; and whatever the outcome, only fitting modules below this one were ever started, only when executing, and only with the pinned digest |
| ModuleManager.Installer.InstallProfile | deploy/automation_os/module_manager.py:205-223 | every name of the profile and everything below it is known, fit for the host and installed, and a verified state stays verified; errors and started scripts are justified by one of the names |
| ModuleManager.Installer.VerifyState | deploy/automation_os/module_manager.py:226-256 | ok exactly when every record is of a registered module from a Git blob, marked installed, and its file there with the pinned digest |
| FederationCycle.CycleFinder.Visit | automation/federation/project_federation.py:59-74 | either the node and everything below it is finished, or a genuine cycle is returned |
| FederationCycle.CycleFinder.VisitDependencies | automation/federation/project_federation.py:67-70 | all dependencies of the node are finished with the path restored, or a genuine cycle is returned |
| FederationCycle.DependencyCycle | automation/federation/project_federation.py:55-80 | None exactly for graphs without a closed walk, otherwise a closed walk with distinct nodes |
| Graph.TopologicalAcyclic | automation/federation/project_federation.py:71-74 | finishing order rules out every closed walk |
| FederationRegistry.OneOwnerIff | automation/federation/project_federation.py:181-191 | the owner list of a goal has length one exactly when one project lists it |
| FederationRegistry.AddGoals | automation/federation/project_federation.py:187-191 | the loop over a project's goals extends the owner lists by exactly that project |
| FederationRegistry.AddLabels | automation/federation/project_federation.py:193-203 | the loop over a project's labels extends the label owners and reports exactly the invalid labels |
| FederationRegistry.CanonicalOwners | automation/federation/project_federation.py:250-256 | the reported pairs are the ledger goals with a sole owner, in increasing order |
| FederationRegistry.ValidateRegistry | automation/federation/project_federation.py:83-263 | on registries of the right JSON types, clean exactly for the right header, unique ids, the required projects, components and invariants, known owners and components, known acyclic dependencies, unambiguous labels and one owner per goal of a readable ledger; the owners then assign every goal |
| FederationRegistry.KnownAre | automation/federation/project_federation.py:102-123 | the ids that may be referred to are the non-empty ids of the listed projects and components |
| FederationRegistry.GraphLists | automation/federation/project_federation.py:160-164 | with distinct ids the dependency graph is what the projects list |
| TaintClosure.Taint | automation/mistake_prevention_v2/mistake_prevention_v2.py:68-77 | the result is sorted and is the least set that contains the roots and is closed under the five derivation predicates |
| TaintClosure.TaintUnique | automation/mistake_prevention_v2/mistake_prevention_v2.py:68-77 | there is only one such set |
| TaintClosure.BuildAdjacency | automation/mistake_prevention_v2/mistake_prevention_v2.py:69-71 | the adjacency lists hold exactly the derivation edges |
| TaintClosure.Expand | automation/mistake_prevention_v2/mistake_prevention_v2.py:74-76 | every unseen target is marked and enqueued, and nothing else |
| CanonicalBundle.ValidateObjects | scripts/validate_canonical_kernel.py:39-92 | no object error exactly when every object is fine alone and agrees in hash with every other of its id |
| CanonicalBundle.ValidHashIff | scripts/validate_canonical_kernel.py:17-50 | a content hash is the prefix, sixty-four small hexadecimal digits, and possibly one line feed |
| CanonicalBundle.ValidateEvents | scripts/validate_canonical_kernel.py:94-117 | no event error exactly when events are complete, distinct and refer to known objects |
| CanonicalBundle.ValidateProvenance | scripts/validate_canonical_kernel.py:119-125 | no provenance error exactly when every listed event exists and names the object as output |
| CanonicalBundle.ValidateDecisions | scripts/validate_canonical_kernel.py:127-143 | no decision error exactly when every decision is legal and refers to a known object |
| CanonicalBundle.ValidateBundle | scripts/validate_canonical_kernel.py:26-145 | the validator reports nothing exactly for the bundles that satisfy the declarative rules |
| StructuredDedupe.SortByIdSorts | scripts/structured_semantic_dedupe.py:197-198 | sorting members by id orders them and keeps exactly the given ones |
| StructuredDedupe.SortUnique | scripts/structured_semantic_dedupe.py:197-198 | with distinct ids the sorted list depends only on which objects there are |
| DedupeDerivation.DuplicateIff | scripts/structured_semantic_dedupe.py:174-232 | two ids share a duplicate group exactly when objects of those ids are claims whose subject lists have the same strings and whose predicate and value fields are equal; an id is in a group exactly when a claim of it is made again, repeated ids included |
| DedupeDerivation.AgreeRead | scripts/structured_semantic_dedupe.py:42-59 | the claim fields of two objects are equal exactly when their payloads are claims with the same set of subjects, predicate and value |
| DedupeDerivation.DuplicateCandidateMembers | scripts/structured_semantic_dedupe.py:194-232 | a key yields a group exactly when two members share it, and object and event then name exactly its sorted members |
| DedupeDerivation.ContradictionCandidateIff | scripts/structured_semantic_dedupe.py:234-280 | a context yields a contradiction exactly when two exclusive claims there differ in value, and it then names exactly the claims of that context |
| DedupeDerivation.ContradictionIff | scripts/structured_semantic_dedupe.py:188-280 | a contradiction is derived for a context exactly when two exclusive claims with exactly those subjects and that predicate have different value fields, and its members are exactly such claims |
| DedupeContent.DuplicateContent | scripts/structured_semantic_dedupe.py:81-232 | every derived group says, field by field, what the claim is, who makes it, since when, and in which projects |
| DedupeContent.ContradictionContent | scripts/structured_semantic_dedupe.py:81-280 | every derived contradiction says, field by field, which context it is about, who speaks in it and all the values claimed, and chooses no winner |
| DedupeContent.DuplicateNamed | scripts/structured_semantic_dedupe.py:194-201 | the id of a group is the digest of its claim and its members |
| DedupeContent.ContradictionNamed | scripts/structured_semantic_dedupe.py:234-249 | the id of a contradiction is the digest of its context and its members |
| DedupeContent.CandidatesEnveloped | scripts/structured_semantic_dedupe.py:81-148 | every derived object and event carries the fixed envelope: hashes, relatives, scope and rule |
| DedupeDerivation.DerivationOrderFree | scripts/structured_semantic_dedupe.py:163-280 | with distinct object ids, permuting the bundle's objects changes nothing that is derived |
| DedupeEnrichment.AppendAllIff | scripts/structured_semantic_dedupe.py:151-160 | appending derived items succeeds exactly when no id resolves to other content |
| DedupeEnrichment.EnrichIff | scripts/structured_semantic_dedupe.py:163-285 | enriching succeeds exactly for valid bundles without an id clash; the result is valid, keeps every original, adds only derived objects and events and holds all of them, so the final check never fires |
| DedupeClash.ValidButClashes | scripts/structured_semantic_dedupe.py:151-285 | a valid bundle of two equal claims and an object under the derived id cannot be enriched |
| DedupeEnrichment.FreshIdsDoNotClash | scripts/structured_semantic_dedupe.py:151-285 | without digest collisions among the bundle's keys, and with derived ids unused, nothing clashes |
| DedupeEnrichment.EnrichIdempotent | scripts/structured_semantic_dedupe.py:163-285 | enriching an enriched bundle changes nothing |
| DedupeEnrichment.Group | scripts/structured_semantic_dedupe.py:181-192 | the grouping dictionary holds, for every key, its members in bundle order |
| DedupeEnrichment.Derive | scripts/structured_semantic_dedupe.py:194-280 | the loop over sorted groups yields one candidate per qualifying group, in key order |
| DedupeEnrichment.AppendCandidates | scripts/structured_semantic_dedupe.py:151-160 | the append loop computes the specified list or fails at the first clash |
| DedupeEnrichment.EnrichBundle | scripts/structured_semantic_dedupe.py:163-285 | the imperative derivation computes exactly the specified enrichment, whose groups and contradictions are those of DuplicateIff and ContradictionIff |
| CanonicalStore.InsertAllIff | scripts/canonical_store.py:145-234 | a batch goes in exactly when no row contradicts the table or another row, and then the table only grows by it |
| CanonicalStore.InsertCommutes | scripts/canonical_store.py:145-234 | two batches accepted in one order are accepted in the other with the same table |
| CanonicalStore.IngestIff | scripts/canonical_store.py:120-143 | ingest succeeds exactly for valid bundles that contradict no stored row, adds exactly the bundle's rows, and no foreign key can fail |
| CanonicalStore.IngestedRows | scripts/canonical_store.py:120-234 | row by row: what a successful ingest adds under which id, one link for every provenance id an object lists, and nothing else |
| CanonicalStore.ReingestNothing | scripts/canonical_store.py:120-143 | ingesting a bundle again changes nothing and counts zero |
| CanonicalStore.IngestConfluent | scripts/canonical_store.py:120-143 | if A then B succeeds, then B then A succeeds with the same tables |
| CanonicalStore.StoredIffIngested | scripts/canonical_store.py:120-261 | after any history of accepted and refused ingests an object is stored exactly when it was there before or an accepted bundle held it |
| CanonicalStore.InsertRows | scripts/canonical_store.py:145-234 | the loop over rows computes the specified table and counts exactly the new rows |
| CanonicalStore.InsertBundle | scripts/canonical_store.py:126-143 | the body of the transaction computes the specified outcome and counts |
| CanonicalStore.Store.IngestBundle | scripts/canonical_store.py:120-143 | all or nothing: every row of the bundle is in, or the tables are as before; the store stays the outcome of its history |
| CanonicalStore.Store.RebuildProjection | scripts/canonical_store.py:236-255 | the projection has a row for every canonical object and no other, with its type, states and payload, never authoritative |
| CanonicalStore.Store.GetObject | scripts/canonical_store.py:257-261 | what is read back under an id is exactly the object that some accepted bundle of the store's whole history brought in under it |
| ContextBuilder.SizeStrictlyGrows | scripts/controlled_evolution_hard.py:83-93 | the encoded size grows strictly with every character, the change of the truncation flag included |
| ContextBuilder.LongestUnique | scripts/controlled_evolution_hard.py:129-145 | the linear search's answer is the only one with its defining property |
| ContextBuilder.SearchPrefix | scripts/controlled_evolution_hard.py:129-143 | the binary search returns what the linear search returns: the longest fitting prefix |
| ContextBuilder.Truncate | scripts/controlled_evolution_hard.py:129-146 | the file that does not fit contributes its longest non-empty fitting prefix or nothing |
| ContextBuilder.BuildContext | scripts/controlled_evolution_hard.py:96-150 | the context fits its budget, its files are whole and in order except a last one cut to its longest fitting prefix; it fails exactly for an envelope over budget and exactly when nothing of the first readable file fits |
| ContextBuilder.BuildUntrustedContext | scripts/controlled_evolution_hard.py:83-150 | the text handed out is the repository's own envelope around such a context, and its UTF-8 size is within the budget |
| ContextReading.SizeIsEncoded | scripts/controlled_evolution_hard.py:92-93 | the size that is compared with the budget is the number of bytes of the UTF-8 encoding |
| ContextReading.DecodesBack | scripts/controlled_evolution_hard.py:92-93 | that encoding decodes to the character, with nothing left over |
| ContextReading.EscapedReadsBack | scripts/controlled_evolution_hard.py:83-89 | reading an escaped string stops exactly at the quote that closes it and gives the string back, whatever is in it |
| ContextReading.ContextReadsBack | scripts/controlled_evolution_hard.py:83-89 | reading a serialised context gives back exactly the files it was built from: no content, path or digest can add, drop or change an entry |
| ClockSums.CompressionExact | candidates/clock-regulator-harness/clock_regulator_scan.py:88-100 | for every grid and every function of the index difference, the double sum is the sum over differences weighted by multiplicity |
| ClockSums.RelationalNorms | candidates/clock-regulator-harness/clock_regulator_scan.py:168-187 | the loop accumulates the four specified norms |
| ClockSums.BlockCompressed | candidates/clock-regulator-harness/clock_regulator_scan.py:173-187 | one block of the dense matrix is its matter weight times the compressed sum |
| ClockSums.DenseByLevel | candidates/clock-regulator-harness/clock_regulator_scan.py:272-297 | the dense Frobenius sum over the flattened index, regrouped by matter transition |
| ClockSums.CompressedEqualsDense | candidates/clock-regulator-harness/clock_regulator_scan.py:257-330 | each compressed norm over the nonzero transitions is the squared Frobenius norm of its explicit complex matrix, left minus right of the intertwining and left alone included, up to the squared normalisation of the clock effect |
| ClockSums.RatiosAgree | candidates/clock-regulator-harness/clock_regulator_scan.py:168-330 | the normalisation cancels: for any two norms the explicit and the compressed ratio are equal |
| ClockSums.IntertwiningRatio | candidates/clock-regulator-harness/clock_regulator_scan.py:193-330 | the explicit ratio of left minus right over left equals the compressed ratio of intertwining over filtered, which is what is reported |
| ClockEntries.PhaseFactor | candidates/clock-regulator-harness/clock_regulator_scan.py:180-330 | the squared distance between the flowed readout's phase and the shifted clock's is 4 sin^2 of half the shift times the total frequency, for a clock of period 2 pi over the grid step |
| ClockEntries.EntrySquared | candidates/clock-regulator-harness/clock_regulator_scan.py:168-330 | for each norm the squared magnitude of the explicit complex entry is its matter weight times the compressed entry, times the squared normalisation |
| ReviewGate.IdentityConflicts | scripts/agent_fleet_review_gate.py:176-189 | the reported branches are exactly those with disagreeing rows |
| ReviewGate.EligibleIff | scripts/agent_fleet_review_gate.py:218-261 | a row is eligible for deep review exactly when every gate is open |
| ReviewDecisions.DecisionIff | scripts/agent_fleet_review_gate.py:196-261 | each of the twelve decisions is taken exactly when its own condition holds of the snapshot and the live state |
| ReviewDecisions.RoutedFields | scripts/agent_fleet_review_gate.py:196-277 | apart from the decision, a routed row repeats what it was decided on |
| ReviewDecisions.ShaIff | scripts/agent_fleet_review_gate.py:44-46 | a text is a sha exactly when, white space around it apart, it is forty hexadecimal digits, and stands for them in small letters |
| ReviewDecisions.CountIs | scripts/agent_fleet_review_gate.py:291-306 | the count of a decision is the number of rows routed to it |
| ReviewGate.Revalidate | scripts/agent_fleet_review_gate.py:346-373 | no mismatch exactly for canonical observations with the same main, branches, heads and review states |
| ReviewGate.RoutesAlikeIff | scripts/agent_fleet_review_gate.py:196-343 | canonical observations route every snapshot alike exactly when routing sees the same in both |
| ReviewGate.MatchIsCongruence | scripts/agent_fleet_review_gate.py:280-373 | matching observations yield identical rows for every snapshot and relevance map; over the same branches the converse holds too |
| ReviewGate.SameCounts | scripts/agent_fleet_review_gate.py:291-306 | and identical counts of every decision |
| ReviewGate.MatchIsPartialEquivalence | scripts/agent_fleet_review_gate.py:346-373 | matching is symmetric and transitive, and reflexive exactly on canonical observations |
| GrantBridge.Bridge.Audit | deploy/hermes-c05/hermes_c05_bridge.py:83-101 | undisturbed between reading the last hash and appending, an audit entry extends the chain and keeps it checking |
| GrantBridge.Bridge.AppendEntry | deploy/hermes-c05/hermes_c05_bridge.py:91-101 | whatever hash was read before, the file checks after the append exactly when it checked and that hash is still the last |
| GrantBridge.Bridge.Issue | deploy/hermes-c05/hermes_c05_bridge.py:157-182 | for 30 seconds to an hour and a known capability a grant is stored, unused and expiring then, and audited; anything else is refused without any change |
| GrantBridge.Bridge.Consume | deploy/hermes-c05/hermes_c05_bridge.py:185-208 | exactly an existing grant of that capability, unused and unexpired, is used up and audited; every other request changes nothing |
| GrantBridge.IssuedThenConsumed | deploy/hermes-c05/hermes_c05_bridge.py:157-208 | round trip: an issued grant is accepted for its capability at every moment before it expires and at none after, once, and for no other capability |
| GrantBridge.Bridge.ExecuteLocal | deploy/hermes-c05/hermes_c05_bridge.py:218-251 | what is not automatic is submitted only with approval and a grant used up for it; submissions stay covered by used grants |
| GrantBridge.VerifyAudit | deploy/hermes-c05/hermes_c05_bridge.py:104-116 | the audit is accepted exactly when every link and hash checks |
| GrantRuns.SubmissionsBounded | deploy/hermes-c05/hermes_c05_bridge.py:185-251 | in every interleaving, submissions of a non-automatic capability never exceed its recorded uses, nor those its used grants, each used once and before its expiry |
| GrantRuns.AuditIntactIff | deploy/hermes-c05/hermes_c05_bridge.py:83-116 | in every interleaving the audit file checks exactly when no entry was appended between another entry's read of the last hash and its append |
| GrantRuns.ChainBreaks | deploy/hermes-c05/hermes_c05_bridge.py:83-116 | a run of two processes that issue, read and append leaves an audit file that does not check |

## Left out

- HTTP transport, GitHub and subprocess clients, argument parsing, file modes and directory layout: I/O.
- Concrete SHA-256, HMAC and JSON text, except the text of a context, its string escapes and its UTF-8 length.
- Liveness of the outbound protocol: a lost result is never sent again; the retry is refused as a replay and the job leaves by expiry.
- Timestamps and signatures are terms of their own and never equal to an ordinary string, so a string that happens to spell one is not modelled.
- `str.lower` and `str.strip` are modelled on ASCII text.
- Enqueueing a task goes by the table's schema (fresh id, unique idempotency key): the INSERT of termux/centinal26ctl.py names ten columns and gives eleven values.
- TaskRuns.ErrorSchedule: speaks of the attempt count the worker read, because the row is read back after the claim commits and may be newer than the claim.
- Handler payloads, health records and `updated_at` of the task daemon.
- A ledger or audit line is written whole or not at all; partial lines are not modelled.
- The body of the security policy: `allowed` is an arbitrary input of a commit.
- Stage-only installs overwrite INSTALLED records, so what `Install` says about installed modules is about runs with execute, under distinct cache names.
- ModuleManager.Installer.Install: what it says about installed modules supposes distinct cache file names and records that name the module's own cache file.
- FederationRegistry.ValidateRegistry: lists and objects of the wrong JSON type are not modelled (an item that is no object counts as one without an id), and of a ledger only the string ids.
- Bundles whose top-level members are not lists; a list item that is no object counts as one without an id.
- Error message texts, and which of several refusals an ingest reports.
- Confidence values, JSON fields that no rule looks at (kept as one opaque value), and the LIKE search over the projection.
- ClockSums.CompressedEqualsDense: exp, cos and sin are any real functions with the usual identities, the eigendecomposition gives arbitrary energies and matrix elements, the threshold on elements is exact nonzero, and rounding and underflow are not modelled.
- Reading and decoding the context's files: a source is either text or skipped.
- Collection of live state from GitHub; the remaining normalised fields of a pull request are one opaque value.
- Request envelopes, connected staging and call records of the Hermes bridge, and what the local engine does with a submitted job.
