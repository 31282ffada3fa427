# Verified model of the deployment queue and the version lifecycle

The backend keeps a durable job queue in its `deployments` table. API calls insert, retry and roll back rows; any number
of worker processes claim and execute them in several commits each; a reaper recovers rows whose worker died. The queue
is coupled to a second state machine, the lifecycle of model versions, by an eligibility gate that is checked when a
deployment is requested and again when a worker picks it up. This project models both machines and proves what they
guarantee together. A second, independent part covers the unique slugs given to models.

## How the model is built

- **Values** (`Lifecycle`, `DeploymentPolicy`, `Versions`, `Deployments`, `Tables`): stages, versions, rows and tables as
  values, one function per committed update, and the invariants of one row, one version and one table.
- **Programs** (`Store`, `Queue`, `DeploymentService`, `Executor`, `Runner`, `ModelService`): the ORM objects as classes
  with mutable fields, and the service and worker functions as methods that assign those fields. Each method is proved
  to turn the table into what the value functions say. `Database.commits` records the deployments table after every
  commit to it, so for the methods of `Queue`, `DeploymentService`, `Executor` and `Runner` the number, order and content
  of these commits is part of the contract; the registry methods of `ModelService` leave that table alone and are stated
  by the registry tables they leave. A database object owns the two uniqueness constraints of deployments (`Valid`);
  every method keeps them.
- **Protocol** (`Protocol`, `Invariants`): the shared tables, all workers, API calls in progress and the clock as one
  transition system. A step is one committed transaction, or one read whose result a later commit uses. The claim is
  split into lock and commit, the request into lookup and insert, the rollback into target selection and commit, the
  creation of models and versions into check and insert, the executor at each commit and at its read of the version.
  Workers and API calls may vanish between any two steps. Retry, reap, approve and transition are single steps;
  `Atomicity` says exactly when a late commit of theirs would still leave a legal row or version.
- **Effects of single steps** (`Effects`): when each step takes effect, and what it writes into every column of every row,
  stated without the update functions, so that these are checked against a second description.
- **Theorems over whole runs**: `Provenance` (every row, version and trail entry goes back to a call that asked for it),
  `Execution`, `Rollbacks`, `Governance`, `Idempotency`, `Timelines`, `Selections`,
  `Waiting`, `FiniteRuns`, `Recovery`, `Draining`, `Lease`. `Witness` derives concrete reachable states: a success, both
  refusals by the index, a refusal of the empty key, an overtaking claim, a harmful late retry, and a double execution
  after an overrun lease.
- **Slugs**: `Text` (normalisation) and `ModelService` (the probe loop).

Statements about reachable states start from the empty store (`Protocol.INIT`). Statements from a state that satisfies
`Inv` apply to every reachable state by `Invariants.ReachableInv`.

## Assumptions

- **Lease.** Executor writes are not fenced by the worker id, so the clock may not pass `locked_at + 120 s` of a row while
  its worker is alive (`Protocol.LeaseHolds`, a guard of the `Tick` step). `Lease.ReapSafeIffLease` shows that a reap leaves
  every live executor its row exactly if the assumption holds at that time. Without it, exclusive execution can always be
  lost (`Lease.OverrunAlwaysBreaks`): by other workers alone exactly below the attempt limit (`Lease.OverrunBreaksExclusion`),
  at the limit after one retry; and there the overrun worker's last commit corrupts the history
  (`Lease.LateFinishBreaksTimeline`).
- **Ids.** Keys are ordered numbers and an insert takes any unused one. Only `Waiting.OlderRowsFixed` needs later ids to be
  larger, as UUIDv7 (section 5.7 of RFC 9562) provides.
- **Database.** Commits are atomic; the unique in-flight index, idempotency key, model key and (model, version) are enforced
  at the inserts, and the index at the retry commit too; a claim's row lock is skipped by other claims.
- **Clock and id generator** are parameters of the methods; one clock is shared by all processes.

## Where code and documentation differ

- `docs/architecture-questions.md:107-109` describes a rollback as a new superseding deployment. The code rewrites the
  rolled-back row (`deployment_service.py:191-192`); the model follows the code.
- The docstring of `claim_one` (`queue.py:53`) says it claims the oldest requested deployment. With `SKIP LOCKED` that holds
  exactly when the oldest row is not being claimed by someone else at that moment: `Waiting.OldestIffUnlocked`,
  `Waiting.SkipLockedOvertakes`, and `Witness.OvertakingIsReachable` for a state in which it fails. So newer rows overtake
  a queued one at most once per lock they held already or took while it was locked (`Waiting.NewerClaims`), and older rows
  come before it within their attempts (`Waiting.OlderClaims`).
- An empty idempotency key is stored and unique but never replayed (`deployment_service.py:87`), so a second request with
  it is refused: `Idempotency.EmptyKeyIsRefused`, and `Witness.EmptyKeyRefusalIsReachable` for a state in which it is.

## Model

| member | source | states |
|---|---|---|
| Lifecycle.CanTransition | backend/app/services/lifecycle.py:14-28 | a move is allowed exactly if it is one promotion up the order, or retirement of a version not yet archived |
| Lifecycle.ValidateTransition | backend/app/services/lifecycle.py:31-42 | succeeds exactly for a promotion with the approval it needs or a retirement; reports missing approval exactly when nothing else is wrong |
| DeploymentPolicy.IsDeployable | backend/app/services/deployment_policy.py:9-17 | eligibility is a threshold on the promotion order and never includes archived versions |
| Versions.TrailShape | backend/app/services/lifecycle.py:10-21 | a legal trail is a prefix of the promotion order, possibly cut short by one final retirement |
| Versions.ApproveOk | backend/app/services/model_service.py:208-223 | approval succeeds exactly from VALIDATED, keeps the trail legal and records the actor as approver |
| Versions.TransitionOk | backend/app/services/model_service.py:226-243 | the generic transition succeeds exactly for the next promotion other than APPROVED, or retirement, and leaves approval untouched |
| Versions.TransitionNeverApproves | backend/app/services/model_service.py:226-235 | the generic transition to APPROVED always raises, and with which error |
| Versions.NewVersionIs | backend/app/services/model_service.py:134-147 | a new version is the DRAFT of exactly this model and version string, unapproved, and its trail names its creator |
| Versions.MoveRecordsCaller | backend/app/services/model_service.py:208-235 | a successful approval or transition appends exactly one event, from the old stage to the new one in the caller's name; only an approval sets approver and time |
| Versions.OnceDeployable | backend/app/services/deployment_policy.py:9-17 | a version that was ever eligible for an environment is eligible now or archived |
| Versions.EverDeployableApproved | backend/app/services/lifecycle.py:23-42 | eligibility outside development implies a recorded approval by the recorded approver |
| Deployments.ProcessedRowIsTheCommits | backend/app/worker/executor.py:44-73 | the executor's separate commits, uninterrupted, add up to an outcome stated on its own |
| Deployments.ReapRowOk | backend/app/worker/queue.py:95-104 | reaping keeps bookkeeping, attempt accounting and timeline in any held status, the claim window included, and requeues exactly below the attempt limit |
| Deployments.RollbackRowOk | backend/app/services/deployment_service.py:191-199 | rolling back a deployed row, even a second time, keeps the row's invariant |
| Tables.LookupExact | backend/app/services/deployment_service.py:87-98 | replay exactly for a stored non-empty key; otherwise not found, conflict, or admission, decided by the version and the stages its environment takes |
| Tables.InsertStoresRequest | backend/app/services/deployment_service.py:100-117 | an insert stores the row that was asked for, queued with no attempt; it conflicts exactly if another row is in flight in that place or carries that key |
| Tables.RetrySucceedsIff | backend/app/services/deployment_service.py:131-150 | a retry succeeds exactly for a FAILED row whose place is free, whatever failed it and how often; which error each refusal carries |
| Tables.GateExact | backend/app/worker/executor.py:48-54 | the worker's re-check passes exactly for an existing version in a stage the row's environment takes |
| Tables.RollbackRefusal | backend/app/services/deployment_service.py:166-189 | when a rollback is refused, and with which error |
| Tables.WriteOk | backend/app/models/deployment.py:37-71 | a rewrite that does not newly occupy the index keeps every table invariant |
| Tables.InsertOk | backend/app/services/deployment_service.py:100-118 | an insert that passes both constraints keeps every table invariant |
| Tables.ReapOk | backend/app/worker/queue.py:84-107 | the whole reap batch keeps every table invariant, the index included, without a check |
| Tables.RetryOk | backend/app/services/deployment_service.py:138-150 | a retry the index admits keeps every table invariant |
| Tables.TargetPointsBack | backend/app/services/deployment_service.py:175-189 | the rollback target is the latest earlier success of another version in the same model and environment |
| Tables.GateFailsOnlyRetired | backend/app/worker/executor.py:48-54 | in a governed table the worker's re-check fails exactly for archived versions |
| Tables.KeyIdentifies | backend/app/models/deployment.py:69-71 | a key selects exactly one row, so the lookup can never find several |
| Invariants.ExclusiveWorkers | backend/app/worker/queue.py:64-76 | live workers are at different rows: row lock, stamped worker id and status separate them |
| Invariants.SelectAdvances | backend/app/worker/queue.py:58-67 | selection with SKIP LOCKED keeps row locks exclusive and the invariant |
| Invariants.RollbackCommitAdvances | backend/app/services/deployment_service.py:191-200 | a rollback commit keeps the invariant although its target may have been rolled back since it was read |
| Invariants.ReapAdvances | backend/app/worker/queue.py:79-107 | under the lease the reaper touches no row of a live worker and keeps the invariant |
| Invariants.StepAdvances | backend/app/worker/executor.py:44-73 | every step keeps the invariant, deletes nothing, rewrites no history and undoes no deployment or retirement |
| Invariants.RunAdvances | backend/app/worker/runner.py:79-96 | the same over runs of any length |
| Invariants.ReachableInv | backend/app/worker/queue.py:1-5 | every state reachable from the empty store satisfies the invariant |
| Effects.EveryColumn | backend/app/worker/queue.py:70-104 | in every reachable state, what each step leaves in each column of each row: status, event, worker, lock time, attempts, error, rollback pointer; everything else is untouched |
| Effects.ClaimStartsLease | backend/app/worker/queue.py:70-94 | a claim stamps its worker and the time of its commit, and the reaper takes the row exactly from 120 seconds after it |
| Effects.LockTimeIsClaimTime | backend/app/worker/queue.py:70-74 | in every run, a row in execution carries the worker and the time of its last claim |
| Effects.ReaperTakesExpired | backend/app/worker/queue.py:84-94 | in every run, the reaper takes exactly the rows in execution whose last claim is more than 120 seconds old |
| Effects.RetryRequeuesIff | backend/app/services/deployment_service.py:131-150 | a retry step re-queues the row exactly if it is FAILED and its place is free, and else changes nothing |
| Effects.RequestAdmittedIff | backend/app/services/deployment_service.py:87-98 | in every reachable state, a request is admitted exactly if its non-empty key names no row and its version is eligible |
| Effects.RequestStoredIff | backend/app/services/deployment_service.py:100-117 | an admitted request is stored exactly if no other row is in flight in its place or carries its key |
| Effects.MoveTakesEffectIff | backend/app/services/model_service.py:226-235 | for which pairs of stages a transition takes effect |
| Effects.ApprovalTakesEffectIff | backend/app/services/model_service.py:208-219 | an approval takes effect exactly from VALIDATED |
| Effects.CreationStoredIff | backend/app/services/model_service.py:123-151 | when a version is admitted, and when it is stored |
| Effects.ModelStoredIff | backend/app/services/model_service.py:69-79 | a probed key is stored exactly if it fits its column and is still free |
| Effects.OthersUndisturbed | backend/app/services/deployment_service.py:76-128 | a step on one call leaves every other call in progress as it is, and only time moves the clock |
| Provenance.EveryRowWasRequested | backend/app/services/deployment_service.py:76-112 | in every run, each deployment was asked for by a request with exactly its version, environment, key and failure flag |
| Provenance.StepSigns | backend/app/services/model_service.py:208-235 | in every reachable state, a step that changes a version appends one event naming its caller, and an approval records caller and time |
| Provenance.EveryEventHasItsAuthor | backend/app/services/model_service.py:24-53 | in every run, each entry of each trail was made by a call of the user it names, asking for that version, approval or stage |
| Execution.WorkersGoOn | backend/app/worker/executor.py:44-73 | in every reachable state, every live worker can take its next step |
| Execution.CallsGoOn | backend/app/services/deployment_service.py:76-207 | in every reachable state, every call in progress can complete |
| Execution.AlwaysOpen | backend/app/worker/queue.py:58-69 | new calls are always taken, and a worker can select exactly if some requested row is not locked |
| Execution.ExclusiveExecution | backend/app/worker/queue.py:52-76 | in every reachable state no two live workers are at the same deployment |
| Execution.ExecutorIsStamped | backend/app/worker/queue.py:70-76 | in every reachable state a live executor's row is in execution and carries that executor's id |
| Execution.OneInFlight | backend/app/models/deployment.py:37-49 | at most one in-flight deployment per model and environment, and at most one row per key, in every reachable state |
| Execution.OnlyInsertAndRetryCanClash | backend/app/services/deployment_service.py:111-117 | no commit other than the insert and the retry can meet a uniqueness constraint |
| Witness.RefusedInsertIsReachable | backend/app/services/deployment_service.py:111-117 | a reachable state in which an admitted request is refused by the index at its insert |
| Witness.RefusedRetryIsReachable | backend/app/services/deployment_service.py:143-150 | a reachable state in which the retry of a failed deployment is refused by the index |
| Execution.ReclaimHasACause | backend/app/worker/queue.py:95-104 | between two claims of one row lies a requeue or a retry event |
| Execution.AttemptAccounting | backend/app/worker/queue.py:70-104 | attempts equal one plus requeues plus retries, less one while requested; requeues stay below the limit; attempts exceed it only by retries |
| Rollbacks.Chain | backend/app/services/deployment_service.py:166-192 | following rollback pointers descends in id, stays in place and ends at a SUCCEEDED row |
| Rollbacks.RollbackChainEndsInSuccess | backend/app/services/deployment_service.py:166-200 | the same for every reachable state, with interleaved and repeated rollbacks |
| Rollbacks.NeverStranded | backend/app/services/deployment_service.py:161-189 | an environment that had a successful deployment of a model has one after every run |
| Rollbacks.RollbackReadsLatest | backend/app/services/deployment_service.py:158-189 | a rollback goes ahead exactly if the row is SUCCEEDED and has an earlier success of another version in its place, and takes the latest of them |
| Governance.DeploymentsAreGoverned | backend/app/services/deployment_service.py:68-108 | every deployment's version reached the matching stage, and outside development has an approver whose approval is in its trail |
| Governance.GateFailsIffArchived | backend/app/worker/executor.py:48-54 | the worker's re-check rejects exactly the deployments whose version was archived since the request |
| Governance.GateFailureMeansArchived | backend/app/worker/executor.py:52-54 | a gate failure in a history means the version is archived now and after every later run |
| Governance.TrailReplays | backend/app/services/model_service.py:24-53 | every reachable version's trail is a gap-free legal chain to its stage, and approval holds exactly if the trail shows it |
| Governance.OnlyApprovalApproves | backend/app/services/model_service.py:208-235 | only approve_version takes a version into APPROVED, from VALIDATED, naming the actor |
| Governance.RegistryStaysConsistent | backend/app/services/model_service.py:123-147 | in every run, with checks and inserts of concurrent creations interleaved, model keys are distinct and fit their column, versions belong to registered models, and their (model, version) pairs are distinct |
| Atomicity.LateRetry | backend/app/services/deployment_service.py:131-144 | a retry that commits after the row changed, sending only the columns it changed, leaves a legal row exactly if the row is FAILED and has no lock time that was absent when it was read |
| Witness.LateRetryBreaksRow | backend/app/services/deployment_service.py:131-144 | a reachable state and a run after which such a retry of a row FAILED both times leaves an illegal row |
| Atomicity.LateReap | backend/app/worker/queue.py:84-104 | a reap that commits late leaves a legal row exactly if the row is held and the requeue is within the limit |
| Atomicity.LateRollback | backend/app/services/deployment_service.py:166-200 | a rollback sends every column it assigns, so committing late it is the whole update of the current row |
| Atomicity.LateMoveReplays | backend/app/services/model_service.py:226-235 | a stage change that commits late keeps the trail a legal chain exactly if the version is still in the validated stage |
| Atomicity.SecondMoveBreaksTrail | backend/app/services/model_service.py:226-235 | of two stage changes that read the same stage, the second to commit always breaks the trail |
| Idempotency.ReplayForever | backend/app/services/deployment_service.py:87-93 | once a non-empty key has a row, every later request with it returns that row and changes nothing |
| Idempotency.SecondInsertRefused | backend/app/services/deployment_service.py:110-117 | the loser of a race on a key inserts nothing, however late its insert comes |
| Idempotency.EmptyKeyIsRefused | backend/app/services/deployment_service.py:87-105 | an empty key is never replayed and its second use is refused |
| Witness.EmptyKeyRefusalIsReachable | backend/app/services/deployment_service.py:87-117 | a reachable state with a processed row under the empty key, in which the same request again is refused by the key constraint alone |
| Timelines.TimelineIsLegal | backend/app/worker/queue.py:23-41 | every reachable event list is a word of the event automaton, and a failed row's error names its last event |
| Timelines.WriteStep | backend/app/worker/executor.py:23-73 | which step writes which row, and that each write but a claim records the status it sets |
| Timelines.ClaimWindowExact | backend/app/worker/queue.py:70-76 | status and last event differ exactly while the last commit on the row is a claim, in every run |
| Timelines.LiveWorkerWindow | backend/app/worker/executor.py:44-46 | a live worker's row is in that window exactly before validation_started is committed |
| Timelines.BookkeepingHolds | backend/app/models/deployment.py:73-87 | exactly when worker, lock time, error and rollback pointer are set: among failed rows, only lost ones keep a lock time |
| Waiting.OldestIffUnlocked | backend/app/worker/queue.py:52-67 | a claim takes the oldest requested row exactly if no claimer has it locked |
| Waiting.SkipLockedOvertakes | backend/app/worker/queue.py:64-76 | otherwise a newer row is claimed while the oldest is still REQUESTED |
| Witness.OvertakingIsReachable | backend/app/worker/queue.py:64-76 | a reachable state with a newer deployment in execution and an older one still queued |
| Selections.LockBalance | backend/app/worker/queue.py:58-76 | in every run, selections plus locks held at the start equal claim commits plus claimers dead before their commit plus locks held at the end |
| Waiting.OlderClaims | backend/app/worker/queue.py:70-104 | in every run, claims of rows older than a given one equal the rise in their attempts and stay within the limit plus retries |
| Waiting.NewerClaims | backend/app/worker/queue.py:58-76 | while a row is queued, its own claimers' deaths included, newer rows are claimed at most once per lock held at the start or taken while that row was locked |
| Waiting.BoundedWaiting | backend/app/worker/queue.py:58-104 | the two together when nobody locks the row: newer rows are claimed at most once per claimer already holding a lock |
| Waiting.OlderRowsFixed | backend/app/models/mixins.py:13-27 | with growing ids no insert joins the queue ahead of a waiting row |
| FiniteRuns.StepSpends | backend/app/worker/queue.py:70-104 | every commit by a worker or the reaper lowers a per-row measure; only requests and retries raise it |
| FiniteRuns.EveryWriteCounts | backend/app/worker/queue.py:70-104 | the commits counted below leave no write to a row out, rollbacks apart |
| FiniteRuns.WorkIsBounded | backend/app/worker/executor.py:44-73 | over any run, worker and reaper commits are bounded by the initial measure plus twelve per request or retry |
| FiniteRuns.WorkerStepsBounded | backend/app/worker/queue.py:52-76 | over any run, all worker steps (selections, gate reads and deaths included) are bounded by the measure and the rows at the start, the requests and retries, and two per claimer that died holding only its lock |
| FiniteRuns.StepsPerEntry | backend/app/worker/queue.py:52-104 | from the empty store, at most thirty-seven worker steps per request or retry, plus two per such death |
| FiniteRuns.TwelveCommitsPerEntry | backend/app/worker/queue.py:20-20 | from the empty store, at most twelve commits per successful request or retry |
| Recovery.OnePass | backend/app/worker/runner.py:40-46 | one uninterrupted pass turns the oldest requested row into its outcome and touches nothing else |
| Recovery.DrainIsARun | backend/app/worker/runner.py:37-46 | a drain is a run of the protocol that ends in the row-by-row outcome table |
| Recovery.DrainOutcome | backend/app/worker/executor.py:48-73 | a drained row succeeds exactly if its version is not archived and no failure is simulated; other rows are untouched |
| Draining.ConcurrentDrain | backend/app/worker/runner.py:37-46 | in every interleaving of any number of workers, with requests coming in, a requested row that has left the queue is exactly the drained row for the worker stamped on it, and other rows are unchanged |
| Draining.DrainCompletes | backend/app/worker/runner.py:37-46 | when all workers are idle and nothing is claimable, every row requested at the start has that outcome |
| Draining.DrainsAgree | backend/app/worker/queue.py:1-5 | two complete concurrent drains of one queue differ only in the worker ids they stamp |
| Recovery.CrashRecovery | backend/app/worker/queue.py:79-107 | after all workers die and all leases pass, one reap and one drain leave nothing in flight and lose no row |
| Lease.ReapSafeIffLease | backend/app/worker/queue.py:79-104 | a reap leaves every live executor its row, held and stamped, exactly if no live worker has overrun its lease |
| Lease.TimePassesIff | backend/app/worker/queue.py:79-94 | in every reachable state the model lets time pass exactly up to 120 seconds from the lock time of each live executor's row |
| Lease.OverrunRow | backend/app/worker/queue.py:95-104 | an overrun row returns to the queue without a worker exactly below the attempt limit, and is otherwise failed under its live worker |
| Lease.OverrunBreaksExclusion | backend/app/worker/queue.py:52-104 | after an overrun, another worker's steps alone lead to two workers executing one row exactly if attempts were left |
| Lease.OverrunAlwaysBreaks | backend/app/services/deployment_service.py:131-150 | after any overrun some run has two workers executing one row; at the limit it starts with a retry, which the index always admits |
| Lease.LateFinishBreaksTimeline | backend/app/worker/executor.py:60-73 | at the limit, the overrun worker's last commit writes an outcome after the failure, an illegal history |
| Witness.DoubleExecution | backend/app/worker/executor.py:44-46 | from a reachable state, time, a reap and one claim make two workers execute the same deployment |
| Witness.SuccessIsReachable | backend/app/worker/executor.py:67-73 | a concrete run from the empty store ends in a successful deployment |
| Queue.ClaimOne | backend/app/worker/queue.py:52-76 | claims the oldest requested row, stamped with this worker and this time, or nothing, in one commit |
| Queue.ReapStuck | backend/app/worker/queue.py:79-107 | reaps every row stuck past the given timeout in one commit, commits nothing if there is none, returns the count |
| DeploymentService.LookUp | backend/app/services/deployment_service.py:87-98 | a replay, a refusal or an admission, as the lookup specification decides |
| DeploymentService.Insert | backend/app/services/deployment_service.py:100-119 | inserts and commits exactly the row asked for unless a constraint objects, and then changes nothing |
| DeploymentService.RequestDeployment | backend/app/services/deployment_service.py:76-128 | replay, refusal, conflict or creation of exactly what was asked for, with the whole new table and the commits made |
| DeploymentService.RetryDeployment | backend/app/services/deployment_service.py:131-155 | re-queues every failed row whose place is free, and otherwise restores every field and reports which error |
| DeploymentService.PreviousGood | backend/app/services/deployment_service.py:175-189 | the rollback query returns the greatest candidate, or nothing |
| DeploymentService.RollbackDeployment | backend/app/services/deployment_service.py:158-207 | rewrites the row to point at the target, or reports why not |
| Executor.ProcessDeployment | backend/app/worker/executor.py:32-75 | makes exactly the commits of ExecutorCommits, in order |
| Executor.CommitsAreSteps | backend/app/worker/executor.py:44-73 | those commits are the tables of the protocol after the matching worker steps |
| Runner.ClaimAndProcess | backend/app/worker/runner.py:40-46 | one claim commit and the executor's commits turn the oldest requested row into its outcome |
| Runner.DrainAll | backend/app/worker/runner.py:37-46 | terminates, makes one pass of commits over each requested row in ascending order and no other commit, counts them, and leaves the outcome table |
| Runner.DrainContinues | backend/app/worker/runner.py:40-46 | one pass takes rows and commits one row further in the drain's order and shrinks the queue |
| Runner.Turn | backend/app/worker/runner.py:85-94 | drains first and then reaps, only if more than 30 s passed since the last reap, with all commits made |
| Text.SlugifyIsJoinedWords | backend/app/core/text.py:5-12 | a slug is the lower-cased name's maximal runs of [a-z0-9] joined by single hyphens, or "model" |
| Text.LowerOfChar | backend/app/core/text.py:10-10 | lower-casing applies the table character by character |
| Text.SlugifyCaseBlind | backend/app/core/text.py:5-12 | names that differ only in the case of ASCII letters have the same slug |
| Text.SlugKeepsLetters | backend/app/core/text.py:5-12 | a slug holds all ASCII letters and digits of the name, in order and in lower case |
| Text.SlugifyIsSlug | backend/app/core/text.py:10-12 | no leading, trailing or doubled hyphen, never empty |
| Text.SlugifyFixesSlugs | backend/app/core/text.py:5-12 | slugs are exactly the fixed points, so slugify is idempotent |
| ModelService.UniqueKey | backend/app/services/model_service.py:58-66 | terminates within one more probe than there are keys, with the first free name, which is a slug |
| ModelService.TakenNamesBounded | backend/app/services/model_service.py:60-66 | pigeonhole: k taken names need k keys |
| ModelService.CandidateInjective | backend/app/services/model_service.py:61-65 | no name is probed twice |
| ModelService.CandidateNumbers | backend/app/services/model_service.py:61-65 | after the plain name come the numbers from 2 on, in decimal notation |
| ModelService.CandidateIsSlug | backend/app/services/model_service.py:64-64 | suffixed keys are slugs again |
| ModelService.CreateModel | backend/app/services/model_service.py:69-82 | stores the model under the first free key, or nothing if that key does not fit its column; keys stay unique |
| ModelService.CreateVersion | backend/app/services/model_service.py:123-156 | the DRAFT version asked for with its first event in the caller's name, or the right error |
| ModelService.ApproveVersion | backend/app/services/model_service.py:208-223 | exactly from VALIDATED: stage, approver, time and one event in the approver's name; otherwise nothing changes |
| ModelService.TransitionVersion | backend/app/services/model_service.py:226-243 | the version's stage and one event in the caller's name, or nothing changes |

## Left out

- Database engines, sessions, isolation levels and migrations: only atomic commits, row locks with skip and the uniqueness constraints are kept.
- LISTEN/NOTIFY, polling, sleeping and waiting for the schema: they only decide when a worker looks at the queue.
- Authentication, roles, middleware, logging, correlation ids, creators, event messages and event actors of deployments: passed through unchanged.
- Metrics, listing, searching and pagination: direct queries.
- Sample and demo seeding, which writes rows past the request gate: runs start from an empty store.
- The frontend, Docker and nginx.
- Event order by created_at: each timeline is an append-only sequence.
- Live workers that overrun their lease: excluded by the lease assumption, apart from the lemmas in `Lease`.
- Concurrent retries, reaps, approvals and transitions that read before and write after each other: each is one step of the protocol, so theorems over runs exclude these races; `Atomicity` states for each when its late commit leaves a legal row or trail.
- The protocol's `ModelProbe` step takes any free key; that the code takes the first free one is stated by `ModelService.UniqueKey` for one session.
- Text.Slugify: lower-casing maps characters one at a time, so the context-dependent final sigma is not modelled; neither of its forms is in [a-z0-9].
- A reap timeout other than the default in the protocol: its `Reap` step uses 120 s, the only value the runner uses; `Queue.ReapStuck` takes any.
- Runner.Turn: one turn of the endless loop, without the wait at its end.
