# The restic operator: a model of its controllers

The operator keeps restic repositories, their keys and their forget schedules in step with Kubernetes
objects. Three controllers read objects, decide, and write them back, one API call at a time. Between any
two calls users create, edit and delete objects, the job controller finishes jobs, and the garbage
collector removes what has lost its owner; and the operator itself can fail or be restarted after any call.

The project models these controllers with everything that may happen in between, states what they
guarantee over every run, and proves it. It also models the pure parts they rest on: the condition lists, the
extraction of a key ID from a log, the shell script of a forget job, and the admission of forget schedules.

## How the model is built

* **Machines.** `KeyController`, `RepositoryController` and `ForgetController` describe each controller as a
  machine whose program counter names its next API call and holds the objects read so far (`Call`). `Operator`
  interleaves the first two with every event of `Environment`, with failed calls and with crashes, in any order
  and to any length (`Next`, `Run`, `Reachable`). There is any number of repositories, keys, secrets and jobs.
* **Controllers as written.** `KeyReconciler`, `RepositoryReconciler` and `ForgetReconciler` hold the
  controllers in the form of the source: objects edited in place, helper methods that return early, loops over
  jobs, and a client whose calls may fail and between whose calls others act. Each `Reconcile` is proved to
  leave the cluster, and to return the result, exactly as the machine does when it is driven call by call with the same
  interference. A reconcile therefore takes reachable states to reachable states, and all results about runs hold for the code.
* **Invariant.** `Invariant.Inv` says object by object what holds in every reachable state;
  `EnvironmentSteps`, `RepositorySteps` and `KeySteps` show that each event and each call keeps it. `Homes.HomesOk` is a
  second invariant on top of it: it follows each add job to the repository object it was built from, also for keys that
  never got the finalizer.
* **History.** A few fields record the past and are never read by a decision: whether a key has ever had the
  finalizer (`carried`), which repository object a job was built from, which restic key ID an add job stored, the last
  version of removed keys (`gone`), and the restic key IDs in each backend.

Jobs found by a label come in any order. An update carries the object it was computed from and is refused when
something else is stored by then; as every call may also fail, this covers what resource versions do.

## What is assumed of the surroundings

* Reads are up to date, each controller has one worker, and a call takes effect when it is made or never.
* The name of a key is not used again while jobs with its label exist or a reconcile of that name is under way,
  and the name of a repository not while its init job exists or a reconcile of that name is under way. Jobs are
  found by these names, not by UID.
* No foreign job has the name of a repository or the labels of the operator's jobs.
* A complete add job has stored exactly one new restic key, and its log reports it; a failed one has stored none. A
  complete delete job has removed the key it names. No job is both complete and failed.
* Nobody else removes the operator's finalizer, changes its secrets, sets a status, edits a controller reference after the
  object was created, or deletes secrets and jobs whose owner exists. The key webhook and the repository webhook hold for
  updates by users.
* A deletion in the foreground is modelled only as one more finalizer (`held`), which goes at some later time. The real one
  collects the jobs and the secrets of an object while that object still exists; this is assumed away by the point before.
* That the name of a key is used again while a reconcile of that name is under way is a race that a real cluster allows; it is
  assumed away by the second point.

## Where the code falls short

* **Keys without the finalizer.** The default status and the finalizer are written by two calls
  (`internal/controller/key_controller.go:90` and `:105`), and only a key without conditions is sent through them. A
  crash between the two, or a refused controller reference, leaves a key that is reconciled on and never gets the finalizer.
  "Deleting a key leaves nothing behind" is therefore false (`Witnesses.UnguardedKeyIsOrphaned`), and the finalizer is the exact
  condition: a Created key whose deletion is requested vanishes at once, with its restic key left in the backend, if and only if
  it has neither the operator's finalizer nor another (`Orphans.VanishesExactlyWithoutFinalizer`); and a key whose add job is running, or whose restic key is in the backend, in a repository that is to be kept, is orphaned by no
  run at all if and only if it carries the operator's (`Orphans.SafeExactlyWithFinalizer`). `Safety.NoOrphans` is stated
  for keys that have carried it.
* **A second job for a vanished key.** If a key and its jobs disappear between the reads of a reconcile and its
  list call, the empty list makes the controller create a job again. "At most one add job and one delete job ever" and
  "at most seven writes per key and four per repository ever" are false for that reason
  (`Witnesses.VanishedKeyGetsSecondJob`, `WorkWitnesses.EightWritesHappen`, `WorkWitnesses.FiveWritesHappen`). The bounds
  for every run are eight and five, and seven and four as long as the object exists (`Safety.OneJobEach`,
  `KeyWork.BoundedKeyWork`, `RepositoryWork.BoundedRepositoryWork`). When the smaller numbers hold for good:
  * *Add jobs.* A key with an add job, while its repository is there and Created, never gets a second one if and only if it
    has carried the finalizer, or is Created or under deletion and no reconcile in progress has read it before
    (`SecondAddJobs.OneAddJobExactly`). While it is neither Created nor under deletion, the finalizer alone decides
    (`SecondAddJobs.OneAddJobWithFinalizer`).
  * *Delete jobs.* A key that nobody else ever holds by a finalizer has at most one, whether it is there or gone
    (`SecondDeleteJobs.OneDeleteJobUnheld`). A Created key in a kept, Created repository whose delete job has not failed
    never gets a second one, unless somebody asks for it to be held, if and only if nobody holds it now
    (`SecondDeleteJobs.OneDeleteJobExactly`).
  * *Writes for a key.* Likewise the eighth write takes a foreign finalizer: there are at most seven for a key that
    nobody else ever holds, gone or not (`KeyWork.SevenWrites`), and for a new key that nothing stands in the way of there are at
    most seven, unless somebody asks for it to be held, if and only if nobody holds it now (`EighthWrite.SevenWritesExactly`).
  * *Writes for a repository.* From its final status on there are none, and the total stays at four at most, gone or not
    (`RepositoryWork.FourWritesUntilFinal`).
* **A second reconcile that goes on.** A fresh key or forget schedule that another object controls gets its default
  status, is refused the controller reference, and is taken for registered by the next reconcile. This is the only case in
  which a second reconcile right after a first one changes anything (`KeyQuiescence.KeysSettle`,
  `ForgetGuarantees.SchedulesSettle`; reachable by `RecoveryWitnesses.ForeignKeyDoesNotSettle` and
  `RecoveryWitnesses.ForeignScheduleDoesNotSettle`).
* **Jobs that fail.** Finished jobs are filtered for completion only (`internal/controller/key_controller.go:138-141`), so no
  key is ever marked Failed, and a key whose add job failed is never Created; a key whose delete job failed
  keeps its finalizer (`Safety.KeysNeverFail`, `RecoveryWitnesses.FailedAddSticks`,
  `RecoveryWitnesses.FailedRemovalSticks`).
* **A nil key ID.** A key that is deleted before its ID is recorded makes `internal/restic/delete_key.go:20`
  dereference nil; the model takes this as an error without effect. Such a key is stuck: unless a
  reconcile in progress has already decided to drop its finalizer or has read its repository under deletion, in every run its
  ID stays unset and its finalizer stays for as long as its repository is kept (`StuckKeys.StaysStuck`; reachable by
  `RecoveryWitnesses.EarlyDeletionSticks`). `KeyRecovery.DeletionRecovers` has the recorded ID in its condition and
  covers every key under deletion that carries the finalizer.
* **A secret that two jobs mount.** Names of key secrets collide (`Resources.SecretNames`). No two add jobs of existing keys
  mount the same secret, but the add job of a vanished key can still be running when another key has the secret made anew
  (`Safety.SecretsAreExclusive`, `SecretWitnesses.VanishedKeySharesSecret`).
* **Foreign secrets.** An operator secret that is not owned by the repository alone keeps it from ever being
  initialised (`RepositoryRecovery.RecoversExactlyWithOwnSecret`, `RecoveryWitnesses.SquattedSecretBlocks`).
* **Sums that wrap around.** The webhook adds up six 64-bit integers; keep counts that add up to 2^64 or 2^65 are turned
  down as keeping nothing (`Admission.TurnedDownExactly`, `Admission.WrappedAwayExamples`).
* **Schedules that are never Created.** Only the create path sets the status. If it is lost after the CronJob was
  created, the schedule is never marked Created while that CronJob exists (`ForgetGuarantees.NeverCreated`; reachable by a crash
  between the two calls, `RecoveryWitnesses.CrashStrandsSchedule`). A reconcile marks a schedule Created exactly when its
  repository exists, no CronJob of its name does, and its registration is not refused (`ForgetGuarantees.CreatedExactly`).

## Model

| member | source | states |
|---|---|---|
| Conditions.AnyWithStatusIsFirst | internal/conditions/conditions.go:20-44 | the search returns the type of the first entry that has one of the types and the status, and nothing exactly when no entry does |
| Conditions.HasTrueMeans | api/v1/repository_types.go:146-158 | a resource is Created or Failed exactly when its list holds that type with status True |
| Conditions.UpdateConditionLaws | internal/conditions/conditions.go:46-57 | for every list: True iff the type occurs; then one entry of the type is left and it is the new one; all others stay in order; uniqueness is kept; otherwise nothing changes |
| Conditions.SettersOrderEntries | api/v1/repository_types.go:160-194 | for a Created/Failed list in either order, each setter puts the entry it sets to True first and the other one, False, second |
| KeyLog.ExtractIsLeftmostLongest | internal/controller/key_controller.go:48 | the matcher returns the longest capture of the leftmost match of the regular expression, and nothing exactly when it matches nowhere |
| KeyLog.ExtractReported | internal/controller/key_controller.go:284 | from a log that first reports an ID ending at a non-word character, exactly that ID is read |
| KeyLog.HexIDIsExtracted | internal/controller/key_controller.go:284 | every hexadecimal ID is read in full from the first `saved new key with ID `, up to the end of the line, of the word or of the log |
| KeyLog.ExtractedIsAnnounced | internal/controller/key_controller.go:48 | what is read stands right after that text, consists of the 63 word characters, and ends where they end |
| Resources.SecretNames | api/v1/key_types.go:129-131 | a key's secret is never a repository's, but different keys can ask for the same secret name |
| Resources.AddKeyJobSays | internal/restic/create_key.go:43-48 | whatever host and user are, the arguments are those of `key add` and give restic the host, the user and the new password file under their flags; the job mounts the key's secret and the repository's, and these differ |
| Resources.FinalIsFirst | internal/controller/key_controller.go:270-273 | the final condition of a job is the first entry that is True and of type Complete or Failed, and there is none exactly when no entry is |
| Resources.UpdatesAdmitted | internal/webhook/v1/key_webhook.go:66-77 | an update of a key is admitted exactly when its spec is the same, and one of a repository exactly when its URL is |
| KeyController.FirstJobIsFirst | internal/controller/key_controller.go:180-185 | what is found is the first listed job of the operation, every job before it having another one; nothing is found exactly when no job has it |
| KeySteps.CallKeepsInv | internal/controller/key_controller.go:68-337 | every call of the key controller, successful or not, keeps the invariant that spans both controllers |
| RepositorySteps.CallKeepsInv | internal/controller/repository_controller.go:57-206 | so does every call of the repository controller |
| Safety.ReachableInv | internal/controller/key_controller.go:68-149 | the invariant holds in every reachable state, whatever is interleaved and wherever a controller crashes |
| Safety.NoOrphans | internal/controller/key_controller.go:174-205 | a key that carried the finalizer and has lost it, while its repository exists and is not being deleted: its add jobs are all finished and no restic key they stored is in any backend |
| Homes.ReachableHomes | internal/controller/key_controller.go:89-109 | the second invariant holds in every reachable state: the jobs of an existing key carry the name of its repository and, if the repository that an add job was built from exists, all were built from it; what a key without its former finalizer stored there is gone, if that repository is to be kept |
| Homes.NextKeepsHomes | internal/controller/key_controller.go:68-149 | every action of either controller or of anybody else keeps it |
| Orphans.VanishesExactlyWithoutFinalizer | internal/controller/key_controller.go:99-107 | requesting the deletion of a Created key makes it vanish with its restic key left in the backend, if and only if nobody has a finalizer on it |
| Orphans.SafeExactlyWithFinalizer | internal/controller/key_controller.go:99-107 | a key whose add job is running or whose restic key is in the backend, in a repository that is to be kept: no run can orphan it, if and only if it carries the operator's finalizer |
| Safety.BackendLedger | internal/restic/delete_key.go:15-36 | a backend holds exactly the IDs that complete add jobs stored there less those that complete delete jobs were to remove; no ID is stored twice |
| Safety.OneJobEach | internal/controller/key_controller.go:111-136 | two add jobs or two delete jobs of one key mean that it is gone, and two add jobs also that it never carried the finalizer |
| SecondAddJobs.OneAddJobExactly | internal/controller/key_controller.go:124-136 | no run gives an existing key with an add job and a Created repository a second one, if and only if it has carried the finalizer, or is Created or under deletion and no reconcile in progress has read it before that |
| SecondAddJobs.OneAddJobWithFinalizer | internal/controller/key_controller.go:99-107 | while it is neither Created nor under deletion, if and only if it carries the finalizer |
| SecondDeleteJobs.OneDeleteJobUnheld | internal/controller/key_controller.go:174-205 | in every run in which nobody else ever has a finalizer on a key, it has at most one delete job, there or gone |
| SecondDeleteJobs.OneDeleteJobExactly | internal/controller/key_controller.go:187-199 | a Created key in a kept, Created repository whose delete job, as far as it matters, has not failed: no run in which nobody asks for it to be held gives it a second delete job, if and only if nobody else holds it now |
| Safety.DeleteJobsAreJustified | internal/controller/key_controller.go:181-205 | a delete job's key is under deletion, its argument is that key's ID in all later states, and a complete add job of the key stored that ID |
| Safety.SecretsAreExclusive | internal/controller/key_controller.go:207-257 | the add job of an existing key mounts an existing secret owned by that key alone; when two add jobs mount the same one, the key of one of them is gone |
| SecretWitnesses.VanishedKeySharesSecret | api/v1/key_types.go:129-131 | two running add jobs with one secret are reachable: one of a vanished key, one of a living key of another repository |
| Safety.PhasesAreSafe | api/v1/key_types.go:104-179 | in every reachable state the conditions of keys and repositories are unset or hold Created and Failed once each, never both True |
| Safety.KeysNeverFail | internal/controller/key_controller.go:138-146 | no reachable key is Failed, and its ID is set exactly when it is Created |
| Safety.InitJobsInitialise | internal/restic/create_repo.go:13-71 | in every reachable state the init job of an existing repository runs `init` at the repository's own URL with the operator's secret alone |
| Safety.CreatedIsInitialised | internal/controller/repository_controller.go:98-129 | a repository is Created only when such a job at its own URL has completed |
| Safety.KeyJobsSay | internal/restic/delete_key.go:15-36 | in every reachable state an add job asks restic to add a key and a delete job to remove one, each opens the repository with the operator's secret, a delete job mounts nothing else, and both go to the URL of the repository they were built from |
| Safety.AddJobsSay | internal/restic/create_key.go:43-48 | the add job of an existing key carries its label, gives its host and its user, and mounts its secret |
| Registration.NewKeysAreRegistered | internal/controller/key_controller.go:89-109 | from every reachable state a fault-free reconcile of a new key whose repository exists gives it its default status, and owner, label and finalizer, the latter three if and only if no other object controls it |
| Registration.RegisteredForGood | internal/controller/key_controller.go:95-103 | along every run a registered key keeps its owner and its label |
| KeyResults.ResultMeans | internal/controller/key_controller.go:68-149 | in every world: the result is an error exactly if a call made failed, was refused, or found another controller, a foreign secret, a log without an ID or a key that cannot be removed; it asks for a retry exactly if a call found the repository missing, or found it not Created and nothing started |
| KeyResults.ResultExactly | internal/controller/key_controller.go:68-149 | without faults, from every reachable state: the same in terms of the cluster before the reconcile |
| KeyResults.DoneMeansProgress | internal/controller/key_controller.go:124-148 | a fault-free reconcile that ends with nothing to do leaves the key gone, under deletion, Created, Failed, or with an add job |
| KeyResults.FailedRemovalsAreRead | internal/controller/key_controller.go:307-321 | the log of a failed delete job is read |
| RepositoryResults.ResultMeans | internal/controller/repository_controller.go:57-206 | in every world: an error exactly if a call made failed, was refused or found a foreign secret; never a retry |
| RepositoryResults.ResultExactly | internal/controller/repository_controller.go:57-206 | without faults: an error exactly if the repository has no final status, no init job, and a foreign secret in its way |
| RepositoryResults.FailuresAreRead | internal/controller/repository_controller.go:98-129 | the log of a failed init job is read before the status is stored |
| RepositoryResults.NewRepositoriesGetStatus | api/v1/repository_types.go:121-144 | the first reconcile of a new repository stores Created and Failed, both False, and changes nothing else of it |
| Histories.KeyHistoryIsMonotone | internal/webhook/v1/key_webhook.go:66-77 | along every run a key keeps its spec, its ID once set, its Created status, and the loss of its finalizer |
| Histories.RepositoryHistoryIsMonotone | internal/controller/repository_controller.go:73-75 | along every run a repository keeps its URL, and its status once it is Created or Failed |
| Ordering.AddJobComesLast | internal/controller/repository_controller.go:77-86 | before an add job exists its repository was Created; before that its init job was complete; before that it was there, mounting the operator secret; before that an operator secret owned by the repository alone existed |
| RepositoryRecovery.ReconcileHasEffect | internal/controller/repository_controller.go:57-87 | the calls of a fault-free reconcile add up to one closed-form effect |
| RepositoryRecovery.RepositoryQuiescence | internal/controller/repository_controller.go:57-87 | from every reachable state a second fault-free reconcile changes nothing |
| RepositoryRecovery.RepositoryRecovers | internal/controller/repository_controller.go:98-145 | from every reachable state: reconcile, init job finishing, reconcile lead to exactly one of Created and Failed, as the job ended, if the secret is absent or the repository's own |
| RepositoryRecovery.RecoversExactlyWithOwnSecret | internal/controller/repository_controller.go:155-205 | and only if |
| KeyRecovery.ReconcileHasEffect | internal/controller/key_controller.go:68-149 | the calls of a fault-free reconcile add up to one closed-form effect, in whatever order the jobs are listed |
| KeyRecovery.DeletionRecovers | internal/controller/key_controller.go:174-205 | from every reachable state: reconcile, completion of the delete job, reconcile take the finalizer off any key under deletion that carries it, exactly when its repository need not be kept, or its ID has been recorded and its delete job has not failed, or it has none and the repository of that name is Created |
| StuckKeys.StaysStuck | internal/restic/delete_key.go:15-22 | along every run in which its repository is kept, a key that is under deletion without a recorded ID stays without it and keeps its finalizer, provided that no reconcile in progress has already decided to drop it or read its repository under deletion |
| RecoveryWitnesses.EarlyDeletionSticks | internal/restic/delete_key.go:15-22 | such a key is reachable: it was deleted while its add job was running |
| KeyRecovery.RegisteredCanDelete | internal/restic/delete_key.go:16-18 | while the repository the key was registered with exists, only a failed delete job stands in the way |
| KeyCreation.CreationRecovers | internal/controller/key_controller.go:124-148 | from every reachable state: reconcile, completion of the add job, reconcile make a key Created, exactly when it is already, or its add job has not failed, or it has none, its repository is Created, the secret is usable and registration is not refused |
| EndToEnd.BothRecover | internal/controller/key_controller.go:68-149 | from every reachable state: two reconciles of the repository around its init job and two of the key around its add job end with a Created key, exactly when it was Created, or its repository exists and its add job has not failed, or it has none, the repository's secret and init job and the key's secret allow it, and registration is not refused |
| KeyQuiescence.KeysSettle | internal/controller/key_controller.go:89-109 | from every reachable state a second fault-free reconcile changes nothing, except exactly for a fresh key whose registration was refused and whose add job can be created |
| KeyWork.BoundedKeyWork | internal/controller/key_controller.go:68-149 | over every run at most seven cluster-changing writes for a key that exists, and at most eight for any key |
| KeyWork.SevenWrites | internal/controller/key_controller.go:68-149 | at most seven writes for a key, there or gone, in every run in which nobody else ever has a finalizer on it |
| EighthWrite.SevenWritesExactly | internal/controller/key_controller.go:89-136 | for a new key that nothing stands in the way of: at most seven writes in all runs in which nobody asks for it to be held, if and only if nobody else holds it now |
| KeyWork.StepWork | internal/controller/key_controller.go:89-136 | no step lets the work that is left for a key grow, and each write on its behalf uses some up |
| RepositoryWork.BoundedRepositoryWork | internal/controller/repository_controller.go:57-87 | over every run at most four cluster-changing writes for a repository that exists, and at most five for any |
| RepositoryWork.FourWritesUntilFinal | internal/controller/repository_controller.go:73-75 | once a repository is Created or Failed nothing more is written for it in any later run, and the total is at most four |
| WorkWitnesses.EightWritesHappen | internal/controller/key_controller.go:187-199 | a run with eight writes for one key exists |
| WorkWitnesses.FiveWritesHappen | internal/controller/repository_controller.go:77-84 | a run with five writes for one repository exists |
| Witnesses.UnguardedKeyIsOrphaned | internal/controller/key_controller.go:89-109 | after a crash between the default status and the finalizer, deleting the key leaves its restic key behind |
| Witnesses.VanishedKeyGetsSecondJob | internal/controller/key_controller.go:128-136 | a key that vanishes during a reconcile can get a second add job |
| RecoveryWitnesses.ForeignKeyDoesNotSettle | internal/controller/key_controller.go:95-98 | the exception of KeysSettle is reachable |
| RecoveryWitnesses.SquattedSecretBlocks | internal/controller/repository_controller.go:191-194 | a secret without owners in the way of a repository is reachable |
| RecoveryWitnesses.FailedAddSticks | internal/controller/key_controller.go:138-146 | a key that can no longer become Created is reachable: its add job has failed |
| RecoveryWitnesses.FailedRemovalSticks | internal/controller/key_controller.go:307-321 | a key under deletion that keeps its finalizer is reachable: its delete job has failed |
| RecoveryWitnesses.ForeignScheduleDoesNotSettle | internal/controller/forgetschedule_controller.go:78-85 | the exception of SchedulesSettle is reachable |
| KeyReconciler.KeyObject.SetDefaultConditions | api/v1/key_types.go:104-127 | sets both conditions to False exactly when there are none |
| KeyReconciler.KeyObject.SetFailedCondition | api/v1/key_types.go:143-159 | the in-place edit that the machine's WithFailed describes |
| KeyReconciler.KeyObject.SetCreatedCondition | api/v1/key_types.go:161-179 | the in-place edit that the machine's WithCreated describes, with the key ID |
| KeyReconciler.Reconciler.Reconcile | internal/controller/key_controller.go:68-149 | one reconcile, with others acting between its calls and calls failing, leaves the cluster as the machine does and returns what it returns: nothing to do, try again after a delay, or an error |
| KeyReconciler.Reconciler.Register | internal/controller/key_controller.go:89-109 | the same for the default status and then the owner, the label and the finalizer |
| KeyReconciler.Reconciler.ReconcileJobs | internal/controller/key_controller.go:111-148 | the same from the listing of the jobs on |
| KeyReconciler.Reconciler.CreateKey | internal/controller/key_controller.go:151-172 | the same for the secret and then the add job |
| KeyReconciler.Reconciler.CreateSecretIfNotExists | internal/controller/key_controller.go:207-257 | success only with a secret owned by this key alone |
| KeyReconciler.Reconciler.DeleteKeyOrCheckDeletionStatus | internal/controller/key_controller.go:174-205 | the same for a key under deletion |
| KeyReconciler.Reconciler.CheckActiveJobStatus | internal/controller/key_controller.go:259-267 | the first listed add job decides |
| KeyReconciler.Reconciler.CheckCreateJobStatus | internal/controller/key_controller.go:269-298 | reads the log of a finished add job and stores the status |
| KeyReconciler.Reconciler.CheckDeleteJobStatus | internal/controller/key_controller.go:300-337 | drops the finalizer exactly for a complete delete job; only reads the log of a failed one |
| KeyReconciler.ReconcileIsReachable | internal/controller/key_controller.go:68-149 | a reconcile takes reachable states to reachable states |
| RepositoryReconciler.RepositoryObject.SetDefaultConditions | api/v1/repository_types.go:121-144 | sets both conditions to False exactly when there are none |
| RepositoryReconciler.RepositoryObject.SetFailedCondition | api/v1/repository_types.go:160-176 | the in-place edit that the machine's WithFailed describes |
| RepositoryReconciler.RepositoryObject.SetCreatedCondition | api/v1/repository_types.go:178-194 | the in-place edit that the machine's WithCreated describes |
| RepositoryReconciler.Reconciler.Reconcile | internal/controller/repository_controller.go:57-87 | the same for repositories, with the error it returns |
| RepositoryReconciler.Reconciler.CheckCreateJobStatus | internal/controller/repository_controller.go:98-129 | the same once the init job is found |
| RepositoryReconciler.Reconciler.StartCreateRepoJob | internal/controller/repository_controller.go:131-153 | the same for the secret and then the init job |
| RepositoryReconciler.Reconciler.CreateOperatorSecretIfNotExists | internal/controller/repository_controller.go:155-206 | success only with a secret owned by this repository alone |
| RepositoryReconciler.ReconcileIsReachable | internal/controller/repository_controller.go:57-87 | a reconcile takes reachable states to reachable states |
| Decimals.DecimalRoundTrip | internal/restic/create_forget_job.go:25-30 | the numeral printed for a number reads back as that number |
| ForgetScript.Execute | internal/restic/create_forget_job.go:104-108 | executing the template into a buffer renders all its pieces in order |
| ForgetScript.ForgetResticArgs | internal/restic/create_forget_job.go:104-111 | the container gets one argument, the rendered script |
| ForgetScript.ScriptCommands | internal/restic/create_forget_job.go:16-31 | by the shell's rules for continuation and comments every script splits into exactly `set -eu`, a `restic check` if a percentage is set, and one `restic forget` with the options that are set |
| ForgetScript.ScriptRoundTrip | internal/restic/create_forget_job.go:16-31 | parsing those commands recovers prune, the check percentage and all six keep counts, for every spec |
| Admission.MachineSumIsWrappedSum | internal/webhook/v1/forgetschedule_webhook.go:91-92 | wrapping after each of five additions gives the wrapped true sum |
| Admission.TurnedDownExactly | internal/webhook/v1/forgetschedule_webhook.go:87-96 | a schema-valid schedule with a valid expression is turned down exactly when its keep counts add up to 0, 2^64 or 2^65 |
| Admission.AdmittedKeepsSomething | api/v1/forgetschedule_types.go:52-79 | every schema-valid schedule that is admitted renders at least one keep flag |
| Admission.AdmissionAgreesWithRendering | internal/restic/create_forget_job.go:25-30 | admitted exactly when the expression is valid, the rendered script keeps something and the sum is neither 2^64 nor 2^65 |
| Admission.WrappedAwayExamples | internal/webhook/v1/forgetschedule_webhook.go:91-92 | both sums are attained by schema-valid schedules |
| ForgetController.CallKeepsInv | internal/controller/forgetschedule_controller.go:59-141 | every call of the forget controller keeps its invariant |
| ForgetGuarantees.ForgetConverges | internal/controller/forgetschedule_controller.go:96-139 | after every reconcile that found its repository and ended without an error, unless somebody else has changed the CronJob since: it has the expression, URL and secret of what was read, and its script makes the shell ask restic for exactly what the schedule asks for, which is to keep something |
| ForgetGuarantees.CreatedHadCronJob | internal/controller/forgetschedule_controller.go:120-128 | in every run, a schedule is Created only if a CronJob of its own existed before |
| ForgetGuarantees.NeverCreated | internal/controller/forgetschedule_controller.go:130-140 | a schedule whose CronJob is already there is not marked Created by any run in which the CronJob stays |
| ForgetGuarantees.CreatedExactly | internal/controller/forgetschedule_controller.go:59-128 | after a fault-free reconcile from a reachable state a schedule is Created exactly when it was, or its repository exists, no CronJob has its name and its registration is not refused |
| RecoveryWitnesses.CrashStrandsSchedule | internal/controller/forgetschedule_controller.go:120-128 | a crash after the CronJob was created strands a schedule: such a state is reachable |
| ForgetGuarantees.SchedulesSettle | internal/controller/forgetschedule_controller.go:59-106 | from every reachable state a second fault-free reconcile changes no object, except exactly for a fresh schedule whose registration was refused and whose CronJob is not as it should be |
| ForgetRegistration.NewSchedulesAreRegistered | internal/controller/forgetschedule_controller.go:78-93 | from every reachable state a fault-free reconcile of a new schedule whose repository exists gives it owner and label, if and only if no other object controls it, and marks it Created, if and only if it also creates its CronJob |
| ForgetRegistration.RegisteredForGood | internal/controller/forgetschedule_controller.go:83-92 | along every run a registered schedule keeps its owner and its label as long as it exists |
| ForgetRegistration.CronJobAfter | internal/controller/forgetschedule_controller.go:95-141 | a fault-free reconcile of a registered schedule creates a CronJob of its own with the repository's label, or overwrites only the spec of the one that is there; all other CronJobs and schedules stay |
| ForgetReconciler.ScheduleObject.SetDefaultConditions | api/v1/forgetschedule_types.go:133-149 | sets Created to False exactly when there are no conditions |
| ForgetReconciler.ScheduleObject.SetCreatedCondition | api/v1/forgetschedule_types.go:151-159 | the in-place edit that the machine's WithCreated describes |
| ForgetReconciler.Reconciler.Reconcile | internal/controller/forgetschedule_controller.go:59-106 | one reconcile leaves the cluster as the machine does; its result is an error exactly when a call made failed, was refused or found another controller, asks for a retry exactly when the schedule was found and its repository was not, and is over exactly when the schedule was not there |
| ForgetReconciler.Reconciler.BuildJob | internal/restic/create_forget_job.go:34-102 | the CronJob with the expression, the repository, its secret and the rendered script |
| ForgetReconciler.Reconciler.CreateForgetJob | internal/controller/forgetschedule_controller.go:108-128 | creates the CronJob, then marks the schedule |
| ForgetReconciler.Reconciler.UpdateForgetJob | internal/controller/forgetschedule_controller.go:130-141 | overwrites the spec of the CronJob that was read, and nothing else |
| ForgetReconciler.ReconcileIsReachable | internal/controller/forgetschedule_controller.go:59-106 | a reconcile takes reachable states to reachable states |

## Left out

- Namespaces: all objects are in one.
- Pod details of the jobs (images, security contexts, node selectors, extra environment variables, backoff limits): constant literals that no decision reads; names, labels, arguments, repository URL and mounted secrets are kept.
- Events, log messages, timestamps, condition reasons and messages: no decision depends on them.
- Log streaming from pods: a log is a string attached to a finished job, read by one call that may fail.
- Password generation and cron expressions: an opaque secret and an arbitrary predicate on strings.
- The version check of the repository webhook: it accepts everything; only the comparison of URLs is modelled.
- The concurrency policy and the pod template of a CronJob beyond expression, URL, arguments and secret: constants.
- Manager start-up, flags, metrics, webhook registration, generated code and manifests: plumbing.
- Shell scripts with quoting, expansions, control operators or redirection: the splitter gives up on them; no rendered script has any.
- Stale reads and late commits: under them two add jobs are possible even for a key that exists.
