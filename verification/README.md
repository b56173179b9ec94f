# dockercd in Dafny

dockercd is a GitOps reconciler for Docker Compose: it follows Git repositories,
compares the services they describe with what is running, and deploys the
difference. This project models the stateful and algorithmic cores of its
implementation and proves what they keep, over every input, every interleaving
or every run. Each core is one module.

| module | what it models |
|---|---|
| `Scheduler` | schedule and queued maps, work queue, worker pool, per-application mutexes |
| `Breaker` | the circuit breaker as a timed state machine |
| `Attempts` | runs of `reconcileApp` against the breaker |
| `HealthStore` | application rows under concurrent writers, with the compare-and-set of health checks |
| `EventQuery` | the bounded per-application top-k query over events |
| `Waves`, `Reconcile` | sync waves, hooks, health gates and the decision of `reconcileApp` |
| `BlueGreen` | blue-green switching as a trace of effects |
| `Compare`, `Differ` | desired against live services |
| `Merge`, `Substitute`, `PortVolume` | merging, substituting and parsing compose files |
| `LoginRate` | the login rate buckets |
| `SingleFlight` | the two single-flight caches |
| `Baseline` | the recovery drill's digest baseline |
| `SemVer` | image tag selection |
| `ConfigSync` | convergence of the store on the manifests |
| `Options`, `Ordering`, `Text`, `Decimal`, `Services` | shared definitions |

Protocols are transition systems: a step's label carries what the code does not
decide (clock readings, map iteration order, which goroutine runs, what Docker
answers), `Legal` says that a sequence of labels can happen and `Exec` is where it
ends. Code that updates fields is a class or a method with loops, proved equal to
the functions the transition systems use. Go's map iteration is an arbitrary
choice of the next key. Times are integers.

## What turns out to need a condition

Some of what one would expect of the code is false in general. The code is modelled
as written, and the exact condition is proved.

- A worker that fails TryLock leaves the queued flag set. The application is stuck,
  scheduled but never enqueued, exactly while it has been skipped and not removed since
  (`Scheduler.StuckIffSkipped`).
- RemoveApp deletes the mutex and the flag of an application that may be in use. Dropping
  the mutex is safe for all that follows if and only if no client has it
  (`Scheduler.DropSafeIffIdle`); clearing the flag keeps the name in one place if and only
  if it is nowhere in flight (`Scheduler.RemoveKeepsIffIdle`).
- The half-open breaker is documented to allow one attempt. An attempt leaves it half-open,
  open to another one, if and only if Git had nothing new or the drift was not to be
  repaired automatically (`Attempts.HalfOpenAfterIff`).
- A blue-green deployment is recorded as a success before its final health check may
  record a failure, so such failures trip the breaker if and only if its limit is one
  (`Attempts.PostCheckTripsIffLimitOne`).
- A writer reads the clock before its statement reaches the database, so timestamps can
  arrive out of order and repeat. A health check commits over a later write if and only if
  the last write left the very timestamp the check had read
  (`HealthStore.CommitIffStampBack`). The observation time of a row never decreases if its
  writes carry distinct timestamps, or never earlier ones; otherwise it can go back
  (`HealthStore.ObservationTimeMonotone`, `HealthStore.LateWriteTurnsBack`).
- A login refused the password slot dates its bucket back to its own start. At most five
  failures fall in a window shorter than fifteen minutes if and only if the logins cancelled
  in it had read the clock at most fifteen minutes before its end; otherwise there can be
  nine (`LoginRate.LimitedIffCancelsRecent`, `LoginRate.NineFailures`).
- A Deploy that finds at most one colour up leaves both up if and only if one was up and the
  Down it ends with fails: of the old colour after a switch, or of the new one after a failed
  health gate (`BlueGreen.AtMostOneIffClean`).
- A service compared with itself as live shows drift if and only if it names a network
  ending in `_default`, or mounts one target twice in ways that disagree
  (`Compare.ReplayMatches`).
- An override whose image substitutes to nothing, or whose command or entrypoint is
  present but empty, still replaces the base (`Merge.FileOverlayLaw`).
- Printing and parsing a port or volume is the identity only on plain fields
  (`PortVolume.PortRoundTrip`, `PortVolume.VolumeRoundTrip`).
- The host statistics cache forgets failures: a start costs a whole TTL except one for each
  collection that fails, and this bound is met by every pattern of outcomes
  (`SingleFlight.StartsBound`, `SingleFlight.HostStatsBoundIsTight`).
- Tag selection ties all prereleases of one version, where section 11 of Semantic
  Versioning 2.0.0 ranks them by their identifiers; it agrees with the standard on all other
  pairs (`SemVer.AgreesWithStandardIff`).
- An application keeps its sync state over passes if and only if every pass finds its
  manifest or fails to delete it; a source that cannot be read is enough to lose it
  (`ConfigSync.RememberedIffSpared`).

## Model

| member | source | states |
|---|---|---|
| `Scheduler.ReconcilerImpl.NextWakeTime` | src/internal/reconciler/scheduler.go:60-74 | the earliest scheduled time among applications not flagged as queued, or the zero time when all are flagged, where no scheduled time is the zero time itself |
| `Scheduler.ReconcilerImpl.CollectDue` | src/internal/reconciler/scheduler.go:77-88 | for every map order, lists each due and unflagged name once, and flags exactly those |
| `Scheduler.ReconcilerImpl.Enqueue` | src/internal/reconciler/scheduler.go:103-111 | appends if and only if the queue has room, otherwise refuses without change |
| `Scheduler.ReconcilerImpl.EnqueueDueApps` | src/internal/reconciler/scheduler.go:77-100 | the due names split into those queued, in order, and those that no longer fit, which are unflagged and pushed back; no other name changes |
| `Scheduler.ReconcilerImpl.Reschedule` | src/internal/reconciler/scheduler.go:114-121 | sets the next time and drops the flag, of this name only |
| `Scheduler.ReconcilerImpl.AddApp` | src/internal/reconciler/scheduler.go:158-162 | schedules the name without touching its flag |
| `Scheduler.ReconcilerImpl.RemoveApp` | src/internal/reconciler/scheduler.go:166-174 | forgets schedule, flag, mutex and breaker of the name |
| `Scheduler.FlightStep` | src/internal/reconciler/worker.go:18-35 | of all steps of scheduler, workers, callers and removal, only a collection puts a name in flight and only a pushed-back enqueue, a reschedule or a skipped TryLock takes it out, one occurrence at a time |
| `Scheduler.AtMostOnceAlways` | src/internal/reconciler/scheduler.go:77-121 | in every run whose removals of the application happen while it is nowhere in flight, its name occurs at most once across due list, queue and hands, is flagged whenever it occurs, and no two workers hold it |
| `Scheduler.RemoveKeepsIffIdle` | src/internal/reconciler/scheduler.go:166-174 | a removal keeps that invariant if and only if the name is nowhere in flight |
| `Scheduler.FlaggedIsInFlight` | src/internal/reconciler/worker.go:24-34 | in every run without a TryLock skip of the application, a flagged application really is in flight |
| `Scheduler.ScheduledIsSeen` | src/internal/reconciler/scheduler.go:60-74 | after every such run a scheduled application is in flight or the next wake-up is no later than its time |
| `Scheduler.StuckForever` | src/internal/reconciler/scheduler.go:60-99 | an application flagged but not in flight stays so through every step but its removal: no scheduler, trigger, worker or AddApp step enqueues it again |
| `Scheduler.StuckIsUnseen` | src/internal/reconciler/scheduler.go:60-74 | in every later state short of its removal, the next wake-up is what it would be if the stuck application were not scheduled |
| `Scheduler.TimeIsServed` | src/internal/reconciler/scheduler.go:40-57 | in every run a trigger or an AddApp of an application that is not queued, a reschedule, or a retry after a full queue, at `t`, is followed by the application being collected, by the first collection at or after `t` at the latest |
| `Scheduler.DueIsServed` | src/internal/reconciler/scheduler.go:77-88 | an application that is due has been collected by the next collection at or after its time, whatever happens in between short of its removal |
| `Scheduler.NotBeforeItsTime` | src/internal/reconciler/scheduler.go:77-121 | without a trigger or an AddApp it keeps the time it has and is not collected before it |
| `Scheduler.StuckIffSkipped` | src/internal/reconciler/worker.go:24-28 | in every run whose removals of the application happen while it is nowhere in flight, it ends flagged but nowhere in flight if and only if some worker failed TryLock on it and it was not removed since |
| `Scheduler.SkipNeedsCaller` | src/internal/reconciler/reconciler.go:220-226 | a worker skips an application only while a ReconcileNow or Rollback of that same application is in its critical section |
| `Scheduler.ExclusionAlways` | src/internal/reconciler/reconciler.go:947-950 | in every run that drops the application's mutex only while no client has it, at most one worker, ReconcileNow or Rollback is in its critical section, whatever happens to other applications |
| `Scheduler.DropSafeIffIdle` | src/internal/reconciler/scheduler.go:166-174 | dropping the mutex keeps exclusion in everything that can follow if and only if no client has it, inside or still before the lock |
| `Scheduler.RemoveBreaksExclusion` | src/internal/reconciler/scheduler.go:166-174 | from any state that keeps the invariants and in which some client has the mutex, dropping it can be followed by two reconciles of the application at once |
| `Scheduler.RemoveBreaksAtMostOnce` | src/internal/reconciler/scheduler.go:166-174 | a removal while the name is in the due list, the queue or a worker's hands can be followed by the name being in flight twice, if the due names still to be offered find room and the name is not just being pushed back |
| `Scheduler.WithoutRemoveApp` | src/internal/reconciler/scheduler.go:77-121 | in every interleaving of scheduler, worker, ReconcileNow and Rollback steps without RemoveApp: one place at most, flagged whenever there, no two workers, one critical section |
| `Breaker.CircuitBreaker.Allow` | src/internal/reconciler/worker.go:85-104 | refuses exactly when open with the timeout not elapsed; turns half-open when it has |
| `Breaker.CircuitBreaker.RecordSuccess` | src/internal/reconciler/worker.go:107-113 | closes and clears the count |
| `Breaker.CircuitBreaker.RecordFailure` | src/internal/reconciler/worker.go:116-132 | counts and stamps the failure; opens at the limit, or at once when half-open |
| `Breaker.ClosedBelowLimitAlways` | src/internal/reconciler/worker.go:65-132 | over every sequence of calls the breaker is closed exactly while the count is below the limit, if and only if the limit is positive |
| `Breaker.CountIsSinceSuccess` | src/internal/reconciler/worker.go:107-132 | over every sequence of calls the count is the number of failures since the last success |
| `Breaker.AttemptBound` | src/internal/reconciler/worker.go:85-132 | in any serialized stretch of length T in which every admitted attempt fails, at most limit + floor(T / timeout) attempts are admitted, from every state |
| `Attempts.HalfOpenAfterIff` | src/internal/reconciler/worker.go:85-132 | an attempt of reconcileApp on a tripped breaker leaves it half-open if and only if Git had nothing new, or there was drift and the application is neither automated nor forced |
| `Attempts.NeverLeftHalfOpen` | src/internal/reconciler/reconciler.go:489-541 | in every run of reconcileApp in which no attempt is of that kind, the breaker is never left half-open |
| `Attempts.NextAttemptWaits` | src/internal/reconciler/worker.go:85-132 | after an attempt that leaves the breaker tripped, the next one is admitted at once if and only if it was undecided, and otherwise only after a whole reset timeout |
| `Attempts.OneDecisionPerTimeout` | src/internal/reconciler/reconciler.go:489-541 | from every tripped breaker, over any serialized stretch of runs in which nothing closes it, at most one attempt decides, and one more for each whole reset timeout; where every attempt decides, that bounds all attempts |
| `Attempts.HalfOpenAdmitsUndecided` | src/internal/reconciler/worker.go:92-103 | however many undecided runs follow one another in half-open, every one is admitted |
| `Attempts.FailingAttemptBound` | src/internal/reconciler/reconciler.go:489-500 | the bound on attempts for serialized runs of reconcileApp in which every attempt ends in a recorded failure |
| `Attempts.PostCheckVerdicts` | src/internal/reconciler/reconciler.go:690-718 | a run whose blue-green deployment goes through and whose final check fails tells success and then failure |
| `Attempts.PostCheckTripsIffLimitOne` | src/internal/reconciler/reconciler.go:690-718 | however many such runs follow one another, the breaker is open afterwards if and only if its limit is one |
| `Attempts.InSyncCloses` | src/internal/reconciler/reconciler.go:511-522 | an attempt that finds everything in sync leaves the breaker closed with no failure counted |
| `Attempts.DeliveryCloses` | src/internal/reconciler/reconciler.go:690-731 | so does one that delivers a deployment |
| `Attempts.FailureCounts` | src/internal/reconciler/reconciler.go:496-500 | an attempt refused by Git, parser, inspector or deployment adds one failure at the time it ends, and opens the breaker at the limit or when it had tripped |
| `Attempts.EveryAttemptEnds` | src/internal/reconciler/reconciler.go:450-731 | in sync, delivered, failed, failed after a switch of colours, or undecided: there is no other way an attempt ends |
| `Attempts.CountIsFailuresInARow` | src/internal/reconciler/reconciler.go:450-731 | in every run of reconcileApp the breaker's count is the number of failed attempts since the last one that was in sync or delivered |
| `Attempts.GoodRunsNeverTrip` | src/internal/reconciler/reconciler.go:450-731 | a closed breaker stays closed over any run in which every attempt is in sync, delivers or is undecided |
| `HealthStore.SQLiteStore.UpdateApplicationStatus` | src/internal/store/queries.go:151-207 | sets exactly the columns given and the timestamp; refuses an unknown name; writes nothing for an empty update |
| `HealthStore.SQLiteStore.RecordHealthObservation` | src/internal/store/queries.go:213-228 | writes if and only if the row still carries the expected timestamp |
| `HealthStore.SQLiteStore.UpdateManifest` | src/internal/store/queries.go:231-240 | replaces the manifest and the timestamp only |
| `HealthStore.SQLiteStore.SetApplicationSource` | src/internal/store/queries.go:243-252 | replaces the source and the timestamp only |
| `HealthStore.InvariantAlways` | src/internal/health/health.go:251-301 | in every run of writers and health checks, their timestamps arriving in any order, no row or check carries a time from the future and every stored observation is one some check made |
| `HealthStore.CommitIffUnwritten` | src/internal/store/queries.go:213-228 | if no write of the row since the read repeats a timestamp the row has had, in whatever order the timestamps arrive, a check's commit succeeds if and only if no step since its read wrote, created or deleted the row |
| `HealthStore.CommitIffStampBack` | src/internal/store/queries.go:213-228 | in every run, without any assumption on timestamps, it succeeds if and only if no step did, or the last that did left the timestamp the check had read |
| `HealthStore.ObservationFromOneCheck` | src/internal/health/health.go:251-301 | in every run the stored observed status and observation time come from one inspection |
| `HealthStore.ObservationTimeMonotone` | src/internal/store/queries.go:213-228 | in every run in which the writes of a row carry distinct timestamps, arriving in any order, its observation time never decreases while it is not deleted |
| `HealthStore.ObservationTimeMonotoneOrdered` | src/internal/store/queries.go:213-228 | the same where timestamps may repeat but no write of the row carries an earlier one |
| `HealthStore.LateWriteTurnsBack` | src/internal/store/queries.go:192-228 | with neither, there is a run in which a late status write repeats the timestamp a check had read and the observation time falls from 7 to 6 |
| `HealthStore.StatusColumns` | src/internal/store/queries.go:151-207 | after any sequence of status updates each text column holds the last value an update gave for it |
| `HealthStore.OtherColumns` | src/internal/store/queries.go:151-207 | sync time and error likewise, an error also being cleared; manifest, source and observation columns are not touched |
| `HealthStore.CommitColumns` | src/internal/store/queries.go:213-228 | a successful commit leaves what the check found in its columns and every other column as it was |
| `EventQuery.SelectMeaning` | src/internal/store/queries.go:491-502 | ordering and limit return the newest min(k, n) rows, newest first, every omitted row being older than every returned one |
| `EventQuery.CutFirst` | src/internal/store/queries.go:475-520 | cutting the first of two ordered parts to k rows before merging leaves the first k rows of the merge unchanged |
| `EventQuery.UniteBranch` | src/internal/store/queries.go:486-502 | uniting the cut rows of one more application keeps the answer equal to the plain query over all applications so far |
| `EventQuery.RowsOfCount` | src/internal/store/queries.go:491-496 | a branch holds exactly the table's rows of its applications, each as often as the table |
| `EventQuery.ListEventsForApplications` | src/internal/store/queries.go:475-520 | for every table with unique ids, every grant list with or without duplicates and every limit: rows of granted applications, newest first, a granted row left out only at the limit and then older than all returned; equal to one plain query |
| `Waves.GroupByWave` | src/internal/reconciler/reconciler.go:1159-1184 | for every map order: strictly ascending waves, a wave listed exactly when some non-hook service has it, its services exactly those, sorted |
| `Waves.GroupsPartition` | src/internal/reconciler/reconciler.go:1159-1184 | with distinct names each non-hook service is in exactly one group, the one of its wave, and hooks are in none |
| `Waves.WaveOfLabel` | src/internal/reconciler/reconciler.go:1166-1171 | a label written from a number, with or without a minus sign, puts the service in that wave |
| `Waves.ManyWavesGrouped` | src/internal/reconciler/reconciler.go:595-612 | more than one group exists if and only if two deployable services carry different waves |
| `Waves.SnapshotPasses` | src/internal/health/health.go:228-242 | a snapshot passes if and only if every named service occurs and every occurrence is healthy |
| `Waves.WaitForServicesHealthy` | src/internal/health/health.go:197-245 | succeeds if and only if no service is named or one poll shows all of them healthy at once, and returns that poll |
| `Decimal.AtoiPrint` | src/internal/reconciler/reconciler.go:1159-1184 | a wave label written in decimal is read as that number, or refused beyond the range of an int |
| `Decimal.AtoiNegative` | src/internal/reconciler/reconciler.go:1159-1184 | negative labels are read down to the other end of the range |
| `Reconcile.DeployWaves` | src/internal/reconciler/reconciler.go:613-688 | whatever fails, the record is a prefix of pre-hooks, pull, (wave, gate)*, post-hooks ending at the first failure that counts, each step recorded as it turned out, each passed gate with a snapshot that shows its wave healthy |
| `Reconcile.OkIffNothingRefused` | src/internal/reconciler/reconciler.go:613-688 | the deployment succeeds if and only if no pre-hook, pull, wave or gate of the plan fails; post-hooks do not matter |
| `Reconcile.PlanInPhases` | src/internal/reconciler/reconciler.go:613-688 | in the plan pre-sync hooks come before the pull, the pull before waves and gates, and those before post-sync hooks |
| `Reconcile.PlanHolds` | src/internal/reconciler/reconciler.go:613-688 | the plan holds every hook, every wave, every gate if there is a monitor, and a pull exactly if one is asked for |
| `Reconcile.LowerWavesHealthyFirst` | src/internal/reconciler/reconciler.go:642-677 | in every record, when a wave is deployed every service of every lower wave has been seen healthy in one snapshot, after that wave's own deployment |
| `Reconcile.ServicesInWaveOrder` | src/internal/reconciler/reconciler.go:642-677 | the same for services: when the wave of one is deployed, every service with a lower wave label has been deployed and then seen healthy with the rest of its wave |
| `Reconcile.ScanHooks` | src/internal/reconciler/reconciler.go:557-567 | the hooks of each phase in file order |
| `Reconcile.HooksListed` | src/internal/reconciler/reconciler.go:557-567 | a name is listed for a phase exactly when some service of that name carries it |
| `Reconcile.HooksConcat` | src/internal/reconciler/reconciler.go:557-567 | the hooks of a file are those of its parts, in order |
| `Reconcile.DeployDrift` | src/internal/reconciler/reconciler.go:596-718 | delivers exactly when the one Deploy and, for blue-green, the final check succeed, or when nothing of the wave plan is refused; and what the breaker is told |
| `Reconcile.ReconcileApp` | src/internal/reconciler/reconciler.go:450-731 | when it succeeds, skips or does nothing; LastSyncedSHA is written if and only if the diff was in sync or the run succeeded, by the last write, with the compared head; never on a failure path |
| `Reconcile.StatusFollowsOutcome` | src/internal/reconciler/reconciler.go:511-545 | the last status written is Synced exactly when in sync or delivered, ManuallyManaged exactly for drift that is not to be repaired, and OutOfSync is written exactly when the run acts |
| `BlueGreen.AllHealthy` | src/internal/deployer/bluegreen.go:261-275 | true exactly for a non-empty list of healthy containers |
| `BlueGreen.ActiveBlueGreenState` | src/internal/deployer/bluegreen.go:197-219 | the first colour with a running container, blue first, and the inspections made |
| `BlueGreen.WaitForHealthy` | src/internal/deployer/bluegreen.go:223-257 | succeeds if and only if some poll before the deadline is a good snapshot, and stops there |
| `BlueGreen.Deploy` | src/internal/deployer/bluegreen.go:61-137 | succeeds exactly when detection, inner Deploy and health gate do; its whole trace of effects |
| `BlueGreen.Down` | src/internal/deployer/bluegreen.go:152-171 | stops both colours whatever happens and fails if either did |
| `BlueGreen.DownIsGated` | src/internal/deployer/bluegreen.go:61-137 | in every trace a Down is the last effect; of the old colour only right after a non-empty all-healthy snapshot of the new one; otherwise of the new colour after the gate gave up, and then Deploy fails |
| `BlueGreen.DeployResult` | src/internal/deployer/bluegreen.go:61-137 | the colours up after a trace, for every script of answers |
| `BlueGreen.NeverDark` | src/internal/deployer/bluegreen.go:61-137 | if a colour is up before Deploy, one is up after every single effect, whatever fails |
| `BlueGreen.AlternateForever` | src/internal/deployer/bluegreen.go:61-137 | over any sequence of Deploys with truthful detection in which no Down that matters fails, at most one colour is up after each, successes alternate colours, and the last of them is the one that is up |
| `BlueGreen.UpForever` | src/internal/deployer/bluegreen.go:61-137 | over any sequence of Deploys with truthful detection, whatever fails, a service once up is up after every call and every single effect |
| `BlueGreen.AtMostOneIffClean` | src/internal/deployer/bluegreen.go:61-137 | with truthful detection, a call that finds at most one colour up leaves at most one up if and only if nothing was up, or it does not get as far as a Down, or the Down succeeds; otherwise both are up |
| `Compare.CompareEnvironment` | src/internal/differ/compare.go:123-159 | one entry per missing or different desired variable, in key order |
| `Compare.CompareLabels` | src/internal/differ/compare.go:184-235 | one entry per label that differs, is missing, or is live without being desired or managed by Docker |
| `Compare.DedupStrings` | src/internal/differ/compare.go:259-269 | the same elements, each once |
| `Compare.PortsEqual` | src/internal/differ/compare.go:240-256 | true if and only if every desired port is live |
| `Compare.VolumesEqual` | src/internal/differ/compare.go:300-327 | true if and only if each desired mount agrees with the last live mount of its target |
| `Compare.FilterDefaultNetworks` | src/internal/differ/compare.go:407-415 | the networks not ending in `_default`, in order |
| `Compare.StringSetsEqual` | src/internal/differ/compare.go:364-386 | true if and only if the lists are permutations of each other |
| `Compare.CompareService` | src/internal/differ/compare.go:13-89 | the field differences in the order of the fields |
| `Compare.EnvReported` | src/internal/differ/compare.go:123-159 | a variable is reported exactly when it is missing or different, under its name, the desired value first |
| `Compare.LabelReport` | src/internal/differ/compare.go:184-235 | a label is reported exactly when it is missing, different, or live without being desired or managed by Docker, with both values |
| `Compare.TaggedImage` | src/internal/differ/compare.go:95-117 | a tagged image keeps name and tag behind the registry and namespace its name leaves out |
| `Compare.UntaggedImage` | src/internal/differ/compare.go:95-117 | an untagged name is the latest |
| `Compare.PrefixOf` | src/internal/differ/compare.go:95-117 | bare names get registry and namespace, namespaced ones the registry, names with a registry nothing |
| `Compare.TagsDiffer` | src/internal/differ/compare.go:95-117 | different tags of one name never match |
| `Compare.CompareEmpty` | src/internal/differ/compare.go:13-89 | no difference is reported if and only if the declarative match of all fields holds |
| `Compare.ReplayMatches` | src/internal/differ/compare.go:300-415 | a service compared with itself as live matches if and only if no network is of the default form and each mount agrees with the last of its target |
| `Compare.DistinctTargetsSettle` | src/internal/differ/compare.go:300-415 | distinct volume targets and no default network suffice for that |
| `Differ.Index` | src/internal/differ/differ.go:51-80 | drops ignored services and their live counterparts, indexes the rest by name |
| `Differ.Diff` | src/internal/differ/differ.go:51-158 | for every map iteration order the result is the one determined by the two indexes |
| `Differ.DiffPermuted` | src/internal/differ/differ.go:51-158 | with distinct names the result is the same for every permutation of either input |
| `Differ.DiffShape` | src/internal/differ/differ.go:82-127 | the three lists are strictly sorted by name, hold their own kind of entry, and share no name |
| `Ordering.StrLessIff` | src/internal/differ/differ.go:154-158 | the order of names: a text is below another exactly when, where they part, it ends or has the smaller byte |
| `Differ.CreatedIff` | src/internal/differ/differ.go:82-92 | created if and only if desired, not ignored and not live |
| `Differ.RemovedIff` | src/internal/differ/differ.go:94-104 | removed if and only if live and not desired |
| `Differ.UpdatedIff` | src/internal/differ/differ.go:106-122 | updated, with exactly the differing fields, if and only if on both sides, not ignored and not matching |
| `Differ.InSyncIffAllMatch` | src/internal/differ/differ.go:51-136 | InSync holds exactly when both sides have the same services and each matches |
| `Differ.ReplayInSyncIffSettles` | src/internal/differ/differ.go:51-136 | against the desired state replayed as live, Diff is InSync if and only if every service that is not ignored settles |
| `Merge.ToStringMap` | src/internal/parser/merge.go:132-153 | map form and list form give the same kind of map, later list entries winning |
| `Merge.EnvVarParts` | src/internal/parser/parser.go:500-507 | a list entry is cut at its first equals sign, or is a name alone |
| `Merge.MergeMaps` | src/internal/parser/merge.go:108-129 | for every mix of forms: every key of the override with the override's value, every other key of the base with its own, and no further key |
| `Merge.MergeListOrMap` | src/internal/parser/merge.go:156-178 | for every mix of forms and every map order, the union of names |
| `Merge.MergeService` | src/internal/parser/merge.go:60-104 | the merged service means what merging the two meanings gives |
| `Merge.MergeCompose` | src/internal/parser/merge.go:12-57 | the same for whole files, for every map order |
| `Merge.MergedAssociative` | src/internal/parser/merge.go:12-193 | merging is associative on meanings |
| `Merge.OutcomeInTurn` | src/internal/parser/parser.go:39-111 | every bracketing and every map order ends in the meaning of merging the files in turn |
| `Merge.OverrideWins` | src/internal/parser/merge.go:60-129 | what an override sets for a service wins, what it does not set stays |
| `Merge.LastFileWins` | src/internal/parser/parser.go:39-111 | over any list of files, an environment variable, a label and the image of a service are what the last file that sets them says |
| `Merge.BracketingIrrelevant` | src/internal/parser/parser.go:181-314 | two bracketings of the same files yield the same interpreted spec |
| `Merge.ParseEnvironment` | src/internal/parser/parser.go:261-286 | either form is read as its key-value map with every value substituted |
| `Merge.OverlayLaw` | src/internal/parser/parser.go:181-235 | interpreting a merged service equals overlaying the interpretations, if and only if the override blanks no field |
| `Merge.FileOverlayLaw` | src/internal/parser/parser.go:181-235 | the same for whole files: if and only if no shared service is blanked |
| `Substitute.ScanToken` | src/internal/parser/substitute.go:46-85 | one round consumes exactly the first token and writes its meaning |
| `Substitute.SubstituteVars` | src/internal/parser/substitute.go:46-85 | terminates with the concatenated meanings of the tokenization |
| `Substitute.TokenizeUnique` | src/internal/parser/substitute.go:46-85 | every text has exactly one left-to-right tokenization, and its raw pieces concatenate to the text |
| `Substitute.PlainPrefix` | src/internal/parser/substitute.go:46-85 | a prefix without '$' passes through unchanged |
| `Substitute.ValueVerbatim` | src/internal/parser/substitute.go:57-68 | a braced reference is replaced by the value, from the .env file first and the process environment second, verbatim and never rescanned |
| `Substitute.BareVerbatim` | src/internal/parser/substitute.go:69-77 | the same for a reference without braces, its name being the longest run of name characters |
| `Substitute.DefaultWhenEmpty` | src/internal/parser/substitute.go:89-128 | the `:-` form is the value, or the text when the value is empty or unset |
| `Substitute.DefaultWhenUnset` | src/internal/parser/substitute.go:89-128 | the `-` form is the text only when the variable is unset |
| `Substitute.RequiredStands` | src/internal/parser/substitute.go:89-128 | the `:?` form stands unchanged when the value is empty or unset |
| `Substitute.UnclosedBrace` | src/internal/parser/substitute.go:57-68 | an unclosed brace is literal text, and what follows is still scanned |
| `PortVolume.SplitN` | src/internal/parser/parser.go:509-527 | the loop computes the at most n parts cut at the leftmost separators |
| `PortVolume.SplitRejoins` | src/internal/parser/parser.go:509-527 | the parts rejoin to the text |
| `PortVolume.SplitParts` | src/internal/parser/parser.go:509-527 | only the last part may hold the separator, and only when all n parts are used |
| `PortVolume.LastIndexByte` | src/internal/parser/parser.go:529-536 | the last position of a byte, or -1 |
| `PortVolume.SplitPortText` | src/internal/parser/parser.go:422-450 | the loop computes the parts, a bracketed address being one |
| `PortVolume.ParsePort` | src/internal/parser/parser.go:398-419 | the parser's result, as the round trip uses it |
| `PortVolume.AddressDropped` | src/internal/parser/parser.go:413-415 | of address, host port and container port the address is dropped |
| `PortVolume.BracketedDropped` | src/internal/parser/parser.go:422-450 | the same for a bracketed address, whatever colons it holds |
| `PortVolume.ParsedBody` | src/internal/parser/parser.go:398-405 | the protocol is what follows the last slash, tcp without one |
| `PortVolume.PortRoundTrip` | src/internal/differ/compare.go:271-285 | printing and parsing a port gives it back, protocol filled in, if and only if it is plain |
| `PortVolume.VolumeRoundTrip` | src/internal/differ/compare.go:341-354 | printing and parsing a volume gives it back if and only if its paths are free of ':' and a read-only one has a source |
| `LoginRate.Authenticator.CleanupLocked` | web/internal/localauth/authenticator.go:443-460 | drops expired sessions and empties exactly the buckets that are idle, unlocked and old or past a lockout |
| `LoginRate.Authenticator.AdmitAttempt` | web/internal/localauth/authenticator.go:371-389 | admits if and only if the cleaned bucket is unlocked and below the limit; counts the attempt in flight; drops expired sessions |
| `LoginRate.Authenticator.CancelAttempt` | web/internal/localauth/authenticator.go:391-404 | takes one attempt out of flight, nothing else |
| `LoginRate.Authenticator.FinishAttempt` | web/internal/localauth/authenticator.go:406-428 | takes it out of flight, counts or clears failures, and locks at the limit |
| `LoginRate.Authenticator.AcquirePasswordCheck` | web/internal/localauth/authenticator.go:430-437 | takes a slot if and only if one is free |
| `LoginRate.InvariantAlways` | web/internal/localauth/authenticator.go:253-302 | in every interleaving each bucket keeps failures + inFlight at most five, inFlight is the number of logins between admission and finish or cancel, a lockout is set only on an otherwise empty bucket, and one password is checked at a time |
| `LoginRate.SuccessClears` | web/internal/localauth/authenticator.go:406-428 | a successful login leaves no failure on its bucket and the bucket open |
| `LoginRate.NeverLockedBelowLimit` | web/internal/localauth/authenticator.go:406-428 | in every interleaving, with fewer than five failures since its last success an open bucket is never locked |
| `LoginRate.LockoutLasts` | web/internal/localauth/authenticator.go:371-428 | a bucket is locked only by a fifth failure, and then admits a login exactly from fifteen minutes after it |
| `LoginRate.FiveFailuresPerWindow` | web/internal/localauth/authenticator.go:371-460 | from every reachable state, any window shorter than fifteen minutes with no success in a bucket holds at most five failures in it, if no cleanup is made with a time after its end and no login cancelled on the bucket had read the clock more than fifteen minutes before its end; when admissions read the clock, and what other buckets do, does not matter |
| `LoginRate.NineFailures` | web/internal/localauth/authenticator.go:253-302 | with such a login there is a run with nine failures in one instant |
| `LoginRate.LimitedIffCancelsRecent` | web/internal/localauth/authenticator.go:371-460 | the limit of five holds in all such windows of all runs if and only if logins cancelled in them had read the clock at most fifteen minutes before their end |
| `SingleFlight.CapacityCache.Look` | src/internal/api/server.go:65-91 | the locked section: the cached result while valid, else the duty to fetch or the channel to wait on |
| `SingleFlight.CapacityCache.Publish` | src/internal/api/server.go:84-87 | stores sample, error and time, and clears the channel |
| `SingleFlight.HostStatsCache.Look` | src/internal/api/server.go:111-136 | the same section of the host statistics cache |
| `SingleFlight.HostStatsCache.Publish` | src/internal/api/server.go:125-133 | stores only a success; always clears the channel |
| `SingleFlight.CoordinatedAlways` | src/internal/api/server.go:64-98 | in every interleaving `wait` is set exactly while one caller fetches, with its channel, and every waiter waits on that channel or a closed one |
| `SingleFlight.NoLostWakeup` | src/internal/api/server.go:84-96 | a blocked waiter waits for the one caller that fetches, and whatever that caller publishes, the waiter can go on |
| `SingleFlight.ClosesOnce` | src/internal/api/server.go:84-88 | a channel is never closed twice |
| `SingleFlight.FaithfulAlways` | src/internal/api/server.go:64-144 | in every run the cache is valid exactly while the last publication is younger than its life, and then answers with it |
| `SingleFlight.EntryFollowsTrace` | src/internal/api/server.go:64-144 | a cached answer is the last published result and younger than the TTL that applies; a caller waits exactly when that is over and another fetches, and fetches exactly when nobody does |
| `SingleFlight.StartsBound` | src/internal/api/server.go:64-144 | over any stretch of any run of either cache, each sampler start after the first, but for one per publication of the stretch that answers nobody, has cost a whole TTL |
| `SingleFlight.CapacityStartsBound` | src/internal/api/server.go:64-98 | for capacity, unconditionally: at most one start a second, and one more |
| `SingleFlight.HostStatsBoundIsTight` | src/internal/api/server.go:125-133 | every pattern of successful and failing collections meets that bound exactly; so any number of starts can happen in an instant while collections fail |
| `Baseline.DecodeEncode` | src/cmd/recovery-drill-verify/main.go:216-224 | the hashed text can be read back to the field list, whatever bytes the fields hold |
| `Baseline.EncodeInjective` | src/cmd/recovery-drill-verify/main.go:216-224 | two field lists with the same hashed text are equal |
| `Baseline.DigestFields` | src/cmd/recovery-drill-verify/main.go:216-224 | the running hash is fed exactly that text |
| `Baseline.ReadBaselineFromDB` | src/cmd/recovery-drill-verify/main.go:133-184 | succeeds if and only if the application exists, has at most 128 records and their ids are non-empty and distinct; otherwise reports the first fault; the records are the fingerprints of exactly the rows, strictly sorted |
| `Baseline.CompareRecords` | src/cmd/recovery-drill-verify/main.go:193-213 | accepts if and only if every expected id is present, every known record has its digest and every other one is a skipped poll; a reported fault is real |
| `Baseline.CompareBaseline` | src/cmd/recovery-drill-verify/main.go:186-214 | the same for a whole database and any baseline, with the configuration digest |
| `Baseline.DrillMeaning` | src/cmd/recovery-drill-verify/main.go:133-224 | with a hash that does not confuse the texts at hand, a database's baseline is accepted against another if and only if configuration and every row came through unchanged and only skipped polls were added |
| `SemVer.TagRoundTrip` | src/internal/registry/semver.go:20-59 | a tag written from numbers parses to exactly those parts; four or more numbers, or one beyond an int, are refused |
| `SemVer.PartsNotNegative` | src/internal/registry/semver.go:20-59 | every parsed version has parts in the range of an int that are not negative, and keeps its raw text |
| `SemVer.CompareIsPrecedence` | src/internal/registry/semver.go:62-89 | Compare is the lexicographic order of major, minor, patch and release-ness |
| `SemVer.ComparePreorder` | src/internal/registry/semver.go:62-89 | a total preorder |
| `SemVer.FindLatestTag` | src/internal/registry/semver.go:106-150 | for every tag list and policy text: an eligible tag strictly above the current one that no eligible tag exceeds, or none when there is none |
| `SemVer.AskingAgainFindsNothing` | src/internal/registry/semver.go:106-150 | asking again from the answer over the same tags finds nothing |
| `SemVer.PollsClimb` | src/internal/registry/semver.go:106-150 | over any sequence of polls with changing tag lists the tag in use is one the policy would have allowed from the start |
| `SemVer.PollsKeepLine` | src/internal/registry/semver.go:106-150 | over any sequence of polls the major version under "major", and the minor too under "minor", never changes, a release never turns into a prerelease, and the version never goes down |
| `SemVer.EligibleIff` | src/internal/registry/semver.go:118-138 | a tag may be moved to exactly when it is in the policy's line, higher, and not a prerelease in place of a release |
| `SemVer.PrereleasesTie` | src/internal/registry/semver.go:81-88 | any two parsed tags with equal numbers and non-empty prereleases tie, and neither is ever an update of the other |
| `SemVer.CompareListsOrder` | src/internal/registry/semver.go:81-88 | the standard's order on prerelease identifiers is a total preorder |
| `SemVer.AgreesWithStandardIff` | src/internal/registry/semver.go:62-89 | Compare agrees with section 11 of Semantic Versioning 2.0.0 if and only if the two are not prereleases of one version that the standard ranks differently |
| `SemVer.DisagreesOnNumbered` | src/internal/registry/semver.go:81-88 | numbered prereleases of one version are such a family |
| `SemVer.AnswerIsHighest` | src/internal/registry/semver.go:106-150 | an answer of FindLatestTag is outranked, in the standard's order, only by prereleases of the version it names |
| `ConfigSync.Syncer.RegisterOne` | src/internal/reconciler/configsync.go:117-151 | one name of the registering loop: its record and calls, nothing else |
| `ConfigSync.Syncer.RemoveOne` | src/internal/reconciler/configsync.go:154-177 | one name of the removing loop |
| `ConfigSync.Syncer.SyncConfigManifests` | src/internal/reconciler/configsync.go:63-178 | for every map order and every set of failing store calls, each name ends with its own record and gets exactly the calls due for it, in order; a failed listing changes nothing |
| `ConfigSync.PassConverges` | src/internal/reconciler/configsync.go:63-178 | after a pass every name on disk is stored and every manifest-sourced record is on disk and current, if and only if no store call it needed failed; then a further pass calls nothing |
| `ConfigSync.PassesSettle` | src/internal/reconciler/configsync.go:63-178 | over any run of passes, each with its own manifests and failures, records from the API never change, and while the manifests match what is stored nothing does |
| `ConfigSync.TornDownIff` | src/internal/reconciler/configsync.go:153-177 | brought down exactly when manifest-sourced, not on disk and parsable; deleted exactly when the delete succeeds, after the Down |
| `ConfigSync.ScheduledIff` | src/internal/reconciler/configsync.go:117-151 | created exactly when the manifest is new, updated exactly when it changed, scheduled exactly when that succeeded, right after it |
| `ConfigSync.RegisteredRecord` | src/internal/reconciler/configsync.go:126-150 | a new record holds the manifest and no sync state; a rewritten one keeps its sync state |
| `ConfigSync.RememberedIffSpared` | src/internal/reconciler/configsync.go:153-177 | over such runs a manifest-sourced application stays stored and keeps its sync state if and only if every pass finds its manifest or fails to delete it |
| `ConfigSync.ForgottenForGood` | src/internal/reconciler/configsync.go:117-151 | once it is gone, whatever pass registers it again, its sync state is that of a new record |

## Left out

- HTTP handlers, routing, JSON, CLI commands and configuration loading: one-branch properties.
- Docker, docker compose, go-git, SQLite, YAML, Argon2, HMAC and SHA-256: their answers are parameters or environment steps; the drill's hash is a parameter.
- Floating-point metrics: rounding over data from the Docker SDK.
- Event watcher, reconnect backoff, SSE hub, notifiers and host monitor: timing and I/O.
- Secrets, redaction, presentation credentials, host policy, TLS, login challenges and cookies.
- The web presentation and the macOS console.
- Shutdown and context cancellation: a cancelled wait is one more way for a call to fail; the worker that exits between queue and lock is not modelled.
- Rollback's own body: only its use of the per-application mutex is modelled.
- computeDiff: its outcome is a parameter of `Reconcile.ReconcileApp`, with the status writes it makes itself.
- LastError, HealthStatus, ServicesJSON and the history record of a run: `Reconcile.ReconcileApp` follows the sync status, LastSyncedSHA and HeadSHA columns.
- `SetPollOverride`, polling intervals and the retention loop: the next time of a reschedule is a parameter.
- Merge.BracketingIrrelevant: ports are compared in merge order, before normalize sorts them; container names are merged, but the source's spec does not hold them either.
- The summary text of a diff.
- A wall clock that is set back: in `HealthStore` the present never goes back, though the timestamps written may be late.
- Writers other than the passes themselves between two passes of `ConfigSync`.
- Reading manifest files: a pass starts from the collected manifests.
- The readBaseline checks on the baseline file: `Baseline.CompareBaseline` holds for every baseline.
- Scheduler.ReconcilerImpl.NextWakeTime: states its minimum where no scheduled time is the zero time, which the code uses as its marker for none; scheduled times come from the clock.
- Scheduler.ReconcilerImpl.EnqueueDueApps: has no worker taking from the queue meanwhile; the interleaving with workers is in the transition system.
- Strings are sequences of bytes held as characters: no Unicode.
