# Kubernetes images sync operator: a verified model

The operator copies the container images of a cluster to object storage. A `ClusterImageExport`
names what to copy; its controller discovers the images, creates one `ClusterImage` for each and
watches for completion. The image controller drives every `ClusterImage` through PENDING, RUNNING,
RETRYING, COMPLETED, FAILED or PRESENT by means of one job each, under a limit on concurrent jobs
that all exports share through one in-memory counter. Deleting an export starts a cleanup job that
deletes its archives.

The project models both controllers, the discovery that feeds them, and the storage paths, and
proves what they guarantee over all runs. Verify it with `dafny verify dfyconfig.toml`.

## How it is built

| file | contents |
|---|---|
| `cluster.dfy` | API objects, API calls, any of which may fail, and the history of a run |
| `controllers.dfy` | what each reconcile does, as functions on worlds |
| `operator.dfy` | the two reconcilers step by step, as a class that updates its fields, proved equal to those functions |
| `history.dfy` | the history records what happens and nothing else |
| `runs.dfy` | events: reconciles, jobs that succeed, fail or vanish, exports applied and edited, deletions, restarts of the operator |
| `image_moves.dfy`, `image_results.dfy`, `export_moves.dfy` | the complete table of what a reconcile can do, failing at any call |
| `image_outcomes.dfy`, `export_outcomes.dfy` | what each reconcile comes to, in plain terms and without the notions the controllers are written with |
| `retries.dfy`, `slots.dfy`, `termination.dfy`, `liveness.dfy`, `presence.dfy`, `justification.dfy` | the image controller over whole runs, proved from the table |
| `purge_reach.dfy`, `failure_reports.dfy`, `failure_repairs.dfy` | which jobs a purge takes and which failures go unreported, told from the state before, and when they are told later |
| `end_to_end.dfy` | termination, absence of deadlock and completion put together |
| `export_tracking.dfy`, `export_completion.dfy`, `export_loops.dfy` | the status of an export, written by both controllers, its finalizer, and what its create loops leave behind |
| `export_deletion.dfy` | when a deleted export goes, and what ends its cleanup job |
| `witnesses.dfy`, `refuting_runs.dfy` | families of runs that refute plausible claims, and runs from the empty cluster that end in them |
| `container_names.dfy`, `parallel_collection.dfy`, `image_filters.dfy`, `image_objects.dfy`, `discovery.dfy` | from pods to image objects |
| `image_naming.dfy`, `storage_paths.dfy`, `stored_archives.dfy` | names, archive paths, cleanup |
| `settled_runs.dfy` | what is stored, and within reach of cleanup, after any run from the empty cluster |
| `sequences.dfy` | facts about concatenation |

## Assumptions

- A reconcile is one atomic step, since neither controller sets a concurrency option, and its
  reads are consistent. What a reconcile cannot know is part of its event: restart counts of pods,
  which a cache may show after the pods are gone, and order and completeness of the job listing a
  purge works on.
- An API call takes effect or fails without effect. An event says how many calls still succeed;
  lemmas about every run hold for every such number. A failing read leaves what failing at the
  next write leaves or, before the first write, what not running at all leaves.
- A reliable run, where a lemma asks for one, has succeeding calls in image reconciles, complete
  listings for purges, and no operator restart. Jobs may still be deleted from outside and images
  may still be deleted.
- The history of a world is read by no controller. It holds what the claims are about: jobs lost
  (gone without their own image's cleanup), jobs created, full names for which a job succeeded,
  failed or was lost, what the jobs of an export were told to write since it was applied, whether its
  bucket or base path was edited, what its latest create loop was given and whether that loop reached
  its end, and the spec its latest cleanup job was created from.
- The digest in image keys is an arbitrary function; lemmas that need it to tell texts apart say so.
- The lower case of a character is an arbitrary function; the filters apply it character by
  character.
- Deleting an image takes its job with it. The spec of an export may be edited at any time. A name
  of an export is used again only after the old object and its images are gone.

## What does not hold

Each of these is shown by an input or follows from the condition named beside it; a lemma named `…Iff` is
the exact condition.

- `ActiveJobs` is not the number of jobs: it is that plus the jobs lost (`Slots.SlotAccounting`),
  plus an exact amount for every failing write and every restart (`SlotDrift.DriftsAddUp`). After a
  restart of the operator there can be twice as many jobs as the limit, and no more
  (`SlotDrift.RestartCosts`, `RefutingRuns.RestartExceedsLimitRun`).
- PRESENT does not mean stored (`RefutingRuns.PresentWithoutArchiveRun`). Behind a PRESENT image
  there is a job of its full name that succeeded or has not failed, unless a job of that very name
  failed or was lost (`Justification.PresentIsJustified`); `Justification.JustificationBreaksIff`
  says which steps break this, and `PurgeReach.ReconcileTakesIff` which jobs a purge takes. COMPLETED
  does mean stored.
- A stuck cluster need not be finished: lost jobs can starve images (`RefutingRuns.LostJobStarvesRun`;
  `Liveness.StuckIff` says when).
- An export can be COMPLETED while an image of it has not been looked at, and no longer be COMPLETED
  afterwards (`RefutingRuns.CompletedTooEarlyRun`, `RefutingRuns.CompletedTakenBackRun`):
  the two completion checks can disagree (`ExportCompletion.VerdictsAgreeIff` says when).
- An export can be COMPLETED without an image it asked for, in two ways. When the create of one image
  fails, the image controller may find the others stored and write COMPLETED, after which no later
  reconcile creates the missing one (`RefutingRuns.CompletedAfterFailingCreate`): a COMPLETED export
  has an object at every key it asked for if and only if its latest create loop reached its end
  (`ExportLoops.CompletedHasAllIff`), and the loop does if and only if the calls that succeed pay for
  it (`ExportLoops.CutShortIff`). And export name, image, tag and sha are digested without separators,
  so `nginx1:0` and `nginx:10` have one key under every digest (`RefutingRuns.CompletedWithoutImage`,
  `RefutingRuns.ForInstanceNginx`). `ImageObjects.EachGetsItsOwnIff` says, for both, when every image
  gets its own object, and `ExportLoops.CompletedHasEachIff` what COMPLETED is worth.
- An image can be FAILED and its export not, when a call of the image's reconcile fails in between
  (`RefutingRuns.UnreportedFailureRun`): `FailureReports.TrackingBreaksIff` says at exactly which calls.
  The export's next look at the image tells, unless the export was COMPLETED before
  (`FailureRepairs.NextLookRestoresIff`); then it stays COMPLETED next to a FAILED image for good
  (`RefutingRuns.NeverReportedRun`).
- Which worker finishes first can decide what is pulled: requested images that differ, in full name
  or namespace or altogether, but share a missing key are rivals for it (`Discovery.WorkersDecideImage`).
  The order of a request decides nothing if and only if it has no rivals
  (`ImageObjects.OrderIrrelevantIff`).
- A deletion whose second call fails is blocked by the cleanup job it has just created
  (`RefutingRuns.DeletionBlocksItself`); an export being deleted goes if and only if no cleanup job of
  its name is there and both calls succeed (`ExportDeletion.ExportGoesIff`).
- An export can be gone without its cleanup ever running, because the purge of a namespace takes
  cleanup jobs too (`RefutingRuns.PurgedCleanupRun`; `ExportDeletion.CleanupJobGoesIff` says when).
- After an edit of bucket or base path a cleanup misses the archives written before
  (`RefutingRuns.EditOrphansArchive`), unless the new place is the old one or one around it
  (`StoredArchives.EditKeepsArchivesIff`).
- A cleanup ignores what the store answers: objects it refuses to delete stay, and no error is raised
  (`StoragePaths.ObjectStore.RemoveFromS3` says exactly what is gone).
- Two images of one export can be told to write one archive, the later one over the earlier: `a:b` and
  `a/b`, for instance (`StoragePaths.TagAndPathMeet`; `StoragePaths.ArchivesMeetIff` says when).
- Cleanup paths do not mention the namespace, and nested base paths collide; within one bucket and
  base path, and between different names, cleanups are isolated for every bucket and base path.

## Model

| member | source | states |
|---|---|---|
| `OperatorProcess.Operator.Reconcile` | internal/controller/raczylo.com/clusterimage_controller.go:43-90 | The whole new state and the result of an image reconcile, whichever of its API calls fails, equal `Controllers.Reconcile` of the old state: throttling before the switch, unknown progress ignored. |
| `OperatorProcess.Operator.HandlePendingClusterImage` | internal/controller/raczylo.com/clusterimage_controller.go:92-132 | PRESENT when an image of that name stands; otherwise job, RUNNING written twice, and only then the slot taken; each of the three calls may fail. |
| `OperatorProcess.Operator.HandleRunningClusterImage` | internal/controller/raczylo.com/clusterimage_controller.go:134-209 | The five branches (job gone, succeeded, failed with and without retries left, still running), the order of counter, status and cleanup in each, and the common tail after all but two of them. |
| `OperatorProcess.Operator.HandleRestarts` | internal/controller/raczylo.com/clusterimage_controller.go:348-377 | The nested pod and container loops act on the first positive restart count only: add it, then FAILED and a purge from 3 on, RETRYING below. |
| `OperatorProcess.Operator.RemoveAllJobsAndContainers` | internal/controller/raczylo.com/clusterimage_controller.go:394-407 | The purge loop deletes the listed jobs of one namespace in listing order and stops at the first failing call. |
| `OperatorProcess.Operator.CheckImageExists` | internal/controller/raczylo.com/clusterimage_controller.go:409-429 | True exactly when a differently named image, in any namespace, has the same full name and is COMPLETED, PRESENT or RUNNING, or the image itself is COMPLETED; stated in these words. |
| `OperatorProcess.Operator.UpdateClusterImageExportStatus` | internal/controller/raczylo.com/clusterimage_controller.go:286-346 | The flag loop and the precedence of the flags give the export the aggregate of its images; written only when it differs; requeue unless the switch found nothing unfinished. |
| `OperatorProcess.Operator.ReconcileClusterImageExport` | internal/controller/raczylo.com/clusterimageexport_controller.go:46-180 | The whole new state and the result of an export reconcile equal `Controllers.ReconcileExport`, with finalizer, early return, PENDING, discovery failure, RUNNING, create loop and verdict in this order, failing anywhere. |
| `OperatorProcess.Operator.ParseAdditionalImages` | internal/controller/raczylo.com/clusterimageexport_controller.go:90-99 | Appends the parse of each additional image that parses, in order, through the shared cache, and skips the others. |
| `OperatorProcess.Operator.CreateClusterImages` | internal/controller/raczylo.com/clusterimageexport_controller.go:107-179 | The create loop with its early exits: an existing FAILED key ends it with the export FAILED, another existing key is skipped, a failing create ends it; then the completion check. |
| `OperatorProcess.Operator.CheckAllClusterImagesCompleted` | internal/controller/raczylo.com/clusterimageexport_controller.go:182-195 | True exactly when every image of the export is COMPLETED or PRESENT. |
| `ImageOutcomes.PassiveOutcomes` | internal/controller/raczylo.com/clusterimage_controller.go:43-89 | State and result for an image that is gone, orphaned, new, throttled or final, for any number of succeeding calls: new becomes PENDING and is run again, throttled waits half a minute, final is left alone. |
| `ImageOutcomes.PendingOutcomes` | internal/controller/raczylo.com/clusterimage_controller.go:92-131 | For any number of succeeding calls, a PENDING image with a free slot becomes PRESENT, with jobs and counter unchanged, if and only if an image of another name, in any namespace, has its full name and is COMPLETED, PRESENT or RUNNING; otherwise a job of its full name is created, two calls later it is RUNNING, and three calls later it has its slot. |
| `ImageOutcomes.RestartOutcomes` | internal/controller/raczylo.com/clusterimage_controller.go:348-377 | For every list of pods: without a positive restart count nothing changes; otherwise the retries grow by the count of the first container of the first pod that has one, below 3 in all the image is RETRYING, from 3 on it is FAILED and exactly the listed jobs of the namespace are gone. |
| `ImageOutcomes.RunningOutcomes` | internal/controller/raczylo.com/clusterimage_controller.go:134-208 | The whole decision of a RUNNING or RETRYING image with reliable calls: job gone, failed with fewer than three retries, or otherwise what the job's state makes of the image and then the restarts. |
| `ImageOutcomes.ExportIsTold` | internal/controller/raczylo.com/clusterimage_controller.go:286-345 | After a reconcile that comes to its end the export is FAILED if and only if an image of it is; RUNNING iff none is FAILED and one is RUNNING or RETRYING; PENDING iff none of these and one is PENDING; COMPLETED iff none of all these; and it is run again in all cases but the last. |
| `ImageOutcomes.ExportIsToldOnce` | internal/controller/raczylo.com/clusterimage_controller.go:331-345 | For any number of succeeding calls: the export is written, in one call, only when its status is not yet what its images say. |
| `StoredNames.StoredIsNotPulledAgain` | internal/controller/raczylo.com/clusterimage_controller.go:409-421 | In every run, whatever fails: as long as a COMPLETED image is not deleted it stays COMPLETED, and no job of its full name is created for an image of another name. |
| `ExportOutcomes.EarlyOutcomes` | internal/controller/raczylo.com/clusterimageexport_controller.go:46-105 | For any number of succeeding calls, where a reconcile of an export stops before the create loop and what has then been written: finalizer, early return, PENDING, failed listing, RUNNING. |
| `ExportOutcomes.DeletionOutcomes` | internal/controller/raczylo.com/clusterimageexport_controller.go:243-261 | For any number of succeeding calls: an export being deleted without the finalizer is left alone; with it the cleanup job is created from its spec, then the object goes. |
| `ExportOutcomes.AdditionalParses` | internal/controller/raczylo.com/clusterimageexport_controller.go:90-99 | The additional images are the parses of exactly the given names that parse, in order. |
| `ExportOutcomes.LoopStopsAtFailed` | internal/controller/raczylo.com/clusterimageexport_controller.go:107-122 | The create loop creates no object after the first request whose key holds a FAILED image; it makes the export FAILED if and only if the calls pay for the objects missing before it and for the status. |
| `ExportOutcomes.FailsIff` | internal/controller/raczylo.com/clusterimageexport_controller.go:115-121 | A reconcile of an unfinished export makes it FAILED if and only if some requested key holds a FAILED image and the calls last until that is met and told; with reliable calls, if and only if there is one. |
| `ExportOutcomes.ExportVerdict` | internal/controller/raczylo.com/clusterimageexport_controller.go:107-179 | Otherwise, with reliable calls: COMPLETED if every image of the export is COMPLETED or PRESENT after the loop, and else RUNNING and run again. |
| `ExportOutcomes.CreatedImages` | internal/controller/raczylo.com/clusterimageexport_controller.go:108-156 | What is created, field by field and at which key. |
| `Cluster.JobNamesAreDistinct` | internal/controller/raczylo.com/clusterimage_controller.go:137 | Job names separate images, and export jobs from cleanup jobs, so jobs can be keyed by image. |
| `Cluster.CleanupNamesMeetIff` | internal/controller/raczylo.com/clusterimageexport_controller.go:266 | Cleanup jobs of two exports have one name if and only if the export names have the same words; the name is the export's own with a prefix exactly when the export name is clean. |
| `ImageMoves.ReconcileMoves` | internal/controller/raczylo.com/clusterimage_controller.go:43-209 | Every reconcile of an existing image, failing at any call, is one of ten moves (idle, adopted, present, started, job missed, stored, retried, given up, restarted, purge), each stated by its complete effect on images, jobs, counter and history. |
| `ImageMoves.FinishTail` | internal/controller/raczylo.com/clusterimage_controller.go:197-208 | The tail leaves things alone, sends the image to RETRYING, or fails it and purges; and says which restart count leads to which. |
| `ImageMoves.PurgeEffect` | internal/controller/raczylo.com/clusterimage_controller.go:394-407 | A purge deletes only jobs of its namespace, all listed ones if it succeeds, and each export job it deletes is one slot lost. |
| `ImageMoves.MoveKeepsImages` | internal/controller/raczylo.com/clusterimage_controller.go:78-208 | No move creates or deletes an image, touches another one, or changes what its own is an image of. |
| `ImageResults.FinishInforms` | internal/controller/raczylo.com/clusterimage_controller.go:197-208 | When the tail succeeds, the export has the aggregate of its images as they are afterwards, and the result is a requeue unless nothing unfinished was found; no other export changes. |
| `ImageResults.ReconcileExports` | internal/controller/raczylo.com/clusterimage_controller.go:43-209 | What an image reconcile does to exports: its own gets the aggregate or stays as it is, and others are untouched; with reliable calls the only error is a job already there. |
| `ImageResults.NoLostWakeup` | internal/controller/raczylo.com/clusterimage_controller.go:43-209 | A reconcile that ends without error and leaves the image unfinished asks to be run again. |
| `ImageResults.NamespacesAreIsolated` | internal/controller/raczylo.com/clusterimage_controller.go:43-209 | An image reconcile, purge included, changes no image, export or job of another namespace. |
| `Retries.RetryBounds` | internal/controller/raczylo.com/clusterimage_controller.go:134-194 | In every run, failing calls, restarts and lost jobs included: FAILED means at least 3 retries, not FAILED at most 3, and at most 4 plus the jobs lost for it are ever created for an image. |
| `Retries.RetriesNeverDrop` | internal/controller/raczylo.com/clusterimage_controller.go:348-372 | No event but its own deletion lowers the retry count of an image. |
| `Slots.SlotAccounting` | internal/controller/raczylo.com/clusterimage_controller.go:61-76 | In every run with succeeding API calls, complete purge listings and no operator restart: `ActiveJobs` is the number of export jobs plus the lost ones, so with every limit at most B there are at most B jobs over all exports; every job belongs to a RUNNING or RETRYING image and a PENDING one has none. |
| `SlotDrift.FailureDrift` | internal/controller/raczylo.com/clusterimage_controller.go:115-194 | For every number n of calls that succeed before one fails: exactly by how much the counter is then off. The accounting survives if and only if the failure does not fall between a job and its slot. |
| `SlotDrift.SlotsWithoutBound` | internal/controller/raczylo.com/clusterimage_controller.go:155-162 | While the status of an image with a succeeded job cannot be written, each attempt lowers the counter once more, without bound. |
| `SlotDrift.DriftsAddUp` | internal/controller/raczylo.com/clusterimage_controller.go:61-76 | In every run, failing calls and restarts included: the counter is the jobs that exist plus the jobs lost plus the drifts of the run, and with every limit at most B that sum is at most B. |
| `SlotDrift.RestartCosts` | internal/controller/raczylo.com/clusterimage_controller.go:27-33 | After a restart of the operator with consistent books, in every reliable run: jobs and lost jobs together exceed the limit by at most the jobs that were there or lost at the restart, so they stay within twice the limit. |
| `RefutingRuns.RestartExceedsLimitRun` | internal/controller/raczylo.com/clusterimage_controller.go:61-76 | From the empty cluster, with a limit of one: one restart, and two jobs run side by side. |
| `Liveness.StuckIff` | internal/controller/raczylo.com/clusterimage_controller.go:64-89 | Nothing can change if and only if no job is left and every image is final or starved, that is PENDING with a limit not above the number of lost jobs; with no job lost and limits of at least 1, stuck means every image is final. |
| `Liveness.DeadlockFreeIff` | internal/controller/raczylo.com/clusterimage_controller.go:64-89 | The same for every world reached from the empty one by a reliable run. |
| `Termination.ReconcileDecreases` | internal/controller/raczylo.com/clusterimage_controller.go:78-208 | Every reconcile, failing anywhere, leaves images and job stages alone or strictly lowers a measure, although a purge sends other images back and restarts overwrite COMPLETED. |
| `Termination.StepDecreases` | internal/controller/raczylo.com/clusterimage_controller.go:78-208 | The same for every event of a run without outside job deletion and with a fixed set of images. |
| `Termination.ChangesAreBounded` | internal/controller/raczylo.com/clusterimage_controller.go:78-208 | The changes of such a run plus the measure at its end are at most the measure at its start. |
| `Termination.QuadraticallyManyChanges` | internal/controller/raczylo.com/clusterimage_controller.go:78-208 | From any reachable world with n images at most 16n² + 25n events change anything. |
| `EndToEnd.SomeRunFinishes` | internal/controller/raczylo.com/clusterimage_controller.go:43-209 | From every world with the invariants of reliable runs and an export for each image, some reliable and undisturbed run leads to one in which nothing can change any more. |
| `EndToEnd.FinishesEndToEnd` | internal/controller/raczylo.com/clusterimageexport_controller.go:68-179 | Every reliable run from the empty cluster with no job lost and positive limits, once nobody interferes: at most 16n² + 25n steps change anything; when nothing can change any more every image is final and no job is left; and every export that kept its images and finds what it asks for there is then COMPLETED or FAILED after one more reconcile. |
| `Presence.PresentMeansJobCreated` | internal/controller/raczylo.com/clusterimage_controller.go:92-126 | In every run a PRESENT image shares its full name with one for which a job was created, and no two differently named images of one full name are both RUNNING. |
| `Justification.PresentIsJustified` | internal/controller/raczylo.com/clusterimage_controller.go:92-126 | In every run, whatever fails: a COMPLETED image's full name was stored by a job, and behind a PRESENT image, unless a job of that very full name has failed or been lost, there is a job of that name that succeeded or is there and has not failed. |
| `Justification.JustificationBreaksIff` | internal/controller/raczylo.com/clusterimage_controller.go:409-421 | Exactly the steps that leave a PRESENT image with nothing behind it, told from the state before: those that fail, delete or, by a purge whose calls reach them, take every unfailed job of a name no job of which has succeeded, and those in which a PENDING image finds only RUNNING ones whose jobs are gone or have failed. |
| `PurgeReach.PurgeTakesIff` | internal/controller/raczylo.com/clusterimage_controller.go:394-407 | A purge deletes a job, of an image or a cleanup, if and only if the listing names it in the namespace at a place the succeeding calls still reach. |
| `PurgeReach.ReconcileTakesIff` | internal/controller/raczylo.com/clusterimage_controller.go:134-209 | A reconcile takes a job that has not ended, or a cleanup job, if and only if it comes to a purge, as image, job, restarts and succeeding calls say, and the purge reaches the job. |
| `SettledRuns.StoredOnceSettled` | internal/controller/raczylo.com/clusterimage_controller.go:92-126 | After every run from the empty cluster that leaves no job: the full name of each COMPLETED or PRESENT image was stored, unless the image is PRESENT and a job of that name was created and has failed or been lost. |
| `Witnesses.PresentOnEachOthersAccount` | internal/controller/raczylo.com/clusterimage_controller.go:409-421 | From every world with two fresh images of one name and room for a job, eight events end with both PRESENT and nothing stored. |
| `RefutingRuns.PresentWithoutArchiveRun` | internal/controller/raczylo.com/clusterimage_controller.go:92-106 | From the empty cluster: two exports of one image end with both image objects PRESENT and nothing ever stored. |
| `HistoryFacts.HistoryIsTrue` | internal/controller/raczylo.com/clusterimage_controller.go:276-284 | The history the claims speak of is true at every event: a job is counted as created, and its full name recorded, exactly when it appears, and a name is recorded as stored exactly when a job of it reports success. |
| `Witnesses.LostJobStarves` | internal/controller/raczylo.com/clusterimage_controller.go:141-148 | An outside deletion of the only job starves its image for good when the limit is used up by lost jobs. |
| `RefutingRuns.LostJobStarvesRun` | internal/controller/raczylo.com/clusterimage_controller.go:141-148 | From the empty cluster: with a limit of one, one outside deletion leaves a cluster in which nothing can change any more and the image PENDING. |
| `Witnesses.CompletedTooEarly` | internal/controller/raczylo.com/clusterimage_controller.go:301-323 | The image controller calls an export COMPLETED although an image of it has not been touched yet. |
| `RefutingRuns.CompletedTooEarlyRun` | internal/controller/raczylo.com/clusterimage_controller.go:301-323 | From the empty cluster: an export of two images ends COMPLETED when one is stored and the other not yet looked at. |
| `Witnesses.CompletedTakenBack` | internal/controller/raczylo.com/clusterimage_controller.go:331-338 | And takes it back when that image is seen RUNNING. |
| `RefutingRuns.CompletedTakenBackRun` | internal/controller/raczylo.com/clusterimage_controller.go:331-338 | From the empty cluster: an export of two images is COMPLETED and later is not. |
| `ExportMoves.ReconcileExportShape` | internal/controller/raczylo.com/clusterimageexport_controller.go:46-105 | A reconcile of an export that is not being deleted stops early with at most finalizer and PENDING written, or is the create loop started with the finalizer in place and RUNNING written. |
| `ExportMoves.ReconcileExportFrame` | internal/controller/raczylo.com/clusterimageexport_controller.go:46-180 | Whatever fails, no job, counter, existing image or other export changes, and every new image is fresh, of this export, and carries its base path. |
| `ExportTracking.SeparateKeysNeverMeet` | internal/controller/raczylo.com/clusterimageexport_controller.go:108 | If the digest separates the export names among the strings it is applied to, no export meets another one's image at a key it asks for. |
| `ExportTracking.KeyIsOwnImage` | internal/controller/raczylo.com/clusterimageexport_controller.go:108 | If the digest tells the texts it is applied to apart, and no two different requests have one text, the object at a requested key is of that very export, image, tag and sha. |
| `ExportTracking.StepKeepsKeysOwn` | internal/controller/raczylo.com/clusterimageexport_controller.go:107-162 | Every image stays at the key of its own export name and container. |
| `ExportTracking.ExportFailsWithItsImages` | internal/controller/raczylo.com/clusterimage_controller.go:286-338 | In every run in which image reconciles do not lose calls and keys do not meet, an export that never had an image deleted is FAILED exactly when one of its images is. Calls of the export controller may fail. |
| `ExportTracking.SeparatedExportsFailWithTheirImages` | internal/controller/raczylo.com/clusterimage_controller.go:286-338 | The same for every run from the empty cluster, from a digest that separates the exports instead of a condition on the worlds between. |
| `ExportTracking.FailureIsFinal` | internal/controller/raczylo.com/clusterimageexport_controller.go:69-72 | In every run, failing calls included: a FAILED image stays FAILED until it is deleted, and so long its export, once FAILED, stays FAILED as long as it exists. |
| `FailureReports.TrackingBreaksIff` | internal/controller/raczylo.com/clusterimage_controller.go:134-208 | In the state before, whatever calls fail: an event ends the agreement between a FAILED image and a FAILED export if and only if it makes the image FAILED and a later call, of clean-up, purge, status or export status, fails before the export is told; the number of calls up to each point is given. |
| `RefutingRuns.UnreportedFailureRun` | internal/controller/raczylo.com/clusterimage_controller.go:356-377 | From the empty cluster: restarts fail an image, the next call fails, and the image is FAILED while its export is not. |
| `FailureReports.ReportedFailuresAreTracked` | internal/controller/raczylo.com/clusterimage_controller.go:286-338 | In every run from the empty cluster, failing calls of both controllers included: an export none of whose failures went unreported, and no image of which was deleted, is FAILED exactly when one of its images is. |
| `FailureRepairs.NextLookTellsIff` | internal/controller/raczylo.com/clusterimageexport_controller.go:115-121 | A reliable reconcile of an export that requests a FAILED image of it ends with the export FAILED if and only if it was not COMPLETED. |
| `FailureRepairs.NextLookRestoresIff` | internal/controller/raczylo.com/clusterimageexport_controller.go:69-72 | After an unreported failure the next such reconcile restores the agreement between image and export if and only if the export was not COMPLETED when the image failed. |
| `FailureRepairs.ClosedForGood` | internal/controller/raczylo.com/clusterimageexport_controller.go:69-72 | A COMPLETED export all of whose images are final keeps its status and its images, FAILED ones included, through every further run that does not delete it or one of them. |
| `RefutingRuns.NeverReportedRun` | internal/controller/raczylo.com/clusterimageexport_controller.go:69-72 | From the empty cluster: an export COMPLETED too early, whose second image then fails unreported, is COMPLETED next to a FAILED image in every further run that leaves it alone. |
| `ExportCompletion.CompletesIff` | internal/controller/raczylo.com/clusterimageexport_controller.go:101-195 | A reliable reconcile of an unfinished export ends COMPLETED if and only if there was an object of the export at the key of every requested image and every image of the export was COMPLETED or PRESENT. |
| `ExportCompletion.CompletedForGood` | internal/controller/raczylo.com/clusterimageexport_controller.go:171-177 | From the verdict of the export controller to every later run: the export stays COMPLETED, and the object at every requested key stays as it is, stored. |
| `ExportCompletion.CompletedStoresEach` | internal/controller/raczylo.com/clusterimageexport_controller.go:108-177 | From a COMPLETED written by the export controller to every later run, when texts are unambiguous and the digest tells them apart: the stored object at every requested key is of the requested image, tag and sha. |
| `ExportLoops.CompletedHasAllIff` | internal/controller/raczylo.com/clusterimage_controller.go:301-338 | In every run from the empty cluster, failing calls of both controllers included, with a digest that keeps exports apart: an export COMPLETED by either controller, no image of which was deleted, has an object of its own at every key of its latest create loop if and only if that loop reached its end. |
| `ExportLoops.CompletedHasEachIff` | internal/controller/raczylo.com/clusterimageexport_controller.go:107-179 | And when texts are unambiguous and the digest tells them apart, objects of the requested image, tag and sha, under the same condition. |
| `ExportLoops.CutShortIff` | internal/controller/raczylo.com/clusterimageexport_controller.go:107-162 | With none of the requested images FAILED, the loop is cut short if and only if fewer creates succeed than there are missing keys. |
| `ExportLoops.WritingCompletedTakesNoKey` | internal/controller/raczylo.com/clusterimage_controller.go:286-338 | The step in which an image reconcile writes COMPLETED leaves every requested key with an object of the export if and only if that was so before. |
| `RefutingRuns.CompletedAfterFailingCreate` | internal/controller/raczylo.com/clusterimageexport_controller.go:158-161 | From the empty cluster: two images with different keys, the create of the second fails, the first is stored; the export is COMPLETED and stays so, without the second image, in every further run that leaves it alone. |
| `RefutingRuns.CompletedWithoutImage` | internal/controller/raczylo.com/clusterimageexport_controller.go:108-123 | From the empty cluster: an export that asks for two images with one key ends COMPLETED with an object for the first of them only. |
| `RefutingRuns.ForInstanceNginx` | internal/controller/raczylo.com/clusterimageexport_controller.go:108 | For instance `nginx1:0` and `nginx:10`, under every digest. |
| `ExportCompletion.NoLostExport` | internal/controller/raczylo.com/clusterimageexport_controller.go:46-180 | A reconcile that ends without error and finds the export unfinished ends it or asks to be run again. |
| `ExportCompletion.VerdictsAgreeIff` | internal/controller/raczylo.com/clusterimage_controller.go:301-318 | The two completion checks agree if and only if some image counts as unfinished in the switch or none is in the empty or STARTING state. |
| `ExportCompletion.CompletionIsFinal` | internal/controller/raczylo.com/clusterimageexport_controller.go:69-72 | An export COMPLETED with everything stored keeps its status, its images and their states through every further run, failing calls, purges and other exports included, until it or an image of it is deleted. |
| `ExportFinalizer.ImagedExportsAreGuarded` | internal/controller/raczylo.com/clusterimageexport_controller.go:61-66 | In every run, failing calls included, an export for which an image was created carries the finalizer as long as it exists. |
| `ExportFinalizer.VanishesOnlyCleaned` | internal/controller/raczylo.com/clusterimageexport_controller.go:243-261 | So the step in which it vanishes is its own reconcile, after a deletion request, and leaves behind its cleanup job, created from the spec it then had. |
| `ExportDeletion.ExportGoesIff` | internal/controller/raczylo.com/clusterimageexport_controller.go:243-261 | Over every event, failing calls included: an export with the finalizer is gone if and only if the event is its reconcile, it is being deleted, no cleanup job of its name is there, and both calls succeed; otherwise the finalizer stays. |
| `ExportDeletion.CleanupJobGoesIff` | internal/shared/jobs.go:54 | A cleanup job is gone after an event if and only if the event is its end or a purge of its namespace that reaches it, since both kinds of job carry one label. |
| `ExportDeletion.BlockedByCleanup` | internal/controller/raczylo.com/clusterimageexport_controller.go:295-298 | As long as a cleanup job of its normalised name is there, an export cannot go, in any run. |
| `RefutingRuns.DeletionBlocksItself` | internal/controller/raczylo.com/clusterimageexport_controller.go:249-258 | From the empty cluster: the finalizer removal fails after the cleanup job was created; in every further run that does not end that job the export is still there. |
| `RefutingRuns.PurgedCleanupRun` | internal/controller/raczylo.com/clusterimage_controller.go:394-407 | From the empty cluster: an export is stored and deleted, a purge takes its cleanup job, and the export is gone with its archive told to be written and no cleanup job left. |
| `ParallelCollection.StepInv` | internal/shared/k8s.go:140-202 | Each atomic action of spawner, workers, closer and receiver keeps counters, list, channel and workers in agreement. |
| `ParallelCollection.CollectionIsComplete` | internal/shared/k8s.go:135-205 | Over all interleavings: no send on the closed channel, at most 10 holders of the semaphore, and a nil return means every worker finished without error and the list has grown by exactly the items' containers, as a multiset. |
| `ParallelCollection.SemaphoreAdmitsIff` | internal/shared/k8s.go:142-148 | After every interleaving a queued worker may enter if and only if fewer than ten hold the semaphore. |
| `ParallelCollection.ErrorsAreReal` | internal/shared/k8s.go:151-157 | Without cancellation an error return means that some item has a name that does not parse. |
| `ParallelCollection.NeverStuck` | internal/shared/k8s.go:190-202 | While the receiver waits, somebody other than the context can move. |
| `ParallelCollection.EveryCallEnds` | internal/shared/k8s.go:145-202 | Every interleaving ends: at most one action per container, six per item and three more ever happen, and when only the context could still act the call has returned. |
| `ParallelCollection.OrderOfTwo` | internal/shared/k8s.go:160-162 | Both orders of two workloads on the shared list are reached by an interleaving. |
| `Discovery.GatheredEverything` | internal/controller/raczylo.com/clusterimageexport_controller.go:206-219 | The four listings one after the other collect the multiset sum of their contributions. |
| `Discovery.ScheduleIndependence` | internal/controller/raczylo.com/clusterimageexport_controller.go:84-162 | Any two families of interleavings over the same cluster contents lead to the same set of image keys after filters, dedup, additional images and create loop, unless a requested image has FAILED. |
| `Discovery.SchedulesLeaveSameImages` | internal/controller/raczylo.com/clusterimageexport_controller.go:84-162 | And, if no two different requested images share a missing key, to the very same image objects. |
| `Discovery.WorkersDecideImage` | internal/controller/raczylo.com/clusterimageexport_controller.go:84-162 | Two workloads with different containers that share a missing key: two interleavings lead to different image objects. |
| `Discovery.OrderDecidesFullName` | internal/controller/raczylo.com/clusterimageexport_controller.go:108 | Such workloads: a bare image and its `:latest` form share their key and not their full name, one image in two namespaces its key and not its namespace. |
| `ImageObjects.LoopCreates` | internal/controller/raczylo.com/clusterimageexport_controller.go:107-162 | Exactly the objects after a create loop whose calls pay for every missing key: the old ones, and at each missing key the first requested image with that key. |
| `ImageObjects.LoopFallsShort` | internal/controller/raczylo.com/clusterimageexport_controller.go:158-161 | When they do not, some requested key is left without an object. |
| `ImageObjects.OrderIrrelevantIff` | internal/controller/raczylo.com/clusterimageexport_controller.go:107-162 | Every permutation of a request leaves the same objects if and only if any two requested images with one missing key are equal. |
| `ImageObjects.EachGetsItsOwnIff` | internal/controller/raczylo.com/clusterimageexport_controller.go:107-162 | With none of the requested images FAILED and any number of succeeding calls: every requested image gets an object of its own image, tag and sha if and only if that is so of the keys already taken, no two different ones share a missing key, and the calls pay for every missing key. |
| `ImageObjects.MovedBorderCollides` | internal/controller/raczylo.com/clusterimageexport_controller.go:108 | Moving characters from the end of an image to the front of its tag keeps the key, whatever the digest. |
| `ContainerNames.ParseReference` | internal/shared/k8s.go:61-96 | What the parser answers for image, tag part and digest part, with the `latest` default and colons in tags. |
| `ContainerNames.ParseSays` | internal/shared/k8s.go:61-96 | The answer for every name with at most one `@`, error for error, with both digest algorithms spelled out: a bad digest part is reported before a missing image. |
| `ContainerNames.TwoDigestsAreRefused` | internal/shared/k8s.go:67-70 | Two `@` or more are an invalid format. |
| `ContainerNames.AlgorithmsIff` | internal/shared/k8s.go:79-84 | For every image, optional tag and digest: accepted, with that image, tag and sha, if and only if the algorithm is `sha` or `sha256`; a digest part without a colon never. |
| `ContainerNames.ParseAcceptsExactlyReferences` | internal/shared/k8s.go:61-96 | A name is accepted if and only if it splits into a non-empty image, an optional tag part and an optional digest part. |
| `ContainerNames.ParsePrint` | internal/shared/k8s.go:61-96 | Parsing the printed form of any well-formed container gives it back. |
| `ContainerNames.ParsePrintParse` | internal/shared/k8s.go:61-96 | For every accepted name, parsing, printing and parsing again changes nothing but the full name. |
| `ContainerNames.CollectAll` | internal/shared/k8s.go:98-118 | A pod is collected if and only if all its names parse, and then each container is the parse of its name with the namespace set, in order. |
| `ContainerNames.PodIsCollected` | internal/shared/k8s.go:98-118 | What is collected of a pod are its containers, its init containers and its ephemeral containers, one for one, in this order, stamped with the namespace; and it is collected if and only if all their names parse. |
| `ContainerNames.UntilSays` | internal/shared/k8s.go:98-133 | Which answer a pod gets: the error of the first bad name the context lets it reach, the context's own error, or all containers. |
| `ContainerNames.ContainerCache.ProcessContainerName` | internal/shared/k8s.go:61-96 | Hit or miss, the answer is that of the pure parser; an error leaves the cache alone, and so does a hit. |
| `ContainerNames.ContainerCache.ProcessContainer` | internal/shared/k8s.go:120-133 | With the context done, the error that says so; otherwise appends the parsed container with its namespace to the list, while the cache entry keeps its empty namespace. |
| `ContainerNames.ContainerCache.ProcessContainers` | internal/shared/k8s.go:98-118 | Collects containers, init containers and ephemeral containers in this order, or returns the error of the first bad name, or of the context when it is done first. |
| `CacheProtocol.CacheIsTransparent` | internal/shared/k8s.go:39-96 | Under any interleaving of lookups, stores and namespace stamping by any number of calls, entries equal the pure parse of their keys and every call returns what an uncached parser would. |
| `ImageFilters.RemoveDuplicates` | internal/shared/definitions.go:37-48 | The seen-map loop keeps exactly the first occurrences, in order. |
| `ImageFilters.RemoveExcludedImages` | internal/shared/definitions.go:50-66 | Keeps, in order, the containers that mention no excluded word, letter case aside. |
| `ImageFilters.IncludeOnlyImages` | internal/shared/definitions.go:68-84 | Keeps, in order, the containers that mention an included word, letter case aside. |
| `ImageFilters.FilterOnlyFromNamespaces` | internal/shared/definitions.go:101-111 | Repeats a container once for each list entry that matches its namespace. |
| `ImageFilters.FilterOutWholeNamespaces` | internal/shared/definitions.go:114-129 | Keeps, in order, the containers of namespaces not in the list. |
| `ImageFilters.SelectImages` | internal/controller/raczylo.com/clusterimageexport_controller.go:221-240 | The staged chain with its skipped stages equals one pass: the first occurrences, in order, of the containers that satisfy the conjunction. |
| `ImageFilters.RepeatsDisappear` | internal/shared/definitions.go:101-111 | After the dedup the namespace filter is an ordinary filter, repeated list entries or not. |
| `ImageFilters.FilterInNamespaces` | internal/controller/raczylo.com/clusterimageexport_controller.go:229-235 | A later filter commutes with the repeating namespace filter. |
| `ImageFilters.FirstOccurrencesAreFirst` | internal/shared/definitions.go:37-48 | First occurrences are the list at strictly increasing positions, each the first of its value, and none is missing. |
| `ImageFilters.SelectedOnce` | internal/controller/raczylo.com/clusterimageexport_controller.go:221-240 | No container is selected twice, and the selected ones are exactly the wanted ones of the list. |
| `ImageFilters.MentionsIff` | internal/shared/definitions.go:56 | A word is mentioned if and only if at some place of the image every character agrees, letter case aside. |
| `ImageFilters.SelectedIff` | internal/controller/raczylo.com/clusterimageexport_controller.go:221-237 | Which containers are selected, in terms of the four lists, the image's characters and the namespace. |
| `ImageFilters.FilteredMultiplicity` | internal/shared/definitions.go:101-111 | The namespace filter lets a container through as often as it occurs times as often as its namespace is listed. |
| `ImageNaming.NormalizeJoinsWords` | internal/shared/definitions.go:86-98 | The replace, collapse and trim passes equal joining with `-` the maximal stretches free of special characters and hyphens. |
| `ImageNaming.WordsOfJoin` | internal/shared/definitions.go:86-98 | Splitting a joined list of words gives the words back. |
| `ImageNaming.JoinIsClean` | internal/shared/definitions.go:86-98 | A joined list of words has no special character, no double hyphen and no hyphen at an end. |
| `ImageNaming.NormalizedNames` | internal/shared/definitions.go:86-98 | Normalised names are clean, normalising is idempotent, and two names normalise alike if and only if they have the same words. |
| `ImageNaming.UnchangedIff` | internal/shared/definitions.go:86-98 | A name is left as it is if and only if it has none of the special characters, spelled out, no two hyphens in a row and none at an end. |
| `StoragePaths.RemoveSchemeAppend` | docker-image-worker/s3_utils.py:39 | Removing `s3://` anywhere in a path does not reach across or past the slash before the export name. |
| `StoragePaths.FirstSchemeGoes` | docker-image-worker/s3_utils.py:39 | The leftmost `s3://` of any path goes, wherever it is, and the rest is treated in the same way. |
| `StoragePaths.NothingToRemove` | docker-image-worker/s3_utils.py:39 | A path in which it does not occur is left as it is. |
| `StoragePaths.ParsedPaths` | docker-image-worker/s3_utils.py:35-42 | Where the archive path and the cleanup path of an export are parsed to, for any bucket and base path. |
| `StoragePaths.CleanupHitsIff` | internal/controller/raczylo.com/clusterimageexport_controller.go:273 | Exactly which archives, of any bucket, base path and export, a cleanup deletes: those in the same directory, and those whose base path lies inside its directory; the image does not matter. |
| `StoragePaths.CleanupCoversAndIsolates` | internal/controller/raczylo.com/clusterimage_controller.go:245 | With one bucket and base path, whatever they are, a cleanup deletes an archive if and only if it is of an export of that name. |
| `StoragePaths.ArchivesMeetIff` | internal/controller/raczylo.com/clusterimage_controller.go:235-245 | Two images, of any exports, buckets and base paths, are told to write one archive if and only if the exports' directories are the same and the full names have the same words. |
| `StoragePaths.TagAndPathMeet` | internal/controller/raczylo.com/clusterimage_controller.go:235-245 | For instance `a:b` and `a/b`. |
| `StoragePaths.NestedBasePathsCollide` | internal/controller/raczylo.com/clusterimageexport_controller.go:273 | With nested base paths one export's cleanup deletes every archive of the other. |
| `StoragePaths.ObjectStore.ListPage` | docker-image-worker/cleanup.py:20-21 | One listing page: at most a page of matching objects, all up to a new token, and whether more follow. |
| `StoragePaths.ObjectStore.RemoveFromS3` | docker-image-worker/cleanup.py:16-28 | Page by page, exactly the objects under the prefix are gone, except those the store refuses to delete, whose refusal is not noticed; an error on any page, which may have deleted a part of it, leaves the objects outside the prefix untouched; it ends. |
| `StoragePaths.ObjectStore.RemoveDirectory` | docker-image-worker/cleanup.py:11-41 | The same for a destination in S3; for any other no object changes. |
| `StoragePaths.CleanUpExport` | internal/controller/raczylo.com/clusterimageexport_controller.go:263-308 | Path building, parsing and deleting together: of all archives under the bucket and base path, exactly those of this export are gone, except those the store refuses to delete. |
| `StoredArchives.CleanupsMatchImages` | internal/controller/raczylo.com/clusterimageexport_controller.go:151-152 | In every run, edits included, an export whose bucket and base path were not edited takes everything its jobs were told to write with it, both by its spec now and by what its latest cleanup job was told; and of archives of such exports in one bucket and base path a cleanup deletes exactly those of its own name. The path does not mention the namespace. |
| `SettledRuns.CleanedOfEverything` | internal/controller/raczylo.com/clusterimageexport_controller.go:263-273 | After every run from the empty cluster, edits included: the latest cleanup job of an export whose bucket and base path were not edited was told a path that covers everything its jobs were told to write. |
| `StoredArchives.EditKeepsArchivesIff` | internal/controller/raczylo.com/clusterimageexport_controller.go:273 | An edit leaves an archive within reach of the cleanup if and only if the new place is the old one or one around it. |
| `RefutingRuns.EditOrphansArchive` | internal/controller/raczylo.com/clusterimageexport_controller.go:243-273 | From the empty cluster, for every other edit: the export is gone, its cleanup job was created, and its archive is not under the path the job was given. |

## Left out

- FILE storage: the resource definition and the code spell its name differently, and the project's own documentation calls it not ready.
- md5 itself, sleeps, requeue delays, logging.
- Building job objects, S3 parameters, shell commands beyond their paths, pull secrets and annotations.
- The S3 client, roles and credentials, the local branches of the worker scripts, uploads.
- Client, manager, index and RBAC set-up.
- The cleanup job's polling loop: here a cleanup job may end at any time.
- Stale reads, and the two controllers interleaving inside a reconcile, which optimistic locking on writes would partly prevent.
- STARTING: defined in the source and written by nobody, so an image in it is never touched; the lemmas about runs show that none gets there.
- Invalid UTF-8 in names, which lower-casing in Go replaces.
- Go's slice aliasing: a pod's container list is appended to, which could write into spare capacity of the listed object; lists here are values.
- A nil pod spec, which the four wrappers never return, and unsupported list types.
- The list call at the start of a listing: its failure is a failed discovery.
- ExportTracking.ExportFailsWithItsImages: excludes exports that had an image deleted while they existed, whose FAILED image may be the deleted one; runs whose image reconciles lose calls are the subject of `FailureReports`.
- ExportLoops.CompletedHasAllIff: excludes exports that had an image deleted while they existed, which nothing creates again.
- StoragePaths.ObjectStore.RemoveDirectory: the removal of a local directory is an input, its outcome.
- StoredArchives.CleanupsMatchImages: is about what jobs were told to write, which includes what they wrote, and about paths, not about jobs that write after the cleanup has run.
