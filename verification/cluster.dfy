/** The API objects both controllers share, and the API calls that change them.

    A call either takes effect or fails without effect; `writes` says how many calls of the
    current reconcile still succeed.  Every error ends a reconcile, so a failing read leaves what
    failing at the next write leaves or, before the first write, what not running at all leaves. */
module Cluster {
  import opened ContainerNames
  import opened ImageNaming

  datatype Key = Key(ns: string, name: string)

  /** The progress strings of internal/shared/definitions.go; `Unset` is the empty string. */
  datatype Progress = Unset | Pending | Starting | Running | Retrying | Failed | Completed | Present

  datatype Image = Image(container: Container, exportName: string, exportPath: string, progress: Progress, retries: nat)

  datatype ExportSpec = ExportSpec(maxConcurrentJobs: int, bucket: string, basePath: string,
      additionalImages: seq<string>)

  datatype Export = Export(spec: ExportSpec, progress: Progress, finalizer: bool, deleting: bool)

  /** An export job: the full name it pulls, and `Status.Succeeded` and `Status.Failed`. */
  datatype Job = Job(fullName: string, succeeded: nat, failed: nat)

  /** What an export job was told to write, and where: its bucket is the one its export had when the
      job was created, its base path the one the image had. */
  datatype Archive = Archive(owner: Key, bucket: string, basePath: string, fullName: string)

  /** A job by what it works on: the export job of an image, or a cleanup job by its own key. */
  datatype JobId = ExportJob(image: Key) | CleanupJob(job: Key)

  datatype Writes = Reliable | FailsAfter(left: nat)

  /** What has happened so far; read by no controller. */
  datatype History = History(
    lost: nat,                    // export jobs that vanished without a cleanup by their own image
    lostOf: map<Key, nat>,        // the same, per image since the image was created
    created: map<Key, nat>,       // export jobs created per image since the image was created
    jobNames: set<string>,        // full names for which a job was ever created
    succeeded: set<string>,       // full names for which a job ever succeeded
    failedNames: set<string>,     // full names for which a job ever failed
    lostNames: set<string>,       // full names for which a job was ever lost
    archives: set<Archive>,       // what the jobs created for an export were told to write
    deletedFrom: set<Key>,        // exports that had an image deleted while they existed
    edited: set<Key>,             // exports whose bucket or base path was edited while they existed
    imaged: set<Key>,             // exports for which an image was created
    asked: map<Key, seq<Container>>, // what the latest create loop of an export was given
    cut: set<Key>,                // exports whose latest create loop did not reach its end
    cleaned: map<Key, ExportSpec>) // exports for which a cleanup job was created, and from what

  datatype World = World(
    images: map<Key, Image>,
    exports: map<Key, Export>,
    jobs: map<Key, Job>,          // export jobs, by the key of their image
    cleanupJobs: set<Key>,
    activeJobs: int,              // ClusterImageReconciler.ActiveJobs
    maxParallelJobs: int,         // ClusterImageReconciler.MaxParallelJobs
    writes: Writes,
    history: History)
  {
    predicate CanWrite() {
      writes.Reliable? || writes.left > 0
    }

    function Spent(): World
      requires CanWrite()
    {
      if writes.Reliable? then this else this.(writes := FailsAfter(writes.left - 1))
    }
  }

  const EMPTY_HISTORY := History(0, map[], map[], {}, {}, {}, {}, {}, {}, {}, {}, map[], {}, map[])

  const EMPTY_WORLD := World(map[], map[], map[], {}, 0, 0, Reliable, EMPTY_HISTORY)

  /** How a reconcile, or a part of one, ends. */
  datatype Ending = Done | Requeue | RequeueAfter | Error

  datatype Outcome = Outcome(w: World, result: Ending) {
    predicate IsFailure() {
      result.Error?
    }
    function PropagateFailure(): Outcome
      requires IsFailure()
    {
      this
    }
    function Extract(): World
      requires !IsFailure()
    {
      w
    }
  }

  function Success(w: World): Outcome {
    Outcome(w, Done)
  }

  function CountOf(m: map<Key, nat>, k: Key): nat {
    if k in m then m[k] else 0
  }

  function Bump(m: map<Key, nat>, k: Key): map<Key, nat> {
    m[k := CountOf(m, k) + 1]
  }

  function ExportOf(k: Key, img: Image): Key {
    Key(k.ns, img.exportName)
  }

  // ----- names of jobs

  function ExportJobName(imageName: string): string {
    "img-export-" + imageName
  }

  function CleanupJobName(exportName: string): string {
    "cleanup-" + NormalizeImageName(exportName)
  }

  /** Why export jobs can be keyed by image: job names tell images apart, and tell export jobs
      from cleanup jobs. */
  lemma JobNamesAreDistinct(a: string, b: string)
    ensures ExportJobName(a) == ExportJobName(b) <==> a == b
    ensures ExportJobName(a) != CleanupJobName(b)
  {
    assert ExportJobName(a)[|"img-export-"|..] == a;
    assert ExportJobName(b)[|"img-export-"|..] == b;
    assert ExportJobName(a)[0] == 'i' && CleanupJobName(b)[0] == 'c';
  }

  /** Cleanup jobs of two exports have one name if and only if the export names have the same words; for
      an export name as it is usually written it is that name with a prefix. */
  lemma CleanupNamesMeetIff(a: string, b: string)
    ensures CleanupJobName(a) == CleanupJobName(b) <==> Words(a) == Words(b)
    ensures CleanupJobName(a) == "cleanup-" + a <==> IsClean(a)
  {
    NormalizedNames(a, b);
    UnchangedIff(a);
    assert CleanupJobName(a)[|"cleanup-"|..] == NormalizeImageName(a);
    assert CleanupJobName(b)[|"cleanup-"|..] == NormalizeImageName(b);
    assert ("cleanup-" + a)[|"cleanup-"|..] == a;
    hide NormalizeImageName, Words;
  }

  // ----- API calls

  /** `Status().Update` of a ClusterImage. */
  function UpdateImage(w: World, k: Key, progress: Progress, retries: nat): Outcome {
    if k !in w.images || !w.CanWrite() then Outcome(w, Error)
    else Success(w.Spent().(images := w.images[k := w.images[k].(progress := progress, retries := retries)]))
  }

  function NewJob(img: Image): Job {
    Job(img.container.fullName, 0, 0)
  }

  function TargetOf(k: Key, img: Image, bucket: string): Archive {
    Archive(ExportOf(k, img), bucket, img.exportPath, img.container.fullName)
  }

  /** `Create` of an export job that writes to `bucket`. */
  function CreateJob(w: World, k: Key, bucket: string): Outcome {
    if k !in w.images || k in w.jobs || !w.CanWrite() then Outcome(w, Error)
    else
      var img := w.images[k];
      Success(w.Spent().(jobs := w.jobs[k := NewJob(img)],
                         history := w.history.(created := Bump(w.history.created, k),
                                               jobNames := w.history.jobNames + {img.container.fullName},
                                               archives := w.history.archives + {TargetOf(k, img, bucket)})))
  }

  /** `Delete` of a job; deleting one that is gone is not an error.  An export job deleted by the
      purge has no slot released for it, so it counts as lost. */
  function PurgeJob(w: World, id: JobId): Outcome {
    if !w.CanWrite() then Outcome(w, Error)
    else
      match id
      case ExportJob(k) => Success(LoseJob(w.Spent(), k))
      case CleanupJob(j) => Success(w.Spent().(cleanupJobs := w.cleanupJobs - {j}))
  }

  function LoseJob(w: World, k: Key): World {
    if k in w.jobs then
      w.(jobs := w.jobs - {k},
         history := w.history.(lost := w.history.lost + 1, lostOf := Bump(w.history.lostOf, k),
                               lostNames := w.history.lostNames + {w.jobs[k].fullName}))
    else w
  }

  /** `cleanupJobAndPods`: delete the job, then its pods. */
  function CleanupJobAndPods(w: World, k: Key): Outcome {
    if !w.CanWrite() then Outcome(w, Error)
    else
      var w1 := w.Spent().(jobs := w.jobs - {k});
      if !w1.CanWrite() then Outcome(w1, Error) else Success(w1.Spent())
  }

  /** `Update` or `Status().Update` of an export. */
  function UpdateExport(w: World, e: Key, x: Export): Outcome {
    if e !in w.exports || !w.CanWrite() then Outcome(w, Error)
    else Success(w.Spent().(exports := w.exports[e := x]))
  }

  /** `Update` that takes the finalizer off an export being deleted: the object goes away. */
  function ReleaseExport(w: World, e: Key): Outcome {
    if e !in w.exports || !w.CanWrite() then Outcome(w, Error)
    else Success(w.Spent().(exports := w.exports - {e}))
  }

  function CreateImage(w: World, k: Key, img: Image): Outcome {
    if k in w.images || !w.CanWrite() then Outcome(w, Error)
    else Success(w.Spent().(images := w.images[k := img],
                       history := w.history.(created := w.history.created - {k}, lostOf := w.history.lostOf - {k},
                                             imaged := w.history.imaged + {ExportOf(k, img)})))
  }

  /** For the record: a create loop starts, and reaches its end. */
  function StartLoop(w: World, e: Key, list: seq<Container>): World {
    w.(history := w.history.(asked := w.history.asked[e := list], cut := w.history.cut + {e}))
  }

  function EndLoop(w: World, e: Key): World {
    w.(history := w.history.(cut := w.history.cut - {e}))
  }

  /** `Create` of a cleanup job, for what the export's spec says now. */
  function CreateCleanupJob(w: World, e: Key, spec: ExportSpec): Outcome {
    var job := Key(e.ns, CleanupJobName(e.name));
    if job in w.cleanupJobs || !w.CanWrite() then Outcome(w, Error)
    else Success(w.Spent().(cleanupJobs := w.cleanupJobs + {job},
                            history := w.history.(cleaned := w.history.cleaned[e := spec])))
  }
}
