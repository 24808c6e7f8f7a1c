/** What one reconcile of each controller does to the world. */
module Controllers {
  import opened ContainerNames
  import opened Cluster

  // ----- clusterimage_controller.go

  /** What a reconcile sees besides the world: the restart counts of the job's pods, which the
      cache may still show after the pods are gone, and the order and completeness in which the
      namespace's jobs are listed. */
  datatype View = View(restarts: seq<seq<nat>>, jobs: seq<JobId>)

  const MAX_RETRIES := 3

  /** The first positive restart count, pod by pod and container by container; 0 if there is none. */
  function FirstRestart(pods: seq<seq<nat>>): nat {
    if pods == [] then 0
    else var rc := FirstPositive(pods[0]); if rc > 0 then rc else FirstRestart(pods[1..])
  }

  function FirstPositive(counts: seq<nat>): nat {
    if counts == [] then 0 else if counts[0] > 0 then counts[0] else FirstPositive(counts[1..])
  }

  /** Some differently named image with the same full name is stored, present or being stored. */
  ghost predicate ImageExists(w: World, k: Key) {
    k in w.images && exists j :: j in w.images && Stands(w, j, k)
  }

  predicate Stands(w: World, j: Key, k: Key)
    requires j in w.images && k in w.images
  {
    && w.images[j].container.fullName == w.images[k].container.fullName && j.name != k.name
    && (w.images[j].progress.Completed? || w.images[j].progress.Present? || w.images[j].progress.Running?)
  }

  ghost function Reconcile(w0: World, k: Key, view: View): Outcome {
    if k !in w0.images then Success(w0)
    else
      var img := w0.images[k];
      var e := ExportOf(k, img);
      if e !in w0.exports then Outcome(w0, Error)
      else
        var w := w0.(maxParallelJobs := w0.exports[e].spec.maxConcurrentJobs);
        match img.progress
        case Unset =>
          var w1 :- UpdateImage(w, k, Pending, img.retries);
          Outcome(w1, Requeue)
        case Pending =>
          if w.activeJobs >= w.maxParallelJobs then Outcome(w, RequeueAfter) else HandlePending(w, k)
        case Running => HandleRunning(w, k, view)
        case Retrying => HandleRunning(w, k, view)
        case _ => Success(w)
  }

  ghost function HandlePending(w: World, k: Key): Outcome
    requires k in w.images
  {
    var r := w.images[k].retries;
    if ImageExists(w, k) then UpdateImage(w, k, Present, r)
    else if ExportOf(k, w.images[k]) !in w.exports then Outcome(w, Error)
    else
      var w1 :- CreateJob(w, k, w.exports[ExportOf(k, w.images[k])].spec.bucket);
      var w2 :- UpdateImage(w1, k, Running, r);
      var w3 :- UpdateImage(w2, k, Running, r);
      Outcome(w3.(activeJobs := w3.activeJobs + 1), Requeue)
  }

  ghost function HandleRunning(w: World, k: Key, view: View): Outcome
    requires k in w.images
  {
    var r := w.images[k].retries;
    if k !in w.jobs then
      var w1 :- UpdateImage(w, k, Pending, r);
      Outcome(w1, Requeue)
    else if w.jobs[k].succeeded > 0 then
      var w1 :- UpdateImage(w.(activeJobs := w.activeJobs - 1), k, Completed, r);
      var w2 :- CleanupJobAndPods(w1, k);
      Finish(w2, k, view)
    else if w.jobs[k].failed > 0 then
      if r < MAX_RETRIES then
        var w1 :- UpdateImage(w, k, Retrying, r + 1);
        var w2 :- CleanupJobAndPods(w1, k);
        Outcome(w2.(activeJobs := w2.activeJobs - 1), Requeue)
      else
        var w1 :- UpdateImage(w.(activeJobs := w.activeJobs - 1), k, Failed, r);
        var w2 :- CleanupJobAndPods(w1, k);
        Finish(w2, k, view)
    else Finish(w, k, view)
  }

  /** The common tail: restarts may overwrite the progress just written. */
  ghost function Finish(w: World, k: Key, view: View): Outcome
    requires k in w.images
  {
    var w1 :- HandleJobRestarts(w, k, view);
    var w2 :- UpdateImage(w1, k, w1.images[k].progress, w1.images[k].retries);
    UpdateExportStatus(w2, k)
  }

  function HandleJobRestarts(w: World, k: Key, view: View): (o: Outcome)
    requires k in w.images
    ensures o.w.images.Keys == w.images.Keys
  {
    var rc := FirstRestart(view.restarts);
    var r := w.images[k].retries + rc;
    if rc == 0 then Success(w)
    else if r >= MAX_RETRIES then
      var w1 :- UpdateImage(w, k, Failed, r);
      RemoveAllJobs(w1, k.ns, view.jobs)
    else UpdateImage(w, k, Retrying, r)
  }

  function Namespace(id: JobId): string {
    match id
    case ExportJob(k) => k.ns
    case CleanupJob(j) => j.ns
  }

  /** The purge of a namespace: export jobs of every image and cleanup jobs alike. */
  function RemoveAllJobs(w: World, ns: string, listing: seq<JobId>): (o: Outcome)
    ensures o.w.images == w.images
    decreases |listing|
  {
    if listing == [] then Success(w)
    else if Namespace(listing[0]) != ns then RemoveAllJobs(w, ns, listing[1..])
    else
      var w1 :- PurgeJob(w, listing[0]);
      RemoveAllJobs(w1, ns, listing[1..])
  }

  /** The images of an export: same namespace, and its name in `spec.exportName`. */
  predicate IsImageOf(w: World, j: Key, e: Key) {
    j in w.images && ExportOf(j, w.images[j]) == e
  }

  /** The switch counts an image as unfinished in these states only. */
  predicate CountsAsUnfinished(p: Progress) {
    p.Failed? || p.Running? || p.Retrying? || p.Pending?
  }

  ghost predicate AllCompletedSwitch(w: World, e: Key) {
    forall j | IsImageOf(w, j, e) :: !CountsAsUnfinished(w.images[j].progress)
  }

  ghost predicate AnyFailed(w: World, e: Key) {
    exists j :: IsImageOf(w, j, e) && w.images[j].progress.Failed?
  }

  ghost predicate AnyRunning(w: World, e: Key) {
    exists j :: IsImageOf(w, j, e) && (w.images[j].progress.Running? || w.images[j].progress.Retrying?)
  }

  ghost function Aggregate(w: World, e: Key): Progress {
    if AllCompletedSwitch(w, e) then Completed
    else if AnyFailed(w, e) then Failed
    else if AnyRunning(w, e) then Running
    else Pending
  }

  ghost function UpdateExportStatus(w: World, k: Key): Outcome
    requires k in w.images
  {
    var e := ExportOf(k, w.images[k]);
    var verdict := if AllCompletedSwitch(w, e) then Done else Requeue;
    if e !in w.exports then Outcome(w, Error)
    else if w.exports[e].progress == Aggregate(w, e) then Outcome(w, verdict)
    else
      var w1 :- UpdateExport(w, e, w.exports[e].(progress := Aggregate(w, e)));
      Outcome(w1, verdict)
  }

  // ----- clusterimageexport_controller.go

  /** The result of `listImagesInCluster`. */
  datatype Discovery = ListFailed | Found(containers: seq<Container>)

  /** The 14-character name of a child image; the digest is a parameter. */
  function ImageKey(digest: string -> string, e: Key, c: Container): Key {
    Key(e.ns, digest(e.name + c.image + c.tag + c.sha))
  }

  /** Additional images that do not parse are skipped. */
  function Additional(names: seq<string>): seq<Container> {
    if names == [] then []
    else
      var last := |names| - 1;
      var r := Parse(names[last]);
      Additional(names[..last]) + if r.Ok? then [r.value] else []
  }

  function NewImage(e: Key, x: Export, c: Container): Image {
    Image(c, e.name, x.spec.basePath, Unset, 0)
  }

  ghost function ReconcileExport(w: World, e: Key, found: Discovery, digest: string -> string): Outcome {
    if e !in w.exports then Success(w)
    else if w.exports[e].deleting then HandleDeletion(w, e)
    else
      var w1 :- if w.exports[e].finalizer then Success(w) else UpdateExport(w, e, w.exports[e].(finalizer := true));
      var x := w.exports[e].(finalizer := true);
      if x.progress.Completed? || x.progress.Failed? then Success(w1)
      else
        var w2 :- if x.progress.Unset? then UpdateExport(w1, e, x.(progress := Pending)) else Success(w1);
        if found.ListFailed? then Outcome(w2, Error)
        else
          var w3 :- UpdateExport(w2, e, x.(progress := Running));
          var list := found.containers + Additional(x.spec.additionalImages);
          CreateImages(StartLoop(w3, e, list), e, x.(progress := Running), list, digest)
  }

  /** The create loop, with its early exits, and the completion check after it. */
  ghost function CreateImages(w: World, e: Key, x: Export, list: seq<Container>, digest: string -> string): Outcome
    decreases |list|
  {
    if list == [] then CheckCompletion(EndLoop(w, e), e, x)
    else
      var k := ImageKey(digest, e, list[0]);
      if k in w.images then
        if w.images[k].progress.Failed? then UpdateExport(w, e, x.(progress := Failed))
        else CreateImages(w, e, x, list[1..], digest)
      else
        var w1 :- CreateImage(w, k, NewImage(e, x, list[0]));
        CreateImages(w1, e, x, list[1..], digest)
  }

  predicate IsStored(p: Progress) {
    p.Completed? || p.Present?
  }

  ghost predicate AllCompleted(w: World, e: Key) {
    forall j | IsImageOf(w, j, e) :: IsStored(w.images[j].progress)
  }

  ghost function CheckCompletion(w: World, e: Key, x: Export): Outcome {
    if AllCompleted(w, e) then UpdateExport(w, e, x.(progress := Completed)) else Outcome(w, Requeue)
  }

  function HandleDeletion(w: World, e: Key): Outcome
    requires e in w.exports
  {
    if !w.exports[e].finalizer then Success(w)
    else
      var w1 :- CreateCleanupJob(w, e, w.exports[e].spec);
      ReleaseExport(w1, e)
  }
}
