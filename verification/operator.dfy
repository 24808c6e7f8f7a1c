/** The operator process: both reconcilers as methods over the API objects and the in-memory
    slot counter, each proved to do what its function in `Controllers` says. */
module OperatorProcess {
  import opened ContainerNames
  import opened Cluster
  import opened Controllers

  class Operator {
    const digest: string -> string
    const cache: ContainerCache

    var images: map<Key, Image>
    var exports: map<Key, Export>
    var jobs: map<Key, Job>
    var cleanupJobs: set<Key>
    var ActiveJobs: int
    var MaxParallelJobs: int
    var writes: Writes
    ghost var history: History

    ghost function World(): World
      reads this
    {
      Cluster.World(images, exports, jobs, cleanupJobs, ActiveJobs, MaxParallelJobs, writes, history)
    }

    constructor (digest: string -> string)
      ensures World() == EMPTY_WORLD && this.digest == digest
      ensures cache.Valid() && fresh(cache)
    {
      this.digest := digest;
      cache := new ContainerCache();
      images, exports, jobs, cleanupJobs := map[], map[], map[], {};
      ActiveJobs, MaxParallelJobs, writes, history := 0, 0, Reliable, EMPTY_HISTORY;
    }

    // ----- API calls

    method Spend() returns (ok: bool)
      modifies this`writes
      ensures ok == old(World()).CanWrite()
      ensures World() == if ok then old(World()).Spent() else old(World())
    {
      match writes
      case Reliable => ok := true;
      case FailsAfter(n) =>
        ok := n > 0;
        if ok {
          writes := FailsAfter(n - 1);
        }
    }

    method UpdateImageStatus(k: Key, img: Image) returns (ok: bool)
      modifies this
      ensures Outcome(World(), if ok then Done else Error) == UpdateImage(old(World()), k, img.progress, img.retries)
    {
      if k !in images {
        return false;
      }
      ok := Spend();
      if ok {
        images := images[k := images[k].(progress := img.progress, retries := img.retries)];
      }
    }

    method UpdateExportObject(e: Key, x: Export) returns (ok: bool)
      modifies this
      ensures Outcome(World(), if ok then Done else Error) == UpdateExport(old(World()), e, x)
    {
      if e !in exports {
        return false;
      }
      ok := Spend();
      if ok {
        exports := exports[e := x];
      }
    }

    method CreateExportJob(k: Key, bucket: string) returns (ok: bool)
      modifies this
      ensures Outcome(World(), if ok then Done else Error) == CreateJob(old(World()), k, bucket)
    {
      if k !in images || k in jobs {
        return false;
      }
      ok := Spend();
      if ok {
        jobs := jobs[k := NewJob(images[k])];
        history := history.(created := Bump(history.created, k),
                            jobNames := history.jobNames + {images[k].container.fullName},
                            archives := history.archives + {TargetOf(k, images[k], bucket)});
      }
    }

    method DeleteListedJob(id: JobId) returns (ok: bool)
      modifies this
      ensures Outcome(World(), if ok then Done else Error) == PurgeJob(old(World()), id)
    {
      ok := Spend();
      if ok {
        match id {
          case ExportJob(k) =>
            if k in jobs {
              history := history.(lost := history.lost + 1, lostOf := Bump(history.lostOf, k),
                                  lostNames := history.lostNames + {jobs[k].fullName});
              jobs := jobs - {k};
            }
          case CleanupJob(j) =>
            cleanupJobs := cleanupJobs - {j};
        }
      }
    }

    // ----- ClusterImageReconciler

    method Reconcile(k: Key, view: View) returns (result: Ending)
      modifies this
      ensures Outcome(World(), result) == Controllers.Reconcile(old(World()), k, view)
    {
      if k !in images {
        return Done;
      }
      var clusterImage := images[k];
      var e := ExportOf(k, clusterImage);
      if e !in exports {
        return Error;
      }
      MaxParallelJobs := exports[e].spec.maxConcurrentJobs;
      if clusterImage.progress == Unset {
        clusterImage := clusterImage.(progress := Pending);
        var ok := UpdateImageStatus(k, clusterImage);
        return if ok then Requeue else Error;
      }
      if ActiveJobs >= MaxParallelJobs && clusterImage.progress == Pending {
        return RequeueAfter;
      }
      match clusterImage.progress {
        case Pending => result := HandlePendingClusterImage(k, clusterImage);
        case Running => result := HandleRunningClusterImage(k, clusterImage, view);
        case Retrying => result := HandleRunningClusterImage(k, clusterImage, view);
        case _ => result := Done;
      }
    }

    method CheckImageExists(k: Key, clusterImage: Image) returns (found: bool)
      requires k in images && clusterImage == images[k]
      ensures found <==> clusterImage.progress == Completed || exists j ::
          && j in images && images[j].container.fullName == clusterImage.container.fullName && j.name != k.name
          && images[j].progress in {Completed, Present, Running}
    {
      var items := images.Keys;
      while items != {}
        invariant items <= images.Keys
        invariant forall j | j in images && j !in items ::
            images[j].container.fullName == clusterImage.container.fullName && j.name != k.name
            ==> images[j].progress !in {Completed, Present, Running}
        decreases items
      {
        var j :| j in items;
        items := items - {j};
        var ci := images[j];
        if ci.container.fullName == clusterImage.container.fullName && j.name != k.name {
          if ci.progress == Completed || ci.progress == Present || ci.progress == Running {
            return true;
          }
        }
      }
      found := clusterImage.progress == Completed;
    }

    method CreateBackupJob(k: Key, clusterImage: Image, clusterImageExport: Export) returns (ok: bool)
      requires k in images && clusterImage == images[k]
      modifies this
      ensures var o := CreateJob(old(World()), k, clusterImageExport.spec.bucket);
        Outcome(World(), if ok then Done else Error)
          == if o.IsFailure() then o else UpdateImage(o.w, k, Running, clusterImage.retries)
    {
      ok := CreateExportJob(k, clusterImageExport.spec.bucket);
      if ok {
        ok := UpdateImageStatus(k, clusterImage.(progress := Running));
      }
    }

    method HandlePendingClusterImage(k: Key, img: Image) returns (result: Ending)
      requires k in images && img == images[k] && img.progress == Pending
      modifies this
      ensures Outcome(World(), result) == HandlePending(old(World()), k)
    {
      var clusterImage := img;
      var found := CheckImageExists(k, clusterImage);
      assert found <==> ImageExists(World(), k) by {
        assert forall j | j in images :: Stands(World(), j, k) <==>
            && images[j].container.fullName == clusterImage.container.fullName && j.name != k.name
            && images[j].progress in {Completed, Present, Running};
      }
      if found {
        clusterImage := clusterImage.(progress := Present);
        var ok := UpdateImageStatus(k, clusterImage);
        return if ok then Done else Error;
      }
      var e := ExportOf(k, clusterImage);
      if e !in exports {
        return Error;
      }
      var ok := CreateBackupJob(k, clusterImage, exports[e]);
      if !ok {
        return Error;
      }
      clusterImage := clusterImage.(progress := Running);
      ok := UpdateImageStatus(k, clusterImage);
      if !ok {
        return Error;
      }
      ActiveJobs := ActiveJobs + 1;
      result := Requeue;
    }

    method HandleRunningClusterImage(k: Key, img: Image, view: View) returns (result: Ending)
      requires k in images && img == images[k]
      modifies this
      ensures Outcome(World(), result) == HandleRunning(old(World()), k, view)
    {
      hide Finish;
      var clusterImage := img;
      var ok: bool;
      if k !in jobs {
        clusterImage := clusterImage.(progress := Pending);
        ok := UpdateImageStatus(k, clusterImage);
        return if ok then Requeue else Error;
      }
      var existingJob := jobs[k];
      if existingJob.succeeded > 0 {
        clusterImage := clusterImage.(progress := Completed);
        ActiveJobs := ActiveJobs - 1;
        ok := UpdateImageStatus(k, clusterImage);
        if !ok {
          return Error;
        }
        ok := CleanupJobAndPodsOf(k);
        if !ok {
          return Error;
        }
      } else if existingJob.failed > 0 {
        if clusterImage.retries < MAX_RETRIES {
          clusterImage := clusterImage.(progress := Retrying, retries := clusterImage.retries + 1);
          ok := UpdateImageStatus(k, clusterImage);
          if !ok {
            return Error;
          }
          ok := CleanupJobAndPodsOf(k);
          if !ok {
            return Error;
          }
          ActiveJobs := ActiveJobs - 1;
          return Requeue;
        } else {
          clusterImage := clusterImage.(progress := Progress.Failed);
          ActiveJobs := ActiveJobs - 1;
          ok := UpdateImageStatus(k, clusterImage);
          if !ok {
            return Error;
          }
          ok := CleanupJobAndPodsOf(k);
          if !ok {
            return Error;
          }
        }
      }
      result := FinishReconcile(k, clusterImage, view);
    }

    /** The common tail of HandleRunningClusterImage. */
    method FinishReconcile(k: Key, img: Image, view: View) returns (result: Ending)
      requires k in images && img == images[k]
      modifies this
      ensures Outcome(World(), result) == Finish(old(World()), k, view)
    {
      var ok, clusterImage := HandleRestarts(k, img, view);
      if !ok {
        return Error;
      }
      ok := UpdateImageStatus(k, clusterImage);
      if !ok {
        return Error;
      }
      result := UpdateClusterImageExportStatus(k);
    }

    method CleanupJobAndPodsOf(k: Key) returns (ok: bool)
      modifies this
      ensures Outcome(World(), if ok then Done else Error) == CleanupJobAndPods(old(World()), k)
    {
      ok := Spend();
      if !ok {
        return;
      }
      jobs := jobs - {k};
      ok := Spend();
    }

    method HandleRestarts(k: Key, img: Image, view: View) returns (ok: bool, clusterImage: Image)
      requires k in images && img == images[k]
      modifies this
      ensures Outcome(World(), if ok then Done else Error) == HandleJobRestarts(old(World()), k, view)
      ensures ok ==> k in images && clusterImage == images[k]
    {
      clusterImage := img;
      var pods := view.restarts;
      assert pods[0..] == pods;
      for p := 0 to |pods|
        invariant FirstRestart(pods[p..]) == FirstRestart(pods)
        invariant World() == old(World()) && clusterImage == img
      {
        assert pods[p..][0] == pods[p] && pods[p..][1..] == pods[p+1..];
        var counts := pods[p];
        assert counts[0..] == counts;
        for c := 0 to |counts|
          invariant FirstPositive(counts[c..]) == FirstPositive(counts)
          invariant World() == old(World()) && clusterImage == img
        {
          assert counts[c..][0] == counts[c] && counts[c..][1..] == counts[c+1..];
          if counts[c] > 0 {
            clusterImage := clusterImage.(retries := clusterImage.retries + counts[c]);
            if clusterImage.retries >= MAX_RETRIES {
              clusterImage := clusterImage.(progress := Progress.Failed);
              ok := UpdateImageStatus(k, clusterImage);
              if !ok {
                return;
              }
              ok := RemoveAllJobsAndContainers(k.ns, view.jobs);
              return;
            } else {
              clusterImage := clusterImage.(progress := Retrying);
            }
            ok := UpdateImageStatus(k, clusterImage);
            return;
          }
        }
      }
      ok := true;
    }

    method RemoveAllJobsAndContainers(ns: string, listing: seq<JobId>) returns (ok: bool)
      modifies this
      ensures Outcome(World(), if ok then Done else Error) == RemoveAllJobs(old(World()), ns, listing)
    {
      assert listing[0..] == listing;
      for i := 0 to |listing|
        invariant RemoveAllJobs(World(), ns, listing[i..]) == RemoveAllJobs(old(World()), ns, listing)
      {
        assert listing[i..][0] == listing[i] && listing[i..][1..] == listing[i+1..];
        if Namespace(listing[i]) == ns {
          ok := DeleteListedJob(listing[i]);
          if !ok {
            return;
          }
        }
      }
      ok := true;
    }

    method UpdateClusterImageExportStatus(k: Key) returns (result: Ending)
      requires k in images
      modifies this
      ensures Outcome(World(), result) == UpdateExportStatus(old(World()), k)
    {
      var e := ExportOf(k, images[k]);
      if e !in exports {
        return Error;
      }
      var x := exports[e];
      var allCompleted, anyFailed, anyRunning := true, false, false;
      var items := set j | j in images && ExportOf(j, images[j]) == e;
      ghost var all := items;
      while items != {}
        invariant items <= all
        invariant allCompleted <==> forall j | j in all - items :: !CountsAsUnfinished(images[j].progress)
        invariant anyFailed <==> exists j :: j in all - items && images[j].progress.Failed?
        invariant anyRunning <==> exists j ::
            && j in all - items
            && (images[j].progress.Running? || images[j].progress.Retrying?)
        decreases items
      {
        var j :| j in items;
        ghost var seen := all - items;
        items := items - {j};
        assert all - items == seen + {j};
        match images[j].progress {
          case Completed =>
          case Present =>
          case Failed =>
            anyFailed := true;
            allCompleted := false;
          case Running =>
            allCompleted := false;
            anyRunning := true;
          case Retrying =>
            allCompleted := false;
            anyRunning := true;
          case Pending =>
            allCompleted := false;
          case _ =>
        }
      }
      assert forall j :: j in all - items <==> IsImageOf(World(), j, e);
      var newStatus;
      if allCompleted {
        newStatus := Completed;
      } else if anyFailed {
        newStatus := Progress.Failed;
      } else if anyRunning {
        newStatus := Running;
      } else {
        newStatus := Pending;
      }
      assert newStatus == Aggregate(World(), e);
      if x.progress != newStatus {
        x := x.(progress := newStatus);
        var ok := UpdateExportObject(e, x);
        if !ok {
          return Error;
        }
      }
      result := if allCompleted then Done else Requeue;
    }

    // ----- ClusterImageExportReconciler

    method ReconcileClusterImageExport(e: Key, found: Discovery) returns (result: Ending)
      requires cache.Valid()
      modifies this, cache
      ensures cache.Valid()
      ensures Outcome(World(), result) == ReconcileExport(old(World()), e, found, digest)
    {
      if e !in exports {
        return Done;
      }
      var x := exports[e];
      if x.deleting {
        result := HandleExportDeletion(e, x);
        return;
      }
      var ok: bool;
      if !x.finalizer {
        x := x.(finalizer := true);
        ok := UpdateExportObject(e, x);
        if !ok {
          return Error;
        }
      }
      if x.progress == Completed || x.progress == Progress.Failed {
        return Done;
      }
      if x.progress == Unset {
        x := x.(progress := Pending);
        ok := UpdateExportObject(e, x);
        if !ok {
          return Error;
        }
      }
      if found.ListFailed? {
        return Error;
      }
      var additional := ParseAdditionalImages(x.spec.additionalImages);
      var list := found.containers + additional;
      x := x.(progress := Running);
      ok := UpdateExportObject(e, x);
      if !ok {
        return Error;
      }
      history := StartLoop(World(), e, list).history;
      result := CreateClusterImages(e, x, list);
    }

    method ParseAdditionalImages(names: seq<string>) returns (list: seq<Container>)
      requires cache.Valid()
      modifies cache
      ensures cache.Valid()
      ensures list == Additional(names)
    {
      list := [];
      for i := 0 to |names|
        invariant cache.Valid()
        invariant list == Additional(names[..i])
      {
        assert names[..i+1][..i] == names[..i];
        var img := cache.ProcessContainerName(names[i]);
        if img.Ok? {
          list := list + [img.value];
        }
      }
      assert names[..|names|] == names;
    }

    method CreateClusterImages(e: Key, x: Export, list: seq<Container>) returns (result: Ending)
      modifies this
      ensures Outcome(World(), result) == CreateImages(old(World()), e, x, list, digest)
    {
      assert list[0..] == list;
      for i := 0 to |list|
        invariant CreateImages(World(), e, x, list[i..], digest) == CreateImages(old(World()), e, x, list, digest)
      {
        assert list[i..][0] == list[i] && list[i..][1..] == list[i+1..];
        var k := ImageKey(digest, e, list[i]);
        if k in images {
          if images[k].progress == Progress.Failed {
            var ok := UpdateExportObject(e, x.(progress := Progress.Failed));
            return if ok then Done else Error;
          }
          continue;
        }
        var ok := CreateClusterImage(k, NewImage(e, x, list[i]));
        if !ok {
          return Error;
        }
      }
      history := EndLoop(World(), e).history;
      var allCompleted := CheckAllClusterImagesCompleted(e);
      if allCompleted {
        var ok := UpdateExportObject(e, x.(progress := Completed));
        if !ok {
          return Error;
        }
      }
      result := if allCompleted then Done else Requeue;
    }

    method CreateClusterImage(k: Key, img: Image) returns (ok: bool)
      modifies this
      ensures Outcome(World(), if ok then Done else Error) == CreateImage(old(World()), k, img)
    {
      if k in images {
        return false;
      }
      ok := Spend();
      if ok {
        images := images[k := img];
        history := history.(created := history.created - {k}, lostOf := history.lostOf - {k},
                            imaged := history.imaged + {ExportOf(k, img)});
      }
    }

    method CheckAllClusterImagesCompleted(e: Key) returns (all: bool)
      ensures all <==> AllCompleted(World(), e)
    {
      var items := set j | j in images && ExportOf(j, images[j]) == e;
      while items != {}
        invariant forall j | j in items :: IsImageOf(World(), j, e)
        invariant forall j | IsImageOf(World(), j, e) && j !in items :: IsStored(images[j].progress)
        decreases items
      {
        var j :| j in items;
        items := items - {j};
        if images[j].progress != Completed && images[j].progress != Present {
          assert IsImageOf(World(), j, e);
          return false;
        }
      }
      all := true;
    }

    method HandleExportDeletion(e: Key, x: Export) returns (result: Ending)
      requires e in exports && x == exports[e]
      modifies this
      ensures Outcome(World(), result) == HandleDeletion(old(World()), e)
    {
      if x.finalizer {
        var ok := RunCleanupJob(e, x);
        if !ok {
          return Error;
        }
        ok := Spend();
        if !ok {
          return Error;
        }
        exports := exports - {e};
      }
      result := Done;
    }

    method RunCleanupJob(e: Key, x: Export) returns (ok: bool)
      modifies this
      ensures Outcome(World(), if ok then Done else Error) == CreateCleanupJob(old(World()), e, x.spec)
    {
      var job := Key(e.ns, CleanupJobName(e.name));
      if job in cleanupJobs {
        return false;
      }
      ok := Spend();
      if ok {
        cleanupJobs := cleanupJobs + {job};
        history := history.(cleaned := history.cleaned[e := x.spec]);
      }
    }
  }
}
