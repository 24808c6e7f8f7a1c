/** How an image reconcile ends, and what it writes to the image's export. */
module ImageResults {
  import opened Cluster
  import opened Controllers
  import opened ImageMoves

  predicate Terminal(p: Progress) {
    p.Completed? || p.Failed? || p.Present?
  }

  /** The exports after a reconcile: unchanged, or the image's export has been given the
      aggregate of the images as they are now. */
  ghost predicate ExportsFollow(w: World, o: Outcome, e: Key) {
    || o.w.exports == w.exports
    || (e in w.exports && o.w.exports == w.exports[e := w.exports[e].(progress := Aggregate(o.w, e))])
  }

  ghost predicate Informs(w: World, o: Outcome, e: Key) {
    && ExportsFollow(w, o, e)
    && (!o.result.Error? ==>
          && e in w.exports && o.w.exports[e].progress == Aggregate(o.w, e)
          && o.result == if AllCompletedSwitch(o.w, e) then Done else Requeue)
    && (w.writes.Reliable? && e in w.exports ==> !o.result.Error? && o.w.writes.Reliable?)
  }

  lemma StatusInforms(w: World, k: Key)
    requires k in w.images
    ensures Informs(w, UpdateExportStatus(w, k), ExportOf(k, w.images[k]))
  {
    var e := ExportOf(k, w.images[k]);
    var o := UpdateExportStatus(w, k);
    assert o.w.images == w.images;
    assert Aggregate(o.w, e) == Aggregate(w, e) && AllCompletedSwitch(o.w, e) == AllCompletedSwitch(w, e) by {
      assert forall j :: IsImageOf(o.w, j, e) == IsImageOf(w, j, e);
    }
    hide Aggregate, AllCompletedSwitch;
  }

  lemma RestartsKeepWriting(m: World, k: Key, view: View)
    requires k in m.images && m.writes.Reliable?
    ensures var o := HandleJobRestarts(m, k, view); !o.result.Error? && o.w.writes.Reliable?
  {
    var r := m.images[k].retries + FirstRestart(view.restarts);
    var o1 := UpdateImage(m, k, Failed, r);
    PurgeEffect(o1.w, k.ns, view.jobs);
    hide RemoveAllJobs, Purged;
  }

  lemma FinishInforms(m: World, k: Key, view: View)
    requires k in m.images
    ensures Informs(m, Finish(m, k, view), ExportOf(k, m.images[k]))
  {
    var e := ExportOf(k, m.images[k]);
    RestartsTail(m, k, view);
    if m.writes.Reliable? {
      RestartsKeepWriting(m, k, view);
    }
    var o1 := HandleJobRestarts(m, k, view);
    hide HandleJobRestarts, Purged, UpdateExportStatus, Aggregate, AllCompletedSwitch;
    if !o1.result.Error? {
      var o2 := UpdateImage(o1.w, k, o1.w.images[k].progress, o1.w.images[k].retries);
      if !o2.result.Error? {
        assert ExportOf(k, o2.w.images[k]) == e && o2.w.exports == m.exports;
        StatusInforms(o2.w, k);
      }
    }
  }

  lemma SettledInforms(w: World, k: Key, view: View, progress: Progress)
    requires k in w.images
    ensures var e := ExportOf(k, w.images[k]);
      var o1 := UpdateImage(w.(activeJobs := w.activeJobs - 1), k, progress, w.images[k].retries);
      var o2 := CleanupJobAndPods(o1.w, k);
      && (o1.result.Error? ==> Informs(w, o1, e))
      && (!o1.result.Error? && o2.result.Error? ==> Informs(w, o2, e))
      && (!o1.result.Error? && !o2.result.Error? ==> k in o2.w.images && Informs(w, Finish(o2.w, k, view), e))
  {
    var o1 := UpdateImage(w.(activeJobs := w.activeJobs - 1), k, progress, w.images[k].retries);
    if !o1.result.Error? {
      var o2 := CleanupJobAndPods(o1.w, k);
      if !o2.result.Error? {
        FinishInforms(o2.w, k, view);
        hide Aggregate, AllCompletedSwitch, Finish;
        assert o2.w.exports == w.exports && ExportOf(k, o2.w.images[k]) == ExportOf(k, w.images[k]);
      }
    }
  }

  lemma RunningInforms(w: World, k: Key, view: View)
    requires k in w.images && k in w.jobs && !(JobFailed(w, k) && w.images[k].retries < MAX_RETRIES)
    ensures Informs(w, HandleRunning(w, k, view), ExportOf(k, w.images[k]))
  {
    hide Informs, UpdateImage, CleanupJobAndPods, Finish;
    if Live(w, k) {
      FinishInforms(w, k, view);
    } else {
      SettledInforms(w, k, view, if Succeeded(w, k) then Completed else Failed);
    }
  }

  /** What a reconcile writes to exports, and that a reliable one ends without error unless it
      wants to create a job that already exists. */
  lemma ReconcileExports(w: World, k: Key, view: View)
    requires k in w.images && ExportOf(k, w.images[k]) in w.exports
    ensures var o, e := Reconcile(w, k, view), ExportOf(k, w.images[k]);
      && ExportsFollow(w, o, e)
      && (w.writes.Reliable? && !(w.images[k].progress.Pending? && k in w.jobs) ==> !o.result.Error?)
      && (!o.result.Error? && Active(w.images[k].progress) && k in w.jobs
            && !(JobFailed(w, k) && w.images[k].retries < MAX_RETRIES)
          ==> Informs(w, o, e))
      && (!o.result.Error? && (w.images[k].progress.Unset? || w.images[k].progress.Pending?)
          ==> o.result.Requeue? || o.result.RequeueAfter? || o.w.images[k].progress.Present?)
      && (!o.result.Error? && Active(w.images[k].progress)
          && (k !in w.jobs || (JobFailed(w, k) && w.images[k].retries < MAX_RETRIES))
          ==> o.result.Requeue?)
  {
    var e := ExportOf(k, w.images[k]);
    var v := w.(maxParallelJobs := w.exports[e].spec.maxConcurrentJobs);
    if Active(w.images[k].progress) {
      ActiveExports(v, k, view);
      hide Aggregate, HandleRunning, AllCompletedSwitch;
    } else {
      PassiveExports(w, k, view);
      hide Reconcile, Aggregate, AllCompletedSwitch, Informs;
    }
  }

  lemma PassiveExports(w: World, k: Key, view: View)
    requires k in w.images && ExportOf(k, w.images[k]) in w.exports && !Active(w.images[k].progress)
    ensures var o := Reconcile(w, k, view);
      && o.w.exports == w.exports && o.w.images.Keys == w.images.Keys
      && (w.writes.Reliable? && !(w.images[k].progress.Pending? && k in w.jobs) ==> !o.result.Error?)
      && (!o.result.Error? && (w.images[k].progress.Unset? || w.images[k].progress.Pending?)
          ==> o.result.Requeue? || o.result.RequeueAfter? || o.w.images[k].progress.Present?)
      && (Terminal(w.images[k].progress) ==> o.w.images == w.images)
  {
    var v := w.(maxParallelJobs := w.exports[ExportOf(k, w.images[k])].spec.maxConcurrentJobs);
    if w.images[k].progress.Pending? {
      PendingExports(v, k);
    }
    hide HandlePending, HandleRunning;
  }

  lemma PendingExports(w: World, k: Key)
    requires k in w.images && ExportOf(k, w.images[k]) in w.exports
    ensures var o := HandlePending(w, k);
      && o.w.exports == w.exports && o.w.images.Keys == w.images.Keys
      && (w.writes.Reliable? && k !in w.jobs ==> !o.result.Error?)
      && (!o.result.Error? ==> o.result.Requeue? || o.w.images[k].progress.Present?)
  {
    hide ImageExists;
    var c := CreateJob(w, k, w.exports[ExportOf(k, w.images[k])].spec.bucket);
    if !c.result.Error? {
      assert c.w.images == w.images && c.w.exports == w.exports;
    }
  }

  lemma ActiveExports(w: World, k: Key, view: View)
    requires k in w.images && ExportOf(k, w.images[k]) in w.exports
    ensures var o, e := HandleRunning(w, k, view), ExportOf(k, w.images[k]);
      && ExportsFollow(w, o, e)
      && (w.writes.Reliable? ==> !o.result.Error?)
      && (k !in w.jobs || (JobFailed(w, k) && w.images[k].retries < MAX_RETRIES)
          ==> o.result.Error? || o.result.Requeue?)
      && (k in w.jobs && !(JobFailed(w, k) && w.images[k].retries < MAX_RETRIES) ==> Informs(w, o, e))
  {
    if k in w.jobs && !(JobFailed(w, k) && w.images[k].retries < MAX_RETRIES) {
      RunningInforms(w, k, view);
      hide HandleRunning, Aggregate, AllCompletedSwitch;
    }
  }

  /** A move from RUNNING or RETRYING that ends in neither, nor in a final state, asks to be run
      again. */
  lemma MoveEnds(w: World, o: Outcome, k: Key, view: View)
    requires k in w.images && Active(w.images[k].progress) && Moves(w, o, k, view) && !o.result.Error?
    ensures k in o.w.images
    ensures Active(o.w.images[k].progress) || Terminal(o.w.images[k].progress) || o.result.Requeue?
  {
    hide ImageExists, HasSlot, Purged, EndsJob, BeforeTail;
  }

  /** With an image of it RUNNING or RETRYING, an export informed of its images is not complete. */
  lemma ActiveMeansRequeue(w: World, o: Outcome, k: Key, e: Key)
    requires Informs(w, o, e) && !o.result.Error?
    requires IsImageOf(o.w, k, e) && Active(o.w.images[k].progress)
    ensures o.result.Requeue?
  {
    assert !AllCompletedSwitch(o.w, e);
    hide Aggregate, AllCompletedSwitch;
  }

  /** No image is dropped: a reconcile that ends without error either leaves its image in a final
      state or asks to be run again. */
  lemma NoLostWakeup(w: World, k: Key, view: View)
    requires k in w.images && !w.images[k].progress.Starting?
    ensures var o := Reconcile(w, k, view);
      k in o.w.images && (!o.result.Error? && !Terminal(o.w.images[k].progress)
          ==> o.result.Requeue? || o.result.RequeueAfter?)
  {
    var o, e := Reconcile(w, k, view), ExportOf(k, w.images[k]);
    ReconcileMoves(w, k, view);
    MoveKeepsImages(w, o, k, view);
    if e in w.exports {
      if Active(w.images[k].progress) {
        ReconcileExports(w, k, view);
        hide Reconcile, Moves, Informs, ExportsFollow;
        if !o.result.Error? {
          MoveEnds(w, o, k, view);
          if Active(o.w.images[k].progress) && !o.result.Requeue? {
            ActiveMeansRequeue(w, o, k, e);
          }
        }
      } else {
        PassiveExports(w, k, view);
        hide Reconcile, Moves;
      }
    } else {
      hide Moves, ImageExists;
    }
  }

  /** Images of other namespaces are consulted, but nothing outside the image's own namespace is ever
      changed: no image, no export, no job, purge or not. */
  lemma NamespacesAreIsolated(w: World, k: Key, view: View)
    ensures var t := Reconcile(w, k, view).w;
      && (forall j: Key | j.ns != k.ns ::
          && (j in t.images <==> j in w.images)
          && (j in w.images ==> t.images[j] == w.images[j]))
      && (forall e: Key | e.ns != k.ns ::
          && (e in t.exports <==> e in w.exports)
          && (e in w.exports ==> t.exports[e] == w.exports[e]))
      && (forall j: Key | j.ns != k.ns :: (j in t.jobs <==> j in w.jobs) && (j in w.jobs ==> t.jobs[j] == w.jobs[j]))
  {
    if k in w.images && ExportOf(k, w.images[k]) in w.exports {
      var o := Reconcile(w, k, view);
      ReconcileMoves(w, k, view);
      ReconcileExports(w, k, view);
      MoveKeepsImages(w, o, k, view);
      JobsElsewhere(w, o, k, view);
      hide Reconcile, Moves, Aggregate, AllCompletedSwitch;
    }
  }

  lemma JobsElsewhere(w: World, o: Outcome, k: Key, view: View)
    requires k in w.images && Moves(w, o, k, view)
    ensures forall j: Key | j.ns != k.ns ::
        && (j in o.w.jobs <==> j in w.jobs)
        && (j in w.jobs ==> o.w.jobs[j] == w.jobs[j])
  {
    if Purges(w, o, k, view) {
      PurgedElsewhere(w, o, k, view);
    } else {
      hide Purges, ImageExists, HasSlot;
    }
  }

  lemma PurgedElsewhere(w: World, o: Outcome, k: Key, view: View)
    requires k in w.images && Purges(w, o, k, view)
    ensures forall j: Key | j.ns != k.ns ::
        && (j in o.w.jobs <==> j in w.jobs)
        && (j in w.jobs ==> o.w.jobs[j] == w.jobs[j])
  {
    var m :| BeforeTail(w, m, k) && Purged(Books(m), Books(o.w), k.ns) && o.w.activeJobs == m.activeJobs;
    forall j: Key | j.ns != k.ns
      ensures (j in o.w.jobs <==> j in w.jobs) && (j in w.jobs ==> o.w.jobs[j] == w.jobs[j])
    {
      assert j in m.jobs <==> j in w.jobs;
    }
  }
}
