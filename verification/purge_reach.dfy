/** Which jobs a purge takes, told from the state before the reconcile: from the restarts seen, the
    order in which jobs are listed, and how many calls still succeed. */
module PurgeReach {
  import opened Cluster
  import opened Controllers
  import opened ImageMoves

  // ----- calls

  predicate CanAfford(writes: Writes, n: nat) {
    writes.Reliable? || writes.left >= n
  }

  /** What is left after `n` calls. */
  function Left(writes: Writes, n: nat): Writes {
    if writes.Reliable? || writes.left < n then writes else FailsAfter(writes.left - n)
  }

  // ----- reach

  predicate JobThere(w: World, id: JobId) {
    match id
    case ExportJob(k) => k in w.jobs
    case CleanupJob(q) => q in w.cleanupJobs
  }

  /** The listing names the job in its namespace, at a place the calls still reach. */
  predicate Reached(listing: seq<JobId>, ns: string, writes: Writes, id: JobId)
    decreases |listing|
  {
    && listing != []
    && if Namespace(listing[0]) != ns then Reached(listing[1..], ns, writes, id)
       else CanAfford(writes, 1) && (listing[0] == id || Reached(listing[1..], ns, Left(writes, 1), id))
  }

  /** The calls a reconcile makes before it purges: FAILED, or the job's end, its clean-up and FAILED. */
  function CallsBefore(w: World, k: Key): nat {
    if Live(w, k) then 1 else 4
  }

  /** The reconcile comes to a purge. */
  predicate PurgesNow(w: World, k: Key, view: View) {
    && k in w.images && ExportOf(k, w.images[k]) in w.exports
    && Active(w.images[k].progress) && k in w.jobs
    && !(JobFailed(w, k) && w.images[k].retries < MAX_RETRIES)
    && TooManyRestarts(w, k, view)
    && CanAfford(w.writes, CallsBefore(w, k))
  }

  predicate TooManyRestarts(w: World, k: Key, view: View)
    requires k in w.images
  {
    var rc := FirstRestart(view.restarts);
    rc > 0 && w.images[k].retries + rc >= MAX_RETRIES
  }

  // ----- the purge

  lemma DeletingOne(w: World, listed: JobId, id: JobId)
    requires JobThere(w, id)
    ensures var o := PurgeJob(w, listed);
      && (o.result.Error? <==> !CanAfford(w.writes, 1))
      && (o.result.Error? ==> o.w == w)
      && (!o.result.Error? ==> o.w.writes == Left(w.writes, 1) && (JobThere(o.w, id) <==> listed != id))
  {
  }

  lemma PurgingKeepsGone(w: World, ns: string, listing: seq<JobId>, id: JobId)
    requires !JobThere(w, id)
    ensures !JobThere(RemoveAllJobs(w, ns, listing).w, id)
    decreases |listing|
  {
    if listing != [] {
      if Namespace(listing[0]) != ns {
        PurgingKeepsGone(w, ns, listing[1..], id);
      } else {
        var o := PurgeJob(w, listing[0]);
        assert !JobThere(o.w, id);
        hide PurgeJob, JobThere;
        if !o.result.Error? {
          PurgingKeepsGone(o.w, ns, listing[1..], id);
        }
      }
    }
  }

  lemma {:induction false} PurgeTakesIff(w: World, ns: string, listing: seq<JobId>, id: JobId)
    requires JobThere(w, id)
    ensures !JobThere(RemoveAllJobs(w, ns, listing).w, id) <==> Reached(listing, ns, w.writes, id)
    decreases |listing|
  {
    hide PurgeJob, JobThere, CanAfford, Left;
    if listing != [] {
      if Namespace(listing[0]) != ns {
        PurgeTakesIff(w, ns, listing[1..], id);
      } else {
        var o := PurgeJob(w, listing[0]);
        DeletingOne(w, listing[0], id);
        if !o.result.Error? {
          if listing[0] == id {
            PurgingKeepsGone(o.w, ns, listing[1..], id);
          } else {
            PurgeTakesIff(o.w, ns, listing[1..], id);
          }
        }
      }
    }
  }

  // ----- the tail

  /** After the restarts the tail deletes no more. */
  lemma TailKeepsJobs(m: World, k: Key, view: View)
    requires k in m.images
    ensures var t, h := Finish(m, k, view).w, HandleJobRestarts(m, k, view).w;
      t.jobs == h.jobs && t.cleanupJobs == h.cleanupJobs
  {
    hide HandleJobRestarts, Aggregate, AllCompletedSwitch;
  }

  lemma RestartsTakeIff(m: World, k: Key, view: View, id: JobId)
    requires k in m.images && JobThere(m, id)
    ensures !JobThere(HandleJobRestarts(m, k, view).w, id) <==>
      TooManyRestarts(m, k, view) && CanAfford(m.writes, 1) && Reached(view.jobs, k.ns, Left(m.writes, 1), id)
  {
    var rc := FirstRestart(view.restarts);
    if TooManyRestarts(m, k, view) && CanAfford(m.writes, 1) {
      var o := UpdateImage(m, k, Failed, m.images[k].retries + rc);
      assert !o.result.Error? && JobThere(o.w, id) && o.w.writes == Left(m.writes, 1);
      assert HandleJobRestarts(m, k, view) == RemoveAllJobs(o.w, k.ns, view.jobs);
      hide *;
      PurgeTakesIff(o.w, k.ns, view.jobs, id);
    } else {
      hide RemoveAllJobs, Reached;
      assert HandleJobRestarts(m, k, view).w.jobs == m.jobs;
    }
  }

  lemma TailTakesIff(m: World, k: Key, view: View, id: JobId)
    requires k in m.images && JobThere(m, id)
    ensures !JobThere(Finish(m, k, view).w, id) <==>
      TooManyRestarts(m, k, view) && CanAfford(m.writes, 1) && Reached(view.jobs, k.ns, Left(m.writes, 1), id)
  {
    TailKeepsJobs(m, k, view);
    RestartsTakeIff(m, k, view, id);
    hide Finish, HandleJobRestarts, Reached, TooManyRestarts;
  }

  // ----- the whole reconcile

  /** A job that has not ended, or a cleanup job. */
  predicate Unended(w: World, id: JobId) {
    JobThere(w, id) && (id.ExportJob? ==> Live(w, id.image))
  }

  /** The final status written and the job cleaned up, the tail starts three calls later. */
  lemma SettlingCosts(w: World, k: Key, progress: Progress, id: JobId)
    requires k in w.images && k in w.jobs && !Live(w, k) && Unended(w, id)
    ensures var o1 := UpdateImage(w.(activeJobs := w.activeJobs - 1), k, progress, w.images[k].retries);
      var o2 := CleanupJobAndPods(o1.w, k);
      && JobThere(o1.w, id) && JobThere(o2.w, id)
      && (o1.result.Error? || o2.result.Error? <==> !CanAfford(w.writes, 3))
      && (CanAfford(w.writes, 3) ==>
            && k in o2.w.images && o2.w.images[k].retries == w.images[k].retries && o2.w.writes == Left(w.writes, 3))
  {
  }

  lemma SettledTakesIff(w: World, k: Key, view: View, id: JobId)
    requires k in w.images && k in w.jobs && !Live(w, k) && Unended(w, id)
    requires !(JobFailed(w, k) && w.images[k].retries < MAX_RETRIES)
    ensures !JobThere(HandleRunning(w, k, view).w, id) <==>
      TooManyRestarts(w, k, view) && CanAfford(w.writes, 4) && Reached(view.jobs, k.ns, Left(w.writes, 4), id)
  {
    var progress := if Succeeded(w, k) then Completed else Failed;
    var o1 := UpdateImage(w.(activeJobs := w.activeJobs - 1), k, progress, w.images[k].retries);
    var o2 := CleanupJobAndPods(o1.w, k);
    SettlingCosts(w, k, progress, id);
    assert HandleRunning(w, k, view)
        == if o1.result.Error? then o1 else if o2.result.Error? then o2 else Finish(o2.w, k, view) by {
      hide UpdateImage, CleanupJobAndPods, Finish;
    }
    LeftAfterThree(w.writes);
    hide HandleRunning, UpdateImage, CleanupJobAndPods, Finish, Reached, JobThere, Live, CanAfford, Left;
    if CanAfford(w.writes, 3) {
      TailTakesIff(o2.w, k, view, id);
    }
  }

  lemma LeftAfterThree(writes: Writes)
    ensures CanAfford(writes, 4) ==> CanAfford(writes, 3) && Left(Left(writes, 3), 1) == Left(writes, 4)
    ensures CanAfford(writes, 3) ==> (CanAfford(Left(writes, 3), 1) <==> CanAfford(writes, 4))
  {
  }

  lemma RunningTakesIff(w: World, k: Key, view: View, id: JobId)
    requires k in w.images && ExportOf(k, w.images[k]) in w.exports && Active(w.images[k].progress) && Unended(w, id)
    ensures !JobThere(HandleRunning(w, k, view).w, id) <==>
      PurgesNow(w, k, view) && Reached(view.jobs, k.ns, Left(w.writes, CallsBefore(w, k)), id)
  {
    hide Finish, Reached;
    if k in w.jobs {
      if Live(w, k) {
        TailTakesIff(w, k, view, id);
      } else if JobFailed(w, k) && w.images[k].retries < MAX_RETRIES {
        assert JobThere(HandleRunning(w, k, view).w, id);
      } else {
        SettledTakesIff(w, k, view, id);
        hide HandleRunning;
      }
    }
  }

  /** An image reconcile takes a job that has not ended, or a cleanup job, if and only if it comes to a
      purge and the purge reaches the job. */
  lemma ReconcileTakesIff(w: World, k: Key, view: View, id: JobId)
    requires Unended(w, id)
    ensures !JobThere(Reconcile(w, k, view).w, id) <==>
      PurgesNow(w, k, view) && Reached(view.jobs, k.ns, Left(w.writes, CallsBefore(w, k)), id)
  {
    if k in w.images && ExportOf(k, w.images[k]) in w.exports {
      var v := w.(maxParallelJobs := w.exports[ExportOf(k, w.images[k])].spec.maxConcurrentJobs);
      if Active(w.images[k].progress) {
        RunningTakesIff(v, k, view, id);
        hide HandleRunning, HandlePending, Reached;
      } else {
        PassiveTakesNothing(w, k, view, id);
        hide Reconcile, Reached;
      }
    }
  }

  lemma PassiveTakesNothing(w: World, k: Key, view: View, id: JobId)
    requires k in w.images && !Active(w.images[k].progress) && JobThere(w, id)
    ensures JobThere(Reconcile(w, k, view).w, id)
  {
    if w.images[k].progress.Pending? && ExportOf(k, w.images[k]) in w.exports {
      PendingTakesNothing(w.(maxParallelJobs := w.exports[ExportOf(k, w.images[k])].spec.maxConcurrentJobs), k, id);
    }
    hide HandlePending, HandleRunning;
  }

  lemma PendingTakesNothing(w: World, k: Key, id: JobId)
    requires k in w.images && JobThere(w, id)
    ensures JobThere(HandlePending(w, k).w, id)
  {
    hide ImageExists;
  }
}
