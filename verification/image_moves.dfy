/** The moves of an image reconcile.

    Whatever API call fails, one reconcile of one image makes one of ten moves.  The table below
    says what each does to the image, its job, the slot counter and the history; everything
    proved about runs rests on it. */
module ImageMoves {
  import opened Cluster
  import opened Controllers

  /** Only the status of image `k` differs, and it is now this. */
  ghost predicate Sets(w: World, w': World, k: Key, progress: Progress, retries: nat)
    requires k in w.images
  {
    w'.images == w.images[k := w.images[k].(progress := progress, retries := retries)]
  }

  predicate Active(p: Progress) {
    p.Running? || p.Retrying?
  }

  predicate HasSlot(w: World, k: Key)
    requires k in w.images
  {
    var e := ExportOf(k, w.images[k]);
    e in w.exports && w.activeJobs < w.exports[e].spec.maxConcurrentJobs
  }

  predicate Succeeded(w: World, k: Key) {
    k in w.jobs && w.jobs[k].succeeded > 0
  }

  predicate JobFailed(w: World, k: Key) {
    k in w.jobs && w.jobs[k].succeeded == 0 && w.jobs[k].failed > 0
  }

  predicate Live(w: World, k: Key) {
    k in w.jobs && w.jobs[k].succeeded == 0 && w.jobs[k].failed == 0
  }

  /** The jobs and what is remembered of them. */
  datatype Ledger = Ledger(jobs: map<Key, Job>, cleanupJobs: set<Key>, history: History)

  function Books(w: World): Ledger {
    Ledger(w.jobs, w.cleanupJobs, w.history)
  }

  predicate SameJobs(w: World, w': World) {
    Books(w') == Books(w)
  }

  /** The job is deleted; when the reconcile fails it may still be there. */
  predicate EndsJob(w: World, o: Outcome, k: Key) {
    || Books(o.w) == Books(w).(jobs := w.jobs - {k})
    || (o.result.Error? && Books(o.w) == Books(w))
  }

  function NamesGone(jobs: map<Key, Job>, jobs': map<Key, Job>): set<string> {
    set j | j in jobs && j !in jobs' :: jobs[j].fullName
  }

  /** Jobs of one namespace are deleted, and every deleted export job is counted as lost. */
  ghost predicate Purged(l: Ledger, l': Ledger, ns: string) {
    && l'.history == l.history.(lost := l'.history.lost, lostOf := l'.history.lostOf, lostNames := l'.history.lostNames)
    && l'.history.lostNames == l.history.lostNames + NamesGone(l.jobs, l'.jobs)
    && l'.cleanupJobs <= l.cleanupJobs
    && (forall j | j in l'.jobs :: j in l.jobs && l'.jobs[j] == l.jobs[j])
    && (forall j | j in l.jobs && j.ns != ns :: j in l'.jobs)
    && l'.history.lost + |l'.jobs| == l.history.lost + |l.jobs|
    && (forall j ::
        CountOf(l'.history.lostOf, j)
        == CountOf(l.history.lostOf, j) + if j in l.jobs && j !in l'.jobs then 1 else 0)
  }

  // ----- the table

  /** Nothing happens; but a reconcile that fails on the last status of a job has given its slot back. */
  ghost predicate Idle(w: World, o: Outcome, k: Key)
    requires k in w.images
  {
    && o.w.images == w.images && SameJobs(w, o.w)
    && (|| o.w.activeJobs == w.activeJobs
        || (&& o.result.Error? && o.w.activeJobs == w.activeJobs - 1
            && Active(w.images[k].progress)
            && (Succeeded(w, k) || (JobFailed(w, k) && w.images[k].retries >= MAX_RETRIES))))
  }

  ghost predicate Adopted(w: World, o: Outcome, k: Key)
    requires k in w.images
  {
    && w.images[k].progress.Unset? && Sets(w, o.w, k, Pending, w.images[k].retries)
    && SameJobs(w, o.w) && o.w.activeJobs == w.activeJobs && o.result.Requeue?
  }

  ghost predicate FoundPresent(w: World, o: Outcome, k: Key)
    requires k in w.images
  {
    && w.images[k].progress.Pending? && HasSlot(w, k) && ImageExists(w, k)
    && Sets(w, o.w, k, Present, w.images[k].retries)
    && SameJobs(w, o.w) && o.w.activeJobs == w.activeJobs
  }

  /** What a job created for the image now is told to write. */
  function TargetNow(w: World, k: Key): Archive
    requires k in w.images && ExportOf(k, w.images[k]) in w.exports
  {
    TargetOf(k, w.images[k], w.exports[ExportOf(k, w.images[k])].spec.bucket)
  }

  ghost predicate Started(w: World, o: Outcome, k: Key)
    requires k in w.images
  {
    && w.images[k].progress.Pending? && HasSlot(w, k) && !ImageExists(w, k) && k !in w.jobs
    && (Sets(w, o.w, k, Running, w.images[k].retries) || (o.result.Error? && o.w.images == w.images))
    && o.w.jobs == w.jobs[k := NewJob(w.images[k])] && o.w.cleanupJobs == w.cleanupJobs
    && o.w.history == w.history.(created := Bump(w.history.created, k),
                                 jobNames := w.history.jobNames + {w.images[k].container.fullName},
                                 archives := w.history.archives + {TargetNow(w, k)})
    && o.w.activeJobs == w.activeJobs + (if o.result.Error? then 0 else 1)
    && (o.result.Error? || o.result.Requeue?)
  }

  ghost predicate JobMissed(w: World, o: Outcome, k: Key)
    requires k in w.images
  {
    && Active(w.images[k].progress) && k !in w.jobs
    && Sets(w, o.w, k, Pending, w.images[k].retries)
    && SameJobs(w, o.w) && o.w.activeJobs == w.activeJobs && o.result.Requeue?
  }

  ghost predicate Stored(w: World, o: Outcome, k: Key)
    requires k in w.images
  {
    && Active(w.images[k].progress) && Succeeded(w, k)
    && Sets(w, o.w, k, Completed, w.images[k].retries)
    && EndsJob(w, o, k) && o.w.activeJobs == w.activeJobs - 1
  }

  ghost predicate Retried(w: World, o: Outcome, k: Key)
    requires k in w.images
  {
    && Active(w.images[k].progress) && JobFailed(w, k) && w.images[k].retries < MAX_RETRIES
    && Sets(w, o.w, k, Retrying, w.images[k].retries + 1)
    && EndsJob(w, o, k) && o.w.activeJobs == w.activeJobs - (if o.result.Error? then 0 else 1)
    && (o.result.Error? || o.result.Requeue?)
  }

  ghost predicate GivenUp(w: World, o: Outcome, k: Key)
    requires k in w.images
  {
    && Active(w.images[k].progress) && JobFailed(w, k) && w.images[k].retries >= MAX_RETRIES
    && Sets(w, o.w, k, Failed, w.images[k].retries)
    && EndsJob(w, o, k) && o.w.activeJobs == w.activeJobs - 1
  }

  /** The world the tail of a reconcile works on: the job lives on, or has just been cleaned up. */
  predicate BeforeTail(w: World, m: World, k: Key)
    requires k in w.images
  {
    || (Live(w, k) && Books(m) == Books(w) && m.activeJobs == w.activeJobs)
    || (&& (Succeeded(w, k) || (JobFailed(w, k) && w.images[k].retries >= MAX_RETRIES))
        && Books(m) == Books(w).(jobs := w.jobs - {k}) && m.activeJobs == w.activeJobs - 1)
  }

  /** A few restarts: the image is to be retried, even when its job has just succeeded. */
  ghost predicate Restarted(w: World, o: Outcome, k: Key, rc: nat)
    requires k in w.images
  {
    && Active(w.images[k].progress) && BeforeTail(w, o.w, k)
    && rc > 0 && w.images[k].retries + rc < MAX_RETRIES
    && Sets(w, o.w, k, Retrying, w.images[k].retries + rc)
  }

  /** Too many restarts: the image fails and the namespace is purged, completely or in part. */
  ghost predicate Purges(w: World, o: Outcome, k: Key, view: View)
    requires k in w.images
  {
    var rc := FirstRestart(view.restarts);
    && Active(w.images[k].progress)
    && rc > 0 && w.images[k].retries + rc >= MAX_RETRIES
    && Sets(w, o.w, k, Failed, w.images[k].retries + rc)
    && (exists m :: BeforeTail(w, m, k) && Purged(Books(m), Books(o.w), k.ns) && o.w.activeJobs == m.activeJobs)
    && (!o.result.Error? && ExportJob(k) in view.jobs ==> k !in o.w.jobs)
  }

  ghost predicate Moves(w: World, o: Outcome, k: Key, view: View)
    requires k in w.images
  {
    || Idle(w, o, k)
    || Adopted(w, o, k)
    || FoundPresent(w, o, k)
    || Started(w, o, k)
    || JobMissed(w, o, k)
    || Stored(w, o, k)
    || Retried(w, o, k)
    || GivenUp(w, o, k)
    || Restarted(w, o, k, FirstRestart(view.restarts))
    || Purges(w, o, k, view)
  }

  // ----- the purge

  lemma LoseJobPurges(w: World, k: Key)
    ensures Purged(Books(w), Books(LoseJob(w, k)), k.ns)
  {
    if k in w.jobs {
      assert w.jobs.Keys == (w.jobs - {k}).Keys + {k};
      assert |w.jobs.Keys| == |(w.jobs - {k}).Keys| + 1;
    }
  }

  lemma PurgedTwice(a: Ledger, b: Ledger, c: Ledger, ns: string)
    requires Purged(a, b, ns) && Purged(b, c, ns)
    ensures Purged(a, c, ns)
  {
  }

  lemma PurgesNothing(l: Ledger, ns: string)
    ensures Purged(l, l, ns)
  {
  }

  lemma PurgeJobPurges(w: World, id: JobId)
    ensures Purged(Books(w), Books(PurgeJob(w, id).w), Namespace(id))
  {
    PurgesNothing(Books(w), Namespace(id));
    if w.CanWrite() && id.ExportJob? {
      assert Books(w.Spent()) == Books(w);
      LoseJobPurges(w.Spent(), id.image);
      hide Purged, LoseJob;
    }
  }

  lemma PurgeJobEffect(w: World, id: JobId)
    ensures var o := PurgeJob(w, id);
      && o.w.images == w.images && o.w.exports == w.exports && o.w.activeJobs == w.activeJobs
      && (w.writes.Reliable? ==> !o.result.Error? && o.w.writes.Reliable?)
      && (!o.result.Error? && id.ExportJob? ==> id.image !in o.w.jobs)
      && (forall j | j in o.w.jobs :: j in w.jobs)
  {
  }

  lemma {:induction false} PurgeEffect(w: World, ns: string, listing: seq<JobId>)
    ensures var o := RemoveAllJobs(w, ns, listing);
      && Purged(Books(w), Books(o.w), ns) && o.w.images == w.images && o.w.exports == w.exports
          && o.w.activeJobs == w.activeJobs
      && (w.writes.Reliable? ==> !o.result.Error? && o.w.writes.Reliable?)
      && (!o.result.Error? ==>
          && o.result.Done?
          && (forall j: Key | j.ns == ns && ExportJob(j) in listing :: j !in o.w.jobs))
      && (forall j | j in o.w.jobs :: j in w.jobs)
    decreases |listing|
  {
    PurgesNothing(Books(w), ns);
    hide Purged, PurgeJob;
    if listing != [] {
      var id := listing[0];
      assert listing == [id] + listing[1..];
      if Namespace(id) != ns {
        PurgeEffect(w, ns, listing[1..]);
      } else {
        PurgeJobPurges(w, id);
        PurgeJobEffect(w, id);
        var o1 := PurgeJob(w, id);
        if !o1.result.Error? {
          PurgeEffect(o1.w, ns, listing[1..]);
          PurgedTwice(Books(w), Books(o1.w), Books(RemoveAllJobs(w, ns, listing).w), ns);
        }
      }
    }
  }

  // ----- the tail

  ghost predicate NoRestart(m: World, o: Outcome, k: Key, rc: nat) {
    o.w.images == m.images && SameJobs(m, o.w) && (o.result.Error? || rc == 0)
  }

  ghost predicate FewRestarts(m: World, o: Outcome, k: Key, rc: nat)
    requires k in m.images
  {
    var r := m.images[k].retries + rc;
    rc > 0 && r < MAX_RETRIES && Sets(m, o.w, k, Retrying, r) && SameJobs(m, o.w)
  }

  ghost predicate ManyRestarts(m: World, o: Outcome, k: Key, view: View)
    requires k in m.images
  {
    var rc := FirstRestart(view.restarts);
    var r := m.images[k].retries + rc;
    && rc > 0 && r >= MAX_RETRIES && Sets(m, o.w, k, Failed, r) && Purged(Books(m), Books(o.w), k.ns)
    && (!o.result.Error? && ExportJob(k) in view.jobs ==> k !in o.w.jobs)
  }

  /** What the tail does to the world it starts from. */
  ghost predicate Tail(m: World, o: Outcome, k: Key, view: View)
    requires k in m.images
  {
    var rc := FirstRestart(view.restarts);
    && o.w.activeJobs == m.activeJobs
    && (NoRestart(m, o, k, rc) || FewRestarts(m, o, k, rc) || ManyRestarts(m, o, k, view))
  }

  lemma ManyRestartsTail(m: World, k: Key, view: View)
    requires k in m.images
    requires FirstRestart(view.restarts) > 0 && m.images[k].retries + FirstRestart(view.restarts) >= MAX_RETRIES
    ensures var o := HandleJobRestarts(m, k, view);
      && o.w.activeJobs == m.activeJobs && o.w.exports == m.exports
      && (ManyRestarts(m, o, k, view) || NoRestart(m, o, k, FirstRestart(view.restarts)))
  {
    hide RemoveAllJobs, Purged;
    var o1 := UpdateImage(m, k, Failed, m.images[k].retries + FirstRestart(view.restarts));
    if !o1.result.Error? {
      PurgeEffect(o1.w, k.ns, view.jobs);
      assert Books(o1.w) == Books(m);
    }
  }

  lemma RestartsTail(m: World, k: Key, view: View)
    requires k in m.images
    ensures Tail(m, HandleJobRestarts(m, k, view), k, view)
    ensures HandleJobRestarts(m, k, view).w.exports == m.exports
  {
    var rc := FirstRestart(view.restarts);
    if rc > 0 && m.images[k].retries + rc >= MAX_RETRIES {
      ManyRestartsTail(m, k, view);
      hide HandleJobRestarts, ManyRestarts;
    } else {
      hide Purged;
    }
  }

  /** Writing back the status just written, and then the export's, changes nothing of this. */
  lemma WriteBackTail(m: World, o: Outcome, k: Key, view: View)
    requires k in m.images && Tail(m, o, k, view) && k in o.w.images && !o.result.Error?
    ensures var o1 := UpdateImage(o.w, k, o.w.images[k].progress, o.w.images[k].retries);
      && Tail(m, o1, k, view) && o1.w.images == o.w.images && o1.w.exports == o.w.exports
  {
    hide Purged;
    var o1 := UpdateImage(o.w, k, o.w.images[k].progress, o.w.images[k].retries);
    assert o1.w.images == o.w.images && Books(o1.w) == Books(o.w);
  }

  lemma ExportStatusTail(m: World, o: Outcome, k: Key, view: View)
    requires k in m.images && Tail(m, o, k, view) && k in o.w.images && !o.result.Error?
    ensures Tail(m, UpdateExportStatus(o.w, k), k, view)
  {
    hide Purged, Aggregate, AllCompletedSwitch;
    assert Books(UpdateExportStatus(o.w, k).w) == Books(o.w);
  }

  lemma FinishTail(m: World, k: Key, view: View)
    requires k in m.images
    ensures Tail(m, Finish(m, k, view), k, view)
  {
    RestartsTail(m, k, view);
    hide Tail, HandleJobRestarts, UpdateImage, UpdateExportStatus;
    var o1 := HandleJobRestarts(m, k, view);
    if !o1.result.Error? {
      WriteBackTail(m, o1, k, view);
      var o2 := UpdateImage(o1.w, k, o1.w.images[k].progress, o1.w.images[k].retries);
      if !o2.result.Error? {
        ExportStatusTail(m, o2, k, view);
      }
    }
  }

  // ----- the branches

  lemma PendingMoves(w: World, k: Key, view: View)
    requires k in w.images && w.images[k].progress.Pending? && HasSlot(w, k)
    ensures Moves(w, HandlePending(w, k), k, view)
  {
    var r := w.images[k].retries;
    var o := HandlePending(w, k);
    if ImageExists(w, k) {
      assert Idle(w, o, k) || FoundPresent(w, o, k);
    } else if CreateJob(w, k, w.exports[ExportOf(k, w.images[k])].spec.bucket).result.Error? {
      assert Idle(w, o, k);
    } else {
      StartMoves(w, k);
    }
  }

  lemma StartMoves(w: World, k: Key)
    requires k in w.images && w.images[k].progress.Pending? && HasSlot(w, k) && !ImageExists(w, k)
    requires !CreateJob(w, k, w.exports[ExportOf(k, w.images[k])].spec.bucket).result.Error?
    ensures Started(w, HandlePending(w, k), k)
  {
    hide ImageExists;
    var r := w.images[k].retries;
    var w1 := CreateJob(w, k, w.exports[ExportOf(k, w.images[k])].spec.bucket).w;
    var o2 := UpdateImage(w1, k, Running, r);
    if !o2.result.Error? {
      var o3 := UpdateImage(o2.w, k, Running, r);
      assert Sets(w, o3.w, k, Running, r);
    }
  }

  lemma LiveMoves(w: World, k: Key, view: View)
    requires k in w.images && Active(w.images[k].progress) && Live(w, k)
    ensures Moves(w, HandleRunning(w, k, view), k, view)
  {
    FinishTail(w, k, view);
    var o := Finish(w, k, view);
    hide Finish, Purged;
    var rc := FirstRestart(view.restarts);
    if NoRestart(w, o, k, rc) {
      assert Idle(w, o, k);
    } else if FewRestarts(w, o, k, rc) {
      assert Restarted(w, o, k, rc);
    } else {
      assert ManyRestarts(w, o, k, view) && BeforeTail(w, w, k);
      assert Purges(w, o, k, view);
    }
  }

  /** The job is over for good: the final progress is written, the job cleaned up, the tail run. */
  lemma SettledMoves(w: World, k: Key, view: View, progress: Progress)
    requires k in w.images && Active(w.images[k].progress)
    requires if progress.Completed? then Succeeded(w, k)
             else progress.Failed? && JobFailed(w, k) && w.images[k].retries >= MAX_RETRIES
    ensures var r := w.images[k].retries;
      var o1 := UpdateImage(w.(activeJobs := w.activeJobs - 1), k, progress, r);
      var o2 := CleanupJobAndPods(o1.w, k);
      && (o1.result.Error? ==> Moves(w, o1, k, view))
      && (!o1.result.Error? && o2.result.Error? ==> Moves(w, o2, k, view))
      && (!o1.result.Error? && !o2.result.Error? ==> k in o2.w.images && Moves(w, Finish(o2.w, k, view), k, view))
  {
    var r := w.images[k].retries;
    var o1 := UpdateImage(w.(activeJobs := w.activeJobs - 1), k, progress, r);
    if o1.result.Error? {
      assert Idle(w, o1, k);
    } else {
      var o2 := CleanupJobAndPods(o1.w, k);
      if o2.result.Error? {
        assert Stored(w, o2, k) || GivenUp(w, o2, k);
      } else {
        assert Sets(w, o2.w, k, progress, r) && BeforeTail(w, o2.w, k);
        TailOfSettled(w, o2.w, k, view, progress);
      }
    }
  }

  lemma SetsTwice(w: World, m: World, w': World, k: Key, p: Progress, r: nat, p': Progress, r': nat)
    requires k in w.images && Sets(w, m, k, p, r) && Sets(m, w', k, p', r')
    ensures Sets(w, w', k, p', r')
  {
  }

  lemma QuietTail(w: World, m: World, o: Outcome, k: Key, progress: Progress, rc: nat)
    requires k in w.images && Active(w.images[k].progress) && BeforeTail(w, m, k) && !Live(w, k)
    requires if progress.Completed? then Succeeded(w, k)
             else progress.Failed? && JobFailed(w, k) && w.images[k].retries >= MAX_RETRIES
    requires Sets(w, m, k, progress, w.images[k].retries)
    requires NoRestart(m, o, k, rc) && o.w.activeJobs == m.activeJobs
    ensures Stored(w, o, k) || GivenUp(w, o, k)
  {
  }

  lemma TailOfSettled(w: World, m: World, k: Key, view: View, progress: Progress)
    requires k in w.images && Active(w.images[k].progress) && BeforeTail(w, m, k) && !Live(w, k)
    requires if progress.Completed? then Succeeded(w, k)
             else progress.Failed? && JobFailed(w, k) && w.images[k].retries >= MAX_RETRIES
    requires Sets(w, m, k, progress, w.images[k].retries)
    ensures Moves(w, Finish(m, k, view), k, view)
  {
    FinishTail(m, k, view);
    TailMoves(w, m, Finish(m, k, view), k, view, progress);
  }

  lemma TailMoves(w: World, m: World, o: Outcome, k: Key, view: View, progress: Progress)
    requires k in w.images && Active(w.images[k].progress) && BeforeTail(w, m, k) && !Live(w, k)
    requires if progress.Completed? then Succeeded(w, k)
             else progress.Failed? && JobFailed(w, k) && w.images[k].retries >= MAX_RETRIES
    requires Sets(w, m, k, progress, w.images[k].retries) && Tail(m, o, k, view)
    ensures Moves(w, o, k, view)
  {
    hide Purged;
    var rc := FirstRestart(view.restarts);
    if NoRestart(m, o, k, rc) {
      QuietTail(w, m, o, k, progress, rc);
    } else if FewRestarts(m, o, k, rc) {
      SetsTwice(w, m, o.w, k, progress, w.images[k].retries, Retrying, w.images[k].retries + rc);
      hide Sets;
      assert Restarted(w, o, k, rc);
    } else {
      assert ManyRestarts(m, o, k, view);
      SetsTwice(w, m, o.w, k, progress, w.images[k].retries, Failed, w.images[k].retries + rc);
      hide Sets;
      assert Purges(w, o, k, view);
    }
  }

  lemma RetryMoves(w: World, k: Key, view: View)
    requires k in w.images && Active(w.images[k].progress) && JobFailed(w, k) && w.images[k].retries < MAX_RETRIES
    ensures Moves(w, HandleRunning(w, k, view), k, view)
  {
    var o := HandleRunning(w, k, view);
    var o1 := UpdateImage(w, k, Retrying, w.images[k].retries + 1);
    if o1.result.Error? {
      assert Idle(w, o, k);
    } else {
      assert Retried(w, o, k);
    }
  }

  lemma MissedMoves(w: World, k: Key, view: View)
    requires k in w.images && Active(w.images[k].progress) && k !in w.jobs
    ensures Moves(w, HandleRunning(w, k, view), k, view)
  {
    var o := HandleRunning(w, k, view);
    assert Idle(w, o, k) || JobMissed(w, o, k);
  }

  lemma RunningMoves(w: World, k: Key, view: View)
    requires k in w.images && Active(w.images[k].progress)
    ensures Moves(w, HandleRunning(w, k, view), k, view)
  {
    hide Moves, UpdateImage, CleanupJobAndPods, Finish;
    if k !in w.jobs {
      MissedMoves(w, k, view);
    } else if Live(w, k) {
      LiveMoves(w, k, view);
    } else if JobFailed(w, k) && w.images[k].retries < MAX_RETRIES {
      RetryMoves(w, k, view);
    } else {
      SettledMoves(w, k, view, if Succeeded(w, k) then Completed else Failed);
    }
  }

  /** Every reconcile of an existing image, failing at any API call, is a move of the table. */
  lemma ReconcileMoves(w: World, k: Key, view: View)
    requires k in w.images
    ensures Moves(w, Reconcile(w, k, view), k, view)
  {
    var e := ExportOf(k, w.images[k]);
    var o := Reconcile(w, k, view);
    if e !in w.exports {
      assert Idle(w, o, k);
    } else {
      var v := w.(maxParallelJobs := w.exports[e].spec.maxConcurrentJobs);
      match w.images[k].progress
      case Unset => assert Idle(w, o, k) || Adopted(w, o, k);
      case Pending =>
        if HasSlot(w, k) {
          PendingMoves(v, k, view);
          MovesIgnoresMax(w, v, o, k, view);
        } else {
          assert Idle(w, o, k);
        }
      case Running =>
        RunningMoves(v, k, view);
        MovesIgnoresMax(w, v, o, k, view);
      case Retrying =>
        RunningMoves(v, k, view);
        MovesIgnoresMax(w, v, o, k, view);
      case _ => assert Idle(w, o, k);
    }
  }

  lemma MovesIgnoresMax(w: World, v: World, o: Outcome, k: Key, view: View)
    requires k in w.images && v == w.(maxParallelJobs := v.maxParallelJobs) && Moves(v, o, k, view)
    ensures Moves(w, o, k, view)
  {
    hide Purged;
    assert ImageExists(v, k) == ImageExists(w, k) by {
      assert forall j | j in w.images :: Stands(v, j, k) == Stands(w, j, k);
    }
    hide ImageExists;
    assert Books(v) == Books(w);
    if Purges(v, o, k, view) {
      hide Idle, Adopted, Started, Stored;
      var m :| BeforeTail(v, m, k) && Purged(Books(m), Books(o.w), k.ns) && o.w.activeJobs == m.activeJobs;
      assert BeforeTail(w, m, k);
    }
  }

  /** A move neither creates nor deletes an image, and keeps what it is an image of. */
  lemma MoveKeepsImages(w: World, o: Outcome, k: Key, view: View)
    requires k in w.images && Moves(w, o, k, view)
    ensures o.w.images.Keys == w.images.Keys
    ensures o.w.images == w.images[k := o.w.images[k]]
    ensures o.w.images[k] == w.images[k].(progress := o.w.images[k].progress, retries := o.w.images[k].retries)
  {
    hide ImageExists, HasSlot, Purged, BeforeTail;
  }
}
