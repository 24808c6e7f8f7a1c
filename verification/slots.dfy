/** The slot counter, over reliable runs: API calls of image reconciles succeed, a purge sees all
    the jobs there are, and the operator does not restart. */
module Slots {
  import opened Cluster
  import opened Controllers
  import opened ImageMoves
  import opened ImageResults
  import opened ExportMoves
  import opened Runs

  /** A purge, if the reconcile comes to one, lists every export job of its namespace. */
  ghost predicate ListsAllJobs(w: World, k: Key, view: View) {
    FirstRestart(view.restarts) > 0 ==> forall j | j in w.jobs && j.ns == k.ns :: ExportJob(j) in view.jobs
  }

  ghost predicate ReliableEvent(w: World, ev: Event) {
    match ev
    case ImageReconcile(k, view, writes) => writes.Reliable? && ListsAllJobs(w, k, view)
    case OperatorRestarts => false
    case _ => true
  }

  ghost predicate ReliableRun(w: World, events: seq<Event>, digest: string -> string)
    decreases |events|
  {
    events == [] || (ReliableEvent(w, events[0]) && ReliableRun(Step(w, events[0], digest), events[1..], digest))
  }

  /** How far the counter is from the jobs that exist and the slots that were lost. */
  function Drift(w: World): int {
    w.activeJobs - |w.jobs| - w.history.lost
  }

  /** Every job belongs to an image that is being exported. */
  predicate JobsAreActive(w: World) {
    forall k | k in w.jobs :: k in w.images && Active(w.images[k].progress)
  }

  predicate SlotInv(w: World) {
    Drift(w) == 0 && JobsAreActive(w)
  }

  // ----- one reconcile

  lemma RemoveJob(jobs: map<Key, Job>, k: Key)
    requires k in jobs
    ensures |jobs - {k}| == |jobs| - 1
  {
    assert jobs.Keys == (jobs - {k}).Keys + {k};
    assert |jobs.Keys| == |(jobs - {k}).Keys| + 1;
  }

  lemma AddJob(jobs: map<Key, Job>, k: Key, j: Job)
    requires k !in jobs
    ensures |jobs[k := j]| == |jobs| + 1
  {
    assert jobs[k := j].Keys == jobs.Keys + {k};
    assert |jobs.Keys + {k}| == |jobs.Keys| + 1;
  }

  /** A move that ends without error keeps the counter exact; so does doing nothing. */
  lemma MoveKeepsSlots(w: World, o: Outcome, k: Key, view: View)
    requires SlotInv(w) && k in w.images && Moves(w, o, k, view) && !o.result.Error?
    requires ListsAllJobs(w, k, view)
    ensures SlotInv(o.w)
  {
    if Purges(w, o, k, view) {
      PurgeKeepsSlots(w, o, k, view);
      hide Purges, Moves;
    } else {
      MoveKeepsDrift(w, o, k, view);
      MoveKeepsActive(w, o, k, view);
      hide Purges, Moves;
    }
  }

  /** What such a move does to counter and jobs: nothing, or it takes or returns one slot with its
      job. */
  lemma MoveTakesOrReturns(w: World, o: Outcome, k: Key, view: View)
    requires k in w.images && Moves(w, o, k, view) && !o.result.Error? && !Purges(w, o, k, view)
    ensures o.w.history.lost == w.history.lost
    ensures
      || (o.w.jobs == w.jobs && o.w.activeJobs == w.activeJobs)
      || (k in w.jobs && o.w.jobs == w.jobs - {k} && o.w.activeJobs == w.activeJobs - 1)
      || (k !in w.jobs && o.w.jobs == w.jobs[k := NewJob(w.images[k])] && o.w.activeJobs == w.activeJobs + 1)
  {
    hide Purges, ImageExists, HasSlot;
  }

  lemma MoveKeepsDrift(w: World, o: Outcome, k: Key, view: View)
    requires k in w.images && Moves(w, o, k, view) && !o.result.Error? && !Purges(w, o, k, view)
    ensures Drift(o.w) == Drift(w)
  {
    MoveTakesOrReturns(w, o, k, view);
    hide Moves, Purges;
    if k in w.jobs {
      RemoveJob(w.jobs, k);
    } else {
      AddJob(w.jobs, k, NewJob(w.images[k]));
    }
  }

  lemma MoveKeepsActive(w: World, o: Outcome, k: Key, view: View)
    requires k in w.images && Moves(w, o, k, view) && !o.result.Error? && !Purges(w, o, k, view) && JobsAreActive(w)
    ensures JobsAreActive(o.w)
  {
    hide Purges, ImageExists, HasSlot;
  }

  lemma PurgeKeepsSlots(w: World, o: Outcome, k: Key, view: View)
    requires SlotInv(w) && k in w.images && Purges(w, o, k, view) && !o.result.Error?
    requires ListsAllJobs(w, k, view)
    ensures SlotInv(o.w)
  {
    var m :| BeforeTail(w, m, k) && Purged(Books(m), Books(o.w), k.ns) && o.w.activeJobs == m.activeJobs;
    assert Drift(m) == Drift(w) by {
      if k in w.jobs {
        RemoveJob(w.jobs, k);
      }
    }
    PurgedDrift(m, o.w, k.ns);
    PurgedListed(w, m, o, k, view);
    hide Purges, BeforeTail, Drift, Purged, ListsAllJobs;
  }

  lemma PurgedDrift(m: World, t: World, ns: string)
    requires Purged(Books(m), Books(t), ns) && t.activeJobs == m.activeJobs
    ensures Drift(t) == Drift(m)
  {
  }

  lemma PurgedListed(w: World, m: World, o: Outcome, k: Key, view: View)
    requires JobsAreActive(w) && k in w.images && Purges(w, o, k, view) && !o.result.Error? && ListsAllJobs(w, k, view)
    requires BeforeTail(w, m, k) && Purged(Books(m), Books(o.w), k.ns)
    ensures JobsAreActive(o.w)
  {
    assert k !in o.w.jobs;
    assert o.w.images == w.images[k := o.w.images[k]];
    hide Purges;
  }

  lemma ReconcileKeepsSlots(w: World, k: Key, view: View)
    requires SlotInv(w) && w.writes.Reliable? && ListsAllJobs(w, k, view)
    ensures SlotInv(Reconcile(w, k, view).w)
  {
    if k in w.images && ExportOf(k, w.images[k]) in w.exports {
      ReconcileMoves(w, k, view);
      ReconcileExports(w, k, view);
      MoveKeepsSlots(w, Reconcile(w, k, view), k, view);
      hide Reconcile, Moves, ListsAllJobs, Aggregate;
    }
  }

  // ----- one event

  lemma StepKeepsSlots(w: World, ev: Event, digest: string -> string)
    requires SlotInv(w) && ReliableEvent(w, ev)
    ensures SlotInv(Step(w, ev, digest))
  {
    match ev
    case ImageReconcile(k, view, writes) =>
      ReconcileKeepsSlots(w.(writes := writes), k, view);
      hide Reconcile;
    case ExportReconcile(e, found, writes) =>
      ReconcileExportFrame(w.(writes := writes), e, found, digest);
      hide ReconcileExport;
    case _ =>
      EnvironmentKeepsSlots(w, ev, digest);
      hide Step, SlotInv;
  }

  lemma EnvironmentKeepsSlots(w: World, ev: Event, digest: string -> string)
    requires SlotInv(w) && !ev.ImageReconcile? && !ev.ExportReconcile? && !ev.OperatorRestarts?
    ensures SlotInv(Step(w, ev, digest))
  {
    if ev.JobSucceeds? || ev.JobFails? {
      JobEventKeepsSlots(w, ev, digest);
    } else if ev.JobDeleted? || ev.ImageDeleted? {
      LosingKeepsSlots(w, ev, digest);
    } else {
      OthersKeepSlots(w, ev, digest);
    }
    hide Step, SlotInv;
  }

  lemma JobEventKeepsSlots(w: World, ev: Event, digest: string -> string)
    requires SlotInv(w) && (ev.JobSucceeds? || ev.JobFails?)
    ensures SlotInv(Step(w, ev, digest))
  {
    SameSize(Step(w, ev, digest).jobs, w.jobs);
  }

  lemma LosingKeepsDrift(w: World, k: Key)
    ensures var t := LoseJob(w, k);
      && Drift(t) == Drift(w) && t.images == w.images && k !in t.jobs
      && (forall j | j in t.jobs :: j in w.jobs)
  {
    if k in w.jobs {
      RemoveJob(w.jobs, k);
    }
  }

  lemma LosingKeepsInv(w: World, k: Key)
    requires SlotInv(w)
    ensures var t := LoseJob(w, k); SlotInv(t) && t.images == w.images && k !in t.jobs
  {
    LosingKeepsDrift(w, k);
    hide LoseJob, Drift;
  }

  lemma LosingKeepsSlots(w: World, ev: Event, digest: string -> string)
    requires SlotInv(w) && (ev.JobDeleted? || ev.ImageDeleted?)
    ensures SlotInv(Step(w, ev, digest))
  {
    LosingKeepsInv(w, ev.k);
    if ev.ImageDeleted? {
      DeletingKeepsSlots(w, ev.k, digest);
      hide *;
    } else {
      hide LoseJob, SlotInv;
      assert Step(w, ev, digest) == LoseJob(w, ev.k);
    }
  }

  lemma DeletingKeepsSlots(w: World, k: Key, digest: string -> string)
    requires SlotInv(w)
    ensures SlotInv(Step(w, ImageDeleted(k), digest))
  {
    hide LoseJob, SlotInv;
    LosingKeepsInv(w, k);
    if k in w.images {
      DeletingKeepsRest(w, k, digest);
      hide Step;
      SlotsWithoutImage(LoseJob(w, k), Step(w, ImageDeleted(k), digest), k);
    } else {
      assert Step(w, ImageDeleted(k), digest) == w;
      hide Step;
    }
  }

  /** An image without a job can go. */
  lemma SlotsWithoutImage(l: World, t: World, k: Key)
    requires SlotInv(l) && k !in l.jobs
    requires t.jobs == l.jobs && t.activeJobs == l.activeJobs && t.history.lost == l.history.lost
    requires t.images == l.images - {k}
    ensures SlotInv(t)
  {
  }

  /** Deleting an image loses its job first. */
  lemma DeletingKeepsRest(w: World, k: Key, digest: string -> string)
    requires k in w.images
    ensures var l, t := LoseJob(w, k), Step(w, ImageDeleted(k), digest);
      && t.jobs == l.jobs && t.activeJobs == l.activeJobs && t.history.lost == l.history.lost
      && t.images == w.images - {k}
  {
    hide LoseJob;
  }

  lemma OthersKeepSlots(w: World, ev: Event, digest: string -> string)
    requires SlotInv(w) && IsQuiet(ev) && !ev.OperatorRestarts?
    ensures SlotInv(Step(w, ev, digest))
  {
    QuietEvents(w, ev, digest);
    hide Step;
  }

  lemma SameSize(a: map<Key, Job>, b: map<Key, Job>)
    requires a.Keys == b.Keys
    ensures |a| == |b|
  {
    assert |a.Keys| == |b.Keys|;
  }

  // ----- the limit

  predicate ExportsWithin(w: World, bound: int) {
    forall e | e in w.exports :: w.exports[e].spec.maxConcurrentJobs <= bound
  }

  predicate EventWithin(ev: Event, bound: int) {
    ev.ExportApplied? || ev.ExportEdited? ==> ev.spec.maxConcurrentJobs <= bound
  }

  lemma StepKeepsExportsWithin(w: World, ev: Event, digest: string -> string, bound: int)
    requires ExportsWithin(w, bound) && EventWithin(ev, bound)
    ensures ExportsWithin(Step(w, ev, digest), bound)
  {
    match ev
    case ImageReconcile(k, view, writes) =>
      var w1 := w.(writes := writes);
      if k in w.images && ExportOf(k, w.images[k]) in w.exports {
        ReconcileExports(w1, k, view);
        hide Reconcile, Aggregate;
      }
    case ExportReconcile(e, found, writes) =>
      var w1 := w.(writes := writes);
      ReconcileExportFrame(w1, e, found, digest);
      hide ReconcileExport;
      var t := Step(w, ev, digest);
      forall f | f in t.exports
        ensures t.exports[f].spec.maxConcurrentJobs <= bound
      {
        if f != e {
          assert f in t.exports - {e} && (t.exports - {e})[f] == t.exports[f];
          assert f in w.exports && w.exports[f] == t.exports[f];
        }
      }
    case ExportApplied(e, spec) => hide IsImageOf;
    case _ =>
  }

  lemma MoveKeepsLimit(w: World, o: Outcome, k: Key, view: View, bound: int)
    requires k in w.images && Moves(w, o, k, view) && ExportsWithin(w, bound) && w.activeJobs <= bound
    ensures o.w.activeJobs <= bound
  {
    hide ImageExists, Purged;
  }

  lemma StepKeepsLimit(w: World, ev: Event, digest: string -> string, bound: nat)
    requires ExportsWithin(w, bound) && w.activeJobs <= bound
    ensures Step(w, ev, digest).activeJobs <= bound
  {
    match ev
    case ImageReconcile(k, view, writes) =>
      var w1 := w.(writes := writes);
      if k in w.images {
        ReconcileMoves(w1, k, view);
        MoveKeepsLimit(w1, Reconcile(w1, k, view), k, view, bound);
        hide Reconcile, Moves;
      }
    case ExportReconcile(e, found, writes) =>
      ReconcileExportFrame(w.(writes := writes), e, found, digest);
      hide ReconcileExport;
    case ExportApplied(e, spec) => hide IsImageOf;
    case _ =>
  }

  /** In every reliable run the counter is the number of export jobs plus the jobs ever lost, so
      with every limit at most `bound` the jobs that exist and the jobs ever lost are together at
      most `bound`.  Every job's image is RUNNING or RETRYING, so creating a job for a PENDING image
      never collides. */
  lemma {:induction false} SlotAccounting(w: World, events: seq<Event>, digest: string -> string, bound: nat)
    requires SlotInv(w) && ReliableRun(w, events, digest)
    requires ExportsWithin(w, bound) && w.activeJobs <= bound && forall ev | ev in events :: EventWithin(ev, bound)
    ensures var t := Run(w, events, digest);
      && t.activeJobs == |t.jobs| + t.history.lost
      && |t.jobs| + t.history.lost <= bound
      && JobsAreActive(t)
      && (forall k | k in t.images && t.images[k].progress.Pending? :: k !in t.jobs)
    decreases |events|
  {
    if events != [] {
      var ev := events[0];
      assert ev in events;
      StepKeepsSlots(w, ev, digest);
      StepKeepsExportsWithin(w, ev, digest, bound);
      StepKeepsLimit(w, ev, digest, bound);
      hide Step, SlotInv, ReliableEvent, ExportsWithin;
      SlotAccounting(Step(w, ev, digest), events[1..], digest, bound);
    }
  }

  lemma EmptyWorldSlots()
    ensures SlotInv(EMPTY_WORLD)
  {
  }
}

/** What a failing API call does to the counter. */
module SlotDrift {
  import opened Cluster
  import opened Controllers
  import opened ImageMoves
  import opened ImageResults
  import opened ExportMoves
  import opened Runs
  import opened Slots

  /** The drift a reconcile adds when its first `n` writes succeed and the next one fails. */
  ghost function DriftOf(w: World, k: Key, n: nat): int {
    if k !in w.images || ExportOf(k, w.images[k]) !in w.exports then 0
    else
      var img := w.images[k];
      if img.progress.Pending? && HasSlot(w, k) && !ImageExists(w, k) && k !in w.jobs then
        // the job is there, the slot is taken only after both status writes
        if 1 <= n <= 2 then -1 else 0
      else if Active(img.progress) && JobFailed(w, k) && img.retries < MAX_RETRIES then
        // the job is gone, the slot is returned only after its pods are
        if n == 2 then 1 else 0
      else if Active(img.progress) && k in w.jobs && !Live(w, k) then
        // the slot is returned before the job is deleted
        if n <= 1 then -1 else 0
      else 0
  }

  lemma TailKeepsDrift(m: World, k: Key, view: View)
    requires k in m.images
    ensures Drift(Finish(m, k, view).w) == Drift(m)
  {
    FinishTail(m, k, view);
    hide Finish;
  }

  lemma PendingDrift(w: World, k: Key, n: nat)
    requires k in w.images && w.images[k].progress.Pending? && HasSlot(w, k) && w.writes == FailsAfter(n)
    ensures Drift(HandlePending(w, k).w) == Drift(w) + DriftOf(w, k, n)
  {
    if k !in w.jobs {
      AddJob(w.jobs, k, NewJob(w.images[k]));
    }
    hide ImageExists;
  }

  lemma RetryDrift(w: World, k: Key, view: View, n: nat)
    requires k in w.images && Active(w.images[k].progress) && JobFailed(w, k) && w.images[k].retries < MAX_RETRIES
    requires w.writes == FailsAfter(n)
    ensures Drift(HandleRunning(w, k, view).w) == Drift(w) + (if n == 2 then 1 else 0)
  {
    RemoveJob(w.jobs, k);
  }

  lemma SettledDrift(w: World, k: Key, view: View, n: nat, progress: Progress)
    requires k in w.images && k in w.jobs && w.writes == FailsAfter(n)
    ensures var o1 := UpdateImage(w.(activeJobs := w.activeJobs - 1), k, progress, w.images[k].retries);
      var o2 := CleanupJobAndPods(o1.w, k);
      var d := Drift(w) + (if n <= 1 then -1 else 0);
      && (o1.result.Error? ==> Drift(o1.w) == d)
      && (!o1.result.Error? && o2.result.Error? ==> Drift(o2.w) == d)
      && (!o1.result.Error? && !o2.result.Error? ==> k in o2.w.images && Drift(Finish(o2.w, k, view).w) == d)
  {
    RemoveJob(w.jobs, k);
    var o1 := UpdateImage(w.(activeJobs := w.activeJobs - 1), k, progress, w.images[k].retries);
    if !o1.result.Error? {
      var o2 := CleanupJobAndPods(o1.w, k);
      if !o2.result.Error? {
        TailKeepsDrift(o2.w, k, view);
        hide Finish;
      }
    }
  }

  lemma RunningDrift(w: World, k: Key, view: View, n: nat)
    requires k in w.images && Active(w.images[k].progress) && ExportOf(k, w.images[k]) in w.exports
    requires w.writes == FailsAfter(n)
    ensures Drift(HandleRunning(w, k, view).w) == Drift(w) + DriftOf(w, k, n)
  {
    if k !in w.jobs {
    } else if Live(w, k) {
      TailKeepsDrift(w, k, view);
      hide Finish;
    } else if JobFailed(w, k) && w.images[k].retries < MAX_RETRIES {
      RetryDrift(w, k, view, n);
      hide HandleRunning;
    } else {
      SettledDrift(w, k, view, n, if Succeeded(w, k) then Completed else Failed);
      hide Finish, UpdateImage, CleanupJobAndPods, Drift;
    }
  }

  /** Exactly how far a reconcile that fails after `n` writes moves the counter off: the accounting
      survives a failure if and only if it does not hit between a job and its slot. */
  lemma FailureDrift(w: World, k: Key, view: View, n: nat)
    ensures var w' := Reconcile(w.(writes := FailsAfter(n)), k, view).w;
      Drift(w') == Drift(w) + DriftOf(w, k, n)
  {
    if k in w.images && ExportOf(k, w.images[k]) in w.exports {
      var e := ExportOf(k, w.images[k]);
      var v := w.(writes := FailsAfter(n), maxParallelJobs := w.exports[e].spec.maxConcurrentJobs);
      assert ImageExists(v, k) == ImageExists(w, k) by {
        assert forall j | j in w.images :: Stands(v, j, k) == Stands(w, j, k);
      }
      hide ImageExists;
      assert DriftOf(v, k, n) == DriftOf(w, k, n);
      assert Drift(v) == Drift(w);
      match w.images[k].progress
      case Pending =>
        if HasSlot(w, k) {
          PendingDrift(v, k, n);
          hide HandlePending, HandleRunning, DriftOf;
        }
      case Running =>
        RunningDrift(v, k, view, n);
        hide HandlePending, HandleRunning, DriftOf;
      case Retrying =>
        RunningDrift(v, k, view, n);
        hide HandlePending, HandleRunning, DriftOf;
      case _ =>
    }
  }

  ghost function Again(k: Key, view: View, times: nat): seq<Event> {
    if times == 0 then [] else [ImageReconcile(k, view, FailsAfter(0))] + Again(k, view, times - 1)
  }

  /** While the status of an image with an ended job cannot be written, every attempt gives the
      slot back once more: the counter falls without bound, and the limit with it. */
  lemma {:induction false} SlotsWithoutBound(w: World, k: Key, view: View, times: nat, digest: string -> string)
    requires k in w.images && ExportOf(k, w.images[k]) in w.exports
    requires Active(w.images[k].progress) && Succeeded(w, k)
    ensures var t := Run(w, Again(k, view, times), digest);
      t.activeJobs == w.activeJobs - times && t.images == w.images && t.jobs == w.jobs
    decreases times
  {
    if times > 0 {
      var t := Step(w, ImageReconcile(k, view, FailsAfter(0)), digest);
      assert t.activeJobs == w.activeJobs - 1 && t.images == w.images && t.jobs == w.jobs && t.exports == w.exports;
      assert Again(k, view, times)[1..] == Again(k, view, times - 1);
      hide Step;
      SlotsWithoutBound(t, k, view, times - 1, digest);
    }
  }

  // ----- over whole runs

  /** What an event adds to the drift: a failing reconcile as above, a restart of the operator the
      whole counter. */
  ghost function EventDrift(w: World, ev: Event): int {
    match ev
    case ImageReconcile(k, view, writes) => if writes.Reliable? then 0 else DriftOf(w, k, writes.left)
    case OperatorRestarts => -w.activeJobs
    case _ => 0
  }

  ghost function TotalDrift(w: World, events: seq<Event>, digest: string -> string): int
    decreases |events|
  {
    if events == [] then 0
    else EventDrift(w, events[0]) + TotalDrift(Step(w, events[0], digest), events[1..], digest)
  }

  lemma ReliableKeepsDrift(w: World, k: Key, view: View)
    requires w.writes.Reliable?
    ensures Drift(Reconcile(w, k, view).w) == Drift(w)
  {
    if k in w.images && ExportOf(k, w.images[k]) in w.exports {
      var o := Reconcile(w, k, view);
      ReconcileMoves(w, k, view);
      ReconcileExports(w, k, view);
      hide Aggregate, Informs;
      if o.result.Error? {
        TakenNameIsIdle(w, k, view);
      } else if Purges(w, o, k, view) {
        PurgeKeepsDrift(w, o, k, view);
      } else {
        MoveKeepsDrift(w, o, k, view);
      }
      hide Reconcile, Moves, Purges;
    }
  }

  lemma PurgeKeepsDrift(w: World, o: Outcome, k: Key, view: View)
    requires k in w.images && Purges(w, o, k, view)
    ensures Drift(o.w) == Drift(w)
  {
    var m :| BeforeTail(w, m, k) && Purged(Books(m), Books(o.w), k.ns) && o.w.activeJobs == m.activeJobs;
    if k in w.jobs {
      RemoveJob(w.jobs, k);
    }
    PurgedDrift(m, o.w, k.ns);
    hide Purges, Purged;
  }

  lemma TakenNameIsIdle(w: World, k: Key, view: View)
    requires k in w.images && w.images[k].progress.Pending? && k in w.jobs && w.writes.Reliable?
    requires Reconcile(w, k, view).result.Error?
    ensures Drift(Reconcile(w, k, view).w) == Drift(w)
  {
    hide ImageExists, HandleRunning;
  }

  lemma StepDrift(w: World, ev: Event, digest: string -> string)
    ensures Drift(Step(w, ev, digest)) == Drift(w) + EventDrift(w, ev)
  {
    match ev
    case ImageReconcile(k, view, writes) =>
      if writes.Reliable? {
        ReliableKeepsDrift(w.(writes := writes), k, view);
      } else {
        FailureDrift(w, k, view, writes.left);
      }
      hide Reconcile, DriftOf;
    case ExportReconcile(e, found, writes) =>
      ReconcileExportFrame(w.(writes := writes), e, found, digest);
      hide ReconcileExport;
    case _ =>
      EnvironmentDrift(w, ev, digest);
      hide Step, Drift;
  }

  lemma EnvironmentDrift(w: World, ev: Event, digest: string -> string)
    requires !ev.ImageReconcile? && !ev.ExportReconcile?
    ensures Drift(Step(w, ev, digest)) == Drift(w) + (if ev.OperatorRestarts? then -w.activeJobs else 0)
  {
    if IsQuiet(ev) {
      QuietEvents(w, ev, digest);
      hide Step;
    } else if ev.JobSucceeds? || ev.JobFails? {
      SameSize(Step(w, ev, digest).jobs, w.jobs);
    } else {
      LosingKeepsDrift(w, ev.k);
      hide LoseJob;
    }
  }

  /** In every run, failing calls and operator restarts included, the counter is the jobs that exist
      plus the jobs ever lost plus the drifts of the run; and with every limit at most `bound` that
      sum is at most `bound`, so the jobs can exceed the limit by exactly as much as the drifts are
      negative. */
  lemma {:induction false} DriftsAddUp(w: World, events: seq<Event>, digest: string -> string, bound: nat)
    requires ExportsWithin(w, bound) && w.activeJobs <= bound && forall ev | ev in events :: EventWithin(ev, bound)
    ensures var t := Run(w, events, digest);
      && t.activeJobs == |t.jobs| + t.history.lost + Drift(w) + TotalDrift(w, events, digest)
      && |t.jobs| + t.history.lost + Drift(w) + TotalDrift(w, events, digest) <= bound
    decreases |events|
  {
    if events != [] {
      var ev := events[0];
      assert ev in events;
      StepDrift(w, ev, digest);
      StepKeepsExportsWithin(w, ev, digest, bound);
      StepKeepsLimit(w, ev, digest, bound);
      hide Step, EventDrift, ExportsWithin;
      DriftsAddUp(Step(w, ev, digest), events[1..], digest, bound);
    }
  }

  lemma {:induction false} ReliableDriftsNothing(w: World, events: seq<Event>, digest: string -> string)
    requires ReliableRun(w, events, digest)
    ensures TotalDrift(w, events, digest) == 0
    decreases |events|
  {
    if events != [] {
      assert EventDrift(w, events[0]) == 0;
      hide Step, EventDrift, ListsAllJobs;
      ReliableDriftsNothing(Step(w, events[0], digest), events[1..], digest);
    }
  }

  /** A restart of the operator forgets the slots that are taken: in every reliable run after it the
      jobs can exceed the limit by the jobs that were there, and by those lost, and by no more. */
  lemma RestartCosts(w: World, events: seq<Event>, digest: string -> string, bound: nat)
    requires Drift(w) == 0 && ExportsWithin(w, bound) && w.activeJobs <= bound
    requires ReliableRun(Step(w, OperatorRestarts, digest), events, digest)
    requires forall ev | ev in events :: EventWithin(ev, bound)
    ensures var t := Run(Step(w, OperatorRestarts, digest), events, digest);
      |t.jobs| + t.history.lost <= bound + (|w.jobs| + w.history.lost) <= 2 * bound
  {
    var u := Step(w, OperatorRestarts, digest);
    assert Drift(u) == -(|w.jobs| + w.history.lost) && ExportsWithin(u, bound) && u.activeJobs == 0;
    hide Step, ReliableRun, Run;
    ReliableDriftsNothing(u, events, digest);
    DriftsAddUp(u, events, digest, bound);
  }
}
