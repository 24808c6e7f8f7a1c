/** Retry counters, over every run: API calls may fail, the operator may restart, jobs and images
    may be deleted from outside. */
module Retries {
  import opened Cluster
  import opened Controllers
  import opened ImageMoves
  import opened ExportMoves
  import opened Runs

  predicate StatusOk(img: Image) {
    && !img.progress.Starting?
    && (if img.progress.Failed? then img.retries >= MAX_RETRIES else img.retries <= MAX_RETRIES)
  }

  predicate AllStatusOk(w: World) {
    forall k | k in w.images :: StatusOk(w.images[k])
  }

  /** Retries that count against the limit. */
  function Counted(img: Image): nat {
    if img.retries > MAX_RETRIES then MAX_RETRIES else img.retries
  }

  /** Every job created for the image is accounted for: by a retry, by a loss, or by being the
      image's last one. */
  predicate Accounted(w: World, k: Key)
    requires k in w.images
  {
    var img := w.images[k];
    CountOf(w.history.created, k) <= Counted(img) + CountOf(w.history.lostOf, k)
      + (if k in w.jobs || img.progress.Completed? || img.progress.Failed? then 1 else 0)
  }

  predicate AllAccounted(w: World) {
    forall k | k in w.images :: Accounted(w, k)
  }

  predicate RetryInv(w: World) {
    AllStatusOk(w) && AllAccounted(w)
  }

  /** A move keeps the moving image's own account, and never takes a retry back. */
  lemma MoveKeepsOwn(w: World, o: Outcome, k: Key, view: View)
    requires k in w.images && StatusOk(w.images[k]) && Accounted(w, k) && Moves(w, o, k, view)
    ensures k in o.w.images && StatusOk(o.w.images[k]) && Accounted(o.w, k)
        && o.w.images[k].retries >= w.images[k].retries
  {
    hide ImageExists, HasSlot;
    if Purges(w, o, k, view) {
      PurgeKeepsOwn(w, o, k, view);
    } else {
      hide Purges;
    }
  }

  lemma PurgeKeepsOwn(w: World, o: Outcome, k: Key, view: View)
    requires k in w.images && StatusOk(w.images[k]) && Accounted(w, k) && Purges(w, o, k, view)
    ensures k in o.w.images && StatusOk(o.w.images[k]) && Accounted(o.w, k)
        && o.w.images[k].retries >= w.images[k].retries
  {
    var m :| BeforeTail(w, m, k) && Purged(Books(m), Books(o.w), k.ns) && o.w.activeJobs == m.activeJobs;
    assert CountOf(o.w.history.lostOf, k) >= CountOf(w.history.lostOf, k);
  }

  /** A move keeps everybody else's: their images stay, and a purged job is a lost one. */
  lemma MoveKeepsOthers(w: World, o: Outcome, k: Key, view: View, j: Key)
    requires k in w.images && Moves(w, o, k, view) && j != k && j in w.images && Accounted(w, j)
    ensures j in o.w.images && o.w.images[j] == w.images[j] && Accounted(o.w, j)
  {
    if Purges(w, o, k, view) {
      PurgeKeepsOthers(w, o, k, view, j);
    } else {
      hide Purges, ImageExists, HasSlot;
    }
  }

  lemma PurgeKeepsOthers(w: World, o: Outcome, k: Key, view: View, j: Key)
    requires k in w.images && Purges(w, o, k, view) && j != k && j in w.images && Accounted(w, j)
    ensures j in o.w.images && o.w.images[j] == w.images[j] && Accounted(o.w, j)
  {
    var m :| BeforeTail(w, m, k) && Purged(Books(m), Books(o.w), k.ns) && o.w.activeJobs == m.activeJobs;
    assert o.w.images[j] == w.images[j];
    hide Purges;
    PurgedCounts(Books(m), Books(o.w), k.ns, j);
    hide Purged;
    BeforeTailCounts(w, m, k, j);
    hide BeforeTail;
  }

  lemma PurgedCounts(l: Ledger, l': Ledger, ns: string, j: Key)
    requires Purged(l, l', ns)
    ensures l'.history.created == l.history.created && (j in l'.jobs ==> j in l.jobs)
    ensures CountOf(l'.history.lostOf, j)
        == CountOf(l.history.lostOf, j) + if j in l.jobs && j !in l'.jobs then 1 else 0
  {
    hide NamesGone;
  }

  lemma BeforeTailCounts(w: World, m: World, k: Key, j: Key)
    requires k in w.images && BeforeTail(w, m, k) && j != k
    ensures m.history == w.history && (j in m.jobs <==> j in w.jobs)
  {
  }

  lemma ReconcileKeepsRetries(w: World, k: Key, view: View)
    requires RetryInv(w)
    ensures RetryInv(Reconcile(w, k, view).w)
  {
    if k in w.images {
      var o := Reconcile(w, k, view);
      ReconcileMoves(w, k, view);
      MoveKeepsImages(w, o, k, view);
      MoveKeepsOwn(w, o, k, view);
      forall j | j in w.images && j != k
        ensures StatusOk(o.w.images[j]) && Accounted(o.w, j)
      {
        MoveKeepsOthers(w, o, k, view, j);
      }
      hide Reconcile, Moves;
    }
  }

  lemma StepKeepsRetries(w: World, ev: Event, digest: string -> string)
    requires RetryInv(w)
    ensures RetryInv(Step(w, ev, digest))
  {
    match ev
    case ImageReconcile(k, view, writes) =>
      ReconcileKeepsRetries(w.(writes := writes), k, view);
      hide Reconcile, RetryInv;
    case ExportReconcile(e, found, writes) =>
      ReconcileExportFrame(w.(writes := writes), e, found, digest);
      hide ReconcileExport;
    case _ =>
      EnvironmentKeepsRetries(w, ev, digest);
      hide Step, RetryInv;
  }

  lemma EnvironmentKeepsRetries(w: World, ev: Event, digest: string -> string)
    requires RetryInv(w) && !ev.ImageReconcile? && !ev.ExportReconcile?
    ensures RetryInv(Step(w, ev, digest))
  {
    if IsQuiet(ev) {
      QuietEvents(w, ev, digest);
      hide Step;
    } else if ev.JobDeleted? || ev.ImageDeleted? {
      LosingKeepsRetries(w, ev.k);
      hide LoseJob;
    }
  }

  /** A lost job is accounted for by the loss. */
  lemma LosingKeepsRetries(w: World, k: Key)
    requires RetryInv(w)
    ensures RetryInv(LoseJob(w, k)) && LoseJob(w, k).images == w.images
  {
  }

  /** In every run a FAILED image has used up its retries, every other image has retries left to
      use or exactly three used, and at most four jobs, plus one for each of its jobs that was
      lost, are ever created for an image. */
  lemma {:induction false} RetryBounds(events: seq<Event>, w: World, digest: string -> string)
    requires RetryInv(w)
    ensures RetryInv(Run(w, events, digest))
    ensures var t := Run(w, events, digest);
      forall k | k in t.images ::
        && (t.images[k].progress.Failed? ==> t.images[k].retries >= 3)
        && (!t.images[k].progress.Failed? ==> t.images[k].retries <= 3)
        && CountOf(t.history.created, k) <= 4 + CountOf(t.history.lostOf, k)
    decreases |events|
  {
    if events == [] {
      forall k | k in w.images
        ensures StatusOk(w.images[k]) && Accounted(w, k)
      {
      }
    } else {
      StepKeepsRetries(w, events[0], digest);
      RetryBounds(events[1..], Step(w, events[0], digest), digest);
    }
  }

  lemma EmptyWorldRetries()
    ensures RetryInv(EMPTY_WORLD)
  {
  }

  /** Unless the image itself is deleted, no event takes a retry back. */
  lemma RetriesNeverDrop(w: World, ev: Event, digest: string -> string, k: Key)
    requires RetryInv(w) && k in w.images && ev != ImageDeleted(k)
    ensures var t := Step(w, ev, digest); k in t.images && t.images[k].retries >= w.images[k].retries
  {
    match ev
    case ImageReconcile(j, view, writes) =>
      var w1 := w.(writes := writes);
      if j in w.images {
        ReconcileMoves(w1, j, view);
        MoveKeepsImages(w1, Reconcile(w1, j, view), j, view);
        if j == k {
          MoveKeepsOwn(w1, Reconcile(w1, j, view), j, view);
        }
      }
      hide Reconcile, Moves;
    case ExportReconcile(e, found, writes) =>
      ReconcileExportFrame(w.(writes := writes), e, found, digest);
      hide ReconcileExport;
    case _ =>
      if IsQuiet(ev) {
        QuietEvents(w, ev, digest);
        hide Step;
      }
  }
}
