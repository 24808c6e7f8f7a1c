/** When an export that is being deleted goes, and what becomes of its cleanup job. */
module ExportDeletion {
  import opened Cluster
  import opened Controllers
  import opened ImageMoves
  import opened ImageResults
  import opened ExportMoves
  import opened ExportFinalizer
  import opened PurgeReach
  import opened Runs

  function CleanupKey(e: Key): Key {
    Key(e.ns, CleanupJobName(e.name))
  }

  // ----- cleanup jobs

  /** The event ends the cleanup job: because it is done, or by a purge of its namespace, which takes
      cleanup jobs along with export jobs. */
  predicate TakesCleanup(w: World, ev: Event, q: Key) {
    match ev
    case CleanupJobEnds(job) => job == q
    case ImageReconcile(k, view, writes) =>
      var v := w.(writes := writes);
      PurgesNow(v, k, view) && Reached(view.jobs, k.ns, Left(writes, CallsBefore(v, k)), CleanupJob(q))
    case _ => false
  }

  lemma ExportKeepsCleanups(w: World, e: Key, found: Discovery, digest: string -> string)
    ensures w.cleanupJobs <= ReconcileExport(w, e, found, digest).w.cleanupJobs
  {
    if e in w.exports && !w.exports[e].deleting {
      var v := ReconcileExportShape(w, e, found, digest);
      hide ReconcileExport, CreateImages;
      if !StopsEarly(w, ReconcileExport(w, e, found, digest), e) {
        CreatingCleansNothing(v, e, w.exports[e].(finalizer := true, progress := Running), v.history.asked[e], digest);
      }
    }
    hide CleanupJobName, CreateImages;
  }

  /** A cleanup job is gone after an event if and only if the event is its end or a purge that reaches
      it. */
  lemma CleanupJobGoesIff(w: World, ev: Event, digest: string -> string, q: Key)
    requires q in w.cleanupJobs
    ensures q !in Step(w, ev, digest).cleanupJobs <==> TakesCleanup(w, ev, q)
  {
    match ev
    case ImageReconcile(k, view, writes) =>
      ReconcileTakesIff(w.(writes := writes), k, view, CleanupJob(q));
      hide Reconcile, PurgesNow, Reached;
    case ExportReconcile(e, found, writes) =>
      ExportKeepsCleanups(w.(writes := writes), e, found, digest);
      hide ReconcileExport;
    case ExportApplied(e, spec) => hide IsImageOf;
    case _ =>
  }

  // ----- the export

  /** The event lets the export go: a reconcile of it while it is being deleted and no cleanup job has
      its name, with both its calls succeeding. */
  predicate LetsGo(w: World, ev: Event, e: Key)
    requires e in w.exports
  {
    && ev.ExportReconcile? && ev.e == e && w.exports[e].deleting
    && CleanupKey(e) !in w.cleanupJobs && CanAfford(ev.writes, 2)
  }

  lemma DeletionGoesIff(w: World, e: Key)
    requires e in w.exports && w.exports[e].finalizer
    ensures var o := HandleDeletion(w, e);
      && (e !in o.w.exports <==> CleanupKey(e) !in w.cleanupJobs && CanAfford(w.writes, 2))
      && (e in o.w.exports ==> o.result.Error? && o.w.exports == w.exports)
  {
    hide CleanupJobName;
  }

  lemma KeptUnlessDeleted(w: World, e: Key, found: Discovery, digest: string -> string)
    requires e in w.exports && !w.exports[e].deleting && w.exports[e].finalizer
    ensures var t := ReconcileExport(w, e, found, digest).w; e in t.exports && t.exports[e].finalizer
  {
    var v := ReconcileExportShape(w, e, found, digest);
    hide ReconcileExport, CreateImages;
    if !StopsEarly(w, ReconcileExport(w, e, found, digest), e) {
      CreatingKeepsFinalizer(v, e, w.exports[e].(finalizer := true, progress := Running), v.history.asked[e], digest);
    }
  }

  /** An export with the finalizer is gone after an event if and only if the event lets it go;
      otherwise it keeps the finalizer. */
  lemma ExportGoesIff(w: World, ev: Event, digest: string -> string, e: Key)
    requires e in w.exports && w.exports[e].finalizer
    ensures var t := Step(w, ev, digest);
      (e !in t.exports <==> LetsGo(w, ev, e)) && (e in t.exports ==> t.exports[e].finalizer)
  {
    match ev
    case ImageReconcile(k, view, writes) =>
      if k in w.images && ExportOf(k, w.images[k]) in w.exports {
        ReconcileExports(w.(writes := writes), k, view);
      }
      hide Reconcile, Aggregate;
    case ExportReconcile(f, found, writes) =>
      var v := w.(writes := writes);
      if f != e {
        ReconcileExportFrame(v, f, found, digest);
        hide ReconcileExport;
        assert e in v.exports - {f};
        assert e in Step(w, ev, digest).exports - {f};
        assert (Step(w, ev, digest).exports - {f})[e] == (v.exports - {f})[e];
      } else if w.exports[e].deleting {
        DeletionGoesIff(v, e);
        hide HandleDeletion;
      } else {
        KeptUnlessDeleted(v, e, found, digest);
        hide ReconcileExport;
      }
    case ExportApplied(f, spec) => hide IsImageOf;
    case _ =>
  }

  // ----- blocked

  ghost predicate SparesCleanup(w: World, events: seq<Event>, digest: string -> string, q: Key)
    decreases |events|
  {
    events == []
    || (!TakesCleanup(w, events[0], q) && SparesCleanup(Step(w, events[0], digest), events[1..], digest, q))
  }

  /** As long as a cleanup job of its name is there, an export cannot go, however often its deletion is
      tried: not even when the job is its own, from an attempt whose second call failed. */
  lemma {:induction false} BlockedByCleanup(w: World, events: seq<Event>, digest: string -> string, e: Key)
    requires e in w.exports && w.exports[e].finalizer && CleanupKey(e) in w.cleanupJobs
    requires SparesCleanup(w, events, digest, CleanupKey(e))
    ensures var t := Run(w, events, digest);
      e in t.exports && t.exports[e].finalizer && CleanupKey(e) in t.cleanupJobs
    decreases |events|
  {
    if events != [] {
      ExportGoesIff(w, events[0], digest, e);
      CleanupJobGoesIff(w, events[0], digest, CleanupKey(e));
      hide Step, TakesCleanup, CleanupKey;
      BlockedByCleanup(Step(w, events[0], digest), events[1..], digest, e);
    }
  }
}
