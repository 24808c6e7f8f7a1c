/** What becomes of a failure that was not reported: the export's next look at it tells, unless the
    export has been called COMPLETED in the meantime. */
module FailureRepairs {
  import opened ContainerNames
  import opened Cluster
  import opened Controllers
  import opened ImageMoves
  import opened ImageResults
  import opened ExportMoves
  import opened ExportTracking
  import opened ExportCompletion
  import opened ExportOutcomes
  import opened FailureReports
  import opened PurgeReach
  import opened Runs

  predicate Requests(w: World, e: Key, found: Discovery, k: Key, digest: string -> string)
    requires e in w.exports
  {
    exists c :: c in Requested(w.exports[e], found) && ImageKey(digest, e, c) == k
  }

  /** A reliable reconcile of an export that requests a FAILED image of it makes the export FAILED if and
      only if it was not COMPLETED. */
  lemma NextLookTellsIff(w: World, e: Key, found: Discovery, k: Key, digest: string -> string)
    requires w.writes.Reliable? && e in w.exports && !w.exports[e].deleting && found.Found?
    requires IsImageOf(w, k, e) && w.images[k].progress.Failed? && Requests(w, e, found, k, digest)
    ensures var t := ReconcileExport(w, e, found, digest).w;
      && e in t.exports && (t.exports[e].progress.Failed? <==> !w.exports[e].progress.Completed?)
      && AnyFailed(t, e)
  {
    var t := ReconcileExport(w, e, found, digest).w;
    ReconcileExportFrame(w, e, found, digest);
    EarlyOutcomes(w, e, found, digest);
    if w.exports[e].progress !in {Completed, Progress.Failed} {
      FailsIff(w, e, found, digest);
      var c :| c in Requested(w.exports[e], found) && ImageKey(digest, e, c) == k;
      assert HasFailedAt(w, e, c, digest);
      hide FirstFailed;
    }
    hide ReconcileExport, CreateImages, Requested;
    assert IsImageOf(t, k, e);
  }

  /** An unreported failure leaves the export as it was and its image FAILED. */
  lemma UnreportedLeaves(w: World, k: Key, view: View, e: Key)
    requires Fails(w, k, view) && IsImageOf(w, k, e) && e in w.exports
    requires !w.exports[e].progress.Failed? && !AnyFailed(w, e)
    requires CanAfford(w.writes, CallsToFail(w, k)) && !CanAfford(w.writes, CallsToReport(w, k, view))
    ensures var t := Reconcile(w, k, view).w;
      && t.exports == w.exports && IsImageOf(t, k, e) && t.images[k].progress.Failed?
      && t.history.deletedFrom == w.history.deletedFrom
      && t.images == w.images[k := t.images[k]] && SameExport(w, t, k)
  {
    var o := Reconcile(w, k, view);
    FailingReconcile(w, k, view, e);
    ReconcileMoves(w, k, view);
    ReconcileExports(w, k, view);
    MoveKeepsImages(w, o, k, view);
    MoveKeepsDeletedFrom(w, o, k, view);
    AggregateFails(o.w, e);
    hide Reconcile, Moves, Aggregate, CallsToFail, CallsToReport, Fails;
    var j :| IsImageOf(o.w, j, e) && o.w.images[j].progress.Failed?;
    assert IsImageOf(w, j, e) && !w.images[j].progress.Failed?;
  }

  /** After an unreported failure the export's next reliable reconcile that requests the image restores the
      tracking if and only if the export was not COMPLETED when the image failed. */
  lemma NextLookRestoresIff(
      w: World, k: Key, view: View, writes: Writes, e: Key, found: Discovery, digest: string -> string)
    requires Tracks(w, e) && GoesUnreported(w, ImageReconcile(k, view, writes), e)
    requires !w.exports[e].deleting && found.Found? && Requests(w, e, found, k, digest)
    ensures var t := Step(w, ImageReconcile(k, view, writes), digest);
      var u := Step(t, ExportReconcile(e, found, Reliable), digest);
      !Tracks(t, e) && (Tracks(u, e) <==> !w.exports[e].progress.Completed?)
  {
    var v := w.(writes := writes);
    TracksIgnoresWrites(w, writes, e);
    SameCalls(w, v, k, view);
    hide Fails, CallsToFail, CallsToReport;
    UnreportedLeaves(v, k, view, e);
    var t := Step(w, ImageReconcile(k, view, writes), digest);
    assert t == Reconcile(v, k, view).w;
    hide Reconcile, Requested, ImageKey;
    assert AnyFailed(t, e);
    var t1 := t.(writes := Reliable);
    assert IsImageOf(t1, k, e);
    NextLookTellsIff(t1, e, found, k, digest);
    ReconcileExportFrame(t1, e, found, digest);
    hide ReconcileExport, AnyFailed;
  }

  // ----- COMPLETED next to a FAILED image

  /** COMPLETED, and no image of it will move again. */
  ghost predicate Closed(w: World, e: Key) {
    && e in w.exports && w.exports[e].progress.Completed? && !w.exports[e].deleting
    && forall j | IsImageOf(w, j, e) :: Terminal(w.images[j].progress)
  }

  lemma ClosedAfter(w: World, t: World, e: Key)
    requires Closed(w, e) && SameImages(w, t, e)
    requires e in t.exports && t.exports[e].progress.Completed? && !t.exports[e].deleting
    ensures Closed(t, e)
  {
  }

  lemma FinalIsLeftAlone(w: World, k: Key, view: View)
    requires k in w.images && Terminal(w.images[k].progress)
    ensures var o := Reconcile(w, k, view); o.w.images == w.images && o.w.exports == w.exports
  {
    hide HandlePending, HandleRunning;
  }

  lemma StepKeepsClosed(w: World, ev: Event, digest: string -> string, e: Key)
    requires Closed(w, e) && LeavesAlone(w, ev, e)
    ensures var t := Step(w, ev, digest); SameImages(w, t, e) && Closed(t, e)
  {
    var t := Step(w, ev, digest);
    match ev
    case ImageReconcile(k, view, writes) =>
      var v := w.(writes := writes);
      if k in w.images && ExportOf(k, w.images[k]) in w.exports {
        if ExportOf(k, w.images[k]) == e {
          assert IsImageOf(w, k, e);
          FinalIsLeftAlone(v, k, view);
        } else {
          OtherExportsImages(v, k, view, e);
        }
      }
      hide Reconcile;
      assert SameImages(w, t, e);
      ClosedAfter(w, t, e);
    case ExportReconcile(f, found, writes) =>
      ExportLookKeepsClosed(w.(writes := writes), f, found, digest, e);
      hide ReconcileExport;
      ClosedAfter(w, t, e);
    case _ =>
      EnvironmentKeepsImages(w, ev, digest, e);
      EnvironmentKeepsExport(w, ev, digest, e);
      hide Step, SameImages, LeavesAlone;
      ClosedAfter(w, t, e);
  }

  lemma ExportLookKeepsClosed(w: World, f: Key, found: Discovery, digest: string -> string, e: Key)
    requires e in w.exports && w.exports[e].progress.Completed? && !w.exports[e].deleting
    ensures var t := ReconcileExport(w, f, found, digest).w;
      SameImages(w, t, e) && e in t.exports && t.exports[e].progress.Completed? && !t.exports[e].deleting
  {
    var t := ReconcileExport(w, f, found, digest).w;
    if f == e {
      EarlyOutcomes(w, e, found, digest);
      hide ReconcileExport, CreateImages;
    } else {
      ReconcileExportFrame(w, f, found, digest);
      hide ReconcileExport;
      assert e in t.exports - {f} && (t.exports - {f})[e] == t.exports[e];
      assert (w.exports - {f})[e] == w.exports[e];
    }
  }

  /** From then on nothing tells: in every further run that does not delete the export or an image of it,
      it stays COMPLETED next to the FAILED image. */
  lemma {:induction false} ClosedForGood(w: World, events: seq<Event>, digest: string -> string, e: Key)
    requires Closed(w, e) && LeavesAloneRun(w, events, digest, e)
    ensures var t := Run(w, events, digest); SameImages(w, t, e) && Closed(t, e)
    decreases |events|
  {
    if events != [] {
      StepKeepsClosed(w, events[0], digest, e);
      hide Step, Closed, LeavesAlone;
      ClosedForGood(Step(w, events[0], digest), events[1..], digest, e);
    }
  }
}
