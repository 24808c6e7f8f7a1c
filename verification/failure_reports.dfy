/** When a FAILED image goes unreported to its export: exactly which failing calls do it. */
module FailureReports {
  import opened ContainerNames
  import opened Cluster
  import opened Controllers
  import opened ImageMoves
  import opened ImageResults
  import opened ExportTracking
  import opened PurgeReach
  import opened Runs

  /** The calls of a whole purge. */
  function CallsOfPurge(listing: seq<JobId>, ns: string): nat {
    if listing == [] then 0 else (if Namespace(listing[0]) == ns then 1 else 0) + CallsOfPurge(listing[1..], ns)
  }

  /** The reconcile is one that makes its image FAILED, if its calls succeed. */
  predicate Fails(w: World, k: Key, view: View) {
    && k in w.images && Active(w.images[k].progress) && k in w.jobs
    && !(JobFailed(w, k) && w.images[k].retries < MAX_RETRIES)
    && (JobFailed(w, k) || TooManyRestarts(w, k, view))
  }

  /** The calls up to the first status that says FAILED. */
  function CallsToFail(w: World, k: Key): nat {
    if Succeeded(w, k) then 4 else 1
  }

  /** The calls of the tail up to the export's status. */
  function CallsOfTail(w: World, k: Key, view: View): nat
    requires k in w.images
  {
    (if TooManyRestarts(w, k, view) then 1 + CallsOfPurge(view.jobs, k.ns) else 0) + 2
  }

  function CallsToReport(w: World, k: Key, view: View): nat
    requires k in w.images
  {
    (if Live(w, k) then 0 else 3) + CallsOfTail(w, k, view)
  }

  /** The event makes an image of the export FAILED and fails before it has said so to the export. */
  predicate GoesUnreported(w: World, ev: Event, e: Key) {
    && ev.ImageReconcile? && Fails(w, ev.k, ev.view) && ExportOf(ev.k, w.images[ev.k]) == e
    && e in w.exports && !w.exports[e].progress.Failed? && e !in w.history.deletedFrom
    && CanAfford(ev.writes, CallsToFail(w, ev.k)) && !CanAfford(ev.writes, CallsToReport(w, ev.k, ev.view))
  }

  // ----- the purge and the tail

  lemma {:induction false} PurgeCalls(w: World, ns: string, listing: seq<JobId>)
    ensures var o := RemoveAllJobs(w, ns, listing);
      && (o.result.Error? <==> !CanAfford(w.writes, CallsOfPurge(listing, ns)))
      && (!o.result.Error? ==> o.w.writes == Left(w.writes, CallsOfPurge(listing, ns)))
      && o.w.exports == w.exports
    decreases |listing|
  {
    if listing != [] {
      if Namespace(listing[0]) != ns {
        PurgeCalls(w, ns, listing[1..]);
      } else {
        var o := PurgeJob(w, listing[0]);
        assert o.result.Error? <==> !CanAfford(w.writes, 1);
        assert o.w.exports == w.exports && (!o.result.Error? ==> o.w.writes == Left(w.writes, 1));
        hide PurgeJob;
        if !o.result.Error? {
          PurgeCalls(o.w, ns, listing[1..]);
        }
      }
    }
  }

  /** What the restarts do when they are too many, or when there are none. */
  lemma RestartCalls(m: World, k: Key, view: View)
    requires k in m.images && (TooManyRestarts(m, k, view) || FirstRestart(view.restarts) == 0)
    ensures var o := HandleJobRestarts(m, k, view);
      var n := if TooManyRestarts(m, k, view) then 1 + CallsOfPurge(view.jobs, k.ns) else 0;
      && (o.result.Error? <==> !CanAfford(m.writes, n))
      && (!o.result.Error? ==> o.w.writes == Left(m.writes, n))
      && o.w.exports == m.exports
      && o.w.images[k].exportName == m.images[k].exportName
      && (o.w.images[k].progress.Failed? <==>
            m.images[k].progress.Failed? || (TooManyRestarts(m, k, view) && CanAfford(m.writes, 1)))
  {
    if TooManyRestarts(m, k, view) {
      var u := UpdateImage(m, k, Failed, m.images[k].retries + FirstRestart(view.restarts));
      if !u.result.Error? {
        PurgeCalls(u.w, k.ns, view.jobs);
      }
    }
    hide RemoveAllJobs, CallsOfPurge;
  }

  /** A status write, then the export's. */
  lemma ReportCalls(w: World, k: Key)
    requires k in w.images && w.images[k].progress.Failed?
    requires ExportOf(k, w.images[k]) in w.exports && !w.exports[ExportOf(k, w.images[k])].progress.Failed?
    ensures var u := UpdateImage(w, k, w.images[k].progress, w.images[k].retries);
      && u.w.images == w.images
      && (u.result.Error? <==> !CanAfford(w.writes, 1))
      && (u.result.Error? ==> u.w.exports == w.exports)
      && (!u.result.Error? ==>
            var o := UpdateExportStatus(u.w, k);
            && (o.result.Error? <==> !CanAfford(w.writes, 2)) && o.w.images == w.images
            && (o.result.Error? ==> o.w.exports == w.exports))
  {
    var u := UpdateImage(w, k, w.images[k].progress, w.images[k].retries);
    var e := ExportOf(k, w.images[k]);
    if !u.result.Error? {
      assert IsImageOf(u.w, k, e);
      assert AnyFailed(u.w, e);
      AggregateFails(u.w, e);
    }
    hide Aggregate, AllCompletedSwitch;
  }

  lemma TailCalls(m: World, k: Key, view: View)
    requires k in m.images && (TooManyRestarts(m, k, view) || FirstRestart(view.restarts) == 0)
    requires m.images[k].progress.Failed? || TooManyRestarts(m, k, view)
    requires ExportOf(k, m.images[k]) in m.exports && !m.exports[ExportOf(k, m.images[k])].progress.Failed?
    ensures var o := Finish(m, k, view);
      && k in o.w.images
      && (o.result.Error? <==> !CanAfford(m.writes, CallsOfTail(m, k, view)))
      && (o.result.Error? ==> o.w.exports == m.exports)
      && (o.w.images[k].progress.Failed? <==> m.images[k].progress.Failed? || CanAfford(m.writes, 1))
  {
    var n := if TooManyRestarts(m, k, view) then 1 + CallsOfPurge(view.jobs, k.ns) else 0;
    var h := HandleJobRestarts(m, k, view);
    RestartCalls(m, k, view);
    LeftInTurn(m.writes, n, 2);
    LeftInTurn(m.writes, n, 1);
    hide HandleJobRestarts, UpdateImage, UpdateExportStatus, CallsOfPurge, TooManyRestarts;
    if !h.result.Error? {
      ReportCalls(h.w, k);
    }
    hide CanAfford, Left;
  }

  lemma LeftInTurn(writes: Writes, n: nat, m: nat)
    ensures CanAfford(writes, n + m) <==> CanAfford(writes, n) && CanAfford(Left(writes, n), m)
  {
  }

  // ----- the reconcile

  lemma ActiveCalls(w: World, k: Key, view: View)
    requires Fails(w, k, view)
    requires ExportOf(k, w.images[k]) in w.exports && !w.exports[ExportOf(k, w.images[k])].progress.Failed?
    ensures var o := HandleRunning(w, k, view);
      && k in o.w.images
      && (o.result.Error? <==> !CanAfford(w.writes, CallsToReport(w, k, view)))
      && (o.result.Error? ==> o.w.exports == w.exports)
      && (o.w.images[k].progress.Failed? <==> CanAfford(w.writes, CallsToFail(w, k)))
  {
    if Live(w, k) {
      TailCalls(w, k, view);
      hide Finish, CallsOfTail;
    } else {
      SettledCalls(w, k, view);
      hide HandleRunning, CallsOfTail;
    }
  }

  lemma SettledCalls(w: World, k: Key, view: View)
    requires Fails(w, k, view) && !Live(w, k)
    requires ExportOf(k, w.images[k]) in w.exports && !w.exports[ExportOf(k, w.images[k])].progress.Failed?
    ensures var o := HandleRunning(w, k, view);
      && k in o.w.images
      && (o.result.Error? <==> !CanAfford(w.writes, 3 + CallsOfTail(w, k, view)))
      && (o.result.Error? ==> o.w.exports == w.exports)
      && (o.w.images[k].progress.Failed? <==> CanAfford(w.writes, CallsToFail(w, k)))
  {
    var progress := if Succeeded(w, k) then Completed else Failed;
    var o1 := UpdateImage(w.(activeJobs := w.activeJobs - 1), k, progress, w.images[k].retries);
    var o2 := CleanupJobAndPods(o1.w, k);
    SettlingSteps(w, k, progress);
    assert HandleRunning(w, k, view)
        == if o1.result.Error? then o1 else if o2.result.Error? then o2 else Finish(o2.w, k, view) by {
      hide UpdateImage, CleanupJobAndPods, Finish;
    }
    LeftInTurn(w.writes, 3, CallsOfTail(w, k, view));
    LeftInTurn(w.writes, 3, 1);
    NoRestartOrTooMany(w, k, view);
    hide HandleRunning, UpdateImage, CleanupJobAndPods, Finish, CallsOfTail, Live;
    if CanAfford(w.writes, 3) {
      SameTail(w, o2.w, k, view);
      TailCalls(o2.w, k, view);
    }
    hide TooManyRestarts;
  }

  lemma SettlingSteps(w: World, k: Key, progress: Progress)
    requires k in w.images
    ensures var o1 := UpdateImage(w.(activeJobs := w.activeJobs - 1), k, progress, w.images[k].retries);
      var o2 := CleanupJobAndPods(o1.w, k);
      && (o1.result.Error? <==> !CanAfford(w.writes, 1)) && (o1.result.Error? ==> o1.w.images == w.images)
      && (o1.result.Error? || o2.result.Error? <==> !CanAfford(w.writes, 3))
      && o1.w.exports == w.exports && o2.w.exports == w.exports
      && (!o1.result.Error? ==>
            && o1.w.images == w.images[k := w.images[k].(progress := progress)] && o2.w.images == o1.w.images)
      && (CanAfford(w.writes, 3) ==> o2.w.writes == Left(w.writes, 3))
  {
  }

  lemma NoRestartOrTooMany(w: World, k: Key, view: View)
    requires Fails(w, k, view)
    ensures TooManyRestarts(w, k, view) || FirstRestart(view.restarts) == 0
  {
  }

  lemma SameTail(w: World, m: World, k: Key, view: View)
    requires k in w.images && k in m.images && m.images[k].retries == w.images[k].retries
    ensures TooManyRestarts(m, k, view) <==> TooManyRestarts(w, k, view)
    ensures CallsOfTail(m, k, view) == CallsOfTail(w, k, view)
  {
  }

  /** Only such reconciles make an image FAILED. */
  lemma OnlySuchFail(w: World, o: Outcome, k: Key, view: View)
    requires k in w.images && Moves(w, o, k, view) && !w.images[k].progress.Failed? && !Fails(w, k, view)
    ensures k in o.w.images && !o.w.images[k].progress.Failed?
  {
    hide ImageExists, HasSlot, Purged, EndsJob;
  }

  // ----- exactly the unreported failures

  lemma FailingReconcile(w: World, k: Key, view: View, e: Key)
    requires Fails(w, k, view) && ExportOf(k, w.images[k]) == e && e in w.exports && !w.exports[e].progress.Failed?
    requires !AnyFailed(w, e)
    ensures var t := Reconcile(w, k, view).w;
      && e in t.exports
      && (AnyFailed(t, e) <==> CanAfford(w.writes, CallsToFail(w, k)))
      && (t.exports[e].progress.Failed? <==> CanAfford(w.writes, CallsToReport(w, k, view)))
  {
    var v := w.(maxParallelJobs := w.exports[e].spec.maxConcurrentJobs);
    var o := Reconcile(w, k, view);
    assert o == HandleRunning(v, k, view) by { hide HandleRunning, HandlePending; }
    assert Fails(v, k, view) && CallsToReport(v, k, view) == CallsToReport(w, k, view)
      && CallsToFail(v, k) == CallsToFail(w, k) by { hide CallsOfPurge; }
    ActiveCalls(v, k, view);
    ReconcileMoves(w, k, view);
    ReconcileExports(w, k, view);
    MoveKeepsImages(w, o, k, view);
    hide Reconcile, HandleRunning, Moves, CallsToReport, CallsToFail, Aggregate;
    AggregateFails(o.w, e);
    assert AnyFailed(o.w, e) <==> o.w.images[k].progress.Failed? by {
      if o.w.images[k].progress.Failed? {
        assert IsImageOf(o.w, k, e);
      }
      if j :| IsImageOf(o.w, j, e) && o.w.images[j].progress.Failed? {
        assert IsImageOf(w, j, e);
        assert j == k;
      }
    }
    ReportedIsFailed(w, k);
  }

  /** The report comes after the failure. */
  lemma ReportedIsFailed(w: World, k: Key)
    ensures forall view | Fails(w, k, view) && CanAfford(w.writes, CallsToReport(w, k, view)) ::
      CanAfford(w.writes, CallsToFail(w, k))
  {
  }

  /** Tracking of failures survives every other event, failing calls of both controllers included: after
      an event an export next to a FAILED image of its own is not FAILED, or the reverse, if and only if
      the event made the image FAILED and then failed before the export's status. */
  lemma TrackingBreaksIff(w: World, ev: Event, digest: string -> string, e: Key)
    requires Tracks(w, e) && NoForeignEvent(w, ev, digest)
    ensures !Tracks(Step(w, ev, digest), e) <==> GoesUnreported(w, ev, e)
  {
    if ev.ImageReconcile? {
      var v := w.(writes := ev.writes);
      TracksIgnoresWrites(w, ev.writes, e);
      ImageReconcileTracksIff(v, ev.k, ev.view, e);
      hide Reconcile, Tracks, CallsToReport, CallsToFail, TooManyRestarts, Fails;
      SameCalls(w, v, ev.k, ev.view);
    } else {
      StepTracks(w, ev, digest, e);
      hide Step, Tracks;
    }
  }

  lemma SameCalls(w: World, v: World, k: Key, view: View)
    requires v == w.(writes := v.writes)
    ensures Fails(v, k, view) <==> Fails(w, k, view)
    ensures k in w.images ==> CallsToReport(v, k, view) == CallsToReport(w, k, view)
    ensures CallsToFail(v, k) == CallsToFail(w, k)
  {
    hide CallsOfPurge;
  }

  predicate UnreportedBy(w: World, k: Key, view: View, e: Key) {
    && Fails(w, k, view) && ExportOf(k, w.images[k]) == e
    && e in w.exports && !w.exports[e].progress.Failed? && e !in w.history.deletedFrom
    && CanAfford(w.writes, CallsToFail(w, k)) && !CanAfford(w.writes, CallsToReport(w, k, view))
  }

  lemma ImageReconcileTracksIff(w: World, k: Key, view: View, e: Key)
    requires Tracks(w, e)
    ensures !Tracks(Reconcile(w, k, view).w, e) <==> UnreportedBy(w, k, view, e)
  {
    if k in w.images && ExportOf(k, w.images[k]) in w.exports {
      var o := Reconcile(w, k, view);
      ReconcileMoves(w, k, view);
      MoveKeepsDeletedFrom(w, o, k, view);
      if ExportOf(k, w.images[k]) == e && Fails(w, k, view) && !w.exports[e].progress.Failed?
        && e !in w.history.deletedFrom {
        FailingReconcile(w, k, view, e);
        ReportedIsFailed(w, k);
        hide Reconcile, Moves, CallsToReport, CallsToFail, Fails, AnyFailed;
      } else {
        OthersTrack(w, k, view, e);
        hide Reconcile, Moves, Tracks;
      }
    }
  }

  lemma OthersTrack(w: World, k: Key, view: View, e: Key)
    requires Tracks(w, e) && k in w.images && ExportOf(k, w.images[k]) in w.exports
    requires ExportOf(k, w.images[k]) == e && Fails(w, k, view) ==>
      w.exports[e].progress.Failed? || e in w.history.deletedFrom
    ensures Tracks(Reconcile(w, k, view).w, e)
  {
    var o := Reconcile(w, k, view);
    ReconcileMoves(w, k, view);
    ReconcileExports(w, k, view);
    MoveKeepsImages(w, o, k, view);
    MoveKeepsDeletedFrom(w, o, k, view);
    MoveKeepsFailed(w, o, k, view);
    AggregateFails(o.w, e);
    hide Reconcile, Aggregate;
    if e in o.w.exports && e !in o.w.history.deletedFrom {
      if ExportOf(k, w.images[k]) != e {
        hide Moves;
        OtherFailures(w, o.w, k, e);
      } else if !Fails(w, k, view) && !w.images[k].progress.Failed? {
        OnlySuchFail(w, o, k, view);
        hide Moves, Fails;
        SameFailures(w, o.w, k, e);
      } else {
        hide Moves;
        FailedBefore(w, o.w, k, e);
      }
    }
    hide Moves, Fails, AnyFailed;
  }

  /** Once an image of the export is FAILED, some image of it stays so. */
  lemma FailedBefore(w: World, t: World, k: Key, e: Key)
    requires SameExport(w, t, k) && t.images == w.images[k := t.images[k]] && AnyFailed(w, e)
    requires w.images[k].progress.Failed? ==> t.images[k].progress.Failed?
    ensures AnyFailed(t, e)
  {
    var j :| IsImageOf(w, j, e) && w.images[j].progress.Failed?;
    assert IsImageOf(t, j, e) && t.images[j].progress.Failed?;
  }

  // ----- every run

  /** No event of the run leaves a failure of the export unreported. */
  ghost predicate AllReported(w: World, events: seq<Event>, digest: string -> string, e: Key)
    decreases |events|
  {
    events == []
    || (!GoesUnreported(w, events[0], e) && AllReported(Step(w, events[0], digest), events[1..], digest, e))
  }

  /** In every run from the empty world, failing calls of both controllers included: an export none of
      whose images was deleted, and none of whose failures went unreported, is FAILED exactly when one
      of its images is. */
  lemma ReportedFailuresAreTracked(
      events: seq<Event>, drawn: set<(string, Container)>, digest: string -> string, e: Key)
    requires Separates(digest, drawn) && DrawsFromRun(EMPTY_WORLD, events, drawn, digest)
    requires AllReported(EMPTY_WORLD, events, digest, e)
    ensures Tracks(Run(EMPTY_WORLD, events, digest), e)
  {
    EmptyWorldTracked();
    assert Tracks(EMPTY_WORLD, e);
    assert KeysAreOwn(EMPTY_WORLD, drawn, digest);
    hide Run, Tracks, KeysAreOwn, DrawsFromRun, AllReported, Separates;
    TrackedFrom(EMPTY_WORLD, events, drawn, digest, e);
  }

  lemma {:induction false} TrackedFrom(
      w: World, events: seq<Event>, drawn: set<(string, Container)>, digest: string -> string, e: Key)
    requires Tracks(w, e) && Separates(digest, drawn) && KeysAreOwn(w, drawn, digest)
    requires DrawsFromRun(w, events, drawn, digest) && AllReported(w, events, digest, e)
    ensures Tracks(Run(w, events, digest), e)
    decreases |events|
  {
    if events != [] {
      SeparateKeysNeverMeet(w, events[0], drawn, digest);
      StepKeepsKeysOwn(w, events[0], drawn, digest);
      TrackingBreaksIff(w, events[0], digest, e);
      hide Step, Tracks, KeysAreOwn, DrawsFrom, Separates, GoesUnreported, NoForeignEvent;
      TrackedFrom(Step(w, events[0], digest), events[1..], drawn, digest, e);
    }
  }
}
