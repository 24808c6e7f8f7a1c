/** The history is true: what it counts and records happened, and what happened is counted and recorded. */
module HistoryFacts {
  import opened Cluster
  import opened Controllers
  import opened ImageMoves
  import opened ExportMoves
  import opened Runs

  /** A job that has appeared is counted once, and under its full name; and only then is one counted. */
  predicate CreationsCounted(w: World, t: World) {
    && (forall k | k in t.jobs && k !in w.jobs ::
          CountOf(t.history.created, k) == CountOf(w.history.created, k) + 1
          && t.jobs[k].fullName in t.history.jobNames)
    && (forall k | k in t.images && CountOf(t.history.created, k) > CountOf(w.history.created, k) ::
          k in t.jobs && k !in w.jobs)
    && (forall name | name in t.history.jobNames && name !in w.history.jobNames ::
          exists k :: k in t.jobs && k !in w.jobs && t.jobs[k].fullName == name)
  }

  /** A name is recorded as stored when, and only when, a job of it reports success. */
  predicate SuccessesRecorded(w: World, t: World) {
    && (forall k | k in t.jobs && k in w.jobs && t.jobs[k].succeeded > w.jobs[k].succeeded ::
          t.jobs[k].fullName in t.history.succeeded)
    && (forall name | name in t.history.succeeded && name !in w.history.succeeded ::
          exists k :: k in t.jobs && k in w.jobs && t.jobs[k].fullName == name
                      && t.jobs[k].succeeded > w.jobs[k].succeeded)
  }

  lemma MoveIsCounted(w: World, o: Outcome, k: Key, view: View)
    requires k in w.images && Moves(w, o, k, view)
    ensures CreationsCounted(w, o.w) && SuccessesRecorded(w, o.w)
  {
    if Started(w, o, k) {
      StartIsCounted(w, o, k);
    } else if Purges(w, o, k, view) {
      var m :| BeforeTail(w, m, k) && Purged(Books(m), Books(o.w), k.ns) && o.w.activeJobs == m.activeJobs;
      assert forall j | j in o.w.jobs :: j in m.jobs && m.jobs[j] == o.w.jobs[j];
      assert o.w.history.created == m.history.created && o.w.history.jobNames == m.history.jobNames
        && o.w.history.succeeded == m.history.succeeded;
      hide Purges, Purged;
      OnlyFewerJobs(w, o.w);
    } else {
      OthersKeepJobs(w, o, k, view);
      OnlyFewerJobs(w, o.w);
    }
    hide CreationsCounted, SuccessesRecorded, Started, Purges, Moves, BeforeTail;
  }

  lemma StartIsCounted(w: World, o: Outcome, k: Key)
    requires k in w.images && Started(w, o, k)
    ensures CreationsCounted(w, o.w) && SuccessesRecorded(w, o.w)
  {
    hide ImageExists, HasSlot;
    assert k in o.w.jobs && k !in w.jobs && o.w.jobs[k].fullName == w.images[k].container.fullName;
  }

  predicate FewerJobs(w: World, t: World) {
    && (forall j | j in t.jobs ::
          j in w.jobs && t.jobs[j].fullName == w.jobs[j].fullName && t.jobs[j].succeeded == w.jobs[j].succeeded)
    && t.history.created == w.history.created && t.history.jobNames == w.history.jobNames
    && t.history.succeeded == w.history.succeeded
  }

  lemma OthersKeepJobs(w: World, o: Outcome, k: Key, view: View)
    requires k in w.images && Moves(w, o, k, view) && !Started(w, o, k) && !Purges(w, o, k, view)
    ensures FewerJobs(w, o.w)
  {
    hide Purges, Started, ImageExists, HasSlot;
  }

  lemma OnlyFewerJobs(w: World, t: World)
    requires FewerJobs(w, t)
    ensures CreationsCounted(w, t) && SuccessesRecorded(w, t)
  {
  }

  lemma HistoryIsTrue(w: World, ev: Event, digest: string -> string)
    ensures CreationsCounted(w, Step(w, ev, digest)) && SuccessesRecorded(w, Step(w, ev, digest))
  {
    match ev
    case ImageReconcile(k, view, writes) =>
      var v := w.(writes := writes);
      if k in w.images {
        ReconcileMoves(v, k, view);
        MoveIsCounted(v, Reconcile(v, k, view), k, view);
      }
      SameButCalls(w, v, Step(w, ev, digest));
      hide Reconcile, Moves, CreationsCounted, SuccessesRecorded;
    case ExportReconcile(e, found, writes) =>
      var v := w.(writes := writes);
      ReconcileExportFrame(v, e, found, digest);
      CreatingUncounts(v, ReconcileExport(v, e, found, digest).w, e);
      SameButCalls(w, v, Step(w, ev, digest));
      hide ReconcileExport, ExportFrame, CreationsCounted, SuccessesRecorded;
    case _ =>
      EnvironmentIsCounted(w, ev, digest);
      hide Step;
  }

  lemma SameButCalls(w: World, v: World, t: World)
    requires v == w.(writes := v.writes)
    ensures CreationsCounted(v, t) ==> CreationsCounted(w, t)
    ensures SuccessesRecorded(v, t) ==> SuccessesRecorded(w, t)
    ensures t == v ==> CreationsCounted(w, t) && SuccessesRecorded(w, t)
  {
  }

  lemma EnvironmentIsCounted(w: World, ev: Event, digest: string -> string)
    requires !ev.ImageReconcile? && !ev.ExportReconcile?
    ensures CreationsCounted(w, Step(w, ev, digest)) && SuccessesRecorded(w, Step(w, ev, digest))
  {
    if ev.JobSucceeds? {
      SuccessIsRecorded(w, ev, digest);
    } else {
      OthersStartNothing(w, ev, digest);
      OnlyFewerJobs(w, Step(w, ev, digest));
    }
    hide Step, CreationsCounted, SuccessesRecorded, FewerJobs;
  }

  lemma OthersStartNothing(w: World, ev: Event, digest: string -> string)
    requires !ev.ImageReconcile? && !ev.ExportReconcile? && !ev.JobSucceeds?
    ensures FewerJobs(w, Step(w, ev, digest))
  {
    if IsQuiet(ev) {
      QuietEvents(w, ev, digest);
      hide Step;
    }
  }

  lemma SuccessIsRecorded(w: World, ev: Event, digest: string -> string)
    requires ev.JobSucceeds?
    ensures CreationsCounted(w, Step(w, ev, digest)) && SuccessesRecorded(w, Step(w, ev, digest))
  {
  }

  lemma CreatingUncounts(w: World, t: World, e: Key)
    requires ExportFrame(w, t, e)
    ensures CreationsCounted(w, t) && SuccessesRecorded(w, t)
  {
  }
}
