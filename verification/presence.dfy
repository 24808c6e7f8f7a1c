/** What PRESENT and RUNNING say about other images with the same full name. */
module Presence {
  import opened Cluster
  import opened Controllers
  import opened ImageMoves
  import opened ExportMoves
  import opened Runs

  function NameOf(w: World, k: Key): string
    requires k in w.images
  {
    w.images[k].container.fullName
  }

  predicate Untouched(p: Progress) {
    p.Unset? || p.Pending? || p.Starting?
  }

  // ----- in every run

  /** A progress beyond PENDING means that some job was created for the name. */
  predicate JobWasCreated(w: World, k: Key)
    requires k in w.images
  {
    !Untouched(w.images[k].progress) ==> NameOf(w, k) in w.history.jobNames
  }

  predicate JobsWereCreated(w: World) {
    forall k | k in w.images :: JobWasCreated(w, k)
  }

  predicate RunningIsUnique(w: World) {
    forall j, k | j in w.images && k in w.images && w.images[j].progress.Running? && w.images[k].progress.Running? ::
      j.name == k.name || NameOf(w, j) != NameOf(w, k)
  }

  predicate NamesInv(w: World) {
    JobsWereCreated(w) && RunningIsUnique(w)
  }

  lemma MoveKeepsNames(w: World, o: Outcome, k: Key, view: View)
    requires NamesInv(w) && k in w.images && Moves(w, o, k, view)
    ensures NamesInv(o.w)
  {
    MoveKeepsImages(w, o, k, view);
    assert JobWasCreated(w, k);
    assert JobWasCreated(o.w, k) by { OwnName(w, o, k, view); }
    NamesOnlyGrow(w, o, k, view);
    RunningIsChecked(w, o, k, view);
    hide Moves;
    forall j | j in o.w.images && j != k
      ensures JobWasCreated(o.w, j)
    {
      assert JobWasCreated(w, j);
    }
  }

  lemma NamesOnlyGrow(w: World, o: Outcome, k: Key, view: View)
    requires k in w.images && Moves(w, o, k, view)
    ensures w.history.jobNames <= o.w.history.jobNames
    ensures o.w.history.succeeded == w.history.succeeded && o.w.history.failedNames == w.history.failedNames
  {
    hide ImageExists, HasSlot;
  }

  lemma OwnName(w: World, o: Outcome, k: Key, view: View)
    requires k in w.images && JobsWereCreated(w) && JobWasCreated(w, k) && Moves(w, o, k, view)
    ensures k in o.w.images && JobWasCreated(o.w, k)
  {
    if FoundPresent(w, o, k) {
      var j :| j in w.images && Stands(w, j, k);
      assert JobWasCreated(w, j);
      hide Moves;
    }
    hide ImageExists, HasSlot, JobsWereCreated, NamesGone;
  }

  /** RUNNING is entered only past the check, and the check sees every RUNNING image. */
  lemma RunningIsChecked(w: World, o: Outcome, k: Key, view: View)
    requires k in w.images && Moves(w, o, k, view)
    ensures k in o.w.images && (o.w.images[k].progress.Running? ==>
      w.images[k].progress.Running? || forall j | j in w.images && w.images[j].progress.Running? ::
          || j.name == k.name
          || NameOf(w, j) != NameOf(w, k))
  {
    if Started(w, o, k) {
      forall j | j in w.images && w.images[j].progress.Running?
        ensures j.name == k.name || NameOf(w, j) != NameOf(w, k)
      {
        assert !Stands(w, j, k);
      }
    }
    hide ImageExists, HasSlot, Purged;
  }

  lemma StepKeepsNames(w: World, ev: Event, digest: string -> string)
    requires NamesInv(w)
    ensures NamesInv(Step(w, ev, digest))
  {
    match ev
    case ImageReconcile(k, view, writes) =>
      var w1 := w.(writes := writes);
      if k in w.images {
        ReconcileMoves(w1, k, view);
        MoveKeepsNames(w1, Reconcile(w1, k, view), k, view);
        hide Reconcile, Moves;
      }
    case ExportReconcile(e, found, writes) =>
      ReconcileExportFrame(w.(writes := writes), e, found, digest);
      hide ReconcileExport;
    case _ =>
      if IsQuiet(ev) {
        QuietEvents(w, ev, digest);
        hide Step;
      }
  }

  /** In every run: a PRESENT image shares its full name with an image for which a job was created,
      and two differently named images of one full name are never both RUNNING. */
  lemma {:induction false} PresentMeansJobCreated(w: World, events: seq<Event>, digest: string -> string)
    requires NamesInv(w)
    ensures var t := Run(w, events, digest);
      && NamesInv(t)
      && (forall k | k in t.images && t.images[k].progress.Present? :: NameOf(t, k) in t.history.jobNames)
      && (forall j, k | j in t.images && k in t.images && t.images[j].progress.Running?
          && t.images[k].progress.Running? ::
            j.name == k.name || NameOf(t, j) != NameOf(t, k))
    decreases |events|
  {
    if events == [] {
      assert forall k | k in w.images :: JobWasCreated(w, k);
    } else {
      StepKeepsNames(w, events[0], digest);
      hide Step, NamesInv;
      PresentMeansJobCreated(Step(w, events[0], digest), events[1..], digest);
    }
  }

  lemma EmptyWorldNames()
    ensures NamesInv(EMPTY_WORLD)
  {
  }
}
