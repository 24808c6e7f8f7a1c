/** Liveness from end to end: every run of changes is short, some run finishes, and a run that cannot go
    on has finished every image and, with one more look at it, every export. */
module EndToEnd {
  import opened ContainerNames
  import opened Cluster
  import opened Controllers
  import opened ImageMoves
  import opened ImageResults
  import opened ExportMoves
  import opened ExportTracking
  import opened ExportCompletion
  import opened Runs
  import opened Retries
  import opened Slots
  import opened Termination
  import opened Liveness

  // ----- some run finishes

  /** The invariants a world reached by a reliable run has, with an export for every image. */
  ghost predicate Sound(w: World) {
    SlotInv(w) && RetryInv(w) && JobsHaveImages(w) && ExportsExist(w)
  }

  lemma EventThatChanges(w: World, digest: string -> string) returns (ev: Event)
    requires CanChange(w, digest)
    ensures ReliableEvent(w, ev) && Progressed(w, Step(w, ev, digest))
    ensures ev.ImageReconcile? || ev.JobSucceeds? || ev.JobFails?
  {
    hide Step, Progressed, ListsAllJobs;
    if k, view :| && ReliableEvent(w, ImageReconcile(k, view, Reliable))
                  && Progressed(w, Step(w, ImageReconcile(k, view, Reliable), digest)) {
      ev := ImageReconcile(k, view, Reliable);
    } else if k :| Progressed(w, Step(w, JobSucceeds(k), digest)) {
      ev := JobSucceeds(k);
    } else {
      var k :| Progressed(w, Step(w, JobFails(k), digest));
      ev := JobFails(k);
    }
  }

  lemma ChangeKeepsObjects(w: World, ev: Event, digest: string -> string)
    requires ev.ImageReconcile? || ev.JobSucceeds? || ev.JobFails?
    ensures var t := Step(w, ev, digest);
      && t.images.Keys == w.images.Keys && t.exports.Keys == w.exports.Keys
      && (forall k | k in w.images :: t.images[k].exportName == w.images[k].exportName)
  {
    if ev.ImageReconcile? {
      var v := w.(writes := ev.writes);
      if ev.k in w.images {
        ReconcileMoves(v, ev.k, ev.view);
        MoveKeepsImages(v, Reconcile(v, ev.k, ev.view), ev.k, ev.view);
        if ExportOf(ev.k, w.images[ev.k]) in w.exports {
          ReconcileExports(v, ev.k, ev.view);
        }
      }
      hide Reconcile, Moves, Aggregate;
    }
  }

  lemma ChangeKeepsSound(w: World, ev: Event, digest: string -> string)
    requires Sound(w) && ReliableEvent(w, ev) && (ev.ImageReconcile? || ev.JobSucceeds? || ev.JobFails?)
    ensures Sound(Step(w, ev, digest)) && Undisturbed(w, ev, digest)
  {
    ChangeKeepsObjects(w, ev, digest);
    StepKeepsSlots(w, ev, digest);
    StepKeepsRetries(w, ev, digest);
    StepKeepsJobsHaveImages(w, ev, digest);
    hide Step, SlotInv, RetryInv, JobsHaveImages, ReliableEvent;
  }

  /** From every sound world some reliable run leads to one in which nothing can change. */
  lemma {:induction false} SomeRunFinishes(w: World, digest: string -> string) returns (events: seq<Event>)
    requires Sound(w)
    ensures ReliableRun(w, events, digest) && UndisturbedRun(w, events, digest)
    ensures Sound(Run(w, events, digest)) && !CanChange(Run(w, events, digest), digest)
    decreases Measure(w)
  {
    if CanChange(w, digest) {
      var ev := EventThatChanges(w, digest);
      ChangeKeepsSound(w, ev, digest);
      StepDecreases(w, ev, digest);
      hide Step, CanChange, Sound, Measure, Progressed, Undisturbed, ReliableEvent;
      var rest := SomeRunFinishes(Step(w, ev, digest), digest);
      events := [ev] + rest;
      assert events[0] == ev && events[1..] == rest;
    } else {
      events := [];
    }
  }

  // ----- every run that cannot go on has finished

  predicate Final(x: Export) {
    x.progress.Completed? || x.progress.Failed?
  }

  /** A reliable look at an export whose images are all final, and that finds every requested key
      taken, ends it. */
  lemma LastLook(w: World, e: Key, found: Discovery, digest: string -> string)
    requires e in w.exports && !w.exports[e].deleting && found.Found? && w.writes.Reliable?
    requires forall k | IsImageOf(w, k, e) :: Terminal(w.images[k].progress)
    requires w.exports[e].progress.Failed? <==> AnyFailed(w, e)
    requires NoForeignKey(w, e, Requested(w.exports[e], found), digest)
    requires forall c | c in Requested(w.exports[e], found) :: ImageKey(digest, e, c) in w.images
    ensures var t := ReconcileExport(w, e, found, digest).w; e in t.exports && Final(t.exports[e])
  {
    if Final(w.exports[e]) {
      var v := ReconcileExportShape(w, e, found, digest);
      hide ReconcileExport, CreateImages;
    } else {
      assert AllCompleted(w, e) by {
        forall k | IsImageOf(w, k, e)
          ensures IsStored(w.images[k].progress)
        {
          assert !w.images[k].progress.Failed?;
        }
      }
      CompletesIff(w, e, found, digest);
      hide ReconcileExport, NoForeignKey;
    }
  }

  lemma ReliableWrites(w: World, events: seq<Event>, digest: string -> string)
    requires ReliableRun(w, events, digest)
    ensures ImageWritesSucceed(events)
    decreases |events|
  {
    if events != [] {
      ReliableWrites(Step(w, events[0], digest), events[1..], digest);
      hide Step, ListsAllJobs;
      assert events == [events[0]] + events[1..];
    }
  }

  /** A reliable run: from any world it reaches with n images, at most 16n² + 25n steps change anything
      as long as nobody interferes from outside; and when, no job lost and every limit positive, nothing
      can change any more, every image is final, no job is left, and every export that has kept its
      images and finds all it asks for there is COMPLETED or FAILED after one more reconcile. */
  lemma FinishesEndToEnd(
      before: seq<Event>, events: seq<Event>, drawn: set<(string, Container)>, digest: string -> string)
    requires ReliableRun(EMPTY_WORLD, before + events, digest)
    requires UndisturbedRun(Run(EMPTY_WORLD, before, digest), events, digest)
    requires Separates(digest, drawn) && DrawsFromRun(EMPTY_WORLD, before + events, drawn, digest)
    requires var t := Run(EMPTY_WORLD, before + events, digest);
      && ExportsExist(t) && !CanChange(t, digest) && t.history.lost == 0
      && forall e | e in t.exports :: t.exports[e].spec.maxConcurrentJobs >= 1
    ensures var w, t := Run(EMPTY_WORLD, before, digest), Run(EMPTY_WORLD, before + events, digest);
      var n := |w.images|;
      && Changes(w, events, digest) <= 16 * n * n + 25 * n
      && t.jobs == map[] && (forall k | k in t.images :: Terminal(t.images[k].progress))
      && (forall e, found | AsksForWhatIsThere(t, e, found, drawn, digest) ::
            var u := Step(t, ExportReconcile(e, found, Reliable), digest); e in u.exports && Final(u.exports[e]))
  {
    var t := Run(EMPTY_WORLD, before + events, digest);
    QuadraticallyManyChanges(before, events, digest);
    DeadlockFreeIff(before + events, digest);
    ReliableWrites(EMPTY_WORLD, before + events, digest);
    SeparatedExportsFailWithTheirImages(before + events, drawn, digest);
    assert KeysAreOwn(EMPTY_WORLD, drawn, digest);
    RunKeepsKeysOwn(EMPTY_WORLD, before + events, drawn, digest);
    hide Run, CanChange, KeysAreOwn, Separates, ReliableRun, UndisturbedRun, DrawsFromRun, Changes;
    hide AsksForWhatIsThere, ExportsExist, OnlyStarvedLeft;
    forall e, found | AsksForWhatIsThere(t, e, found, drawn, digest)
      ensures var u := Step(t, ExportReconcile(e, found, Reliable), digest); e in u.exports && Final(u.exports[e])
    {
      LastLookAt(t, e, found, drawn, digest);
    }
  }

  /** The export is not being deleted and has not lost an image, and what it asks for is drawn and has
      its keys taken. */
  predicate AsksForWhatIsThere(
      t: World, e: Key, found: Discovery, drawn: set<(string, Container)>, digest: string -> string)
  {
    && e in t.exports && !t.exports[e].deleting && e !in t.history.deletedFrom && found.Found?
    && (forall c | c in Requested(t.exports[e], found) ::
          (e.name, c) in drawn && ImageKey(digest, e, c) in t.images)
  }

  lemma LastLookAt(t: World, e: Key, found: Discovery, drawn: set<(string, Container)>, digest: string -> string)
    requires AsksForWhatIsThere(t, e, found, drawn, digest) && Separates(digest, drawn) && KeysAreOwn(t, drawn, digest)
    requires forall k | k in t.images :: Terminal(t.images[k].progress)
    requires t.exports[e].progress.Failed? <==> exists j :: IsImageOf(t, j, e) && t.images[j].progress.Failed?
    ensures var u := Step(t, ExportReconcile(e, found, Reliable), digest); e in u.exports && Final(u.exports[e])
  {
    var v := t.(writes := Reliable);
    var list := Requested(t.exports[e], found);
    assert DrawsFrom(t, ExportReconcile(e, found, Reliable), drawn);
    SeparateKeysNeverMeet(t, ExportReconcile(e, found, Reliable), drawn, digest);
    RequestKept(t, v, e, list, digest);
    hide NoForeignKey, ReconcileExport, KeysAreOwn, Separates, ImageKey, Requested;
    assert forall j :: IsImageOf(v, j, e) <==> IsImageOf(t, j, e);
    LastLook(v, e, found, digest);
  }
}
