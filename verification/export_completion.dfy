/** When an export is COMPLETED, and what that is worth. */
module ExportCompletion {
  import opened ContainerNames
  import opened Cluster
  import opened Controllers
  import opened ImageMoves
  import opened ImageResults
  import opened ExportMoves
  import opened ExportTracking
  import opened Runs

  // ----- the export controller's verdict

  /** Every requested image exists, and every image of the export is stored. */
  ghost predicate AllRequestedStored(w: World, e: Key, list: seq<Container>, digest: string -> string) {
    (forall c | c in list :: ImageKey(digest, e, c) in w.images) && AllCompleted(w, e)
  }

  /** Marked COMPLETED with everything stored. */
  ghost predicate Sealed(w: World, e: Key) {
    e in w.exports && w.exports[e].progress.Completed? && AllCompleted(w, e)
  }

  /** What the create loop and the check after it decide, when the calls succeed. */
  lemma {:induction false} LoopCompletesIff(w: World, e: Key, x: Export, list: seq<Container>, digest: string -> string)
    requires w.writes.Reliable? && e in w.exports && x.progress.Running?
    requires x.spec == w.exports[e].spec && x.deleting == w.exports[e].deleting
    requires NoForeignKey(w, e, list, digest)
    ensures var o := CreateImages(w, e, x, list, digest);
      e in o.w.exports && (o.result.Done? && o.w.exports[e].progress.Completed?
          <==> AllRequestedStored(w, e, list, digest))
    ensures var o := CreateImages(w, e, x, list, digest);
      AllRequestedStored(w, e, list, digest) ==> o.w.images == w.images
    decreases |list|
  {
    if list != [] {
      var k := ImageKey(digest, e, list[0]);
      assert list == [list[0]] + list[1..] && list[0] in list;
      if k in w.images {
        assert IsImageOf(w, k, e);
        if !w.images[k].progress.Failed? {
          assert NoForeignKey(w, e, list[1..], digest);
          LoopCompletesIff(w, e, x, list[1..], digest);
        }
        hide NoForeignKey;
      } else {
        FreshMeansIncomplete(w, e, x, list, digest);
        hide AllRequestedStored;
      }
    }
  }

  /** Once the loop has created an image, the check cannot find everything stored. */
  lemma FreshMeansIncomplete(w: World, e: Key, x: Export, list: seq<Container>, digest: string -> string)
    requires w.writes.Reliable? && e in w.exports && x.progress.Running?
    requires x.spec == w.exports[e].spec && x.deleting == w.exports[e].deleting
    requires list != [] && ImageKey(digest, e, list[0]) !in w.images && NoForeignKey(w, e, list, digest)
    ensures var o := CreateImages(w, e, x, list, digest);
      e in o.w.exports && !(o.result.Done? && o.w.exports[e].progress.Completed?)
    ensures !AllRequestedStored(w, e, list, digest)
    decreases |list|, 0
  {
    var k := ImageKey(digest, e, list[0]);
    assert list[0] in list;
    var o1 := CreateImage(w, k, NewImage(e, x, list[0]));
    UnfinishedStays(o1.w, e, x, list[1..], digest, k);
    hide NoForeignKey;
  }

  /** With an unfinished image of the export around, the loop does not end in COMPLETED. */
  lemma {:induction false} UnfinishedStays(
      w: World, e: Key, x: Export, list: seq<Container>, digest: string -> string, k: Key)
    requires w.writes.Reliable? && e in w.exports && x.progress.Running?
    requires IsImageOf(w, k, e) && !IsStored(w.images[k].progress)
    ensures var o := CreateImages(w, e, x, list, digest);
      e in o.w.exports && !(o.result.Done? && o.w.exports[e].progress.Completed?)
    decreases |list|, 1
  {
    if list != [] {
      var j := ImageKey(digest, e, list[0]);
      if j in w.images {
        if !w.images[j].progress.Failed? {
          UnfinishedStays(w, e, x, list[1..], digest, k);
        }
      } else {
        var o1 := CreateImage(w, j, NewImage(e, x, list[0]));
        UnfinishedStays(o1.w, e, x, list[1..], digest, k);
      }
    }
  }

  /** A reliable reconcile of an unfinished export marks it COMPLETED exactly when every requested
      image has an image object at its key and every image object of the export, those included, is
      COMPLETED or PRESENT. */
  lemma CompletesIff(w: World, e: Key, found: Discovery, digest: string -> string)
    requires w.writes.Reliable? && e in w.exports && !w.exports[e].deleting && found.Found?
    requires !w.exports[e].progress.Completed? && !w.exports[e].progress.Failed?
    requires NoForeignKey(w, e, Requested(w.exports[e], found), digest)
    ensures var o := ReconcileExport(w, e, found, digest);
      var list := Requested(w.exports[e], found);
      && e in o.w.exports
      && (o.result.Done? && o.w.exports[e].progress.Completed? <==> AllRequestedStored(w, e, list, digest))
      && (AllRequestedStored(w, e, list, digest) ==>
            && o.w.images == w.images && Sealed(o.w, e)
            && forall c | c in list ::
                 IsImageOf(o.w, ImageKey(digest, e, c), e) && IsStored(o.w.images[ImageKey(digest, e, c)].progress))
  {
    var list := Requested(w.exports[e], found);
    var x := w.exports[e].(finalizer := true, progress := Running);
    var v := ReconcileExportShape(w, e, found, digest);
    RequestKept(w, v, e, list, digest);
    assert AllRequestedStored(v, e, list, digest) <==> AllRequestedStored(w, e, list, digest) by {
      assert forall j :: IsImageOf(v, j, e) <==> IsImageOf(w, j, e);
    }
    LoopCompletesIff(v, e, x, list, digest);
    hide CreateImages, ReconcileExport;
    if AllRequestedStored(w, e, list, digest) {
      var o := ReconcileExport(w, e, found, digest);
      assert o.w.images == w.images;
      assert forall j :: IsImageOf(o.w, j, e) <==> IsImageOf(w, j, e);
      forall c | c in list
        ensures IsImageOf(o.w, ImageKey(digest, e, c), e) && IsStored(o.w.images[ImageKey(digest, e, c)].progress)
      {
        assert IsImageOf(w, ImageKey(digest, e, c), e);
      }
    }
  }

  lemma {:induction false} LoopEndsFinalOrAgain(
      w: World, e: Key, x: Export, list: seq<Container>, digest: string -> string)
    requires e in w.exports
    ensures var o := CreateImages(w, e, x, list, digest);
      && (o.result.Error? || o.result.Requeue? || o.result.Done?)
      && (o.result.Done? ==>
          && e in o.w.exports
          && (o.w.exports[e].progress.Completed? || o.w.exports[e].progress.Failed?))
    decreases |list|
  {
    if list != [] {
      var k := ImageKey(digest, e, list[0]);
      if k in w.images {
        LoopEndsFinalOrAgain(w, e, x, list[1..], digest);
      } else {
        LoopEndsFinalOrAgain(CreateImage(w, k, NewImage(e, x, list[0])).w, e, x, list[1..], digest);
      }
    }
    hide AllCompleted;
  }

  /** No export is dropped: a reconcile that ends without error leaves it gone, being deleted, or in
      a final state, or asks to be run again. */
  lemma NoLostExport(w: World, e: Key, found: Discovery, digest: string -> string)
    ensures var o := ReconcileExport(w, e, found, digest);
      !o.result.Error? && e in o.w.exports && !o.w.exports[e].deleting
        && !o.w.exports[e].progress.Completed? && !o.w.exports[e].progress.Failed?
      ==> o.result.Requeue?
  {
    if e in w.exports && !w.exports[e].deleting {
      var v := ReconcileExportShape(w, e, found, digest);
      hide ReconcileExport, CreateImages;
      if !StopsEarly(w, ReconcileExport(w, e, found, digest), e) {
        LoopEndsFinalOrAgain(v, e, w.exports[e].(finalizer := true, progress := Running),
            Requested(w.exports[e], found), digest);
      }
    }
    hide CleanupJobName;
  }

  // ----- the two verdicts

  /** The image controller's switch ignores images that nobody has looked at yet, so the two
      controllers agree exactly when some image is really unfinished or none is untouched. */
  lemma VerdictsAgreeIff(w: World, e: Key)
    ensures (AllCompletedSwitch(w, e) <==> AllCompleted(w, e)) <==>
      || (exists j :: IsImageOf(w, j, e) && CountsAsUnfinished(w.images[j].progress))
      || (forall j | IsImageOf(w, j, e) :: !w.images[j].progress.Unset? && !w.images[j].progress.Starting?)
  {
    if j :| IsImageOf(w, j, e) && CountsAsUnfinished(w.images[j].progress) {
      assert !IsStored(w.images[j].progress);
    } else if j :| IsImageOf(w, j, e) && (w.images[j].progress.Unset? || w.images[j].progress.Starting?) {
      assert !IsStored(w.images[j].progress);
    }
  }

  // ----- completion is final

  /** Nobody deletes the export or one of its images from outside. */
  predicate LeavesAlone(w: World, ev: Event, e: Key) {
    && ev != ExportDeleteRequested(e)
    && (ev.ImageDeleted? ==> !IsImageOf(w, ev.k, e))
  }

  /** The images of the export, and their states, are the same before and after. */
  ghost predicate SameImages(w: World, t: World, e: Key) {
    && (forall j :: IsImageOf(t, j, e) <==> IsImageOf(w, j, e))
    && (forall j | IsImageOf(w, j, e) :: t.images[j] == w.images[j])
  }

  lemma SealedAfter(w: World, t: World, e: Key)
    requires Sealed(w, e) && SameImages(w, t, e) && e in t.exports && t.exports[e].progress.Completed?
    ensures Sealed(t, e)
  {
  }

  lemma StoredIsLeftAlone(w: World, k: Key, view: View)
    requires k in w.images && IsStored(w.images[k].progress)
    ensures var o := Reconcile(w, k, view); o.w.images == w.images && o.w.exports == w.exports
  {
    hide HandlePending, HandleRunning;
  }

  lemma OtherExportsImages(w: World, k: Key, view: View, e: Key)
    requires k in w.images && ExportOf(k, w.images[k]) in w.exports && ExportOf(k, w.images[k]) != e && e in w.exports
    ensures var t := Reconcile(w, k, view).w; SameImages(w, t, e) && e in t.exports && t.exports[e] == w.exports[e]
  {
    ReconcileMoves(w, k, view);
    ReconcileExports(w, k, view);
    MoveKeepsImages(w, Reconcile(w, k, view), k, view);
    hide Reconcile, Moves, Aggregate;
    ForeignImageOnly(w, Reconcile(w, k, view).w, k, e);
  }

  lemma ForeignImageOnly(w: World, t: World, k: Key, e: Key)
    requires SameExport(w, t, k) && t.images == w.images[k := t.images[k]] && ExportOf(k, w.images[k]) != e
    ensures SameImages(w, t, e)
  {
  }

  lemma ReconcileKeepsSealed(w: World, k: Key, view: View, e: Key)
    requires Sealed(w, e) && !w.exports[e].deleting
    ensures var t := Reconcile(w, k, view).w; SameImages(w, t, e) && Sealed(t, e) && !t.exports[e].deleting
  {
    var t := Reconcile(w, k, view).w;
    if k in w.images && ExportOf(k, w.images[k]) in w.exports {
      if ExportOf(k, w.images[k]) == e {
        assert IsImageOf(w, k, e);
        StoredIsLeftAlone(w, k, view);
        hide Reconcile;
      } else {
        OtherExportsImages(w, k, view, e);
        hide Reconcile, SameImages;
      }
    } else {
      assert t == w;
      hide Reconcile;
    }
    SealedAfter(w, t, e);
  }

  lemma ExportReconcileKeepsSealed(w: World, f: Key, found: Discovery, digest: string -> string, e: Key)
    requires Sealed(w, e) && !w.exports[e].deleting
    ensures var t := ReconcileExport(w, f, found, digest).w;
        SameImages(w, t, e) && Sealed(t, e) && !t.exports[e].deleting
  {
    var t := ReconcileExport(w, f, found, digest).w;
    if f == e {
      assert t.images == w.images;
      assert e in t.exports && t.exports[e].progress.Completed?;
    } else {
      ReconcileExportFrame(w, f, found, digest);
      hide ReconcileExport;
      assert SameImages(w, t, e);
      assert e in t.exports - {f} && (t.exports - {f})[e] == t.exports[e];
    }
    hide ReconcileExport;
    SealedAfter(w, t, e);
  }

  lemma StepKeepsSealed(w: World, ev: Event, digest: string -> string, e: Key)
    requires Sealed(w, e) && !w.exports[e].deleting && LeavesAlone(w, ev, e)
    ensures var t := Step(w, ev, digest); SameImages(w, t, e) && Sealed(t, e) && !t.exports[e].deleting
  {
    match ev
    case ImageReconcile(k, view, writes) =>
      SealedAfter(w, w.(writes := writes), e);
      ReconcileKeepsSealed(w.(writes := writes), k, view, e);
      hide Reconcile;
    case ExportReconcile(f, found, writes) =>
      SealedAfter(w, w.(writes := writes), e);
      ExportReconcileKeepsSealed(w.(writes := writes), f, found, digest, e);
      hide ReconcileExport;
    case _ =>
      EnvironmentKeepsSealed(w, ev, digest, e);
      hide Step, Sealed;
  }

  lemma EnvironmentKeepsSealed(w: World, ev: Event, digest: string -> string, e: Key)
    requires Sealed(w, e) && !w.exports[e].deleting && LeavesAlone(w, ev, e)
    requires !ev.ImageReconcile? && !ev.ExportReconcile?
    ensures var t := Step(w, ev, digest); SameImages(w, t, e) && Sealed(t, e) && !t.exports[e].deleting
  {
    var t := Step(w, ev, digest);
    EnvironmentKeepsImages(w, ev, digest, e);
    EnvironmentKeepsExport(w, ev, digest, e);
    hide Step, SameImages, LeavesAlone;
    SealedAfter(w, t, e);
    hide Sealed;
  }

  lemma EnvironmentKeepsImages(w: World, ev: Event, digest: string -> string, e: Key)
    requires LeavesAlone(w, ev, e) && !ev.ImageReconcile? && !ev.ExportReconcile?
    ensures SameImages(w, Step(w, ev, digest), e)
  {
  }

  lemma EnvironmentKeepsExport(w: World, ev: Event, digest: string -> string, e: Key)
    requires e in w.exports && LeavesAlone(w, ev, e) && !ev.ImageReconcile? && !ev.ExportReconcile?
    ensures var t := Step(w, ev, digest); e in t.exports && t.exports[e] == w.exports[e].(spec := t.exports[e].spec)
  {
    hide IsImageOf;
  }

  ghost predicate LeavesAloneRun(w: World, events: seq<Event>, digest: string -> string, e: Key)
    decreases |events|
  {
    events == [] || (LeavesAlone(w, events[0], e) && LeavesAloneRun(Step(w, events[0], digest), events[1..], digest, e))
  }

  /** Once COMPLETED with everything stored, an export keeps its status, its set of images and every
      image's state through every further run of the two controllers, failing calls included. */
  lemma {:induction false} CompletionIsFinal(w: World, events: seq<Event>, digest: string -> string, e: Key)
    requires Sealed(w, e) && !w.exports[e].deleting && LeavesAloneRun(w, events, digest, e)
    ensures var t := Run(w, events, digest); SameImages(w, t, e) && Sealed(t, e)
    decreases |events|
  {
    if events != [] {
      var w' := Step(w, events[0], digest);
      StepKeepsSealed(w, events[0], digest, e);
      hide Step, Sealed, LeavesAlone;
      CompletionIsFinal(w', events[1..], digest, e);
      assert SameImages(w, Run(w', events[1..], digest), e);
    }
  }

  // ----- from the verdict to every later run

  /** Once the export controller has marked an export COMPLETED, then in every further run every image
      it asked for keeps its object and stays stored. */
  lemma CompletedForGood(w: World, e: Key, found: Discovery, events: seq<Event>, digest: string -> string)
    requires w.writes.Reliable? && e in w.exports && !w.exports[e].deleting && found.Found?
    requires !w.exports[e].progress.Completed? && !w.exports[e].progress.Failed?
    requires NoForeignKey(w, e, Requested(w.exports[e], found), digest)
    requires var o := ReconcileExport(w, e, found, digest);
      o.result.Done? && e in o.w.exports && o.w.exports[e].progress.Completed? && LeavesAloneRun(o.w, events, digest, e)
    ensures var t := Run(ReconcileExport(w, e, found, digest).w, events, digest);
      && Sealed(t, e)
      && forall c | c in Requested(w.exports[e], found) :: StoredAt(w, t, e, ImageKey(digest, e, c))
  {
    var o := ReconcileExport(w, e, found, digest);
    CompletesIff(w, e, found, digest);
    assert !o.w.exports[e].deleting by {
      ReconcileExportFrame(w, e, found, digest);
      hide ReconcileExport;
    }
    hide ReconcileExport, AllRequestedStored, Sealed, LeavesAloneRun, Run, Requested, NoForeignKey;
    CompletionIsFinal(o.w, events, digest, e);
  }

  /** The image at `k` is one of the export, stored, and the one it was in `w`. */
  predicate StoredAt(w: World, t: World, e: Key, k: Key) {
    IsImageOf(t, k, e) && IsStored(t.images[k].progress) && k in w.images && t.images[k] == w.images[k]
  }

  /** When the texts that are digested are unambiguous and the digest tells them apart, what is
      stored for each requested image is that very image. */
  lemma CompletedStoresEach(
      w: World, e: Key, found: Discovery, events: seq<Event>, drawn: set<(string, Container)>, digest: string -> string)
    requires w.writes.Reliable? && e in w.exports && !w.exports[e].deleting && found.Found?
    requires !w.exports[e].progress.Completed? && !w.exports[e].progress.Failed?
    requires InjectiveOn(digest, drawn) && Unambiguous(drawn) && KeysAreOwn(w, drawn, digest)
    requires forall c | c in Requested(w.exports[e], found) :: (e.name, c) in drawn
    requires var o := ReconcileExport(w, e, found, digest);
      o.result.Done? && e in o.w.exports && o.w.exports[e].progress.Completed? && LeavesAloneRun(o.w, events, digest, e)
    ensures var t := Run(ReconcileExport(w, e, found, digest).w, events, digest);
      forall c | c in Requested(w.exports[e], found) ::
        var k := ImageKey(digest, e, c);
        IsImageOf(t, k, e) && SameImage(t.images[k].container, c) && IsStored(t.images[k].progress)
  {
    var list := Requested(w.exports[e], found);
    var t := Run(ReconcileExport(w, e, found, digest).w, events, digest);
    hide ReconcileExport, Run, Requested, LeavesAloneRun, InjectiveOn, Unambiguous, KeysAreOwn;
    assert NoForeignKey(w, e, list, digest) by {
      forall c | c in list && ImageKey(digest, e, c) in w.images
        ensures IsImageOf(w, ImageKey(digest, e, c), e)
      {
        KeyIsOwnImage(w, e, c, drawn, digest);
      }
    }
    CompletedForGood(w, e, found, events, digest);
    forall c | c in list
      ensures var k := ImageKey(digest, e, c);
        IsImageOf(t, k, e) && SameImage(t.images[k].container, c) && IsStored(t.images[k].progress)
    {
      assert StoredAt(w, t, e, ImageKey(digest, e, c));
      KeyIsOwnImage(w, e, c, drawn, digest);
    }
  }
}

/** The finalizer of an export, over every run: API calls may fail. */
module ExportFinalizer {
  import opened ContainerNames
  import opened Cluster
  import opened Controllers
  import opened ImageMoves
  import opened ImageResults
  import opened ExportMoves
  import opened ExportTracking
  import opened Runs

  /** An export that has had an image created carries the finalizer. */
  predicate Guarded(w: World) {
    forall e | e in w.exports && e in w.history.imaged :: w.exports[e].finalizer
  }

  lemma {:induction false} CreatingKeepsFinalizer(
      w: World, e: Key, x: Export, list: seq<Container>, digest: string -> string)
    requires e in w.exports && w.exports[e].finalizer && x.finalizer
    ensures var t := CreateImages(w, e, x, list, digest).w; e in t.exports && t.exports[e].finalizer
    decreases |list|
  {
    if list != [] {
      var k := ImageKey(digest, e, list[0]);
      if k in w.images {
        CreatingKeepsFinalizer(w, e, x, list[1..], digest);
      } else {
        var o1 := CreateImage(w, k, NewImage(e, x, list[0]));
        if !o1.result.Error? {
          CreatingKeepsFinalizer(o1.w, e, x, list[1..], digest);
        }
      }
    }
    hide AllCompleted;
  }

  /** Images come only after the finalizer, and the export goes only after its cleanup job. */
  lemma ReconcileGuards(w: World, e: Key, found: Discovery, digest: string -> string)
    requires e in w.exports && (e in w.history.imaged ==> w.exports[e].finalizer)
    ensures var t := ReconcileExport(w, e, found, digest).w;
      && (e in t.exports && e in t.history.imaged ==> t.exports[e].finalizer)
      && (e !in t.exports ==>
            && e in t.history.cleaned && t.history.cleaned[e] == w.exports[e].spec
            && Key(e.ns, CleanupJobName(e.name)) in t.cleanupJobs && w.exports[e].deleting)
  {
    if w.exports[e].deleting {
      DeletionGuards(w, e);
      hide HandleDeletion, CleanupJobName;
    } else {
      var v := ReconcileExportShape(w, e, found, digest);
      hide ReconcileExport, CreateImages, Additional, CleanupJobName;
      if !StopsEarly(w, ReconcileExport(w, e, found, digest), e) {
        hide StopsEarly;
        CreatingKeepsFinalizer(v, e, w.exports[e].(finalizer := true, progress := Running), v.history.asked[e], digest);
      }
    }
  }

  lemma DeletionGuards(w: World, e: Key)
    requires e in w.exports && (e in w.history.imaged ==> w.exports[e].finalizer)
    ensures var t := HandleDeletion(w, e).w;
      && (e in t.exports ==> t.exports[e] == w.exports[e] && t.history.imaged == w.history.imaged)
      && (e !in t.exports ==>
            && e in t.history.cleaned && t.history.cleaned[e] == w.exports[e].spec
            && Key(e.ns, CleanupJobName(e.name)) in t.cleanupJobs)
  {
    hide CleanupJobName;
  }

  lemma StepGuards(w: World, ev: Event, digest: string -> string)
    requires Guarded(w)
    ensures Guarded(Step(w, ev, digest))
  {
    match ev
    case ImageReconcile(k, view, writes) =>
      var w1 := w.(writes := writes);
      if k in w.images && ExportOf(k, w.images[k]) in w.exports {
        var o := Reconcile(w1, k, view);
        ReconcileMoves(w1, k, view);
        ReconcileExports(w1, k, view);
        MoveKeepsDeletedFrom(w1, o, k, view);
      }
      hide Reconcile, Moves, Aggregate;
    case ExportReconcile(e, found, writes) =>
      var w1 := w.(writes := writes);
      if e in w.exports {
        ExportReconcileGuards(w1, e, found, digest);
      }
      hide ReconcileExport;
    case ExportApplied(e, spec) => hide IsImageOf;
    case _ =>
  }

  lemma ExportReconcileGuards(w: World, e: Key, found: Discovery, digest: string -> string)
    requires Guarded(w) && e in w.exports
    ensures Guarded(ReconcileExport(w, e, found, digest).w)
  {
    var t := ReconcileExport(w, e, found, digest).w;
    ReconcileExportFrame(w, e, found, digest);
    ReconcileGuards(w, e, found, digest);
    hide ReconcileExport;
    forall f | f in t.exports && f in t.history.imaged && f != e
      ensures t.exports[f].finalizer
    {
      assert f in t.exports - {e} && (t.exports - {e})[f] == t.exports[f];
      assert f in w.exports && w.exports[f] == t.exports[f];
    }
  }

  /** In every run, an export for which an image was ever created carries the finalizer as long as
      it exists. */
  lemma {:induction false} ImagedExportsAreGuarded(w: World, events: seq<Event>, digest: string -> string)
    requires Guarded(w)
    ensures Guarded(Run(w, events, digest))
    decreases |events|
  {
    if events != [] {
      StepGuards(w, events[0], digest);
      hide Step, Guarded;
      ImagedExportsAreGuarded(Step(w, events[0], digest), events[1..], digest);
    }
  }

  /** So it cannot vanish without its cleanup having been started: the step in which it goes is its
      own reconcile, after a request to delete it, and leaves its cleanup job behind. */
  lemma VanishesOnlyCleaned(before: seq<Event>, ev: Event, digest: string -> string, e: Key)
    requires var w := Run(EMPTY_WORLD, before, digest); e in w.exports && e in w.history.imaged
    requires e !in Step(Run(EMPTY_WORLD, before, digest), ev, digest).exports
    ensures var w := Run(EMPTY_WORLD, before, digest);
      var t := Step(w, ev, digest);
      && ev.ExportReconcile? && ev.e == e && w.exports[e].deleting
      && e in t.history.cleaned && t.history.cleaned[e] == w.exports[e].spec
      && Key(e.ns, CleanupJobName(e.name)) in t.cleanupJobs
  {
    var w := Run(EMPTY_WORLD, before, digest);
    assert Guarded(EMPTY_WORLD);
    ImagedExportsAreGuarded(EMPTY_WORLD, before, digest);
    hide Run;
    VanishingStep(w, ev, digest, e);
    hide Step;
  }

  lemma VanishingStep(w: World, ev: Event, digest: string -> string, e: Key)
    requires Guarded(w) && e in w.exports && e in w.history.imaged && e !in Step(w, ev, digest).exports
    ensures var t := Step(w, ev, digest);
      && ev.ExportReconcile? && ev.e == e && w.exports[e].deleting
      && e in t.history.cleaned && t.history.cleaned[e] == w.exports[e].spec
      && Key(e.ns, CleanupJobName(e.name)) in t.cleanupJobs
  {
    hide CleanupJobName;
    match ev
    case ImageReconcile(k, view, writes) =>
      var w1 := w.(writes := writes);
      if k in w.images && ExportOf(k, w.images[k]) in w.exports {
        ReconcileExports(w1, k, view);
      }
      hide Reconcile, Aggregate;
    case ExportReconcile(f, found, writes) =>
      var w1 := w.(writes := writes);
      if f in w.exports {
        ReconcileGuards(w1, f, found, digest);
        ReconcileExportFrame(w1, f, found, digest);
        hide ReconcileExport;
        assert f != e ==> e in w.exports - {f};
      }
    case ExportApplied(f, spec) => hide IsImageOf;
    case _ =>
  }
}
