/** What a reconcile of an export changes, whatever API call fails. */
module ExportMoves {
  import opened ContainerNames
  import opened Cluster
  import opened Controllers

  /** Images are only ever added, fresh and for this export; jobs and slots are untouched; of the
      exports only this one changes, and not what it asks for. */
  ghost predicate ExportFrame(w: World, w': World, e: Key) {
    && w'.jobs == w.jobs && w'.activeJobs == w.activeJobs && w'.maxParallelJobs == w.maxParallelJobs
    && w'.exports - {e} == w.exports - {e}
    && (e in w'.exports ==>
        && e in w.exports && w'.exports[e].spec == w.exports[e].spec
        && w'.exports[e].deleting == w.exports[e].deleting)
    && (forall k | k in w.images :: k in w'.images && w'.images[k] == w.images[k])
    && (forall k | k in w'.images && k !in w.images ::
          && w'.images[k].progress.Unset? && w'.images[k].retries == 0 && ExportOf(k, w'.images[k]) == e
          && e in w.exports && w'.images[k].exportPath == w.exports[e].spec.basePath
          && CountOf(w'.history.created, k) == 0 && CountOf(w'.history.lostOf, k) == 0)
    && (forall k | k in w.images ::
          && CountOf(w'.history.created, k) == CountOf(w.history.created, k)
          && CountOf(w'.history.lostOf, k) == CountOf(w.history.lostOf, k))
    && w'.history == w.history.(created := w'.history.created, lostOf := w'.history.lostOf,
                                imaged := w'.history.imaged, cleaned := w'.history.cleaned,
                                asked := w'.history.asked, cut := w'.history.cut)
    && w'.history.asked - {e} == w.history.asked - {e} && w'.history.cut - {e} == w.history.cut - {e}
    && w'.history.imaged <= w.history.imaged + {e}
    && (|| w'.history.cleaned == w.history.cleaned
        || (e in w.exports && w'.history.cleaned == w.history.cleaned[e := w.exports[e].spec]))
  }

  lemma ExportFrameTrans(a: World, b: World, c: World, e: Key)
    requires ExportFrame(a, b, e) && ExportFrame(b, c, e)
    ensures ExportFrame(a, c, e)
  {
  }

  lemma UpdateExportFrame(w: World, e: Key, x: Export)
    requires e in w.exports ==> x.spec == w.exports[e].spec && x.deleting == w.exports[e].deleting
    ensures ExportFrame(w, UpdateExport(w, e, x).w, e)
  {
  }

  lemma CreateImageFrame(w: World, e: Key, k: Key, img: Image)
    requires ExportOf(k, img) == e && img.progress.Unset? && img.retries == 0
    requires e in w.exports && img.exportPath == w.exports[e].spec.basePath
    ensures ExportFrame(w, CreateImage(w, k, img).w, e)
  {
  }

  lemma EndLoopFrame(w: World, e: Key)
    ensures ExportFrame(w, EndLoop(w, e), e)
  {
  }

  lemma {:induction false} CreateImagesFrame(
      w: World, e: Key, x: Export, list: seq<Container>, digest: string -> string)
    requires e in w.exports && x.spec == w.exports[e].spec && x.deleting == w.exports[e].deleting
    ensures ExportFrame(w, CreateImages(w, e, x, list, digest).w, e)
    decreases |list|
  {
    UpdateExportFrame(w, e, x.(progress := Failed));
    assert ExportFrame(w, w, e);
    if list == [] {
      EndLoopFrame(w, e);
      UpdateExportFrame(EndLoop(w, e), e, x.(progress := Completed));
      ExportFrameTrans(w, EndLoop(w, e), UpdateExport(EndLoop(w, e), e, x.(progress := Completed)).w, e);
      hide AllCompleted, ExportFrame, UpdateExport, EndLoop;
    } else {
      var k := ImageKey(digest, e, list[0]);
      var img := NewImage(e, x, list[0]);
      if k in w.images {
        CreateImagesFrame(w, e, x, list[1..], digest);
      } else {
        CreateImageFrame(w, e, k, img);
        var o1 := CreateImage(w, k, img);
        if !o1.result.Error? {
          CreateImagesFrame(o1.w, e, x, list[1..], digest);
          ExportFrameTrans(w, o1.w, CreateImages(o1.w, e, x, list[1..], digest).w, e);
        }
      }
      hide ExportFrame, CreateImage, UpdateExport;
    }
  }

  lemma {:induction false} CreatingCleansNothing(
      w: World, e: Key, x: Export, list: seq<Container>, digest: string -> string)
    ensures var t := CreateImages(w, e, x, list, digest).w;
      t.history.cleaned == w.history.cleaned && t.cleanupJobs == w.cleanupJobs
    decreases |list|
  {
    if list != [] {
      var k := ImageKey(digest, e, list[0]);
      if k in w.images {
        CreatingCleansNothing(w, e, x, list[1..], digest);
      } else {
        CreatingCleansNothing(CreateImage(w, k, NewImage(e, x, list[0])).w, e, x, list[1..], digest);
      }
    }
    hide AllCompleted;
  }

  lemma CleanupJobFrame(w: World, e: Key)
    requires e in w.exports
    ensures ExportFrame(w, CreateCleanupJob(w, e, w.exports[e].spec).w, e)
  {
    hide CleanupJobName;
  }

  lemma ReleaseFrame(w: World, e: Key)
    ensures ExportFrame(w, ReleaseExport(w, e).w, e)
  {
  }

  lemma DeletionFrame(w: World, e: Key)
    requires e in w.exports
    ensures ExportFrame(w, HandleDeletion(w, e).w, e)
  {
    assert ExportFrame(w, w, e);
    var o1 := CreateCleanupJob(w, e, w.exports[e].spec);
    CleanupJobFrame(w, e);
    ReleaseFrame(o1.w, e);
    hide ExportFrame, CreateCleanupJob, ReleaseExport;
    ExportFrameTrans(w, o1.w, ReleaseExport(o1.w, e).w, e);
  }

  // ----- before the create loop

  /** The world the create loop starts from: the finalizer is in place and the status RUNNING. */
  predicate Prepared(w: World, v: World, e: Key, x: Export) {
    && e in w.exports && x == w.exports[e].(finalizer := true, progress := Running)
    && e in v.history.asked
    && v == StartLoop(w.(exports := w.exports[e := x], writes := v.writes), e, v.history.asked[e])
    && (w.writes.Reliable? ==> v.writes.Reliable?)
  }

  predicate Over(x: Export) {
    x.progress.Completed? || x.progress.Failed?
  }

  /** A reconcile that does not reach the loop: at most the finalizer and PENDING are written. */
  predicate StopsEarly(w: World, o: Outcome, e: Key) {
    && e in w.exports && e in o.w.exports
    && o.w == w.(exports := w.exports[e := o.w.exports[e]], writes := o.w.writes)
    && o.w.exports[e] == w.exports[e].(finalizer := o.w.exports[e].finalizer, progress := o.w.exports[e].progress)
    && (w.exports[e].finalizer ==> o.w.exports[e].finalizer)
    && (o.w.exports[e].progress == w.exports[e].progress
        || (w.exports[e].progress.Unset? && o.w.exports[e].progress.Pending?))
    && (o.result.Error? || (o.result.Done? && Over(w.exports[e])))
  }

  /** The writes before the loop: the finalizer, PENDING, RUNNING. */
  function FinalizerWritten(w: World, e: Key): Outcome
    requires e in w.exports
  {
    if w.exports[e].finalizer then Success(w) else UpdateExport(w, e, w.exports[e].(finalizer := true))
  }

  function PendingWritten(w: World, e: Key, x: Export): Outcome {
    if x.progress.Unset? then UpdateExport(w, e, x.(progress := Pending)) else Success(w)
  }

  function RunningWritten(w: World, e: Key, x: Export): Outcome {
    UpdateExport(w, e, x.(progress := Running))
  }

  lemma ReconcileByWrites(w: World, e: Key, found: Discovery, digest: string -> string)
    requires e in w.exports && !w.exports[e].deleting
    ensures var x := w.exports[e].(finalizer := true);
      var o1 := FinalizerWritten(w, e);
      var o2 := PendingWritten(o1.w, e, x);
      var o3 := RunningWritten(o2.w, e, x);
      var o := ReconcileExport(w, e, found, digest);
      if o1.result.Error? then o == o1
      else if Over(x) then o == Success(o1.w)
      else if o2.result.Error? then o == o2
      else if found.ListFailed? then o == Outcome(o2.w, Error)
      else if o3.result.Error? then o == o3
      else
        var list := found.containers + Additional(x.spec.additionalImages);
        o == CreateImages(StartLoop(o3.w, e, list), e, x.(progress := Running), list, digest)
  {
    hide CreateImages, Additional;
  }

  lemma WritesSoFar(w: World, e: Key)
    requires e in w.exports
    ensures var x := w.exports[e].(finalizer := true);
      var o1 := FinalizerWritten(w, e);
      var o2 := PendingWritten(o1.w, e, x);
      && (o1.result.Error? ==> o1.w == w)
      && (!o1.result.Error? ==> o1.w == w.(exports := w.exports[e := x], writes := o1.w.writes))
      && (!o1.result.Error? ==> o2.result.Error? ==> o2.w == o1.w)
      && (!o1.result.Error? && !o2.result.Error? ==>
            var p := if x.progress.Unset? then Pending else x.progress;
            o2.w == w.(exports := w.exports[e := x.(progress := p)], writes := o2.w.writes))
      && (w.writes.Reliable? ==> !o1.result.Error? && !o2.result.Error? && o2.w.writes.Reliable?)
  {
  }

  lemma WritesReachLoop(w: World, v: World, e: Key, x: Export, p: Progress)
    requires v == w.(exports := w.exports[e := x.(progress := p)], writes := v.writes)
    ensures var o := RunningWritten(v, e, x);
      && (o.result.Error? ==> o.w == v)
      && (!o.result.Error? ==> o.w == w.(exports := w.exports[e := x.(progress := Running)], writes := o.w.writes))
      && (v.writes.Reliable? ==> !o.result.Error? && o.w.writes.Reliable?)
  {
  }

  /** A reconcile of an export that is not being deleted stops early, or is the create loop. */
  lemma ReconcileExportShape(w: World, e: Key, found: Discovery, digest: string -> string) returns (v: World)
    requires e in w.exports && !w.exports[e].deleting
    ensures var o := ReconcileExport(w, e, found, digest);
      var x := w.exports[e].(finalizer := true, progress := Running);
      || StopsEarly(w, o, e)
      || (&& found.Found? && !Over(w.exports[e]) && Prepared(w, v, e, x)
          && v.history.asked[e] == found.containers + Additional(x.spec.additionalImages)
          && o == CreateImages(v, e, x, v.history.asked[e], digest))
    ensures w.writes.Reliable? && found.Found? && !Over(w.exports[e]) ==>
      var x := w.exports[e].(finalizer := true, progress := Running);
      && Prepared(w, v, e, x)
      && v.history.asked[e] == found.containers + Additional(x.spec.additionalImages)
      && ReconcileExport(w, e, found, digest) == CreateImages(v, e, x, v.history.asked[e], digest)
  {
    ReconcileByWrites(w, e, found, digest);
    WritesSoFar(w, e);
    var x := w.exports[e].(finalizer := true);
    var o1 := FinalizerWritten(w, e);
    var o2 := PendingWritten(o1.w, e, x);
    var o3 := RunningWritten(o2.w, e, x);
    var list := if found.Found? then found.containers + Additional(x.spec.additionalImages) else [];
    v := StartLoop(o3.w, e, list);
    hide ReconcileExport, CreateImages, Additional, FinalizerWritten, PendingWritten, RunningWritten;
    if !o1.result.Error? && !o2.result.Error? {
      WritesReachLoop(w, o2.w, e, x, o2.w.exports[e].progress);
    }
  }

  lemma StopsEarlyFrame(w: World, o: Outcome, e: Key)
    requires StopsEarly(w, o, e)
    ensures ExportFrame(w, o.w, e)
  {
  }

  lemma PreparedFrame(w: World, v: World, e: Key, x: Export)
    requires Prepared(w, v, e, x)
    ensures ExportFrame(w, v, e)
  {
  }

  lemma ReconcileExportFrame(w: World, e: Key, found: Discovery, digest: string -> string)
    ensures ExportFrame(w, ReconcileExport(w, e, found, digest).w, e)
  {
    var o := ReconcileExport(w, e, found, digest);
    if e !in w.exports {
      assert ExportFrame(w, w, e);
    } else if w.exports[e].deleting {
      DeletionFrame(w, e);
      hide HandleDeletion;
    } else {
      var v := ReconcileExportShape(w, e, found, digest);
      hide ReconcileExport;
      if StopsEarly(w, o, e) {
        StopsEarlyFrame(w, o, e);
      } else {
        var x := w.exports[e].(finalizer := true, progress := Running);
        PreparedFrame(w, v, e, x);
        hide ExportFrame, CreateImages;
        CreateImagesFrame(v, e, x, found.containers + Additional(x.spec.additionalImages), digest);
        ExportFrameTrans(w, v, o.w, e);
      }
    }
  }
}
