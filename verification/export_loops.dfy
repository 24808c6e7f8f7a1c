/** What an export that is COMPLETED, by whichever controller, has objects for: whether its latest
    create loop reached its end decides it, over runs with failing calls. */
module ExportLoops {
  import opened ContainerNames
  import opened Cluster
  import opened Controllers
  import opened ImageMoves
  import opened ImageResults
  import opened ExportMoves
  import opened ExportTracking
  import opened ImageObjects
  import opened Runs

  // ----- what the loop leaves behind

  /** Some requested key is not taken. */
  ghost predicate LacksKey(w: World, e: Key, list: seq<Container>, digest: string -> string) {
    exists c :: c in list && ImageKey(digest, e, c) !in w.images
  }

  ghost predicate HasFailedKey(w: World, e: Key, list: seq<Container>, digest: string -> string) {
    exists c :: c in list && IsFailed(w, ImageKey(digest, e, c))
  }

  /** A loop that starts with its end not reached either reaches it, and every requested key is taken,
      or is cut short by a failing create or a FAILED image, and its export is not COMPLETED. */
  ghost predicate LoopLeft(t: World, e: Key, list: seq<Container>, digest: string -> string) {
    && e in t.exports && e in t.history.asked
    && (e !in t.history.cut ==> forall c | c in list :: ImageKey(digest, e, c) in t.images)
    && (e in t.history.cut ==>
        && !t.exports[e].progress.Completed?
        && (LacksKey(t, e, list, digest) || HasFailedKey(t, e, list, digest)))
  }

  lemma {:induction false} LoopLeaves(w: World, e: Key, x: Export, list: seq<Container>, digest: string -> string)
    requires e in w.exports && e in w.history.asked && e in w.history.cut
    requires x.progress.Running? && w.exports[e].progress.Running?
    ensures var t := CreateImages(w, e, x, list, digest).w;
      LoopLeft(t, e, list, digest) && t.history.asked == w.history.asked
    decreases |list|
  {
    hide ImageKey, AllCompleted;
    if list != [] {
      var k := ImageKey(digest, e, list[0]);
      assert list[0] in list && forall c :: c in list <==> c == list[0] || c in list[1..];
      if k in w.images {
        if !w.images[k].progress.Failed? {
          LoopLeaves(w, e, x, list[1..], digest);
          TakenStays(w, e, x, list[1..], digest, k);
        }
      } else {
        var o1 := CreateImage(w, k, NewImage(e, x, list[0]));
        if !o1.result.Error? {
          LoopLeaves(o1.w, e, x, list[1..], digest);
          TakenStays(o1.w, e, x, list[1..], digest, k);
        }
      }
    }
  }

  lemma {:induction false} TakenStays(
      w: World, e: Key, x: Export, list: seq<Container>, digest: string -> string, k: Key)
    requires k in w.images
    ensures k in CreateImages(w, e, x, list, digest).w.images
    decreases |list|
  {
    hide ImageKey, AllCompleted;
    if list != [] {
      var j := ImageKey(digest, e, list[0]);
      if j in w.images {
        TakenStays(w, e, x, list[1..], digest, k);
      } else {
        TakenStays(CreateImage(w, j, NewImage(e, x, list[0])).w, e, x, list[1..], digest, k);
      }
    }
  }

  /** With none of the requested images FAILED the loop is cut short if and only if the calls that are
      left do not pay for an object at every missing key, that is, if a create fails. */
  lemma CutShortIff(w: World, e: Key, x: Export, list: seq<Container>, digest: string -> string)
    requires e in w.exports && e in w.history.asked && e in w.history.cut
    requires x.progress.Running? && w.exports[e].progress.Running? && NoneFailed(w, e, list, digest)
    ensures e in CreateImages(w, e, x, list, digest).w.history.cut <==> !Affordable(w, e, list, digest)
  {
    var t := CreateImages(w, e, x, list, digest).w;
    LoopLeaves(w, e, x, list, digest);
    if Affordable(w, e, list, digest) {
      LoopCreates(w, e, x, list, digest);
      hide CreateImages, ImageKey, Affordable, Winner;
      forall c | c in list
        ensures ImageKey(digest, e, c) in t.images && !IsFailed(t, ImageKey(digest, e, c))
      {
        assert ImageKey(digest, e, c) in KeysOf(digest, e, list);
      }
    } else {
      LoopFallsShort(w, e, x, list, digest);
      hide CreateImages, ImageKey, Affordable, NoneFailed;
    }
  }

  // ----- the invariant

  /** Every image asked for in the latest loop has an object of the export at its key. */
  ghost predicate AllAskedOwn(w: World, e: Key, digest: string -> string) {
    e in w.history.asked && forall c | c in w.history.asked[e] :: IsImageOf(w, ImageKey(digest, e, c), e)
  }

  ghost predicate FailedImage(w: World, e: Key) {
    exists j :: IsImageOf(w, j, e) && IsFailed(w, j)
  }

  /** For an export no image of which was deleted: no images without a loop; all asked for, if the
      loop reached its end; otherwise something missing, or FAILED and the export not COMPLETED. */
  ghost predicate LoopInv(w: World, e: Key, digest: string -> string) {
    e in w.exports && e !in w.history.deletedFrom ==>
      && (e !in w.history.asked ==> (forall j :: !IsImageOf(w, j, e)) && !w.exports[e].progress.Completed?)
      && (e in w.history.asked && e !in w.history.cut ==> AllAskedOwn(w, e, digest))
      && (e in w.history.cut ==>
          && e in w.history.asked
          && (|| LacksKey(w, e, w.history.asked[e], digest)
              || (FailedImage(w, e) && !w.exports[e].progress.Completed?)))
  }

  ghost predicate LoopsInv(w: World, digest: string -> string) {
    forall e :: LoopInv(w, e, digest)
  }

  /** What has been asked for is among what is drawn. */
  predicate AskedIsDrawn(w: World, drawn: set<(string, Container)>) {
    forall e | e in w.history.asked :: forall c | c in w.history.asked[e] :: (e.name, c) in drawn
  }

  /** Images and the records of `e` are as before, and the export's progress in one respect. */
  ghost predicate SameForLoop(w: World, t: World, e: Key) {
    && (e in t.history.deletedFrom <==> e in w.history.deletedFrom)
    && (e in t.history.asked <==> e in w.history.asked)
    && (e in w.history.asked ==> t.history.asked[e] == w.history.asked[e])
    && (e in t.history.cut <==> e in w.history.cut)
    && (forall j :: IsImageOf(t, j, e) <==> IsImageOf(w, j, e))
    && (forall j | IsImageOf(w, j, e) && IsFailed(w, j) :: IsFailed(t, j))
    && (e in t.exports ==> e in w.exports)
  }

  /** Steps that keep images and do not touch the records keep the invariant, unless they write
      COMPLETED next to a FAILED image or without any. */
  lemma LoopInvCarries(w: World, t: World, e: Key, digest: string -> string)
    requires LoopInv(w, e, digest) && SameForLoop(w, t, e)
    requires forall c | e in w.history.asked && c in w.history.asked[e] && ImageKey(digest, e, c) in t.images ::
      ImageKey(digest, e, c) in w.images
    requires e in t.exports && t.exports[e].progress.Completed? && !w.exports[e].progress.Completed? ==>
      !FailedImage(t, e) && exists j :: IsImageOf(w, j, e)
    ensures LoopInv(t, e, digest)
  {
    hide ImageKey;
    if e in t.exports && e !in t.history.deletedFrom {
      if e in w.history.cut {
        if LacksKey(w, e, w.history.asked[e], digest) {
          var c :| c in w.history.asked[e] && ImageKey(digest, e, c) !in w.images;
          assert ImageKey(digest, e, c) !in t.images;
        } else {
          var j :| IsImageOf(w, j, e) && IsFailed(w, j);
          assert IsImageOf(t, j, e) && IsFailed(t, j);
          assert FailedImage(t, e);
        }
      }
      hide LacksKey, FailedImage;
    }
  }

  // ----- one event

  lemma MoveKeepsRecords(w: World, o: Outcome, k: Key, view: View)
    requires k in w.images && Moves(w, o, k, view)
    ensures o.w.history.asked == w.history.asked && o.w.history.cut == w.history.cut
    ensures o.w.history.deletedFrom == w.history.deletedFrom
  {
    hide ImageExists, HasSlot, NamesGone;
  }

  /** An image reconcile writes COMPLETED only to an export with an image and none FAILED. */
  lemma ReconcileKeepsLoop(w: World, k: Key, view: View, e: Key, digest: string -> string)
    requires LoopInv(w, e, digest)
    ensures LoopInv(Reconcile(w, k, view).w, e, digest)
  {
    if k in w.images && ExportOf(k, w.images[k]) in w.exports {
      var o := Reconcile(w, k, view);
      ReconcileMoves(w, k, view);
      ReconcileExports(w, k, view);
      MoveKeepsImages(w, o, k, view);
      MoveKeepsRecords(w, o, k, view);
      MoveKeepsFailed(w, o, k, view);
      AggregateCompletes(o.w, e);
      hide Reconcile, Moves, Aggregate, LoopInv, ImageKey;
      assert forall j :: IsImageOf(o.w, j, e) <==> IsImageOf(w, j, e);
      assert SameForLoop(w, o.w, e);
      assert ExportOf(k, w.images[k]) == e ==> IsImageOf(w, k, e);
      LoopInvCarries(w, o.w, e, digest);
    }
  }

  lemma AggregateCompletes(w: World, e: Key)
    ensures Aggregate(w, e).Completed? ==> !FailedImage(w, e)
  {
    if Aggregate(w, e).Completed? && FailedImage(w, e) {
      var j :| IsImageOf(w, j, e) && IsFailed(w, j);
      assert CountsAsUnfinished(w.images[j].progress);
    }
  }

  /** A reconcile of another export creates nothing at a key this one has asked for. */
  lemma OtherReconcileKeepsLoop(
      w: World, f: Key, found: Discovery, e: Key, drawn: set<(string, Container)>, digest: string -> string)
    requires LoopInv(w, e, digest) && f != e && Separates(digest, drawn) && AskedIsDrawn(w, drawn)
    requires f in w.exports ==> forall c | c in Requested(w.exports[f], found) :: (f.name, c) in drawn
    ensures LoopInv(ReconcileExport(w, f, found, digest).w, e, digest)
  {
    var t := ReconcileExport(w, f, found, digest).w;
    ReconcileExportFrame(w, f, found, digest);
    if f in w.exports {
      ExportCreatesKeys(w, f, found, digest);
    }
    OthersRecords(w, t, f, e);
    hide ReconcileExport, LoopInv, Requested, ImageKey, CreatedFor, Separates;
    forall c | e in w.history.asked && c in w.history.asked[e] && ImageKey(digest, e, c) in t.images
      ensures ImageKey(digest, e, c) in w.images
    {
      if ImageKey(digest, e, c) !in w.images {
        SameAsker(t, f, Requested(w.exports[f], found), e, c, drawn, digest);
      }
    }
    LoopInvCarries(w, t, e, digest);
  }

  lemma OthersRecords(w: World, t: World, f: Key, e: Key)
    requires ExportFrame(w, t, f) && f != e
    ensures SameForLoop(w, t, e)
    ensures e in t.exports ==> t.exports[e] == w.exports[e]
  {
    assert e in t.history.asked <==> e in t.history.asked - {f};
    assert e in w.history.asked <==> e in w.history.asked - {f};
    assert e in w.history.asked ==> (t.history.asked - {f})[e] == (w.history.asked - {f})[e];
    assert e in t.history.cut <==> e in t.history.cut - {f};
    assert e in w.history.cut <==> e in w.history.cut - {f};
    assert e in t.exports ==> e in t.exports - {f} && (t.exports - {f})[e] == (w.exports - {f})[e];
  }

  /** With a separating digest a key is asked for by one export only. */
  lemma SameAsker(
      t: World, f: Key, list: seq<Container>, e: Key, c: Container, drawn: set<(string, Container)>,
      digest: string -> string)
    requires Separates(digest, drawn) && (e.name, c) in drawn && forall d | d in list :: (f.name, d) in drawn
    requires CreatedFor(t, ImageKey(digest, e, c), f, list, digest)
    ensures e == f
  {
    var k := ImageKey(digest, e, c);
    var p, q := (e.name, c), (f.name, t.images[k].container);
    assert p in drawn && q in drawn && Digested(digest, p) == k.name && Digested(digest, q) == k.name;
    assert p.0 == q.0;
  }

  lemma OwnReconcileKeepsLoop(w: World, e: Key, found: Discovery, digest: string -> string)
    requires LoopInv(w, e, digest)
    requires e in w.exports ==> NoForeignKey(w, e, Requested(w.exports[e], found), digest)
    ensures LoopInv(ReconcileExport(w, e, found, digest).w, e, digest)
  {
    if e in w.exports {
      var o := ReconcileExport(w, e, found, digest);
      if w.exports[e].deleting {
        DeletingKeepsLoop(w, e, digest);
        hide HandleDeletion, LoopInv;
      } else {
        var v := ReconcileExportShape(w, e, found, digest);
        hide ReconcileExport;
        if StopsEarly(w, o, e) {
          assert SameForLoop(w, o.w, e);
          LoopInvCarries(w, o.w, e, digest);
          hide LoopInv;
        } else {
          var list := Requested(w.exports[e], found);
          RequestKept(w, v, e, list, digest);
          hide CreateImages, NoForeignKey, Requested, LoopInv;
          LoopKeepsInv(v, e, w.exports[e].(finalizer := true, progress := Running), list, digest);
        }
      }
    }
  }

  lemma DeletionKeepsRecords(w: World, e: Key)
    requires e in w.exports
    ensures var t := HandleDeletion(w, e).w;
      && t.images == w.images && t.history == w.history.(cleaned := t.history.cleaned)
      && (e in t.exports ==> t.exports == w.exports)
  {
    hide CleanupJobName;
  }

  lemma DeletingKeepsLoop(w: World, e: Key, digest: string -> string)
    requires LoopInv(w, e, digest) && e in w.exports
    ensures LoopInv(HandleDeletion(w, e).w, e, digest)
  {
    var t := HandleDeletion(w, e).w;
    hide LoopInv;
    DeletionKeepsRecords(w, e);
    hide HandleDeletion;
    assert SameForLoop(w, t, e);
    LoopInvCarries(w, t, e, digest);
  }

  lemma LoopKeepsInv(v: World, e: Key, x: Export, list: seq<Container>, digest: string -> string)
    requires e in v.exports && v.exports[e] == x && x.progress.Running? && e in v.history.cut
    requires e in v.history.asked && v.history.asked[e] == list && NoForeignKey(v, e, list, digest)
    ensures LoopInv(CreateImages(v, e, x, list, digest).w, e, digest)
  {
    var t := CreateImages(v, e, x, list, digest).w;
    LoopLeaves(v, e, x, list, digest);
    CreateImagesFrame(v, e, x, list, digest);
    hide CreateImages, ImageKey;
    forall c | c in list && ImageKey(digest, e, c) in t.images
      ensures IsImageOf(t, ImageKey(digest, e, c), e)
    {
      assert ImageKey(digest, e, c) in v.images ==> IsImageOf(v, ImageKey(digest, e, c), e);
    }
    if HasFailedKey(t, e, list, digest) {
      var c :| c in list && IsFailed(t, ImageKey(digest, e, c));
      assert IsImageOf(t, ImageKey(digest, e, c), e);
      assert FailedImage(t, e);
    }
    hide FailedImage, LacksKey, HasFailedKey, NoForeignKey, ExportFrame;
  }

  lemma EnvironmentKeepsLoop(w: World, ev: Event, e: Key, digest: string -> string)
    requires LoopInv(w, e, digest) && !ev.ImageReconcile? && !ev.ExportReconcile?
    ensures LoopInv(Step(w, ev, digest), e, digest)
  {
    var t := Step(w, ev, digest);
    match ev
    case ExportApplied(f, spec) =>
      AppliedKeepsLoop(w, f, spec, e, digest);
      hide Step, LoopInv;
    case ImageDeleted(k) =>
      DeletedKeepsLoop(w, k, e, digest);
      hide Step, LoopInv;
    case _ =>
      OthersKeepLoop(w, ev, e, digest);
      hide Step, LoopInv;
  }

  lemma AppliedKeepsLoop(w: World, f: Key, spec: ExportSpec, e: Key, digest: string -> string)
    requires LoopInv(w, e, digest)
    ensures LoopInv(Step(w, ExportApplied(f, spec), digest), e, digest)
  {
    var t := Step(w, ExportApplied(f, spec), digest);
    assert t.images == w.images;
    assert forall j :: IsImageOf(t, j, e) <==> IsImageOf(w, j, e);
    if t != w && f == e {
      assert e !in t.history.asked && e !in t.history.cut;
    } else {
      assert SameForLoop(w, t, e);
      assert e in t.exports ==> t.exports[e] == w.exports[e];
      hide LoopInv, Step;
      LoopInvCarries(w, t, e, digest);
    }
  }

  lemma DeletedKeepsLoop(w: World, k: Key, e: Key, digest: string -> string)
    requires LoopInv(w, e, digest)
    ensures LoopInv(Step(w, ImageDeleted(k), digest), e, digest)
  {
    var t := Step(w, ImageDeleted(k), digest);
    assert t.exports == w.exports && t.history.asked == w.history.asked && t.history.cut == w.history.cut;
    assert t.images == w.images - {k};
    if e in w.exports && !IsImageOf(w, k, e) && e !in t.history.deletedFrom {
      var u := t.(history := w.history);
      assert e !in w.history.deletedFrom;
      hide Step;
      assert SameForLoop(w, u, e);
      LoopInvCarries(w, u, e, digest);
      hide LoopInv;
      assert LoopInv(t, e, digest) by { SameRecords(u, t, e, digest); }
    }
  }

  lemma SameRecords(u: World, t: World, e: Key, digest: string -> string)
    requires LoopInv(u, e, digest) && t.images == u.images && t.exports == u.exports && e !in u.history.deletedFrom
    requires t.history.asked == u.history.asked && t.history.cut == u.history.cut
    ensures LoopInv(t, e, digest)
  {
    assert forall j :: IsImageOf(t, j, e) <==> IsImageOf(u, j, e);
    if FailedImage(u, e) {
      var j :| IsImageOf(u, j, e) && IsFailed(u, j);
      assert IsImageOf(t, j, e) && IsFailed(t, j);
    }
  }

  lemma OthersKeepLoop(w: World, ev: Event, e: Key, digest: string -> string)
    requires LoopInv(w, e, digest) && !ev.ImageReconcile? && !ev.ExportReconcile?
    requires !ev.ExportApplied? && !ev.ImageDeleted?
    ensures LoopInv(Step(w, ev, digest), e, digest)
  {
    var t := Step(w, ev, digest);
    assert t.images == w.images && t.history.asked == w.history.asked && t.history.cut == w.history.cut
      && t.history.deletedFrom == w.history.deletedFrom by { hide LoopInv; }
    assert e in t.exports ==> e in w.exports && t.exports[e].progress == w.exports[e].progress by { hide LoopInv; }
    hide Step, LoopInv;
    assert forall j :: IsImageOf(t, j, e) <==> IsImageOf(w, j, e);
    assert SameForLoop(w, t, e);
    LoopInvCarries(w, t, e, digest);
  }

  lemma StepKeepsLoop(w: World, ev: Event, e: Key, drawn: set<(string, Container)>, digest: string -> string)
    requires LoopInv(w, e, digest) && Separates(digest, drawn) && KeysAreOwn(w, drawn, digest)
    requires AskedIsDrawn(w, drawn) && DrawsFrom(w, ev, drawn)
    ensures LoopInv(Step(w, ev, digest), e, digest)
  {
    match ev
    case ImageReconcile(k, view, writes) =>
      LoopIgnoresWrites(w, writes, e, digest);
      ReconcileKeepsLoop(w.(writes := writes), k, view, e, digest);
      hide Reconcile, LoopInv;
    case ExportReconcile(f, found, writes) =>
      var v := w.(writes := writes);
      LoopIgnoresWrites(w, writes, e, digest);
      SeparateKeysNeverMeet(w, ev, drawn, digest);
      hide ReconcileExport, LoopInv, Separates, Requested;
      if f == e {
        if e in w.exports {
          RequestKept(w, v, e, Requested(w.exports[e], found), digest);
        }
        OwnReconcileKeepsLoop(v, e, found, digest);
      } else {
        OtherReconcileKeepsLoop(v, f, found, e, drawn, digest);
      }
    case _ =>
      EnvironmentKeepsLoop(w, ev, e, digest);
      hide Step, LoopInv;
  }

  lemma LoopIgnoresWrites(w: World, writes: Writes, e: Key, digest: string -> string)
    requires LoopInv(w, e, digest)
    ensures LoopInv(w.(writes := writes), e, digest)
  {
    LoopInvCarries(w, w.(writes := writes), e, digest);
    hide LoopInv;
  }

  // ----- every run

  lemma StepKeepsAsked(w: World, ev: Event, drawn: set<(string, Container)>, digest: string -> string)
    requires AskedIsDrawn(w, drawn) && DrawsFrom(w, ev, drawn)
    ensures AskedIsDrawn(Step(w, ev, digest), drawn)
  {
    match ev
    case ImageReconcile(k, view, writes) =>
      var v := w.(writes := writes);
      if k in w.images {
        ReconcileMoves(v, k, view);
        MoveKeepsRecords(v, Reconcile(v, k, view), k, view);
      }
      hide Reconcile, Moves;
    case ExportReconcile(e, found, writes) =>
      var v := w.(writes := writes);
      AskedAfter(v, e, found, digest);
      hide ReconcileExport, Requested;
    case ExportApplied(e, spec) => hide IsImageOf;
    case _ =>
  }

  /** An export reconcile records what its loop was given, if it comes to one. */
  lemma AskedAfter(w: World, e: Key, found: Discovery, digest: string -> string)
    ensures var t := ReconcileExport(w, e, found, digest).w;
      || t.history.asked == w.history.asked
      || (e in w.exports && t.history.asked == w.history.asked[e := Requested(w.exports[e], found)])
  {
    if e in w.exports && !w.exports[e].deleting {
      var v := ReconcileExportShape(w, e, found, digest);
      var o := ReconcileExport(w, e, found, digest);
      hide ReconcileExport, CreateImages;
      if !StopsEarly(w, o, e) {
        LoopLeaves(v, e, w.exports[e].(finalizer := true, progress := Running), v.history.asked[e], digest);
      }
      hide LoopLeft;
    }
    hide CleanupJobName, CreateImages;
  }

  lemma {:induction false} RunKeepsLoops(
      w: World, events: seq<Event>, drawn: set<(string, Container)>, digest: string -> string)
    requires LoopsInv(w, digest) && AskedIsDrawn(w, drawn) && KeysAreOwn(w, drawn, digest)
    requires Separates(digest, drawn) && DrawsFromRun(w, events, drawn, digest)
    ensures var t := Run(w, events, digest);
      LoopsInv(t, digest) && AskedIsDrawn(t, drawn) && KeysAreOwn(t, drawn, digest)
    decreases |events|
  {
    if events != [] {
      var ev, w' := events[0], Step(w, events[0], digest);
      forall e
        ensures LoopInv(w', e, digest)
      {
        assert LoopInv(w, e, digest);
        StepKeepsLoop(w, ev, e, drawn, digest);
      }
      StepKeepsAsked(w, ev, drawn, digest);
      StepKeepsKeysOwn(w, ev, drawn, digest);
      hide Step, LoopInv, AskedIsDrawn, KeysAreOwn, Separates, DrawsFrom;
      RunKeepsLoops(w', events[1..], drawn, digest);
    }
  }

  /** In every run from the empty world with a digest that keeps exports apart, whatever calls fail: an
      export COMPLETED by either controller, no image of which was deleted, has an object of its own at
      every key of its latest create loop if and only if that loop reached its end. */
  lemma CompletedHasAllIff(events: seq<Event>, drawn: set<(string, Container)>, digest: string -> string)
    requires Separates(digest, drawn) && DrawsFromRun(EMPTY_WORLD, events, drawn, digest)
    ensures var t := Run(EMPTY_WORLD, events, digest);
      forall e | e in t.exports && t.exports[e].progress.Completed? && e !in t.history.deletedFrom ::
        e in t.history.asked && (AllAskedOwn(t, e, digest) <==> e !in t.history.cut)
  {
    var t := Run(EMPTY_WORLD, events, digest);
    assert LoopsInv(EMPTY_WORLD, digest) && KeysAreOwn(EMPTY_WORLD, drawn, digest);
    RunKeepsLoops(EMPTY_WORLD, events, drawn, digest);
    hide Run;
    forall e | e in t.exports && t.exports[e].progress.Completed? && e !in t.history.deletedFrom
      ensures e in t.history.asked && (AllAskedOwn(t, e, digest) <==> e !in t.history.cut)
    {
      assert LoopInv(t, e, digest);
      if e in t.history.cut {
        var c :| c in t.history.asked[e] && ImageKey(digest, e, c) !in t.images;
        assert !IsImageOf(t, ImageKey(digest, e, c), e);
      }
    }
  }

  /** And when texts are unambiguous and the digest tells them apart, that object is of the very image
      that was asked for. */
  lemma CompletedHasEachIff(events: seq<Event>, drawn: set<(string, Container)>, digest: string -> string)
    requires InjectiveOn(digest, drawn) && Unambiguous(drawn) && DrawsFromRun(EMPTY_WORLD, events, drawn, digest)
    ensures var t := Run(EMPTY_WORLD, events, digest);
      forall e | e in t.exports && t.exports[e].progress.Completed? && e !in t.history.deletedFrom ::
        && e in t.history.asked
        && ((forall c | c in t.history.asked[e] ::
               var k := ImageKey(digest, e, c); IsImageOf(t, k, e) && SameImage(t.images[k].container, c))
            <==> e !in t.history.cut)
  {
    var t := Run(EMPTY_WORLD, events, digest);
    InjectiveSeparates(digest, drawn);
    CompletedHasAllIff(events, drawn, digest);
    assert KeysAreOwn(EMPTY_WORLD, drawn, digest);
    assert LoopsInv(EMPTY_WORLD, digest);
    RunKeepsLoops(EMPTY_WORLD, events, drawn, digest);
    hide Run, Separates, InjectiveOn, Unambiguous, KeysAreOwn, ImageKey, SameImage, LoopsInv;
    forall e, c | e in t.history.asked && c in t.history.asked[e] && IsImageOf(t, ImageKey(digest, e, c), e)
      ensures SameImage(t.images[ImageKey(digest, e, c)].container, c)
    {
      KeyIsOwnImage(t, e, c, drawn, digest);
    }
  }

  /** The step in which an image reconcile writes COMPLETED takes no key: what was asked for has its
      objects afterwards if and only if it had them before. */
  lemma WritingCompletedTakesNoKey(w: World, k: Key, view: View, e: Key, digest: string -> string)
    requires e in w.exports && !w.exports[e].progress.Completed?
    ensures var t := Reconcile(w, k, view).w;
      e in t.exports && t.exports[e].progress.Completed? ==>
        && k in w.images && ExportOf(k, w.images[k]) == e
        && (AllAskedOwn(t, e, digest) <==> AllAskedOwn(w, e, digest))
  {
    if k in w.images && ExportOf(k, w.images[k]) in w.exports {
      var o := Reconcile(w, k, view);
      ReconcileMoves(w, k, view);
      ReconcileExports(w, k, view);
      MoveKeepsImages(w, o, k, view);
      MoveKeepsRecords(w, o, k, view);
      hide Reconcile, Moves, Aggregate, ImageKey;
      assert forall j :: IsImageOf(o.w, j, e) <==> IsImageOf(w, j, e);
    }
  }
}
