/** The status of an export against the states of its images. */
module ExportTracking {
  import opened ContainerNames
  import opened Cluster
  import opened Controllers
  import opened ImageMoves
  import opened ImageResults
  import opened ExportMoves
  import opened Runs

  // ----- keys

  /** The images an export asks for in one reconcile. */
  function Requested(x: Export, found: Discovery): seq<Container> {
    if found.ListFailed? then [] else found.containers + Additional(x.spec.additionalImages)
  }

  /** No requested key belongs to an image of another export. */
  predicate NoForeignKey(w: World, e: Key, list: seq<Container>, digest: string -> string) {
    forall c | c in list :: ImageKey(digest, e, c) in w.images ==> IsImageOf(w, ImageKey(digest, e, c), e)
  }

  ghost predicate NoForeignEvent(w: World, ev: Event, digest: string -> string) {
    ev.ExportReconcile? && ev.e in w.exports ==>
      NoForeignKey(w, ev.e, Requested(w.exports[ev.e], ev.found), digest)
  }

  /** What the digest is applied to: export name, image, tag and sha without a separator. */
  function Text(p: (string, Container)): string {
    p.0 + p.1.image + p.1.tag + p.1.sha
  }

  predicate SameImage(c: Container, d: Container) {
    c.image == d.image && c.tag == d.tag && c.sha == d.sha
  }

  /** `drawn`: the export names and images that ever occur together.  The digest tells their texts
      apart. */
  ghost predicate InjectiveOn(digest: string -> string, drawn: set<(string, Container)>) {
    forall p, q | p in drawn && q in drawn && Digested(digest, p) == Digested(digest, q) :: Text(p) == Text(q)
  }

  /** And a text tells which export and image it was made of. */
  ghost predicate Unambiguous(drawn: set<(string, Container)>) {
    forall p, q | p in drawn && q in drawn && Text(p) == Text(q) :: p.0 == q.0 && SameImage(p.1, q.1)
  }

  lemma InjectiveSeparates(digest: string -> string, drawn: set<(string, Container)>)
    requires InjectiveOn(digest, drawn) && Unambiguous(drawn)
    ensures Separates(digest, drawn)
  {
    hide Text, Digested;
  }

  /** The digest keeps exports apart when equal digests come from the same export. */
  ghost predicate Separates(digest: string -> string, drawn: set<(string, Container)>) {
    forall p, q | p in drawn && q in drawn && Digested(digest, p) == Digested(digest, q) :: p.0 == q.0
  }

  function Digested(digest: string -> string, p: (string, Container)): string {
    digest(Text(p))
  }

  ghost predicate KeysAreOwn(w: World, drawn: set<(string, Container)>, digest: string -> string) {
    forall k | k in w.images ::
      var p := (w.images[k].exportName, w.images[k].container);
      p in drawn && k.name == Digested(digest, p)
  }

  ghost predicate DrawsFrom(w: World, ev: Event, drawn: set<(string, Container)>) {
    ev.ExportReconcile? && ev.e in w.exports ==>
      forall c | c in Requested(w.exports[ev.e], ev.found) :: (ev.e.name, c) in drawn
  }

  /** With a separating digest no export ever meets another one's key. */
  lemma SeparateKeysNeverMeet(w: World, ev: Event, drawn: set<(string, Container)>, digest: string -> string)
    requires Separates(digest, drawn) && KeysAreOwn(w, drawn, digest) && DrawsFrom(w, ev, drawn)
    ensures NoForeignEvent(w, ev, digest)
  {
    if ev.ExportReconcile? && ev.e in w.exports {
      forall c | c in Requested(w.exports[ev.e], ev.found)
        ensures ImageKey(digest, ev.e, c) in w.images ==> IsImageOf(w, ImageKey(digest, ev.e, c), ev.e)
      {
        var k := ImageKey(digest, ev.e, c);
        if k in w.images {
          var p, q := (w.images[k].exportName, w.images[k].container), (ev.e.name, c);
          assert p in drawn && q in drawn && Digested(digest, p) == Digested(digest, q);
        }
      }
    }
  }

  /** A new image has the key of the export and container it was created for. */
  predicate CreatedFor(t: World, k: Key, e: Key, list: seq<Container>, digest: string -> string) {
    && k in t.images && t.images[k].container in list && t.images[k].exportName == e.name
    && k == ImageKey(digest, e, t.images[k].container)
  }

  lemma {:induction false} CreatedKeys(w: World, e: Key, x: Export, list: seq<Container>, digest: string -> string)
    requires e in w.exports && x.spec == w.exports[e].spec && x.deleting == w.exports[e].deleting
    ensures var t := CreateImages(w, e, x, list, digest).w;
      forall k | k in t.images && k !in w.images :: CreatedFor(t, k, e, list, digest)
    decreases |list|
  {
    if list != [] {
      assert list == [list[0]] + list[1..];
      var k := ImageKey(digest, e, list[0]);
      if k in w.images {
        CreatedKeys(w, e, x, list[1..], digest);
      } else {
        var o1 := CreateImage(w, k, NewImage(e, x, list[0]));
        if !o1.result.Error? {
          CreatedKeys(o1.w, e, x, list[1..], digest);
          CreateImagesFrame(o1.w, e, x, list[1..], digest);
          assert k in o1.w.images && CreateImages(o1.w, e, x, list[1..], digest).w.images[k] == o1.w.images[k];
        }
      }
    }
    hide AllCompleted;
  }

  lemma ExportCreatesKeys(w: World, e: Key, found: Discovery, digest: string -> string)
    requires e in w.exports
    ensures var t := ReconcileExport(w, e, found, digest).w;
      forall k | k in t.images && k !in w.images :: CreatedFor(t, k, e, Requested(w.exports[e], found), digest)
  {
    if !w.exports[e].deleting {
      var v := ReconcileExportShape(w, e, found, digest);
      hide ReconcileExport, CreateImages;
      if !StopsEarly(w, ReconcileExport(w, e, found, digest), e) {
        CreatedKeys(v, e, w.exports[e].(finalizer := true, progress := Running),
            Requested(w.exports[e], found), digest);
      }
      hide CreatedFor;
    }
  }

  lemma StepKeepsKeysOwn(w: World, ev: Event, drawn: set<(string, Container)>, digest: string -> string)
    requires KeysAreOwn(w, drawn, digest) && DrawsFrom(w, ev, drawn)
    ensures KeysAreOwn(Step(w, ev, digest), drawn, digest)
  {
    match ev
    case ImageReconcile(k, view, writes) =>
      var w1 := w.(writes := writes);
      if k in w.images {
        ReconcileMoves(w1, k, view);
        MoveKeepsImages(w1, Reconcile(w1, k, view), k, view);
      }
      hide Reconcile, Moves;
    case ExportReconcile(e, found, writes) =>
      var w1 := w.(writes := writes);
      ReconcileExportFrame(w1, e, found, digest);
      if e in w.exports {
        ExportCreatesKeys(w1, e, found, digest);
      }
      hide ReconcileExport;
    case ExportApplied(e, spec) => hide IsImageOf;
    case _ =>
  }

  /** With unambiguous texts and a digest that tells them apart, the object at a requested key is an
      image of that very export and of that very image. */
  lemma KeyIsOwnImage(w: World, e: Key, c: Container, drawn: set<(string, Container)>, digest: string -> string)
    requires InjectiveOn(digest, drawn) && Unambiguous(drawn) && KeysAreOwn(w, drawn, digest)
    requires (e.name, c) in drawn && ImageKey(digest, e, c) in w.images
    ensures var k := ImageKey(digest, e, c); IsImageOf(w, k, e) && SameImage(w.images[k].container, c)
  {
    var k := ImageKey(digest, e, c);
    var p, q := (w.images[k].exportName, w.images[k].container), (e.name, c);
    assert p in drawn && k.name == Digested(digest, p) && Digested(digest, q) == k.name;
    assert Text(p) == Text(q);
    hide Text;
  }

  ghost predicate DrawsFromRun(w: World, events: seq<Event>, drawn: set<(string, Container)>, digest: string -> string)
    decreases |events|
  {
    events == [] || (DrawsFrom(w, events[0], drawn)
        && DrawsFromRun(Step(w, events[0], digest), events[1..], drawn, digest))
  }

  lemma {:induction false} RunKeepsKeysOwn(
      w: World, events: seq<Event>, drawn: set<(string, Container)>, digest: string -> string)
    requires KeysAreOwn(w, drawn, digest) && DrawsFromRun(w, events, drawn, digest)
    ensures KeysAreOwn(Run(w, events, digest), drawn, digest)
    decreases |events|
  {
    if events != [] {
      StepKeepsKeysOwn(w, events[0], drawn, digest);
      hide Step, KeysAreOwn, DrawsFrom;
      RunKeepsKeysOwn(Step(w, events[0], digest), events[1..], drawn, digest);
    }
  }

  // ----- failure

  ghost predicate Tracks(w: World, e: Key) {
    e in w.exports && e !in w.history.deletedFrom ==> (w.exports[e].progress.Failed? <==> AnyFailed(w, e))
  }

  /** An export that never lost an image is FAILED exactly when one of its images is. */
  ghost predicate FailureTracked(w: World) {
    forall e :: Tracks(w, e)
  }

  /** The hypotheses on a run: calls of image reconciles succeed, and keys of exports do not meet. */
  ghost predicate TrackedEvent(w: World, ev: Event, digest: string -> string) {
    (ev.ImageReconcile? ==> ev.writes.Reliable?) && NoForeignEvent(w, ev, digest)
  }

  lemma AggregateFails(w: World, e: Key)
    ensures Aggregate(w, e).Failed? <==> AnyFailed(w, e)
  {
  }

  /** An image that does not become FAILED leaves the failures as they were. */
  lemma SameFailures(w: World, w': World, k: Key, e: Key)
    requires SameExport(w, w', k) && w'.images == w.images[k := w'.images[k]]
    requires w'.images[k].progress.Failed? == w.images[k].progress.Failed?
    ensures AnyFailed(w', e) <==> AnyFailed(w, e)
  {
    if j :| IsImageOf(w, j, e) && w.images[j].progress.Failed? {
      assert IsImageOf(w', j, e);
    }
    if j :| IsImageOf(w', j, e) && w'.images[j].progress.Failed? {
      assert IsImageOf(w, j, e);
    }
  }

  predicate SameExport(w: World, w': World, k: Key) {
    k in w.images && k in w'.images && w'.images[k].exportName == w.images[k].exportName
  }

  lemma OtherFailures(w: World, w': World, k: Key, e: Key)
    requires SameExport(w, w', k) && w'.images == w.images[k := w'.images[k]]
    requires e != ExportOf(k, w.images[k])
    ensures AnyFailed(w', e) <==> AnyFailed(w, e)
  {
    if j :| IsImageOf(w, j, e) && w.images[j].progress.Failed? {
      assert IsImageOf(w', j, e);
    }
    if j :| IsImageOf(w', j, e) && w'.images[j].progress.Failed? {
      assert IsImageOf(w, j, e);
    }
  }

  /** A job that ended for good, or still runs: the branches that end in the export's status. */
  predicate Reports(w: World, k: Key)
    requires k in w.images
  {
    Active(w.images[k].progress) && k in w.jobs && !(JobFailed(w, k) && w.images[k].retries < MAX_RETRIES)
  }

  lemma UnreportedMoves(w: World, o: Outcome, k: Key, view: View)
    requires k in w.images && Moves(w, o, k, view) && !Reports(w, k)
    ensures k in o.w.images && o.w.images[k].progress.Failed? == w.images[k].progress.Failed?
  {
    hide ImageExists, HasSlot, Purged;
  }

  lemma MoveKeepsDeletedFrom(w: World, o: Outcome, k: Key, view: View)
    requires k in w.images && Moves(w, o, k, view)
    ensures o.w.history.deletedFrom == w.history.deletedFrom && o.w.history.imaged == w.history.imaged
         && o.w.history.cleaned == w.history.cleaned
  {
    hide ImageExists, HasSlot;
  }

  lemma ReconcileTracks(w: World, k: Key, view: View, e: Key)
    requires w.writes.Reliable? && Tracks(w, e)
    ensures Tracks(Reconcile(w, k, view).w, e)
  {
    if k in w.images && ExportOf(k, w.images[k]) in w.exports {
      var o := Reconcile(w, k, view);
      ReconcileMoves(w, k, view);
      ReconcileExports(w, k, view);
      MoveKeepsImages(w, o, k, view);
      MoveKeepsDeletedFrom(w, o, k, view);
      if !Reports(w, k) {
        UnreportedMoves(w, o, k, view);
      }
      AggregateFails(o.w, e);
      hide Reconcile, Moves, Aggregate;
      if e != ExportOf(k, w.images[k]) {
        OtherFailures(w, o.w, k, e);
      } else if !Reports(w, k) {
        SameFailures(w, o.w, k, e);
      }
      hide AnyFailed, AllCompletedSwitch;
    }
  }

  /** The create loop marks the export FAILED only for a FAILED image it has found. */
  lemma {:induction false} LoopFailsOnlyForFailed(
      w: World, e: Key, x: Export, list: seq<Container>, digest: string -> string)
    requires e in w.exports && !w.exports[e].progress.Failed? && !x.progress.Failed?
    requires NoForeignKey(w, e, list, digest) && !AnyFailed(w, e)
    ensures var t := CreateImages(w, e, x, list, digest).w; e in t.exports && !t.exports[e].progress.Failed?
    decreases |list|
  {
    if list != [] {
      var k := ImageKey(digest, e, list[0]);
      assert list[0] in list;
      if k in w.images {
        assert IsImageOf(w, k, e);
        hide AllCompleted;
        LoopFailsOnlyForFailed(w, e, x, list[1..], digest);
      } else {
        var img := NewImage(e, x, list[0]);
        var o1 := CreateImage(w, k, img);
        if !o1.result.Error? {
          assert forall j :: IsImageOf(o1.w, j, e) ==> j == k || IsImageOf(w, j, e);
          assert NoForeignKey(o1.w, e, list[1..], digest) by {
            forall c | c in list[1..] && ImageKey(digest, e, c) in o1.w.images
              ensures IsImageOf(o1.w, ImageKey(digest, e, c), e)
            {
              assert c in list;
            }
          }
          hide NoForeignKey, IsImageOf, AllCompleted;
          LoopFailsOnlyForFailed(o1.w, e, x, list[1..], digest);
        }
      }
    }
  }

  lemma ExportReconcileTracks(w: World, e: Key, found: Discovery, digest: string -> string)
    requires Tracks(w, e) && (e in w.exports ==> NoForeignKey(w, e, Requested(w.exports[e], found), digest))
    ensures Tracks(ReconcileExport(w, e, found, digest).w, e)
  {
    var t := ReconcileExport(w, e, found, digest).w;
    ReconcileExportFrame(w, e, found, digest);
    SameFailuresAfterExport(w, t, e, e);
    if e in t.exports && e !in w.history.deletedFrom {
      ExportStatusFollows(w, e, found, digest);
    }
    hide ReconcileExport, AnyFailed;
  }

  lemma SameFailuresAfterExport(w: World, t: World, e: Key, f: Key)
    requires ExportFrame(w, t, e)
    ensures AnyFailed(t, f) <==> AnyFailed(w, f)
  {
    if j :| IsImageOf(w, j, f) && w.images[j].progress.Failed? {
      assert IsImageOf(t, j, f);
    }
    if j :| IsImageOf(t, j, f) && t.images[j].progress.Failed? {
      assert IsImageOf(w, j, f);
    }
  }

  lemma ExportStatusFollows(w: World, e: Key, found: Discovery, digest: string -> string)
    requires e in w.exports && NoForeignKey(w, e, Requested(w.exports[e], found), digest)
    requires w.exports[e].progress.Failed? <==> AnyFailed(w, e)
    ensures var t := ReconcileExport(w, e, found, digest).w;
      e in t.exports ==> (t.exports[e].progress.Failed? <==> w.exports[e].progress.Failed?)
  {
    if !w.exports[e].deleting && !w.exports[e].progress.Failed? {
      var v := ReconcileExportShape(w, e, found, digest);
      hide ReconcileExport;
      if !StopsEarly(w, ReconcileExport(w, e, found, digest), e) {
        var list := Requested(w.exports[e], found);
        RequestKept(w, v, e, list, digest);
        hide NoForeignKey, AnyFailed, CreateImages;
        LoopFailsOnlyForFailed(v, e, w.exports[e].(finalizer := true, progress := Running), list, digest);
      }
    }
    hide CreateImages, NoForeignKey, AnyFailed;
  }

  lemma RequestKept(w: World, w': World, e: Key, list: seq<Container>, digest: string -> string)
    requires w'.images == w.images
    ensures NoForeignKey(w', e, list, digest) <==> NoForeignKey(w, e, list, digest)
    ensures AnyFailed(w', e) <==> AnyFailed(w, e)
  {
    assert forall j :: IsImageOf(w', j, e) <==> IsImageOf(w, j, e);
  }

  lemma ImageDeletionTracks(w: World, k: Key, digest: string -> string, f: Key)
    requires Tracks(w, f)
    ensures Tracks(Step(w, ImageDeleted(k), digest), f)
  {
    var t := Step(w, ImageDeleted(k), digest);
    if f in t.exports && f !in t.history.deletedFrom {
      assert forall j :: IsImageOf(t, j, f) <==> IsImageOf(w, j, f);
      SameFailuresSameImages(w, t, f);
    }
    hide AnyFailed;
  }

  lemma EnvironmentTracks(w: World, ev: Event, digest: string -> string, f: Key)
    requires Tracks(w, f) && !ev.ImageReconcile? && !ev.ExportReconcile? && !ev.ImageDeleted?
    ensures Tracks(Step(w, ev, digest), f)
  {
    var t := Step(w, ev, digest);
    assert t.images == w.images by { hide Tracks; }
    if f in t.exports && f !in t.history.deletedFrom {
      assert forall j :: IsImageOf(t, j, f) <==> IsImageOf(w, j, f) by { hide Tracks; }
      SameFailuresSameImages(w, t, f);
      hide AnyFailed;
      if ev.ExportApplied? && f == ev.e && f !in w.exports {
        NoImagesNoFailure(w, f);
      }
      hide IsImageOf;
    }
  }

  lemma NoImagesNoFailure(w: World, e: Key)
    requires !exists j :: IsImageOf(w, j, e)
    ensures !AnyFailed(w, e)
  {
  }

  lemma SameFailuresSameImages(w: World, t: World, f: Key)
    requires forall j :: IsImageOf(t, j, f) <==> IsImageOf(w, j, f)
    requires forall j | j in t.images :: j in w.images && t.images[j] == w.images[j]
    ensures AnyFailed(t, f) <==> AnyFailed(w, f)
  {
    if j :| IsImageOf(w, j, f) && w.images[j].progress.Failed? {
      assert IsImageOf(t, j, f);
    }
  }

  lemma StepTracks(w: World, ev: Event, digest: string -> string, f: Key)
    requires Tracks(w, f) && TrackedEvent(w, ev, digest)
    ensures Tracks(Step(w, ev, digest), f)
  {
    match ev
    case ImageReconcile(k, view, writes) =>
      var w1 := w.(writes := writes);
      TracksIgnoresWrites(w, writes, f);
      ReconcileTracks(w1, k, view, f);
      hide Reconcile, Tracks;
    case ExportReconcile(e, found, writes) =>
      var w1 := w.(writes := writes);
      TracksIgnoresWrites(w, writes, f);
      if f == e {
        if e in w.exports {
          RequestKept(w, w1, e, Requested(w.exports[e], found), digest);
        }
        ExportReconcileTracks(w1, e, found, digest);
      } else {
        var t := Step(w, ev, digest);
        ReconcileExportFrame(w1, e, found, digest);
        SameFailuresAfterExport(w1, t, e, f);
        hide AnyFailed, ReconcileExport;
        assert f in t.exports ==> f in t.exports - {e} && (t.exports - {e})[f] == t.exports[f];
      }
      hide ReconcileExport, AnyFailed;
    case ImageDeleted(k) =>
      ImageDeletionTracks(w, k, digest, f);
      hide Step, Tracks;
    case _ =>
      EnvironmentTracks(w, ev, digest, f);
      hide Step, Tracks;
  }

  lemma TracksIgnoresWrites(w: World, writes: Writes, f: Key)
    requires Tracks(w, f)
    ensures Tracks(w.(writes := writes), f)
  {
    SameFailuresSameImages(w, w.(writes := writes), f);
    hide AnyFailed;
  }

  lemma EmptyWorldTracked()
    ensures FailureTracked(EMPTY_WORLD)
  {
  }

  ghost predicate TrackedRun(w: World, events: seq<Event>, digest: string -> string)
    decreases |events|
  {
    events == [] || (TrackedEvent(w, events[0], digest) && TrackedRun(Step(w, events[0], digest), events[1..], digest))
  }

  /** At every boundary of a run, an export none of whose images was deleted is FAILED exactly when
      one of its images is FAILED. */
  lemma {:induction false} ExportFailsWithItsImages(w: World, events: seq<Event>, digest: string -> string)
    requires FailureTracked(w) && TrackedRun(w, events, digest)
    ensures var t := Run(w, events, digest);
      forall e | e in t.exports && e !in t.history.deletedFrom ::
        t.exports[e].progress.Failed? <==> exists j :: IsImageOf(t, j, e) && t.images[j].progress.Failed?
    decreases |events|
  {
    if events == [] {
      forall e | e in w.exports && e !in w.history.deletedFrom
        ensures w.exports[e].progress.Failed? <==> exists j :: IsImageOf(w, j, e) && w.images[j].progress.Failed?
      {
        assert Tracks(w, e);
      }
    } else {
      var w' := Step(w, events[0], digest);
      forall e
        ensures Tracks(w', e)
      {
        assert Tracks(w, e);
        StepTracks(w, events[0], digest, e);
      }
      hide Step, Tracks, TrackedEvent;
      assert Run(w, events, digest) == Run(w', events[1..], digest);
      ExportFailsWithItsImages(w', events[1..], digest);
    }
  }

  // ----- the same from what the digest is like

  /** Calls of image reconciles succeed. */
  predicate ImageWritesSucceed(events: seq<Event>) {
    forall ev | ev in events && ev.ImageReconcile? :: ev.writes.Reliable?
  }

  /** A digest that keeps exports apart makes every run tracked. */
  lemma {:induction false} SeparatedRunIsTracked(
      w: World, events: seq<Event>, drawn: set<(string, Container)>, digest: string -> string)
    requires Separates(digest, drawn) && KeysAreOwn(w, drawn, digest)
    requires DrawsFromRun(w, events, drawn, digest) && ImageWritesSucceed(events)
    ensures TrackedRun(w, events, digest)
    decreases |events|
  {
    if events != [] {
      assert events[0] in events;
      SeparateKeysNeverMeet(w, events[0], drawn, digest);
      StepKeepsKeysOwn(w, events[0], drawn, digest);
      hide Step, KeysAreOwn, DrawsFrom, Separates, NoForeignEvent;
      SeparatedRunIsTracked(Step(w, events[0], digest), events[1..], drawn, digest);
    }
  }

  /** From the empty world on, with a digest that keeps the exports apart: an export none of whose
      images was deleted is FAILED exactly when one of its images is. */
  lemma SeparatedExportsFailWithTheirImages(
      events: seq<Event>, drawn: set<(string, Container)>, digest: string -> string)
    requires Separates(digest, drawn)
    requires DrawsFromRun(EMPTY_WORLD, events, drawn, digest) && ImageWritesSucceed(events)
    ensures var t := Run(EMPTY_WORLD, events, digest);
      forall e | e in t.exports && e !in t.history.deletedFrom ::
        t.exports[e].progress.Failed? <==> exists j :: IsImageOf(t, j, e) && t.images[j].progress.Failed?
  {
    assert KeysAreOwn(EMPTY_WORLD, drawn, digest);
    EmptyWorldTracked();
    SeparatedRunIsTracked(EMPTY_WORLD, events, drawn, digest);
    hide *;
    ExportFailsWithItsImages(EMPTY_WORLD, events, digest);
  }

  // ----- FAILED is final

  predicate IsFailed(w: World, k: Key) {
    k in w.images && w.images[k].progress.Failed?
  }

  lemma MoveKeepsFailed(w: World, o: Outcome, k: Key, view: View)
    requires k in w.images && Moves(w, o, k, view)
    ensures IsFailed(w, k) ==> IsFailed(o.w, k)
  {
    hide ImageExists, HasSlot, Purged, EndsJob, BeforeTail;
  }

  /** Only its own deletion ends an image's FAILED. */
  lemma FailedImageStays(w: World, ev: Event, digest: string -> string, j: Key)
    requires IsFailed(w, j) && ev != ImageDeleted(j)
    ensures var t := Step(w, ev, digest); IsFailed(t, j) && t.images[j].exportName == w.images[j].exportName
  {
    match ev
    case ImageReconcile(k, view, writes) =>
      var w1 := w.(writes := writes);
      if k in w.images {
        ReconcileMoves(w1, k, view);
        MoveKeepsImages(w1, Reconcile(w1, k, view), k, view);
        if j == k {
          MoveKeepsFailed(w1, Reconcile(w1, k, view), k, view);
        }
      }
      hide Reconcile, Moves;
    case ExportReconcile(e, found, writes) =>
      ReconcileExportFrame(w.(writes := writes), e, found, digest);
      hide ReconcileExport;
    case ExportApplied(e, spec) => hide IsImageOf;
    case _ =>
  }

  /** An export that is FAILED, or not there, with a FAILED image of it around stays so. */
  ghost predicate FailedOrGone(w: World, e: Key) {
    e in w.exports ==> w.exports[e].progress.Failed?
  }

  lemma ExportStaysFailed(w: World, ev: Event, digest: string -> string, e: Key, j: Key)
    requires IsImageOf(w, j, e) && IsFailed(w, j) && ev != ImageDeleted(j) && FailedOrGone(w, e)
    ensures FailedOrGone(Step(w, ev, digest), e)
  {
    match ev
    case ImageReconcile(k, view, writes) =>
      var w1 := w.(writes := writes);
      FailedImageStays(w, ev, digest, j);
      if k in w.images && ExportOf(k, w.images[k]) in w.exports {
        var o := Reconcile(w1, k, view);
        ReconcileExports(w1, k, view);
        assert IsImageOf(o.w, j, e) && o.w.images[j].progress.Failed?;
        AggregateFails(o.w, e);
      }
      hide Reconcile, Aggregate;
    case ExportReconcile(f, found, writes) =>
      FailedExportReconcile(w.(writes := writes), f, found, digest, e);
      hide ReconcileExport;
    case _ =>
  }

  lemma FailedExportReconcile(w: World, f: Key, found: Discovery, digest: string -> string, e: Key)
    requires FailedOrGone(w, e)
    ensures FailedOrGone(ReconcileExport(w, f, found, digest).w, e)
  {
    var o := ReconcileExport(w, f, found, digest);
    ReconcileExportFrame(w, f, found, digest);
    if f != e {
      hide ReconcileExport;
      if e in o.w.exports {
        assert e in o.w.exports - {f} && (o.w.exports - {f})[e] == o.w.exports[e];
        assert e in w.exports && w.exports[e] == o.w.exports[e];
      }
    } else if e in w.exports && !w.exports[e].deleting {
      var v := ReconcileExportShape(w, e, found, digest);
      hide ReconcileExport;
    } else {
      hide CreateImages;
    }
  }

  /** In every run, failing calls included: a FAILED image stays FAILED until it is deleted, and so
      long its export, if FAILED, stays FAILED until it is gone. */
  lemma {:induction false} FailureIsFinal(w: World, events: seq<Event>, digest: string -> string, e: Key, j: Key)
    requires IsImageOf(w, j, e) && IsFailed(w, j) && ImageDeleted(j) !in events
    ensures var t := Run(w, events, digest);
      && IsImageOf(t, j, e) && IsFailed(t, j)
      && (e in w.exports && w.exports[e].progress.Failed? && e in t.exports ==> t.exports[e].progress.Failed?)
    decreases |events|
  {
    if events != [] {
      assert events[0] in events;
      FailedImageStays(w, events[0], digest, j);
      var w' := Step(w, events[0], digest);
      hide Step;
      FailureIsFinal(w', events[1..], digest, e, j);
      if e in w.exports && w.exports[e].progress.Failed? {
        ExportStaysFailed(w, events[0], digest, e, j);
        if e !in w'.exports {
          GoneStaysGone(w', events[1..], digest, e, j);
        }
      }
    }
  }

  /** The name of an export that is gone is not free while an image of it is around. */
  lemma {:induction false} GoneStaysGone(w: World, events: seq<Event>, digest: string -> string, e: Key, j: Key)
    requires IsImageOf(w, j, e) && IsFailed(w, j) && ImageDeleted(j) !in events && e !in w.exports
    ensures e !in Run(w, events, digest).exports
    decreases |events|
  {
    if events != [] {
      assert events[0] in events;
      FailedImageStays(w, events[0], digest, j);
      GoneAfterStep(w, events[0], digest, e, j);
      hide Step;
      GoneStaysGone(Step(w, events[0], digest), events[1..], digest, e, j);
    }
  }

  lemma GoneAfterStep(w: World, ev: Event, digest: string -> string, e: Key, j: Key)
    requires IsImageOf(w, j, e) && e !in w.exports
    ensures e !in Step(w, ev, digest).exports
  {
    match ev
    case ImageReconcile(k, view, writes) =>
      if k in w.images && ExportOf(k, w.images[k]) in w.exports {
        ReconcileExports(w.(writes := writes), k, view);
      }
      hide Reconcile, Aggregate;
    case ExportReconcile(f, found, writes) =>
      ReconcileExportFrame(w.(writes := writes), f, found, digest);
      hide ReconcileExport;
      if f != e {
        assert e !in w.exports - {f};
      }
    case _ =>
  }
}
