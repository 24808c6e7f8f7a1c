/** The worlds in which plausible claims fail are reached from the empty one: whole runs, from the
    first export applied to the claim refuted. */
module RefutingRuns {
  import opened Sequences
  import opened ContainerNames
  import opened Cluster
  import opened Controllers
  import opened ImageMoves
  import opened ImageResults
  import opened ImageObjects
  import opened ExportMoves
  import opened ExportTracking
  import opened ExportFinalizer
  import opened ExportCompletion
  import opened ExportDeletion
  import opened FailureReports
  import opened FailureRepairs
  import opened PurgeReach
  import opened Runs
  import opened Slots
  import opened Liveness
  import opened Presence
  import opened StoragePaths
  import opened StoredArchives
  import opened Witnesses
  import Disc = Discovery

  /** Nothing has happened to jobs, slots and archives yet. */
  predicate Quiet(w: World) {
    && w.jobs == map[] && w.cleanupJobs == {} && w.activeJobs == 0 && w.history.lost == 0 && w.history.succeeded == {}
    && w.history.archives == {} && w.history.edited == {} && w.history.cleaned == map[]
  }

  predicate Begun(w: World, e: Key, spec: ExportSpec) {
    e in w.exports && w.exports[e].spec == spec && !w.exports[e].deleting
  }

  lemma ExportArrives(w: World, e: Key, spec: ExportSpec, digest: string -> string)
    requires Quiet(w) && e !in w.exports && forall k | k in w.images :: w.images[k].exportName != e.name
    ensures var t := Step(w, ExportApplied(e, spec), digest);
      && Quiet(t) && t.images == w.images && t.exports == w.exports[e := Export(spec, Unset, false, false)]
  {
    assert !exists j :: IsImageOf(w, j, e);
    hide IsImageOf;
  }

  /** The first reconcile of an export creates an object at every requested key. */
  lemma ExportCreates(w: World, e: Key, list: seq<Container>, digest: string -> string)
    requires Quiet(w) && e in w.exports && !w.exports[e].deleting && w.exports[e].progress.Unset?
    requires w.exports[e].spec.additionalImages == []
    requires forall c | c in list :: ImageKey(digest, e, c) !in w.images
    ensures var t := Step(w, ExportReconcile(e, Found(list), Reliable), digest);
      && Quiet(t) && Begun(t, e, w.exports[e].spec) && Creates(w, t, e, w.exports[e], list, digest)
      && t.exports.Keys == w.exports.Keys
      && (forall f | f in w.exports && f != e :: t.exports[f] == w.exports[f])
      && (list != [] ==> t.exports[e].finalizer)
  {
    var v := w.(writes := Reliable);
    var t := ReconcileExport(v, e, Found(list), digest).w;
    assert Requested(w.exports[e], Found(list)) == list;
    Disc.ReconcileCreates(v, e, Found(list), digest);
    ReconcileExportFrame(v, e, Found(list), digest);
    hide Creates, Additional;
    StaysGuarded(v, e, Found(list), digest);
    hide ReconcileExport;
    forall f | f in w.exports && f != e
      ensures f in t.exports && t.exports[f] == w.exports[f]
    {
      assert f in v.exports - {e} && (v.exports - {e})[f] == v.exports[f];
      assert f in t.exports - {e} && (t.exports - {e})[f] == t.exports[f];
    }
    assert t.exports.Keys == w.exports.Keys by {
      forall f | f in t.exports
        ensures f in w.exports
      {
        if f != e {
          assert f in t.exports - {e};
        }
      }
    }
    assert t.history.cleaned == map[] && Quiet(t);
  }

  /** Such a reconcile keeps the export, with its finalizer, and creates no cleanup job. */
  lemma StaysGuarded(w: World, e: Key, found: Controllers.Discovery, digest: string -> string)
    requires w.writes.Reliable? && e in w.exports && !w.exports[e].deleting && found.Found?
    requires w.exports[e].progress.Unset?
    ensures var t := ReconcileExport(w, e, found, digest).w;
      && e in t.exports && t.exports[e].finalizer
      && t.history.cleaned == w.history.cleaned && t.cleanupJobs == w.cleanupJobs
  {
    var v := ReconcileExportShape(w, e, found, digest);
    var x := w.exports[e].(finalizer := true, progress := Running);
    hide ReconcileExport, CreateImages;
    CreatingKeepsFinalizer(v, e, x, Requested(w.exports[e], found), digest);
    CreatingCleansNothing(v, e, x, Requested(w.exports[e], found), digest);
  }

  /** An export applied to an empty cluster, and reconciled once. */
  function Opening(e: Key, spec: ExportSpec, list: seq<Container>): seq<Event> {
    [ExportApplied(e, spec), ExportReconcile(e, Found(list), Reliable)]
  }

  lemma Opened(e: Key, spec: ExportSpec, list: seq<Container>, digest: string -> string)
    requires spec.additionalImages == [] && list != []
    ensures var t := Run(EMPTY_WORLD, Opening(e, spec, list), digest);
      && Quiet(t) && Begun(t, e, spec) && t.exports[e].finalizer && t.exports.Keys == {e}
      && t.images.Keys == KeysOf(digest, e, list)
      && (forall k | k in t.images :: t.images[k] == Image(Winner(digest, e, list, k), e.name, spec.basePath, Unset, 0))
  {
    var w := Step(EMPTY_WORLD, ExportApplied(e, spec), digest);
    ExportArrives(EMPTY_WORLD, e, spec, digest);
    assert w.exports.Keys == {e};
    hide Step;
    ExportCreates(w, e, list, digest);
    RunCons(EMPTY_WORLD, ExportApplied(e, spec), [ExportReconcile(e, Found(list), Reliable)], digest);
    RunCons(w, ExportReconcile(e, Found(list), Reliable), [], digest);
    assert Opening(e, spec, list) == [ExportApplied(e, spec)] + [ExportReconcile(e, Found(list), Reliable)];
    assert [ExportReconcile(e, Found(list), Reliable)] == [ExportReconcile(e, Found(list), Reliable)] + [];
    hide KeysOf, Winner;
  }

  // ----- one image, from its creation to its archive

  predicate OthersUntouched(w: World, k: Key) {
    forall j | j in w.images && j != k :: w.images[j].progress.Unset?
  }

  /** Nobody else of the name stands in the way. */
  predicate Unrivalled(w: World, k: Key)
    requires k in w.images
  {
    forall j | j in w.images && j != k :: w.images[j].progress.Unset? || NameOf(w, j) != NameOf(w, k)
  }

  lemma BecomesTwice(w: World, v: World, t: World, k: Key, p: Progress, r: nat, p': Progress, r': nat)
    requires k in w.images && Becomes(w, v, k, p, r) && k in v.images && Becomes(v, t, k, p', r')
    ensures Becomes(w, t, k, p', r')
  {
  }

  lemma NobodyStands(w: World, k: Key)
    requires k in w.images && Unrivalled(w, k)
    ensures !ImageExists(w, k)
  {
  }

  lemma CalmRuns(w: World, k: Key, digest: string -> string)
    requires Ready(w, k) && w.images[k].progress.Unset? && k !in w.jobs && HasSlot(w, k) && Unrivalled(w, k)
    ensures var t := Run(w, [Calmly(k), Calmly(k)], digest);
      && Becomes(w, t, k, Running, w.images[k].retries)
      && t.jobs == w.jobs[k := NewJob(w.images[k])] && t.activeJobs == w.activeJobs + 1
      && TargetNow(w, k) in t.history.archives && t.exports == w.exports
  {
    var r := w.images[k].retries;
    var w1 := Step(w, Calmly(k), digest);
    CalmAdopts(w, k, digest);
    hide Step;
    NobodyStands(w1, k);
    hide ImageExists, Unrivalled;
    RunPair(w, Calmly(k), Calmly(k), digest);
    hide Run;
    CalmStarts(w1, k, digest);
    var t := Step(w1, Calmly(k), digest);
    assert TargetNow(w1, k) == TargetNow(w, k);
    assert NewJob(w1.images[k]) == NewJob(w.images[k]);
    BecomesTwice(w, w1, t, k, Pending, r, Running, r);
    hide Becomes, TargetNow, HasSlot;
  }

  lemma RunPair(w: World, a: Event, b: Event, digest: string -> string)
    ensures Run(w, [a, b], digest) == Step(Step(w, a, digest), b, digest)
  {
    hide Step;
    RunCons(w, a, [b], digest);
    RunCons(Step(w, a, digest), b, [], digest);
    assert [a, b] == [a] + [b] && [b] == [b] + [];
  }

  predicate SameButProgress(w: World, t: World) {
    && t.exports.Keys == w.exports.Keys
    && (forall f | f in w.exports :: t.exports[f] == w.exports[f].(progress := t.exports[f].progress))
  }

  /** The events that store one image. */
  function Storing(k: Key): seq<Event> {
    [Calmly(k), Calmly(k)] + [JobSucceeds(k), Calmly(k)]
  }

  /** One image of an export is stored while the others are not looked at, and the export is
      COMPLETED. */
  lemma OneStored(w: World, k: Key, e: Key, digest: string -> string)
    requires Quiet(w) && IsImageOf(w, k, e) && e in w.exports && w.images[k].progress.Unset? && OthersUntouched(w, k)
    requires w.exports[e].spec.maxConcurrentJobs >= 1
    ensures var t := Run(w, Storing(k), digest);
      && Sets(w, t, k, Completed, w.images[k].retries) && t.jobs == map[] && t.cleanupJobs == {} && t.activeJobs == 0
      && t.exports.Keys == w.exports.Keys && t.exports[e] == w.exports[e].(progress := Completed)
      && SameButProgress(w, t)
      && t.history.cut == w.history.cut && t.history.deletedFrom == w.history.deletedFrom
      && TargetNow(w, k) in t.history.archives && NameOf(w, k) in t.history.succeeded
      && t.history.cleaned == map[]
  {
    hide Run, TargetNow;
    var w1 := Run(w, [Calmly(k), Calmly(k)], digest);
    CalmRuns(w, k, digest);
    RunAppend(w, [Calmly(k), Calmly(k)], [JobSucceeds(k), Calmly(k)], digest);
    Finishes(w1, k, e, digest);
    BecomesFrame(w, w1, k, Running, w.images[k].retries);
  }

  lemma BecomesFrame(w: World, t: World, k: Key, p: Progress, r: nat)
    requires k in w.images && Becomes(w, t, k, p, r)
    ensures Sets(w, t, k, p, r)
  {
  }

  /** The second half: a job that has not ended yet succeeds and is cleaned up. */
  lemma Finishes(w: World, k: Key, e: Key, digest: string -> string)
    requires IsImageOf(w, k, e) && e in w.exports && w.images[k].progress.Running? && OthersUntouched(w, k)
    requires w.jobs == map[k := NewJob(w.images[k])]
    ensures var t := Run(w, [JobSucceeds(k), Calmly(k)], digest);
      && Sets(w, t, k, Completed, w.images[k].retries) && t.jobs == map[] && t.cleanupJobs == w.cleanupJobs
      && t.activeJobs == w.activeJobs - 1
      && SameButProgress(w, t)
      && t.history.cut == w.history.cut && t.history.deletedFrom == w.history.deletedFrom
      && t.exports.Keys == w.exports.Keys && t.exports[e] == w.exports[e].(progress := Completed)
      && w.history.archives <= t.history.archives && NameOf(w, k) in t.history.succeeded
      && t.history.cleaned == w.history.cleaned
  {
    var w2 := Step(w, JobSucceeds(k), digest);
    JobSucceedsOnly(w, k, digest);
    RunPair(w, JobSucceeds(k), Calmly(k), digest);
    hide Step, Run;
    forall j | IsImageOf(w2, j, e) && j != k
      ensures !CountsAsUnfinished(w2.images[j].progress)
    {
      assert w.images[j].progress.Unset?;
    }
    StoringCompletes(w2, k, e, digest);
    hide OthersUntouched;
  }

  lemma JobSucceedsOnly(w: World, k: Key, digest: string -> string)
    requires k in w.jobs
    ensures var t := Step(w, JobSucceeds(k), digest);
      && t.images == w.images && t.exports == w.exports && t.activeJobs == w.activeJobs
          && t.cleanupJobs == w.cleanupJobs
      && t.jobs == w.jobs[k := w.jobs[k].(succeeded := w.jobs[k].succeeded + 1)]
      && t.history == w.history.(succeeded := w.history.succeeded + {w.jobs[k].fullName})
  {
  }

  // ----- COMPLETED without the images

  /** An export asks for two images with one key: it ends COMPLETED with an object for the first of
      them only. */
  lemma CompletedWithoutImage(e: Key, spec: ExportSpec, c: Container, d: Container, digest: string -> string)
    requires spec.additionalImages == [] && spec.maxConcurrentJobs >= 1
    requires ImageKey(digest, e, c) == ImageKey(digest, e, d) && !SameImage(c, d)
    ensures var k := ImageKey(digest, e, c);
      var t := Run(EMPTY_WORLD, Opening(e, spec, [c, d]) + Storing(k), digest);
      && e in t.exports && t.exports[e].progress.Completed?
      && t.images.Keys == {k} && t.images[k].progress.Completed? && t.images[k].container == c
      && (forall j | j in t.images :: !SameImage(t.images[j].container, d))
  {
    hide Run, Opening, Storing;
    var k := ImageKey(digest, e, c);
    Opened(e, spec, [c, d], digest);
    KeysOfTwo(digest, e, c, d);
    hide KeysOf, Winner, ImageKey;
    var w := Run(EMPTY_WORLD, Opening(e, spec, [c, d]), digest);
    assert w.images.Keys == {k} && w.images[k].container == c;
    assert IsImageOf(w, k, e);
    RunAppend(EMPTY_WORLD, Opening(e, spec, [c, d]), Storing(k), digest);
    OneStored(w, k, e, digest);
  }

  lemma KeysOfTwo(digest: string -> string, e: Key, c: Container, d: Container)
    ensures KeysOf(digest, e, [c, d]) == {ImageKey(digest, e, c), ImageKey(digest, e, d)}
    ensures Winner(digest, e, [c, d], ImageKey(digest, e, c)) == c
  {
    assert c in [c, d] && d in [c, d];
  }

  /** For instance `nginx1:0` and `nginx:10`, under every digest. */
  lemma ForInstanceNginx(e: Key, spec: ExportSpec, digest: string -> string)
    requires spec.additionalImages == [] && spec.maxConcurrentJobs >= 1
    ensures Parse("nginx1:0").Ok? && Parse("nginx:10").Ok?
    ensures var c, d := Parse("nginx1:0").value, Parse("nginx:10").value;
      var t := Run(EMPTY_WORLD, Opening(e, spec, [c, d]) + Storing(ImageKey(digest, e, c)), digest);
      && e in t.exports && t.exports[e].progress.Completed?
      && (forall j | j in t.images :: !SameImage(t.images[j].container, d))
  {
    hide *;
    NginxCollides(e, digest);
    CompletedWithoutImage(e, spec, Parse("nginx1:0").value, Parse("nginx:10").value, digest);
  }

  lemma NginxCollides(e: Key, digest: string -> string)
    ensures Parse("nginx1:0").Ok? && Parse("nginx:10").Ok?
    ensures var c, d := Parse("nginx1:0").value, Parse("nginx:10").value;
      ImageKey(digest, e, c) == ImageKey(digest, e, d) && !SameImage(c, d)
  {
    hide Parse, SameImage, ImageKey;
    MovedBorderCollides("nginx", "1", "0", e, digest);
    assert "nginx" + "1" == "nginx1" && "1" + "0" == "10";
    assert "nginx1" + ":" + "0" == "nginx1:0" && "nginx" + ":" + "10" == "nginx:10";
  }

  /** An export of two images ends COMPLETED when one is stored and the other not yet looked at. */
  lemma CompletedTooEarlyRun(e: Key, spec: ExportSpec, c: Container, d: Container, digest: string -> string)
    requires spec.additionalImages == [] && spec.maxConcurrentJobs >= 1
    requires ImageKey(digest, e, c) != ImageKey(digest, e, d)
    ensures var a, b := ImageKey(digest, e, c), ImageKey(digest, e, d);
      var t := Run(EMPTY_WORLD, Opening(e, spec, [c, d]) + Storing(a), digest);
      e in t.exports && t.exports[e].progress.Completed? && IsImageOf(t, b, e) && t.images[b].progress.Unset?
  {
    hide Run, Opening, Storing;
    var a, b := ImageKey(digest, e, c), ImageKey(digest, e, d);
    Opened(e, spec, [c, d], digest);
    KeysOfTwo(digest, e, c, d);
    hide KeysOf, Winner, ImageKey;
    var w := Run(EMPTY_WORLD, Opening(e, spec, [c, d]), digest);
    assert w.images.Keys == {a, b};
    assert IsImageOf(w, a, e) && IsImageOf(w, b, e);
    RunAppend(EMPTY_WORLD, Opening(e, spec, [c, d]), Storing(a), digest);
    OneStored(w, a, e, digest);
  }

  // ----- an orphaned archive

  /** An image is stored, the export's place is edited to one that does not reach it, and the export
      is deleted: it is gone, its cleanup job was created, and the archive is not under the path the
      job was given. */
  lemma EditOrphansArchive(e: Key, before: ExportSpec, after: ExportSpec, c: Container, digest: string -> string)
    requires before.additionalImages == [] && before.maxConcurrentJobs >= 1
    requires IsExportName(e.name) && !KeepsReach(e, before, after)
    ensures var k := ImageKey(digest, e, c);
      var leaving := [ExportEdited(e, after), ExportDeleteRequested(e)] + [ExportReconcile(e, ListFailed, Reliable)];
      var t := Run(EMPTY_WORLD, Opening(e, before, [c]) + Storing(k) + leaving, digest);
      var a := Archive(e, before.bucket, before.basePath, c.fullName);
      && e !in t.exports && Key(e.ns, CleanupJobName(e.name)) in t.cleanupJobs
      && a in t.history.archives && c.fullName in t.history.succeeded
      && e in t.history.cleaned && !Hits(CleanupOf(e, t.history.cleaned[e]), LocationOf(a))
  {
    var k := ImageKey(digest, e, c);
    var leaving := [ExportEdited(e, after), ExportDeleteRequested(e)] + [ExportReconcile(e, ListFailed, Reliable)];
    var a := Archive(e, before.bucket, before.basePath, c.fullName);
    Opened(e, before, [c], digest);
    assert KeysOf(digest, e, [c]) == {k};
    var w := Run(EMPTY_WORLD, Opening(e, before, [c]), digest);
    assert IsImageOf(w, k, e) && TargetNow(w, k) == a && NameOf(w, k) == c.fullName;
    RunAppend(EMPTY_WORLD, Opening(e, before, [c]), Storing(k), digest);
    RunAppend(EMPTY_WORLD, Opening(e, before, [c]) + Storing(k), leaving, digest);
    hide Run, Opening, Storing, KeysOf;
    OneStored(w, k, e, digest);
    hide CleanupJobName, KeepsReach, TargetNow;
    Leaves(Run(w, Storing(k), digest), e, after, digest);
    OutOfReach(e, before, after, a);
  }

  /** A finished export is edited, asked to be deleted, and goes. */
  lemma Leaves(w: World, e: Key, after: ExportSpec, digest: string -> string)
    requires e in w.exports && w.exports[e].finalizer && w.cleanupJobs == {}
    ensures
      var leaving := [ExportEdited(e, after), ExportDeleteRequested(e)] + [ExportReconcile(e, ListFailed, Reliable)];
      var t := Run(w, leaving, digest);
      && e !in t.exports && Key(e.ns, CleanupJobName(e.name)) in t.cleanupJobs
      && t.history.archives == w.history.archives && t.history.succeeded == w.history.succeeded
      && e in t.history.cleaned && t.history.cleaned[e] == after
  {
    var w1 := Step(w, ExportEdited(e, after), digest);
    assert w1.exports == w.exports[e := w.exports[e].(spec := after)] && w1.cleanupJobs == {};
    assert w1.history == w.history.(edited := w1.history.edited);
    var w2 := Step(w1, ExportDeleteRequested(e), digest);
    assert w2 == w1.(exports := w1.exports[e := w1.exports[e].(deleting := true)]);
    var last := ExportReconcile(e, ListFailed, Reliable);
    var t := Step(w2, last, digest);
    assert t == HandleDeletion(w2.(writes := Reliable), e).w;
    hide Step;
    RunPair(w, ExportEdited(e, after), ExportDeleteRequested(e), digest);
    RunAppend(w, [ExportEdited(e, after), ExportDeleteRequested(e)], [last], digest);
    RunCons(w2, last, [], digest);
    assert [last] == [last] + [];
    hide Run;
    assert t == Run(w, [ExportEdited(e, after), ExportDeleteRequested(e)] + [last], digest)
        by { RunNothing(t, digest); }
  }

  lemma RunNothing(w: World, digest: string -> string)
    ensures Run(w, [], digest) == w
  {
  }

  lemma OutOfReach(e: Key, before: ExportSpec, after: ExportSpec, a: Archive)
    requires IsExportName(e.name) && !KeepsReach(e, before, after)
    requires a.owner == e && a.bucket == before.bucket && a.basePath == before.basePath
    ensures !Hits(CleanupOf(e, after), LocationOf(a))
  {
    CleanupHitsIff(after.bucket, after.basePath, e.name, before.bucket, before.basePath, e.name, a.fullName);
    SameEnd(Root(after.bucket, after.basePath), Root(before.bucket, before.basePath), e.name);
    hide ParseS3Path, ArchivePath, CleanupPath, Hits, Root;
  }

  // ----- a starved image

  /** With a limit of one, deleting the one job from outside starves its image for good. */
  lemma LostJobStarvesRun(e: Key, spec: ExportSpec, c: Container, digest: string -> string)
    requires spec.additionalImages == [] && spec.maxConcurrentJobs == 1
    ensures var k := ImageKey(digest, e, c);
      var t := Run(EMPTY_WORLD, Opening(e, spec, [c]) + [Calmly(k), Calmly(k)] + [JobDeleted(k), Calmly(k)], digest);
      && t.images.Keys == {k} && t.images[k].progress.Pending? && !CanChange(t, digest)
  {
    var k := ImageKey(digest, e, c);
    hide Run, Opening, CanChange;
    Opened(e, spec, [c], digest);
    KeyOfOne(digest, e, c);
    var w := Run(EMPTY_WORLD, Opening(e, spec, [c]), digest);
    RunAppend(EMPTY_WORLD, Opening(e, spec, [c]), [Calmly(k), Calmly(k)], digest);
    RunAppend(EMPTY_WORLD, Opening(e, spec, [c]) + [Calmly(k), Calmly(k)], [JobDeleted(k), Calmly(k)], digest);
    hide KeysOf, ImageKey, Winner;
    assert w.images.Keys == {k};
    LimitOfOne(w, k, e, digest);
  }

  lemma KeyOfOne(digest: string -> string, e: Key, c: Container)
    ensures KeysOf(digest, e, [c]) == {ImageKey(digest, e, c)}
    ensures Winner(digest, e, [c], ImageKey(digest, e, c)) == c
  {
  }

  lemma LimitOfOne(w: World, k: Key, e: Key, digest: string -> string)
    requires Quiet(w) && w.images.Keys == {k} && w.images[k].progress.Unset? && ExportOf(k, w.images[k]) == e
    requires e in w.exports && w.exports[e].spec.maxConcurrentJobs == 1
    ensures var t := Run(Run(w, [Calmly(k), Calmly(k)], digest), [JobDeleted(k), Calmly(k)], digest);
      && t.images.Keys == {k} && t.images[k].progress.Pending? && !CanChange(t, digest)
  {
    hide Run, CanChange;
    CalmRuns(w, k, digest);
    var w1 := Run(w, [Calmly(k), Calmly(k)], digest);
    assert w1.jobs.Keys == {k} && |w1.jobs.Keys| == 1;
    assert SlotInv(w1);
    LostJobStarves(w1, k, digest);
    StillThere(w1, k, digest);
  }

  lemma StillThere(w: World, k: Key, digest: string -> string)
    requires Ready(w, k) && Active(w.images[k].progress)
    ensures Run(w, [JobDeleted(k), Calmly(k)], digest).images.Keys == w.images.Keys
  {
    RunPair(w, JobDeleted(k), Calmly(k), digest);
    var w1 := Step(w, JobDeleted(k), digest);
    assert w1.images == w.images && w1.exports == w.exports && k !in w1.jobs;
    hide Run;
    CalmMisses(w1, k, digest);
    hide Step;
  }

  // ----- PRESENT on each other's account

  /** Two exports ask for the same image; the job of one fails, and both images end PRESENT with
      nothing ever stored. */
  lemma PresentWithoutArchiveRun(e: Key, f: Key, spec: ExportSpec, c: Container, digest: string -> string)
    requires spec.additionalImages == [] && spec.maxConcurrentJobs >= 2 && e.name != f.name
    requires ImageKey(digest, e, c).name != ImageKey(digest, f, c).name
    ensures var a, b := ImageKey(digest, e, c), ImageKey(digest, f, c);
      var t := Run(EMPTY_WORLD, Opening(e, spec, [c]) + Opening(f, spec, [c])
          + [Calmly(a), Calmly(b), Calmly(a), Calmly(b), JobFails(a), Calmly(a), Calmly(a), Calmly(a)], digest);
      && t.images.Keys == {a, b} && t.images[a].progress.Present? && t.images[b].progress.Present?
      && t.jobs == map[] && t.history.succeeded == {}
  {
    var a, b := ImageKey(digest, e, c), ImageKey(digest, f, c);
    var eight := [Calmly(a), Calmly(b), Calmly(a), Calmly(b), JobFails(a), Calmly(a), Calmly(a), Calmly(a)];
    hide Run, Opening;
    RunAppend(EMPTY_WORLD, Opening(e, spec, [c]), Opening(f, spec, [c]), digest);
    RunAppend(EMPTY_WORLD, Opening(e, spec, [c]) + Opening(f, spec, [c]), eight, digest);
    BothOpened(e, f, spec, c, digest);
    var w := Run(Run(EMPTY_WORLD, Opening(e, spec, [c]), digest), Opening(f, spec, [c]), digest);
    PresentOnEachOthersAccount(w, a, b, digest);
    KeysStay(w, eight, digest);
    hide Twins;
  }

  lemma BothOpened(e: Key, f: Key, spec: ExportSpec, c: Container, digest: string -> string)
    requires spec.additionalImages == [] && spec.maxConcurrentJobs >= 2 && e.name != f.name
    requires ImageKey(digest, e, c).name != ImageKey(digest, f, c).name
    ensures var a, b := ImageKey(digest, e, c), ImageKey(digest, f, c);
      var w := Run(Run(EMPTY_WORLD, Opening(e, spec, [c]), digest), Opening(f, spec, [c]), digest);
      Quiet(w) && w.images.Keys == {a, b} && Twins(w, a, b)
  {
    var a, b := ImageKey(digest, e, c), ImageKey(digest, f, c);
    hide Run, Opening;
    Opened(e, spec, [c], digest);
    KeyOfOne(digest, e, c);
    hide KeysOf, Winner;
    var w := Run(EMPTY_WORLD, Opening(e, spec, [c]), digest);
    assert w.images.Keys == {a};
    SecondExport(w, f, spec, c, digest);
  }

  lemma SecondExport(w: World, f: Key, spec: ExportSpec, c: Container, digest: string -> string)
    requires Quiet(w) && spec.additionalImages == [] && f !in w.exports
    requires forall k | k in w.images :: w.images[k].exportName != f.name
    requires ImageKey(digest, f, c) !in w.images
    ensures var t := Run(w, Opening(f, spec, [c]), digest);
      && Quiet(t) && Begun(t, f, spec)
      && (forall e | e in w.exports :: e in t.exports && t.exports[e] == w.exports[e])
      && t.images == w.images[ImageKey(digest, f, c) := Image(c, f.name, spec.basePath, Unset, 0)]
  {
    hide Step, Run, Quiet;
    var k := ImageKey(digest, f, c);
    var w1 := Step(w, ExportApplied(f, spec), digest);
    ExportArrives(w, f, spec, digest);
    var t := Step(w1, ExportReconcile(f, Found([c]), Reliable), digest);
    ExportCreates(w1, f, [c], digest);
    KeyOfOne(digest, f, c);
    RunPair(w, ExportApplied(f, spec), ExportReconcile(f, Found([c]), Reliable), digest);
    hide KeysOf, Winner;
    assert t.images.Keys == w.images.Keys + {k};
    assert t.images == w.images[k := Image(c, f.name, spec.basePath, Unset, 0)];
  }

  lemma {:induction false} KeysStay(w: World, events: seq<Event>, digest: string -> string)
    requires forall ev | ev in events :: ev.ImageReconcile? || ev.JobFails?
    ensures Run(w, events, digest).images.Keys == w.images.Keys
    decreases |events|
  {
    if events != [] {
      var ev := events[0];
      assert ev in events;
      KeysStayOnce(w, ev, digest);
      hide Step;
      KeysStay(Step(w, ev, digest), events[1..], digest);
    }
  }

  lemma KeysStayOnce(w: World, ev: Event, digest: string -> string)
    requires ev.ImageReconcile? || ev.JobFails?
    ensures Step(w, ev, digest).images.Keys == w.images.Keys
  {
    if ev.ImageReconcile? && ev.k in w.images {
      var w1 := w.(writes := ev.writes);
      ReconcileMoves(w1, ev.k, ev.view);
      MoveKeepsImages(w1, Reconcile(w1, ev.k, ev.view), ev.k, ev.view);
    }
    hide Reconcile, Moves;
  }

  // ----- COMPLETED after a failing create

  /** An export applied, and a first reconcile in which the create of the second image fails. */
  function OpeningCutShort(e: Key, spec: ExportSpec, c: Container, d: Container): seq<Event> {
    [ExportApplied(e, spec), ExportReconcile(e, Found([c, d]), FailsAfter(4))]
  }

  lemma OpenedCutShort(e: Key, spec: ExportSpec, c: Container, d: Container, digest: string -> string)
    requires spec.additionalImages == [] && ImageKey(digest, e, c) != ImageKey(digest, e, d)
    ensures var t := Run(EMPTY_WORLD, OpeningCutShort(e, spec, c, d), digest);
      && Quiet(t) && Begun(t, e, spec) && t.exports[e].finalizer && t.exports.Keys == {e}
      && t.images == map[ImageKey(digest, e, c) := Image(c, e.name, spec.basePath, Unset, 0)]
      && e in t.history.cut && t.history.asked == map[e := [c, d]] && e !in t.history.deletedFrom
  {
    var w := Step(EMPTY_WORLD, ExportApplied(e, spec), digest);
    ExportArrives(EMPTY_WORLD, e, spec, digest);
    AppliedToNothing(e, spec, digest);
    RunPair(EMPTY_WORLD, ExportApplied(e, spec), ExportReconcile(e, Found([c, d]), FailsAfter(4)), digest);
    hide Run, Step;
    CutReconcile(w, e, spec, c, d, digest);
  }

  lemma CutReconcile(w: World, e: Key, spec: ExportSpec, c: Container, d: Container, digest: string -> string)
    requires Quiet(w) && w.images == map[] && w.exports == map[e := Export(spec, Unset, false, false)]
    requires w.history.asked == map[] && w.history.deletedFrom == {}
    requires spec.additionalImages == [] && ImageKey(digest, e, c) != ImageKey(digest, e, d)
    ensures var t := Step(w, ExportReconcile(e, Found([c, d]), FailsAfter(4)), digest);
      && Quiet(t) && Begun(t, e, spec) && t.exports[e].finalizer && t.exports.Keys == {e}
      && t.images == map[ImageKey(digest, e, c) := Image(c, e.name, spec.basePath, Unset, 0)]
      && e in t.history.cut && t.history.asked == map[e := [c, d]] && e !in t.history.deletedFrom
  {
    var v := w.(writes := FailsAfter(4));
    ThreeWrites(v, e, spec, [c, d], digest);
    var x := Export(spec, Running, true, false);
    var u := StartLoop(v.(exports := w.exports[e := x], writes := FailsAfter(1)), e, [c, d]);
    hide ReconcileExport, ImageKey;
    CutAfterFirst(u, e, x, c, d, digest);
    hide CreateImages;
  }

  /** Finalizer, PENDING and RUNNING are written before the create loop starts. */
  lemma ThreeWrites(v: World, e: Key, spec: ExportSpec, list: seq<Container>, digest: string -> string)
    requires e in v.exports && v.exports[e] == Export(spec, Unset, false, false) && v.writes == FailsAfter(4)
    requires spec.additionalImages == []
    ensures var x := Export(spec, Running, true, false);
      var u := StartLoop(v.(exports := v.exports[e := x], writes := FailsAfter(1)), e, list);
      ReconcileExport(v, e, Found(list), digest) == CreateImages(u, e, x, list, digest)
  {
    hide CreateImages, ImageKey;
    assert list + Additional([]) == list;
    var x0 := Export(spec, Unset, true, false);
    var w1 := v.(exports := v.exports[e := x0], writes := FailsAfter(3));
    assert UpdateExport(v, e, x0) == Success(w1);
    var x1 := x0.(progress := Pending);
    var w2 := v.(exports := w1.exports[e := x1], writes := FailsAfter(2));
    assert UpdateExport(w1, e, x1) == Success(w2);
    var x := x0.(progress := Running);
    var w3 := v.(exports := w2.exports[e := x], writes := FailsAfter(1));
    assert UpdateExport(w2, e, x) == Success(w3);
    assert w3.exports == v.exports[e := x];
  }

  lemma AppliedToNothing(e: Key, spec: ExportSpec, digest: string -> string)
    ensures Step(EMPTY_WORLD, ExportApplied(e, spec), digest).history == EMPTY_HISTORY
  {
    assert !exists j :: IsImageOf(EMPTY_WORLD, j, e);
    assert EMPTY_HISTORY.archives == {};
  }

  lemma CutAfterFirst(u: World, e: Key, x: Export, c: Container, d: Container, digest: string -> string)
    requires u.writes == FailsAfter(1) && u.images == map[] && ImageKey(digest, e, c) != ImageKey(digest, e, d)
    ensures CreateImages(u, e, x, [c, d], digest).w
         == CreateImage(u, ImageKey(digest, e, c), NewImage(e, x, c)).w
  {
    hide ImageKey, AllCompleted;
    assert [c, d][1..] == [d];
    var o1 := CreateImage(u, ImageKey(digest, e, c), NewImage(e, x, c));
    assert CreateImages(o1.w, e, x, [d], digest) == Outcome(o1.w, Error);
  }

  /** Two images with keys of their own: the create of the second fails, the first is stored, and the
      image controller calls the export COMPLETED.  From then on neither controller creates the missing
      image: in every further run that does not delete the export or its image, the export stays COMPLETED
      without it. */
  lemma CompletedAfterFailingCreate(
      e: Key, spec: ExportSpec, c: Container, d: Container, more: seq<Event>, digest: string -> string)
    requires spec.additionalImages == [] && spec.maxConcurrentJobs >= 1
    requires ImageKey(digest, e, c) != ImageKey(digest, e, d)
    requires var a := ImageKey(digest, e, c);
      LeavesAloneRun(Run(EMPTY_WORLD, OpeningCutShort(e, spec, c, d) + Storing(a), digest), more, digest, e)
    ensures var a, b := ImageKey(digest, e, c), ImageKey(digest, e, d);
      var t := Run(EMPTY_WORLD, OpeningCutShort(e, spec, c, d) + Storing(a), digest);
      var u := Run(t, more, digest);
      && t.images.Keys == {a} && e in t.history.cut && e !in t.history.deletedFrom
      && e in u.exports && u.exports[e].progress.Completed? && !IsImageOf(u, b, e)
  {
    var a, b := ImageKey(digest, e, c), ImageKey(digest, e, d);
    hide Run, OpeningCutShort, Storing, LeavesAloneRun;
    OpenedCutShort(e, spec, c, d, digest);
    hide ImageKey;
    var w := Run(EMPTY_WORLD, OpeningCutShort(e, spec, c, d), digest);
    assert IsImageOf(w, a, e);
    RunAppend(EMPTY_WORLD, OpeningCutShort(e, spec, c, d), Storing(a), digest);
    OneStored(w, a, e, digest);
    var t := Run(w, Storing(a), digest);
    assert t.images.Keys == {a};
    assert Sealed(t, e);
    CompletionIsFinal(t, more, digest, e);
    assert !IsImageOf(t, b, e);
  }

  // ----- COMPLETED taken back

  /** An export of two images is COMPLETED when the first is stored, and RUNNING again when the second
      one's job is seen. */
  lemma CompletedTakenBackRun(e: Key, spec: ExportSpec, c: Container, d: Container, digest: string -> string)
    requires spec.additionalImages == [] && spec.maxConcurrentJobs >= 1
    requires ImageKey(digest, e, c) != ImageKey(digest, e, d) && c.fullName != d.fullName
    ensures var a, b := ImageKey(digest, e, c), ImageKey(digest, e, d);
      var completed := Opening(e, spec, [c, d]) + Storing(a);
      var w, t := Run(EMPTY_WORLD, completed, digest), Run(EMPTY_WORLD, completed + Reporting(b), digest);
      && e in w.exports && w.exports[e].progress.Completed?
      && e in t.exports && !t.exports[e].progress.Completed?
  {
    hide Run, Opening, Storing, Reporting;
    var a, b := ImageKey(digest, e, c), ImageKey(digest, e, d);
    Opened(e, spec, [c, d], digest);
    KeysOfTwo(digest, e, c, d);
    SecondOfTwo(digest, e, c, d);
    hide KeysOf, Winner, ImageKey;
    var w := Run(EMPTY_WORLD, Opening(e, spec, [c, d]), digest);
    assert w.images.Keys == {a, b} && NameOf(w, a) != NameOf(w, b);
    assert IsImageOf(w, a, e) && IsImageOf(w, b, e);
    RunAppend(EMPTY_WORLD, Opening(e, spec, [c, d]), Storing(a), digest);
    RunAppend(EMPTY_WORLD, Opening(e, spec, [c, d]) + Storing(a), Reporting(b), digest);
    OneStored(w, a, e, digest);
    TakenBack(Run(w, Storing(a), digest), b, e, digest);
  }

  lemma SecondOfTwo(digest: string -> string, e: Key, c: Container, d: Container)
    requires ImageKey(digest, e, c) != ImageKey(digest, e, d)
    ensures KeysOf(digest, e, [c, d]) == {ImageKey(digest, e, c), ImageKey(digest, e, d)}
    ensures Winner(digest, e, [c, d], ImageKey(digest, e, d)) == d
  {
    assert c in [c, d] && d in [c, d];
    assert [c, d][1..] == [d];
  }

  /** An image is started, and its job seen running. */
  function Reporting(b: Key): seq<Event> {
    [Calmly(b), Calmly(b)] + [Calmly(b)]
  }

  lemma TakenBack(w: World, b: Key, e: Key, digest: string -> string)
    requires IsImageOf(w, b, e) && e in w.exports && w.exports[e].progress.Completed?
    requires w.images[b].progress.Unset? && b !in w.jobs && HasSlot(w, b) && Unrivalled(w, b)
    ensures var t := Run(w, Reporting(b), digest); e in t.exports && !t.exports[e].progress.Completed?
  {
    hide Run, Unrivalled;
    RunAppend(w, [Calmly(b), Calmly(b)], [Calmly(b)], digest);
    CalmRuns(w, b, digest);
    var u := Run(w, [Calmly(b), Calmly(b)], digest);
    RunOne(u, Calmly(b), digest);
    hide TargetNow;
    assert IsImageOf(u, b, e);
    CompletedTakenBack(u, b, e, digest);
  }

  lemma RunOne(w: World, a: Event, digest: string -> string)
    ensures Run(w, [a], digest) == Step(w, a, digest)
  {
    hide Step;
    RunCons(w, a, [], digest);
    assert [a] == [a] + [];
  }

  // ----- a failure nobody reports

  /** An image is started, and its pod seen with three restarts in a reconcile whose second call fails. */
  function Collapsing(b: Key): seq<Event> {
    [Calmly(b), Calmly(b)] + [ImageReconcile(b, View([[3]], []), FailsAfter(1))]
  }

  /** The image is FAILED and its export is not. */
  lemma UnreportedFailureRun(e: Key, spec: ExportSpec, c: Container, digest: string -> string)
    requires spec.additionalImages == [] && spec.maxConcurrentJobs >= 1
    ensures var k := ImageKey(digest, e, c);
      var t := Run(EMPTY_WORLD, Opening(e, spec, [c]) + Collapsing(k), digest);
      && e in t.exports && !t.exports[e].progress.Failed? && IsImageOf(t, k, e) && t.images[k].progress.Failed?
  {
    hide Run, Opening, Collapsing;
    var k := ImageKey(digest, e, c);
    Opened(e, spec, [c], digest);
    KeyOfOne(digest, e, c);
    OpeningHasNotFailed(e, spec, [c], digest);
    hide KeysOf, Winner, ImageKey;
    var w := Run(EMPTY_WORLD, Opening(e, spec, [c]), digest);
    assert w.images.Keys == {k};
    RunAppend(EMPTY_WORLD, Opening(e, spec, [c]), Collapsing(k), digest);
    Collapses(w, e, k, digest);
  }

  lemma OpeningHasNotFailed(e: Key, spec: ExportSpec, list: seq<Container>, digest: string -> string)
    requires spec.additionalImages == [] && list != []
    ensures var t := Run(EMPTY_WORLD, Opening(e, spec, list), digest);
      e in t.exports && !t.exports[e].progress.Failed?
  {
    var w := Step(EMPTY_WORLD, ExportApplied(e, spec), digest);
    Opened(e, spec, list, digest);
    ExportArrives(EMPTY_WORLD, e, spec, digest);
    AppliedToNothing(e, spec, digest);
    RunPair(EMPTY_WORLD, ExportApplied(e, spec), ExportReconcile(e, Found(list), Reliable), digest);
    assert Tracks(w, e);
    ReconcileExportFrame(w.(writes := Reliable), e, Found(list), digest);
    TrackingBreaksIff(w, ExportReconcile(e, Found(list), Reliable), digest, e);
    hide Run, ReconcileExport, KeysOf, Winner, ImageKey;
  }

  lemma Collapses(w: World, e: Key, k: Key, digest: string -> string)
    requires IsImageOf(w, k, e) && w.images[k].progress.Unset? && k !in w.jobs && HasSlot(w, k) && Unrivalled(w, k)
    requires e in w.exports && !w.exports[e].progress.Failed? && !AnyFailed(w, e)
    ensures var t := Run(w, Collapsing(k), digest);
      && t.exports == w.exports && IsImageOf(t, k, e) && t.images[k].progress.Failed?
      && t.images == w.images[k := t.images[k]]
  {
    hide Run, Unrivalled;
    var view := View([[3]], []);
    RunAppend(w, [Calmly(k), Calmly(k)], [ImageReconcile(k, view, FailsAfter(1))], digest);
    CalmRuns(w, k, digest);
    var u := Run(w, [Calmly(k), Calmly(k)], digest);
    RunOne(u, ImageReconcile(k, view, FailsAfter(1)), digest);
    hide TargetNow;
    SameFailures(w, u.(writes := FailsAfter(1)), k, e);
    hide AnyFailed;
    CollapseSeen(u.(writes := FailsAfter(1)), e, k, view);
    hide Reconcile;
    assert w.images[k := u.images[k]][k := Run(w, Collapsing(k), digest).images[k]]
      == w.images[k := Run(w, Collapsing(k), digest).images[k]];
  }

  lemma CollapseSeen(w: World, e: Key, k: Key, view: View)
    requires IsImageOf(w, k, e) && w.images[k].progress.Running? && Live(w, k) && !AnyFailed(w, e)
    requires e in w.exports && !w.exports[e].progress.Failed?
    requires view == View([[3]], []) && w.writes == FailsAfter(1)
    ensures var t := Reconcile(w, k, view).w;
      && t.exports == w.exports && IsImageOf(t, k, e) && t.images[k].progress.Failed?
      && t.images == w.images[k := t.images[k]]
  {
    assert FirstRestart(view.restarts) == 3 by {
      assert view.restarts[0] == [3] && FirstPositive([3]) == 3;
    }
    assert TooManyRestarts(w, k, view);
    assert CallsOfPurge(view.jobs, k.ns) == 0;
    UnreportedLeaves(w, k, view, e);
    hide Reconcile;
  }

  /** And the export may have been COMPLETED before: then the failure is never told.  An export of two
      images is COMPLETED when the first is stored; the second is started and fails unreported; and in every
      further run that does not delete the export or an image of it, it stays COMPLETED with a FAILED
      image. */
  lemma NeverReportedRun(
      e: Key, spec: ExportSpec, c: Container, d: Container, more: seq<Event>, digest: string -> string)
    requires spec.additionalImages == [] && spec.maxConcurrentJobs >= 1
    requires ImageKey(digest, e, c) != ImageKey(digest, e, d) && c.fullName != d.fullName
    requires var a, b := ImageKey(digest, e, c), ImageKey(digest, e, d);
      LeavesAloneRun(Run(EMPTY_WORLD, Opening(e, spec, [c, d]) + Storing(a) + Collapsing(b), digest), more, digest, e)
    ensures var a, b := ImageKey(digest, e, c), ImageKey(digest, e, d);
      var t := Run(EMPTY_WORLD, Opening(e, spec, [c, d]) + Storing(a) + Collapsing(b), digest);
      var u := Run(t, more, digest);
      && e in u.exports && u.exports[e].progress.Completed? && IsImageOf(u, b, e) && u.images[b].progress.Failed?
  {
    hide Run, Opening, Storing, Collapsing, LeavesAloneRun;
    var a, b := ImageKey(digest, e, c), ImageKey(digest, e, d);
    Opened(e, spec, [c, d], digest);
    KeysOfTwo(digest, e, c, d);
    SecondOfTwo(digest, e, c, d);
    hide KeysOf, Winner, ImageKey;
    var w := Run(EMPTY_WORLD, Opening(e, spec, [c, d]), digest);
    assert w.images.Keys == {a, b} && NameOf(w, a) != NameOf(w, b);
    assert IsImageOf(w, a, e) && IsImageOf(w, b, e);
    RunAppend(EMPTY_WORLD, Opening(e, spec, [c, d]), Storing(a), digest);
    RunAppend(EMPTY_WORLD, Opening(e, spec, [c, d]) + Storing(a), Collapsing(b), digest);
    OneStored(w, a, e, digest);
    var v := Run(w, Storing(a), digest);
    assert v.images.Keys == {a, b} && !AnyFailed(v, e);
    Collapses(v, e, b, digest);
    var t := Run(v, Collapsing(b), digest);
    hide Unrivalled, AnyFailed, TargetNow;
    assert t.images.Keys == {a, b};
    hide *;
    ClosedForGood(t, more, digest, e);
    ClosedKeepsFailed(t, Run(t, more, digest), b, e);
  }

  lemma ClosedKeepsFailed(w: World, t: World, k: Key, e: Key)
    requires SameImages(w, t, e) && Closed(t, e) && IsImageOf(w, k, e) && w.images[k].progress.Failed?
    ensures e in t.exports && t.exports[e].progress.Completed? && IsImageOf(t, k, e) && t.images[k].progress.Failed?
  {
  }

  // ----- a restart

  /** With a limit of one, a restart of the operator lets a second job run beside the first. */
  lemma RestartExceedsLimitRun(e: Key, spec: ExportSpec, c: Container, d: Container, digest: string -> string)
    requires spec.additionalImages == [] && spec.maxConcurrentJobs == 1
    requires ImageKey(digest, e, c) != ImageKey(digest, e, d) && c.fullName != d.fullName
    ensures var a, b := ImageKey(digest, e, c), ImageKey(digest, e, d);
      var t := Run(EMPTY_WORLD,
        Opening(e, spec, [c, d]) + [Calmly(a), Calmly(a)] + [OperatorRestarts] + [Calmly(b), Calmly(b)], digest);
      t.jobs.Keys == {a, b} && |t.jobs| == 2 && t.activeJobs == 1
  {
    hide Run, Opening;
    var a, b := ImageKey(digest, e, c), ImageKey(digest, e, d);
    var first := Opening(e, spec, [c, d]);
    Opened(e, spec, [c, d], digest);
    KeysOfTwo(digest, e, c, d);
    SecondOfTwo(digest, e, c, d);
    hide KeysOf, Winner, ImageKey;
    var w := Run(EMPTY_WORLD, first, digest);
    assert w.images.Keys == {a, b} && NameOf(w, a) != NameOf(w, b);
    RunAppend(EMPTY_WORLD, first, [Calmly(a), Calmly(a)], digest);
    RunAppend(EMPTY_WORLD, first + [Calmly(a), Calmly(a)], [OperatorRestarts], digest);
    RunAppend(EMPTY_WORLD, first + [Calmly(a), Calmly(a)] + [OperatorRestarts], [Calmly(b), Calmly(b)], digest);
    TwoJobs(w, a, b, digest);
  }

  lemma TwoJobs(w: World, a: Key, b: Key, digest: string -> string)
    requires Quiet(w) && w.images.Keys == {a, b} && NameOf(w, a) != NameOf(w, b)
    requires w.images[a].progress.Unset? && w.images[b].progress.Unset?
    requires Ready(w, a) && Ready(w, b) && HasSlot(w, a) && HasSlot(w, b)
    ensures var u := Run(w, [Calmly(a), Calmly(a)], digest);
      var t := Run(Run(u, [OperatorRestarts], digest), [Calmly(b), Calmly(b)], digest);
      t.jobs.Keys == {a, b} && |t.jobs| == 2 && t.activeJobs == 1
  {
    hide Run;
    CalmRuns(w, a, digest);
    var u := Run(w, [Calmly(a), Calmly(a)], digest);
    RunOne(u, OperatorRestarts, digest);
    var v := Step(u, OperatorRestarts, digest);
    assert v == u.(activeJobs := 0);
    hide Step, TargetNow;
    CalmRuns(v, b, digest);
    var t := Run(v, [Calmly(b), Calmly(b)], digest);
    assert t.jobs.Keys == {a, b};
    assert |t.jobs.Keys| == 2;
  }

  // ----- deletion blocked

  /** A deletion whose second call fails leaves the export behind with its own cleanup job in the way:
      in every further run that does not end the job the export is still there. */
  lemma DeletionBlocksItself(
      e: Key, spec: ExportSpec, c: Container, more: seq<Event>, digest: string -> string)
    requires spec.additionalImages == []
    requires SparesCleanup(Run(EMPTY_WORLD, Opening(e, spec, [c]) + Failing(e), digest), more, digest, CleanupKey(e))
    ensures var t := Run(Run(EMPTY_WORLD, Opening(e, spec, [c]) + Failing(e), digest), more, digest);
      e in t.exports && CleanupKey(e) in t.cleanupJobs
  {
    hide Run, Opening, Failing, SparesCleanup, CleanupKey;
    Opened(e, spec, [c], digest);
    hide KeysOf, Winner;
    var w := Run(EMPTY_WORLD, Opening(e, spec, [c]), digest);
    RunAppend(EMPTY_WORLD, Opening(e, spec, [c]), Failing(e), digest);
    FailsToGo(w, e, digest);
    BlockedByCleanup(Run(w, Failing(e), digest), more, digest, e);
  }

  function Failing(e: Key): seq<Event> {
    [ExportDeleteRequested(e), ExportReconcile(e, ListFailed, FailsAfter(1))]
  }

  lemma FailsToGo(w: World, e: Key, digest: string -> string)
    requires e in w.exports && w.exports[e].finalizer && w.cleanupJobs == {}
    ensures var t := Run(w, Failing(e), digest);
      e in t.exports && t.exports[e].finalizer && CleanupKey(e) in t.cleanupJobs
  {
    hide CleanupJobName;
    RunPair(w, ExportDeleteRequested(e), ExportReconcile(e, ListFailed, FailsAfter(1)), digest);
    var w1 := Step(w, ExportDeleteRequested(e), digest);
    assert w1 == w.(exports := w.exports[e := w.exports[e].(deleting := true)]);
    assert Step(w1, ExportReconcile(e, ListFailed, FailsAfter(1)), digest)
        == HandleDeletion(w1.(writes := FailsAfter(1)), e).w;
    hide Run, Step;
  }

  // ----- a cleanup that never runs

  /** An export is stored and deleted; before its cleanup job has run, restarts of another export's pod
      purge the namespace, cleanup job included: the export is gone, its archive is recorded, and no
      cleanup job is left. */
  lemma PurgedCleanupRun(
      f: Key, e: Key, spec: ExportSpec, c: Container, d: Container, digest: string -> string)
    requires spec.additionalImages == [] && spec.maxConcurrentJobs >= 1
    requires e.ns == f.ns && e.name != f.name && c.fullName != d.fullName
    requires ImageKey(digest, f, c) != ImageKey(digest, e, d)
    ensures var a, b := ImageKey(digest, f, c), ImageKey(digest, e, d);
      var t := Run(EMPTY_WORLD,
        Opening(f, spec, [c]) + Opening(e, spec, [d]) + Storing(a) + Going(f) + Purging(b, CleanupKey(f)), digest);
      && f !in t.exports && f in t.history.cleaned && t.cleanupJobs == {}
      && Archive(f, spec.bucket, spec.basePath, c.fullName) in t.history.archives
  {
    hide Run, Opening, Storing, Going, Purging, CleanupKey;
    var a, b := ImageKey(digest, f, c), ImageKey(digest, e, d);
    var two := Opening(f, spec, [c]) + Opening(e, spec, [d]);
    RunAppend(EMPTY_WORLD, Opening(f, spec, [c]), Opening(e, spec, [d]), digest);
    RunAppend(EMPTY_WORLD, two, Storing(a), digest);
    RunAppend(EMPTY_WORLD, two + Storing(a), Going(f), digest);
    RunAppend(EMPTY_WORLD, two + Storing(a) + Going(f), Purging(b, CleanupKey(f)), digest);
    TwoExports(f, e, spec, c, d, digest);
    hide ImageKey;
    var w := Run(Run(EMPTY_WORLD, Opening(f, spec, [c]), digest), Opening(e, spec, [d]), digest);
    OneStored(w, a, f, digest);
    var w1 := Run(w, Storing(a), digest);
    GoesForGood(w1, f, digest);
    var w2 := Run(w1, Going(f), digest);
    assert TargetNow(w, a) == Archive(f, spec.bucket, spec.basePath, c.fullName);
    hide TargetNow;
    assert b.ns == e.ns;
    CleanupStaysInNamespace(f);
    PurgesAll(w2, b, CleanupKey(f), digest);
  }

  lemma CleanupStaysInNamespace(e: Key)
    ensures CleanupKey(e).ns == e.ns
  {
    hide CleanupJobName;
  }

  lemma TwoExports(f: Key, e: Key, spec: ExportSpec, c: Container, d: Container, digest: string -> string)
    requires spec.additionalImages == [] && e.name != f.name && ImageKey(digest, f, c) != ImageKey(digest, e, d)
    ensures var a, b := ImageKey(digest, f, c), ImageKey(digest, e, d);
      var w := Run(Run(EMPTY_WORLD, Opening(f, spec, [c]), digest), Opening(e, spec, [d]), digest);
      && Quiet(w) && Begun(w, f, spec) && Begun(w, e, spec) && w.exports[f].finalizer
      && w.images.Keys == {a, b}
      && w.images[a] == Image(c, f.name, spec.basePath, Unset, 0)
      && w.images[b] == Image(d, e.name, spec.basePath, Unset, 0)
      && IsImageOf(w, a, f) && IsImageOf(w, b, e)
  {
    hide Run, Opening;
    Opened(f, spec, [c], digest);
    KeyOfOne(digest, f, c);
    hide KeysOf, Winner;
    SecondExport(Run(EMPTY_WORLD, Opening(f, spec, [c]), digest), e, spec, d, digest);
  }

  function Going(f: Key): seq<Event> {
    [ExportDeleteRequested(f), ExportReconcile(f, ListFailed, Reliable)]
  }

  lemma GoesForGood(w: World, f: Key, digest: string -> string)
    requires f in w.exports && w.exports[f].finalizer && w.cleanupJobs == {}
    ensures var t := Run(w, Going(f), digest);
      && f !in t.exports && t.exports == w.exports - {f} && f in t.history.cleaned
      && t.cleanupJobs == {CleanupKey(f)} && t.images == w.images && t.jobs == w.jobs
      && t.activeJobs == w.activeJobs && t.history.archives == w.history.archives
  {
    hide CleanupJobName;
    RunPair(w, ExportDeleteRequested(f), ExportReconcile(f, ListFailed, Reliable), digest);
    var w1 := Step(w, ExportDeleteRequested(f), digest);
    assert w1 == w.(exports := w.exports[f := w.exports[f].(deleting := true)]);
    assert Step(w1, ExportReconcile(f, ListFailed, Reliable), digest) == HandleDeletion(w1.(writes := Reliable), f).w;
    hide Run, Step;
  }

  /** An image is started, and its pod seen with three restarts while the cleanup job is listed. */
  function Purging(b: Key, q: Key): seq<Event> {
    [Calmly(b), Calmly(b)] + [ImageReconcile(b, View([[3]], [CleanupJob(q)]), Reliable)]
  }

  lemma PurgesAll(w: World, b: Key, q: Key, digest: string -> string)
    requires Ready(w, b) && w.images[b].progress.Unset? && b !in w.jobs && HasSlot(w, b) && Unrivalled(w, b)
    requires w.cleanupJobs == {q} && q.ns == b.ns
    ensures var t := Run(w, Purging(b, q), digest);
      && t.cleanupJobs == {} && t.exports.Keys == w.exports.Keys
      && w.history.archives <= t.history.archives && t.history.cleaned == w.history.cleaned
  {
    hide Run, Unrivalled;
    var view := View([[3]], [CleanupJob(q)]);
    RunAppend(w, [Calmly(b), Calmly(b)], [ImageReconcile(b, view, Reliable)], digest);
    CalmRuns(w, b, digest);
    var u := Run(w, [Calmly(b), Calmly(b)], digest);
    RunOne(u, ImageReconcile(b, view, Reliable), digest);
    hide TargetNow;
    PurgeSeen(u.(writes := Reliable), b, q, view);
    hide Reconcile;
  }

  lemma PurgeSeen(w: World, b: Key, q: Key, view: View)
    requires Ready(w, b) && w.images[b].progress.Running? && Live(w, b) && w.writes.Reliable?
    requires w.cleanupJobs == {q} && q.ns == b.ns && view == View([[3]], [CleanupJob(q)])
    ensures var t := Reconcile(w, b, view).w;
      && t.cleanupJobs == {} && t.exports.Keys == w.exports.Keys
      && t.history.archives == w.history.archives && t.history.cleaned == w.history.cleaned
  {
    assert FirstRestart(view.restarts) == 3 by {
      assert view.restarts[0] == [3] && FirstPositive([3]) == 3;
    }
    assert Reached(view.jobs, b.ns, Reliable, CleanupJob(q));
    assert PurgesNow(w, b, view);
    ReconcileTakesIff(w, b, view, CleanupJob(q));
    ReconcileMoves(w, b, view);
    ReconcileExports(w, b, view);
    MoveArchives(w, Reconcile(w, b, view), b, view);
    MoveTakesCleanupsOnly(w, Reconcile(w, b, view), b, view);
    StartsNothing(w, Reconcile(w, b, view), b, view);
    hide Reconcile, Moves, Reached, PurgesNow, Aggregate;
  }

  lemma MoveTakesCleanupsOnly(w: World, o: Outcome, k: Key, view: View)
    requires k in w.images && Moves(w, o, k, view)
    ensures o.w.cleanupJobs <= w.cleanupJobs
  {
    hide ImageExists, HasSlot, NamesGone;
  }

  lemma StartsNothing(w: World, o: Outcome, k: Key, view: View)
    requires k in w.images && Moves(w, o, k, view) && w.images[k].progress.Running?
    ensures o.w.history.archives == w.history.archives
  {
    hide ImageExists, HasSlot, NamesGone;
  }
}
