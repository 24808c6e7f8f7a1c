/** The archives that export jobs are told to write, against what the cleanups of exports delete. */
module StoredArchives {
  import opened Cluster
  import opened Controllers
  import opened ImageMoves
  import opened ExportMoves
  import opened ImageResults
  import opened Runs
  import opened StoragePaths

  function LocationOf(a: Archive): Location {
    ParseS3Path(ArchivePath(a.bucket, a.basePath, a.owner.name, a.fullName))
  }

  /** What the cleanup job of an export with this spec deletes. */
  function CleanupOf(e: Key, spec: ExportSpec): Location {
    ParseS3Path(CleanupPath(spec.bucket, spec.basePath, e.name))
  }

  predicate SamePlace(bucket: string, basePath: string, spec: ExportSpec) {
    bucket == spec.bucket && basePath == spec.basePath
  }

  // ----- without edits everything agrees

  /** Images and archives have the place their export's spec names, unless that was edited. */
  predicate Places(w: World) {
    && (forall k | k in w.images && Unedited(w, ExportOf(k, w.images[k])) ::
          w.images[k].exportPath == w.exports[ExportOf(k, w.images[k])].spec.basePath)
    && (forall a | a in w.history.archives && Unedited(w, a.owner) ::
          SamePlace(a.bucket, a.basePath, w.exports[a.owner].spec))
  }

  predicate Unedited(w: World, e: Key) {
    e in w.exports && e !in w.history.edited
  }

  /** And so does the spec the latest cleanup job was created from. */
  predicate CleanedPlaces(w: World) {
    && (forall e | e in w.history.cleaned && Unedited(w, e) ::
          SamePlace(w.history.cleaned[e].bucket, w.history.cleaned[e].basePath, w.exports[e].spec))
    && (forall a | a in w.history.archives && a.owner in w.history.cleaned && a.owner !in w.history.edited ::
          SamePlace(a.bucket, a.basePath, w.history.cleaned[a.owner]))
  }

  predicate PlacesAgree(w: World) {
    Places(w) && CleanedPlaces(w)
  }

  // ----- one event

  /** A move writes to the history of archives only when it starts a job. */
  lemma MoveArchives(w: World, o: Outcome, k: Key, view: View)
    requires k in w.images && Moves(w, o, k, view)
    ensures o.w.history.edited == w.history.edited && o.w.history.cleaned == w.history.cleaned
    ensures || o.w.history.archives == w.history.archives
            || (&& ExportOf(k, w.images[k]) in w.exports
                && o.w.history.archives == w.history.archives + {TargetNow(w, k)})
  {
    hide ImageExists, NamesGone;
  }

  /** Exports keep their specs through an image reconcile. */
  predicate SameSpecs(w: World, t: World) {
    t.exports.Keys == w.exports.Keys && forall e | e in w.exports :: t.exports[e].spec == w.exports[e].spec
  }

  lemma MoveKeepsPlaces(w: World, o: Outcome, k: Key, view: View)
    requires PlacesAgree(w) && k in w.images && Moves(w, o, k, view) && SameSpecs(w, o.w)
    ensures PlacesAgree(o.w)
  {
    MoveKeepsImages(w, o, k, view);
    MoveArchives(w, o, k, view);
    hide Moves;
    assert Places(o.w) by { hide CleanedPlaces; }
    hide Places;
    if o.w.history.archives != w.history.archives {
      NewTargetPlace(w, k);
    }
    hide TargetNow;
  }

  lemma NewTargetPlace(w: World, k: Key)
    requires PlacesAgree(w) && k in w.images && ExportOf(k, w.images[k]) in w.exports
    ensures var a := TargetNow(w, k);
      && a.owner in w.exports
      && (a.owner !in w.history.edited ==> SamePlace(a.bucket, a.basePath, w.exports[a.owner].spec))
      && (a.owner !in w.history.edited && a.owner in w.history.cleaned ==>
            SamePlace(a.bucket, a.basePath, w.history.cleaned[a.owner]))
  {
  }

  lemma ReconcileKeepsPlaces(w: World, k: Key, view: View)
    requires PlacesAgree(w)
    ensures PlacesAgree(Reconcile(w, k, view).w)
  {
    if k in w.images && ExportOf(k, w.images[k]) in w.exports {
      var o := Reconcile(w, k, view);
      ReconcileMoves(w, k, view);
      ReconcileExports(w, k, view);
      hide Reconcile, Moves, Aggregate, AllCompletedSwitch, PlacesAgree;
      assert SameSpecs(w, o.w);
      MoveKeepsPlaces(w, o, k, view);
    }
  }

  lemma ExportReconcileKeepsPlaces(w: World, e: Key, found: Discovery, digest: string -> string)
    requires PlacesAgree(w)
    ensures PlacesAgree(ReconcileExport(w, e, found, digest).w)
  {
    var t := ReconcileExport(w, e, found, digest).w;
    ReconcileExportFrame(w, e, found, digest);
    hide ReconcileExport;
    forall f | f in t.exports
      ensures f in w.exports && t.exports[f].spec == w.exports[f].spec
    {
      if f != e {
        assert f in t.exports - {e} && (t.exports - {e})[f] == t.exports[f];
      }
    }
    hide ExportFrame;
    FrameKeepsPlaces(w, t, e);
  }

  lemma FrameKeepsPlaces(w: World, t: World, e: Key)
    requires PlacesAgree(w) && ExportFrame(w, t, e)
    requires forall f | f in t.exports :: f in w.exports && t.exports[f].spec == w.exports[f].spec
    ensures PlacesAgree(t)
  {
    assert Places(t) by { hide CleanedPlaces; }
    assert CleanedPlaces(t);
    hide Places, CleanedPlaces, ExportFrame;
  }

  lemma StepKeepsPlaces(w: World, ev: Event, digest: string -> string)
    requires PlacesAgree(w)
    ensures PlacesAgree(Step(w, ev, digest))
  {
    match ev
    case ImageReconcile(k, view, writes) =>
      ReconcileKeepsPlaces(w.(writes := writes), k, view);
      hide Reconcile;
    case ExportReconcile(e, found, writes) =>
      ExportReconcileKeepsPlaces(w.(writes := writes), e, found, digest);
      hide ReconcileExport;
    case ExportApplied(e, spec) =>
      AppliedKeepsPlaces(w, e, spec, digest);
      hide Step;
    case ExportEdited(e, spec) =>
      EditKeepsPlaces(w, e, spec, digest);
      hide Step;
    case _ =>
      OthersKeepPlaces(w, ev, digest);
      hide Step, PlacesAgree;
  }

  lemma OthersKeepPlaces(w: World, ev: Event, digest: string -> string)
    requires PlacesAgree(w)
    requires !ev.ImageReconcile? && !ev.ExportReconcile? && !ev.ExportApplied? && !ev.ExportEdited?
    ensures PlacesAgree(Step(w, ev, digest))
  {
    var t := Step(w, ev, digest);
    OthersOnlyRemoveImages(w, ev, digest);
    hide Step;
    assert Places(t) by { hide CleanedPlaces; }
    assert CleanedPlaces(t) by { hide Places; }
    hide Places, CleanedPlaces;
  }

  lemma OthersOnlyRemoveImages(w: World, ev: Event, digest: string -> string)
    requires !ev.ImageReconcile? && !ev.ExportReconcile? && !ev.ExportApplied? && !ev.ExportEdited?
    ensures var t := Step(w, ev, digest);
      && (forall k | k in t.images :: k in w.images && t.images[k] == w.images[k])
      && (forall e | e in t.exports :: e in w.exports && t.exports[e].spec == w.exports[e].spec)
      && t.history.archives == w.history.archives && t.history.cleaned == w.history.cleaned
      && t.history.edited == w.history.edited
  {
  }

  lemma AppliedKeepsPlaces(w: World, e: Key, spec: ExportSpec, digest: string -> string)
    requires PlacesAgree(w)
    ensures PlacesAgree(Step(w, ExportApplied(e, spec), digest))
  {
    assert forall k | k in w.images && ExportOf(k, w.images[k]) == e :: IsImageOf(w, k, e);
    hide IsImageOf;
  }

  lemma EditKeepsPlaces(w: World, e: Key, spec: ExportSpec, digest: string -> string)
    requires PlacesAgree(w)
    ensures PlacesAgree(Step(w, ExportEdited(e, spec), digest))
  {
    var t := Step(w, ExportEdited(e, spec), digest);
    assert t.images == w.images && t.history.archives == w.history.archives && t.history.cleaned == w.history.cleaned;
    assert e in w.exports ==> t.exports == w.exports[e := w.exports[e].(spec := spec)];
    assert e !in w.exports ==> t == w;
    assert w.history.edited <= t.history.edited;
    assert e in w.exports && e !in t.history.edited ==> SamePlace(spec.bucket, spec.basePath, w.exports[e].spec);
    hide Step;
    assert Places(t) by { hide CleanedPlaces; }
    assert CleanedPlaces(t) by { hide Places; }
    hide Places, CleanedPlaces;
  }

  // ----- every run

  /** In every run, edits of specs included, an export whose bucket and base path have not been edited
      takes all its archives with it: what its cleanup would delete now, and what its latest cleanup
      job was told to delete, includes everything its jobs were ever told to write.  And it takes no
      archive of another such export with the same bucket and base path, unless that is a namesake in
      another namespace: the paths do not mention the namespace. */
  lemma {:induction false} CleanupsMatchImages(w: World, events: seq<Event>, digest: string -> string)
    requires PlacesAgree(w)
    ensures var t := Run(w, events, digest);
      && (forall a | a in t.history.archives && IsExportName(a.owner.name) && a.owner !in t.history.edited ::
            && (a.owner in t.exports ==> Hits(CleanupOf(a.owner, t.exports[a.owner].spec), LocationOf(a)))
            && (a.owner in t.history.cleaned ==> Hits(CleanupOf(a.owner, t.history.cleaned[a.owner]), LocationOf(a))))
      && (forall a, f | a in t.history.archives && f in t.exports && a.owner in t.exports
          && a.owner !in t.history.edited
            && IsExportName(a.owner.name) && IsExportName(f.name)
            && SamePlace(t.exports[f].spec.bucket, t.exports[f].spec.basePath, t.exports[a.owner].spec) ::
            Hits(CleanupOf(f, t.exports[f].spec), LocationOf(a)) <==> f.name == a.owner.name)
    decreases |events|
  {
    if events == [] {
      forall a, f: Key, spec: ExportSpec | a in w.history.archives && IsExportName(a.owner.name) && IsExportName(f.name)
        && SamePlace(a.bucket, a.basePath, spec)
        ensures Hits(CleanupOf(f, spec), LocationOf(a)) <==> f.name == a.owner.name
      {
        CleanupCoversAndIsolates(spec.bucket, spec.basePath, f.name, a.owner.name, a.fullName);
        hide ParseS3Path, ArchivePath, CleanupPath, Hits;
      }
      hide Hits, CleanupOf, LocationOf;
    } else {
      StepKeepsPlaces(w, events[0], digest);
      hide Step, PlacesAgree, CleanupOf, LocationOf, Hits;
      CleanupsMatchImages(Step(w, events[0], digest), events[1..], digest);
      assert Run(w, events, digest) == Run(Step(w, events[0], digest), events[1..], digest);
    }
  }

  lemma EmptyWorldPlaces()
    ensures PlacesAgree(EMPTY_WORLD)
  {
  }

  // ----- an edit

  /** Whether an edit of bucket and base path leaves an export its archives: exactly when it names the
      same directory as before, or one around it.  An edit between two unrelated base paths or two
      buckets orphans every archive. */
  predicate KeepsReach(e: Key, before: ExportSpec, after: ExportSpec) {
    var r, r' := Root(before.bucket, before.basePath), Root(after.bucket, after.basePath);
    r' == r || r' + e.name + "/" <= r
  }

  lemma EditKeepsArchivesIff(w: World, e: Key, spec: ExportSpec, a: Archive, digest: string -> string)
    requires PlacesAgree(w) && Unedited(w, e) && a in w.history.archives && a.owner == e && IsExportName(e.name)
    ensures var t := Step(w, ExportEdited(e, spec), digest);
      && e in t.exports && a in t.history.archives
      && (Hits(CleanupOf(e, t.exports[e].spec), LocationOf(a)) <==> KeepsReach(e, w.exports[e].spec, spec))
  {
    var t := Step(w, ExportEdited(e, spec), digest);
    var before := w.exports[e].spec;
    assert t.exports[e].spec == spec && t.history.archives == w.history.archives;
    assert SamePlace(a.bucket, a.basePath, before);
    hide Step, PlacesAgree;
    CleanupHitsIff(spec.bucket, spec.basePath, e.name, before.bucket, before.basePath, e.name, a.fullName);
    SameEnd(Root(spec.bucket, spec.basePath), Root(before.bucket, before.basePath), e.name);
    hide ParseS3Path, ArchivePath, CleanupPath, Hits, Root;
  }

  lemma SameEnd(r: string, r': string, e: string)
    ensures r + e == r' + e <==> r == r'
  {
    if r + e == r' + e {
      assert r == (r + e)[..|r|] && r' == (r' + e)[..|r'|];
    }
  }
}
