/** What whole runs from the empty cluster end with, put together from the claims about images, jobs
    and archives. */
module SettledRuns {
  import opened Cluster
  import opened Controllers
  import opened Runs
  import opened Presence
  import opened Justification
  import opened StoragePaths
  import opened StoredArchives

  /** Whatever fails on the way: once no job is left, the full name of every COMPLETED or PRESENT image
      was stored by a job, unless the image is PRESENT and a job of that name was created and has
      failed or been lost. */
  lemma StoredOnceSettled(events: seq<Event>, digest: string -> string)
    requires Run(EMPTY_WORLD, events, digest).jobs == map[]
    ensures var t := Run(EMPTY_WORLD, events, digest);
      forall k | k in t.images && IsStored(t.images[k].progress) ::
        var name := NameOf(t, k);
        || name in t.history.succeeded
        || (t.images[k].progress.Present? && name in t.history.jobNames
            && (name in t.history.failedNames || name in t.history.lostNames))
  {
    EmptyWorldNames();
    EmptyWorldPresence();
    hide Run, NamesInv, PresenceInv;
    PresentMeansJobCreated(EMPTY_WORLD, events, digest);
    PresentIsJustified(EMPTY_WORLD, events, digest);
  }

  /** Whatever fails on the way, and whatever is edited: the cleanup job created last for an export whose
      bucket and base path were not edited was told a path that covers everything the jobs of the export
      were told to write. */
  lemma CleanedOfEverything(events: seq<Event>, digest: string -> string, e: Key)
    requires var t := Run(EMPTY_WORLD, events, digest); e in t.history.cleaned && e !in t.history.edited
    requires IsExportName(e.name)
    ensures var t := Run(EMPTY_WORLD, events, digest);
      forall a | a in t.history.archives && a.owner == e :: Hits(CleanupOf(e, t.history.cleaned[e]), LocationOf(a))
  {
    EmptyWorldPlaces();
    hide Run, PlacesAgree, Hits, CleanupOf, LocationOf;
    CleanupsMatchImages(EMPTY_WORLD, events, digest);
  }
}
