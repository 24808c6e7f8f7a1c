/** Runs: the two controllers and everything around them, one event at a time. */
module Runs {
  import opened Sequences
  import opened Cluster
  import opened Controllers

  datatype Event =
    | ImageReconcile(k: Key, view: View, writes: Writes)
    | ExportReconcile(e: Key, found: Discovery, writes: Writes)
    | JobSucceeds(k: Key)
    | JobFails(k: Key)
    | JobDeleted(k: Key)                         // from outside
    | CleanupJobEnds(job: Key)
    | ImageDeleted(k: Key)                       // its job is garbage-collected with it
    | ExportApplied(e: Key, spec: ExportSpec)
    | ExportEdited(e: Key, spec: ExportSpec)
    | ExportDeleteRequested(e: Key)
    | OperatorRestarts

  ghost function Step(w: World, ev: Event, digest: string -> string): World {
    match ev
    case ImageReconcile(k, view, writes) => Reconcile(w.(writes := writes), k, view).w
    case ExportReconcile(e, found, writes) => ReconcileExport(w.(writes := writes), e, found, digest).w
    case JobSucceeds(k) =>
      if k !in w.jobs then w
      else
        w.(jobs := w.jobs[k := w.jobs[k].(succeeded := w.jobs[k].succeeded + 1)],
           history := w.history.(succeeded := w.history.succeeded + {w.jobs[k].fullName}))
    case JobFails(k) =>
      if k !in w.jobs then w
      else w.(jobs := w.jobs[k := w.jobs[k].(failed := w.jobs[k].failed + 1)],
              history := w.history.(failedNames := w.history.failedNames + {w.jobs[k].fullName}))
    case JobDeleted(k) => LoseJob(w, k)
    case CleanupJobEnds(job) => w.(cleanupJobs := w.cleanupJobs - {job})
    case ImageDeleted(k) =>
      if k !in w.images then w
      else
        var e := ExportOf(k, w.images[k]);
        var w1 := LoseJob(w, k).(images := w.images - {k});
        if e in w.exports then w1.(history := w1.history.(deletedFrom := w1.history.deletedFrom + {e})) else w1
    case ExportApplied(e, spec) =>
      // a name is free again once the old object and, by garbage collection, its images are gone
      if e in w.exports || (exists j :: IsImageOf(w, j, e)) then w
      else w.(exports := w.exports[e := Export(spec, Unset, false, false)],
              history := w.history.(imaged := w.history.imaged - {e}, cleaned := w.history.cleaned - {e},
                                    deletedFrom := w.history.deletedFrom - {e}, edited := w.history.edited - {e},
                                    asked := w.history.asked - {e}, cut := w.history.cut - {e},
                                    archives := set a | a in w.history.archives && a.owner != e))
    case ExportEdited(e, spec) =>
      if e !in w.exports then w
      else
        var x := w.exports[e];
        var w1 := w.(exports := w.exports[e := x.(spec := spec)]);
        if spec.bucket == x.spec.bucket && spec.basePath == x.spec.basePath then w1
        else w1.(history := w.history.(edited := w.history.edited + {e}))
    case ExportDeleteRequested(e) =>
      if e !in w.exports then w
      else if w.exports[e].finalizer then w.(exports := w.exports[e := w.exports[e].(deleting := true)])
      else w.(exports := w.exports - {e})
    case OperatorRestarts => w.(activeJobs := 0)
  }

  ghost function Run(w: World, events: seq<Event>, digest: string -> string): World
    decreases |events|
  {
    if events == [] then w else Run(Step(w, events[0], digest), events[1..], digest)
  }

  /** The events that touch neither images nor jobs. */
  predicate IsQuiet(ev: Event) {
    ev.CleanupJobEnds? || ev.ExportApplied? || ev.ExportEdited? || ev.ExportDeleteRequested? || ev.OperatorRestarts?
  }

  lemma QuietEvents(w: World, ev: Event, digest: string -> string)
    requires IsQuiet(ev)
    ensures var t := Step(w, ev, digest);
      && t.images == w.images && t.jobs == w.jobs && (t.activeJobs == if ev.OperatorRestarts? then 0 else w.activeJobs)
      && t.history == w.history.(imaged := t.history.imaged, cleaned := t.history.cleaned,
                                 archives := t.history.archives, deletedFrom := t.history.deletedFrom,
                                 edited := t.history.edited, asked := t.history.asked, cut := t.history.cut)
  {
    hide IsImageOf;
  }

  lemma {:induction false} RunAppend(w: World, a: seq<Event>, b: seq<Event>, digest: string -> string)
    ensures Run(w, a + b, digest) == Run(Run(w, a, digest), b, digest)
    decreases |a|
  {
    if a == [] {
      EmptySum(b);
    } else {
      TailOfSum(a, b);
      hide Step;
      RunAppend(Step(w, a[0], digest), a[1..], b, digest);
    }
  }
}
