/** Termination: with a fixed set of images and no job deleted from outside, only finitely many
    steps change anything, and there is a bound.  API calls may fail. */
module Termination {
  import opened Cluster
  import opened Controllers
  import opened ImageMoves
  import opened ImageResults
  import opened ExportMoves
  import opened Runs
  import opened Retries

  predicate Finished(j: Job) {
    j.succeeded > 0 || j.failed > 0
  }

  /** The jobs, as far as they matter here: which exist, and which of them have ended. */
  function Stage(w: World): map<Key, bool> {
    map k | k in w.jobs :: Finished(w.jobs[k])
  }

  ghost predicate Progressed(w: World, w': World) {
    w'.images != w.images || Stage(w') != Stage(w)
  }

  predicate JobsHaveImages(w: World) {
    w.jobs.Keys <= w.images.Keys
  }

  /** How far an image is within its current try: without a job it has further to go. */
  function Rank(w: World, k: Key): nat
    requires k in w.images
  {
    var p := w.images[k].progress;
    (if p.Unset? then 2 else 0)
    + (if k in w.jobs then if Finished(w.jobs[k]) then 1 else 2
       else if Active(p) then 4
       else if p.Pending? || p.Unset? then 3
       else 0)
  }

  predicate Settled(p: Progress) {
    Terminal(p) || p.Starting?
  }

  /** Tries left, in whole units. */
  function Tries(retries: nat, unit: nat): nat {
    if retries == 0 then 4 * unit
    else if retries == 1 then 3 * unit
    else if retries == 2 then 2 * unit
    else if retries == 3 then unit
    else 0
  }

  /** Tries left count in whole units, progress within a try in small change. */
  function Weight(w: World, k: Key, unit: nat): nat {
    if k !in w.images then 0
    else
      var img := w.images[k];
      (if Settled(img.progress) then 0 else Tries(img.retries, unit)) + Rank(w, k)
  }

  ghost function Total(ks: set<Key>, w: World, unit: nat): nat {
    if ks == {} then 0
    else
      var k :| k in ks;
      Weight(w, k, unit) + Total(ks - {k}, w, unit)
  }

  function Unit(n: nat): nat {
    4 * n + 5
  }

  ghost function Measure(w: World): nat {
    Total(w.images.Keys, w, Unit(|w.images|))
  }

  // ----- sums

  lemma {:induction false} TotalPick(ks: set<Key>, k: Key, w: World, unit: nat)
    requires k in ks
    ensures Total(ks, w, unit) == Weight(w, k, unit) + Total(ks - {k}, w, unit)
  {
    hide Weight;
    var j :| j in ks && Total(ks, w, unit) == Weight(w, j, unit) + Total(ks - {j}, w, unit);
    if j != k {
      TotalPick(ks - {j}, k, w, unit);
      TotalPick(ks - {k}, j, w, unit);
      assert ks - {j} - {k} == ks - {k} - {j};
    }
  }

  lemma {:induction false} TotalGrows(ks: set<Key>, w: World, w': World, unit: nat, c: nat)
    requires forall j | j in ks :: Weight(w', j, unit) <= Weight(w, j, unit) + c
    ensures Total(ks, w', unit) <= Total(ks, w, unit) + c * |ks|
  {
    hide Weight;
    if ks != {} {
      var k :| k in ks;
      TotalPick(ks, k, w, unit);
      TotalPick(ks, k, w', unit);
      TotalGrows(ks - {k}, w, w', unit, c);
      assert c * |ks| == c * |ks - {k}| + c;
    }
  }

  lemma {:induction false} TotalBound(ks: set<Key>, w: World, unit: nat, c: nat)
    requires forall j | j in ks :: Weight(w, j, unit) <= c
    ensures Total(ks, w, unit) <= c * |ks|
  {
    hide Weight;
    if ks != {} {
      var k :| k in ks;
      TotalPick(ks, k, w, unit);
      TotalBound(ks - {k}, w, unit, c);
      assert c * |ks| == c * |ks - {k}| + c;
    }
  }

  // ----- one move

  /** Except for an idle one, a move that purges nothing costs its image and nobody gains. */
  lemma MoveCosts(w: World, o: Outcome, k: Key, view: View, unit: nat)
    requires RetryInv(w) && k in w.images && Moves(w, o, k, view) && unit >= 5
    requires !Idle(w, o, k) && !Purges(w, o, k, view)
    ensures Weight(o.w, k, unit) < Weight(w, k, unit)
    ensures forall j | j in w.images && j != k :: Weight(o.w, j, unit) <= Weight(w, j, unit)
  {
    assert StatusOk(w.images[k]);
    MoveCostsOwn(w, o, k, view, unit);
    MoveLeavesOthers(w, o, k, view);
    hide Moves, Purges, Idle, RetryInv;
    forall j | j in w.images && j != k
      ensures Weight(o.w, j, unit) <= Weight(w, j, unit)
    {
      LosingAJob(w, o.w, j, unit);
    }
    hide Weight;
  }

  lemma MoveCostsOwn(w: World, o: Outcome, k: Key, view: View, unit: nat)
    requires k in w.images && StatusOk(w.images[k]) && Moves(w, o, k, view) && unit >= 5
    requires !Idle(w, o, k) && !Purges(w, o, k, view)
    ensures Weight(o.w, k, unit) < Weight(w, k, unit)
  {
    hide ImageExists, HasSlot, Purges;
  }

  lemma MoveLeavesOthers(w: World, o: Outcome, k: Key, view: View)
    requires k in w.images && Moves(w, o, k, view) && !Purges(w, o, k, view)
    ensures forall j | j in w.images && j != k ::
      && j in o.w.images && o.w.images[j] == w.images[j]
      && (j in o.w.jobs <==> j in w.jobs) && (j in w.jobs ==> o.w.jobs[j] == w.jobs[j])
  {
    MoveKeepsImages(w, o, k, view);
    MoveLeavesOtherJobs(w, o, k, view);
    hide Moves, Purges;
  }

  lemma MoveLeavesOtherJobs(w: World, o: Outcome, k: Key, view: View)
    requires k in w.images && Moves(w, o, k, view) && !Purges(w, o, k, view)
    ensures o.w.jobs - {k} == w.jobs - {k}
    ensures forall j | j != k :: (j in o.w.jobs <==> j in w.jobs) && (j in w.jobs ==> o.w.jobs[j] == w.jobs[j])
  {
    hide ImageExists, HasSlot, Purges;
  }

  /** A purge ends its own image, and every other image loses at most its job. */
  lemma PurgeCosts(w: World, o: Outcome, k: Key, view: View, unit: nat)
    requires RetryInv(w) && k in w.images && Purges(w, o, k, view)
    ensures Weight(o.w, k, unit) + unit <= Weight(w, k, unit)
    ensures forall j | j in w.images && j != k :: Weight(o.w, j, unit) <= Weight(w, j, unit) + 3
  {
    assert StatusOk(w.images[k]);
    PurgeOnlyRemoves(w, o, k, view);
    PurgeCostsOwn(w, o, k, unit);
    hide Purges, RetryInv;
    forall j | j in w.images && j != k
      ensures Weight(o.w, j, unit) <= Weight(w, j, unit) + 3
    {
      LosingAJob(w, o.w, j, unit);
    }
    hide Weight;
  }

  lemma PurgeCostsOwn(w: World, o: Outcome, k: Key, unit: nat)
    requires k in w.images && StatusOk(w.images[k]) && Active(w.images[k].progress)
    requires k in o.w.images && o.w.images[k].progress.Failed?
    requires k in o.w.jobs ==> k in w.jobs && o.w.jobs[k] == w.jobs[k]
    ensures Weight(o.w, k, unit) + unit <= Weight(w, k, unit)
  {
  }

  lemma LosingAJob(w: World, w': World, j: Key, unit: nat)
    requires j in w.images && j in w'.images && w'.images[j] == w.images[j]
    requires j in w'.jobs ==> j in w.jobs && w'.jobs[j] == w.jobs[j]
    ensures Weight(w', j, unit) <= Weight(w, j, unit) + (if j in w.jobs && j !in w'.jobs then 3 else 0)
  {
    hide Tries;
  }

  lemma PurgeOnlyRemoves(w: World, o: Outcome, k: Key, view: View)
    requires k in w.images && Purges(w, o, k, view)
    ensures forall j | j in o.w.jobs :: j in w.jobs && o.w.jobs[j] == w.jobs[j]
    ensures o.w.images == w.images[k := o.w.images[k]] && o.w.images[k].progress.Failed?
    ensures Active(w.images[k].progress)
  {
    var m :| BeforeTail(w, m, k) && Purged(Books(m), Books(o.w), k.ns) && o.w.activeJobs == m.activeJobs;
  }

  lemma IdleKeeps(w: World, o: Outcome, k: Key)
    requires k in w.images && Idle(w, o, k)
    ensures !Progressed(w, o.w) && o.w.images == w.images && o.w.jobs == w.jobs
  {
  }

  lemma PurgeDecreases(w: World, o: Outcome, k: Key, view: View)
    requires RetryInv(w) && k in w.images && Purges(w, o, k, view) && o.w.images.Keys == w.images.Keys
    ensures Measure(o.w) < Measure(w)
  {
    hide Purges, RetryInv, Weight;
    var ks, unit := w.images.Keys, Unit(|w.images|);
    SameKeysSameSize(o.w.images, w.images);
    TotalPick(ks, k, w, unit);
    TotalPick(ks, k, o.w, unit);
    PurgeCosts(w, o, k, view, unit);
    TotalGrows(ks - {k}, w, o.w, unit, 3);
    assert |ks - {k}| == |ks| - 1;
    hide Total;
  }

  lemma MoveDecreases(w: World, o: Outcome, k: Key, view: View)
    requires RetryInv(w) && k in w.images && Moves(w, o, k, view) && o.w.images.Keys == w.images.Keys
    requires !Idle(w, o, k) && !Purges(w, o, k, view)
    ensures Measure(o.w) < Measure(w)
  {
    hide Moves, Idle, Purges, RetryInv, Weight;
    var ks, unit := w.images.Keys, Unit(|w.images|);
    SameKeysSameSize(o.w.images, w.images);
    TotalPick(ks, k, w, unit);
    TotalPick(ks, k, o.w, unit);
    MoveCosts(w, o, k, view, unit);
    TotalGrows(ks - {k}, w, o.w, unit, 0);
    hide Total;
  }

  /** Every reconcile, reliable or not, leaves images and jobs as they are or lowers the measure. */
  lemma ReconcileDecreases(w: World, k: Key, view: View)
    requires RetryInv(w)
    ensures var w' := Reconcile(w, k, view).w;
      && w'.images.Keys == w.images.Keys
      && (Progressed(w, w') ==> Measure(w') < Measure(w))
      && (!Progressed(w, w') ==> Measure(w') == Measure(w))
  {
    var o := Reconcile(w, k, view);
    if k in w.images {
      ReconcileMoves(w, k, view);
      MoveKeepsImages(w, o, k, view);
      hide Reconcile, Moves, Measure, Progressed, Idle, Purges, RetryInv;
      if Idle(w, o, k) {
        IdleKeeps(w, o, k);
        SameMeasure(w, o.w);
      } else if Purges(w, o, k, view) {
        PurgeDecreases(w, o, k, view);
      } else {
        MoveDecreases(w, o, k, view);
      }
      if !Progressed(w, o.w) {
        SameMeasure(w, o.w);
      }
    } else {
      assert o.w == w;
      hide Reconcile;
      SameMeasure(w, o.w);
    }
  }

  lemma SameKeysSameSize<X>(a: map<Key, X>, b: map<Key, X>)
    requires a.Keys == b.Keys
    ensures |a| == |b|
  {
    assert |a.Keys| == |b.Keys|;
  }

  lemma {:induction false} SameTotal(ks: set<Key>, w: World, w': World, unit: nat)
    requires forall j | j in ks :: Weight(w', j, unit) == Weight(w, j, unit)
    ensures Total(ks, w', unit) == Total(ks, w, unit)
  {
    TotalGrows(ks, w, w', unit, 0);
    TotalGrows(ks, w', w, unit, 0);
  }

  lemma SameMeasure(w: World, w': World)
    requires !Progressed(w, w')
    ensures Measure(w') == Measure(w)
  {
    forall j
      ensures Weight(w', j, Unit(|w.images|)) == Weight(w, j, Unit(|w.images|))
    {
      assert j in Stage(w') <==> j in Stage(w);
      assert j in w.jobs ==> Stage(w')[j] == Stage(w)[j];
    }
    SameTotal(w.images.Keys, w, w', Unit(|w.images|));
  }

  // ----- one event

  /** The hypotheses: no job deleted from outside, no image added or removed. */
  ghost predicate Undisturbed(w: World, ev: Event, digest: string -> string) {
    !ev.JobDeleted? && Step(w, ev, digest).images.Keys == w.images.Keys
  }

  lemma JobEventDecreases(w: World, w': World, k: Key, j: Job)
    requires JobsHaveImages(w) && k in w.jobs && w'.images == w.images
    requires Finished(j) && w'.jobs == w.jobs[k := j]
    ensures Progressed(w, w') ==> Measure(w') < Measure(w)
  {
    if Progressed(w, w') {
      assert Finished(w.jobs[k]) ==> Stage(w') == Stage(w);
      var ks, unit := w.images.Keys, Unit(|w.images|);
      assert k in ks;
      TotalPick(ks, k, w, unit);
      TotalPick(ks, k, w', unit);
      assert Weight(w', k, unit) + 1 == Weight(w, k, unit);
      TotalGrows(ks - {k}, w, w', unit, 0);
    }
  }

  lemma StepDecreases(w: World, ev: Event, digest: string -> string)
    requires RetryInv(w) && JobsHaveImages(w) && Undisturbed(w, ev, digest)
    ensures var w' := Step(w, ev, digest);
      && (Progressed(w, w') ==> Measure(w') < Measure(w))
      && (!Progressed(w, w') ==> Measure(w') == Measure(w))
  {
    var w' := Step(w, ev, digest);
    match ev {
      case ImageReconcile(k, view, writes) =>
        var v := w.(writes := writes);
        SameMeasure(w, v);
        assert Stage(v) == Stage(w);
        ReconcileDecreases(v, k, view);
        hide Reconcile, Measure, Stage;
      case JobSucceeds(k) =>
        if k in w.jobs {
          JobEventDecreases(w, w', k, w'.jobs[k]);
        }
      case JobFails(k) =>
        if k in w.jobs {
          JobEventDecreases(w, w', k, w'.jobs[k]);
        }
      case _ =>
        OtherEventsKeep(w, ev, digest);
    }
    if !Progressed(w, w') {
      SameMeasure(w, w');
    }
    hide Step, Progressed, Measure;
  }

  lemma OtherEventsKeep(w: World, ev: Event, digest: string -> string)
    requires Undisturbed(w, ev, digest) && !ev.ImageReconcile? && !ev.JobSucceeds? && !ev.JobFails?
    ensures !Progressed(w, Step(w, ev, digest))
  {
    if ev.ExportReconcile? {
      ReconcileExportFrame(w.(writes := ev.writes), ev.e, ev.found, digest);
      hide ReconcileExport;
      assert Step(w, ev, digest).images == w.images;
    }
  }

  lemma StepKeepsJobsHaveImages(w: World, ev: Event, digest: string -> string)
    requires JobsHaveImages(w)
    ensures JobsHaveImages(Step(w, ev, digest))
  {
    match ev
    case ImageReconcile(k, view, writes) =>
      var w1 := w.(writes := writes);
      if k in w.images {
        var o := Reconcile(w1, k, view);
        ReconcileMoves(w1, k, view);
        MoveKeepsImages(w1, o, k, view);
        MoveAddsOwnJobOnly(w1, o, k, view);
        hide Reconcile, Moves;
      }
    case ExportReconcile(e, found, writes) =>
      ReconcileExportFrame(w.(writes := writes), e, found, digest);
      hide ReconcileExport;
    case _ =>
  }

  lemma MoveAddsOwnJobOnly(w: World, o: Outcome, k: Key, view: View)
    requires k in w.images && Moves(w, o, k, view)
    ensures o.w.jobs.Keys <= w.jobs.Keys + {k}
  {
    hide ImageExists, HasSlot;
  }

  // ----- whole runs

  ghost predicate UndisturbedRun(w: World, events: seq<Event>, digest: string -> string)
    decreases |events|
  {
    events == [] || (Undisturbed(w, events[0], digest)
        && UndisturbedRun(Step(w, events[0], digest), events[1..], digest))
  }

  /** How many steps of the run change an image or start, end or remove a job. */
  ghost function Changes(w: World, events: seq<Event>, digest: string -> string): nat
    decreases |events|
  {
    if events == [] then 0
    else
      var w' := Step(w, events[0], digest);
      (if Progressed(w, w') then 1 else 0) + Changes(w', events[1..], digest)
  }

  lemma {:induction false} ChangesAreBounded(w: World, events: seq<Event>, digest: string -> string)
    requires RetryInv(w) && JobsHaveImages(w) && UndisturbedRun(w, events, digest)
    ensures Changes(w, events, digest) + Measure(Run(w, events, digest)) <= Measure(w)
    decreases |events|
  {
    if events != [] {
      var w' := Step(w, events[0], digest);
      StepDecreases(w, events[0], digest);
      StepKeepsRetries(w, events[0], digest);
      StepKeepsJobsHaveImages(w, events[0], digest);
      hide Step, Progressed;
      ChangesAreBounded(w', events[1..], digest);
    }
  }

  lemma {:induction false} ReachableInv(w: World, events: seq<Event>, digest: string -> string)
    requires RetryInv(w) && JobsHaveImages(w)
    ensures RetryInv(Run(w, events, digest)) && JobsHaveImages(Run(w, events, digest))
    decreases |events|
  {
    if events != [] {
      StepKeepsRetries(w, events[0], digest);
      StepKeepsJobsHaveImages(w, events[0], digest);
      hide Step, RetryInv, JobsHaveImages;
      ReachableInv(Step(w, events[0], digest), events[1..], digest);
    }
  }

  lemma MeasureBound(w: World)
    ensures var n := |w.images|; Measure(w) <= 16 * n * n + 25 * n
  {
    var n := |w.images|;
    var unit := Unit(n);
    forall j | j in w.images.Keys
      ensures Weight(w, j, unit) <= 4 * unit + 5
    {
    }
    TotalBound(w.images.Keys, w, unit, 4 * unit + 5);
    assert |w.images.Keys| == n;
    assert Measure(w) <= (4 * unit + 5) * n;
    hide Measure;
    Arithmetic(n);
  }

  /** From any reachable world on: however the controllers, the jobs and the API failures
      interleave, a cluster of n images changes at most 16n² + 25n times. */
  lemma QuadraticallyManyChanges(before: seq<Event>, events: seq<Event>, digest: string -> string)
    requires UndisturbedRun(Run(EMPTY_WORLD, before, digest), events, digest)
    ensures var w := Run(EMPTY_WORLD, before, digest);
      var n := |w.images|; Changes(w, events, digest) <= 16 * n * n + 25 * n
  {
    var w := Run(EMPTY_WORLD, before, digest);
    EmptyWorldRetries();
    assert JobsHaveImages(EMPTY_WORLD);
    ReachableInv(EMPTY_WORLD, before, digest);
    hide *;
    ChangesAreBounded(w, events, digest);
    MeasureBound(w);
  }

  lemma Arithmetic(n: nat)
    ensures (4 * Unit(n) + 5) * n == 16 * n * n + 25 * n
  {
    assert 4 * Unit(n) + 5 == 16 * n + 25;
    assert (16 * n + 25) * n == 16 * n * n + 25 * n;
  }
}
