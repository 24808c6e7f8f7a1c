/** When the cluster can stand still: with reliable calls a stuck world is a finished one, unless
    lost slots have used up an export's limit. */
module Liveness {
  import opened Cluster
  import opened Controllers
  import opened ImageMoves
  import opened ImageResults
  import opened Runs
  import opened Retries
  import opened Slots
  import opened Termination

  /** No restarts seen. */
  const CALM := View([], [])

  predicate ExportsExist(w: World) {
    forall k | k in w.images :: ExportOf(k, w.images[k]) in w.exports
  }

  /** A reliable reconcile or the end of a job changes something. */
  ghost predicate CanChange(w: World, digest: string -> string) {
    || (exists k, view ::
        && ReliableEvent(w, ImageReconcile(k, view, Reliable))
        && Progressed(w, Step(w, ImageReconcile(k, view, Reliable), digest)))
    || (exists k :: Progressed(w, Step(w, JobSucceeds(k), digest)))
    || (exists k :: Progressed(w, Step(w, JobFails(k), digest)))
  }

  /** Waiting for a slot that lost jobs keep occupied. */
  predicate Starved(w: World, k: Key)
    requires k in w.images && ExportOf(k, w.images[k]) in w.exports
  {
    w.images[k].progress.Pending? && w.exports[ExportOf(k, w.images[k])].spec.maxConcurrentJobs <= w.history.lost
  }

  predicate OnlyStarvedLeft(w: World)
    requires ExportsExist(w)
  {
    w.jobs == map[] && forall k | k in w.images :: Terminal(w.images[k].progress) || Starved(w, k)
  }

  /** An image that is not final, has a slot if it needs one and no unfinished job moves when it is
      reconciled. */
  lemma ReconcileProgresses(w: World, k: Key)
    requires SlotInv(w) && RetryInv(w) && k in w.images && ExportOf(k, w.images[k]) in w.exports && w.writes.Reliable?
    requires !Settled(w.images[k].progress) && !Live(w, k)
    requires w.images[k].progress.Pending? ==> HasSlot(w, k)
    ensures Progressed(w, Reconcile(w, k, CALM).w)
  {
    var o := Reconcile(w, k, CALM);
    ReconcileMoves(w, k, CALM);
    NotIdle(w, k);
    PurgeNeedsRestart(w, o, k);
    assert StatusOk(w.images[k]);
    hide Reconcile, Moves, Idle, Purges, RetryInv, SlotInv;
    MoveCostsOwn(w, o, k, CALM, 5);
    if !Progressed(w, o.w) {
      SameWeight(w, o.w, k);
    }
    hide Weight;
  }

  lemma SameWeight(w: World, w': World, k: Key)
    requires !Progressed(w, w')
    ensures Weight(w', k, 5) == Weight(w, k, 5)
  {
    assert k in Stage(w') <==> k in Stage(w);
    assert k in w.jobs ==> Stage(w')[k] == Stage(w)[k];
  }

  lemma PurgeNeedsRestart(w: World, o: Outcome, k: Key)
    requires k in w.images
    ensures !Purges(w, o, k, CALM)
  {
    assert FirstRestart(CALM.restarts) == 0;
  }

  lemma NotIdle(w: World, k: Key)
    requires SlotInv(w) && k in w.images && ExportOf(k, w.images[k]) in w.exports && w.writes.Reliable?
    requires !Settled(w.images[k].progress) && !Live(w, k)
    requires w.images[k].progress.Pending? ==> HasSlot(w, k)
    ensures !Idle(w, Reconcile(w, k, CALM), k)
  {
    var e := ExportOf(k, w.images[k]);
    var v := w.(maxParallelJobs := w.exports[e].spec.maxConcurrentJobs);
    match w.images[k].progress
    case Unset =>
    case Pending => hide ImageExists;
    case _ => ActiveNotIdle(v, k);
      hide HandleRunning;
  }

  lemma ActiveNotIdle(w: World, k: Key)
    requires k in w.images && ExportOf(k, w.images[k]) in w.exports && w.writes.Reliable?
    requires Active(w.images[k].progress) && !Live(w, k)
    ensures var w' := HandleRunning(w, k, CALM).w; w'.images != w.images || w'.jobs != w.jobs
  {
    if k in w.jobs && !(JobFailed(w, k) && w.images[k].retries < MAX_RETRIES) {
      var progress := if Succeeded(w, k) then Completed else Failed;
      var o1 := UpdateImage(w.(activeJobs := w.activeJobs - 1), k, progress, w.images[k].retries);
      var o2 := CleanupJobAndPods(o1.w, k);
      FinishTail(o2.w, k, CALM);
      assert FirstRestart(CALM.restarts) == 0;
      hide Finish;
      assert k !in HandleRunning(w, k, CALM).w.jobs;
    }
  }

  lemma NothingLeftIsStuck(w: World, digest: string -> string)
    requires SlotInv(w) && ExportsExist(w) && OnlyStarvedLeft(w)
    ensures !CanChange(w, digest)
  {
    forall k, view
      ensures !Progressed(w, Step(w, ImageReconcile(k, view, Reliable), digest))
    {
      if k in w.images {
        assert Terminal(w.images[k].progress) || Starved(w, k);
        hide HandlePending, HandleRunning;
      }
    }
  }

  lemma LiveJobCanEnd(w: World, k: Key, digest: string -> string)
    requires Live(w, k)
    ensures Progressed(w, Step(w, JobSucceeds(k), digest))
  {
    var w' := Step(w, JobSucceeds(k), digest);
    assert k in Stage(w) && !Stage(w)[k] && k in Stage(w') && Stage(w')[k];
  }

  /** A world that the invariants allow is stuck exactly when no job exists and every image is
      final or starved.  Without lost jobs and with positive limits that means: finished. */
  lemma StuckIff(w: World, digest: string -> string)
    requires SlotInv(w) && RetryInv(w) && ExportsExist(w)
    ensures !CanChange(w, digest) <==> OnlyStarvedLeft(w)
    ensures !CanChange(w, digest) && w.history.lost == 0
        && (forall e | e in w.exports :: w.exports[e].spec.maxConcurrentJobs >= 1)
        ==> forall k | k in w.images :: Terminal(w.images[k].progress)
  {
    if OnlyStarvedLeft(w) {
      NothingLeftIsStuck(w, digest);
    } else {
      var k := SomebodyToMove(w);
      MoverCanChange(w, k, digest);
    }
    hide CanChange;
  }

  predicate Movable(w: World, k: Key) {
    k in w.images && !Settled(w.images[k].progress) && (w.images[k].progress.Pending? ==> HasSlot(w, k))
  }

  lemma SomebodyToMove(w: World) returns (k: Key)
    requires SlotInv(w) && RetryInv(w) && ExportsExist(w) && !OnlyStarvedLeft(w)
    ensures Movable(w, k)
  {
    if j :| j in w.jobs {
      k := j;
    } else {
      assert w.jobs == map[];
      k :| k in w.images && !Terminal(w.images[k].progress) && !Starved(w, k);
      assert StatusOk(w.images[k]);
      assert w.activeJobs == w.history.lost;
    }
  }

  lemma MoverCanChange(w: World, k: Key, digest: string -> string)
    requires SlotInv(w) && RetryInv(w) && ExportsExist(w) && Movable(w, k)
    ensures CanChange(w, digest)
  {
    if Live(w, k) {
      LiveJobCanEnd(w, k, digest);
    } else {
      var v := w.(writes := Reliable);
      ReconcileProgresses(v, k);
      hide Reconcile;
      assert ReliableEvent(w, ImageReconcile(k, CALM, Reliable));
      assert Progressed(w, Step(w, ImageReconcile(k, CALM, Reliable), digest));
    }
    hide Step, Progressed;
  }

  lemma {:induction false} ReliableInv(w: World, events: seq<Event>, digest: string -> string)
    requires SlotInv(w) && ReliableRun(w, events, digest)
    ensures SlotInv(Run(w, events, digest))
    decreases |events|
  {
    if events != [] {
      StepKeepsSlots(w, events[0], digest);
      hide Step, SlotInv, ReliableEvent;
      ReliableInv(Step(w, events[0], digest), events[1..], digest);
    }
  }

  /** After every reliable run whose images still have their exports: the world is stuck exactly
      when no job exists and every image is final or starved by lost slots; and when nothing was
      lost and every limit is positive, exactly when every image is final and no job is left. */
  lemma DeadlockFreeIff(events: seq<Event>, digest: string -> string)
    requires ReliableRun(EMPTY_WORLD, events, digest) && ExportsExist(Run(EMPTY_WORLD, events, digest))
    ensures var w := Run(EMPTY_WORLD, events, digest);
      && (!CanChange(w, digest) <==> OnlyStarvedLeft(w))
      && (w.history.lost == 0 && (forall e | e in w.exports :: w.exports[e].spec.maxConcurrentJobs >= 1)
          ==> (!CanChange(w, digest)
              <==> w.jobs == map[] && forall k | k in w.images :: Terminal(w.images[k].progress)))
  {
    var w := Run(EMPTY_WORLD, events, digest);
    EmptyWorldSlots();
    EmptyWorldRetries();
    assert JobsHaveImages(EMPTY_WORLD);
    ReliableInv(EMPTY_WORLD, events, digest);
    ReachableInv(EMPTY_WORLD, events, digest);
    hide Run, CanChange, SlotInv, RetryInv, ReliableRun;
    StuckIff(w, digest);
  }
}
