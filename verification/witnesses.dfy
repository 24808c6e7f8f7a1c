/** Where plausible claims fail: families of worlds and the runs that refute the claims in them. */
module Witnesses {
  import opened Cluster
  import opened Controllers
  import opened ImageMoves
  import opened ImageResults
  import opened Runs
  import opened Slots
  import opened Liveness
  import opened Presence

  /** Reconcile reliably, seeing no restarts. */
  function Calmly(k: Key): Event {
    ImageReconcile(k, CALM, Reliable)
  }

  /** The world with a new progress for one image, as a reliable reconcile leaves it. */
  ghost predicate Becomes(w: World, t: World, k: Key, progress: Progress, retries: nat)
    requires k in w.images
  {
    && Sets(w, t, k, progress, retries)
    && t.exports.Keys == w.exports.Keys
    && (forall e | e in w.exports :: t.exports[e] == w.exports[e].(progress := t.exports[e].progress))
    && t.history == w.history.(created := t.history.created, jobNames := t.history.jobNames,
        archives := t.history.archives)
    && w.history.archives <= t.history.archives && t.cleanupJobs == w.cleanupJobs
  }

  predicate Ready(w: World, k: Key) {
    k in w.images && ExportOf(k, w.images[k]) in w.exports
  }

  lemma CalmAdopts(w: World, k: Key, digest: string -> string)
    requires Ready(w, k) && w.images[k].progress.Unset?
    ensures var t := Step(w, Calmly(k), digest);
      && Becomes(w, t, k, Pending, w.images[k].retries) && t.jobs == w.jobs && t.activeJobs == w.activeJobs
      && t.exports == w.exports
  {
  }

  lemma CalmStarts(w: World, k: Key, digest: string -> string)
    requires Ready(w, k) && w.images[k].progress.Pending? && HasSlot(w, k) && !ImageExists(w, k) && k !in w.jobs
    ensures var t := Step(w, Calmly(k), digest);
      && Becomes(w, t, k, Running, w.images[k].retries)
      && t.jobs == w.jobs[k := NewJob(w.images[k])] && t.activeJobs == w.activeJobs + 1
      && TargetNow(w, k) in t.history.archives && t.exports == w.exports
  {
    var v := w.(writes := Reliable, maxParallelJobs := w.exports[ExportOf(k, w.images[k])].spec.maxConcurrentJobs);
    assert !ImageExists(v, k) by {
      assert forall j | j in w.images :: Stands(v, j, k) == Stands(w, j, k);
    }
    hide ImageExists;
  }

  lemma CalmFinds(w: World, k: Key, j: Key, digest: string -> string)
    requires Ready(w, k) && w.images[k].progress.Pending? && HasSlot(w, k) && j in w.images && Stands(w, j, k)
    ensures var t := Step(w, Calmly(k), digest);
      Becomes(w, t, k, Present, w.images[k].retries) && t.jobs == w.jobs && t.activeJobs == w.activeJobs
  {
    var v := w.(writes := Reliable, maxParallelJobs := w.exports[ExportOf(k, w.images[k])].spec.maxConcurrentJobs);
    assert Stands(v, j, k);
    assert ImageExists(v, k);
    hide ImageExists;
  }

  lemma CalmRetries(w: World, k: Key, digest: string -> string)
    requires Ready(w, k) && Active(w.images[k].progress) && JobFailed(w, k) && w.images[k].retries < MAX_RETRIES
    ensures var t := Step(w, Calmly(k), digest);
      Becomes(w, t, k, Retrying, w.images[k].retries + 1) && t.jobs == w.jobs - {k} && t.activeJobs == w.activeJobs - 1
  {
  }

  lemma CalmMisses(w: World, k: Key, digest: string -> string)
    requires Ready(w, k) && Active(w.images[k].progress) && k !in w.jobs
    ensures var t := Step(w, Calmly(k), digest);
      Becomes(w, t, k, Pending, w.images[k].retries) && t.jobs == w.jobs && t.activeJobs == w.activeJobs
  {
  }

  /** Two images of one name, not yet touched, with room for a job, and nobody else of that name. */
  predicate Twins(w: World, a: Key, b: Key) {
    && Ready(w, a) && Ready(w, b) && a.name != b.name && NameOf(w, a) == NameOf(w, b)
    && w.images[a].progress.Unset? && w.images[b].progress.Unset? && w.images[a].retries < MAX_RETRIES
    && a !in w.jobs
    && w.activeJobs + 1 < w.exports[ExportOf(a, w.images[a])].spec.maxConcurrentJobs
    && w.activeJobs + 1 < w.exports[ExportOf(b, w.images[b])].spec.maxConcurrentJobs
    && (forall j | j in w.images && NameOf(w, j) == NameOf(w, a) :: j == a || j == b)
  }

  /** One twin is being exported, and the other has become PRESENT on its account. */
  ghost predicate Leaning(w: World, t: World, a: Key, b: Key) {
    && Ready(t, a) && Ready(t, b) && a.name != b.name && NameOf(t, a) == NameOf(t, b)
    && t.images[a].progress.Running? && t.images[a].retries < MAX_RETRIES && t.images[b].progress.Present?
    && Live(t, a) && t.jobs - {a} == w.jobs && t.history.succeeded == w.history.succeeded
    && t.activeJobs <= t.exports[ExportOf(a, t.images[a])].spec.maxConcurrentJobs
  }

  /** Both twins adopted. */
  predicate Queued(w: World, t: World, a: Key, b: Key) {
    && Ready(t, a) && Ready(t, b) && a.name != b.name && NameOf(t, a) == NameOf(t, b)
    && t.images[a].progress.Pending? && t.images[b].progress.Pending? && t.images[a].retries < MAX_RETRIES
    && t.jobs == w.jobs && a !in w.jobs && t.history.succeeded == w.history.succeeded
    && t.activeJobs + 1 < t.exports[ExportOf(a, t.images[a])].spec.maxConcurrentJobs
    && t.activeJobs + 1 < t.exports[ExportOf(b, t.images[b])].spec.maxConcurrentJobs
    && (forall j | j in t.images && NameOf(t, j) == NameOf(t, a) :: j == a || j == b)
  }

  lemma TwinsQueue(w: World, a: Key, b: Key, digest: string -> string)
    requires Twins(w, a, b)
    ensures Queued(w, Step(Step(w, Calmly(a), digest), Calmly(b), digest), a, b)
  {
    var w1 := Step(w, Calmly(a), digest);
    CalmAdopts(w, a, digest);
    CalmAdopts(w1, b, digest);
    hide Step;
  }

  lemma QueuedLean(w: World, t: World, a: Key, b: Key, digest: string -> string)
    requires Queued(w, t, a, b)
    ensures Leaning(w, Step(Step(t, Calmly(a), digest), Calmly(b), digest), a, b)
  {
    hide Step;
    assert !ImageExists(t, a);
    hide ImageExists;
    CalmStarts(t, a, digest);
    var w3 := Step(t, Calmly(a), digest);
    assert Stands(w3, a, b);
    CalmFinds(w3, b, a, digest);
  }

  lemma LeaningFalls(w: World, t: World, a: Key, b: Key, digest: string -> string)
    requires Leaning(w, t, a, b)
    ensures var u := Step(Step(t, JobFails(a), digest), Calmly(a), digest);
      var f := Step(Step(u, Calmly(a), digest), Calmly(a), digest);
      && a in f.images && f.images[a].progress.Present?
      && b in f.images && f.images[b].progress.Present?
      && f.jobs == w.jobs && f.history.succeeded == w.history.succeeded
  {
    var w5 := Step(t, JobFails(a), digest);
    JobFailsOnly(t, a, digest);
    hide Step;
    var w6 := Step(w5, Calmly(a), digest);
    CalmRetries(w5, a, digest);
    assert w6.jobs == w.jobs;
    var w7 := Step(w6, Calmly(a), digest);
    CalmMisses(w6, a, digest);
    assert Stands(w7, b, a);
    CalmFinds(w7, a, b, digest);
  }

  /** PRESENT does not mean stored: one image becomes PRESENT on account of the other's job, the job
      fails, and the other becomes PRESENT on account of the first.  Nothing has been stored. */
  lemma PresentOnEachOthersAccount(w: World, a: Key, b: Key, digest: string -> string)
    requires Twins(w, a, b)
    ensures
      var t := Run(w,
        [Calmly(a), Calmly(b), Calmly(a), Calmly(b), JobFails(a), Calmly(a), Calmly(a), Calmly(a)], digest);
      && a in t.images && t.images[a].progress.Present?
      && b in t.images && t.images[b].progress.Present?
      && t.jobs == w.jobs && t.history.succeeded == w.history.succeeded
  {
    var w4 := Step(Step(Step(Step(w, Calmly(a), digest), Calmly(b), digest), Calmly(a), digest), Calmly(b), digest);
    TwinsQueue(w, a, b, digest);
    QueuedLean(w, Step(Step(w, Calmly(a), digest), Calmly(b), digest), a, b, digest);
    LeaningFalls(w, w4, a, b, digest);
    hide Step, Leaning, Twins, Queued, Run;
    RunEight(w, Calmly(a), Calmly(b), Calmly(a), Calmly(b), JobFails(a), Calmly(a), Calmly(a), Calmly(a), digest);
  }

  lemma JobFailsOnly(w: World, k: Key, digest: string -> string)
    requires k in w.jobs
    ensures var t := Step(w, JobFails(k), digest);
      && t.images == w.images && t.exports == w.exports && t.activeJobs == w.activeJobs
      && t.jobs == w.jobs[k := w.jobs[k].(failed := w.jobs[k].failed + 1)] && t.history.succeeded == w.history.succeeded
  {
  }

  lemma {:induction false} RunCons(w: World, ev: Event, rest: seq<Event>, digest: string -> string)
    ensures Run(w, [ev] + rest, digest) == Run(Step(w, ev, digest), rest, digest)
  {
    assert ([ev] + rest)[0] == ev && ([ev] + rest)[1..] == rest;
  }

  lemma RunEight(
      w: World, a: Event, b: Event, c: Event, d: Event, e: Event, f: Event, g: Event, h: Event,
      digest: string -> string)
    ensures Run(w, [a, b, c, d, e, f, g, h], digest)
         == var u := Step(Step(Step(Step(w, a, digest), b, digest), c, digest), d, digest);
            Step(Step(Step(Step(u, e, digest), f, digest), g, digest), h, digest)
  {
    hide Step;
    var w1 := Step(w, a, digest);
    var w2 := Step(w1, b, digest);
    var w3 := Step(w2, c, digest);
    var w4 := Step(w3, d, digest);
    var w5 := Step(w4, e, digest);
    var w6 := Step(w5, f, digest);
    var w7 := Step(w6, g, digest);
    RunCons(w, a, [b, c, d, e, f, g, h], digest);
    RunCons(w1, b, [c, d, e, f, g, h], digest);
    RunCons(w2, c, [d, e, f, g, h], digest);
    RunCons(w3, d, [e, f, g, h], digest);
    RunCons(w4, e, [f, g, h], digest);
    RunCons(w5, f, [g, h], digest);
    RunCons(w6, g, [h], digest);
    RunCons(w7, h, [], digest);
    assert [a, b, c, d, e, f, g, h] == [a] + [b, c, d, e, f, g, h];
    assert [b, c, d, e, f, g, h] == [b] + [c, d, e, f, g, h];
    assert [c, d, e, f, g, h] == [c] + [d, e, f, g, h];
    assert [d, e, f, g, h] == [d] + [e, f, g, h];
    assert [e, f, g, h] == [e] + [f, g, h];
    assert [f, g, h] == [f] + [g, h];
    assert [g, h] == [g] + [h];
    assert [h] == [h] + [];
  }

  /** A lost job can starve its own image for good: with a limit of one and the only job deleted
      from outside, the image goes back to PENDING and never gets a slot again. */
  lemma LostJobStarves(w: World, k: Key, digest: string -> string)
    requires SlotInv(w) && Ready(w, k) && w.jobs.Keys == {k}
    requires w.exports[ExportOf(k, w.images[k])].spec.maxConcurrentJobs <= w.history.lost + 1
    requires forall j | j in w.images && j != k :: Terminal(w.images[j].progress)
    requires ExportsExist(w)
    ensures var t := Run(w, [JobDeleted(k), Calmly(k)], digest);
      ExportsExist(t) && OnlyStarvedLeft(t) && k in t.images && t.images[k].progress.Pending?
      && !CanChange(t, digest)
  {
    var w1 := Step(w, JobDeleted(k), digest);
    assert w1 == LoseJob(w, k) && w1.jobs == map[];
    assert ReliableEvent(w, JobDeleted(k));
    StepKeepsSlots(w, JobDeleted(k), digest);
    var w2 := Step(w1, Calmly(k), digest);
    assert k in w.jobs;
    CalmMisses(w1, k, digest);
    assert ReliableEvent(w1, Calmly(k));
    StepKeepsSlots(w1, Calmly(k), digest);
    CalmKeepsLost(w1, k, digest);
    hide Step;
    assert Run(w, [JobDeleted(k), Calmly(k)], digest) == w2 by {
      RunCons(w, JobDeleted(k), [Calmly(k)], digest);
      RunCons(w1, Calmly(k), [], digest);
      assert [JobDeleted(k), Calmly(k)] == [JobDeleted(k)] + [Calmly(k)] && [Calmly(k)] == [Calmly(k)] + [];
    }
    NothingLeftIsStuck(w2, digest);
    hide CanChange, SlotInv;
  }

  lemma CalmKeepsLost(w: World, k: Key, digest: string -> string)
    requires Ready(w, k) && Active(w.images[k].progress) && k !in w.jobs
    ensures Step(w, Calmly(k), digest).history == w.history
  {
  }

  lemma CalmStores(w: World, k: Key, digest: string -> string)
    requires Ready(w, k) && Active(w.images[k].progress) && Succeeded(w, k)
    ensures var t := Step(w, Calmly(k), digest);
      var e := ExportOf(k, w.images[k]);
      && Becomes(w, t, k, Completed, w.images[k].retries)
      && t.jobs == w.jobs - {k} && t.activeJobs == w.activeJobs - 1
      && t.exports[e].progress == Aggregate(t, e)
  {
    var e := ExportOf(k, w.images[k]);
    var v := w.(writes := Reliable, maxParallelJobs := w.exports[e].spec.maxConcurrentJobs);
    var o1 := UpdateImage(v.(activeJobs := v.activeJobs - 1), k, Completed, v.images[k].retries);
    var o2 := CleanupJobAndPods(o1.w, k);
    hide Finish;
    StoredAndCleaned(w, v, k);
    assert Step(w, Calmly(k), digest) == Finish(o2.w, k, CALM).w;
    hide Step, UpdateImage, CleanupJobAndPods, Becomes;
    CalmTail(o2.w, k);
    BecomesOn(w, o2.w, Finish(o2.w, k, CALM).w, k, Completed, w.images[k].retries);
  }

  lemma StoredAndCleaned(w: World, v: World, k: Key)
    requires Ready(w, k) && v == w.(writes := Reliable, maxParallelJobs := v.maxParallelJobs)
    ensures var o1 := UpdateImage(v.(activeJobs := v.activeJobs - 1), k, Completed, v.images[k].retries);
      var o2 := CleanupJobAndPods(o1.w, k);
      && !o1.result.Error? && !o2.result.Error?
      && Becomes(w, o2.w, k, Completed, w.images[k].retries)
      && o2.w.jobs == w.jobs - {k} && o2.w.activeJobs == w.activeJobs - 1 && o2.w.writes.Reliable?
  {
  }

  /** With no restarts seen, the tail does nothing but inform the export. */
  lemma CalmTail(w: World, k: Key)
    requires Ready(w, k) && w.writes.Reliable?
    ensures var t := Finish(w, k, CALM).w;
      var e := ExportOf(k, w.images[k]);
      && t.images == w.images && t.jobs == w.jobs && t.activeJobs == w.activeJobs
      && t.history == w.history && t.cleanupJobs == w.cleanupJobs
      && t.exports == w.exports[e := w.exports[e].(progress := Aggregate(t, e))]
  {
    FinishTail(w, k, CALM);
    FinishInforms(w, k, CALM);
    assert FirstRestart(CALM.restarts) == 0;
    hide Finish, Aggregate, AllCompletedSwitch;
  }

  lemma BecomesOn(w: World, v: World, t: World, k: Key, p: Progress, r: nat)
    requires k in w.images && Becomes(w, v, k, p, r) && t.images == v.images && t.history == v.history
    requires t.cleanupJobs == v.cleanupJobs && t.exports.Keys == v.exports.Keys
    requires forall e | e in v.exports :: t.exports[e] == v.exports[e].(progress := t.exports[e].progress)
    ensures Becomes(w, t, k, p, r)
  {
  }

  /** With no other image of the export unfinished in the switch's eyes, the export is COMPLETED. */
  lemma StoringCompletes(w: World, a: Key, e: Key, digest: string -> string)
    requires IsImageOf(w, a, e) && e in w.exports && Active(w.images[a].progress) && Succeeded(w, a)
    requires forall j | IsImageOf(w, j, e) && j != a :: !CountsAsUnfinished(w.images[j].progress)
    ensures var t := Step(w, Calmly(a), digest);
      && Becomes(w, t, a, Completed, w.images[a].retries) && t.jobs == w.jobs - {a} && t.activeJobs == w.activeJobs - 1
      && t.exports[e].progress.Completed?
  {
    var t := Step(w, Calmly(a), digest);
    CalmStores(w, a, digest);
    hide Step;
    assert AllCompletedSwitch(t, e) by {
      forall j | IsImageOf(t, j, e)
        ensures !CountsAsUnfinished(t.images[j].progress)
      {
        assert IsImageOf(w, j, e);
      }
    }
    hide AllCompletedSwitch;
  }

  /** The image controller calls an export COMPLETED although an image of it has not been looked at. */
  lemma CompletedTooEarly(w: World, a: Key, b: Key, e: Key, digest: string -> string)
    requires IsImageOf(w, a, e) && IsImageOf(w, b, e) && e in w.exports
    requires Active(w.images[a].progress) && Succeeded(w, a) && w.images[b].progress.Unset?
    requires forall j | IsImageOf(w, j, e) && j != a && j != b :: IsStored(w.images[j].progress)
    ensures var t := Step(w, Calmly(a), digest);
      e in t.exports && t.exports[e].progress.Completed? && IsImageOf(t, b, e) && t.images[b].progress.Unset?
          && !AllCompleted(t, e)
  {
    var t := Step(w, Calmly(a), digest);
    StoringCompletes(w, a, e, digest);
    hide Step;
    assert IsImageOf(t, b, e) && !IsStored(t.images[b].progress);
  }

  /** And takes the verdict back as soon as that image is reported RUNNING. */
  lemma CompletedTakenBack(w: World, b: Key, e: Key, digest: string -> string)
    requires IsImageOf(w, b, e) && e in w.exports && w.exports[e].progress.Completed?
    requires w.images[b].progress.Running? && Live(w, b)
    ensures var t := Step(w, Calmly(b), digest); e in t.exports && !t.exports[e].progress.Completed?
  {
    var v := w.(writes := Reliable);
    var o := Reconcile(v, b, CALM);
    ReconcileMoves(v, b, CALM);
    ReconcileExports(v, b, CALM);
    MoveKeepsImages(v, o, b, CALM);
    CalmLives(v, b);
    hide Reconcile, Moves;
    assert Informs(v, o, e);
    assert IsImageOf(o.w, b, e) && CountsAsUnfinished(o.w.images[b].progress);
    assert !AllCompletedSwitch(o.w, e);
  }

  lemma CalmLives(w: World, k: Key)
    requires Ready(w, k) && w.images[k].progress.Running? && Live(w, k)
    ensures var o := Reconcile(w, k, CALM); k in o.w.images && o.w.images[k].progress.Running?
  {
    var v := w.(maxParallelJobs := w.exports[ExportOf(k, w.images[k])].spec.maxConcurrentJobs);
    FinishTail(v, k, CALM);
    assert FirstRestart(CALM.restarts) == 0;
    hide Finish;
  }
}
