/** Whether anything stands behind a PRESENT image: in every run, failing API calls, lost jobs,
    purges and restarts of the operator included. */
module Justification {
  import opened Cluster
  import opened Controllers
  import opened ImageMoves
  import opened ExportMoves
  import opened Runs
  import opened Presence
  import opened PurgeReach

  // ----- what jobs say

  predicate JobsFit(w: World) {
    forall k | k in w.jobs :: k in w.images && w.jobs[k].fullName == NameOf(w, k)
  }

  predicate OutcomesRecorded(w: World) {
    forall k | k in w.jobs ::
      && (w.jobs[k].succeeded > 0 ==> w.jobs[k].fullName in w.history.succeeded)
      && (w.jobs[k].failed > 0 ==> w.jobs[k].fullName in w.history.failedNames)
  }

  predicate CompletedAreStored(w: World) {
    forall k | k in w.images && w.images[k].progress.Completed? :: NameOf(w, k) in w.history.succeeded
  }

  predicate JobFacts(w: World) {
    JobsFit(w) && OutcomesRecorded(w) && CompletedAreStored(w)
  }

  /** A job for the name that has not failed exists. */
  predicate BackedBy(w: World, j: Key, name: string) {
    j in w.jobs && w.jobs[j].fullName == name && w.jobs[j].failed == 0
  }

  /** A job for the name has succeeded, or one that has not failed exists. */
  ghost predicate Backed(w: World, name: string) {
    name in w.history.succeeded || exists j :: BackedBy(w, j, name)
  }

  predicate Claims(p: Progress) {
    p.Running? || p.Present?
  }

  /** No job for the name has ever failed or been lost. */
  predicate Unharmed(w: World, name: string) {
    name !in w.history.failedNames && name !in w.history.lostNames
  }

  ghost predicate ClaimHolds(w: World, k: Key)
    requires k in w.images
  {
    Claims(w.images[k].progress) && Unharmed(w, NameOf(w, k)) ==> Backed(w, NameOf(w, k))
  }

  ghost predicate ClaimsHold(w: World) {
    forall k | k in w.images :: ClaimHolds(w, k)
  }

  ghost predicate PresenceInv(w: World) {
    JobFacts(w) && ClaimsHold(w)
  }

  // ----- one reconcile

  /** A job that a move removes has succeeded, has failed, or is remembered as lost. */
  lemma RemovedJob(w: World, o: Outcome, k: Key, view: View, j: Key)
    requires k in w.images && Moves(w, o, k, view) && OutcomesRecorded(w)
    requires j in w.jobs && j !in o.w.jobs
    ensures var name := w.jobs[j].fullName;
      name in w.history.succeeded || w.jobs[j].failed > 0 || name in o.w.history.lostNames
  {
    if Purges(w, o, k, view) {
      PurgedJob(w, o, k, view, j);
      hide Purges;
    } else {
      hide Purges, ImageExists, HasSlot;
    }
  }

  lemma PurgedJob(w: World, o: Outcome, k: Key, view: View, j: Key)
    requires k in w.images && Purges(w, o, k, view) && OutcomesRecorded(w)
    requires j in w.jobs && j !in o.w.jobs
    ensures var name := w.jobs[j].fullName;
      name in w.history.succeeded || w.jobs[j].failed > 0 || name in o.w.history.lostNames
  {
    var m :| BeforeTail(w, m, k) && Purged(Books(m), Books(o.w), k.ns) && o.w.activeJobs == m.activeJobs;
    if j in m.jobs {
      assert m.jobs[j] == w.jobs[j];
      assert m.jobs[j].fullName in NamesGone(m.jobs, o.w.jobs);
    }
    hide Purges, NamesGone;
  }

  lemma KeptJob(w: World, o: Outcome, k: Key, view: View, j: Key)
    requires k in w.images && Moves(w, o, k, view) && j in o.w.jobs
    ensures j in w.jobs ==> o.w.jobs[j] == w.jobs[j]
    ensures j !in w.jobs ==> j == k && o.w.jobs[j] == NewJob(w.images[k])
  {
    if Purges(w, o, k, view) {
      var m :| BeforeTail(w, m, k) && Purged(Books(m), Books(o.w), k.ns) && o.w.activeJobs == m.activeJobs;
      assert j in m.jobs && m.jobs[j] == o.w.jobs[j];
      hide Purges, Purged;
    } else {
      hide Purges, ImageExists, HasSlot;
    }
  }

  lemma MarksGrow(w: World, o: Outcome, k: Key, view: View)
    requires k in w.images && Moves(w, o, k, view)
    ensures w.history.lostNames <= o.w.history.lostNames
    ensures o.w.history.succeeded == w.history.succeeded && o.w.history.failedNames == w.history.failedNames
  {
    NamesOnlyGrow(w, o, k, view);
    hide ImageExists, HasSlot, NamesGone;
  }

  lemma BackingStays(w: World, o: Outcome, k: Key, view: View, name: string)
    requires k in w.images && Moves(w, o, k, view) && JobFacts(w)
    requires Backed(w, name) && Unharmed(o.w, name)
    ensures Backed(o.w, name)
  {
    MarksGrow(w, o, k, view);
    if name !in w.history.succeeded {
      var j :| BackedBy(w, j, name);
      if j in o.w.jobs {
        KeptJob(w, o, k, view, j);
        assert BackedBy(o.w, j, name);
      } else {
        RemovedJob(w, o, k, view, j);
      }
    }
    hide Moves;
  }

  /** The jobs of `t` are jobs of `w`, or the new one of image `k`. */
  predicate JobsFrom(w: World, t: World, k: Key)
    requires k in w.images
  {
    forall j | j in t.jobs :: if j in w.jobs then t.jobs[j] == w.jobs[j] else j == k && t.jobs[j] == NewJob(w.images[k])
  }

  lemma MoveKeepsFacts(w: World, o: Outcome, k: Key, view: View)
    requires k in w.images && Moves(w, o, k, view) && JobFacts(w)
    ensures JobFacts(o.w)
  {
    MoveKeepsImages(w, o, k, view);
    MarksGrow(w, o, k, view);
    OwnSuccess(w, o, k, view);
    assert JobsFrom(w, o.w, k) by {
      forall j | j in o.w.jobs
        ensures if j in w.jobs then o.w.jobs[j] == w.jobs[j] else j == k && o.w.jobs[j] == NewJob(w.images[k])
      {
        KeptJob(w, o, k, view, j);
      }
    }
    hide Moves, JobFacts, JobsFrom;
    FactsCarry(w, o.w, k);
  }

  lemma FactsCarry(w: World, t: World, k: Key)
    requires JobFacts(w) && k in w.images && k in t.images && JobsFrom(w, t, k)
    requires t.images == w.images[k := t.images[k]] && t.images[k].container == w.images[k].container
    requires t.history.succeeded == w.history.succeeded && t.history.failedNames == w.history.failedNames
    requires t.images[k].progress.Completed? ==> w.images[k].progress.Completed? || Succeeded(w, k)
    ensures JobFacts(t)
  {
    assert JobsFit(t) by { hide OutcomesRecorded, CompletedAreStored; }
    assert OutcomesRecorded(t) by { hide JobsFit, CompletedAreStored; }
    assert CompletedAreStored(t);
    hide JobsFit, OutcomesRecorded, CompletedAreStored;
  }

  /** COMPLETED is entered only when the image's own job has succeeded. */
  lemma OwnSuccess(w: World, o: Outcome, k: Key, view: View)
    requires k in w.images && Moves(w, o, k, view)
    ensures k in o.w.images && (o.w.images[k].progress.Completed?
        ==> w.images[k].progress.Completed? || Succeeded(w, k))
  {
    hide ImageExists, HasSlot, Purged, EndsJob, BeforeTail;
  }

  /** A claim is entered from PENDING, with a new job or on another image's account. */
  lemma OwnClaim(w: World, o: Outcome, k: Key, view: View)
    requires k in w.images && Moves(w, o, k, view)
    ensures k in o.w.images && (Claims(o.w.images[k].progress) && !Claims(w.images[k].progress) ==>
      FoundPresent(w, o, k) || Started(w, o, k))
  {
    hide ImageExists, HasSlot, Purged, EndsJob, BeforeTail;
  }

  lemma MoveKeepsOwnClaim(w: World, o: Outcome, k: Key, view: View)
    requires k in w.images && Moves(w, o, k, view) && PresenceInv(w)
    ensures k in o.w.images && ClaimHolds(o.w, k)
  {
    MoveKeepsImages(w, o, k, view);
    MarksGrow(w, o, k, view);
    OwnClaim(w, o, k, view);
    var name := NameOf(w, k);
    if Claims(o.w.images[k].progress) && Unharmed(o.w, name) {
      if Claims(w.images[k].progress) {
        assert ClaimHolds(w, k);
        BackingStays(w, o, k, view, name);
      } else if Started(w, o, k) {
        assert BackedBy(o.w, k, name);
      } else {
        var j :| j in w.images && Stands(w, j, k);
        assert ClaimHolds(w, j);
        BackingStays(w, o, k, view, name);
      }
    }
    hide Moves, Started;
  }

  lemma MoveKeepsPresence(w: World, o: Outcome, k: Key, view: View)
    requires PresenceInv(w) && k in w.images && Moves(w, o, k, view)
    ensures PresenceInv(o.w)
  {
    MoveKeepsImages(w, o, k, view);
    MarksGrow(w, o, k, view);
    MoveKeepsFacts(w, o, k, view);
    MoveKeepsOwnClaim(w, o, k, view);
    hide Moves, Backed, JobFacts;
    forall j | j in o.w.images && j != k
      ensures ClaimHolds(o.w, j)
    {
      assert ClaimHolds(w, j);
      if Claims(w.images[j].progress) && Unharmed(o.w, NameOf(w, j)) {
        BackingStays(w, o, k, view, NameOf(w, j));
      }
    }
  }

  // ----- one event

  /** Claims hold after an event if images only go, marks only grow, and every job that backed a
      name still does, unless the name has been marked. */
  lemma ClaimsCarry(w: World, t: World)
    requires ClaimsHold(w)
    requires forall k | k in t.images && Claims(t.images[k].progress) :: k in w.images && w.images[k] == t.images[k]
    requires w.history.succeeded <= t.history.succeeded
    requires w.history.failedNames <= t.history.failedNames && w.history.lostNames <= t.history.lostNames
    requires forall j | j in w.jobs && w.jobs[j].failed == 0 ::
      BackedBy(t, j, w.jobs[j].fullName) || !Unharmed(t, w.jobs[j].fullName)
    ensures ClaimsHold(t)
  {
    forall k | k in t.images
      ensures ClaimHolds(t, k)
    {
      if Claims(t.images[k].progress) && Unharmed(t, NameOf(t, k)) {
        assert ClaimHolds(w, k);
        if NameOf(w, k) !in w.history.succeeded {
          var j :| BackedBy(w, j, NameOf(w, k));
          assert BackedBy(t, j, NameOf(w, k));
        }
      }
    }
  }

  lemma StepKeepsPresence(w: World, ev: Event, digest: string -> string)
    requires PresenceInv(w)
    ensures PresenceInv(Step(w, ev, digest))
  {
    match ev
    case ImageReconcile(k, view, writes) =>
      var w1 := w.(writes := writes);
      ClaimsCarry(w, w1);
      if k in w.images {
        ReconcileMoves(w1, k, view);
        MoveKeepsPresence(w1, Reconcile(w1, k, view), k, view);
      }
      hide Reconcile, ClaimsHold;
    case ExportReconcile(e, found, writes) =>
      ReconcileExportFrame(w.(writes := writes), e, found, digest);
      hide ReconcileExport, ClaimHolds;
      ClaimsCarry(w, Step(w, ev, digest));
      hide ClaimsHold;
    case _ =>
      EnvironmentKeepsFacts(w, ev, digest);
      EnvironmentKeepsClaims(w, ev, digest);
      hide Step, JobFacts, ClaimsHold;
  }

  lemma EnvironmentKeepsFacts(w: World, ev: Event, digest: string -> string)
    requires JobFacts(w) && !ev.ImageReconcile? && !ev.ExportReconcile?
    ensures JobFacts(Step(w, ev, digest))
  {
    if ev.JobSucceeds? || ev.JobFails? {
      JobEventKeepsFacts(w, ev, digest);
    } else {
      OthersKeepFacts(w, ev, digest);
    }
    hide Step, JobFacts;
  }

  lemma JobEventKeepsFacts(w: World, ev: Event, digest: string -> string)
    requires JobFacts(w) && (ev.JobSucceeds? || ev.JobFails?)
    ensures JobFacts(Step(w, ev, digest))
  {
  }

  lemma OthersKeepFacts(w: World, ev: Event, digest: string -> string)
    requires JobFacts(w) && !ev.ImageReconcile? && !ev.ExportReconcile? && !ev.JobSucceeds? && !ev.JobFails?
    ensures JobFacts(Step(w, ev, digest))
  {
    OthersOnlyRemove(w, ev, digest);
    hide Step;
  }

  /** Nothing new, and everything left is as it was. */
  predicate OnlyRemoves(w: World, t: World) {
    && t.history.succeeded == w.history.succeeded && t.history.failedNames == w.history.failedNames
    && (forall j | j in t.jobs :: j in w.jobs && t.jobs[j] == w.jobs[j] && j in t.images)
    && (forall k | k in t.images :: k in w.images && t.images[k] == w.images[k])
  }

  lemma OthersOnlyRemove(w: World, ev: Event, digest: string -> string)
    requires JobsFit(w) && !ev.ImageReconcile? && !ev.ExportReconcile? && !ev.JobSucceeds? && !ev.JobFails?
    ensures OnlyRemoves(w, Step(w, ev, digest))
  {
    if ev.JobDeleted? || ev.ImageDeleted? {
      assert OnlyRemoves(w, Step(w, ev, digest));
    } else {
      QuietEvents(w, ev, digest);
      hide Step;
    }
    hide Step, OnlyRemoves;
  }

  lemma EnvironmentKeepsClaims(w: World, ev: Event, digest: string -> string)
    requires ClaimsHold(w) && !ev.ImageReconcile? && !ev.ExportReconcile?
    ensures ClaimsHold(Step(w, ev, digest))
  {
    var t := Step(w, ev, digest);
    if IsQuiet(ev) {
      QuietEvents(w, ev, digest);
      hide Step;
      ClaimsCarry(w, t);
    } else if ev.JobSucceeds? || ev.JobFails? {
      hide ClaimHolds;
      ClaimsCarry(w, t);
    } else {
      LosingCarries(w, ev.k);
      hide ClaimHolds, LoseJob;
      ClaimsCarry(w, t);
    }
    hide Step, ClaimsHold;
  }

  lemma LosingCarries(w: World, k: Key)
    ensures var t := LoseJob(w, k);
      && t.images == w.images && t.history.succeeded == w.history.succeeded
      && t.history.failedNames == w.history.failedNames && w.history.lostNames <= t.history.lostNames
      && (forall j | j in w.jobs && j != k :: j in t.jobs && t.jobs[j] == w.jobs[j])
      && (k in w.jobs ==> w.jobs[k].fullName in t.history.lostNames)
      && k !in t.jobs
  {
  }

  // ----- every run

  /** In every run, whatever fails: a COMPLETED image's full name has been stored by a job, and behind
      a PRESENT image, unless a job of its own full name has failed or been lost, there is a job of
      that name that succeeded or is there and has not failed. */
  lemma {:induction false} PresentIsJustified(w: World, events: seq<Event>, digest: string -> string)
    requires PresenceInv(w)
    ensures var t := Run(w, events, digest);
      && PresenceInv(t)
      && (forall k | k in t.images && t.images[k].progress.Completed? :: NameOf(t, k) in t.history.succeeded)
      && (forall k | k in t.images && t.images[k].progress.Present? ::
            var name := NameOf(t, k);
            || name in t.history.failedNames || name in t.history.lostNames
            || name in t.history.succeeded || exists j :: BackedBy(t, j, name))
    decreases |events|
  {
    if events == [] {
      forall k | k in w.images && w.images[k].progress.Present?
        ensures Unharmed(w, NameOf(w, k)) ==> Backed(w, NameOf(w, k))
      {
        assert ClaimHolds(w, k);
      }
    } else {
      StepKeepsPresence(w, events[0], digest);
      hide Step, PresenceInv;
      PresentIsJustified(Step(w, events[0], digest), events[1..], digest);
    }
  }

  // ----- which steps leave a PRESENT image without anything behind it

  predicate IsPresent(w: World, p: Key) {
    p in w.images && w.images[p].progress.Present?
  }

  ghost predicate AllJustified(w: World) {
    forall p | IsPresent(w, p) :: Backed(w, NameOf(w, p))
  }

  /** The event fails, loses or purges job `j`, which has not ended. */
  predicate Strikes(w: World, ev: Event, j: Key) {
    match ev
    case JobFails(k) => j == k
    case JobDeleted(k) => j == k
    case ImageDeleted(k) => j == k
    case ImageReconcile(k, view, writes) =>
      var v := w.(writes := writes);
      PurgesNow(v, k, view) && Reached(view.jobs, k.ns, Left(writes, CallsBefore(v, k)), ExportJob(j))
    case _ => false
  }

  /** A PRESENT image has a name no job of which has succeeded, and the event strikes every job of
      the name that has not failed. */
  ghost predicate Undercuts(w: World, ev: Event, p: Key) {
    && IsPresent(w, p) && ev != ImageDeleted(p)
    && NameOf(w, p) !in w.history.succeeded
    && (forall j | BackedBy(w, j, NameOf(w, p)) :: Strikes(w, ev, j))
  }

  /** A PENDING image becomes PRESENT although nothing stands behind its name. */
  ghost predicate Misled(w: World, ev: Event) {
    && ev.ImageReconcile? && ev.k in w.images && w.images[ev.k].progress.Pending?
    && HasSlot(w, ev.k) && ImageExists(w, ev.k) && (ev.writes.Reliable? || ev.writes.left > 0)
    && !Backed(w, NameOf(w, ev.k))
  }

  /** The exact steps, told from the state before: they strike the last unfailed job behind a PRESENT
      image, or let a PENDING image find only RUNNING ones whose jobs are gone or have failed. */
  lemma JustificationBreaksIff(w: World, ev: Event, digest: string -> string)
    requires JobFacts(w) && AllJustified(w)
    ensures !AllJustified(Step(w, ev, digest)) <==> Misled(w, ev) || exists p :: Undercuts(w, ev, p)
    ensures Misled(w, ev) ==> forall j | j in w.images && Stands(w, j, ev.k) ::
      w.images[j].progress.Running? && (j in w.jobs ==> w.jobs[j].failed > 0)
  {
    forall p
      ensures Undercuts(w, ev, p) <==> UndercutIn(w, ev, digest, p)
    {
      UndercutsAreIn(w, ev, digest, p);
    }
    BreaksIff(w, ev, digest);
    hide *;
  }

  lemma UndercutsAreIn(w: World, ev: Event, digest: string -> string, p: Key)
    requires JobFacts(w)
    ensures Undercuts(w, ev, p) <==> UndercutIn(w, ev, digest, p)
  {
    if IsPresent(w, p) && NameOf(w, p) !in w.history.succeeded {
      forall j | BackedBy(w, j, NameOf(w, p))
        ensures Strikes(w, ev, j) <==> Struck(w, ev, digest, j)
      {
        StrikesAreStruck(w, ev, digest, j);
      }
    }
    hide Strikes, Struck;
  }

  /** For a job that has not ended the condition on the state before says what the step does. */
  lemma StrikesAreStruck(w: World, ev: Event, digest: string -> string, j: Key)
    requires OutcomesRecorded(w) && j in w.jobs && w.jobs[j].failed == 0 && w.jobs[j].fullName !in w.history.succeeded
    ensures Strikes(w, ev, j) <==> Struck(w, ev, digest, j)
  {
    assert Live(w, j);
    if ev.ImageReconcile? {
      var v := w.(writes := ev.writes);
      assert Unended(v, ExportJob(j));
      hide OutcomesRecorded, Live;
      ReconcileTakesIff(v, ev.k, ev.view, ExportJob(j));
      hide Reconcile, PurgesNow, Reached, CallsBefore;
    }
  }

  // ----- the same with what the step does

  ghost predicate Struck(w: World, ev: Event, digest: string -> string, j: Key) {
    match ev
    case JobFails(k) => j == k
    case JobDeleted(k) => j == k
    case ImageDeleted(k) => j == k
    case ImageReconcile(k, view, writes) => j !in Step(w, ev, digest).jobs
    case _ => false
  }

  ghost predicate UndercutIn(w: World, ev: Event, digest: string -> string, p: Key) {
    && IsPresent(w, p) && ev != ImageDeleted(p)
    && NameOf(w, p) !in w.history.succeeded
    && (forall j | BackedBy(w, j, NameOf(w, p)) :: Struck(w, ev, digest, j))
  }

  lemma BreaksIff(w: World, ev: Event, digest: string -> string)
    requires JobFacts(w) && AllJustified(w)
    ensures !AllJustified(Step(w, ev, digest)) <==> Misled(w, ev) || exists p :: UndercutIn(w, ev, digest, p)
    ensures Misled(w, ev) ==> forall j | j in w.images && Stands(w, j, ev.k) ::
      w.images[j].progress.Running? && (j in w.jobs ==> w.jobs[j].failed > 0)
  {
    var t := Step(w, ev, digest);
    if Misled(w, ev) {
      MisledByRunning(w, ev);
      MisledBreaks(w, ev, digest);
    } else if p :| UndercutIn(w, ev, digest, p) {
      UndercutBreaks(w, ev, digest, p);
    } else {
      forall p | IsPresent(t, p)
        ensures Backed(t, NameOf(t, p))
      {
        StaysJustified(w, ev, digest, p);
      }
    }
    hide Step, Misled, UndercutIn, Backed, JobFacts;
  }

  lemma MisledByRunning(w: World, ev: Event)
    requires JobFacts(w) && AllJustified(w) && Misled(w, ev)
    ensures forall j | j in w.images && Stands(w, j, ev.k) ::
      w.images[j].progress.Running? && (j in w.jobs ==> w.jobs[j].failed > 0)
  {
    forall j | j in w.images && Stands(w, j, ev.k)
      ensures w.images[j].progress.Running? && (j in w.jobs ==> w.jobs[j].failed > 0)
    {
      assert !BackedBy(w, j, NameOf(w, ev.k));
      assert IsPresent(w, j) ==> Backed(w, NameOf(w, j));
    }
  }

  lemma MisledBreaks(w: World, ev: Event, digest: string -> string)
    requires Misled(w, ev)
    ensures !AllJustified(Step(w, ev, digest))
  {
    var t := Step(w, ev, digest);
    var v := w.(writes := ev.writes,
        maxParallelJobs := w.exports[ExportOf(ev.k, w.images[ev.k])].spec.maxConcurrentJobs);
    assert ImageExists(v, ev.k) by {
      var j :| j in w.images && Stands(w, j, ev.k);
      assert Stands(v, j, ev.k);
    }
    hide ImageExists;
    assert IsPresent(t, ev.k) && NameOf(t, ev.k) == NameOf(w, ev.k) && t.jobs == w.jobs && t.history == w.history;
    SameBacking(w, t, NameOf(w, ev.k));
  }

  lemma SameBacking(w: World, t: World, name: string)
    requires t.jobs == w.jobs && t.history.succeeded == w.history.succeeded
    ensures Backed(t, name) <==> Backed(w, name)
  {
    assert forall j :: BackedBy(t, j, name) <==> BackedBy(w, j, name);
  }

  // ----- what a step does to jobs and PRESENT images

  /** A job after a step: new with its image started, or as before but for its counts. */
  ghost predicate JobsFollow(w: World, t: World, ev: Event, digest: string -> string) {
    && (forall j | j in w.jobs && !Struck(w, ev, digest, j) :: j in t.jobs && t.jobs[j].failed == w.jobs[j].failed)
    && (forall j | j in t.jobs && j in w.jobs :: t.jobs[j].fullName == w.jobs[j].fullName)
    && (forall j | j in w.jobs && j in t.jobs && Struck(w, ev, digest, j) :: t.jobs[j].failed > 0)
    && w.history.succeeded <= t.history.succeeded
    && (t.history.succeeded == w.history.succeeded || ev.JobSucceeds?)
  }

  lemma StepJobs(w: World, ev: Event, digest: string -> string)
    requires JobsFit(w)
    ensures JobsFollow(w, Step(w, ev, digest), ev, digest)
  {
    match ev
    case ImageReconcile(k, view, writes) =>
      var w1 := w.(writes := writes);
      if k in w.images {
        var o := Reconcile(w1, k, view);
        ReconcileMoves(w1, k, view);
        MarksGrow(w1, o, k, view);
        forall j | j in o.w.jobs && j in w.jobs
          ensures o.w.jobs[j] == w.jobs[j]
        {
          KeptJob(w1, o, k, view, j);
        }
        hide Moves;
      }
      hide Reconcile;
    case ExportReconcile(e, found, writes) =>
      ReconcileExportFrame(w.(writes := writes), e, found, digest);
      hide ReconcileExport;
    case _ =>
      EnvironmentJobs(w, ev, digest);
      hide JobsFollow;
  }

  lemma EnvironmentJobs(w: World, ev: Event, digest: string -> string)
    requires JobsFit(w) && !ev.ImageReconcile? && !ev.ExportReconcile?
    ensures JobsFollow(w, Step(w, ev, digest), ev, digest)
  {
    if ev.JobSucceeds? || ev.JobFails? {
      assert JobsFollow(w, Step(w, ev, digest), ev, digest) by { hide JobsFit; }
    } else if ev.JobDeleted? || ev.ImageDeleted? {
      LosingJobs(w, ev, digest);
    } else {
      QuietEvents(w, ev, digest);
      hide Step;
    }
    hide Step, JobsFollow;
  }

  lemma LosingJobs(w: World, ev: Event, digest: string -> string)
    requires JobsFit(w) && (ev.JobDeleted? || ev.ImageDeleted?)
    ensures JobsFollow(w, Step(w, ev, digest), ev, digest)
  {
    LosingCarries(w, ev.k);
    LosingOnlyTakes(w, ev.k);
    hide LoseJob;
  }

  lemma LosingOnlyTakes(w: World, k: Key)
    ensures forall j | j in LoseJob(w, k).jobs :: j in w.jobs && LoseJob(w, k).jobs[j] == w.jobs[j]
  {
  }

  /** PRESENT images stay, and new ones have found somebody. */
  lemma StepPresent(w: World, ev: Event, digest: string -> string, p: Key)
    ensures var t := Step(w, ev, digest);
      && (IsPresent(w, p) && ev != ImageDeleted(p) ==> IsPresent(t, p) && NameOf(t, p) == NameOf(w, p))
      && (IsPresent(t, p) ==> p in w.images && NameOf(t, p) == NameOf(w, p))
      && (IsPresent(t, p) && !IsPresent(w, p) ==>
            && ev.ImageReconcile? && ev.k == p && w.images[p].progress.Pending? && HasSlot(w, p) && ImageExists(w, p)
            && (ev.writes.Reliable? || ev.writes.left > 0) && t.jobs == w.jobs)
  {
    match ev
    case ImageReconcile(k, view, writes) =>
      var w1 := w.(writes := writes);
      if k in w.images {
        ReconcileMoves(w1, k, view);
        MoveKeepsImages(w1, Reconcile(w1, k, view), k, view);
        if p == k {
          PresentMoves(w1, k, view);
          assert ImageExists(w, k) == ImageExists(w1, k) by {
            assert forall j | j in w.images :: Stands(w1, j, k) == Stands(w, j, k);
          }
        }
      }
      hide Reconcile, Moves, ImageExists;
    case ExportReconcile(e, found, writes) =>
      ReconcileExportFrame(w.(writes := writes), e, found, digest);
      hide ReconcileExport;
    case JobSucceeds(_) =>
    case JobFails(_) =>
    case JobDeleted(_) =>
    case ImageDeleted(_) =>
    case _ =>
      QuietEvents(w, ev, digest);
      hide Step;
  }

  lemma PresentMoves(w: World, k: Key, view: View)
    requires k in w.images
    ensures var o := Reconcile(w, k, view);
      && k in o.w.images
      && (IsPresent(w, k) ==> IsPresent(o.w, k))
      && (IsPresent(o.w, k) && !IsPresent(w, k) ==> FoundPresent(w, o, k) && w.CanWrite())
  {
    var o := Reconcile(w, k, view);
    ReconcileMoves(w, k, view);
    PresentMove(w, o, k, view);
    hide Moves, FoundPresent;
    if IsPresent(o.w, k) && !IsPresent(w, k) && !w.CanWrite() {
      NoWritesNoPresent(w, k, view);
    }
    hide Reconcile;
  }

  lemma PresentMove(w: World, o: Outcome, k: Key, view: View)
    requires k in w.images && Moves(w, o, k, view)
    ensures k in o.w.images
    ensures IsPresent(w, k) ==> IsPresent(o.w, k)
    ensures IsPresent(o.w, k) && !IsPresent(w, k) ==> FoundPresent(w, o, k) && w.images[k].progress.Pending?
  {
    hide ImageExists, HasSlot, Purged, EndsJob, BeforeTail;
  }

  lemma NoWritesNoPresent(w: World, k: Key, view: View)
    requires k in w.images && w.images[k].progress.Pending? && !w.CanWrite()
    ensures Reconcile(w, k, view).w.images == w.images
  {
    hide ImageExists, HandleRunning;
  }

  lemma UndercutBreaks(w: World, ev: Event, digest: string -> string, p: Key)
    requires JobsFit(w) && AllJustified(w) && UndercutIn(w, ev, digest, p)
    ensures !AllJustified(Step(w, ev, digest))
  {
    var t := Step(w, ev, digest);
    var name := NameOf(w, p);
    StepJobs(w, ev, digest);
    StepPresent(w, ev, digest, p);
    assert Backed(w, name);
    var i :| BackedBy(w, i, name);
    assert Struck(w, ev, digest, i);
    NewJobsOnly(w, ev, digest, i);
    assert !Backed(t, name) by {
      forall j
        ensures !BackedBy(t, j, name)
      {
        assert BackedBy(w, j, name) ==> Struck(w, ev, digest, j);
      }
    }
    hide Step;
    assert IsPresent(t, p) && NameOf(t, p) == name;
  }

  /** An event that strikes a job creates none. */
  lemma NewJobsOnly(w: World, ev: Event, digest: string -> string, i: Key)
    requires i in w.jobs && Struck(w, ev, digest, i)
    ensures forall j | j in Step(w, ev, digest).jobs :: j in w.jobs
  {
    match ev
    case ImageReconcile(k, view, writes) =>
      var w1 := w.(writes := writes);
      if k in w.images {
        ReconcileMoves(w1, k, view);
        OnlyStartsCreate(w1, Reconcile(w1, k, view), k, view, i);
      }
      hide Reconcile, Moves;
    case _ =>
  }

  lemma OnlyStartsCreate(w: World, o: Outcome, k: Key, view: View, i: Key)
    requires k in w.images && Moves(w, o, k, view) && i in w.jobs && i !in o.w.jobs
    ensures forall j | j in o.w.jobs :: j in w.jobs
  {
    if Purges(w, o, k, view) {
      var m :| BeforeTail(w, m, k) && Purged(Books(m), Books(o.w), k.ns) && o.w.activeJobs == m.activeJobs;
      assert forall j | j in o.w.jobs :: j in m.jobs;
      hide Purges, Purged;
    } else {
      hide Purges, ImageExists, HasSlot;
    }
  }

  lemma StaysJustified(w: World, ev: Event, digest: string -> string, p: Key)
    requires JobsFit(w) && AllJustified(w) && !Misled(w, ev) && !UndercutIn(w, ev, digest, p)
    requires IsPresent(Step(w, ev, digest), p)
    ensures Backed(Step(w, ev, digest), NameOf(Step(w, ev, digest), p))
  {
    var t := Step(w, ev, digest);
    StepJobs(w, ev, digest);
    StepPresent(w, ev, digest, p);
    var name := NameOf(t, p);
    hide Step;
    if IsPresent(w, p) {
      DeletedIsGone(w, digest, p);
      assert Backed(w, name);
      if name !in w.history.succeeded {
        var j :| BackedBy(w, j, name) && !Struck(w, ev, digest, j);
        assert BackedBy(t, j, name);
      }
    } else {
      assert Backed(w, name);
      SameBackingGrows(w, t, name);
    }
  }

  lemma SameBackingGrows(w: World, t: World, name: string)
    requires t.jobs == w.jobs && w.history.succeeded <= t.history.succeeded && Backed(w, name)
    ensures Backed(t, name)
  {
    if name !in w.history.succeeded {
      var j :| BackedBy(w, j, name);
      assert BackedBy(t, j, name);
    }
  }

  lemma DeletedIsGone(w: World, digest: string -> string, p: Key)
    ensures p !in Step(w, ImageDeleted(p), digest).images
  {
  }

  lemma EmptyWorldPresence()
    ensures PresenceInv(EMPTY_WORLD)
  {
  }
}
