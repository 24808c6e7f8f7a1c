/** What an image reconcile comes to, case by case and in plain terms: progress, numbers of retries and
    restarts, names, states of jobs, and how many calls still succeed.  None of the notions the
    controllers are written with occurs here. */
module ImageOutcomes {
  import opened Cluster
  import opened Controllers
  import opened ImageMoves
  import opened ImageResults
  import opened PurgeReach
  import opened Runs

  /** Some image of another name, in any namespace, has the full name and is stored, present or being
      stored. */
  ghost predicate NameIsTaken(w: World, name: string, fullName: string) {
    exists j :: j in w.images && j.name != name && w.images[j].container.fullName == fullName
      && w.images[j].progress in {Completed, Present, Running}
  }

  /** Nothing but the limit in memory and the calls left differ. */
  predicate Unchanged(w: World, t: World) {
    t == w.(maxParallelJobs := t.maxParallelJobs, writes := t.writes)
  }

  // ----- what needs no job

  /** Images that are gone, orphaned, new, throttled or final. */
  lemma PassiveOutcomes(w: World, k: Key, view: View)
    ensures var o := Reconcile(w, k, view);
      && (k !in w.images ==> o == Outcome(w, Done))
      && (k in w.images && Key(k.ns, w.images[k].exportName) !in w.exports ==> o == Outcome(w, Error))
      && (k in w.images && Key(k.ns, w.images[k].exportName) in w.exports ==>
            var limit := w.exports[Key(k.ns, w.images[k].exportName)].spec.maxConcurrentJobs;
            match w.images[k].progress
            case Unset =>
              if CanAfford(w.writes, 1) then
                o.result == Requeue && Unchanged(w.(images := w.images[k := w.images[k].(progress := Pending)]), o.w)
              else o.result == Error && Unchanged(w, o.w)
            case Pending => w.activeJobs >= limit ==> o.result == RequeueAfter && Unchanged(w, o.w)
            case Running => true
            case Retrying => true
            case _ => o.result == Done && Unchanged(w, o.w))
  {
    hide HandlePending, HandleRunning;
  }

  // ----- PENDING with a free slot

  lemma TakenIsExists(w: World, v: World, k: Key)
    requires k in w.images && v.images == w.images
    ensures ImageExists(v, k) <==> NameIsTaken(w, k.name, w.images[k].container.fullName)
  {
    if ImageExists(v, k) {
      var j :| j in v.images && Stands(v, j, k);
      assert w.images[j].progress in {Completed, Present, Running};
    }
    if NameIsTaken(w, k.name, w.images[k].container.fullName) {
      var j :| j in w.images && j.name != k.name && w.images[j].container.fullName == w.images[k].container.fullName
        && w.images[j].progress in {Completed, Present, Running};
      assert Stands(v, j, k);
    }
  }

  /** A PENDING image with a free slot becomes PRESENT, without a job, if and only if its name is taken;
      otherwise a job of its full name is created, and once two more calls have succeeded the image is
      RUNNING and has its slot. */
  lemma PendingOutcomes(w: World, k: Key, view: View)
    requires k in w.images && w.images[k].progress.Pending?
    requires var e := Key(k.ns, w.images[k].exportName);
      e in w.exports && w.activeJobs < w.exports[e].spec.maxConcurrentJobs
    ensures var o, img := Reconcile(w, k, view), w.images[k];
      if NameIsTaken(w, k.name, img.container.fullName) then
        if CanAfford(w.writes, 1) then
          o.result == Done && Unchanged(w.(images := w.images[k := img.(progress := Present)]), o.w)
        else o.result == Error && Unchanged(w, o.w)
      else if k in w.jobs || !CanAfford(w.writes, 1) then o.result == Error && Unchanged(w, o.w)
      else
        && o.w.jobs == w.jobs[k := Job(img.container.fullName, 0, 0)]
        && o.w.images == (if CanAfford(w.writes, 2) then w.images[k := img.(progress := Running)] else w.images)
        && o.w.activeJobs == (if CanAfford(w.writes, 3) then w.activeJobs + 1 else w.activeJobs)
        && o.result == (if CanAfford(w.writes, 3) then Requeue else Error)
        && o.w.exports == w.exports && o.w.cleanupJobs == w.cleanupJobs
  {
    var v := w.(maxParallelJobs := w.exports[ExportOf(k, w.images[k])].spec.maxConcurrentJobs);
    TakenIsExists(w, v, k);
    hide ImageExists, NameIsTaken, HandleRunning;
    assert Reconcile(w, k, view) == HandlePending(v, k) by { hide HandlePending; }
    hide Reconcile;
    PendingCalls(v, k);
    hide HandlePending;
  }

  lemma PendingCalls(v: World, k: Key)
    requires k in v.images && ExportOf(k, v.images[k]) in v.exports
    ensures var o, img := HandlePending(v, k), v.images[k];
      if ImageExists(v, k) then
        if CanAfford(v.writes, 1) then
          o.result == Done && Unchanged(v.(images := v.images[k := img.(progress := Present)]), o.w)
        else o.result == Error && Unchanged(v, o.w)
      else if k in v.jobs || !CanAfford(v.writes, 1) then o.result == Error && Unchanged(v, o.w)
      else
        && o.w.jobs == v.jobs[k := Job(img.container.fullName, 0, 0)]
        && o.w.images == (if CanAfford(v.writes, 2) then v.images[k := img.(progress := Running)] else v.images)
        && o.w.activeJobs == (if CanAfford(v.writes, 3) then v.activeJobs + 1 else v.activeJobs)
        && o.result == (if CanAfford(v.writes, 3) then Requeue else Error)
        && o.w.exports == v.exports && o.w.cleanupJobs == v.cleanupJobs
  {
    hide ImageExists;
    if !ImageExists(v, k) {
      var e := ExportOf(k, v.images[k]);
      StartingCalls(v, k, v.exports[e].spec.bucket);
      hide CreateJob, UpdateImage, CanAfford;
    }
  }

  lemma StartingCalls(v: World, k: Key, bucket: string)
    requires k in v.images
    ensures var o1, img := CreateJob(v, k, bucket), v.images[k];
      var o2 := UpdateImage(o1.w, k, Running, img.retries);
      var o3 := UpdateImage(o2.w, k, Running, img.retries);
      && (o1.result.Error? <==> k in v.jobs || !CanAfford(v.writes, 1))
      && (o1.result.Error? ==> o1.w == v)
      && (!o1.result.Error? ==>
            && StartedSo(v, o1.w, k, v.images)
            && (o2.result.Error? <==> !CanAfford(v.writes, 2))
            && (o2.result.Error? ==> o2.w == o1.w)
            && (!o2.result.Error? ==>
                  && StartedSo(v, o2.w, k, v.images[k := img.(progress := Running)])
                  && (o3.result.Error? <==> !CanAfford(v.writes, 3))
                  && StartedSo(v, o3.w, k, v.images[k := img.(progress := Running)])))
      && (CanAfford(v.writes, 3) ==> CanAfford(v.writes, 2)) && (CanAfford(v.writes, 2) ==> CanAfford(v.writes, 1))
      && o1.result != Requeue && o2.result != Requeue
  {
    var o1, img := CreateJob(v, k, bucket), v.images[k];
    if !o1.result.Error? {
      hide CreateJob;
      assert o1.w.images == v.images && o1.w.jobs == v.jobs[k := Job(img.container.fullName, 0, 0)]
        && o1.w.activeJobs == v.activeJobs && o1.w.exports == v.exports && o1.w.cleanupJobs == v.cleanupJobs
        && o1.w.writes == Left(v.writes, 1) by { JobIsCreated(v, k, bucket); }
    }
  }

  lemma JobIsCreated(v: World, k: Key, bucket: string)
    requires !CreateJob(v, k, bucket).result.Error?
    ensures var t := CreateJob(v, k, bucket).w;
      && k in v.images && t.images == v.images && t.jobs == v.jobs[k := Job(v.images[k].container.fullName, 0, 0)]
      && t.activeJobs == v.activeJobs && t.exports == v.exports && t.cleanupJobs == v.cleanupJobs
      && t.writes == Left(v.writes, 1)
  {
  }

  predicate StartedSo(v: World, t: World, k: Key, images: map<Key, Image>)
    requires k in v.images
  {
    && t.images == images && t.jobs == v.jobs[k := Job(v.images[k].container.fullName, 0, 0)]
    && t.activeJobs == v.activeJobs && t.exports == v.exports && t.cleanupJobs == v.cleanupJobs
  }

  // ----- restarts

  /** Container `c` of pod `p` is the first one with a restart. */
  predicate IsFirst(pods: seq<seq<nat>>, p: nat, c: nat) {
    && p < |pods| && c < |pods[p]| && pods[p][c] > 0
    && (forall d | 0 <= d < c :: pods[p][d] == 0)
    && (forall q, d | 0 <= q < p && 0 <= d < |pods[q]| :: pods[q][d] == 0)
  }

  /** The restarts that count: those of the first container with any. */
  ghost predicate RestartsSeen(pods: seq<seq<nat>>, rc: nat) {
    || (rc == 0 && forall p, c | 0 <= p < |pods| && 0 <= c < |pods[p]| :: pods[p][c] == 0)
    || (rc > 0 && exists p: nat, c: nat :: IsFirst(pods, p, c) && pods[p][c] == rc)
  }

  lemma {:induction false} FirstPositiveIs(counts: seq<nat>)
    ensures (forall d | 0 <= d < |counts| :: counts[d] == 0) ==> FirstPositive(counts) == 0
    ensures forall c: nat | c < |counts| && counts[c] > 0 && (forall d | 0 <= d < c :: counts[d] == 0) ::
      FirstPositive(counts) == counts[c]
  {
    if counts != [] {
      FirstPositiveIs(counts[1..]);
      forall c: nat | c < |counts| && counts[c] > 0 && (forall d | 0 <= d < c :: counts[d] == 0)
        ensures FirstPositive(counts) == counts[c]
      {
        if c > 0 {
          assert counts[1..][c-1] == counts[c];
        }
      }
    }
  }

  lemma {:induction false} NoRestarts(pods: seq<seq<nat>>)
    requires forall p, c | 0 <= p < |pods| && 0 <= c < |pods[p]| :: pods[p][c] == 0
    ensures FirstRestart(pods) == 0
  {
    if pods != [] {
      FirstPositiveIs(pods[0]);
      assert forall p | 0 <= p < |pods[1..]| :: pods[1..][p] == pods[p+1];
      NoRestarts(pods[1..]);
    }
  }

  lemma {:induction false} FirstRestartIs(pods: seq<seq<nat>>, p: nat, c: nat)
    requires IsFirst(pods, p, c)
    ensures FirstRestart(pods) == pods[p][c]
  {
    FirstPositiveIs(pods[0]);
    if p > 0 {
      assert forall d | 0 <= d < |pods[0]| :: pods[0][d] == 0;
      assert forall q | 0 <= q < |pods[1..]| :: pods[1..][q] == pods[q+1];
      FirstRestartIs(pods[1..], p - 1, c);
    }
  }

  lemma SeenIsFirst(pods: seq<seq<nat>>, rc: nat)
    requires RestartsSeen(pods, rc)
    ensures FirstRestart(pods) == rc
  {
    if rc == 0 {
      NoRestarts(pods);
    } else {
      var p: nat, c: nat :| IsFirst(pods, p, c) && pods[p][c] == rc;
      FirstRestartIs(pods, p, c);
    }
  }

  // ----- the purge

  lemma {:induction false} ReachedIfListed(listing: seq<JobId>, ns: string, id: JobId)
    ensures Reached(listing, ns, Reliable, id) <==> id in listing && Namespace(id) == ns
  {
    if listing != [] {
      ReachedIfListed(listing[1..], ns, id);
      assert listing == [listing[0]] + listing[1..];
    }
  }

  /** The jobs that are left when those listed for the namespace are deleted. */
  ghost predicate Emptied(w: World, t: World, ns: string, listing: seq<JobId>) {
    && (forall j: Key :: j in t.jobs <==> j in w.jobs && !(j.ns == ns && ExportJob(j) in listing))
    && (forall j | j in t.jobs :: j in w.jobs && t.jobs[j] == w.jobs[j])
    && (forall q: Key :: q in t.cleanupJobs <==> q in w.cleanupJobs && !(q.ns == ns && CleanupJob(q) in listing))
  }

  lemma PurgeEmpties(w: World, ns: string, listing: seq<JobId>)
    requires w.writes.Reliable?
    ensures var o := RemoveAllJobs(w, ns, listing);
      Emptied(w, o.w, ns, listing) && o.result.Done? && o.w.writes.Reliable? && o.w.images == w.images
      && o.w.exports == w.exports && o.w.activeJobs == w.activeJobs
  {
    var o := RemoveAllJobs(w, ns, listing);
    PurgeEffect(w, ns, listing);
    forall id
      ensures JobThere(w, id) ==> (JobThere(o.w, id) <==> !(id in listing && Namespace(id) == ns))
    {
      ReachedIfListed(listing, ns, id);
      if JobThere(w, id) {
        PurgeTakesIff(w, ns, listing, id);
      }
    }
    hide RemoveAllJobs, Reached, NamesGone;
    forall j: Key
      ensures j in o.w.jobs <==> j in w.jobs && !(j.ns == ns && ExportJob(j) in listing)
    {
      assert JobThere(w, ExportJob(j)) <==> j in w.jobs;
      assert JobThere(o.w, ExportJob(j)) <==> j in o.w.jobs;
    }
    forall q: Key
      ensures q in o.w.cleanupJobs <==> q in w.cleanupJobs && !(q.ns == ns && CleanupJob(q) in listing)
    {
      assert JobThere(w, CleanupJob(q)) <==> q in w.cleanupJobs;
      assert JobThere(o.w, CleanupJob(q)) <==> q in o.w.cleanupJobs;
    }
  }

  // ----- the tail

  /** What restarts make of progress and retries. */
  ghost predicate RestartsWrite(m: World, t: World, k: Key, rc: nat)
    requires k in m.images
  {
    var img, r := m.images[k], m.images[k].retries + rc;
    t.images ==
      if rc == 0 then m.images
      else if r < 3 then m.images[k := img.(progress := Retrying, retries := r)]
      else m.images[k := img.(progress := Progress.Failed, retries := r)]
  }

  ghost predicate RestartsDelete(m: World, t: World, k: Key, view: View, rc: nat)
    requires k in m.images
  {
    if rc > 0 && m.images[k].retries + rc >= 3 then Emptied(m, t, k.ns, view.jobs)
    else t.jobs == m.jobs && t.cleanupJobs == m.cleanupJobs
  }

  lemma RestartOutcomes(m: World, k: Key, view: View, rc: nat)
    requires k in m.images && m.writes.Reliable? && RestartsSeen(view.restarts, rc)
    ensures var o := HandleJobRestarts(m, k, view);
      && o.result.Done? && o.w.writes.Reliable? && o.w.activeJobs == m.activeJobs && o.w.exports == m.exports
      && RestartsWrite(m, o.w, k, rc) && RestartsDelete(m, o.w, k, view, rc)
  {
    SeenIsFirst(view.restarts, rc);
    hide RemoveAllJobs, FirstRestart, RestartsSeen;
    if rc > 0 && m.images[k].retries + rc >= 3 {
      var u := UpdateImage(m, k, Progress.Failed, m.images[k].retries + rc);
      PurgeEmpties(u.w, k.ns, view.jobs);
    }
  }

  lemma TailKeepsImages(m: World, k: Key, view: View)
    requires k in m.images
    ensures var t, h := Finish(m, k, view).w, HandleJobRestarts(m, k, view).w;
      t.images == h.images && t.activeJobs == h.activeJobs
  {
    hide HandleJobRestarts, Aggregate, AllCompletedSwitch;
  }

  lemma TailOutcomes(m: World, k: Key, view: View, rc: nat)
    requires k in m.images && m.writes.Reliable? && RestartsSeen(view.restarts, rc)
    requires ExportOf(k, m.images[k]) in m.exports
    ensures var o := Finish(m, k, view);
      && !o.result.Error? && o.w.activeJobs == m.activeJobs
      && RestartsWrite(m, o.w, k, rc) && RestartsDelete(m, o.w, k, view, rc)
  {
    RestartOutcomes(m, k, view, rc);
    TailKeepsJobs(m, k, view);
    TailKeepsImages(m, k, view);
    FinishInforms(m, k, view);
    hide Finish, HandleJobRestarts, ExportsFollow, Aggregate, AllCompletedSwitch, RestartsSeen;
    SameRestarts(m, HandleJobRestarts(m, k, view).w, Finish(m, k, view).w, k, view, rc);
    hide RestartsWrite, RestartsDelete;
  }

  lemma SameRestarts(m: World, h: World, t: World, k: Key, view: View, rc: nat)
    requires k in m.images && t.images == h.images && t.jobs == h.jobs && t.cleanupJobs == h.cleanupJobs
    ensures RestartsWrite(m, h, k, rc) ==> RestartsWrite(m, t, k, rc)
    ensures RestartsDelete(m, h, k, view, rc) ==> RestartsDelete(m, t, k, view, rc)
  {
  }

  // ----- RUNNING and RETRYING

  /** What a job that has ended does to its image, before restarts are looked at. */
  function Settled(w: World, k: Key): World
    requires k in w.images && k in w.jobs
  {
    var img, job := w.images[k], w.jobs[k];
    if job.succeeded > 0 then
      w.(images := w.images[k := img.(progress := Completed)], jobs := w.jobs - {k}, activeJobs := w.activeJobs - 1)
    else if job.failed > 0 then
      w.(images := w.images[k := img.(progress := Progress.Failed)], jobs := w.jobs - {k},
         activeJobs := w.activeJobs - 1)
    else w
  }

  /** Without its job an image is PENDING again.  A failed job with fewer than three retries so far is
      retried and nothing else is looked at.  Otherwise the job, if it has ended, makes the image COMPLETED
      or FAILED, and then the first container with restarts may overwrite that. */
  lemma RunningOutcomes(w: World, k: Key, view: View, rc: nat)
    requires w.writes.Reliable? && k in w.images && w.images[k].progress in {Running, Retrying}
    requires Key(k.ns, w.images[k].exportName) in w.exports && RestartsSeen(view.restarts, rc)
    ensures var o, img := Reconcile(w, k, view), w.images[k];
      if k !in w.jobs then
        o.result == Requeue && Unchanged(w.(images := w.images[k := img.(progress := Pending)]), o.w)
      else if w.jobs[k].succeeded == 0 && w.jobs[k].failed > 0 && img.retries < 3 then
        var again := img.(progress := Retrying, retries := img.retries + 1);
        o.result == Requeue && Unchanged(
          w.(images := w.images[k := again], jobs := w.jobs - {k}, activeJobs := w.activeJobs - 1), o.w)
      else
        var m := Settled(w, k);
        && !o.result.Error? && o.w.activeJobs == m.activeJobs
        && RestartsWrite(m, o.w, k, rc) && RestartsDelete(m, o.w, k, view, rc)
  {
    var v := w.(maxParallelJobs := w.exports[ExportOf(k, w.images[k])].spec.maxConcurrentJobs);
    assert Reconcile(w, k, view) == HandleRunning(v, k, view) by { hide HandleRunning, HandlePending; }
    hide Reconcile;
    if k in w.jobs && !(w.jobs[k].succeeded == 0 && w.jobs[k].failed > 0 && w.images[k].retries < 3) {
      SettledOutcomes(v, k, view, rc);
      LimitDoesNotMatter(w, v, HandleRunning(v, k, view).w, k, view, rc);
    } else {
      UnsettledOutcomes(v, k, view);
    }
    hide HandleRunning, RestartsSeen, Settled, RestartsWrite, RestartsDelete;
  }

  lemma LimitDoesNotMatter(w: World, v: World, t: World, k: Key, view: View, rc: nat)
    requires k in w.images && k in w.jobs && v == w.(maxParallelJobs := v.maxParallelJobs)
    ensures Settled(v, k).activeJobs == Settled(w, k).activeJobs
    ensures RestartsWrite(Settled(v, k), t, k, rc) ==> RestartsWrite(Settled(w, k), t, k, rc)
    ensures RestartsDelete(Settled(v, k), t, k, view, rc) ==> RestartsDelete(Settled(w, k), t, k, view, rc)
  {
    assert Settled(v, k) == Settled(w, k).(maxParallelJobs := v.maxParallelJobs);
    hide Settled;
  }

  lemma UnsettledOutcomes(v: World, k: Key, view: View)
    requires v.writes.Reliable? && k in v.images
    requires k in v.jobs ==> v.jobs[k].succeeded == 0 && v.jobs[k].failed > 0 && v.images[k].retries < 3
    ensures var o, img := HandleRunning(v, k, view), v.images[k];
      && o.result == Requeue
      && if k !in v.jobs then Unchanged(v.(images := v.images[k := img.(progress := Pending)]), o.w)
         else
           var again := img.(progress := Retrying, retries := img.retries + 1);
           Unchanged(v.(images := v.images[k := again], jobs := v.jobs - {k}, activeJobs := v.activeJobs - 1), o.w)
  {
    hide Finish;
  }

  lemma SettledOutcomes(v: World, k: Key, view: View, rc: nat)
    requires v.writes.Reliable? && k in v.images && k in v.jobs && ExportOf(k, v.images[k]) in v.exports
    requires !(v.jobs[k].succeeded == 0 && v.jobs[k].failed > 0 && v.images[k].retries < 3)
    requires RestartsSeen(view.restarts, rc)
    ensures var o, m := HandleRunning(v, k, view), Settled(v, k);
      && !o.result.Error? && o.w.activeJobs == m.activeJobs
      && RestartsWrite(m, o.w, k, rc) && RestartsDelete(m, o.w, k, view, rc)
  {
    assert HandleRunning(v, k, view) == Finish(Settled(v, k), k, view) by { hide Finish; }
    hide HandleRunning, RestartsSeen, RestartsWrite, RestartsDelete;
    TailOutcomes(Settled(v, k), k, view, rc);
  }

  // ----- the export

  /** Some image of the export is in one of the states. */
  ghost predicate SomeImage(w: World, e: Key, states: set<Progress>) {
    exists j :: j in w.images && j.ns == e.ns && w.images[j].exportName == e.name && w.images[j].progress in states
  }

  /** FAILED goes before RUNNING, RUNNING before PENDING; COMPLETED when there is nothing of the kind,
      images nobody has looked at included. */
  ghost predicate IsAggregate(w: World, e: Key, p: Progress) {
    && (p == Progress.Failed <==> SomeImage(w, e, {Progress.Failed}))
    && (p == Running <==> !SomeImage(w, e, {Progress.Failed}) && SomeImage(w, e, {Running, Retrying}))
    && (p == Pending <==>
          !SomeImage(w, e, {Progress.Failed}) && !SomeImage(w, e, {Running, Retrying}) && SomeImage(w, e, {Pending}))
    && (p == Completed <==> !SomeImage(w, e, {Progress.Failed, Running, Retrying, Pending}))
  }

  lemma ImagesAreThose(w: World, e: Key)
    ensures forall j :: IsImageOf(w, j, e) <==> j in w.images && j.ns == e.ns && w.images[j].exportName == e.name
  {
  }

  lemma AggregateSays(w: World, e: Key)
    ensures IsAggregate(w, e, Aggregate(w, e))
    ensures AllCompletedSwitch(w, e) <==> !SomeImage(w, e, {Progress.Failed, Running, Retrying, Pending})
    ensures SomeImage(w, e, {Progress.Failed, Running, Retrying, Pending}) <==>
      SomeImage(w, e, {Progress.Failed}) || SomeImage(w, e, {Running, Retrying}) || SomeImage(w, e, {Pending})
  {
    ImagesAreThose(w, e);
    hide IsImageOf;
    if j :| IsImageOf(w, j, e) && CountsAsUnfinished(w.images[j].progress) {
      assert w.images[j].progress in {Progress.Failed, Running, Retrying, Pending};
      assert SomeImage(w, e, {Progress.Failed, Running, Retrying, Pending});
    }
    assert SomeImage(w, e, {Progress.Failed}) <==> AnyFailed(w, e);
    assert SomeImage(w, e, {Running, Retrying}) <==> AnyRunning(w, e);
    assert !AllCompletedSwitch(w, e) <==> SomeImage(w, e, {Progress.Failed, Running, Retrying, Pending});
    assert SomeImage(w, e, {Progress.Failed, Running, Retrying, Pending}) <==>
      SomeImage(w, e, {Progress.Failed}) || SomeImage(w, e, {Running, Retrying}) || SomeImage(w, e, {Pending});
  }

  /** After a reconcile that has come to its end without error, with a job that is not to be retried, the
      export's status is what the states of its images say, and the reconcile is run again exactly as long
      as one of them counts as unfinished. */
  lemma ExportIsTold(w: World, k: Key, view: View)
    requires k in w.images && w.images[k].progress in {Running, Retrying} && k in w.jobs
    requires !(w.jobs[k].succeeded == 0 && w.jobs[k].failed > 0 && w.images[k].retries < 3)
    requires !Reconcile(w, k, view).result.Error?
    ensures var o, e := Reconcile(w, k, view), Key(k.ns, w.images[k].exportName);
      && e in w.exports && o.w.exports.Keys == w.exports.Keys
      && o.w.exports == w.exports[e := w.exports[e].(progress := o.w.exports[e].progress)]
      && IsAggregate(o.w, e, o.w.exports[e].progress)
      && o.result == if SomeImage(o.w, e, {Progress.Failed, Running, Retrying, Pending}) then Requeue else Done
  {
    var o, e := Reconcile(w, k, view), ExportOf(k, w.images[k]);
    assert e in w.exports by { hide HandleRunning, HandlePending; }
    ReconcileExports(w, k, view);
    hide Reconcile, Aggregate, AllCompletedSwitch, IsAggregate, SomeImage;
    AggregateSays(o.w, e);
  }

  lemma AggregateIsThat(w: World, e: Key, p: Progress)
    ensures IsAggregate(w, e, p) <==> p == Aggregate(w, e)
  {
    AggregateSays(w, e);
    hide Aggregate, SomeImage;
  }

  /** The export is written only when its status is not yet what the images say, and that is the only call
      that telling it takes. */
  lemma ExportIsToldOnce(w: World, k: Key)
    requires k in w.images && Key(k.ns, w.images[k].exportName) in w.exports
    ensures var o, e := UpdateExportStatus(w, k), Key(k.ns, w.images[k].exportName);
      if IsAggregate(w, e, w.exports[e].progress) then !o.result.Error? && o.w == w
      else
        && (o.result.Error? <==> !CanAfford(w.writes, 1))
        && (o.result.Error? ==> o.w == w)
        && (!o.result.Error? ==> o.w.writes == Left(w.writes, 1) && IsAggregate(w, e, o.w.exports[e].progress))
  {
    var e := ExportOf(k, w.images[k]);
    AggregateIsThat(w, e, w.exports[e].progress);
    AggregateIsThat(w, e, Aggregate(w, e));
    hide Aggregate, AllCompletedSwitch, IsAggregate;
  }
}

/** A full name that is stored is not pulled again. */
module StoredNames {
  import opened ContainerNames
  import opened Cluster
  import opened Controllers
  import opened ImageMoves
  import opened ImageResults
  import opened ExportMoves
  import opened ExportCompletion
  import opened Runs

  /** Jobs of the full name, other than the job of an image of this very name, are among those before. */
  predicate NoJobAdded(w: World, t: World, name: string, fullName: string) {
    forall k | k in t.jobs && k.name != name && t.jobs[k].fullName == fullName ::
      k in w.jobs && w.jobs[k].fullName == fullName
  }

  lemma MoveAddsNone(w: World, o: Outcome, k: Key, view: View, j: Key)
    requires k in w.images && Moves(w, o, k, view) && j in w.images && w.images[j].progress == Completed
    ensures NoJobAdded(w, o.w, j.name, w.images[j].container.fullName)
  {
    if Started(w, o, k) {
      hide HasSlot;
      assert !Stands(w, j, k);
    } else if Purges(w, o, k, view) {
      var m :| BeforeTail(w, m, k) && Purged(Books(m), Books(o.w), k.ns) && o.w.activeJobs == m.activeJobs;
      assert forall i | i in o.w.jobs :: i in m.jobs && m.jobs[i] == o.w.jobs[i];
      hide Purges, Purged;
    } else {
      hide Purges, Started, ImageExists, HasSlot;
    }
  }

  lemma ReconcileAddsNone(w: World, k: Key, view: View, j: Key)
    requires j in w.images && w.images[j].progress == Completed
    ensures var t := Reconcile(w, k, view).w;
      NoJobAdded(w, t, j.name, w.images[j].container.fullName) && j in t.images && t.images[j] == w.images[j]
  {
    if k in w.images {
      var o := Reconcile(w, k, view);
      ReconcileMoves(w, k, view);
      MoveKeepsImages(w, o, k, view);
      MoveAddsNone(w, o, k, view, j);
      if k == j {
        StoredIsLeftAlone(w, k, view);
      }
      hide Reconcile, Moves, NoJobAdded;
    }
  }

  lemma StepAddsNone(w: World, ev: Event, digest: string -> string, j: Key)
    requires j in w.images && w.images[j].progress == Completed && ev != ImageDeleted(j)
    ensures var t := Step(w, ev, digest);
      NoJobAdded(w, t, j.name, w.images[j].container.fullName) && j in t.images && t.images[j] == w.images[j]
  {
    match ev
    case ImageReconcile(k, view, writes) =>
      ReconcileAddsNone(w.(writes := writes), k, view, j);
      hide Reconcile;
    case ExportReconcile(e, found, writes) =>
      ReconcileExportFrame(w.(writes := writes), e, found, digest);
      hide ReconcileExport;
    case ExportApplied(e, spec) => hide IsImageOf;
    case _ =>
  }

  /** As long as a COMPLETED image is not deleted it stays COMPLETED, and no run of either controller,
      whatever fails, creates a job of its full name for an image of another name. */
  lemma {:induction false} StoredIsNotPulledAgain(w: World, events: seq<Event>, digest: string -> string, j: Key)
    requires j in w.images && w.images[j].progress == Completed
    requires forall ev | ev in events :: ev != ImageDeleted(j)
    ensures var t := Run(w, events, digest);
      && j in t.images && t.images[j] == w.images[j]
      && forall k | k in t.jobs && k.name != j.name && t.jobs[k].fullName == w.images[j].container.fullName ::
           k in w.jobs && w.jobs[k].fullName == w.images[j].container.fullName
    decreases |events|
  {
    if events != [] {
      assert events[0] in events && forall ev | ev in events[1..] :: ev in events;
      StepAddsNone(w, events[0], digest, j);
      hide Step;
      StoredIsNotPulledAgain(Step(w, events[0], digest), events[1..], digest, j);
    }
  }
}
