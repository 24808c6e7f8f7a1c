/** What an export reconcile comes to, case by case and for any number of succeeding calls: statuses,
    requested images and what is at their keys, told from the state before. */
module ExportOutcomes {
  import opened Sequences
  import opened ContainerNames
  import opened Cluster
  import opened Controllers
  import opened ExportMoves
  import opened ExportTracking
  import opened ImageObjects
  import opened PurgeReach

  // ----- what is requested

  /** The containers are the parses of the names at these places, in order, and no other name parses. */
  ghost predicate ParsedAt(names: seq<string>, list: seq<Container>, at: seq<nat>) {
    && |at| == |list|
    && (forall i | 0 <= i < |at| :: at[i] < |names| && Parse(names[at[i]]) == Ok(list[i]))
    && (forall i, j | 0 <= i < j < |at| :: at[i] < at[j])
    && (forall n: nat | n < |names| && Parse(names[n]).Ok? :: n in at)
  }

  lemma OneMoreName(front: seq<string>, name: string, list: seq<Container>, at: seq<nat>)
    requires ParsedAt(front, list, at)
    ensures Parse(name).Ok? ==> ParsedAt(front + [name], list + [Parse(name).value], at + [|front|])
    ensures Parse(name).Err? ==> ParsedAt(front + [name], list, at)
  {
    hide Parse;
    var names := front + [name];
    forall n: nat | n < |front|
      ensures names[n] == front[n]
    {
    }
    assert names[|front|] == name;
    assert (at + [|front|])[|at|] == |front|;
    assert forall n | n in at :: n in at + [|front|];
  }

  lemma AdditionalNext(front: seq<string>, name: string)
    ensures Additional(front + [name]) ==
      if Parse(name).Ok? then Additional(front) + [Parse(name).value] else Additional(front)
  {
    FrontOfSum(front, name);
    EmptySum(Additional(front));
    hide Parse;
  }

  /** The additional images are those of the given names that parse, in order. */
  lemma {:induction false} AdditionalParses(names: seq<string>) returns (at: seq<nat>)
    ensures ParsedAt(names, Additional(names), at)
  {
    hide Parse;
    if names == [] {
      at := [];
    } else {
      hide Additional, ParsedAt;
      var front, name := names[..|names|-1], names[|names|-1];
      assert names == front + [name];
      var before := AdditionalParses(front);
      OneMoreName(front, name, Additional(front), before);
      AdditionalNext(front, name);
      at := if Parse(name).Ok? then before + [|front|] else before;
    }
  }

  // ----- before the create loop

  /** The finalizer and PENDING cost a call each where they are missing, RUNNING always does. */
  function CallsToLoop(x: Export): nat {
    (if x.finalizer then 0 else 1) + (if x.progress.Unset? then 1 else 0) + 1
  }

  function Guarded(w: World, e: Key, progress: Progress): World
    requires e in w.exports
  {
    w.(exports := w.exports[e := w.exports[e].(finalizer := true, progress := progress)])
  }

  predicate SameButWrites(w: World, t: World) {
    t == w.(writes := t.writes)
  }

  /** Where a reconcile that does not come to the loop stops, and with what. */
  lemma EarlyOutcomes(w: World, e: Key, found: Discovery, digest: string -> string)
    requires e in w.exports && !w.exports[e].deleting
    ensures var o, x := ReconcileExport(w, e, found, digest), w.exports[e];
      var toGuard := if x.finalizer then 0 else 1;
      var pending := if x.progress.Unset? then Pending else x.progress;
      if !CanAfford(w.writes, toGuard) then o == Outcome(w, Error)
      else if x.progress in {Completed, Progress.Failed} then
        o.result == Done && SameButWrites(Guarded(w, e, x.progress), o.w)
      else if !CanAfford(w.writes, CallsToLoop(x) - 1) then
        o.result == Error && SameButWrites(Guarded(w, e, x.progress), o.w)
      else if found.ListFailed? || !CanAfford(w.writes, CallsToLoop(x)) then
        o.result == Error && SameButWrites(Guarded(w, e, pending), o.w)
      else
        var list := found.containers + Additional(x.spec.additionalImages);
        var v := StartLoop(Guarded(w, e, Running).(writes := Left(w.writes, CallsToLoop(x))), e, list);
        o == CreateImages(v, e, v.exports[e], list, digest)
  {
    ReconcileByWrites(w, e, found, digest);
    FirstWrites(w, e);
    hide ReconcileExport, CreateImages, Additional, FinalizerWritten, PendingWritten, RunningWritten, CanAfford, Left;
  }

  lemma FirstWrites(w: World, e: Key)
    requires e in w.exports
    ensures var x := w.exports[e].(finalizer := true);
      var o1 := FinalizerWritten(w, e);
      var o2 := PendingWritten(o1.w, e, x);
      var o3 := RunningWritten(o2.w, e, x);
      var toGuard := if w.exports[e].finalizer then 0 else 1;
      var pending := if x.progress.Unset? then Pending else x.progress;
      && (o1.result.Error? <==> !CanAfford(w.writes, toGuard)) && (o1.result.Error? ==> o1 == Outcome(w, Error))
      && (!o1.result.Error? ==>
            && SameButWrites(Guarded(w, e, x.progress), o1.w)
            && (o2.result.Error? <==> !CanAfford(w.writes, CallsToLoop(w.exports[e]) - 1))
            && (o2.result.Error? ==> o2 == Outcome(o1.w, Error))
            && (!o2.result.Error? ==>
                  && SameButWrites(Guarded(w, e, pending), o2.w)
                  && (o3.result.Error? <==> !CanAfford(w.writes, CallsToLoop(w.exports[e])))
                  && (o3.result.Error? ==> o3 == Outcome(o2.w, Error))
                  && (!o3.result.Error? ==>
                        o3.w == Guarded(w, e, Running).(writes := Left(w.writes, CallsToLoop(w.exports[e]))))))
  {
    var x := w.exports[e].(finalizer := true);
    var o1 := FinalizerWritten(w, e);
    var n1 := if w.exports[e].finalizer then 0 else 1;
    FirstWrite(w, e);
    hide FinalizerWritten;
    if !o1.result.Error? {
      var pending := if x.progress.Unset? then Pending else x.progress;
      var o2 := PendingWritten(o1.w, e, x);
      SecondWrite(w, o1.w, e, n1);
      hide PendingWritten;
      if !o2.result.Error? {
        ThirdWrite(w, o2.w, e, pending, CallsToLoop(w.exports[e]) - 1);
      }
    }
    hide RunningWritten, CanAfford, Left;
  }

  lemma FirstWrite(w: World, e: Key)
    requires e in w.exports
    ensures var o, n := FinalizerWritten(w, e), if w.exports[e].finalizer then 0 else 1;
      && (o.result.Error? <==> !CanAfford(w.writes, n)) && (o.result.Error? ==> o == Outcome(w, Error))
      && (!o.result.Error? ==> o.w == Guarded(w, e, w.exports[e].progress).(writes := Left(w.writes, n)))
  {
    assert w.exports[e].finalizer ==> w.exports[e := w.exports[e].(finalizer := true)] == w.exports;
  }

  lemma SecondWrite(w: World, v: World, e: Key, n: nat)
    requires e in w.exports && CanAfford(w.writes, n)
    requires v == Guarded(w, e, w.exports[e].progress).(writes := Left(w.writes, n))
    ensures var x := w.exports[e].(finalizer := true);
      var o, m := PendingWritten(v, e, x), n + if x.progress.Unset? then 1 else 0;
      var pending := if x.progress.Unset? then Pending else x.progress;
      && (o.result.Error? <==> !CanAfford(w.writes, m)) && (o.result.Error? ==> o == Outcome(v, Error))
      && (!o.result.Error? ==> o.w == Guarded(w, e, pending).(writes := Left(w.writes, m)))
  {
    var x := w.exports[e].(finalizer := true);
    assert v.exports[e := x.(progress := Pending)] == w.exports[e := x.(progress := Pending)];
  }

  lemma ThirdWrite(w: World, v: World, e: Key, progress: Progress, n: nat)
    requires e in w.exports && CanAfford(w.writes, n) && v == Guarded(w, e, progress).(writes := Left(w.writes, n))
    ensures var x := w.exports[e].(finalizer := true);
      var o := RunningWritten(v, e, x);
      && (o.result.Error? <==> !CanAfford(w.writes, n + 1)) && (o.result.Error? ==> o == Outcome(v, Error))
      && (!o.result.Error? ==> o.w == Guarded(w, e, Running).(writes := Left(w.writes, n + 1)))
  {
    var x := w.exports[e].(finalizer := true);
    assert v.exports[e := x.(progress := Running)] == w.exports[e := x.(progress := Running)];
  }

  // ----- deletion

  /** An export that is being deleted: without the finalizer nothing is done; otherwise one cleanup job is
      created for what its spec says now, unless one of its name is there, and then it is gone. */
  lemma DeletionOutcomes(w: World, e: Key, found: Discovery, digest: string -> string)
    requires e in w.exports && w.exports[e].deleting
    ensures var o := ReconcileExport(w, e, found, digest);
      var job := Key(e.ns, CleanupJobName(e.name));
      if !w.exports[e].finalizer then o == Outcome(w, Done)
      else if job in w.cleanupJobs || !CanAfford(w.writes, 1) then o == Outcome(w, Error)
      else
        && o.w.cleanupJobs == w.cleanupJobs + {job} && o.w.history.cleaned == w.history.cleaned[e := w.exports[e].spec]
        && o.w.exports == (if CanAfford(w.writes, 2) then w.exports - {e} else w.exports)
        && o.result == (if CanAfford(w.writes, 2) then Done else Error)
        && o.w.images == w.images && o.w.jobs == w.jobs && o.w.activeJobs == w.activeJobs
  {
    hide CleanupJobName;
  }

  // ----- the loop meets a FAILED image

  predicate HasFailedAt(w: World, e: Key, c: Container, digest: string -> string) {
    var k := ImageKey(digest, e, c);
    k in w.images && w.images[k].progress == Progress.Failed
  }

  /** The request at `i` is the first whose key holds a FAILED image. */
  predicate FirstFailed(w: World, e: Key, list: seq<Container>, digest: string -> string, i: nat) {
    i < |list| && HasFailedAt(w, e, list[i], digest) && forall j | 0 <= j < i :: !HasFailedAt(w, e, list[j], digest)
  }

  lemma FailedInRest(w: World, e: Key, list: seq<Container>, digest: string -> string, i: nat)
    requires FirstFailed(w, e, list, digest, i) && i > 0
    ensures FirstFailed(w, e, list[1..], digest, i - 1) && list[..i][1..] == list[1..][..i-1] && list[..i][0] == list[0]
    ensures !HasFailedAt(w, e, list[0], digest)
  {
    hide HasFailedAt;
  }

  lemma FailedStays(w: World, w1: World, e: Key, list: seq<Container>, digest: string -> string, i: nat, k: Key)
    requires FirstFailed(w, e, list, digest, i) && k !in w.images
    requires k in w1.images && w1.images == w.images[k := w1.images[k]] && w1.images[k].progress.Unset?
    ensures FirstFailed(w1, e, list, digest, i)
  {
    hide ImageKey;
  }

  /** What the loop leaves when it stops at request `i`: the status FAILED, if the calls pay for the objects
      missing before it and for the status; and no object beyond. */
  predicate StopsAt(w: World, o: Outcome, e: Key, x: Export, before: seq<Container>, digest: string -> string) {
    StopsWith(w, o, e, x, |Missing(w, e, before, digest)|, KeysOf(digest, e, before))
  }

  predicate StopsWith(w: World, o: Outcome, e: Key, x: Export, n: nat, keys: set<Key>) {
    && (CanAfford(w.writes, n + 1) ==>
          o.result == Done && o.w.exports == w.exports[e := x.(progress := Progress.Failed)])
    && (!CanAfford(w.writes, n + 1) ==> o.result == Error && o.w.exports == w.exports)
    && w.images.Keys <= o.w.images.Keys <= w.images.Keys + keys
    && (CanAfford(w.writes, n) ==> o.w.images.Keys == w.images.Keys + keys)
    && (forall k | k in w.images :: o.w.images[k] == w.images[k])
  }

  lemma StopsHere(w: World, e: Key, x: Export, digest: string -> string)
    requires e in w.exports
    ensures StopsAt(w, UpdateExport(w, e, x.(progress := Progress.Failed)), e, x, [], digest)
  {
    assert KeysOf(digest, e, []) == {};
    assert Missing(w, e, [], digest) == {};
  }

  lemma StopsOverExisting(
      w: World, o: Outcome, e: Key, x: Export, before: seq<Container>, digest: string -> string)
    requires before != [] && ImageKey(digest, e, before[0]) in w.images && StopsAt(w, o, e, x, before[1..], digest)
    ensures StopsAt(w, o, e, x, before, digest)
  {
    MissingOverExisting(w, e, before, digest);
    KeysOfCons(digest, e, before);
    hide KeysOf, Missing, ImageKey;
  }

  lemma StopsOverFresh(
      w: World, w1: World, o: Outcome, e: Key, x: Export, before: seq<Container>, digest: string -> string)
    requires before != [] && ImageKey(digest, e, before[0]) !in w.images && w.CanWrite()
    requires w1.images.Keys == w.images.Keys + {ImageKey(digest, e, before[0])}
    requires forall k | k in w.images :: w1.images[k] == w.images[k]
    requires w1.exports == w.exports && w1.writes == w.Spent().writes
    requires StopsAt(w1, o, e, x, before[1..], digest)
    ensures StopsAt(w, o, e, x, before, digest)
  {
    MissingOverFresh(w, w1, e, before, digest);
    KeysOfCons(digest, e, before);
    hide KeysOf, Missing, ImageKey, StopsWith;
    var n := |Missing(w1, e, before[1..], digest)|;
    OneMoreKey(w, w1, o, e, x, n, KeysOf(digest, e, before[1..]), ImageKey(digest, e, before[0]));
  }

  lemma OneMoreKey(w: World, w1: World, o: Outcome, e: Key, x: Export, n: nat, keys: set<Key>, k: Key)
    requires k !in w.images && w.CanWrite() && w1.images.Keys == w.images.Keys + {k}
    requires forall k | k in w.images :: w1.images[k] == w.images[k]
    requires w1.exports == w.exports && w1.writes == w.Spent().writes && StopsWith(w1, o, e, x, n, keys)
    ensures StopsWith(w, o, e, x, n + 1, {k} + keys)
  {
    assert CanAfford(w.writes, n + 1) <==> CanAfford(w1.writes, n);
    assert CanAfford(w.writes, n + 2) <==> CanAfford(w1.writes, n + 1);
    hide CanAfford;
    assert w1.images.Keys + keys == w.images.Keys + ({k} + keys);
  }

  lemma StopsWithoutCalls(w: World, e: Key, x: Export, before: seq<Container>, digest: string -> string)
    requires before != [] && ImageKey(digest, e, before[0]) !in w.images && !w.CanWrite()
    ensures StopsAt(w, Outcome(w, Error), e, x, before, digest)
  {
    KeysOfCons(digest, e, before);
    hide KeysOf, ImageKey;
    assert ImageKey(digest, e, before[0]) in Missing(w, e, before, digest);
    assert |Missing(w, e, before, digest)| > 0;
  }

  lemma {:induction false} LoopStopsAtFailed(
      w: World, e: Key, x: Export, list: seq<Container>, digest: string -> string, i: nat)
    requires e in w.exports && FirstFailed(w, e, list, digest, i)
    ensures StopsAt(w, CreateImages(w, e, x, list, digest), e, x, list[..i], digest)
    decreases |list|
  {
    hide StopsAt, ImageKey;
    if i == 0 {
      StopsHere(w, e, x, digest);
      assert list[..i] == [];
    } else {
      FailedInRest(w, e, list, digest, i);
      var k := ImageKey(digest, e, list[0]);
      if k in w.images {
        LoopStopsAtFailed(w, e, x, list[1..], digest, i - 1);
        StopsOverExisting(w, CreateImages(w, e, x, list, digest), e, x, list[..i], digest);
      } else if w.CanWrite() {
        var w1 := CreateImage(w, k, NewImage(e, x, list[0])).w;
        FailedStays(w, w1, e, list[1..], digest, i - 1, k);
        LoopStopsAtFailed(w1, e, x, list[1..], digest, i - 1);
        StopsOverFresh(w, w1, CreateImages(w, e, x, list, digest), e, x, list[..i], digest);
      } else {
        StopsWithoutCalls(w, e, x, list[..i], digest);
      }
    }
  }

  // ----- the loop meets none

  lemma {:induction false} LoopDoesNotFail(
      w: World, e: Key, x: Export, list: seq<Container>, digest: string -> string)
    requires NoneFailed(w, e, list, digest) && e in w.exports
    requires !w.exports[e].progress.Failed? && !x.progress.Failed?
    ensures var t := CreateImages(w, e, x, list, digest).w; e in t.exports && !t.exports[e].progress.Failed?
    decreases |list|
  {
    hide ImageKey, AllCompleted;
    if list != [] {
      assert list[0] in list && forall c | c in list[1..] :: c in list;
      var k := ImageKey(digest, e, list[0]);
      if k in w.images {
        LoopDoesNotFail(w, e, x, list[1..], digest);
      } else {
        LoopDoesNotFail(CreateImage(w, k, NewImage(e, x, list[0])).w, e, x, list[1..], digest);
      }
    }
  }

  lemma FindFailed(w: World, e: Key, list: seq<Container>, digest: string -> string) returns (i: nat)
    requires exists c :: c in list && HasFailedAt(w, e, c, digest)
    ensures FirstFailed(w, e, list, digest, i)
  {
    hide HasFailedAt;
    i := 0;
    while !HasFailedAt(w, e, list[i], digest)
      invariant i < |list| && forall j | 0 <= j < i :: !HasFailedAt(w, e, list[j], digest)
      invariant exists j :: i <= j < |list| && HasFailedAt(w, e, list[j], digest)
      decreases |list| - i
    {
      i := i + 1;
    }
  }

  lemma FailedAtSomeIndex(w: World, e: Key, list: seq<Container>, digest: string -> string)
    ensures NoneFailed(w, e, list, digest) <==> !exists i: nat :: FirstFailed(w, e, list, digest, i)
    ensures NoneFailed(w, e, list, digest) <==> !exists c :: c in list && HasFailedAt(w, e, c, digest)
  {
    if c :| c in list && HasFailedAt(w, e, c, digest) {
      var i := FindFailed(w, e, list, digest);
      assert FirstFailed(w, e, list, digest, i);
    }
    if i: nat :| FirstFailed(w, e, list, digest, i) {
      assert list[i] in list;
    }
    hide ImageKey, FirstFailed;
  }

  lemma OneFirstFailed(w: World, e: Key, list: seq<Container>, digest: string -> string, i: nat, j: nat)
    requires FirstFailed(w, e, list, digest, i) && FirstFailed(w, e, list, digest, j)
    ensures i == j
  {
    hide HasFailedAt;
  }

  // ----- FAILED, exactly

  ghost predicate FailsExactly(w: World, e: Key, list: seq<Container>, o: Outcome, digest: string -> string)
    requires e in w.exports
  {
    && e in o.w.exports
    && (o.w.exports[e].progress == Progress.Failed <==> exists i: nat ::
          && FirstFailed(w, e, list, digest, i)
          && CanAfford(w.writes, CallsToLoop(w.exports[e]) + |Missing(w, e, list[..i], digest)| + 1))
    && (w.writes.Reliable? ==>
          (o.w.exports[e].progress == Progress.Failed <==> exists c :: c in list && HasFailedAt(w, e, c, digest)))
    && (forall i: nat | FirstFailed(w, e, list, digest, i) ::
          && o.w.images.Keys <= w.images.Keys + KeysOf(digest, e, list[..i])
          && (o.w.exports[e].progress == Progress.Failed ==> o.result == Done))
  }

  /** A reconcile of an unfinished export makes it FAILED if and only if some requested key holds a FAILED
      image and the calls last until it is met and told: the writes before the loop, an object for every key
      missing before it, and the status.  Without failing calls: if and only if there is one. */
  lemma FailsIff(w: World, e: Key, found: Discovery, digest: string -> string)
    requires e in w.exports && !w.exports[e].deleting && w.exports[e].progress !in {Completed, Progress.Failed}
    requires found.Found?
    ensures FailsExactly(w, e, Requested(w.exports[e], found), ReconcileExport(w, e, found, digest), digest)
  {
    var list, o := Requested(w.exports[e], found), ReconcileExport(w, e, found, digest);
    EarlyOutcomes(w, e, found, digest);
    hide ReconcileExport, CreateImages, Additional;
    FailedAtSomeIndex(w, e, list, digest);
    if !CanAfford(w.writes, CallsToLoop(w.exports[e])) {
      StoppedEarly(w, o, e, list, digest);
      hide FailsExactly;
    } else {
      var v := StartLoop(Guarded(w, e, Running).(writes := Left(w.writes, CallsToLoop(w.exports[e]))), e, list);
      LoopFailsExactly(w, v, e, list, digest);
      hide FailsExactly;
    }
  }

  lemma StoppedEarly(w: World, o: Outcome, e: Key, list: seq<Container>, digest: string -> string)
    requires e in w.exports && e in o.w.exports && o.w.images == w.images
    requires !CanAfford(w.writes, CallsToLoop(w.exports[e])) && o.w.exports[e].progress != Progress.Failed
    ensures FailsExactly(w, e, list, o, digest)
  {
    hide FirstFailed, KeysOf, Missing;
  }

  lemma LoopFailsExactly(w: World, v: World, e: Key, list: seq<Container>, digest: string -> string)
    requires e in w.exports && CanAfford(w.writes, CallsToLoop(w.exports[e]))
    requires v == StartLoop(Guarded(w, e, Running).(writes := Left(w.writes, CallsToLoop(w.exports[e]))), e, list)
    requires NoneFailed(w, e, list, digest) <==> !exists i: nat :: FirstFailed(w, e, list, digest, i)
    requires NoneFailed(w, e, list, digest) <==> !exists c :: c in list && HasFailedAt(w, e, c, digest)
    ensures FailsExactly(w, e, list, CreateImages(v, e, v.exports[e], list, digest), digest)
  {
    if i: nat :| FirstFailed(w, e, list, digest, i) {
      LoopStopsAtFailed(v, e, v.exports[e], list, digest, i);
      hide CreateImages, KeysOf, ImageKey, NoneFailed;
      forall j: nat | FirstFailed(w, e, list, digest, j)
        ensures j == i
      {
        OneFirstFailed(w, e, list, digest, i, j);
      }
      hide FirstFailed;
      assert Missing(v, e, list[..i], digest) == Missing(w, e, list[..i], digest);
      hide Missing, HasFailedAt;
      FailsExactlyAt(w, CreateImages(v, e, v.exports[e], list, digest), e, list, digest, i);
      hide FailsExactly;
    } else {
      assert NoneFailed(v, e, list, digest);
      LoopDoesNotFail(v, e, v.exports[e], list, digest);
      hide CreateImages, KeysOf, Missing, NoneFailed, HasFailedAt, FirstFailed;
    }
  }

  lemma FailsExactlyAt(w: World, o: Outcome, e: Key, list: seq<Container>, digest: string -> string, i: nat)
    requires e in w.exports && e in o.w.exports && FirstFailed(w, e, list, digest, i)
    requires forall j: nat | FirstFailed(w, e, list, digest, j) :: j == i
    requires exists c :: c in list && HasFailedAt(w, e, c, digest)
    requires o.w.images.Keys <= w.images.Keys + KeysOf(digest, e, list[..i])
    requires o.w.exports[e].progress == Progress.Failed <==>
      CanAfford(w.writes, CallsToLoop(w.exports[e]) + |Missing(w, e, list[..i], digest)| + 1)
    requires o.w.exports[e].progress == Progress.Failed ==> o.result == Done
    ensures FailsExactly(w, e, list, o, digest)
  {
    hide HasFailedAt, Missing, KeysOf;
  }

  // ----- the verdict

  /** Every image of the export is COMPLETED or PRESENT. */
  ghost predicate NothingLeft(w: World, e: Key) {
    forall j | j in w.images && j.ns == e.ns && w.images[j].exportName == e.name ::
      w.images[j].progress in {Completed, Present}
  }

  lemma {:induction false} LoopVerdict(w: World, e: Key, x: Export, list: seq<Container>, digest: string -> string)
    requires w.writes.Reliable? && e in w.exports && NoneFailed(w, e, list, digest)
    ensures var o := CreateImages(w, e, x, list, digest);
      if NothingLeft(o.w, e) then o.result == Done && o.w.exports == w.exports[e := x.(progress := Completed)]
      else o.result == Requeue && o.w.exports == w.exports
    decreases |list|
  {
    hide ImageKey, NothingLeft;
    if list == [] {
      VerdictOfCheck(w, e, x);
      hide CheckCompletion;
    } else {
      hide CheckCompletion;
      assert list[0] in list && forall c | c in list[1..] :: c in list;
      var k := ImageKey(digest, e, list[0]);
      if k in w.images {
        LoopVerdict(w, e, x, list[1..], digest);
      } else {
        LoopVerdict(CreateImage(w, k, NewImage(e, x, list[0])).w, e, x, list[1..], digest);
      }
    }
  }

  lemma VerdictOfCheck(w: World, e: Key, x: Export)
    requires w.writes.Reliable? && e in w.exports
    ensures var o := CheckCompletion(EndLoop(w, e), e, x);
      if NothingLeft(o.w, e) then o.result == Done && o.w.exports == w.exports[e := x.(progress := Completed)]
      else o.result == Requeue && o.w.exports == w.exports
  {
    var v, o := EndLoop(w, e), CheckCompletion(EndLoop(w, e), e, x);
    assert o.w.images == w.images && v.images == w.images && v.exports == w.exports;
    assert AllCompleted(v, e) <==> NothingLeft(w, e) by {
      forall j
        ensures IsImageOf(v, j, e) <==> j in w.images && j.ns == e.ns && w.images[j].exportName == e.name
      {
      }
      hide IsImageOf;
      if AllCompleted(v, e) {
        forall j | j in w.images && j.ns == e.ns && w.images[j].exportName == e.name
          ensures w.images[j].progress in {Completed, Present}
        {
          assert IsImageOf(v, j, e);
        }
      }
    }
    hide AllCompleted, NothingLeft;
  }

  /** With calls that succeed and no FAILED image at a requested key, a reconcile of an unfinished export
      creates the first requested image at every missing key, and then ends the export if every image of it
      is COMPLETED or PRESENT, and otherwise leaves it RUNNING and is run again. */
  lemma ExportVerdict(w: World, e: Key, found: Discovery, digest: string -> string)
    requires w.writes.Reliable? && e in w.exports && !w.exports[e].deleting && found.Found?
    requires w.exports[e].progress !in {Completed, Progress.Failed}
    requires forall c | c in Requested(w.exports[e], found) :: !HasFailedAt(w, e, c, digest)
    ensures var o := ReconcileExport(w, e, found, digest);
      && Creates(w, o.w, e, w.exports[e], Requested(w.exports[e], found), digest)
      && o.w.exports == w.exports[e := w.exports[e].(
           finalizer := true, progress := if NothingLeft(o.w, e) then Completed else Running)]
      && o.result == if NothingLeft(o.w, e) then Done else Requeue
  {
    var list := Requested(w.exports[e], found);
    EarlyOutcomes(w, e, found, digest);
    hide ReconcileExport, CreateImages, Additional, NothingLeft;
    var v := StartLoop(Guarded(w, e, Running).(writes := Left(w.writes, CallsToLoop(w.exports[e]))), e, list);
    assert NoneFailed(v, e, list, digest);
    LoopVerdict(v, e, v.exports[e], list, digest);
    LoopCreates(v, e, v.exports[e], list, digest);
    assert v.exports[e].spec == w.exports[e].spec;
    hide *;
    SameRequest(w, v, CreateImages(v, e, v.exports[e], list, digest).w, e, list, digest);
    FromLoop(w, v, CreateImages(v, e, v.exports[e], list, digest), e);
  }

  lemma FromLoop(w: World, v: World, o: Outcome, e: Key)
    requires e in w.exports && v.exports == Guarded(w, e, Running).exports
    requires if NothingLeft(o.w, e) then
        o.result == Done && o.w.exports == v.exports[e := v.exports[e].(progress := Completed)]
      else o.result == Requeue && o.w.exports == v.exports
    ensures o.w.exports == w.exports[e := w.exports[e].(
      finalizer := true, progress := if NothingLeft(o.w, e) then Completed else Running)]
    ensures o.result == if NothingLeft(o.w, e) then Done else Requeue
  {
    hide NothingLeft;
  }

  lemma SameRequest(w: World, v: World, t: World, e: Key, list: seq<Container>, digest: string -> string)
    requires e in w.exports && e in v.exports && v.images == w.images && v.exports[e].spec == w.exports[e].spec
    requires Creates(v, t, e, v.exports[e], list, digest)
    ensures Creates(w, t, e, w.exports[e], list, digest)
  {
    hide KeysOf, Winner;
  }

  /** What the objects are that a reconcile creates, field by field, and where. */
  lemma CreatedImages(w: World, e: Key, found: Discovery, digest: string -> string)
    requires w.writes.Reliable? && e in w.exports && !w.exports[e].deleting && found.Found?
    requires w.exports[e].progress !in {Completed, Progress.Failed}
    requires forall c | c in Requested(w.exports[e], found) :: !HasFailedAt(w, e, c, digest)
    ensures var t := ReconcileExport(w, e, found, digest).w;
      forall k | k in t.images && k !in w.images :: exists c ::
        && c in Requested(w.exports[e], found) && k == Key(e.ns, digest(e.name + c.image + c.tag + c.sha))
        && t.images[k] == Image(c, e.name, w.exports[e].spec.basePath, Unset, 0)
  {
    var t, list := ReconcileExport(w, e, found, digest).w, Requested(w.exports[e], found);
    ExportVerdict(w, e, found, digest);
    hide ReconcileExport, Requested, NothingLeft, HasFailedAt;
    forall k | k in t.images && k !in w.images
      ensures exists c ::
        && c in list && k == Key(e.ns, digest(e.name + c.image + c.tag + c.sha))
        && t.images[k] == Image(c, e.name, w.exports[e].spec.basePath, Unset, 0)
    {
      assert k in KeysOf(digest, e, list);
      var c := Winner(digest, e, list, k);
      assert c in list && ImageKey(digest, e, c) == k;
    }
  }
}
