/** `ListAndProcessResources` of internal/shared/k8s.go as a transition system: one goroutine per
    item, a semaphore of ten, a WaitGroup, a mutex around the shared list, a one-slot error
    channel that a closer closes, and the receiver that ends the call. */
module ParallelCollection {
  import opened ContainerNames
  import opened Sequences

  const LIMIT := 10

  /** A listed resource: the images of its pod in visiting order, and its namespace. */
  datatype Item = Item(images: seq<string>, namespace: string)

  datatype Worker =
    | Unborn
    | Queued                                           // before `semaphore <-`
    | Working(done: nat, local: seq<Container>)        // inside processContainers
    | Failing                                          // about to offer its error
    | Merging(local: seq<Container>)                   // about to take the mutex
    | Releasing(failed: bool)                          // deferred `<-semaphore`
    | Leaving(failed: bool)                            // deferred `wg.Done()`
    | Exited(failed: bool)

  datatype Receiver = Waiting | ReturnedNil | ReturnedError

  datatype System = System(
    workers: seq<Worker>,
    spawned: nat,            // how far the `go processItem` loop has come
    wg: int,
    held: nat,               // occupied semaphore slots
    full: bool,              // an error sits in the channel
    closed: bool,
    panicked: bool,          // somebody sent on the closed channel
    list: seq<Container>,
    cancelled: bool,         // ctx.Done()
    receiver: Receiver)

  datatype Action =
    | Spawn
    | Acquire(i: nat)
    | Process(i: nat)
    | Offer(i: nat)
    | Merge(i: nat)
    | Release(i: nat)
    | Leave(i: nat)
    | Close
    | Receive
    | Cancel
    | Notice

  function Start(items: seq<Item>, oldList: seq<Container>): System {
    System(seq(|items|, _ => Unborn), 0, 0, 0, false, false, false, oldList, false, Waiting)
  }

  predicate Enabled(items: seq<Item>, s: System, a: Action)
    requires |s.workers| == |items|
  {
    match a
    case Spawn => s.spawned < |items|
    case Acquire(i) => i < |items| && s.workers[i].Queued? && s.held < LIMIT
    case Process(i) => i < |items| && s.workers[i].Working?
    case Offer(i) => i < |items| && s.workers[i].Failing?
    case Merge(i) => i < |items| && s.workers[i].Merging?
    case Release(i) => i < |items| && s.workers[i].Releasing? && s.held > 0
    case Leave(i) => i < |items| && s.workers[i].Leaving?
    case Close => s.spawned == |items| && s.wg == 0 && !s.closed
    case Receive => s.spawned == |items| && s.receiver.Waiting? && (s.full || s.closed)
    case Cancel => !s.cancelled
    case Notice => s.spawned == |items| && s.receiver.Waiting? && s.cancelled
  }

  /** One container, or the end of the loop: `processContainer` looks at the context first. */
  function Advance(item: Item, cancelled: bool, done: nat, local: seq<Container>): Worker {
    if done >= |item.images| then Merging(local)
    else if cancelled then Failing
    else
      match Parse(item.images[done])
      case Err(_) => Failing
      case Ok(c) => Working(done + 1, local + [c.(imageNamespace := item.namespace)])
  }

  function Fire(items: seq<Item>, s: System, a: Action): System
    requires |s.workers| == |items| && Enabled(items, s, a)
    requires s.spawned <= |items|
  {
    match a
    case Spawn => s.(workers := s.workers[s.spawned := Queued], spawned := s.spawned + 1, wg := s.wg + 1)
    case Acquire(i) => s.(workers := s.workers[i := Working(0, [])], held := s.held + 1)
    case Process(i) =>
      s.(workers := s.workers[i := Advance(items[i], s.cancelled, s.workers[i].done, s.workers[i].local)])
    case Offer(i) =>
      // the select with a default: sending on a closed channel panics, on a full one does nothing
      s.(workers := s.workers[i := Releasing(true)], panicked := s.panicked || s.closed, full := s.full || !s.closed)
    case Merge(i) => s.(workers := s.workers[i := Releasing(false)], list := s.list + s.workers[i].local)
    case Release(i) => s.(workers := s.workers[i := Leaving(s.workers[i].failed)], held := s.held - 1)
    case Leave(i) => s.(workers := s.workers[i := Exited(s.workers[i].failed)], wg := s.wg - 1)
    case Close => s.(closed := true)
    case Receive => if s.full then s.(full := false, receiver := ReturnedError) else s.(receiver := ReturnedNil)
    case Cancel => s.(cancelled := true)
    case Notice => s.(receiver := ReturnedError)
  }

  // ----- counting over the workers

  function Count(ws: seq<Worker>, p: Worker -> bool): nat {
    if ws == [] then 0 else (if p(ws[0]) then 1 else 0) + Count(ws[1..], p)
  }

  lemma {:induction false} CountUpdate(ws: seq<Worker>, i: nat, w: Worker, p: Worker -> bool)
    requires i < |ws|
    ensures Count(ws[i := w], p) == Count(ws, p) - (if p(ws[i]) then 1 else 0) + (if p(w) then 1 else 0)
  {
    if i > 0 {
      assert ws[i := w][1..] == ws[1..][i - 1 := w];
      CountUpdate(ws[1..], i - 1, w, p);
    }
  }

  lemma {:induction false} CountZero(ws: seq<Worker>, p: Worker -> bool)
    ensures Count(ws, p) == 0 <==> forall i | 0 <= i < |ws| :: !p(ws[i])
  {
    if ws != [] {
      CountZero(ws[1..], p);
      assert forall i | 0 < i < |ws| :: ws[i] == ws[1..][i-1];
    }
  }

  predicate Holding(w: Worker) {
    w.Working? || w.Failing? || w.Merging? || w.Releasing?
  }

  predicate Alive(w: Worker) {
    !w.Unborn? && !w.Exited?
  }

  predicate Ended(w: Worker, failed: bool) {
    (w.Releasing? || w.Leaving? || w.Exited?) && w.failed == failed
  }

  ghost predicate AnyFailed(ws: seq<Worker>) {
    exists i :: 0 <= i < |ws| && Ended(ws[i], true)
  }

  /** What the worker has put on the shared list. */
  function Share(item: Item, w: Worker): multiset<Container> {
    if Ended(w, false) then Contribution(item) else multiset{}
  }

  function Contribution(item: Item): multiset<Container> {
    var r := Collect(item.images, item.namespace);
    if r.Ok? then multiset(r.value) else multiset{}
  }

  function Shares(items: seq<Item>, ws: seq<Worker>): multiset<Container>
    requires |items| == |ws|
  {
    if ws == [] then multiset{} else Share(items[0], ws[0]) + Shares(items[1..], ws[1..])
  }

  function Contributions(items: seq<Item>): multiset<Container> {
    if items == [] then multiset{} else Contribution(items[0]) + Contributions(items[1..])
  }

  lemma {:induction false} SharesUpdate(items: seq<Item>, ws: seq<Worker>, i: nat, w: Worker)
    requires i < |ws| == |items| && Share(items[i], ws[i]) == multiset{}
    ensures Shares(items, ws[i := w]) == Shares(items, ws) + Share(items[i], w)
  {
    if i > 0 {
      assert ws[i := w][1..] == ws[1..][i - 1 := w];
      SharesUpdate(items[1..], ws[1..], i - 1, w);
    }
  }

  lemma {:induction false} SharesSame(items: seq<Item>, ws: seq<Worker>, i: nat, w: Worker)
    requires i < |ws| == |items| && Share(items[i], ws[i]) == Share(items[i], w)
    ensures Shares(items, ws[i := w]) == Shares(items, ws)
  {
    if i > 0 {
      assert ws[i := w][1..] == ws[1..][i - 1 := w];
      SharesSame(items[1..], ws[1..], i - 1, w);
    }
  }

  lemma {:induction false} SharesComplete(items: seq<Item>, ws: seq<Worker>)
    requires |items| == |ws| && forall i | 0 <= i < |ws| :: ws[i] == Exited(false)
    ensures Shares(items, ws) == Contributions(items)
  {
    if ws != [] {
      SharesComplete(items[1..], ws[1..]);
    }
  }

  lemma {:induction false} SharesOfUnborn(items: seq<Item>, ws: seq<Worker>)
    requires |items| == |ws| && forall i | 0 <= i < |ws| :: ws[i].Unborn?
    ensures Shares(items, ws) == multiset{}
  {
    if ws != [] {
      SharesOfUnborn(items[1..], ws[1..]);
    }
  }

  // ----- the invariant

  ghost predicate WorkerInv(item: Item, w: Worker, cancelled: bool) {
    var whole := Collect(item.images, item.namespace);
    match w
    case Working(done, local) => done <= |item.images| && Collect(item.images[..done], item.namespace) == Ok(local)
    case Failing => cancelled || whole.Err?
    case Merging(local) => whole == Ok(local)
    case Releasing(failed) => if failed then cancelled || whole.Err? else whole.Ok?
    case Leaving(failed) => if failed then cancelled || whole.Err? else whole.Ok?
    case Exited(failed) => if failed then cancelled || whole.Err? else whole.Ok?
    case _ => true
  }

  /** The counters and the list follow from the workers. */
  ghost predicate Totals(items: seq<Item>, oldList: seq<Container>, s: System) {
    && |s.workers| == |items|
    && s.wg == Count(s.workers, Alive)
    && s.held == Count(s.workers, Holding) && s.held <= LIMIT
    && multiset(s.list) == multiset(oldList) + Shares(items, s.workers)
  }

  ghost predicate WorkersInv(items: seq<Item>, s: System) {
    && |s.workers| == |items| && s.spawned <= |items|
    && (forall i | 0 <= i < |items| :: s.workers[i].Unborn? <==> i >= s.spawned)
    && (forall i | 0 <= i < |items| :: WorkerInv(items[i], s.workers[i], s.cancelled))
  }

  /** An error is on its way to the receiver exactly when some worker has failed. */
  ghost predicate ChannelInv(items: seq<Item>, s: System) {
    && !s.panicked
    && (s.closed ==> s.spawned == |items| && s.wg == 0)
    && (s.full || s.receiver.ReturnedError? ==> s.cancelled || AnyFailed(s.workers))
    && (AnyFailed(s.workers) ==> s.full || s.receiver.ReturnedError?)
    && (s.receiver.ReturnedNil? ==> s.closed && !s.full)
  }

  ghost predicate Inv(items: seq<Item>, oldList: seq<Container>, s: System) {
    Totals(items, oldList, s) && WorkersInv(items, s) && ChannelInv(items, s)
  }

  lemma StartInv(items: seq<Item>, oldList: seq<Container>)
    ensures Inv(items, oldList, Start(items, oldList))
  {
    var s := Start(items, oldList);
    CountZero(s.workers, Alive);
    CountZero(s.workers, Holding);
    SharesOfUnborn(items, s.workers);
  }

  lemma AdvanceInv(item: Item, cancelled: bool, w: Worker)
    requires w.Working? && WorkerInv(item, w, cancelled)
    ensures WorkerInv(item, Advance(item, cancelled, w.done, w.local), cancelled)
  {
    if w.done == |item.images| {
      assert item.images[..w.done] == item.images;
    } else {
      assert item.images[..w.done+1][..w.done] == item.images[..w.done];
      if Parse(item.images[w.done]).Err? {
        CollectStops(item.images, w.done + 1, item.namespace);
      }
    }
  }

  predicate SameBut(s: System, t: System, i: nat)
    requires i < |s.workers|
  {
    && |t.workers| == |s.workers| && t.workers == s.workers[i := t.workers[i]]
    && t.closed == s.closed
    && t.cancelled == s.cancelled && t.receiver == s.receiver
  }

  function Flag(b: bool): int {
    if b then 1 else 0
  }

  /** Worker `i` moves, the counters follow, and the list grows by the worker's new share. */
  lemma MoveTotals(items: seq<Item>, oldList: seq<Container>, s: System, t: System, i: nat)
    requires Totals(items, oldList, s) && i < |items| && SameBut(s, t, i)
    requires t.wg - s.wg == Flag(Alive(t.workers[i])) - Flag(Alive(s.workers[i]))
    requires t.held - s.held == Flag(Holding(t.workers[i])) - Flag(Holding(s.workers[i])) && t.held <= LIMIT
    requires || (t.list == s.list && Share(items[i], s.workers[i]) == Share(items[i], t.workers[i]))
             || (Share(items[i], s.workers[i]) == multiset{}
                 && multiset(t.list) == multiset(s.list) + Share(items[i], t.workers[i]))
    ensures Totals(items, oldList, t)
  {
    var w := t.workers[i];
    CountUpdate(s.workers, i, w, Alive);
    CountUpdate(s.workers, i, w, Holding);
    if Share(items[i], s.workers[i]) == Share(items[i], w) && t.list == s.list {
      SharesSame(items, s.workers, i, w);
    } else {
      SharesUpdate(items, s.workers, i, w);
    }
  }

  lemma MoveWorker(items: seq<Item>, s: System, t: System, i: nat)
    requires WorkersInv(items, s) && i < |items| && SameBut(s, t, i)
    requires t.spawned == if s.workers[i].Unborn? then s.spawned + 1 else s.spawned
    requires s.workers[i].Unborn? ==> i == s.spawned
    requires !t.workers[i].Unborn? && WorkerInv(items[i], t.workers[i], s.cancelled)
    ensures WorkersInv(items, t)
  {
    forall j | 0 <= j < |items|
      ensures WorkerInv(items[j], t.workers[j], t.cancelled)
    {
      if j != i {
        assert t.workers[j] == s.workers[j];
      }
    }
  }

  lemma MoveChannel(items: seq<Item>, s: System, t: System, i: nat)
    requires WorkersInv(items, s) && ChannelInv(items, s) && i < |items| && SameBut(s, t, i) && !s.closed && !t.panicked
    requires Ended(s.workers[i], true) ==> Ended(t.workers[i], true)
    requires t.full == (s.full || (Ended(t.workers[i], true) && !Ended(s.workers[i], true)))
    ensures ChannelInv(items, t)
  {
    assert AnyFailed(t.workers) <==> AnyFailed(s.workers) || Ended(t.workers[i], true) by {
      if AnyFailed(s.workers) {
        var j :| 0 <= j < |s.workers| && Ended(s.workers[j], true);
        assert Ended(t.workers[j], true);
      }
      if AnyFailed(t.workers) {
        var j :| 0 <= j < |t.workers| && Ended(t.workers[j], true);
        assert j != i ==> Ended(s.workers[j], true);
      }
    }
  }

  /** A closed channel means nobody is left to send on it. */
  lemma ClosedMeansExited(items: seq<Item>, oldList: seq<Container>, s: System)
    requires Inv(items, oldList, s) && s.closed
    ensures forall i | 0 <= i < |items| :: s.workers[i].Exited?
  {
    CountZero(s.workers, Alive);
  }

  lemma NotYetClosed(items: seq<Item>, oldList: seq<Container>, s: System, i: nat)
    requires Inv(items, oldList, s) && i < |items| && !s.workers[i].Exited?
    ensures !s.closed
  {
    if s.closed {
      ClosedMeansExited(items, oldList, s);
    }
  }

  /** The worker that an action moves. */
  function Mover(s: System, a: Action): Option<nat> {
    match a
    case Spawn => Some(s.spawned)
    case Acquire(i) => Some(i)
    case Process(i) => Some(i)
    case Offer(i) => Some(i)
    case Merge(i) => Some(i)
    case Release(i) => Some(i)
    case Leave(i) => Some(i)
    case _ => None
  }

  /** The mutex-protected append: the worker's own list is its item's contribution. */
  lemma MergeTotals(items: seq<Item>, oldList: seq<Container>, s: System, i: nat)
    requires Inv(items, oldList, s) && Enabled(items, s, Merge(i))
    ensures Totals(items, oldList, Fire(items, s, Merge(i)))
  {
    var t := Fire(items, s, Merge(i));
    var local := s.workers[i].local;
    assert WorkerInv(items[i], s.workers[i], s.cancelled);
    assert Contribution(items[i]) == multiset(local);
    assert multiset(s.list + local) == multiset(s.list) + multiset(local);
    MoveTotals(items, oldList, s, t, i);
  }

  /** A worker that moves without touching the list has the same share before and after. */
  lemma ShareKept(items: seq<Item>, s: System, a: Action)
    requires |s.workers| == |items| && Enabled(items, s, a) && s.spawned <= |items| && !a.Merge?
    requires s.spawned < |items| ==> s.workers[s.spawned].Unborn?
    ensures var m := Mover(s, a); m.Some? ==>
      var t := Fire(items, s, a);
      && m.value < |items| && SameBut(s, t, m.value) && t.list == s.list
      && Ended(s.workers[m.value], false) == Ended(t.workers[m.value], false)
      && t.wg - s.wg == Flag(Alive(t.workers[m.value])) - Flag(Alive(s.workers[m.value]))
      && t.held - s.held == Flag(Holding(t.workers[m.value])) - Flag(Holding(s.workers[m.value]))
      && (s.held <= LIMIT ==> t.held <= LIMIT)
  {
    hide Parse;
  }

  lemma OtherTotals(items: seq<Item>, oldList: seq<Container>, s: System, a: Action)
    requires Totals(items, oldList, s) && Enabled(items, s, a) && s.spawned <= |items| && !a.Merge?
    requires s.spawned < |items| ==> s.workers[s.spawned].Unborn?
    ensures Totals(items, oldList, Fire(items, s, a))
  {
    ShareKept(items, s, a);
    var m := Mover(s, a);
    if m.Some? {
      var t := Fire(items, s, a);
      assert Share(items[m.value], s.workers[m.value]) == Share(items[m.value], t.workers[m.value]);
      MoveTotals(items, oldList, s, t, m.value);
    }
  }

  lemma StepWorkers(items: seq<Item>, oldList: seq<Container>, s: System, a: Action)
    requires Inv(items, oldList, s) && Enabled(items, s, a)
    ensures WorkersInv(items, Fire(items, s, a))
  {
    if Mover(s, a).Some? {
      var i := Mover(s, a).value;
      assert WorkerInv(items[i], s.workers[i], s.cancelled);
      if a.Process? {
        AdvanceInv(items[i], s.cancelled, s.workers[i]);
      } else if a.Acquire? {
        assert items[i].images[..0] == [];
      }
      MoveWorker(items, s, Fire(items, s, a), i);
    } else if a.Cancel? {
      assert forall i | 0 <= i < |items| ::
          WorkerInv(items[i], s.workers[i], s.cancelled)
          ==> WorkerInv(items[i], s.workers[i], true);
    }
  }

  lemma StepChannel(items: seq<Item>, oldList: seq<Container>, s: System, a: Action)
    requires Inv(items, oldList, s) && Enabled(items, s, a)
    ensures ChannelInv(items, Fire(items, s, a))
  {
    if Mover(s, a).Some? {
      var i := Mover(s, a).value;
      if a.Spawn? && s.closed {
        assert false;
      }
      NotYetClosed(items, oldList, s, i);
      MoveChannel(items, s, Fire(items, s, a), i);
    }
  }

  lemma StepInv(items: seq<Item>, oldList: seq<Container>, s: System, a: Action)
    requires Inv(items, oldList, s) && Enabled(items, s, a)
    ensures Inv(items, oldList, Fire(items, s, a))
  {
    if a.Merge? {
      MergeTotals(items, oldList, s, a.i);
    } else {
      OtherTotals(items, oldList, s, a);
    }
    StepWorkers(items, oldList, s, a);
    StepChannel(items, oldList, s, a);
  }

  // ----- whole runs

  function Run(items: seq<Item>, s: System, actions: seq<Action>): (t: System)
    requires |s.workers| == |items| && s.spawned <= |items|
    ensures |t.workers| == |items| && t.spawned <= |items|
    decreases |actions|
  {
    if actions == [] then s
    else if Enabled(items, s, actions[0]) then Run(items, Fire(items, s, actions[0]), actions[1..])
    else Run(items, s, actions[1..])
  }

  lemma {:induction false} RunInv(items: seq<Item>, oldList: seq<Container>, s: System, actions: seq<Action>)
    requires Inv(items, oldList, s)
    ensures Inv(items, oldList, Run(items, s, actions))
    decreases |actions|
  {
    if actions != [] {
      if Enabled(items, s, actions[0]) {
        StepInv(items, oldList, s, actions[0]);
        RunInv(items, oldList, Fire(items, s, actions[0]), actions[1..]);
      } else {
        RunInv(items, oldList, s, actions[1..]);
      }
    }
  }

  /** Over every interleaving: nobody sends on the closed channel, at most ten workers hold the
      semaphore, and a nil return means that every worker finished without error and the list
      has grown by exactly every item's containers. */
  lemma CollectionIsComplete(items: seq<Item>, oldList: seq<Container>, actions: seq<Action>)
    ensures var s := Run(items, Start(items, oldList), actions);
      && !s.panicked
      && Count(s.workers, Holding) <= 10
      && (s.receiver.ReturnedNil? ==>
            && |s.workers| == |items|
            && (forall i | 0 <= i < |items| ::
                && s.workers[i] == Exited(false)
                && Collect(items[i].images, items[i].namespace).Ok?)
            && multiset(s.list) == multiset(oldList) + Contributions(items))
  {
    StartInv(items, oldList);
    RunInv(items, oldList, Start(items, oldList), actions);
    var s := Run(items, Start(items, oldList), actions);
    if s.receiver.ReturnedNil? {
      ClosedMeansExited(items, oldList, s);
      forall i | 0 <= i < |items|
        ensures s.workers[i] == Exited(false)
      {
        assert !Ended(s.workers[i], true);
      }
      SharesComplete(items, s.workers);
    }
  }

  /** A queued worker may go on if and only if fewer than ten others hold the semaphore. */
  lemma SemaphoreAdmitsIff(items: seq<Item>, oldList: seq<Container>, actions: seq<Action>, i: nat)
    requires i < |items|
    ensures var s := Run(items, Start(items, oldList), actions);
      Enabled(items, s, Acquire(i)) <==> s.workers[i].Queued? && Count(s.workers, Holding) < 10
  {
    StartInv(items, oldList);
    RunInv(items, oldList, Start(items, oldList), actions);
    hide Run, Count, Start;
  }

  /** Without cancellation an error return means that some item has a name that does not parse. */
  lemma ErrorsAreReal(items: seq<Item>, oldList: seq<Container>, actions: seq<Action>)
    ensures var s := Run(items, Start(items, oldList), actions);
      s.receiver.ReturnedError? && !s.cancelled ==>
        exists i :: 0 <= i < |items| && Collect(items[i].images, items[i].namespace).Err?
  {
    StartInv(items, oldList);
    RunInv(items, oldList, Start(items, oldList), actions);
    var s := Run(items, Start(items, oldList), actions);
    if s.receiver.ReturnedError? && !s.cancelled {
      var i :| 0 <= i < |items| && Ended(s.workers[i], true);
      assert WorkerInv(items[i], s.workers[i], false);
    }
  }

  /** The call cannot hang: while the receiver waits, somebody other than the context can move. */
  lemma NeverStuck(items: seq<Item>, oldList: seq<Container>, s: System)
    requires Inv(items, oldList, s) && s.receiver.Waiting?
    ensures exists a :: a != Cancel && a != Notice && Enabled(items, s, a)
  {
    if s.spawned < |items| {
      assert Enabled(items, s, Spawn);
    } else if s.closed {
      assert Enabled(items, s, Receive);
    } else if s.wg == 0 {
      assert Enabled(items, s, Close);
    } else {
      CountZero(s.workers, Alive);
      CountZero(s.workers, Holding);
      if s.held > 0 {
        var i :| 0 <= i < |items| && Holding(s.workers[i]);
        AliveCanMove(items, s, i);
      } else {
        var i :| 0 <= i < |items| && Alive(s.workers[i]);
        AliveCanMove(items, s, i);
      }
    }
  }

  lemma AliveCanMove(items: seq<Item>, s: System, i: nat)
    requires |s.workers| == |items| && i < |items|
    requires if s.held > 0 then Holding(s.workers[i]) else Alive(s.workers[i]) && !Holding(s.workers[i])
    ensures exists a :: a != Cancel && a != Notice && Enabled(items, s, a)
  {
    var a := match s.workers[i]
      case Working(_, _) => Process(i)
      case Failing => Offer(i)
      case Merging(_) => Merge(i)
      case Releasing(_) => Release(i)
      case Leaving(_) => Leave(i)
      case _ => Acquire(i);
    assert Enabled(items, s, a);
  }

  // ----- every call ends

  /** The actions a worker has still before it. */
  function StepsLeft(item: Item, w: Worker): nat {
    var n := |item.images|;
    match w
    case Unborn => n + 6
    case Queued => n + 5
    case Working(done, _) => if done <= n then n - done + 4 else 4
    case Failing => 3
    case Merging(_) => 3
    case Releasing(_) => 2
    case Leaving(_) => 1
    case Exited(_) => 0
  }

  function AllStepsLeft(items: seq<Item>, ws: seq<Worker>): nat
    requires |items| == |ws|
  {
    if ws == [] then 0 else StepsLeft(items[0], ws[0]) + AllStepsLeft(items[1..], ws[1..])
  }

  lemma {:induction false} StepsLeftUpdate(items: seq<Item>, ws: seq<Worker>, i: nat, w: Worker)
    requires i < |ws| == |items|
    ensures AllStepsLeft(items, ws[i := w])
        == AllStepsLeft(items, ws) - StepsLeft(items[i], ws[i]) + StepsLeft(items[i], w)
  {
    if i > 0 {
      assert ws[i := w][1..] == ws[1..][i - 1 := w];
      StepsLeftUpdate(items[1..], ws[1..], i - 1, w);
    }
  }

  /** Closing, returning and cancelling happen once each. */
  function Measure(items: seq<Item>, s: System): nat
    requires |s.workers| == |items|
  {
    AllStepsLeft(items, s.workers)
      + (if s.closed then 0 else 1) + (if s.receiver.Waiting? then 1 else 0) + (if s.cancelled then 0 else 1)
  }

  lemma {:induction false} FiringLowers(items: seq<Item>, oldList: seq<Container>, s: System, a: Action)
    requires Inv(items, oldList, s) && Enabled(items, s, a)
    ensures Measure(items, Fire(items, s, a)) < Measure(items, s)
  {
    assert s.spawned < |items| ==> s.workers[s.spawned].Unborn?;
    hide Inv;
    var m := Mover(s, a);
    if m.Some? {
      MoverLowers(items, s, a);
      var t := Fire(items, s, a);
      hide Fire, Enabled, Mover, StepsLeft, AllStepsLeft;
      StepsLeftUpdate(items, s.workers, m.value, t.workers[m.value]);
    } else {
      OnceLowers(items, s, a);
      hide *;
    }
  }

  lemma OnceLowers(items: seq<Item>, s: System, a: Action)
    requires |s.workers| == |items| && s.spawned <= |items| && Enabled(items, s, a) && Mover(s, a).None?
    ensures Measure(items, Fire(items, s, a)) < Measure(items, s)
  {
    hide AllStepsLeft;
  }

  lemma MoverLowers(items: seq<Item>, s: System, a: Action)
    requires |s.workers| == |items| && Enabled(items, s, a) && s.spawned <= |items| && Mover(s, a).Some?
    requires s.spawned < |items| ==> s.workers[s.spawned].Unborn?
    ensures var i, t := Mover(s, a).value, Fire(items, s, a);
      && i < |items| && SameBut(s, t, i)
      && StepsLeft(items[i], t.workers[i]) < StepsLeft(items[i], s.workers[i])
  {
    hide Parse;
  }

  /** How many of the actions find themselves enabled. */
  function Fired(items: seq<Item>, s: System, actions: seq<Action>): nat
    requires |s.workers| == |items| && s.spawned <= |items|
    decreases |actions|
  {
    if actions == [] then 0
    else if Enabled(items, s, actions[0]) then 1 + Fired(items, Fire(items, s, actions[0]), actions[1..])
    else Fired(items, s, actions[1..])
  }

  lemma {:induction false} FiredBound(items: seq<Item>, oldList: seq<Container>, s: System, actions: seq<Action>)
    requires Inv(items, oldList, s)
    ensures Fired(items, s, actions) + Measure(items, Run(items, s, actions)) <= Measure(items, s)
    decreases |actions|
  {
    if actions != [] {
      if Enabled(items, s, actions[0]) {
        FiringLowers(items, oldList, s, actions[0]);
        StepInv(items, oldList, s, actions[0]);
        hide Inv, Measure, Enabled, Fire;
        FiredBound(items, oldList, Fire(items, s, actions[0]), actions[1..]);
      } else {
        hide Inv, Measure, Enabled, Fire;
        FiredBound(items, oldList, s, actions[1..]);
      }
    }
  }

  function Images(items: seq<Item>): nat {
    if items == [] then 0 else |items[0].images| + Images(items[1..])
  }

  lemma {:induction false} StartLeft(items: seq<Item>, ws: seq<Worker>)
    requires |ws| == |items| && forall i | 0 <= i < |ws| :: ws[i].Unborn?
    ensures AllStepsLeft(items, ws) == Images(items) + 6 * |items|
  {
    if ws != [] {
      StartLeft(items[1..], ws[1..]);
    }
  }

  /** Every interleaving ends: at most one action per container, six per item and three more ever
      happen; and when none but the context could act any more, the call has returned. */
  lemma {:induction false} EveryCallEnds(items: seq<Item>, oldList: seq<Container>, actions: seq<Action>)
    ensures Fired(items, Start(items, oldList), actions) <= Images(items) + 6 * |items| + 3
    ensures var s := Run(items, Start(items, oldList), actions);
      |s.workers| == |items| && ((forall a | Enabled(items, s, a) :: a == Cancel || a == Notice)
          ==> !s.receiver.Waiting?)
  {
    var s := Start(items, oldList);
    StartInv(items, oldList);
    StartLeft(items, s.workers);
    RunInv(items, oldList, s, actions);
    FiredBound(items, oldList, s, actions);
    var t := Run(items, s, actions);
    if t.receiver.Waiting? {
      NeverStuck(items, oldList, t);
    }
    hide Run, Fired, AllStepsLeft;
  }

  // ----- schedules

  lemma {:induction false} RunAppend(items: seq<Item>, s: System, a: seq<Action>, b: seq<Action>)
    requires |s.workers| == |items| && s.spawned <= |items|
    ensures Run(items, s, a + b) == Run(items, Run(items, s, a), b)
    decreases |a|
  {
    if a == [] {
      EmptySum(b);
    } else {
      TailOfSum(a, b);
      if Enabled(items, s, a[0]) {
        RunAppend(items, Fire(items, s, a[0]), a[1..], b);
      } else {
        RunAppend(items, s, a[1..], b);
      }
      hide Enabled, Fire;
    }
  }

  lemma {:induction false} RunOne(items: seq<Item>, s: System, a: Action)
    requires |s.workers| == |items| && s.spawned <= |items| && Enabled(items, s, a)
    ensures Run(items, s, [a]) == Fire(items, s, a)
  {
    assert [a][1..] == [];
  }

  lemma {:induction false} RunTwo(items: seq<Item>, s: System, a: Action, b: Action)
    requires |s.workers| == |items| && s.spawned <= |items| && Enabled(items, s, a)
    requires Enabled(items, Fire(items, s, a), b)
    ensures Run(items, s, [a, b]) == Fire(items, Fire(items, s, a), b)
  {
    RunAppend(items, s, [a], [b]);
    RunOne(items, s, a);
    RunOne(items, Fire(items, s, a), b);
    assert [a] + [b] == [a, b];
    hide Run, Enabled, Fire;
  }

  /** Worker `i` runs from the semaphore to its end, with nobody in between. */
  function Alone(i: nat): seq<Action> {
    [Acquire(i), Process(i)] + [Process(i), Merge(i)] + [Release(i), Leave(i)]
  }

  lemma {:induction false} AloneBegins(items: seq<Item>, s: System, i: nat, c: Container)
    requires |s.workers| == |items| && s.spawned <= |items| && i < |items|
    requires s.workers[i].Queued? && s.held < LIMIT && !s.cancelled
    requires |items[i].images| == 1 && Parse(items[i].images[0]).Ok?
    requires c == Parse(items[i].images[0]).value.(imageNamespace := items[i].namespace)
    ensures Run(items, s, [Acquire(i), Process(i)])
         == s.(workers := s.workers[i := Working(1, [c])], held := s.held + 1)
  {
    var t := Fire(items, s, Acquire(i));
    assert t.workers[i] == Working(0, []);
    EmptySum([c]);
    assert Advance(items[i], false, 0, []) == Working(1, [c]) by { hide Parse; }
    hide Parse, Run;
    assert t.workers[i := Working(1, [c])] == s.workers[i := Working(1, [c])];
    RunTwo(items, s, Acquire(i), Process(i));
  }

  lemma {:induction false} AloneMerges(items: seq<Item>, s: System, i: nat, c: Container)
    requires |s.workers| == |items| && s.spawned <= |items| && i < |items|
    requires s.workers[i] == Working(1, [c]) && |items[i].images| == 1
    ensures Run(items, s, [Process(i), Merge(i)])
         == s.(workers := s.workers[i := Releasing(false)], list := s.list + [c])
  {
    var t := Fire(items, s, Process(i));
    assert t.workers[i] == Merging([c]);
    assert t.workers[i := Releasing(false)] == s.workers[i := Releasing(false)];
    hide Parse, Run;
    RunTwo(items, s, Process(i), Merge(i));
  }

  lemma {:induction false} AloneLeaves(items: seq<Item>, s: System, i: nat)
    requires |s.workers| == |items| && s.spawned <= |items| && i < |items|
    requires s.workers[i] == Releasing(false) && s.held > 0
    ensures Run(items, s, [Release(i), Leave(i)])
         == s.(workers := s.workers[i := Exited(false)], held := s.held - 1, wg := s.wg - 1)
  {
    var t := Fire(items, s, Release(i));
    assert t.workers[i] == Leaving(false);
    assert t.workers[i := Exited(false)] == s.workers[i := Exited(false)];
    hide Parse, Run;
    RunTwo(items, s, Release(i), Leave(i));
  }

  /** A worker with one container that parses, running alone, appends just that container. */
  lemma {:induction false} RunAlone(items: seq<Item>, s: System, i: nat)
    requires |s.workers| == |items| && s.spawned <= |items| && i < |items|
    requires s.workers[i].Queued? && s.held < LIMIT && !s.cancelled
    requires |items[i].images| == 1 && Parse(items[i].images[0]).Ok?
    ensures var c := Parse(items[i].images[0]).value.(imageNamespace := items[i].namespace);
      Run(items, s, Alone(i)) == s.(workers := s.workers[i := Exited(false)], wg := s.wg - 1, list := s.list + [c])
  {
    hide Run, Enabled, Fire, Parse;
    var c := Parse(items[i].images[0]).value.(imageNamespace := items[i].namespace);
    AloneBegins(items, s, i, c);
    var s1 := s.(workers := s.workers[i := Working(1, [c])], held := s.held + 1);
    AloneMerges(items, s1, i, c);
    assert s1.workers[i := Releasing(false)] == s.workers[i := Releasing(false)];
    var s2 := s.(workers := s.workers[i := Releasing(false)], held := s.held + 1, list := s.list + [c]);
    AloneLeaves(items, s2, i);
    assert s2.workers[i := Exited(false)] == s.workers[i := Exited(false)];
    RunAppend(items, s, [Acquire(i), Process(i)], [Process(i), Merge(i)]);
    RunAppend(items, s, [Acquire(i), Process(i)] + [Process(i), Merge(i)], [Release(i), Leave(i)]);
  }

  /** Two workers, one after the other, in either order. */
  function InOrder(first: nat, second: nat): seq<Action> {
    [Spawn, Spawn] + Alone(first) + Alone(second) + [Close, Receive]
  }

  lemma {:induction false} OrderOfTwo(items: seq<Item>, first: nat)
    requires |items| == 2 && first < 2
    requires forall i | 0 <= i < 2 :: |items[i].images| == 1 && Parse(items[i].images[0]).Ok?
    ensures var s := Run(items, Start(items, []), InOrder(first, 1 - first));
      var c := Parse(items[first].images[0]).value.(imageNamespace := items[first].namespace);
      var d := Parse(items[1 - first].images[0]).value.(imageNamespace := items[1 - first].namespace);
      s.receiver.ReturnedNil? && s.list == [c, d]
  {
    var second := 1 - first;
    var s0 := Start(items, []);
    BothSpawn(items);
    var s1 := Run(items, s0, [Spawn, Spawn]);
    hide Run, Start;
    RunAlone(items, s1, first);
    var s2 := Run(items, s1, Alone(first));
    RunAlone(items, s2, second);
    var s3 := Run(items, s2, Alone(second));
    assert s3.wg == 0 && s3.spawned == 2 && !s3.closed && !s3.full && s3.receiver.Waiting?;
    BothDone(items, s3);
    hide Parse, Alone;
    RunAppend(items, s0, [Spawn, Spawn], Alone(first));
    RunAppend(items, s0, [Spawn, Spawn] + Alone(first), Alone(second));
    RunAppend(items, s0, [Spawn, Spawn] + Alone(first) + Alone(second), [Close, Receive]);
  }

  lemma {:induction false} BothSpawn(items: seq<Item>)
    requires |items| == 2
    ensures var s := Run(items, Start(items, []), [Spawn, Spawn]);
      && s == Start(items, []).(workers := [Queued, Queued], spawned := 2, wg := 2)
      && s.held == 0 && !s.cancelled && !s.closed && !s.full && s.receiver.Waiting? && s.list == []
  {
    var s0 := Start(items, []);
    assert s0.workers == [Unborn, Unborn];
    var s1 := Fire(items, s0, Spawn);
    assert s1.workers == [Queued, Unborn];
    assert Fire(items, s1, Spawn).workers == [Queued, Queued];
    hide Run;
    RunTwo(items, s0, Spawn, Spawn);
  }

  lemma {:induction false} BothDone(items: seq<Item>, s: System)
    requires |s.workers| == |items| == s.spawned && s.wg == 0 && !s.closed && !s.full && s.receiver.Waiting?
    ensures Run(items, s, [Close, Receive]) == s.(closed := true, receiver := ReturnedNil)
  {
    hide Run;
    RunTwo(items, s, Close, Receive);
  }
}
