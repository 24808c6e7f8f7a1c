/** Discovery end to end: from the goroutines that read the cluster to the keys of the image
    objects an export creates. */
module Discovery {
  import opened ContainerNames
  import opened ImageFilters
  import opened Cluster
  import opened Controllers
  import opened ExportMoves
  import opened ExportTracking
  import opened ImageObjects
  import PC = ParallelCollection

  /** One listing after the other (deployments, jobs, daemon sets, cron jobs), each under its own
      schedule, each ending in a nil return, each appending to the list it is given. */
  ghost predicate Gathers(
      phases: seq<seq<PC.Item>>, schedules: seq<seq<PC.Action>>, before: seq<Container>, after: seq<Container>)
    decreases |phases|
  {
    && |phases| == |schedules|
    && (if phases == [] then after == before
        else
          var s := PC.Run(phases[0], PC.Start(phases[0], before), schedules[0]);
          s.receiver.ReturnedNil? && Gathers(phases[1..], schedules[1..], s.list, after))
  }

  function AllContributions(phases: seq<seq<PC.Item>>): multiset<Container> {
    if phases == [] then multiset{} else PC.Contributions(phases[0]) + AllContributions(phases[1..])
  }

  lemma {:induction false} GatheredEverything(
      phases: seq<seq<PC.Item>>, schedules: seq<seq<PC.Action>>, before: seq<Container>, after: seq<Container>)
    requires Gathers(phases, schedules, before, after)
    ensures multiset(after) == multiset(before) + AllContributions(phases)
    decreases |phases|
  {
    if phases != [] {
      PC.CollectionIsComplete(phases[0], before, schedules[0]);
      var s := PC.Run(phases[0], PC.Start(phases[0], before), schedules[0]);
      GatheredEverything(phases[1..], schedules[1..], s.list, after);
    }
  }

  /** Selecting sees only which containers there are. */
  lemma SelectedSameMembers(a: seq<Container>, b: seq<Container>, sel: Selection, fold: char -> char)
    requires multiset(a) == multiset(b)
    ensures forall c :: c in Selected(a, sel, fold) <==> c in Selected(b, sel, fold)
  {
    SelectedOnce(a, sel, fold);
    SelectedOnce(b, sel, fold);
    SameMembers(a, b);
    hide Selected;
  }

  /** The image objects after a reliable reconcile of an unfinished export. */
  lemma ReconcileCreates(w: World, e: Key, found: Controllers.Discovery, digest: string -> string)
    requires w.writes.Reliable? && found.Found? && e in w.exports && !w.exports[e].deleting
    requires !w.exports[e].progress.Completed? && !w.exports[e].progress.Failed?
    requires NoneFailed(w, e, Requested(w.exports[e], found), digest)
    ensures Creates(w, ReconcileExport(w, e, found, digest).w, e, w.exports[e], Requested(w.exports[e], found), digest)
  {
    var v := ReconcileExportShape(w, e, found, digest);
    hide CreateImages, ReconcileExport;
    LoopCreates(v, e, w.exports[e].(finalizer := true, progress := Running), Requested(w.exports[e], found), digest);
    hide KeysOf;
  }

  lemma RequestedSameMembers(
      phases: seq<seq<PC.Item>>, schedules: seq<seq<PC.Action>>, schedules': seq<seq<PC.Action>>,
      list: seq<Container>, list': seq<Container>, sel: Selection, fold: char -> char, x: Export)
    requires Gathers(phases, schedules, [], list) && Gathers(phases, schedules', [], list')
    ensures forall c ::
      c in Requested(x, Found(Selected(list, sel, fold))) <==> c in Requested(x, Found(Selected(list', sel, fold)))
  {
    GatheredEverything(phases, schedules, [], list);
    GatheredEverything(phases, schedules', [], list');
    SelectedSameMembers(list, list', sel, fold);
    hide Selected, Additional, Gathers;
  }

  /** Whatever the interleavings of the workers, the same cluster contents lead an export to the
      same set of image objects, unless one of the requested ones has FAILED. */
  lemma ScheduleIndependence(
      phases: seq<seq<PC.Item>>, schedules: seq<seq<PC.Action>>, schedules': seq<seq<PC.Action>>,
      list: seq<Container>, list': seq<Container>, sel: Selection, fold: char -> char,
      w: World, e: Key, digest: string -> string)
    requires Gathers(phases, schedules, [], list) && Gathers(phases, schedules', [], list')
    requires w.writes.Reliable? && e in w.exports && !w.exports[e].deleting
    requires !w.exports[e].progress.Completed? && !w.exports[e].progress.Failed?
    requires NoneFailed(w, e, Requested(w.exports[e], Found(Selected(list, sel, fold))), digest)
    ensures ReconcileExport(w, e, Found(Selected(list, sel, fold)), digest).w.images.Keys
         == ReconcileExport(w, e, Found(Selected(list', sel, fold)), digest).w.images.Keys
  {
    var a := Requested(w.exports[e], Found(Selected(list, sel, fold)));
    var b := Requested(w.exports[e], Found(Selected(list', sel, fold)));
    RequestedSameMembers(phases, schedules, schedules', list, list', sel, fold, w.exports[e]);
    hide Selected, Gathers, ReconcileExport, Requested;
    assert KeysOf(digest, e, a) == KeysOf(digest, e, b);
    ReconcileCreates(w, e, Found(Selected(list, sel, fold)), digest);
    ReconcileCreates(w, e, Found(Selected(list', sel, fold)), digest);
    hide KeysOf;
  }

  /** And if no two requested images with one missing key differ, to the very same objects. */
  lemma SchedulesLeaveSameImages(
      phases: seq<seq<PC.Item>>, schedules: seq<seq<PC.Action>>, schedules': seq<seq<PC.Action>>,
      list: seq<Container>, list': seq<Container>, sel: Selection, fold: char -> char,
      w: World, e: Key, digest: string -> string)
    requires Gathers(phases, schedules, [], list) && Gathers(phases, schedules', [], list')
    requires w.writes.Reliable? && e in w.exports && !w.exports[e].deleting
    requires !w.exports[e].progress.Completed? && !w.exports[e].progress.Failed?
    requires NoneFailed(w, e, Requested(w.exports[e], Found(Selected(list, sel, fold))), digest)
    requires RivalFree(w, e, Requested(w.exports[e], Found(Selected(list, sel, fold))), digest)
    ensures ReconcileExport(w, e, Found(Selected(list, sel, fold)), digest).w.images
         == ReconcileExport(w, e, Found(Selected(list', sel, fold)), digest).w.images
  {
    var found, found' := Found(Selected(list, sel, fold)), Found(Selected(list', sel, fold));
    RequestedSameMembers(phases, schedules, schedules', list, list', sel, fold, w.exports[e]);
    hide Selected, Gathers;
    var v := ReconcileExportShape(w, e, found, digest);
    var v' := ReconcileExportShape(w, e, found', digest);
    var x := w.exports[e].(finalizer := true, progress := Running);
    var a, b := Requested(w.exports[e], found), Requested(w.exports[e], found');
    hide ReconcileExport, CreateImages, Requested;
    SameObjects(v, e, x, a, b, digest);
    StartDoesNotMatter(v, v', e, x, b, digest);
  }

  lemma StartDoesNotMatter(v: World, v': World, e: Key, x: Export, list: seq<Container>, digest: string -> string)
    requires v.images == v'.images && v.writes.Reliable? && v'.writes.Reliable? && NoneFailed(v, e, list, digest)
    ensures CreateImages(v, e, x, list, digest).w.images == CreateImages(v', e, x, list, digest).w.images
  {
    LoopCreates(v, e, x, list, digest);
    LoopCreates(v', e, x, list, digest);
    hide CreateImages, KeysOf;
  }

  // ----- otherwise the workers decide

  const EVERYTHING := Selection([], [], [], [])

  lemma SelectTwo(c: Container, d: Container, fold: char -> char)
    requires c != d
    ensures Selected([c, d], EVERYTHING, fold) == [c, d]
  {
    FilterAll([c, d], c => Wanted(c, EVERYTHING, fold));
    assert [c, d][..1] == [c] && [c][..0] == [];
    assert FirstOccurrences([c]) == [c];
  }

  /** What a workload with one container contributes. */
  function OnlyContainer(item: PC.Item): Container
    requires |item.images| == 1 && Parse(item.images[0]).Ok?
  {
    Parse(item.images[0]).value.(imageNamespace := item.namespace)
  }

  lemma FirstFoundWins(w: World, e: Key, c: Container, d: Container, digest: string -> string)
    requires w.writes.Reliable? && e in w.exports && !w.exports[e].deleting
    requires !w.exports[e].progress.Completed? && !w.exports[e].progress.Failed?
    requires NoneFailed(w, e, Requested(w.exports[e], Found([c, d])), digest)
    requires ImageKey(digest, e, c) !in w.images
    ensures var t := ReconcileExport(w, e, Found([c, d]), digest).w;
      var k := ImageKey(digest, e, c); k in t.images && t.images[k].container == c
  {
    ReconcileCreates(w, e, Found([c, d]), digest);
    var list := Requested(w.exports[e], Found([c, d]));
    assert list[0] == c && list[0] in list;
    assert ImageKey(digest, e, c) in KeysOf(digest, e, list);
    hide ReconcileExport, Requested, KeysOf;
  }

  lemma BothOrders(w: World, e: Key, c: Container, d: Container, digest: string -> string)
    requires w.writes.Reliable? && e in w.exports && !w.exports[e].deleting
    requires !w.exports[e].progress.Completed? && !w.exports[e].progress.Failed?
    requires NoneFailed(w, e, Requested(w.exports[e], Found([c, d])), digest)
    requires c != d && ImageKey(digest, e, c) == ImageKey(digest, e, d) && ImageKey(digest, e, c) !in w.images
    ensures ReconcileExport(w, e, Found([c, d]), digest).w.images
        != ReconcileExport(w, e, Found([d, c]), digest).w.images
  {
    hide ReconcileExport, Additional, ImageKey;
    FirstFoundWins(w, e, c, d, digest);
    assert forall i :: i in Requested(w.exports[e], Found([d, c])) ==> i in Requested(w.exports[e], Found([c, d]));
    FirstFoundWins(w, e, d, c, digest);
  }

  /** Two workloads with different containers that share a missing key: which of them the object is
      made of depends on which worker is faster. */
  lemma {:induction false} WorkersDecideImage(
      a: PC.Item, b: PC.Item, w: World, e: Key, fold: char -> char, digest: string -> string)
      returns (schedule: seq<PC.Action>, schedule': seq<PC.Action>, list: seq<Container>, list': seq<Container>)
    requires |a.images| == 1 && Parse(a.images[0]).Ok? && |b.images| == 1 && Parse(b.images[0]).Ok?
    requires OnlyContainer(a) != OnlyContainer(b)
    requires ImageKey(digest, e, OnlyContainer(a)) == ImageKey(digest, e, OnlyContainer(b))
    requires ImageKey(digest, e, OnlyContainer(a)) !in w.images
    requires w.writes.Reliable? && e in w.exports && !w.exports[e].deleting
    requires !w.exports[e].progress.Completed? && !w.exports[e].progress.Failed?
    requires NoneFailed(w, e, Requested(w.exports[e], Found([OnlyContainer(a), OnlyContainer(b)])), digest)
    ensures Gathers([[a, b]], [schedule], [], list) && Gathers([[a, b]], [schedule'], [], list')
    ensures ReconcileExport(w, e, Found(Selected(list, EVERYTHING, fold)), digest).w.images
         != ReconcileExport(w, e, Found(Selected(list', EVERYTHING, fold)), digest).w.images
  {
    var c, d := OnlyContainer(a), OnlyContainer(b);
    list, list' := [c, d], [d, c];
    schedule, schedule' := PC.InOrder(0, 1), PC.InOrder(1, 0);
    hide *;
    FirstIsFaster(a, b);
    SecondIsFaster(a, b);
    SelectTwo(c, d, fold);
    SelectTwo(d, c, fold);
    BothOrders(w, e, c, d, digest);
  }

  lemma {:induction false} FirstIsFaster(a: PC.Item, b: PC.Item)
    requires |a.images| == 1 && Parse(a.images[0]).Ok? && |b.images| == 1 && Parse(b.images[0]).Ok?
    ensures Gathers([[a, b]], [PC.InOrder(0, 1)], [], [OnlyContainer(a), OnlyContainer(b)])
  {
    PC.OrderOfTwo([a, b], 0);
    hide PC.InOrder, PC.Run, PC.Start, Gathers, Parse;
    OnePhase([a, b], PC.InOrder(0, 1), [OnlyContainer(a), OnlyContainer(b)]);
  }

  lemma {:induction false} SecondIsFaster(a: PC.Item, b: PC.Item)
    requires |a.images| == 1 && Parse(a.images[0]).Ok? && |b.images| == 1 && Parse(b.images[0]).Ok?
    ensures Gathers([[a, b]], [PC.InOrder(1, 0)], [], [OnlyContainer(b), OnlyContainer(a)])
  {
    PC.OrderOfTwo([a, b], 1);
    hide PC.InOrder, PC.Run, PC.Start, Gathers, Parse;
    OnePhase([a, b], PC.InOrder(1, 0), [OnlyContainer(b), OnlyContainer(a)]);
  }

  lemma OnePhase(items: seq<PC.Item>, schedule: seq<PC.Action>, list: seq<Container>)
    requires var s := PC.Run(items, PC.Start(items, []), schedule); s.receiver.ReturnedNil? && s.list == list
    ensures Gathers([items], [schedule], [], list)
  {
    assert [items][1..] == [] && [schedule][1..] == [];
    assert Gathers([], [], list, list);
  }

  /** Such workloads: a bare image and its `:latest` form share their key but not their full name,
      and an image in two namespaces its key but not its namespace. */
  lemma OrderDecidesFullName(image: string, ns: string, ns': string, e: Key, digest: string -> string)
    requires image != "" && ':' !in image && '@' !in image
    ensures Parse(image).Ok? && Parse(image + ":latest").Ok?
    ensures var c, d := OnlyContainer(PC.Item([image], ns)), OnlyContainer(PC.Item([image + ":latest"], ns));
      c.fullName != d.fullName && ImageKey(digest, e, c) == ImageKey(digest, e, d)
    ensures var c, d := OnlyContainer(PC.Item([image], ns)), OnlyContainer(PC.Item([image], ns'));
      (c != d <==> ns != ns') && ImageKey(digest, e, c) == ImageKey(digest, e, d)
  {
    ParseReference(image, "", "");
    ParseReference(image, ":latest", "");
    assert image + "" + "" == image && image + ":latest" + "" == image + ":latest";
    assert ":latest"[1..] == "latest";
    hide Parse;
  }
}
