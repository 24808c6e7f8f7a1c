/** Which image objects an export's create loop leaves behind: the keys say less than the images
    do, so of several requested images with one key only the first gets an object. */
module ImageObjects {
  import opened ContainerNames
  import opened Cluster
  import opened Controllers
  import opened ExportMoves
  import opened ExportTracking

  // ----- what the loop creates

  function KeysOf(digest: string -> string, e: Key, list: seq<Container>): set<Key> {
    set c | c in list :: ImageKey(digest, e, c)
  }

  predicate NoneFailed(w: World, e: Key, list: seq<Container>, digest: string -> string) {
    forall c | c in list && ImageKey(digest, e, c) in w.images :: !w.images[ImageKey(digest, e, c)].progress.Failed?
  }

  /** The first requested image with the key. */
  function Winner(digest: string -> string, e: Key, list: seq<Container>, k: Key): (c: Container)
    requires k in KeysOf(digest, e, list)
    ensures c in list && ImageKey(digest, e, c) == k
  {
    if ImageKey(digest, e, list[0]) == k then list[0]
    else
      assert list == [list[0]] + list[1..];
      assert exists c :: c in list[1..] && ImageKey(digest, e, c) == k;
      Winner(digest, e, list[1..], k)
  }

  lemma KeysOfCons(digest: string -> string, e: Key, list: seq<Container>)
    requires list != []
    ensures KeysOf(digest, e, list) == {ImageKey(digest, e, list[0])} + KeysOf(digest, e, list[1..])
  {
    assert list == [list[0]] + list[1..];
    assert forall c :: c in list <==> c == list[0] || c in list[1..];
  }

  /** The images after the loop: the old ones, and at every missing key the first requested one. */
  ghost predicate Creates(w: World, t: World, e: Key, x: Export, list: seq<Container>, digest: string -> string) {
    && t.images.Keys == w.images.Keys + KeysOf(digest, e, list)
    && (forall k | k in w.images :: t.images[k] == w.images[k])
    && (forall k | k in KeysOf(digest, e, list) && k !in w.images ::
        t.images[k] == NewImage(e, x, Winner(digest, e, list, k)))
  }

  lemma CreatesOverExisting(w: World, t: World, e: Key, x: Export, list: seq<Container>, digest: string -> string)
    requires list != [] && ImageKey(digest, e, list[0]) in w.images && Creates(w, t, e, x, list[1..], digest)
    ensures Creates(w, t, e, x, list, digest)
  {
    KeysOfCons(digest, e, list);
    hide KeysOf;
    forall k | k in KeysOf(digest, e, list) && k !in w.images
      ensures t.images[k] == NewImage(e, x, Winner(digest, e, list, k))
    {
      assert Winner(digest, e, list, k) == Winner(digest, e, list[1..], k);
    }
  }

  lemma CreatesOverFresh(
      w: World, w1: World, t: World, e: Key, x: Export, list: seq<Container>, digest: string -> string)
    requires list != [] && ImageKey(digest, e, list[0]) !in w.images
    requires w1.images == w.images[ImageKey(digest, e, list[0]) := NewImage(e, x, list[0])]
    requires Creates(w1, t, e, x, list[1..], digest)
    ensures Creates(w, t, e, x, list, digest)
  {
    hide ImageKey;
    KeysOfCons(digest, e, list);
    hide KeysOf;
    var own := ImageKey(digest, e, list[0]);
    assert own in w1.images && t.images[own] == w1.images[own];
    forall k | k in KeysOf(digest, e, list) && k !in w.images
      ensures t.images[k] == NewImage(e, x, Winner(digest, e, list, k))
    {
      if k != own {
        assert k !in w1.images;
        assert Winner(digest, e, list, k) == Winner(digest, e, list[1..], k);
      }
    }
    assert t.images.Keys == w.images.Keys + KeysOf(digest, e, list);
  }

  /** The requested keys that are not taken. */
  function Missing(w: World, e: Key, list: seq<Container>, digest: string -> string): set<Key> {
    KeysOf(digest, e, list) - w.images.Keys
  }

  /** The calls that are left pay for one object at every missing key. */
  predicate Affordable(w: World, e: Key, list: seq<Container>, digest: string -> string) {
    w.writes.Reliable? || |Missing(w, e, list, digest)| <= w.writes.left
  }

  lemma MissingOverExisting(w: World, e: Key, list: seq<Container>, digest: string -> string)
    requires list != [] && ImageKey(digest, e, list[0]) in w.images
    ensures Missing(w, e, list[1..], digest) == Missing(w, e, list, digest)
  {
    KeysOfCons(digest, e, list);
    hide KeysOf;
  }

  /** Creating an object pays for one missing key. */
  lemma MissingOverFresh(w: World, w1: World, e: Key, list: seq<Container>, digest: string -> string)
    requires list != [] && ImageKey(digest, e, list[0]) !in w.images
    requires w1.images.Keys == w.images.Keys + {ImageKey(digest, e, list[0])}
    ensures |Missing(w, e, list, digest)| == |Missing(w1, e, list[1..], digest)| + 1
  {
    hide ImageKey;
    KeysOfCons(digest, e, list);
    hide KeysOf;
    OneFewer(w.images.Keys, KeysOf(digest, e, list[1..]), ImageKey(digest, e, list[0]));
  }

  lemma OneFewer(taken: set<Key>, keys: set<Key>, k: Key)
    requires k !in taken
    ensures |({k} + keys) - taken| == |keys - (taken + {k})| + 1
  {
    assert ({k} + keys) - taken == (keys - (taken + {k})) + {k};
  }

  /** The first step of the loop, over a key that is taken and over one that is not. */
  lemma StepOverExisting(w: World, e: Key, x: Export, list: seq<Container>, digest: string -> string)
    requires list != [] && ImageKey(digest, e, list[0]) in w.images && NoneFailed(w, e, list, digest)
    ensures CreateImages(w, e, x, list, digest) == CreateImages(w, e, x, list[1..], digest)
    ensures NoneFailed(w, e, list[1..], digest)
  {
    assert list[0] in list && forall c | c in list[1..] :: c in list;
    hide CheckCompletion;
  }

  /** The world after the first object has been created. */
  function WithFirst(w: World, e: Key, x: Export, list: seq<Container>, digest: string -> string): World
    requires list != []
  {
    CreateImage(w, ImageKey(digest, e, list[0]), NewImage(e, x, list[0])).w
  }

  lemma StepOverFresh(w: World, e: Key, x: Export, list: seq<Container>, digest: string -> string)
    requires list != [] && ImageKey(digest, e, list[0]) !in w.images && w.CanWrite()
    ensures var w1 := WithFirst(w, e, x, list, digest);
      && CreateImages(w, e, x, list, digest) == CreateImages(w1, e, x, list[1..], digest)
      && w1.images == w.images[ImageKey(digest, e, list[0]) := NewImage(e, x, list[0])]
      && w1.writes == w.Spent().writes
  {
    hide CheckCompletion;
  }

  lemma FreshKeepsNoneFailed(w: World, w1: World, e: Key, x: Export, list: seq<Container>, digest: string -> string)
    requires list != [] && NoneFailed(w, e, list, digest)
    requires w1.images == w.images[ImageKey(digest, e, list[0]) := NewImage(e, x, list[0])]
    ensures NoneFailed(w1, e, list[1..], digest)
  {
    assert forall c | c in list[1..] :: c in list;
  }

  lemma FreshKeepsAffordable(w: World, w1: World, e: Key, list: seq<Container>, digest: string -> string)
    requires list != [] && ImageKey(digest, e, list[0]) !in w.images && w.CanWrite()
    requires w1.images.Keys == w.images.Keys + {ImageKey(digest, e, list[0])} && w1.writes == w.Spent().writes
    ensures Affordable(w, e, list, digest) <==> Affordable(w1, e, list[1..], digest)
  {
    MissingOverFresh(w, w1, e, list, digest);
    hide Missing;
  }

  /** When the calls that are left pay for it, the loop creates the first requested image at every
      missing key. */
  lemma {:induction false} LoopCreates(w: World, e: Key, x: Export, list: seq<Container>, digest: string -> string)
    requires NoneFailed(w, e, list, digest) && Affordable(w, e, list, digest)
    ensures Creates(w, CreateImages(w, e, x, list, digest).w, e, x, list, digest)
    decreases |list|
  {
    hide *;
    if list == [] {
      NothingRequested(w, e, x, digest);
    } else if ImageKey(digest, e, list[0]) in w.images {
      AffordableOverExisting(w, e, list, digest);
      StepOverExisting(w, e, x, list, digest);
      LoopCreates(w, e, x, list[1..], digest);
      CreatesOverExisting(w, CreateImages(w, e, x, list[1..], digest).w, e, x, list, digest);
    } else {
      SomethingMissing(w, e, list, digest);
      var w1 := WithFirst(w, e, x, list, digest);
      StepOverFresh(w, e, x, list, digest);
      FreshKeepsNoneFailed(w, w1, e, x, list, digest);
      FreshKeepsAffordable(w, w1, e, list, digest);
      LoopCreates(w1, e, x, list[1..], digest);
      CreatesOverFresh(w, w1, CreateImages(w1, e, x, list[1..], digest).w, e, x, list, digest);
    }
  }

  lemma NothingRequested(w: World, e: Key, x: Export, digest: string -> string)
    ensures Creates(w, CreateImages(w, e, x, [], digest).w, e, x, [], digest)
  {
    hide AllCompleted;
    assert CreateImages(w, e, x, [], digest).w.images == w.images;
    hide CreateImages;
  }

  lemma AffordableOverExisting(w: World, e: Key, list: seq<Container>, digest: string -> string)
    requires list != [] && ImageKey(digest, e, list[0]) in w.images
    ensures Affordable(w, e, list, digest) <==> Affordable(w, e, list[1..], digest)
  {
    MissingOverExisting(w, e, list, digest);
    hide Missing;
  }

  lemma SomethingMissing(w: World, e: Key, list: seq<Container>, digest: string -> string)
    requires list != [] && ImageKey(digest, e, list[0]) !in w.images
    ensures Affordable(w, e, list, digest) ==> w.CanWrite()
  {
    KeysOfCons(digest, e, list);
    hide KeysOf;
    assert ImageKey(digest, e, list[0]) in Missing(w, e, list, digest);
    assert |Missing(w, e, list, digest)| > 0;
  }

  lemma NothingMissing(w: World, e: Key, digest: string -> string)
    ensures Affordable(w, e, [], digest)
  {
    assert Missing(w, e, [], digest) == {};
  }

  /** When they do not, some requested image is left without an object. */
  lemma {:induction false} LoopFallsShort(w: World, e: Key, x: Export, list: seq<Container>, digest: string -> string)
    requires NoneFailed(w, e, list, digest) && !Affordable(w, e, list, digest)
    ensures exists c :: c in list && ImageKey(digest, e, c) !in CreateImages(w, e, x, list, digest).w.images
    decreases |list|
  {
    hide *;
    NothingMissing(w, e, digest);
    if list != [] {
      FirstAndRest(list);
      if ImageKey(digest, e, list[0]) in w.images {
        AffordableOverExisting(w, e, list, digest);
        StepOverExisting(w, e, x, list, digest);
        LoopFallsShort(w, e, x, list[1..], digest);
      } else if w.CanWrite() {
        var w1 := WithFirst(w, e, x, list, digest);
        StepOverFresh(w, e, x, list, digest);
        FreshKeepsNoneFailed(w, w1, e, x, list, digest);
        FreshKeepsAffordable(w, w1, e, list, digest);
        LoopFallsShort(w1, e, x, list[1..], digest);
      } else {
        NoCallLeft(w, e, x, list, digest);
      }
    }
  }

  lemma FirstAndRest(list: seq<Container>)
    requires list != []
    ensures list[0] in list && forall c | c in list[1..] :: c in list
  {
  }

  lemma NoCallLeft(w: World, e: Key, x: Export, list: seq<Container>, digest: string -> string)
    requires list != [] && ImageKey(digest, e, list[0]) !in w.images && !w.CanWrite()
    ensures ImageKey(digest, e, list[0]) !in CreateImages(w, e, x, list, digest).w.images
  {
    hide CheckCompletion;
  }

  // ----- does the order matter?

  /** Requested images with one missing key are the same image, name and namespace included. */
  predicate RivalFree(w: World, e: Key, list: seq<Container>, digest: string -> string) {
    forall c, d | c in list && d in list && ImageKey(digest, e, c) == ImageKey(digest, e, d)
      && ImageKey(digest, e, c) !in w.images :: c == d
  }

  /** Without rivals only the members of the list matter. */
  lemma SameObjects(w: World, e: Key, x: Export, list: seq<Container>, list': seq<Container>, digest: string -> string)
    requires w.writes.Reliable? && NoneFailed(w, e, list, digest) && RivalFree(w, e, list, digest)
    requires forall c :: c in list <==> c in list'
    ensures CreateImages(w, e, x, list, digest).w.images == CreateImages(w, e, x, list', digest).w.images
  {
    hide ImageKey;
    LoopCreates(w, e, x, list, digest);
    LoopCreates(w, e, x, list', digest);
    var t, t' := CreateImages(w, e, x, list, digest).w, CreateImages(w, e, x, list', digest).w;
    hide CreateImages;
    assert KeysOf(digest, e, list) == KeysOf(digest, e, list');
    hide KeysOf;
    forall k | k in t.images
      ensures t.images[k] == t'.images[k]
    {
      if k !in w.images {
        assert Winner(digest, e, list, k) == Winner(digest, e, list', k);
      }
    }
    hide Winner;
  }

  /** The list with the element at `i` moved to the front. */
  function ToFront(list: seq<Container>, i: nat): seq<Container>
    requires i < |list|
  {
    [list[i]] + (list[..i] + list[i+1..])
  }

  lemma ToFrontPermutes(list: seq<Container>, i: nat)
    requires i < |list|
    ensures multiset(ToFront(list, i)) == multiset(list)
  {
    assert list == list[..i] + ([list[i]] + list[i+1..]);
  }

  lemma FrontWins(w: World, e: Key, x: Export, list: seq<Container>, i: nat, digest: string -> string)
    requires w.writes.Reliable? && NoneFailed(w, e, list, digest) && i < |list|
    requires ImageKey(digest, e, list[i]) !in w.images
    ensures var t := CreateImages(w, e, x, ToFront(list, i), digest).w;
      var k := ImageKey(digest, e, list[i]);
      k in t.images && t.images[k].container == list[i]
  {
    var front := ToFront(list, i);
    ToFrontPermutes(list, i);
    SameMembers(front, list);
    LoopCreates(w, e, x, front, digest);
    assert front[0] == list[i] && front[0] in front;
    hide CreateImages;
  }

  lemma SameMembers(a: seq<Container>, b: seq<Container>)
    requires multiset(a) == multiset(b)
    ensures forall c :: c in a <==> c in b
  {
    forall c
      ensures c in a <==> c in b
    {
      assert c in a <==> c in multiset(a);
      assert c in b <==> c in multiset(b);
    }
  }

  /** The order of a request decides nothing if and only if it has no rivals. */
  lemma OrderIrrelevantIff(w: World, e: Key, x: Export, list: seq<Container>, digest: string -> string)
    requires w.writes.Reliable? && NoneFailed(w, e, list, digest)
    ensures (forall list' | multiset(list') == multiset(list) ::
              CreateImages(w, e, x, list', digest).w.images == CreateImages(w, e, x, list, digest).w.images)
        <==> RivalFree(w, e, list, digest)
  {
    if RivalFree(w, e, list, digest) {
      forall list' | multiset(list') == multiset(list)
        ensures CreateImages(w, e, x, list', digest).w.images == CreateImages(w, e, x, list, digest).w.images
      {
        SameMembers(list', list);
        SameObjects(w, e, x, list, list', digest);
      }
    } else {
      var c, d :| c in list && d in list && ImageKey(digest, e, c) == ImageKey(digest, e, d)
        && ImageKey(digest, e, c) !in w.images && c != d;
      var i :| 0 <= i < |list| && list[i] == c;
      var j :| 0 <= j < |list| && list[j] == d;
      hide CreateImages, ToFront, RivalFree;
      FrontWins(w, e, x, list, i, digest);
      FrontWins(w, e, x, list, j, digest);
      ToFrontPermutes(list, i);
      ToFrontPermutes(list, j);
    }
  }

  // ----- does every image get its object?

  /** Every requested image has an object of its own image, tag and sha after the loop exactly when that
      is so of the keys taken before, no two different requested images share a missing key, and the
      calls that are left pay for an object at every missing key. */
  lemma EachGetsItsOwnIff(w: World, e: Key, x: Export, list: seq<Container>, digest: string -> string)
    requires NoneFailed(w, e, list, digest)
    ensures var t := CreateImages(w, e, x, list, digest).w;
      (forall c | c in list :: HasOwnObject(t, e, c, digest))
      <==>
      && (forall c | c in list && ImageKey(digest, e, c) in w.images :: HasOwnObject(w, e, c, digest))
      && (forall c, d | c in list && d in list && ImageKey(digest, e, c) == ImageKey(digest, e, d)
            && ImageKey(digest, e, c) !in w.images :: SameImage(c, d))
      && Affordable(w, e, list, digest)
  {
    if Affordable(w, e, list, digest) {
      EachGetsItsOwn(w, e, x, list, digest);
      hide CreateImages, HasOwnObject, SameImage, Affordable;
    } else {
      LoopFallsShort(w, e, x, list, digest);
      var t := CreateImages(w, e, x, list, digest).w;
      hide CreateImages;
      var c :| c in list && ImageKey(digest, e, c) !in t.images;
      assert !HasOwnObject(t, e, c, digest);
      hide HasOwnObject;
    }
  }

  lemma EachGetsItsOwn(w: World, e: Key, x: Export, list: seq<Container>, digest: string -> string)
    requires NoneFailed(w, e, list, digest) && Affordable(w, e, list, digest)
    ensures var t := CreateImages(w, e, x, list, digest).w;
      (forall c | c in list :: HasOwnObject(t, e, c, digest))
      <==>
      && (forall c | c in list && ImageKey(digest, e, c) in w.images :: HasOwnObject(w, e, c, digest))
      && (forall c, d | c in list && d in list && ImageKey(digest, e, c) == ImageKey(digest, e, d)
            && ImageKey(digest, e, c) !in w.images :: SameImage(c, d))
  {
    var t := CreateImages(w, e, x, list, digest).w;
    LoopCreates(w, e, x, list, digest);
    hide CreateImages;
    forall c | c in list
      ensures var k := ImageKey(digest, e, c);
        && k in t.images
        && (k in w.images ==> t.images[k] == w.images[k])
        && (k !in w.images ==> k in KeysOf(digest, e, list) && t.images[k].container == Winner(digest, e, list, k))
    {
      assert ImageKey(digest, e, c) in KeysOf(digest, e, list);
    }
    hide KeysOf;
    if forall c | c in list :: HasOwnObject(t, e, c, digest) {
      forall c | c in list && ImageKey(digest, e, c) in w.images
        ensures HasOwnObject(w, e, c, digest)
      {
        assert HasOwnObject(t, e, c, digest);
      }
      forall c, d | c in list && d in list && ImageKey(digest, e, c) == ImageKey(digest, e, d)
        ensures SameImage(c, d)
      {
        assert HasOwnObject(t, e, c, digest) && HasOwnObject(t, e, d, digest);
      }
    }
  }

  /** The object at the image's key is of that very image. */
  predicate HasOwnObject(w: World, e: Key, c: Container, digest: string -> string) {
    var k := ImageKey(digest, e, c);
    k in w.images && SameImage(w.images[k].container, c)
  }

  // ----- images that collide under every digest

  /** Image and tag are digested without a separator: the image `a` with a tag that starts with `b`
      collides with the image `ab`, whatever the digest and the export. */
  lemma MovedBorderCollides(a: string, b: string, tag: string, e: Key, digest: string -> string)
    requires a != "" && b != "" && tag != ""
    requires ':' !in a + b && '@' !in a + b + tag
    ensures Parse(a + b + ":" + tag).Ok? && Parse(a + ":" + (b + tag)).Ok?
    ensures var c, d := Parse(a + b + ":" + tag).value, Parse(a + ":" + (b + tag)).value;
      ImageKey(digest, e, c) == ImageKey(digest, e, d) && !SameImage(c, d)
  {
    ParseTagged(a + b, tag);
    ParseTagged(a, b + tag);
    var c, d := Parse(a + b + ":" + tag).value, Parse(a + ":" + (b + tag)).value;
    assert |c.image| != |d.image|;
    assert e.name + (a + b) + tag + "" == e.name + a + (b + tag) + "";
    hide Parse;
  }

  lemma ParseTagged(image: string, tag: string)
    requires image != "" && tag != "" && ':' !in image && '@' !in image + tag
    ensures Parse(image + ":" + tag) == Ok(Container(image, tag, "", image + ":" + tag, ""))
  {
    assert ':' in (":" + tag) && (":" + tag)[1..] == tag;
    assert forall c | c in image :: c in image + tag;
    assert forall c | c in tag :: c in image + tag;
    assert image + (":" + tag) + "" == image + ":" + tag;
    ParseReference(image, ":" + tag, "");
    hide Parse;
  }
}
