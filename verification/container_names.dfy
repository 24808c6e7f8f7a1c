/** Image references: `ProcessContainerName` and its cache, of internal/shared/k8s.go. */
module ContainerNames {
  import opened Sequences


  datatype Option<+T> = None | Some(value: T)

  datatype Result<+T> = Ok(value: T) | Err(error: NameError)

  datatype NameError = InvalidFormat | InvalidSha | ImageRequired | ContextDone

  datatype Container = Container(image: string, tag: string, sha: string, fullName: string, imageNamespace: string)

  // ----- the library calls

  /** `strings.Split(s, c)` for a one-character separator. */
  function Split(s: string, c: char): (parts: seq<string>)
    ensures parts != []
  {
    if s == "" then [""]
    else
      var rest := Split(s[1..], c);
      if s[0] == c then [""] + rest else [[s[0]] + rest[0]] + rest[1..]
  }

  /** `strings.SplitN(s, c, 2)`: the part before the first separator and the part after it. */
  function Cut(s: string, c: char): (parts: (string, Option<string>))
    ensures c !in parts.0
    ensures s == parts.0 + (if parts.1.Some? then [c] + parts.1.value else "")
  {
    if s == "" then ("", None)
    else if s[0] == c then
      assert s == [c] + s[1..];
      ("", Some(s[1..]))
    else
      var (before, after) := Cut(s[1..], c);
      assert s == [s[0]] + s[1..];
      ([s[0]] + before, after)
  }

  // ----- the parser

  predicate IsSha(sha: string) {
    var (algorithm, digest) := Cut(sha, ':');
    digest.Some? && (algorithm == "sha" || algorithm == "sha256")
  }

  /** What `ProcessContainerName` answers on a cache miss. */
  function Parse(name: string): Result<Container> {
    var parts := Split(name, '@');
    if |parts| > 2 then Err(InvalidFormat)
    else
      var (image, afterColon) := Cut(parts[0], ':');
      var tag := if afterColon.Some? then afterColon.value else "";
      if |parts| == 2 && !IsSha(parts[1]) then Err(InvalidSha)
      else
        var sha := if |parts| == 2 then parts[1] else "";
        if image == "" then Err(ImageRequired)
        else Ok(Container(image, if sha == "" && tag == "" then "latest" else tag, sha, name, ""))
  }

  /** A reference written from its parts. */
  function Print(c: Container): string {
    c.image + (if c.tag == "" then "" else ":" + c.tag) + (if c.sha == "" then "" else "@" + c.sha)
  }

  predicate WellFormed(c: Container) {
    && c.image != "" && ':' !in c.image && '@' !in c.image
    && '@' !in c.tag
    && '@' !in c.sha && (c.sha == "" || IsSha(c.sha))
    && (c.tag != "" || c.sha != "")
  }

  // ----- the grammar the parser accepts

  lemma {:induction false} SplitWithout(s: string, c: char)
    requires c !in s
    ensures Split(s, c) == [s]
  {
    if s != "" {
      SplitWithout(s[1..], c);
      assert s[0] in s;
      assert s == [s[0]] + s[1..];
    }
  }

  lemma {:induction false} SplitAt(a: string, c: char, b: string)
    requires c !in a
    ensures Split(a + [c] + b, c) == [a] + Split(b, c)
  {
    var s := a + [c] + b;
    if a == "" {
      assert s == [c] + b;
    } else {
      assert a[0] in a;
      assert s[1..] == a[1..] + [c] + b;
      SplitAt(a[1..], c, b);
      assert a == [a[0]] + a[1..];
    }
  }

  /** The inverse direction: one or two parts are the string cut at its only separator. */
  lemma {:induction false} SplitInverse(s: string, c: char)
    ensures |Split(s, c)| == 1 ==> c !in s && Split(s, c)[0] == s
    ensures |Split(s, c)| == 2 ==>
      var parts := Split(s, c); s == parts[0] + [c] + parts[1] && c !in parts[0] && c !in parts[1]
  {
    if s != "" {
      SplitInverse(s[1..], c);
      assert s == [s[0]] + s[1..];
      if s[0] == c && |Split(s, c)| == 2 {
        assert Split(s, c)[1] == s[1..];
      }
    }
  }

  lemma {:induction false} CutWithout(s: string, c: char)
    requires c !in s
    ensures Cut(s, c) == (s, None)
  {
    if s != "" {
      assert s[0] in s;
      assert s == [s[0]] + s[1..];
      CutWithout(s[1..], c);
    }
  }

  lemma {:induction false} CutAt(a: string, c: char, b: string)
    requires c !in a
    ensures Cut(a + [c] + b, c) == (a, Some(b))
  {
    var s := a + [c] + b;
    if a == "" {
      assert s == [c] + b;
    } else {
      assert a[0] in a;
      assert s[1..] == a[1..] + [c] + b;
      assert a == [a[0]] + a[1..];
      CutAt(a[1..], c, b);
    }
  }

  /** A reference: an image, then an optional tag part, then an optional digest part. */
  predicate IsReference(image: string, tagPart: string, shaPart: string) {
    && image != "" && ':' !in image && '@' !in image
    && (tagPart == "" || (tagPart[0] == ':' && '@' !in tagPart))
    && (shaPart == "" || (shaPart[0] == '@' && '@' !in shaPart[1..] && IsSha(shaPart[1..])))
  }

  function WithDefault(image: string, tagPart: string, shaPart: string, fullName: string): Container {
    var tag := if tagPart == "" then "" else tagPart[1..];
    var sha := if shaPart == "" then "" else shaPart[1..];
    Container(image, if sha == "" && tag == "" then "latest" else tag, sha, fullName, "")
  }

  lemma SplitReference(head: string, shaPart: string)
    requires '@' !in head && (shaPart == "" || (shaPart[0] == '@' && '@' !in shaPart[1..]))
    ensures Split(head + shaPart, '@') == if shaPart == "" then [head] else [head, shaPart[1..]]
  {
    hide Split;
    if shaPart == "" {
      SplitWithout(head, '@');
      EmptySum(head);
    } else {
      var sha := shaPart[1..];
      Assoc(head, ['@'], sha);
      assert shaPart == ['@'] + sha;
      SplitAt(head, '@', sha);
      SplitWithout(sha, '@');
    }
  }

  lemma CutHead(image: string, tagPart: string)
    requires ':' !in image && (tagPart == "" || tagPart[0] == ':')
    ensures Cut(image + tagPart, ':') == (image, if tagPart == "" then None else Some(tagPart[1..]))
  {
    hide Cut;
    if tagPart == "" {
      EmptySum(image);
      CutWithout(image, ':');
    } else {
      Assoc(image, [':'], tagPart[1..]);
      assert tagPart == [':'] + tagPart[1..];
      CutAt(image, ':', tagPart[1..]);
    }
  }

  lemma ParseReference(image: string, tagPart: string, shaPart: string)
    requires IsReference(image, tagPart, shaPart)
    ensures var s := image + tagPart + shaPart; Parse(s) == Ok(WithDefault(image, tagPart, shaPart, s))
  {
    SplitReference(image + tagPart, shaPart);
    CutHead(image, tagPart);
    hide Split, Cut, IsSha;
  }

  /** Every accepted name is a reference; the parts are recovered from the parse. */
  lemma AcceptedIsReference(s: string) returns (image: string, tagPart: string, shaPart: string)
    requires Parse(s).Ok?
    ensures IsReference(image, tagPart, shaPart) && s == image + tagPart + shaPart
  {
    SplitInverse(s, '@');
    image, tagPart, shaPart := ReferenceOfParts(s, Split(s, '@'));
  }

  lemma ReferenceOfParts(s: string, parts: seq<string>) returns (image: string, tagPart: string, shaPart: string)
    requires 1 <= |parts| <= 2 && '@' !in parts[0] && Cut(parts[0], ':').0 != ""
    requires |parts| == 1 ==> s == parts[0]
    requires |parts| == 2 ==> s == parts[0] + ['@'] + parts[1] && '@' !in parts[1] && IsSha(parts[1])
    ensures IsReference(image, tagPart, shaPart) && s == image + tagPart + shaPart
  {
    image, tagPart := HeadOf(parts[0]);
    hide Cut, IsSha;
    if |parts| == 2 {
      shaPart := ['@'] + parts[1];
      TailOfSum(['@'], parts[1]);
      EmptySum(parts[1]);
      Assoc(parts[0], ['@'], parts[1]);
    } else {
      shaPart := "";
      EmptySum(image + tagPart);
    }
  }

  lemma HeadOf(head: string) returns (image: string, tagPart: string)
    requires '@' !in head
    ensures image == Cut(head, ':').0 && head == image + tagPart
    ensures ':' !in image && '@' !in image
    ensures tagPart == "" || (tagPart[0] == ':' && '@' !in tagPart)
  {
    var (i, after) := Cut(head, ':');
    image := i;
    tagPart := if after.Some? then [':'] + after.value else "";
  }

  /** The parser accepts exactly the references. */
  lemma ParseAcceptsExactlyReferences(s: string)
    ensures Parse(s).Ok? <==> exists image, tagPart, shaPart ::
        && IsReference(image, tagPart, shaPart)
        && s == image + tagPart + shaPart
  {
    if Parse(s).Ok? {
      var image, tagPart, shaPart := AcceptedIsReference(s);
    }
    forall image, tagPart, shaPart | IsReference(image, tagPart, shaPart) && s == image + tagPart + shaPart
      ensures Parse(s).Ok?
    {
      ParseReference(image, tagPart, shaPart);
    }
  }

  // ----- the algorithms, spelled out

  /** A digest part is accepted if and only if it names one of the two algorithms. */
  lemma DigestPartIff(sha: string)
    ensures IsSha(sha) <==> "sha:" <= sha || "sha256:" <= sha
  {
    var (algorithm, digest) := Cut(sha, ':');
    if IsSha(sha) {
      assert sha == algorithm + ":" + digest.value;
      assert "sha" + ":" == "sha:" && "sha256" + ":" == "sha256:";
    }
    if "sha:" <= sha {
      assert sha == "sha" + [':'] + sha[4..];
      CutAt("sha", ':', sha[4..]);
    } else if "sha256:" <= sha {
      assert sha == "sha256" + [':'] + sha[7..];
      CutAt("sha256", ':', sha[7..]);
    }
  }

  function TagPart(tag: Option<string>): string {
    if tag.None? then "" else [':'] + tag.value
  }

  function ShaPart(sha: Option<string>): string {
    if sha.None? then "" else ['@'] + sha.value
  }

  /** What is answered for every name with at most one `@`, error for error: the digest part is looked
      at before the image. */
  lemma ParseSays(image: string, tag: Option<string>, sha: Option<string>)
    requires ':' !in image && '@' !in image && '@' !in TagPart(tag) && (sha.Some? ==> '@' !in sha.value)
    ensures var name := image + TagPart(tag) + ShaPart(sha);
      Parse(name) ==
        if sha.Some? && !("sha:" <= sha.value) && !("sha256:" <= sha.value) then Err(InvalidSha)
        else if image == "" then Err(ImageRequired)
        else
          var givenTag := if tag.Some? then tag.value else "";
          var givenSha := if sha.Some? then sha.value else "";
          Ok(Container(image, if givenTag == "" && givenSha == "" then "latest" else givenTag, givenSha, name, ""))
  {
    SplitReference(image + TagPart(tag), ShaPart(sha));
    CutHead(image, TagPart(tag));
    if sha.Some? {
      DigestPartIff(sha.value);
      TailOfSum(['@'], sha.value);
      EmptySum(sha.value);
    }
    hide Split, Cut, IsSha;
  }

  /** And a name with two of them, or more, is refused. */
  lemma TwoDigestsAreRefused(a: string, b: string, rest: string)
    requires '@' !in a && '@' !in b
    ensures Parse(a + ['@'] + (b + ['@'] + rest)) == Err(InvalidFormat)
  {
    SplitAt(a, '@', b + ['@'] + rest);
    SplitAt(b, '@', rest);
    hide Split, Cut, IsSha;
  }

  /** Algorithm by algorithm: a digest with a colon is accepted for `sha` and `sha256` and no other,
      and a digest part without a colon never. */
  lemma AlgorithmsIff(image: string, tag: Option<string>, algorithm: string, digest: string)
    requires image != "" && ':' !in image && '@' !in image && '@' !in TagPart(tag)
    requires ':' !in algorithm && '@' !in algorithm && '@' !in digest
    ensures var sha := algorithm + [':'] + digest;
      var name := image + TagPart(tag) + ShaPart(Some(sha));
      && (Parse(name).Ok? <==> algorithm == "sha" || algorithm == "sha256")
      && (Parse(name).Ok? ==>
            Parse(name).value == Container(image, if tag.Some? then tag.value else "", sha, name, ""))
      && (Parse(name).Err? ==> Parse(name).error == InvalidSha)
    ensures Parse(image + TagPart(tag) + ShaPart(Some(algorithm))) == Err(InvalidSha)
  {
    var sha := algorithm + [':'] + digest;
    ParseSays(image, tag, Some(sha));
    ParseSays(image, tag, Some(algorithm));
    PrefixUpToColon("sha", algorithm, digest);
    PrefixUpToColon("sha256", algorithm, digest);
    assert "sha" + [':'] == "sha:" && "sha256" + [':'] == "sha256:";
    assert forall n | 0 <= n < |algorithm| :: algorithm[n] != ':';
    assert "sha:"[3] == ':' && "sha256:"[6] == ':';
    hide Parse;
  }

  lemma PrefixUpToColon(a: string, b: string, digest: string)
    requires ':' !in a && ':' !in b
    ensures a + [':'] <= b + [':'] + digest <==> a == b
  {
    var s, t := a + [':'], b + [':'] + digest;
    assert forall n | 0 <= n < |a| :: a[n] in a && s[n] == a[n];
    assert forall n | 0 <= n < |b| :: b[n] in b && t[n] == b[n];
    assert s[|a|] == ':' && t[|b|] == ':';
    if s <= t {
      assert |a| == |b|;
    }
    if a == b {
      assert t[..|s|] == s;
    }
  }

  // ----- round trips

  /** Parsing what was printed gives back every part. */
  lemma ParsePrint(c: Container)
    requires WellFormed(c)
    ensures Parse(Print(c)) == Ok(c.(fullName := Print(c), imageNamespace := ""))
  {
    var tagPart := if c.tag == "" then "" else ":" + c.tag;
    var shaPart := if c.sha == "" then "" else "@" + c.sha;
    assert c.sha != "" ==> shaPart[1..] == c.sha;
    assert c.tag != "" ==> tagPart[1..] == c.tag;
    ParseReference(c.image, tagPart, shaPart);
  }

  /** What is parsed is well formed, and printing it and parsing again changes nothing but the
      full name, which is the text that was parsed. */
  lemma ParsePrintParse(s: string)
    requires Parse(s).Ok?
    ensures var c := Parse(s).value;
      WellFormed(c) && c.fullName == s && Parse(Print(c)) == Ok(c.(fullName := Print(c)))
  {
    var image, tagPart, shaPart := AcceptedIsReference(s);
    ParseReference(image, tagPart, shaPart);
    var c := Parse(s).value;
    assert '@' !in c.tag by {
      assert forall x | x in tagPart[if tagPart == "" then 0 else 1..] :: x in tagPart;
    }
    ParsePrint(c);
  }

  // ----- the containers of one pod

  /** `processContainer`: one more container on the list, unless its name does not parse. */
  function Extend(list: seq<Container>, name: string, namespace: string): Result<seq<Container>> {
    var parsed := Parse(name);
    if parsed.Err? then Err(parsed.error) else Ok(list + [parsed.value.(imageNamespace := namespace)])
  }

  /** `processContainer` over a list of image names: the first bad name ends it. */
  function Collect(images: seq<string>, namespace: string): Result<seq<Container>> {
    if images == [] then Ok([])
    else
      var last := |images| - 1;
      var before := Collect(images[..last], namespace);
      if before.Err? then before else Extend(before.value, images[last], namespace)
  }

  lemma {:induction false} CollectAll(images: seq<string>, namespace: string)
    ensures Collect(images, namespace).Ok? <==> forall name | name in images :: Parse(name).Ok?
    ensures var r := Collect(images, namespace); r.Ok? ==>
      |r.value| == |images| && forall i | 0 <= i < |images| ::
        Parse(images[i]).Ok? && r.value[i] == Parse(images[i]).value.(imageNamespace := namespace)
  {
    if images != [] {
      var last := |images| - 1;
      CollectAll(images[..last], namespace);
      assert images == images[..last] + [images[last]];
    }
  }

  lemma CollectNext(images: seq<string>, name: string, namespace: string)
    requires Collect(images, namespace).Ok?
    ensures Collect(images + [name], namespace) == Extend(Collect(images, namespace).value, name, namespace)
  {
    assert (images + [name])[..|images|] == images;
  }

  lemma {:induction false} CollectStops(images: seq<string>, k: nat, namespace: string)
    requires k <= |images| && Collect(images[..k], namespace).Err?
    ensures Collect(images, namespace) == Collect(images[..k], namespace)
    decreases |images| - k
  {
    if k < |images| {
      assert images[..k+1][..k] == images[..k];
      CollectStops(images, k + 1, namespace);
    } else {
      assert images[..k] == images;
    }
  }

  /** The same when the context is done once `cancelAt` containers have been looked at. */
  function CollectUntil(images: seq<string>, namespace: string, cancelAt: nat): Result<seq<Container>> {
    if |images| <= cancelAt then Collect(images, namespace)
    else
      var before := Collect(images[..cancelAt], namespace);
      if before.Err? then before else Err(ContextDone)
  }

  lemma StopsBeforeCancel(images: seq<string>, k: nat, namespace: string, cancelAt: nat)
    requires k <= |images| && k <= cancelAt && Collect(images[..k], namespace).Err?
    ensures CollectUntil(images, namespace, cancelAt) == Collect(images[..k], namespace)
  {
    var n := if |images| <= cancelAt then |images| else cancelAt;
    assert images[..n][..k] == images[..k];
    CollectStops(images[..n], k, namespace);
    assert n == |images| ==> images[..n] == images;
    hide Collect;
  }

  /** The first bad name within reach of the context, or the context, or everything. */
  lemma UntilSays(images: seq<string>, namespace: string, cancelAt: nat)
    ensures var r := CollectUntil(images, namespace, cancelAt);
      && (forall i: nat | i < |images| && i < cancelAt && Parse(images[i]).Err?
              && (forall j | 0 <= j < i :: Parse(images[j]).Ok?) :: r == Err(Parse(images[i]).error))
      && (|images| > cancelAt && (forall j | 0 <= j < cancelAt :: Parse(images[j]).Ok?) ==> r == Err(ContextDone))
      && (r.Ok? <==> |images| <= cancelAt && forall name | name in images :: Parse(name).Ok?)
  {
    forall i: nat | i < |images| && i < cancelAt && Parse(images[i]).Err?
      && (forall j | 0 <= j < i :: Parse(images[j]).Ok?)
      ensures CollectUntil(images, namespace, cancelAt) == Err(Parse(images[i]).error)
    {
      FirstBadName(images, i, namespace);
      StopsBeforeCancel(images, i + 1, namespace, cancelAt);
    }
    if |images| > cancelAt {
      CollectAll(images[..cancelAt], namespace);
      assert forall j | 0 <= j < cancelAt :: images[..cancelAt][j] == images[j];
    } else {
      CollectAll(images, namespace);
    }
    hide Collect, Parse;
  }

  lemma FirstBadName(images: seq<string>, i: nat, namespace: string)
    requires i < |images| && Parse(images[i]).Err? && forall j | 0 <= j < i :: Parse(images[j]).Ok?
    ensures Collect(images[..i + 1], namespace) == Err(Parse(images[i]).error)
  {
    CollectAll(images[..i], namespace);
    assert forall j | 0 <= j < i :: images[..i][j] == images[j];
    hide Parse, Collect;
    assert images[..i + 1] == images[..i] + [images[i]];
    CollectNext(images[..i], images[i], namespace);
  }

  datatype PodSpec = PodSpec(containers: seq<string>, initContainers: seq<string>, ephemeralContainers: seq<string>)
  {
    /** The order in which `processContainers` visits a pod. */
    function Images(): seq<string> {
      containers + initContainers + ephemeralContainers
    }
  }

  /** The containers of a pod are those of its containers, its init containers and its ephemeral
      containers, one for one and in this order, stamped with the namespace. */
  lemma PodIsCollected(pod: PodSpec, namespace: string)
    ensures var r := Collect(pod.Images(), namespace);
      var c, i := |pod.containers|, |pod.initContainers|;
      && (r.Ok? <==> && (forall name | name in pod.containers :: Parse(name).Ok?)
                     && (forall name | name in pod.initContainers :: Parse(name).Ok?)
                     && (forall name | name in pod.ephemeralContainers :: Parse(name).Ok?))
      && (r.Ok? ==>
            && |r.value| == c + i + |pod.ephemeralContainers|
            && (forall n | 0 <= n < c :: IsParseOf(r.value[n], pod.containers[n], namespace))
            && (forall n | 0 <= n < i :: IsParseOf(r.value[c + n], pod.initContainers[n], namespace))
            && (forall n | 0 <= n < |pod.ephemeralContainers| ::
                  IsParseOf(r.value[c + i + n], pod.ephemeralContainers[n], namespace)))
  {
    var images := pod.Images();
    CollectAll(images, namespace);
    hide Collect, Parse;
    var c, i := |pod.containers|, |pod.initContainers|;
    assert forall n | 0 <= n < c :: images[n] == pod.containers[n];
    assert forall n | 0 <= n < i :: images[c + n] == pod.initContainers[n];
    assert forall n | 0 <= n < |pod.ephemeralContainers| :: images[c + i + n] == pod.ephemeralContainers[n];
    assert forall name ::
        name in images <==> name in pod.containers || name in pod.initContainers || name in pod.ephemeralContainers;
  }

  predicate IsParseOf(c: Container, name: string, namespace: string) {
    Parse(name).Ok? && c == Parse(name).value.(imageNamespace := namespace)
  }

  class ContainerCache {
    var cache: map<string, Container>

    ghost predicate Valid()
      reads this
    {
      forall name | name in cache :: Parse(name) == Ok(cache[name])
    }

    constructor ()
      ensures Valid() && cache == map[]
    {
      cache := map[];
    }

    method Get(key: string) returns (found: Option<Container>)
      ensures found == if key in cache then Some(cache[key]) else None
    {
      if key in cache {
        found := Some(cache[key]);
      } else {
        found := None;
      }
    }

    method Set(key: string, value: Container)
      modifies this
      ensures cache == old(cache)[key := value]
    {
      cache := cache[key := value];
    }

    /** The cache is invisible: the answer is the uncached parser's, only answers enter the
        cache, and nothing in it changes. */
    method ProcessContainerName(containerName: string) returns (r: Result<Container>)
      requires Valid()
      modifies this
      ensures Valid()
      ensures r == Parse(containerName)
      ensures cache == if r.Ok? then old(cache)[containerName := r.value] else old(cache)
    {
      var cached := Get(containerName);
      if cached.Some? {
        return Ok(cached.value);
      }
      var cnt := Container("", "", "", containerName, "");
      var parts := Split(containerName, '@');
      if |parts| > 2 {
        return Err(InvalidFormat);
      }
      var imageAndTag := Cut(parts[0], ':');
      cnt := cnt.(image := imageAndTag.0);
      if imageAndTag.1.Some? {
        cnt := cnt.(tag := imageAndTag.1.value);
      }
      if |parts| == 2 {
        var shaParts := Cut(parts[1], ':');
        if shaParts.1.None? || (shaParts.0 != "sha" && shaParts.0 != "sha256") {
          return Err(InvalidSha);
        }
        cnt := cnt.(sha := parts[1]);
      }
      if cnt.sha == "" && cnt.tag == "" {
        cnt := cnt.(tag := "latest");
      }
      if cnt.image == "" {
        return Err(ImageRequired);
      }
      Set(containerName, cnt);
      r := Ok(cnt);
    }

    /** One container, unless the context is done.  The namespace is set on the caller's copy, so the
        cache keeps its own. */
    method ProcessContainer(image: string, namespace: string, list: seq<Container>, done: bool)
      returns (r: Result<seq<Container>>)
      requires Valid()
      modifies this
      ensures Valid()
      ensures r == if done then Err(ContextDone) else Extend(list, image, namespace)
    {
      if done {
        return Err(ContextDone);
      }
      var parsed := ProcessContainerName(image);
      if parsed.Err? {
        return Err(parsed.error);
      }
      var cnt := parsed.value.(imageNamespace := namespace);
      r := Ok(list + [cnt]);
    }

    /** One of the loops over a pod's containers; `before` is what has been visited already. */
    method ProcessEach(images: seq<string>, namespace: string, visited: seq<Container>, cancelAt: nat,
                       ghost before: seq<string>)
      returns (r: Result<seq<Container>>)
      requires Valid() && Collect(before, namespace) == Ok(visited) && |visited| == |before| <= cancelAt
      modifies this
      ensures Valid()
      ensures r == CollectUntil(before + images, namespace, cancelAt)
      ensures r.Ok? ==> |r.value| == |before + images| <= cancelAt
    {
      hide Extend, Collect;
      var list := visited;
      assert before + images[..0] == before;
      for i := 0 to |images|
        invariant Valid()
        invariant Collect(before + images[..i], namespace) == Ok(list)
        invariant |list| == |before| + i <= cancelAt
      {
        ghost var seen := before + images[..i];
        CollectNext(seen, images[i], namespace);
        assert before + images[..i+1] == seen + [images[i]];
        assert (before + images)[..|before| + i] == seen;
        var next := ProcessContainer(images[i], namespace, list, |list| >= cancelAt);
        if next.Err? {
          if |list| < cancelAt {
            assert (before + images)[..|before| + i + 1] == before + images[..i+1];
            StopsBeforeCancel(before + images, |before| + i + 1, namespace, cancelAt);
          }
          return next;
        }
        ExtendAddsOne(list, images[i], namespace);
        list := next.value;
      }
      assert before + images[..|images|] == before + images;
      r := Ok(list);
    }

    method ProcessContainers(pod: PodSpec, namespace: string, cancelAt: nat) returns (r: Result<seq<Container>>)
      requires Valid()
      modifies this
      ensures Valid()
      ensures r == CollectUntil(pod.Images(), namespace, cancelAt)
    {
      var allContainers := pod.containers + pod.initContainers;
      assert pod.Images()[..|allContainers|] == allContainers;
      assert [] + allContainers == allContainers;
      r := ProcessEach(allContainers, namespace, [], cancelAt, []);
      if r.Err? {
        UntilStops(pod.Images(), |allContainers|, namespace, cancelAt);
        return;
      }
      r := ProcessEach(pod.ephemeralContainers, namespace, r.value, cancelAt, allContainers);
    }
  }

  lemma ExtendAddsOne(list: seq<Container>, name: string, namespace: string)
    ensures var r := Extend(list, name, namespace); r.Ok? ==> |r.value| == |list| + 1
  {
  }

  lemma UntilStops(images: seq<string>, k: nat, namespace: string, cancelAt: nat)
    requires k <= |images| && CollectUntil(images[..k], namespace, cancelAt).Err?
    ensures CollectUntil(images, namespace, cancelAt) == CollectUntil(images[..k], namespace, cancelAt)
  {
    if k <= cancelAt {
      StopsBeforeCancel(images, k, namespace, cancelAt);
    } else {
      assert images[..k][..cancelAt] == images[..cancelAt];
    }
    hide Collect;
  }
}

/** The cache under concurrent calls: `Get` and `Set` are atomic, anything may run between them. */
module CacheProtocol {
  import opened ContainerNames

  datatype Call =
    | Called(name: string)
    | Missed(name: string)
    | Returned(name: string, result: Result<Container>)
    | Stamped(name: string, copy: Container, namespace: string)  // the caller set ImageNamespace

  datatype System = System(cache: map<string, Container>, calls: seq<Call>)

  datatype Action = Call(name: string) | Lookup(i: nat) | Finish(i: nat) | Stamp(i: nat, namespace: string)

  predicate Enabled(s: System, a: Action) {
    match a
    case Call(_) => true
    case Lookup(i) => i < |s.calls| && s.calls[i].Called?
    case Finish(i) => i < |s.calls| && s.calls[i].Missed?
    case Stamp(i, _) => i < |s.calls| && s.calls[i].Returned? && s.calls[i].result.Ok?
  }

  function Fire(s: System, a: Action): System
    requires Enabled(s, a)
  {
    match a
    case Call(name) => s.(calls := s.calls + [Called(name)])
    case Lookup(i) =>
      var name := s.calls[i].name;
      s.(calls := s.calls[i := if name in s.cache then Returned(name, Ok(s.cache[name])) else Missed(name)])
    case Finish(i) =>
      var name := s.calls[i].name;
      var r := Parse(name);
      System(if r.Ok? then s.cache[name := r.value] else s.cache, s.calls[i := Returned(name, r)])
    case Stamp(i, namespace) =>
      var c := s.calls[i];
      s.(calls := s.calls[i := Stamped(c.name, c.result.value.(imageNamespace := namespace), namespace)])
  }

  function Run(s: System, actions: seq<Action>): System
    decreases |actions|
  {
    if actions == [] then s
    else if Enabled(s, actions[0]) then Run(Fire(s, actions[0]), actions[1..])
    else Run(s, actions[1..])
  }

  predicate Transparent(s: System) {
    && (forall name | name in s.cache :: Parse(name) == Ok(s.cache[name]))
    && (forall i | 0 <= i < |s.calls| ::
          match s.calls[i]
          case Returned(name, r) => r == Parse(name)
          case Stamped(name, copy, namespace) =>
            Parse(name).Ok? && copy == Parse(name).value.(imageNamespace := namespace)
          case _ => true)
  }

  /** Over any interleaving of any number of calls, every call answers what the uncached parser
      answers, the cache holds only such answers, and no namespace ever reaches it. */
  lemma {:induction false} CacheIsTransparent(s: System, actions: seq<Action>)
    requires Transparent(s)
    ensures Transparent(Run(s, actions))
    decreases |actions|
  {
    if actions != [] {
      var a := actions[0];
      if Enabled(s, a) {
        assert Transparent(Fire(s, a));
        CacheIsTransparent(Fire(s, a), actions[1..]);
      } else {
        CacheIsTransparent(s, actions[1..]);
      }
    }
  }
}
