/** Where an export's archives go and what its cleanup deletes: the path part of
    `createBackupJob` and `runCleanupJob`, `parse_s3_path`, and the S3 loop of
    `remove_directory`. */
module StoragePaths {
  import opened ImageNaming
  import opened Sequences

  const SCHEME := "s3://"

  // ----- s3_utils.py

  /** Python's `replace('s3://', '')`: leftmost, non-overlapping, anywhere in the string. */
  function RemoveScheme(s: string): string {
    if StartsWithScheme(s) then RemoveScheme(s[5..])
    else if s == "" then ""
    else [s[0]] + RemoveScheme(s[1..])
  }

  predicate StartsWithScheme(s: string) {
    |s| >= 5 && s[..5] == SCHEME
  }

  /** Position of the first slash, or the length when there is none. */
  function FirstSlash(s: string): (i: nat)
    ensures i <= |s| && '/' !in s[..i]
    ensures if '/' in s then i < |s| && s[i] == '/' else i == |s|
  {
    if s == "" || s[0] == '/' then 0
    else
      var i := 1 + FirstSlash(s[1..]);
      assert s[..i] == [s[0]] + s[1..][..i-1];
      i
  }

  datatype Location = Location(bucket: string, key: string)

  /** The two results of `split('/', 1)`. */
  function SplitPath(s: string): Location {
    var i := FirstSlash(s);
    Location(s[..i], if i < |s| then s[i+1..] else "")
  }

  function ParseS3Path(path: string): Location {
    SplitPath(RemoveScheme(path))
  }

  // ----- the paths the controllers hand to the worker

  function ArchivePath(bucket: string, basePath: string, exportName: string, fullName: string): string {
    SCHEME + bucket + basePath + "/" + exportName + "/" + NormalizeImageName(fullName) + ".tar"
  }

  function CleanupPath(bucket: string, basePath: string, exportName: string): string {
    SCHEME + bucket + basePath + "/" + exportName + "/"
  }

  /** What the API server accepts as an object name, as far as paths are concerned. */
  predicate IsExportName(name: string) {
    name != "" && '/' !in name
  }

  // ----- removing the scheme does not reach past the base path

  predicate NoSlashPair(y: string) {
    forall i | 0 < i < |y| :: !(y[i-1] == '/' && y[i] == '/')
  }

  lemma SchemeHasSlashPair(y: string)
    requires NoSlashPair(y)
    ensures !StartsWithScheme(y)
  {
    if |y| >= 5 {
      assert !(y[3] == '/' && y[4] == '/');
      assert y[..5][3] == y[3] && y[..5][4] == y[4];
    }
  }

  lemma TailHasNoSlashPair(y: string)
    requires NoSlashPair(y) && y != ""
    ensures NoSlashPair(y[1..])
  {
    assert forall i | 0 < i < |y[1..]| :: y[1..][i-1] == y[i] && y[1..][i] == y[i+1];
  }

  lemma {:induction false} RemoveSchemeUntouched(y: string)
    requires NoSlashPair(y)
    ensures RemoveScheme(y) == y
  {
    SchemeHasSlashPair(y);
    if y != "" {
      TailHasNoSlashPair(y);
      hide NoSlashPair, StartsWithScheme;
      RemoveSchemeUntouched(y[1..]);
    }
  }

  /** One step of the removal. */
  lemma RemoveSchemeStep(s: string)
    requires s != ""
    ensures StartsWithScheme(s) ==> |s| >= 5 && RemoveScheme(s) == RemoveScheme(s[5..])
    ensures !StartsWithScheme(s) ==> RemoveScheme(s) == [s[0]] + RemoveScheme(s[1..])
  {
  }

  /** `p` ends in a slash and `y` neither starts with one nor holds two in a row, so no
      occurrence of the scheme straddles or follows the border. */
  lemma {:induction false} RemoveSchemeAppend(p: string, y: string)
    requires p == "" || p[|p|-1] == '/'
    requires NoSlashPair(y) && (y != "" ==> y[0] != '/')
    ensures RemoveScheme(p + y) == RemoveScheme(p) + y
    decreases |p|
  {
    if p == "" {
      EmptySum(y);
      RemoveSchemeUntouched(y);
      hide NoSlashPair, StartsWithScheme;
    } else {
      SchemeAcross(p, y);
      hide RemoveScheme, StartsWithScheme, NoSlashPair;
      RemoveSchemeStep(p);
      TailOfSum(p, y);
      RemoveSchemeStep(p + y);
      if StartsWithScheme(p) {
        DropOfSum(p, y, 5);
        RemoveSchemeAppend(p[5..], y);
      } else {
        RemoveSchemeAppend(p[1..], y);
        Assoc([p[0]], RemoveScheme(p[1..]), y);
      }
    }
  }

  lemma SchemeAcross(p: string, y: string)
    requires p != "" && p[|p|-1] == '/' && (y != "" ==> y[0] != '/')
    ensures StartsWithScheme(p + y) <==> StartsWithScheme(p)
    ensures StartsWithScheme(p) ==> |p| >= 5
  {
    var z := p + y;
    if |p| >= 5 {
      assert z[..5] == p[..5];
    } else if |z| >= 5 {
      assert z[..5][|p|-1] == '/';
      if |p| == 4 {
        assert z[..5][4] == y[0];
      }
    }
  }

  /** Nothing is removed where the scheme does not occur. */
  lemma {:induction false} NothingToRemove(s: string)
    requires forall i | 0 <= i < |s| :: !("s3://" <= s[i..])
    ensures RemoveScheme(s) == s
  {
    if s != "" {
      assert s[0..] == s;
      assert forall i | 0 <= i < |s[1..]| :: s[1..][i..] == s[i+1..];
      NothingToRemove(s[1..]);
      assert s == [s[0]] + s[1..];
    }
  }

  /** Its leftmost occurrence goes, wherever it is, and the rest is looked at in the same way. */
  lemma {:induction false} FirstSchemeGoes(a: string, b: string)
    requires forall i | 0 <= i < |a| :: !("s3://" <= (a + "s3://" + b)[i..])
    ensures RemoveScheme(a + "s3://" + b) == a + RemoveScheme(b)
  {
    if a == "" {
      EmptySum("s3://");
      EmptySum(RemoveScheme(b));
      SchemeGoes(b);
    } else {
      assert (a + "s3://" + b)[0..] == a + "s3://" + b;
      assert !StartsWithScheme(a + "s3://" + b);
      hide RemoveScheme, StartsWithScheme;
      TailOfSum(a, "s3://");
      TailOfSum(a + "s3://", b);
      forall i | 0 <= i < |a[1..]|
        ensures !("s3://" <= (a[1..] + "s3://" + b)[i..])
      {
        assert (a[1..] + "s3://" + b)[i..] == (a + "s3://" + b)[i+1..];
      }
      FirstSchemeGoes(a[1..], b);
      RemoveSchemeStep(a + "s3://" + b);
      Assoc([a[0]], a[1..], RemoveScheme(b));
    }
  }

  /** What is left of bucket and base path once the scheme is gone. */
  function Root(bucket: string, basePath: string): string {
    RemoveScheme(bucket + basePath + "/")
  }

  lemma SlashFreeWord(e: string, x: string)
    requires IsExportName(e) && '/' !in x
    ensures var y := e + "/" + x;
      y[0] != '/' && NoSlashPair(y)
  {
    var y := e + "/" + x;
    assert y[0] == e[0];
    forall i | 0 < i < |y|
      ensures !(y[i-1] == '/' && y[i] == '/')
    {
      if i <= |e| {
        assert y[i-1] == e[i-1];
      } else {
        assert y[i] == x[i - |e| - 1];
      }
    }
  }

  lemma SchemeGoes(z: string)
    ensures RemoveScheme(SCHEME + z) == RemoveScheme(z)
  {
    assert (SCHEME + z)[..5] == SCHEME && (SCHEME + z)[5..] == z;
  }

  /** The path as the controllers concatenate it, cut before the export name. */
  lemma PathParts(bucket: string, basePath: string, e: string, x: string)
    ensures SCHEME + bucket + basePath + "/" + e + "/" + x == SCHEME + (bucket + basePath + "/" + (e + "/" + x))
  {
    var p, q := bucket + basePath + "/", SCHEME + bucket + basePath + "/";
    Assoc(SCHEME, bucket, basePath);
    Assoc(SCHEME, bucket + basePath, "/");
    assert q == SCHEME + p;
    Assoc(q, e, "/");
    Assoc(q, e + "/", x);
    Assoc(SCHEME, p, e + "/" + x);
  }

  lemma EndsInSlash(a: string)
    ensures (a + "/")[|a|] == '/'
  {
  }

  lemma StripPath(bucket: string, basePath: string, e: string, x: string)
    requires IsExportName(e) && '/' !in x
    ensures RemoveScheme(SCHEME + bucket + basePath + "/" + e + "/" + x) == Root(bucket, basePath) + (e + "/" + x)
  {
    hide RemoveScheme, NoSlashPair, StartsWithScheme, IsExportName;
    var p, y := bucket + basePath + "/", e + "/" + x;
    SlashFreeWord(e, x);
    EndsInSlash(bucket + basePath);
    RemoveSchemeAppend(p, y);
    PathParts(bucket, basePath, e, x);
    SchemeGoes(p + y);
  }

  lemma ArchiveSuffixIsSlashFree(fullName: string)
    ensures '/' !in NormalizeImageName(fullName) + ".tar"
  {
    NormalizedNames(fullName, fullName);
  }

  lemma ParsedPaths(bucket: string, basePath: string, e: string, fullName: string)
    requires IsExportName(e)
    ensures ParseS3Path(CleanupPath(bucket, basePath, e)) == SplitPath(Root(bucket, basePath) + (e + "/"))
    ensures ParseS3Path(ArchivePath(bucket, basePath, e, fullName))
         == SplitPath(Root(bucket, basePath) + (e + "/" + (NormalizeImageName(fullName) + ".tar")))
  {
    var name := NormalizeImageName(fullName);
    ArchiveSuffixIsSlashFree(fullName);
    hide RemoveScheme, Root, SplitPath, NormalizeImageName;
    StripPath(bucket, basePath, e, name + ".tar");
    StripPath(bucket, basePath, e, "");
    EmptySum(CleanupPath(bucket, basePath, e));
    EmptySum(e + "/");
    Assoc(SCHEME + bucket + basePath + "/" + e + "/", name, ".tar");
  }

  // ----- cleanup against archives

  /** Cleaning up under `prefix` deletes the object at `target`. */
  predicate Hits(prefix: Location, target: Location) {
    prefix.bucket == target.bucket && prefix.key <= target.key
  }

  lemma {:induction false} FirstSlashIs(s: string, i: nat)
    requires i < |s| && s[i] == '/' && '/' !in s[..i]
    ensures FirstSlash(s) == i
  {
    if i > 0 {
      assert s[0] in s[..i];
      assert s[1..][..i-1] == s[..i][1..];
      FirstSlashIs(s[1..], i - 1);
    }
  }

  lemma SplitParts(s: string)
    ensures '/' in s ==> var l := SplitPath(s); s == l.bucket + "/" + l.key && '/' !in l.bucket
    ensures '/' !in s ==> SplitPath(s) == Location(s, "")
  {
  }

  lemma PrefixHits(s: string, t: string)
    requires '/' in s && s <= t
    ensures Hits(SplitPath(s), SplitPath(t))
  {
    var i := FirstSlash(s);
    assert t[i] == '/' && t[..i] == s[..i];
    FirstSlashIs(t, i);
    assert t[i+1..][..|s| - i - 1] == s[i+1..];
  }

  lemma SameStart(bucket: string, x: string, y: string)
    requires x <= y
    ensures bucket + "/" + x <= bucket + "/" + y
  {
    assert y == x + y[|x|..];
    assert bucket + "/" + y == bucket + "/" + x + y[|x|..];
  }

  lemma HitsPrefix(s: string, t: string)
    requires '/' in s && '/' in t && Hits(SplitPath(s), SplitPath(t))
    ensures s <= t
  {
    SplitParts(s);
    SplitParts(t);
    hide SplitPath;
    SameStart(SplitPath(s).bucket, SplitPath(s).key, SplitPath(t).key);
  }

  /** Once a string has a slash, splitting turns the prefix order on strings into `Hits`. */
  lemma SplitHits(s: string, t: string)
    requires '/' in s && '/' in t
    ensures Hits(SplitPath(s), SplitPath(t)) <==> s <= t
  {
    hide Hits, SplitPath;
    if s <= t {
      PrefixHits(s, t);
    }
    if Hits(SplitPath(s), SplitPath(t)) {
      HitsPrefix(s, t);
    }
  }

  lemma CharOf(r: string, e: string, x: string, n: nat)
    requires n < |r + e + "/" + x|
    ensures (r + e + "/" + x)[n] ==
      if n < |r| then r[n] else if n < |r + e| then e[n - |r|] else if n == |r + e| then '/' else x[n - |r + e| - 1]
  {
  }

  /** A prefix that ends in a slash ends at a slash. */
  lemma PrefixIff(u: string, r: string, e: string, x: string)
    requires '/' !in e && '/' !in x
    ensures u + "/" <= r + e + "/" + x <==> u == r + e || u + "/" <= r
  {
    var s, t := u + "/", r + e + "/" + x;
    if s <= t {
      var n := |u|;
      assert s[n] == '/' && t[n] == s[n];
      CharOf(r, e, x, n);
      assert t[..n] == s[..n] == u;
      assert n < |r| || n == |r + e|;
      if n < |r| {
        assert t[..n + 1] == r[..n + 1];
        assert t[..n + 1] == s;
      } else {
        assert t[..n] == r + e;
      }
    }
    if u == r + e {
      assert t[..|s|] == s;
    }
    if s <= r {
      assert t[..|s|] == r[..|s|] == s;
    }
  }

  /** Exactly which archives a cleanup deletes: those whose directory is its own, and those whose
      base path lies inside its own directory.  The image does not matter. */
  lemma CleanupHitsIff(b: string, base: string, e: string, b': string, base': string, e': string, fullName: string)
    requires IsExportName(e) && IsExportName(e')
    ensures Hits(ParseS3Path(CleanupPath(b, base, e)), ParseS3Path(ArchivePath(b', base', e', fullName)))
      <==> Root(b, base) + e == Root(b', base') + e' || Root(b, base) + e + "/" <= Root(b', base')
  {
    ParsedPaths(b, base, e, fullName);
    ParsedPaths(b', base', e', fullName);
    ArchiveSuffixIsSlashFree(fullName);
    var r, r', x := Root(b, base), Root(b', base'), NormalizeImageName(fullName) + ".tar";
    hide ParseS3Path, CleanupPath, ArchivePath, NormalizeImageName, Root, SplitPath, Hits;
    Assoc(r, e, "/");
    Assoc(r', e', "/");
    Assoc(r', e' + "/", x);
    SlashIn(r + e, "");
    SlashIn(r' + e', x);
    EmptySum(r + e + "/");
    SplitHits(r + e + "/", r' + e' + "/" + x);
    PrefixIff(r + e, r', e', x);
  }

  lemma SlashIn(a: string, x: string)
    ensures '/' in a + "/" + x
  {
    assert (a + "/" + x)[|a|] == '/';
  }

  /** A cleanup deletes every archive its own export wrote, and no archive of another export
      with the same bucket and base path, whatever those two are. */
  lemma CleanupCoversAndIsolates(bucket: string, basePath: string, e: string, e': string, fullName: string)
    requires IsExportName(e) && IsExportName(e')
    ensures Hits(ParseS3Path(CleanupPath(bucket, basePath, e)),
        ParseS3Path(ArchivePath(bucket, basePath, e', fullName)))
      <==> e == e'
  {
    CleanupHitsIff(bucket, basePath, e, bucket, basePath, e', fullName);
    var r := Root(bucket, basePath);
    hide ParseS3Path, CleanupPath, ArchivePath, Root, Hits;
    SameFront(r, e, e');
    assert |r + e + "/"| > |r|;
  }

  lemma SameFront(r: string, e: string, e': string)
    ensures r + e == r + e' <==> e == e'
  {
    assert (r + e)[|r|..] == e && (r + e')[|r|..] == e';
  }

  lemma LastSlash(a: string, x: string, a': string, x': string)
    requires '/' !in x && '/' !in x'
    ensures a + "/" + x == a' + "/" + x' <==> a == a' && x == x'
  {
    var s, s' := a + "/" + x, a' + "/" + x';
    if s == s' {
      assert s[|a|] == '/' && s'[|a'|] == '/';
      assert forall i | |a| < i < |s| :: s[i] == x[i - |a| - 1];
      assert forall i | |a'| < i < |s'| :: s'[i] == x'[i - |a'| - 1];
      assert |a| == |a'|;
      assert s[..|a|] == a && s'[..|a'|] == a' && s[|a|+1..] == x && s'[|a'|+1..] == x';
    }
  }

  lemma SplitIsInjective(s: string, t: string)
    requires '/' in s && '/' in t
    ensures SplitPath(s) == SplitPath(t) <==> s == t
  {
    SplitParts(s);
    SplitParts(t);
    hide SplitPath;
  }

  lemma SuffixIsInjective(a: string, b: string, suffix: string)
    ensures a + suffix == b + suffix <==> a == b
  {
    assert (a + suffix)[..|a|] == a && (b + suffix)[..|b|] == b;
  }

  /** Two images are told to write one archive if and only if their exports' directories are the same
      and their full names have the same words: the characters between the words do not matter. */
  lemma ArchivesMeetIff(
      b: string, base: string, e: string, name: string, b': string, base': string, e': string, name': string)
    requires IsExportName(e) && IsExportName(e')
    ensures ParseS3Path(ArchivePath(b, base, e, name)) == ParseS3Path(ArchivePath(b', base', e', name'))
      <==> Root(b, base) + e == Root(b', base') + e' && Words(name) == Words(name')
  {
    var r, r' := Root(b, base), Root(b', base');
    var x, x' := NormalizeImageName(name) + ".tar", NormalizeImageName(name') + ".tar";
    ParsedPaths(b, base, e, name);
    ParsedPaths(b', base', e', name');
    ArchiveSuffixIsSlashFree(name);
    ArchiveSuffixIsSlashFree(name');
    NormalizedNames(name, name');
    hide ParseS3Path, ArchivePath, NormalizeImageName, Root, SplitPath, Words, CleanupPath;
    SuffixIsInjective(NormalizeImageName(name), NormalizeImageName(name'), ".tar");
    PathPartsOf(r, e, x);
    PathPartsOf(r', e', x');
    SlashIn(r + e, x);
    SlashIn(r' + e', x');
    SplitIsInjective(r + e + "/" + x, r' + e' + "/" + x');
    LastSlash(r + e, x, r' + e', x');
  }

  lemma PathPartsOf(r: string, e: string, x: string)
    ensures r + (e + "/" + x) == r + e + "/" + x
  {
    Assoc(r, e, "/");
    Assoc(r, e + "/", x);
  }

  /** For instance a tag and a path. */
  lemma TagAndPathMeet(b: string, base: string, e: string, image: string, tag: string)
    requires IsExportName(e)
    ensures ParseS3Path(ArchivePath(b, base, e, image + ":" + tag))
         == ParseS3Path(ArchivePath(b, base, e, image + "/" + tag))
  {
    OneSeparator(image, ':', tag);
    OneSeparator(image, '/', tag);
    ArchivesMeetIff(b, base, e, image + ":" + tag, b, base, e, image + "/" + tag);
    hide ParseS3Path, ArchivePath, Words;
  }

  lemma WordsFromSeparator(s: string)
    requires s != "" && IsSeparator(s[0])
    ensures Words(s) == Words(s[1..])
  {
  }

  lemma WordsFromWord(s: string)
    requires s != "" && !IsSeparator(s[0])
    ensures WordLength(s) > 0 && Words(s) == [s[..WordLength(s)]] + Words(s[WordLength(s)..])
  {
  }

  /** A leading word with what follows it, up to a separator and beyond. */
  lemma WordBefore(w: string, rest: string, c: char, b: string)
    requires IsWord(w) && IsSeparator(c) && (rest == "" || IsSeparator(rest[0]))
    ensures Words(w + rest + [c] + b) == [w] + Words(rest + [c] + b)
  {
    Assoc(w, rest, [c]);
    Assoc(w, rest + [c], b);
    assert (rest + [c] + b)[0] == if rest == "" then c else rest[0];
    hide Words, IsWord;
    WordsOfPrefix(w, rest + [c] + b);
  }

  lemma {:induction false} OneSeparator(a: string, c: char, b: string)
    requires IsSeparator(c)
    ensures Words(a + [c] + b) == Words(a) + Words(b)
    decreases |a|
  {
    hide Words, WordLength, IsWord;
    if a == "" {
      WordsOfNothing();
      EmptySum(Words(b));
      EmptySum([c]);
      WordsFromSeparator([c] + b);
      TailOfSum([c], b);
      EmptySum(b);
    } else if IsSeparator(a[0]) {
      WordsFromSeparator(a);
      TailOfSum(a, [c]);
      TailOfSum(a + [c], b);
      WordsFromSeparator(a + [c] + b);
      OneSeparator(a[1..], c, b);
    } else {
      var n := WordLength(a);
      WordsFromWord(a);
      LeadingWord(a);
      OneSeparator(a[n..], c, b);
      WordBefore(a[..n], a[n..], c, b);
      assert a == a[..n] + a[n..];
      Assoc([a[..n]], Words(a[n..]), Words(b));
    }
  }

  /** Isolation needs the common base path: an export whose base path is another export's
      directory loses every archive to that export's cleanup. */
  lemma NestedBasePathsCollide(bucket: string, basePath: string, e: string, e': string, fullName: string)
    requires IsExportName(e) && IsExportName(e')
    ensures Hits(ParseS3Path(CleanupPath(bucket, basePath, e)),
                 ParseS3Path(ArchivePath(bucket, basePath + "/" + e, e', fullName)))
  {
    CleanupHitsIff(bucket, basePath, e, bucket, basePath + "/" + e, e', fullName);
    NestedRoot(bucket, basePath, e);
    Assoc(Root(bucket, basePath), e, "/");
    hide ParseS3Path, CleanupPath, ArchivePath, Root, Hits;
  }

  lemma NestedRoot(bucket: string, basePath: string, e: string)
    requires IsExportName(e)
    ensures Root(bucket, basePath + "/" + e) == Root(bucket, basePath) + (e + "/")
  {
    hide RemoveScheme, NoSlashPair, IsExportName;
    SlashFreeWord(e, "");
    EmptySum(e + "/");
    EndsInSlash(bucket + basePath);
    RemoveSchemeAppend(bucket + basePath + "/", e + "/");
    Assoc(bucket, basePath, "/");
    Assoc(bucket, basePath + "/", e);
    Assoc(bucket + basePath + "/", e, "/");
  }

  // ----- cleanup.py

  /** An object store that lists page by page.  Its index has an order, given by `rank`; a page is
      the next `pageSize` matching objects after a continuation token, which is a rank. */
  class ObjectStore {
    const rank: Location -> nat
    const pageSize: nat
    var objects: set<Location>

    ghost predicate Valid() {
      pageSize > 0 && forall o, p :: rank(o) == rank(p) ==> o == p
    }

    /** What a listing of `prefix` has still to show after `token`. */
    function Ahead(prefix: Location, token: int): set<Location>
      reads this
    {
      set o | o in objects && Hits(prefix, o) && rank(o) > token
    }

    constructor (rank: Location -> nat, pageSize: nat, objects: set<Location>)
      requires pageSize > 0 && forall o, p :: rank(o) == rank(p) ==> o == p
      ensures Valid() && this.objects == objects
    {
      this.rank, this.pageSize, this.objects := rank, pageSize, objects;
    }

    method First(candidates: set<Location>) returns (first: Location)
      requires candidates != {}
      ensures first in candidates && forall o | o in candidates :: rank(first) <= rank(o)
    {
      first :| first in candidates;
      var rest := candidates - {first};
      while rest != {}
        invariant first in candidates && rest <= candidates
        invariant forall o | o in candidates && o !in rest :: rank(first) <= rank(o)
        decreases rest
      {
        var o :| o in rest;
        if rank(o) < rank(first) {
          first := o;
        }
        rest := rest - {o};
      }
    }

    /** One page: at most `pageSize` objects, everything up to the new token, and whether anything is
        left after it. */
    method ListPage(prefix: Location, after: int) returns (page: set<Location>, token: int, more: bool)
      requires Valid()
      ensures token >= after && page == Ahead(prefix, after) - Ahead(prefix, token)
      ensures |page| <= pageSize
      ensures more <==> Ahead(prefix, token) != {}
      ensures more ==> page != {}
    {
      page, token := {}, after;
      var rest := Ahead(prefix, after);
      while rest != {} && |page| < pageSize
        invariant token >= after && rest == Ahead(prefix, token) && page == Ahead(prefix, after) - rest
        invariant |page| <= pageSize
        decreases rest
      {
        var o := First(rest);
        page, token := page + {o}, rank(o);
        rest := rest - {o};
      }
      more := rest != {};
    }

    /** `delete_objects`: what the store refuses stays, and the answer that says so is not looked at. */
    method DeleteObjects(page: set<Location>, refused: set<Location>)
      modifies this`objects
      ensures objects == old(objects) - (page - refused)
    {
      objects := objects - (page - refused);
    }

    lemma PageIsMatching(prefix: Location, after: int, token: int, page: set<Location>)
      requires token >= after && page == Ahead(prefix, after) - Ahead(prefix, token)
      ensures page <= objects && (forall o | o in page :: Hits(prefix, o) && rank(o) <= token)
      ensures Ahead(prefix, token) <= Ahead(prefix, after)
      ensures page != {} ==> |Ahead(prefix, token)| < |Ahead(prefix, after)|
      ensures forall o | o in objects && Hits(prefix, o) && rank(o) > after :: o in page || rank(o) > token
    {
      assert |Ahead(prefix, after)| == |page| + |Ahead(prefix, token)|;
    }

    lemma AheadIsSmall(prefix: Location, token: int)
      ensures |Ahead(prefix, token)| <= |objects|
    {
      SubsetIsSmall(Ahead(prefix, token), objects);
    }

    /** The page and delete loop.  `failAt` is the page whose listing or deletion raises `ClientError`,
        and `partly` what the failing deletion has deleted of it; deleting one page does not upset the
        listing of the next. */
    method RemoveFromS3(destination: string, refused: set<Location>, failAt: nat, partly: set<Location>)
      returns (ok: bool)
      requires Valid()
      modifies this`objects
      ensures ok ==> objects == set o | o in old(objects) && (!Hits(ParseS3Path(destination), o) || o in refused)
      ensures objects <= old(objects)
      ensures forall o | o in old(objects) && !Hits(ParseS3Path(destination), o) :: o in objects
      ensures failAt > |old(objects)| ==> ok
    {
      var prefix := ParseS3Path(destination);
      hide ParseS3Path, Hits;
      AheadIsSmall(prefix, -1);
      var token, more, pages := -1, true, 0;
      while more
        invariant objects <= old(objects)
        invariant forall o | o in old(objects) && (!Hits(prefix, o) || o in refused) :: o in objects
        invariant forall o | o in objects && Hits(prefix, o) :: rank(o) > token || o in refused
        invariant !more ==> Ahead(prefix, token) == {}
        invariant more ==> pages + |Ahead(prefix, token)| <= |old(objects)|
        decreases |Ahead(prefix, token)| + if more then 1 else 0
      {
        var after := token;
        var page;
        page, token, more := ListPage(prefix, token);
        PageIsMatching(prefix, after, token, page);
        ghost var left := Ahead(prefix, token);
        if pages == failAt {
          objects := objects - page * partly;
          return false;
        }
        if page != {} {
          DeleteObjects(page, refused);
        }
        assert Ahead(prefix, token) == left;
        pages := pages + 1;
      }
      assert forall o | o in objects && Hits(prefix, o) && rank(o) > token :: o in Ahead(prefix, token);
      ok := true;
    }

    /** A destination that is not in S3 is a local directory: no object changes, and the outcome is
        that of the local removal. */
    method RemoveDirectory(
        destination: string, refused: set<Location>, failAt: nat, partly: set<Location>, localOk: bool)
      returns (ok: bool)
      requires Valid()
      modifies this`objects
      ensures objects <= old(objects)
      ensures StartsWithScheme(destination) ==>
        && (ok ==> objects == set o | o in old(objects) && (!Hits(ParseS3Path(destination), o) || o in refused))
        && (forall o | o in old(objects) && !Hits(ParseS3Path(destination), o) :: o in objects)
        && (failAt > |old(objects)| ==> ok)
      ensures !StartsWithScheme(destination) ==> objects == old(objects) && ok == localOk
    {
      if StartsWithScheme(destination) {
        ok := RemoveFromS3(destination, refused, failAt, partly);
      } else {
        ok := localOk;
      }
    }
  }

  lemma SubsetIsSmall(a: set<Location>, b: set<Location>)
    requires a <= b
    ensures |a| <= |b|
  {
    assert b == a + (b - a);
    assert |b| == |a| + |b - a|;
  }

  lemma CleanupStartsWithScheme(bucket: string, basePath: string, e: string)
    ensures StartsWithScheme(CleanupPath(bucket, basePath, e))
  {
    assert CleanupPath(bucket, basePath, e)[..5] == SCHEME;
  }

  /** The whole cleanup of an export: of all archives written under the same bucket and base path,
      exactly its own go, except what the store refuses to delete. */
  method CleanUpExport(
      store: ObjectStore, bucket: string, basePath: string, exportName: string, refused: set<Location>, failAt: nat,
      partly: set<Location>)
    returns (ok: bool)
    requires IsExportName(exportName) && store.Valid()
    modifies store`objects
    ensures failAt > |old(store.objects)| ==> ok
    ensures ok ==> forall e, fullName | IsExportName(e) ::
      var archive := ParseS3Path(ArchivePath(bucket, basePath, e, fullName));
      archive in store.objects <==> archive in old(store.objects) && (e != exportName || archive in refused)
  {
    var path := CleanupPath(bucket, basePath, exportName);
    CleanupStartsWithScheme(bucket, basePath, exportName);
    ok := store.RemoveDirectory(path, refused, failAt, partly, true);
    forall e, fullName | IsExportName(e)
      ensures Hits(ParseS3Path(path), ParseS3Path(ArchivePath(bucket, basePath, e, fullName))) <==> exportName == e
    {
      CleanupCoversAndIsolates(bucket, basePath, exportName, e, fullName);
    }
    hide ParseS3Path, ArchivePath, Hits;
  }
}
