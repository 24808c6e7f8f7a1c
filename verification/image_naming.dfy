/** Archive names: `NormalizeImageName` of internal/shared/definitions.go.

    The code makes three passes over a name (replace, collapse, trim).  The reference
    definition here is different: cut the name into its words and join them with hyphens. */
module ImageNaming {
  import opened Sequences


  /** The class of `imageNameRegexp`; its `\s` is Go's: space, tab, newline, form feed, return. */
  predicate IsSpecial(c: char) {
    c in "/:@&=+$,?%{}[]\\^~#" || c in " \t\n\r\U{000C}"
  }

  predicate IsSeparator(c: char) {
    IsSpecial(c) || c == '-'
  }

  // ----- the code's three passes

  function Replace(s: string): string {
    if s == "" then "" else [if IsSpecial(s[0]) then '-' else s[0]] + Replace(s[1..])
  }

  function Collapse(s: string): string {
    if s == "" then ""
    else if s[0] == '-' && |s| > 1 && s[1] == '-' then Collapse(s[1..])
    else [s[0]] + Collapse(s[1..])
  }

  function TrimLeft(s: string): string {
    if s != "" && s[0] == '-' then TrimLeft(s[1..]) else s
  }

  function TrimRight(s: string): string {
    if s != "" && s[|s|-1] == '-' then TrimRight(s[..|s|-1]) else s
  }

  function NormalizeImageName(name: string): string {
    TrimRight(TrimLeft(Collapse(Replace(name))))
  }

  // ----- the reference definition

  function WordLength(s: string): (n: nat)
    ensures n <= |s|
  {
    if s == "" || IsSeparator(s[0]) then 0 else 1 + WordLength(s[1..])
  }

  /** The maximal separator-free stretches of `s`, in order. */
  function Words(s: string): seq<string> {
    if s == "" then []
    else if IsSeparator(s[0]) then Words(s[1..])
    else var n := WordLength(s); [s[..n]] + Words(s[n..])
  }

  function Join(words: seq<string>): string {
    if words == [] then ""
    else if |words| == 1 then words[0]
    else words[0] + "-" + Join(words[1..])
  }

  predicate IsWord(w: string) {
    w != "" && forall c | c in w :: !IsSeparator(c)
  }

  /** No special character, no two hyphens in a row, no hyphen at either end. */
  predicate IsClean(s: string) {
    && (forall c | c in s :: !IsSpecial(c))
    && (forall i | 0 < i < |s| :: !(s[i-1] == '-' && s[i] == '-'))
    && (s != "" ==> s[0] != '-' && s[|s|-1] != '-')
  }

  // ----- the passes compute the reference definition

  lemma {:induction false} WordsAreWords(s: string)
    ensures forall w | w in Words(s) :: IsWord(w)
  {
    if s == "" {
    } else if IsSeparator(s[0]) {
      WordsAreWords(s[1..]);
    } else {
      WordIsSeparatorFree(s);
      WordsAreWords(s[WordLength(s)..]);
    }
  }

  lemma {:induction false} WordIsSeparatorFree(s: string)
    ensures forall c | c in s[..WordLength(s)] :: !IsSeparator(c)
    ensures WordLength(s) < |s| ==> IsSeparator(s[WordLength(s)])
  {
    if s != "" && !IsSeparator(s[0]) {
      WordIsSeparatorFree(s[1..]);
      assert s[..WordLength(s)] == [s[0]] + s[1..][..WordLength(s[1..])];
    }
  }

  /** A leading word passes through unchanged. */
  lemma {:induction false} CollapseKeepsWord(s: string)
    ensures var n := WordLength(s); Collapse(Replace(s)) == s[..n] + Collapse(Replace(s[n..]))
  {
    if s == "" || IsSeparator(s[0]) {
      assert s[0..] == s;
    } else {
      CollapseKeepsWord(s[1..]);
      var n := WordLength(s);
      var r := Replace(s);
      assert r[1..] == Replace(s[1..]);
      assert s[..n] == [s[0]] + s[1..][..n-1];
      assert s[n..] == s[1..][n-1..];
    }
  }

  /** Leading separators become one hyphen, which the trim then drops. */
  lemma {:induction false} CollapseSeparators(t: string)
    requires t != "" && IsSeparator(t[0])
    ensures Collapse(Replace(t)) == "-" + TrimLeft(Collapse(Replace(t)))
    ensures TrimLeft(Collapse(Replace(t))) == TrimLeft(Collapse(Replace(t[1..])))
  {
    var u := t[1..];
    assert Replace(t)[1..] == Replace(u);
    if u != "" && IsSeparator(u[0]) {
      CollapseSeparators(u);
      assert Replace(u)[0] == '-';
    } else {
      assert Collapse(Replace(t)) == "-" + Collapse(Replace(u));
      assert Collapse(Replace(t))[1..] == Collapse(Replace(u));
    }
  }

  lemma {:induction false} TrimRightAppend(a: string, b: string)
    ensures TrimRight(a + b) == if TrimRight(b) != "" then a + TrimRight(b) else TrimRight(a)
    decreases |b|
  {
    if b == "" {
      assert a + b == a;
    } else if b[|b|-1] == '-' {
      assert (a + b)[..|a + b| - 1] == a + b[..|b|-1];
      TrimRightAppend(a, b[..|b|-1]);
    }
  }

  lemma JoinIsEmpty(words: seq<string>)
    requires forall w | w in words :: IsWord(w)
    ensures Join(words) == "" <==> words == []
  {
    if words != [] {
      assert words[0] in words;
    }
  }

  /** A word and what the passes leave of the rest, trimmed. */
  lemma TrimWord(w: string, rest: string)
    requires IsWord(w)
    ensures TrimLeft(w + rest) == w + rest
    ensures TrimRight(w) == w
    ensures TrimRight(w + "-" + rest) == if TrimRight(rest) == "" then w else w + "-" + TrimRight(rest)
  {
    assert w[0] in w && w[|w|-1] in w;
    TrimRightAppend(w + "-", rest);
    assert (w + "-")[..|w|] == w;
  }

  lemma LeadingWord(s: string)
    requires s != "" && !IsSeparator(s[0])
    ensures IsWord(s[..WordLength(s)])
    ensures s[WordLength(s)..] != "" ==> IsSeparator(s[WordLength(s)..][0])
  {
    WordIsSeparatorFree(s);
  }

  lemma TrimNothing()
    ensures TrimRight(TrimLeft("")) == ""
  {
  }

  lemma TrimAfterWord(w: string, c: string)
    requires IsWord(w) && (c == "" || c == "-" + TrimLeft(c))
    ensures var rest := TrimRight(TrimLeft(c));
      TrimRight(TrimLeft(w + c)) == if rest == "" then w else w + "-" + rest
  {
    hide *;
    TrimWord(w, c);
    if c == "" {
      EmptySum(w);
      TrimNothing();
    } else {
      var rest := TrimLeft(c);
      TrimWord(w, rest);
      Assoc(w, "-", rest);
    }
  }

  /** The passes over a leading word and the rest. */
  lemma NormalizeWord(s: string)
    requires s != "" && !IsSeparator(s[0])
    ensures var w, t := s[..WordLength(s)], s[WordLength(s)..];
      NormalizeImageName(s) == if NormalizeImageName(t) == "" then w else w + "-" + NormalizeImageName(t)
  {
    var w, t := s[..WordLength(s)], s[WordLength(s)..];
    CollapseKeepsWord(s);
    LeadingWord(s);
    var c := Collapse(Replace(t));
    assert t == "" ==> c == "";
    if t != "" {
      CollapseSeparators(t);
    }
    hide Collapse, Replace, TrimLeft, TrimRight, IsWord, WordLength, IsSeparator;
    TrimAfterWord(w, c);
  }

  lemma {:induction false} NormalizeJoinsWords(s: string)
    ensures NormalizeImageName(s) == Join(Words(s))
  {
    if s == "" {
    } else if IsSeparator(s[0]) {
      CollapseSeparators(s);
      NormalizeJoinsWords(s[1..]);
    } else {
      var n := WordLength(s);
      NormalizeWord(s);
      NormalizeJoinsWords(s[n..]);
      WordsAreWords(s[n..]);
      JoinIsEmpty(Words(s[n..]));
      assert Words(s) == [s[..n]] + Words(s[n..]);
      hide NormalizeImageName, IsWord, Words;
      assert ([s[..n]] + Words(s[n..]))[1..] == Words(s[n..]);
    }
  }

  // ----- what the reference definition gives

  lemma WordIsClean(w: string)
    requires IsWord(w)
    ensures IsClean(w)
  {
    assert forall i | 0 <= i < |w| :: w[i] in w;
  }

  lemma CleanParts(w: string, rest: string)
    requires IsWord(w) && IsClean(rest) && rest != ""
    ensures IsClean(w + "-" + rest)
  {
    WordIsClean(w);
    var s := w + "-" + rest;
    forall i | 0 < i < |s|
      ensures !(s[i-1] == '-' && s[i] == '-')
    {
      if i < |w| {
        assert s[i] == w[i];
      } else if i > |w| + 1 {
        assert s[i-1] == rest[i - |w| - 2] && s[i] == rest[i - |w| - 1];
      }
    }
    forall c | c in s
      ensures !IsSpecial(c)
    {
      assert c in w || c == '-' || c in rest;
    }
  }

  lemma {:induction false} JoinIsClean(words: seq<string>)
    requires forall w | w in words :: IsWord(w)
    ensures IsClean(Join(words))
  {
    if words != [] {
      assert words[0] in words;
      WordIsClean(words[0]);
      if |words| > 1 {
        JoinIsClean(words[1..]);
        JoinIsEmpty(words[1..]);
        CleanParts(words[0], Join(words[1..]));
      }
    }
  }

  lemma {:induction false} WordsOfPrefix(w: string, rest: string)
    requires IsWord(w)
    requires rest == "" || IsSeparator(rest[0])
    ensures Words(w + rest) == [w] + Words(rest)
  {
    WordLengthOf(w, rest);
    assert (w + rest)[0] == w[0];
    assert w[0] in w;
    assert (w + rest)[..|w|] == w;
    assert (w + rest)[|w|..] == rest;
  }

  lemma {:induction false} WordLengthOf(w: string, rest: string)
    requires forall c | c in w :: !IsSeparator(c)
    requires rest == "" || IsSeparator(rest[0])
    ensures WordLength(w + rest) == |w|
  {
    if w == "" {
      assert w + rest == rest;
    } else {
      assert w[0] in w;
      assert (w + rest)[1..] == w[1..] + rest;
      WordLengthOf(w[1..], rest);
    }
  }

  lemma WordsAfterHyphen(rest: string)
    ensures Words("-" + rest) == Words(rest)
  {
    assert ("-" + rest)[1..] == rest;
  }

  lemma {:induction false} WordsOfJoin(words: seq<string>)
    requires forall w | w in words :: IsWord(w)
    ensures Words(Join(words)) == words
  {
    if words == [] {
    } else if |words| == 1 {
      WordsOfPrefix(words[0], "");
      hide Words, IsWord;
      assert words[0] + "" == words[0];
      assert Words("") == [] by { WordsOfNothing(); }
    } else {
      var rest := Join(words[1..]);
      WordsOfJoin(words[1..]);
      WordsOfPrefix(words[0], "-" + rest);
      WordsAfterHyphen(rest);
      hide Words, IsWord;
      assert Join(words) == words[0] + ("-" + rest);
    }
  }

  lemma WordsOfNothing()
    ensures Words("") == []
  {
  }

  /** The name is clean, a second pass changes nothing, and two images share an archive name
      exactly when they have the same words. */
  lemma NormalizedNames(a: string, b: string)
    ensures IsClean(NormalizeImageName(a))
    ensures NormalizeImageName(NormalizeImageName(a)) == NormalizeImageName(a)
    ensures NormalizeImageName(a) == NormalizeImageName(b) <==> Words(a) == Words(b)
  {
    NormalizeJoinsWords(a);
    NormalizeJoinsWords(b);
    WordsAreWords(a);
    WordsAreWords(b);
    JoinIsClean(Words(a));
    WordsOfJoin(Words(a));
    WordsOfJoin(Words(b));
    NormalizeJoinsWords(Join(Words(a)));
  }

  /** The characters that a name cannot keep, and those it can: a name is left as it is if and only if it
      has none of the class, no two hyphens in a row and no hyphen at an end. */
  lemma UnchangedIff(s: string)
    ensures NormalizeImageName(s) == s <==>
      && (forall c | c in s :: c !in "/:@&=+$,?%{}[]\\^~# \t\n\r\U{000C}")
      && (forall i | 0 < i < |s| :: !(s[i-1] == '-' && s[i] == '-'))
      && (s != "" ==> s[0] != '-' && s[|s|-1] != '-')
  {
    NormalizedNames(s, s);
    assert forall c :: IsSpecial(c) <==> c in "/:@&=+$,?%{}[]\\^~# \t\n\r\U{000C}";
    if IsClean(s) {
      CleanIsUnchanged(s);
    }
    hide NormalizeImageName;
  }

  lemma {:induction false} NothingToReplace(s: string)
    requires forall c | c in s :: !IsSpecial(c)
    ensures Replace(s) == s
  {
    if s != "" {
      assert s[0] in s && forall c | c in s[1..] :: c in s;
      NothingToReplace(s[1..]);
      assert s == [s[0]] + s[1..];
    }
  }

  lemma {:induction false} NothingToCollapse(s: string)
    requires forall i | 0 < i < |s| :: !(s[i-1] == '-' && s[i] == '-')
    ensures Collapse(s) == s
  {
    if s != "" {
      assert |s| > 1 ==> !(s[0] == '-' && s[1] == '-');
      assert forall i | 0 < i < |s[1..]| :: s[1..][i-1] == s[i] && s[1..][i] == s[i+1];
      NothingToCollapse(s[1..]);
      assert s == [s[0]] + s[1..];
    }
  }

  lemma CleanIsUnchanged(s: string)
    requires IsClean(s)
    ensures NormalizeImageName(s) == s
  {
    NothingToReplace(s);
    NothingToCollapse(s);
    hide Replace, Collapse;
  }
}
