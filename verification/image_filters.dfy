/** The discovery filters of internal/shared/definitions.go and the chain that
    `listImagesInCluster` builds from them. */
module ImageFilters {
  import opened ContainerNames
  import opened Sequences

  // ----- strings

  /** `strings.ToLower`: every character on its own, by `fold`, the lower case of the character. */
  function Lower(s: string, fold: char -> char): string {
    seq(|s|, i requires 0 <= i < |s| => fold(s[i]))
  }

  predicate OccursAt(s: string, sub: string, i: nat) {
    sub <= s[if i <= |s| then i else |s|..]
  }

  predicate Contains(s: string, sub: string) {
    exists i: nat | 0 <= i <= |s| :: OccursAt(s, sub, i)
  }

  predicate Mentions(c: Container, word: string, fold: char -> char) {
    Contains(Lower(c.image, fold), Lower(word, fold))
  }

  // ----- what the filters mean

  predicate MentionsAny(c: Container, words: seq<string>, fold: char -> char) {
    exists i | 0 <= i < |words| :: Mentions(c, words[i], fold)
  }

  function Filter(list: seq<Container>, p: Container -> bool): seq<Container> {
    if list == [] then []
    else
      var last := |list| - 1;
      Filter(list[..last], p) + if p(list[last]) then [list[last]] else []
  }

  /** The elements of `list` at the positions where they occur for the first time, in order. */
  function FirstOccurrences(list: seq<Container>): seq<Container> {
    if list == [] then []
    else
      var last := |list| - 1;
      FirstOccurrences(list[..last]) + if list[last] in list[..last] then [] else [list[last]]
  }

  function Repeat(c: Container, n: nat): seq<Container> {
    seq(n, _ => c)
  }

  function CountIn(namespace: string, namespaces: seq<string>): nat {
    if namespaces == [] then 0
    else
      var last := |namespaces| - 1;
      CountIn(namespace, namespaces[..last]) + if namespaces[last] == namespace then 1 else 0
  }

  /** The namespace filter has no `break`: a container appears once per matching entry. */
  function InNamespaces(list: seq<Container>, namespaces: seq<string>): seq<Container> {
    if list == [] then []
    else
      var last := |list| - 1;
      InNamespaces(list[..last], namespaces) + Repeat(list[last], CountIn(list[last].imageNamespace, namespaces))
  }

  // ----- the loops

  method RemoveDuplicates(list: seq<Container>) returns (result: seq<Container>)
    ensures result == FirstOccurrences(list)
  {
    var encountered: map<Container, bool> := map[];
    result := [];
    for v := 0 to |list|
      invariant result == FirstOccurrences(list[..v])
      invariant forall c :: c in encountered <==> c in list[..v]
      invariant forall c | c in encountered :: encountered[c]
    {
      assert list[..v+1][..v] == list[..v];
      if !(list[v] in encountered && encountered[list[v]]) {
        encountered := encountered[list[v] := true];
        result := result + [list[v]];
      }
    }
    assert list[..|list|] == list;
  }

  method MatchesAny(c: Container, words: seq<string>, fold: char -> char) returns (found: bool)
    ensures found <==> MentionsAny(c, words, fold)
  {
    for i := 0 to |words|
      invariant forall j | 0 <= j < i :: !Mentions(c, words[j], fold)
    {
      if Mentions(c, words[i], fold) {
        return true;
      }
    }
    found := false;
  }

  method RemoveExcludedImages(list: seq<Container>, excludes: seq<string>, fold: char -> char)
    returns (result: seq<Container>)
    ensures result == Filter(list, c => !MentionsAny(c, excludes, fold))
  {
    ghost var p := (c: Container) => !MentionsAny(c, excludes, fold);
    result := [];
    for v := 0 to |list|
      invariant result == Filter(list[..v], p)
    {
      assert list[..v+1][..v] == list[..v];
      var excluded := MatchesAny(list[v], excludes, fold);
      if !excluded {
        result := result + [list[v]];
      }
    }
    assert list[..|list|] == list;
  }

  method IncludeOnlyImages(list: seq<Container>, includes: seq<string>, fold: char -> char)
    returns (result: seq<Container>)
    ensures result == Filter(list, c => MentionsAny(c, includes, fold))
  {
    ghost var p := (c: Container) => MentionsAny(c, includes, fold);
    result := [];
    for v := 0 to |list|
      invariant result == Filter(list[..v], p)
    {
      assert list[..v+1][..v] == list[..v];
      var included := MatchesAny(list[v], includes, fold);
      if included {
        result := result + [list[v]];
      }
    }
    assert list[..|list|] == list;
  }

  method FilterOnlyFromNamespaces(list: seq<Container>, namespaces: seq<string>) returns (result: seq<Container>)
    ensures result == InNamespaces(list, namespaces)
  {
    result := [];
    for v := 0 to |list|
      invariant result == InNamespaces(list[..v], namespaces)
    {
      assert list[..v+1][..v] == list[..v];
      ghost var before := result;
      for i := 0 to |namespaces|
        invariant result == before + Repeat(list[v], CountIn(list[v].imageNamespace, namespaces[..i]))
      {
        assert namespaces[..i+1][..i] == namespaces[..i];
        if list[v].imageNamespace == namespaces[i] {
          result := result + [list[v]];
        }
      }
      assert namespaces[..|namespaces|] == namespaces;
    }
    assert list[..|list|] == list;
  }

  method FilterOutWholeNamespaces(list: seq<Container>, namespaces: seq<string>) returns (result: seq<Container>)
    ensures result == Filter(list, (c: Container) => c.imageNamespace !in namespaces)
  {
    ghost var p := (c: Container) => c.imageNamespace !in namespaces;
    result := [];
    for v := 0 to |list|
      invariant result == Filter(list[..v], p)
    {
      assert list[..v+1][..v] == list[..v];
      var excluded := false;
      for i := 0 to |namespaces|
        invariant excluded <==> list[v].imageNamespace in namespaces[..i]
      {
        if list[v].imageNamespace == namespaces[i] {
          excluded := true;
          break;
        }
      }
      if !excluded {
        result := result + [list[v]];
      }
    }
    assert list[..|list|] == list;
  }

  // ----- the chain

  datatype Selection = Selection(
    includes: seq<string>, excludes: seq<string>, namespaces: seq<string>, excludedNamespaces: seq<string>)

  /** What an export's selection asks of a container. */
  predicate Wanted(c: Container, sel: Selection, fold: char -> char) {
    && (sel.includes == [] || MentionsAny(c, sel.includes, fold))
    && !MentionsAny(c, sel.excludes, fold)
    && (sel.namespaces == [] || c.imageNamespace in sel.namespaces)
    && c.imageNamespace !in sel.excludedNamespaces
  }

  /** The specification of the chain: each wanted container once, where it first occurs. */
  function Selected(list: seq<Container>, sel: Selection, fold: char -> char): seq<Container> {
    FirstOccurrences(Filter(list, c => Wanted(c, sel, fold)))
  }

  lemma {:induction false} FilterTwice(
      list: seq<Container>, p: Container -> bool, q: Container -> bool, both: Container -> bool)
    requires forall c :: both(c) <==> p(c) && q(c)
    ensures Filter(Filter(list, p), q) == Filter(list, both)
  {
    if list != [] {
      var last := |list| - 1;
      FilterTwice(list[..last], p, q, both);
      var kept := Filter(list[..last], p);
      if p(list[last]) {
        assert (kept + [list[last]])[..|kept|] == kept;
      } else {
        assert kept + [] == kept;
      }
    }
  }

  lemma FilterNext(s: seq<Container>, c: Container, q: Container -> bool)
    ensures Filter(s + [c], q) == if q(c) then Filter(s, q) + [c] else Filter(s, q)
  {
    FrontOfSum(s, c);
    EmptySum(Filter(s, q));
  }

  lemma {:induction false} FilterAll(list: seq<Container>, p: Container -> bool)
    requires forall c | c in list :: p(c)
    ensures Filter(list, p) == list
  {
    if list != [] {
      var front, c := list[..|list|-1], list[|list|-1];
      hide Filter;
      FilterAll(front, p);
      FilterNext(front, c, p);
      assert front + [c] == list;
    }
  }

  lemma {:induction false} FilterMembers(list: seq<Container>, p: Container -> bool)
    ensures forall c :: c in Filter(list, p) <==> c in list && p(c)
  {
    if list != [] {
      FilterMembers(list[..|list|-1], p);
      assert list == list[..|list|-1] + [list[|list|-1]];
    }
  }

  lemma {:induction false} FirstOccurrencesMembers(list: seq<Container>)
    ensures forall c :: c in FirstOccurrences(list) <==> c in list
  {
    if list != [] {
      FirstOccurrencesMembers(list[..|list|-1]);
      assert list == list[..|list|-1] + [list[|list|-1]];
    }
  }

  lemma {:induction false} FirstOccurrencesRepeat(list: seq<Container>, c: Container, n: nat)
    ensures FirstOccurrences(list + Repeat(c, n)) == FirstOccurrences(list + if n == 0 then [] else [c])
  {
    if n <= 1 {
      assert Repeat(c, n) == if n == 0 then [] else [c];
    } else {
      FirstOccurrencesRepeat(list, c, n - 1);
      assert list + Repeat(c, n) == (list + Repeat(c, n - 1)) + [c];
      assert Repeat(c, n - 1)[0] == c;
      assert (list + Repeat(c, n))[..|list| + n - 1] == list + Repeat(c, n - 1);
    }
  }

  /** Only the elements matter to what follows: replacing a front part by another with the same
      first occurrences changes nothing. */
  lemma FirstOccurrencesAppend(a: seq<Container>, b: seq<Container>, c: Container)
    requires FirstOccurrences(a) == FirstOccurrences(b)
    ensures FirstOccurrences(a + [c]) == FirstOccurrences(b + [c])
  {
    FirstOccurrencesMembers(a);
    FirstOccurrencesMembers(b);
    assert (a + [c])[..|a|] == a && (b + [c])[..|b|] == b;
    assert c in a <==> c in FirstOccurrences(a);
    assert c in b <==> c in FirstOccurrences(b);
  }

  lemma {:induction false} CountIsMembership(namespace: string, namespaces: seq<string>)
    ensures CountIn(namespace, namespaces) > 0 <==> namespace in namespaces
  {
    if namespaces != [] {
      CountIsMembership(namespace, namespaces[..|namespaces|-1]);
      assert namespaces == namespaces[..|namespaces|-1] + [namespaces[|namespaces|-1]];
    }
  }

  /** The repeats of the namespace filter disappear, and nothing else does. */
  lemma {:induction false} RepeatsDisappear(list: seq<Container>, namespaces: seq<string>, p: Container -> bool)
    requires forall c: Container :: p(c) <==> c.imageNamespace in namespaces
    ensures FirstOccurrences(InNamespaces(list, namespaces)) == FirstOccurrences(Filter(list, p))
  {
    if list != [] {
      var last := |list| - 1;
      var c := list[last];
      var n := CountIn(c.imageNamespace, namespaces);
      RepeatsDisappear(list[..last], namespaces, p);
      CountIsMembership(c.imageNamespace, namespaces);
      var a, b := InNamespaces(list[..last], namespaces), Filter(list[..last], p);
      FirstOccurrencesRepeat(a, c, n);
      if n > 0 {
        FirstOccurrencesAppend(a, b, c);
      } else {
        assert a + [] == a && b + [] == b;
      }
    }
  }

  /** A later filter does not see the repeats either. */
  lemma {:induction false} FilterInNamespaces(list: seq<Container>, namespaces: seq<string>, q: Container -> bool)
    ensures Filter(InNamespaces(list, namespaces), q) == InNamespaces(Filter(list, q), namespaces)
  {
    if list != [] {
      var last := |list| - 1;
      var c := list[last];
      var n := CountIn(c.imageNamespace, namespaces);
      FilterInNamespaces(list[..last], namespaces, q);
      FilterRepeat(InNamespaces(list[..last], namespaces), c, n, q);
      var kept := Filter(list[..last], q);
      if q(c) {
        assert (kept + [c])[..|kept|] == kept;
      } else {
        assert kept + [] == kept;
      }
    }
  }

  lemma RepeatNext(a: seq<Container>, c: Container, n: nat)
    requires n > 0
    ensures a + Repeat(c, n) == (a + Repeat(c, n - 1)) + [c]
  {
    assert Repeat(c, n) == Repeat(c, n - 1) + [c];
    Assoc(a, Repeat(c, n - 1), [c]);
  }

  lemma {:induction false} FilterRepeat(a: seq<Container>, c: Container, n: nat, q: Container -> bool)
    ensures Filter(a + Repeat(c, n), q) == if q(c) then Filter(a, q) + Repeat(c, n) else Filter(a, q)
    decreases n
  {
    if n == 0 {
      assert Repeat(c, n) == [];
      EmptySum(a);
      EmptySum(Filter(a, q));
    } else {
      hide Filter, Repeat;
      FilterRepeat(a, c, n - 1, q);
      RepeatNext(a, c, n);
      FilterNext(a + Repeat(c, n - 1), c, q);
      RepeatNext(Filter(a, q), c, n);
    }
  }

  /** `listImagesInCluster` after the four listings: the staged filters and the final dedup
      select exactly what one pass over the whole condition selects. */
  method SelectImages(all: seq<Container>, sel: Selection, fold: char -> char) returns (list: seq<Container>)
    ensures list == Selected(all, sel, fold)
  {
    list := all;
    var p1 := (c: Container) => sel.includes == [] || MentionsAny(c, sel.includes, fold);
    var p2 := (c: Container) => p1(c) && !MentionsAny(c, sel.excludes, fold);
    var p3 := (c: Container) => p2(c) && c.imageNamespace !in sel.excludedNamespaces;
    var inNs := (c: Container) => sel.namespaces == [] || c.imageNamespace in sel.namespaces;
    var wanted := (c: Container) => Wanted(c, sel, fold);
    if |sel.includes| > 0 {
      list := IncludeOnlyImages(list, sel.includes, fold);
    }
    assert list == Filter(all, p1)
        by { FilterStage(all, sel.includes == [], p1, c => MentionsAny(c, sel.includes, fold)); }
    if |sel.excludes| > 0 {
      list := RemoveExcludedImages(list, sel.excludes, fold);
    }
    assert list == Filter(all, p2) by {
      var p := (c: Container) => !MentionsAny(c, sel.excludes, fold);
      FilterStage(Filter(all, p1), sel.excludes == [], p, p);
      FilterTwice(all, p1, c => !MentionsAny(c, sel.excludes, fold), p2);
    }
    if |sel.namespaces| > 0 {
      list := FilterOnlyFromNamespaces(list, sel.namespaces);
    }
    if |sel.excludedNamespaces| > 0 {
      list := FilterOutWholeNamespaces(list, sel.excludedNamespaces);
    }
    ghost var q := (c: Container) => c.imageNamespace !in sel.excludedNamespaces;
    assert list == if sel.namespaces == [] then Filter(all, p3) else InNamespaces(Filter(all, p3), sel.namespaces) by {
      FilterStage(Filter(all, p2), sel.excludedNamespaces == [], q, q);
      FilterStage(InNamespaces(Filter(all, p2), sel.namespaces), sel.excludedNamespaces == [], q, q);
      FilterTwice(all, p2, q, p3);
      FilterInNamespaces(Filter(all, p2), sel.namespaces, q);
    }
    list := RemoveDuplicates(list);
    assert list == FirstOccurrences(Filter(Filter(all, p3), inNs)) by {
      if sel.namespaces == [] {
        FilterAll(Filter(all, p3), inNs);
      } else {
        RepeatsDisappear(Filter(all, p3), sel.namespaces, inNs);
      }
    }
    FilterTwice(all, p3, inNs, wanted);
  }

  /** A stage that is skipped is a filter that keeps everything. */
  lemma FilterStage(list: seq<Container>, skipped: bool, stage: Container -> bool, p: Container -> bool)
    requires skipped ==> forall c :: stage(c)
    requires !skipped ==> forall c :: stage(c) <==> p(c)
    ensures Filter(list, stage) == if skipped then list else Filter(list, p)
  {
    if skipped {
      FilterAll(list, stage);
    } else {
      FilterTwice(list, p, c => true, stage);
      FilterAll(Filter(list, p), c => true);
    }
  }

  // ----- what is wanted, character by character

  /** The word is in the image, letter case aside: at some place every character agrees. */
  lemma MentionsIff(c: Container, word: string, fold: char -> char)
    ensures Mentions(c, word, fold) <==> exists i: nat :: AgreesAt(c.image, word, i, fold)
  {
    var s, sub := Lower(c.image, fold), Lower(word, fold);
    forall i: nat | i <= |c.image|
      ensures OccursAt(s, sub, i) <==> AgreesAt(c.image, word, i, fold)
    {
      OccursIff(c.image, word, i, fold);
    }
    hide OccursAt, Lower;
    if i: nat :| AgreesAt(c.image, word, i, fold) {
      assert OccursAt(s, sub, i);
    }
  }

  lemma OccursIff(image: string, word: string, i: nat, fold: char -> char)
    requires i <= |image|
    ensures |Lower(image, fold)| == |image|
    ensures OccursAt(Lower(image, fold), Lower(word, fold), i) <==> AgreesAt(image, word, i, fold)
  {
    var s, sub := Lower(image, fold), Lower(word, fold);
    var tail := s[i..];
    assert OccursAt(s, sub, i) <==> sub <= tail;
    assert forall j | 0 <= j < |tail| :: tail[j] == fold(image[i + j]);
    assert forall j | 0 <= j < |sub| :: sub[j] == fold(word[j]);
    if AgreesAt(image, word, i, fold) {
      assert tail[..|sub|] == sub;
    }
    if sub <= tail {
      assert forall j | 0 <= j < |sub| :: tail[j] == sub[j];
    }
  }

  predicate AgreesAt(image: string, word: string, i: nat, fold: char -> char) {
    i + |word| <= |image| && forall j | 0 <= j < |word| :: fold(image[i + j]) == fold(word[j])
  }

  ghost predicate Names(image: string, words: seq<string>, fold: char -> char) {
    exists word, i: nat :: word in words && AgreesAt(image, word, i, fold)
  }

  /** What an export asks for, in terms of the lists it gives: an empty list of includes or of namespaces
      asks for everything, an empty list of excludes takes nothing away. */
  lemma SelectedIff(list: seq<Container>, sel: Selection, fold: char -> char, c: Container)
    ensures c in Selected(list, sel, fold) <==>
      && c in list
      && (sel.includes == [] || Names(c.image, sel.includes, fold))
      && !Names(c.image, sel.excludes, fold)
      && (sel.namespaces == [] || c.imageNamespace in sel.namespaces)
      && c.imageNamespace !in sel.excludedNamespaces
  {
    SelectedOnce(list, sel, fold);
    MentionsAnyIff(c, sel.includes, fold);
    MentionsAnyIff(c, sel.excludes, fold);
    hide Selected, MentionsAny, Names;
  }

  lemma MentionsAnyIff(c: Container, words: seq<string>, fold: char -> char)
    ensures MentionsAny(c, words, fold) <==> Names(c.image, words, fold)
  {
    forall word | word in words
      ensures Mentions(c, word, fold) <==> exists i: nat :: AgreesAt(c.image, word, i, fold)
    {
      MentionsIff(c, word, fold);
    }
    hide Mentions, AgreesAt;
  }

  /** The namespace filter repeats a container as often as its list repeats the namespace. */
  lemma {:induction false} CountIsMultiplicity(namespace: string, namespaces: seq<string>)
    ensures CountIn(namespace, namespaces) == multiset(namespaces)[namespace]
  {
    if namespaces != [] {
      var front, last := namespaces[..|namespaces|-1], namespaces[|namespaces|-1];
      CountIsMultiplicity(namespace, front);
      assert namespaces == front + [last];
      assert multiset(namespaces) == multiset(front) + multiset{last};
    }
  }

  /** A container comes through once for each of its occurrences and each entry that matches it. */
  lemma {:induction false} FilteredMultiplicity(list: seq<Container>, namespaces: seq<string>, c: Container)
    ensures multiset(InNamespaces(list, namespaces))[c] == multiset(list)[c] * multiset(namespaces)[c.imageNamespace]
  {
    if list != [] {
      var front, last := list[..|list|-1], list[|list|-1];
      FilteredMultiplicity(front, namespaces, c);
      OneMoreFiltered(front, last, namespaces, c);
      assert list == front + [last];
      var before, after := multiset(InNamespaces(front, namespaces))[c], multiset(InNamespaces(list, namespaces))[c];
      hide *;
      OneMoreTimes(before, after, multiset(front)[c], multiset(list)[c], multiset(namespaces)[c.imageNamespace]);
    }
  }

  lemma OneMoreTimes(x: nat, x': nat, n: nat, n': nat, m: nat)
    requires x == n * m && ((n' == n && x' == x) || (n' == n + 1 && x' == x + m))
    ensures x' == n' * m
  {
  }

  lemma OneMoreFiltered(front: seq<Container>, last: Container, namespaces: seq<string>, c: Container)
    ensures multiset(InNamespaces(front + [last], namespaces))[c]
         == multiset(InNamespaces(front, namespaces))[c]
            + if c == last then multiset(namespaces)[c.imageNamespace] else 0
    ensures multiset(front + [last])[c] == multiset(front)[c] + if c == last then 1 else 0
  {
    var n := CountIn(last.imageNamespace, namespaces);
    FrontOfSum(front, last);
    assert InNamespaces(front + [last], namespaces) == InNamespaces(front, namespaces) + Repeat(last, n);
    hide InNamespaces, CountIn;
    CountIsMultiplicity(last.imageNamespace, namespaces);
    RepeatMultiplicity(last, n, c);
    hide Repeat;
    MultiplicityOfSum(InNamespaces(front, namespaces), Repeat(last, n), c);
    MultiplicityOfSum(front, [last], c);
  }

  lemma MultiplicityOfSum(a: seq<Container>, b: seq<Container>, c: Container)
    ensures multiset(a + b)[c] == multiset(a)[c] + multiset(b)[c]
  {
  }

  lemma {:induction false} RepeatMultiplicity(c: Container, n: nat, d: Container)
    ensures multiset(Repeat(c, n))[d] == if d == c then n else 0
    decreases n
  {
    if n > 0 {
      RepeatMultiplicity(c, n - 1, d);
      assert Repeat(c, n) == Repeat(c, n - 1) + [c];
    }
  }

  // ----- the specification, characterised

  /** Where each kept container comes from: positions in increasing order, each the first place
      its value occurs. */
  ghost predicate IsFirstOccurrences(list: seq<Container>, result: seq<Container>, at: seq<nat>) {
    && |at| == |result|
    && (forall i | 0 <= i < |at| :: at[i] < |list| && list[at[i]] == result[i] && result[i] !in list[..at[i]])
    && (forall i, j | 0 <= i < j < |at| :: at[i] < at[j])
    && (forall c | c in list :: c in result)
  }

  lemma OnePlaceMore(rest: seq<Container>, c: Container, result: seq<Container>, at: seq<nat>)
    requires IsFirstOccurrences(rest, result, at)
    ensures c in rest ==> IsFirstOccurrences(rest + [c], result, at)
    ensures c !in rest ==> IsFirstOccurrences(rest + [c], result + [c], at + [|rest|])
  {
    var list := rest + [c];
    forall i | 0 <= i < |at|
      ensures list[..at[i]] == rest[..at[i]] && list[at[i]] == rest[at[i]]
    {
    }
    assert list[..|rest|] == rest;
  }

  lemma {:induction false} FirstOccurrencesAreFirst(list: seq<Container>) returns (at: seq<nat>)
    ensures IsFirstOccurrences(list, FirstOccurrences(list), at)
  {
    if list == [] {
      at := [];
    } else {
      var rest, c := list[..|list|-1], list[|list|-1];
      var before := FirstOccurrencesAreFirst(rest);
      OnePlaceMore(rest, c, FirstOccurrences(rest), before);
      hide IsFirstOccurrences;
      assert list == rest + [c];
      assert FirstOccurrences(rest) + [] == FirstOccurrences(rest);
      at := if c in rest then before else before + [|rest|];
    }
  }

  /** No container is selected twice. */
  lemma SelectedOnce(list: seq<Container>, sel: Selection, fold: char -> char)
    ensures var r := Selected(list, sel, fold); forall i, j | 0 <= i < j < |r| :: r[i] != r[j]
    ensures forall c :: c in Selected(list, sel, fold) <==> c in list && Wanted(c, sel, fold)
  {
    var kept := Filter(list, c => Wanted(c, sel, fold));
    var at := FirstOccurrencesAreFirst(kept);
    var r := Selected(list, sel, fold);
    forall i, j | 0 <= i < j < |r|
      ensures r[i] != r[j]
    {
      assert kept[..at[j]][at[i]] == r[i];
    }
    FilterMembers(list, c => Wanted(c, sel, fold));
    FirstOccurrencesMembers(kept);
  }
}
