/** When the order of the classifications matters to a resolution. */
module ResolverLaws {
  import opened Options
  import opened Sorting
  import opened Classifier
  import opened Resolver

  // ---------------------------------------------------------------- a resolution by place

  /** What the sort looks at: id and confidence. */
  function Keyed(c: Classification): Classification {
    Classification(c.classifier, "", "", false, c.confidence)
  }

  /** Ambiguous, with a fallback among the classifications. */
  predicate FallsBack(sorted: seq<Classification>, t: Thresholds)
    requires sorted != []
  {
    Ambiguous(sorted, t) && Find(sorted, t.fallback).Some?
  }

  function FirstWith(s: seq<Classification>, id: string): (i: nat)
    ensures i <= |s|
    ensures i < |s| ==> s[i].classifier == id
    ensures forall k :: 0 <= k < i ==> s[k].classifier != id
  {
    if s == [] || s[0].classifier == id then 0 else 1 + FirstWith(s[1..], id)
  }

  lemma {:induction false} FindIsFirst(s: seq<Classification>, id: string)
    ensures Find(s, id) == if FirstWith(s, id) < |s| then Some(s[FirstWith(s, id)]) else None
  {
    if s != [] && s[0].classifier != id {
      FindIsFirst(s[1..], id);
    }
  }

  /** The place of the winner in the sorted classifications. */
  function WinnerAt(sorted: seq<Classification>, t: Thresholds): (k: nat)
    requires sorted != []
    ensures k < |sorted|
  {
    FindIsFirst(sorted, t.fallback);
    if FallsBack(sorted, t) then FirstWith(sorted, t.fallback) else 0
  }

  /** The winner as it is reported. */
  function Marked(c: Classification, fallsBack: bool, t: Thresholds): Classification {
    c.(accepted := fallsBack || c.accepted || c.confidence >= t.rejectBelow)
  }

  lemma ResolvedByPlace(sorted: seq<Classification>, t: Thresholds)
    requires sorted != []
    ensures var w, falls := sorted[WinnerAt(sorted, t)], FallsBack(sorted, t);
            ResolveSorted(sorted, t) == Resolution(Some(Marked(w, falls, t)), Without(sorted, w.classifier),
                                                   Ambiguous(sorted, t), falls && t.fallback == GenericMarkdown)
  {
    FindIsFirst(sorted, t.fallback);
  }

  // ---------------------------------------------------------------- places do not depend on the order

  /** The same ids and confidences at the same places. */
  ghost predicate SameKeys(a: seq<Classification>, b: seq<Classification>) {
    |a| == |b| && forall k :: 0 <= k < |a| ==> Keyed(a[k]) == Keyed(b[k])
  }

  lemma SortedKeys(a: seq<Classification>, b: seq<Classification>)
    requires multiset(a) == multiset(b)
    ensures SameKeys(Sort(ClassLe, a), Sort(ClassLe, b))
  {
    var x, y := Map(Keyed, a), Map(Keyed, b);
    MapSort(ClassLe, ClassLe, Keyed, a);
    MapSort(ClassLe, ClassLe, Keyed, b);
    MapPermutes(Keyed, a, b);
    forall c | c in x ensures Keyed(c) == c {}
    SeparatedNoTies(x);
    ClassLeTotal();
    SortIgnoresOrder(ClassLe, x, y);
    var p, q := Sort(ClassLe, a), Sort(ClassLe, b);
    assert |p| == |Map(Keyed, p)| == |Map(Keyed, q)| == |q|;
    forall k | 0 <= k < |p| ensures Keyed(p[k]) == Keyed(q[k]) {
      assert Map(Keyed, p)[k] == Map(Keyed, q)[k];
    }
  }

  lemma {:induction false} SameFirst(a: seq<Classification>, b: seq<Classification>, id: string)
    requires SameKeys(a, b)
    ensures FirstWith(a, id) == FirstWith(b, id)
  {
    if a != [] {
      assert Keyed(a[0]) == Keyed(b[0]);
      SameFirst(a[1..], b[1..], id);
    }
  }

  lemma SamePlaces(a: seq<Classification>, b: seq<Classification>, t: Thresholds)
    requires SameKeys(a, b) && a != []
    ensures WinnerAt(a, t) == WinnerAt(b, t) && FallsBack(a, t) == FallsBack(b, t) && Ambiguous(a, t) == Ambiguous(b, t)
  {
    assert Keyed(a[0]) == Keyed(b[0]);
    assert |a| > 1 ==> Keyed(a[1]) == Keyed(b[1]);
    SameFirst(a, b, t.fallback);
    FindIsFirst(a, t.fallback);
    FindIsFirst(b, t.fallback);
  }

  // ---------------------------------------------------------------- exactly when the order does not matter

  /** Classifications with the same id and confidence are equal when their id is not the winner's; those that
      share the winner's id and confidence are reported alike. */
  ghost predicate OrderFree(s: seq<Classification>, t: Thresholds) {
    s != [] ==>
      var sorted := Sort(ClassLe, s);
      sorted != [] &&
      var w, falls := sorted[WinnerAt(sorted, t)], FallsBack(sorted, t);
      && Separated(Filter(OtherThan(w.classifier), s))
      && forall x, y :: x in s && y in s && Keyed(x) == Keyed(y) == Keyed(w) ==>
                          Marked(x, falls, t) == Marked(y, falls, t)
  }

  ghost predicate ResolvesAlike(s: seq<Classification>, t: Thresholds) {
    forall b :: multiset(b) == multiset(s) ==> Resolve(b, t) == Resolve(s, t)
  }

  lemma SameOthers(a: seq<Classification>, b: seq<Classification>, id: string)
    requires multiset(a) == multiset(b) && Separated(Filter(OtherThan(id), a))
    ensures Without(Sort(ClassLe, a), id) == Without(Sort(ClassLe, b), id)
  {
    var others := OtherThan(id);
    ClassLeTotal();
    WithoutFilters(Sort(ClassLe, a), id);
    WithoutFilters(Sort(ClassLe, b), id);
    FilterSort(ClassLe, others, a);
    FilterSort(ClassLe, others, b);
    FilterPermutes(others, a, b);
    SeparatedNoTies(Filter(others, a));
    SortIgnoresOrder(ClassLe, Filter(others, a), Filter(others, b));
  }

  lemma OrderFreeResolves(a: seq<Classification>, b: seq<Classification>, t: Thresholds)
    requires OrderFree(a, t) && multiset(a) == multiset(b)
    ensures Resolve(a, t) == Resolve(b, t)
  {
    assert |a| == |multiset(a)| == |multiset(b)| == |b|;
    if a != [] {
      var p, q := Sort(ClassLe, a), Sort(ClassLe, b);
      PermutedSorts(a, b);
      SamePlaces(p, q, t);
      ResolvedByPlace(p, t);
      ResolvedByPlace(q, t);
      SameOthers(a, b, p[WinnerAt(p, t)].classifier);
    }
  }

  lemma PermutedSorts(a: seq<Classification>, b: seq<Classification>)
    requires multiset(a) == multiset(b) && a != []
    ensures var p, q := Sort(ClassLe, a), Sort(ClassLe, b);
            && p != [] && SameKeys(p, q)
            && forall k :: 0 <= k < |p| ==> p[k] in a && q[k] in a && Keyed(p[k]) == Keyed(q[k])
  {
    SortedKeys(a, b);
    SortPermutes(ClassLe, a);
    SortPermutes(ClassLe, b);
    var p, q := Sort(ClassLe, a), Sort(ClassLe, b);
    forall k | 0 <= k < |p| ensures p[k] in a && q[k] in a {
      assert p[k] in multiset(p) && q[k] in multiset(q);
    }
  }

  function WithKey(key: Classification): Classification -> bool {
    (c: Classification) => Keyed(c) == Keyed(key)
  }

  /** The same classifications with this one first. */
  lemma MovedFirst(s: seq<Classification>, x: Classification) returns (b: seq<Classification>)
    requires x in s
    ensures multiset(b) == multiset(s) && b != [] && b[0] == x
  {
    var i :| 0 <= i < |s| && s[i] == x;
    b := [x] + (s[..i] + s[i + 1..]);
    RemoveAt(s, i);
  }

  /** Of those with its id and confidence the first in the input is the first when sorted. */
  lemma FirstOfKey(b: seq<Classification>)
    requires b != []
    ensures Filter(WithKey(b[0]), Sort(ClassLe, b)) == Filter(WithKey(b[0]), b)
    ensures Filter(WithKey(b[0]), b) != [] && Filter(WithKey(b[0]), b)[0] == b[0]
  {
    var key := b[0];
    forall x, y | x in b && y in b && WithKey(key)(x) && WithKey(key)(y) ensures ClassLe(x, y) {
      LexTotal(x.classifier, y.classifier);
    }
    SortIsStable(ClassLe, WithKey(key), b);
  }

  lemma {:induction false} FilterOfFilter(p: Classification -> bool, q: Classification -> bool, s: seq<Classification>)
    requires forall c :: p(c) ==> q(c)
    ensures Filter(p, Filter(q, s)) == Filter(p, s)
  {
    if s != [] {
      FilterOfFilter(p, q, s[1..]);
      var kept := Filter(q, s[1..]);
      assert ([s[0]] + kept)[1..] == kept && [] + kept == kept;
      assert [] + Filter(p, s[1..]) == Filter(p, s[1..]);
    }
  }

  lemma {:induction false} FirstFiltered(p: Classification -> bool, s: seq<Classification>, k: nat)
    requires k < |s| && p(s[k]) && forall j :: 0 <= j < k ==> !p(s[j])
    ensures Filter(p, s) != [] && Filter(p, s)[0] == s[k]
  {
    if k > 0 {
      FirstFiltered(p, s[1..], k - 1);
    }
  }

  /** The alternatives tell the first of each id and confidence. */
  lemma AlternativesTell(b: seq<Classification>, id: string)
    requires b != [] && b[0].classifier != id
    ensures Filter(WithKey(b[0]), Without(Sort(ClassLe, b), id)) == Filter(WithKey(b[0]), b)
  {
    WithoutFilters(Sort(ClassLe, b), id);
    FilterOfFilter(WithKey(b[0]), OtherThan(id), Sort(ClassLe, b));
    FirstOfKey(b);
  }

  /** So does the winner for its own. */
  lemma WinnerTells(b: seq<Classification>, t: Thresholds)
    requires b != [] && Sort(ClassLe, b) != []
    requires Keyed(b[0]) == Keyed(Sort(ClassLe, b)[WinnerAt(Sort(ClassLe, b), t)])
    ensures Sort(ClassLe, b)[WinnerAt(Sort(ClassLe, b), t)] == b[0]
  {
    var sorted := Sort(ClassLe, b);
    FirstOfKey(b);
    FirstFiltered(WithKey(b[0]), sorted, WinnerAt(sorted, t));
  }

  lemma OthersSeparated(s: seq<Classification>, t: Thresholds, x: Classification, y: Classification)
    requires ResolvesAlike(s, t) && x in s && y in s && Keyed(x) == Keyed(y)
    requires Sort(ClassLe, s) != [] && x.classifier != Sort(ClassLe, s)[WinnerAt(Sort(ClassLe, s), t)].classifier
    ensures x == y
  {
    var a := MovedFirst(s, x);
    var b := MovedFirst(s, y);
    var id := Sort(ClassLe, s)[WinnerAt(Sort(ClassLe, s), t)].classifier;
    AlternativesOf(s, a, t);
    AlternativesOf(s, b, t);
    AlternativesTell(a, id);
    AlternativesTell(b, id);
    FirstOfKey(a);
    FirstOfKey(b);
    assert Filter(WithKey(x), a) == Filter(WithKey(y), b) by {
      SameKeyFilter(x, y, Without(Sort(ClassLe, a), id));
    }
  }

  lemma {:induction false} SameKeyFilter(x: Classification, y: Classification, s: seq<Classification>)
    requires Keyed(x) == Keyed(y)
    ensures Filter(WithKey(x), s) == Filter(WithKey(y), s)
  {
    if s != [] {
      SameKeyFilter(x, y, s[1..]);
    }
  }

  lemma AlternativesOf(s: seq<Classification>, a: seq<Classification>, t: Thresholds)
    requires ResolvesAlike(s, t) && multiset(a) == multiset(s) && s != []
    ensures Sort(ClassLe, s) != [] && Sort(ClassLe, a) != []
    ensures var p, q := Sort(ClassLe, s), Sort(ClassLe, a);
            var w, v, falls := p[WinnerAt(p, t)], q[WinnerAt(q, t)], FallsBack(p, t);
            && Keyed(v) == Keyed(w) && Marked(v, falls, t) == Marked(w, falls, t)
            && Without(q, w.classifier) == Without(p, w.classifier)
  {
    var p, q := Sort(ClassLe, s), Sort(ClassLe, a);
    assert |a| == |multiset(a)| == |multiset(s)| == |s|;
    SortPermutes(ClassLe, s);
    SortPermutes(ClassLe, a);
    SortedKeys(s, a);
    SamePlaces(p, q, t);
    ResolvedByPlace(p, t);
    ResolvedByPlace(q, t);
    assert Keyed(p[WinnerAt(p, t)]) == Keyed(q[WinnerAt(q, t)]);
    assert Resolve(a, t) == Resolve(s, t);
  }

  lemma WinnersAlike(s: seq<Classification>, t: Thresholds, x: Classification)
    requires ResolvesAlike(s, t) && x in s && Sort(ClassLe, s) != []
    requires Keyed(x) == Keyed(Sort(ClassLe, s)[WinnerAt(Sort(ClassLe, s), t)])
    ensures var sorted := Sort(ClassLe, s);
            Marked(x, FallsBack(sorted, t), t) == Marked(sorted[WinnerAt(sorted, t)], FallsBack(sorted, t), t)
  {
    var a := MovedFirst(s, x);
    AlternativesOf(s, a, t);
    WinnerTells(a, t);
  }

  lemma AlikeIsFree(s: seq<Classification>, t: Thresholds)
    requires ResolvesAlike(s, t)
    ensures OrderFree(s, t)
  {
    if s != [] {
      var sorted := Sort(ClassLe, s);
      SortPermutes(ClassLe, s);
      var w := sorted[WinnerAt(sorted, t)];
      var others := Filter(OtherThan(w.classifier), s);
      FilterMembers(OtherThan(w.classifier), s);
      forall x, y | x in others && y in others && x.classifier == y.classifier && x.confidence == y.confidence
        ensures x == y
      {
        OthersSeparated(s, t, x, y);
      }
      forall x | x in s && Keyed(x) == Keyed(w)
        ensures Marked(x, FallsBack(sorted, t), t) == Marked(w, FallsBack(sorted, t), t)
      {
        WinnersAlike(s, t, x);
      }
    }
  }

  /** The resolution is the same for every order of the classifications if and only if those that share id and
      confidence are equal, or, for the winner's id and confidence, are reported alike. */
  lemma OrderIsFreeExactly(s: seq<Classification>, t: Thresholds)
    ensures (forall b :: multiset(b) == multiset(s) ==> Resolve(b, t) == Resolve(s, t)) <==> OrderFree(s, t)
  {
    if OrderFree(s, t) {
      forall b | multiset(b) == multiset(s) ensures Resolve(b, t) == Resolve(s, t) {
        OrderFreeResolves(s, b, t);
      }
    }
    if ResolvesAlike(s, t) {
      AlikeIsFree(s, t);
    }
  }

  // ---------------------------------------------------------------- exactly when a resolution is clear

  /** Place i holds the highest confidence; it is enough to accept, and either strong or ahead of every other place
      by the gap. */
  ghost predicate ClearAt(s: seq<Classification>, i: nat, t: Thresholds) {
    && i < |s| && (forall j :: 0 <= j < |s| ==> s[j].confidence <= s[i].confidence)
    && s[i].confidence >= t.weakAccept
    && (s[i].confidence >= t.strongAccept
        || forall j :: 0 <= j < |s| && j != i ==> s[i].confidence - s[j].confidence >= t.ambiguityGap)
  }

  /** Has the highest confidence, and of those that do the first id. */
  ghost predicate Leads(s: seq<Classification>, c: Classification) {
    && c in s
    && (forall d :: d in s ==> d.confidence <= c.confidence)
    && (forall d :: d in s && d.confidence == c.confidence ==> LexLe(c.classifier, d.classifier))
  }

  lemma FirstLeads(s: seq<Classification>)
    requires s != []
    ensures Sort(ClassLe, s) != [] && Leads(s, Sort(ClassLe, s)[0])
  {
    var sorted := Sort(ClassLe, s);
    SortedClasses(s);
    forall d | d in s
      ensures d.confidence <= sorted[0].confidence
      ensures d.confidence == sorted[0].confidence ==> LexLe(sorted[0].classifier, d.classifier)
    {
      assert d in sorted;
      var k :| 0 <= k < |sorted| && sorted[k] == d;
      LexTotal(d.classifier, d.classifier);
      assert k > 0 ==> ClassLe(sorted[0], sorted[k]);
    }
  }

  lemma OtherPlaces(s: seq<Classification>, i: nat, c: Classification)
    requires i < |s|
    ensures c in s[..i] + s[i + 1..] <==> exists j :: 0 <= j < |s| && j != i && s[j] == c
  {
    var others := s[..i] + s[i + 1..];
    if c in others {
      var k :| 0 <= k < |others| && others[k] == c;
      assert s[if k < i then k else k + 1] == c;
    }
    if j :| 0 <= j < |s| && j != i && s[j] == c {
      assert others[if j < i then j else j - 1] == c;
    }
  }

  /** What stands behind the first when sorted is what stands at the other places. */
  lemma OthersBehind(s: seq<Classification>, i: nat, c: Classification)
    requires i < |s| && Sort(ClassLe, s) != [] && s[i] == Sort(ClassLe, s)[0]
    ensures c in Sort(ClassLe, s)[1..] <==> exists j :: 0 <= j < |s| && j != i && s[j] == c
  {
    SortPermutes(ClassLe, s);
    SameOthersIn(s, i, Sort(ClassLe, s), c);
    OtherPlaces(s, i, c);
  }

  lemma SameOthersIn(s: seq<Classification>, i: nat, sorted: seq<Classification>, c: Classification)
    requires i < |s| && sorted != [] && s[i] == sorted[0] && multiset(s) == multiset(sorted)
    ensures c in sorted[1..] <==> c in s[..i] + s[i + 1..]
  {
    var rest, others := sorted[1..], s[..i] + s[i + 1..];
    RemoveAt(s, i);
    RemoveAt(sorted, 0);
    assert sorted[..0] + rest == rest;
    assert multiset(s)[c] == multiset(others)[c] + multiset{s[i]}[c];
    assert multiset(sorted)[c] == multiset(rest)[c] + multiset{s[i]}[c];
    assert c in rest <==> multiset(rest)[c] > 0;
    assert c in others <==> multiset(others)[c] > 0;
  }

  lemma SecondIsNext(s: seq<Classification>, c: Classification)
    requires Sort(ClassLe, s) != [] && c in Sort(ClassLe, s)[1..]
    ensures |Sort(ClassLe, s)| > 1 && c.confidence <= Sort(ClassLe, s)[1].confidence
  {
    var sorted := Sort(ClassLe, s);
    SortedClasses(s);
    var k :| 0 <= k < |sorted[1..]| && sorted[1..][k] == c;
    assert k > 0 ==> ClassLe(sorted[1], sorted[k + 1]);
  }

  lemma UnambiguousIsClear(s: seq<Classification>, t: Thresholds)
    requires s != [] && !Resolve(s, t).ambiguous
    ensures exists i: nat :: ClearAt(s, i, t)
  {
    var sorted := Sort(ClassLe, s);
    FirstLeads(s);
    var i: nat :| i < |s| && s[i] == sorted[0];
    forall j | 0 <= j < |s| && j != i && s[i].confidence < t.strongAccept
      ensures s[i].confidence - s[j].confidence >= t.ambiguityGap
    {
      OthersBehind(s, i, s[j]);
      SecondIsNext(s, s[j]);
    }
    assert ClearAt(s, i, t);
  }

  lemma ClearIsUnambiguous(s: seq<Classification>, i: nat, t: Thresholds)
    requires ClearAt(s, i, t)
    ensures !Resolve(s, t).ambiguous
  {
    var sorted := Sort(ClassLe, s);
    FirstLeads(s);
    assert sorted[0].confidence == s[i].confidence;
    if |sorted| > 1 && s[i].confidence < t.strongAccept {
      var f: nat :| f < |s| && s[f] == sorted[0];
      assert sorted[1..][0] in sorted[1..];
      OthersBehind(s, f, sorted[1]);
      var j :| 0 <= j < |s| && j != f && s[j] == sorted[1];
      assert f != i ==> s[i].confidence - s[f].confidence >= t.ambiguityGap;
    }
  }

  /** A nonempty list is resolved unambiguously if and only if the highest confidence is enough to accept, and
      either strong or ahead of all other places by the gap. */
  lemma ClearExactly(s: seq<Classification>, t: Thresholds)
    requires s != []
    ensures !Resolve(s, t).ambiguous <==> exists i: nat :: ClearAt(s, i, t)
  {
    if i: nat :| ClearAt(s, i, t) {
      ClearIsUnambiguous(s, i, t);
    }
    if !Resolve(s, t).ambiguous {
      UnambiguousIsClear(s, t);
    }
  }

  lemma FirstIsHighest(sorted: seq<Classification>, n: nat, id: string)
    requires SortedBy(ClassLe, sorted) && n < |sorted| && forall k :: 0 <= k < n ==> sorted[k].classifier != id
    ensures forall c :: c in sorted && c.classifier == id ==> c.confidence <= sorted[n].confidence
  {
    forall c | c in sorted && c.classifier == id ensures c.confidence <= sorted[n].confidence {
      var k :| 0 <= k < |sorted| && sorted[k] == c;
      assert k > n ==> ClassLe(sorted[n], sorted[k]);
    }
  }

  /** The fallback that wins is the highest classification with its id. */
  lemma FoundLeads(s: seq<Classification>, id: string)
    requires exists c :: c in s && c.classifier == id
    ensures Find(Sort(ClassLe, s), id).Some?
    ensures var f := Find(Sort(ClassLe, s), id).value;
            && f in s && f.classifier == id
            && forall c :: c in s && c.classifier == id ==> c.confidence <= f.confidence
  {
    var sorted := Sort(ClassLe, s);
    SortedClasses(s);
    FindFinds(sorted, id);
    FindIsFirst(sorted, id);
    FirstIsHighest(sorted, FirstWith(sorted, id), id);
  }

  /** The winner of a clear resolution leads; without a clear lead the winner is the fallback whenever it is among
      the classifications, accepted in any case, and else the one that leads. Otherwise a winner is accepted when
      it was before or is not below the rejection threshold. */
  lemma WinnerExactly(s: seq<Classification>, t: Thresholds) returns (c: Classification)
    requires s != []
    ensures c in s
    ensures var r := Resolve(s, t);
            var clear := exists i: nat :: ClearAt(s, i, t);
            var fallback := exists d :: d in s && d.classifier == t.fallback;
            && (clear || !fallback ==>
                  && Leads(s, c)
                  && r.winner == Some(c.(accepted := c.accepted || c.confidence >= t.rejectBelow))
                  && !r.fallbackGeneric)
            && (!clear && fallback ==>
                  && c.classifier == t.fallback
                  && (forall d :: d in s && d.classifier == t.fallback ==> d.confidence <= c.confidence)
                  && r.winner == Some(c.(accepted := true))
                  && (r.fallbackGeneric <==> t.fallback == "generic_markdown"))
  {
    var sorted := Sort(ClassLe, s);
    ClearExactly(s, t);
    FirstLeads(s);
    FindFinds(sorted, t.fallback);
    SortedClasses(s);
    c := sorted[0];
    if Resolve(s, t).ambiguous && exists d :: d in s && d.classifier == t.fallback {
      FoundLeads(s, t.fallback);
      c := Find(sorted, t.fallback).value;
    }
  }
}
