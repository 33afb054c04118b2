/** Resolving competing classifications. */
module Resolver {
  // Sort by confidence, decide whether the lead is clear, fall back when it is not; and classify a candidate
  // against a whole configuration (engine.go).

  import opened Options
  import opened Sorting
  import opened Classifier

  const GenericMarkdown := "generic_markdown"

  datatype Resolution = Resolution(winner: Option<Classification>, alternatives: seq<Classification>, ambiguous: bool,
                                   fallbackGeneric: bool)

  predicate ClassLe(a: Classification, b: Classification) {
    if a.confidence == b.confidence then LexLe(a.classifier, b.classifier) else a.confidence > b.confidence
  }

  /** The thresholds that configuration validation lets through. */
  predicate ValidThresholds(t: Thresholds) {
    && 0.0 <= t.rejectBelow <= t.weakAccept <= t.strongAccept <= 1.0
    && 0.0 <= t.ambiguityGap <= 1.0 && 0.0 <= t.pathPrior <= 1.0 && t.fallback != ""
  }

  predicate Ambiguous(sorted: seq<Classification>, t: Thresholds)
    requires sorted != []
  {
    var lead := sorted[0].confidence;
    if |sorted| > 1 && lead >= t.weakAccept && lead < t.strongAccept then lead - sorted[1].confidence < t.ambiguityGap
    else lead < t.weakAccept
  }

  function Find(s: seq<Classification>, id: string): Option<Classification> {
    if s == [] then None else if s[0].classifier == id then Some(s[0]) else Find(s[1..], id)
  }

  function Without(s: seq<Classification>, id: string): seq<Classification> {
    if s == [] then []
    else (if s[0].classifier == id then [] else [s[0]]) + Without(s[1..], id)
  }

  function Resolve(classifications: seq<Classification>, t: Thresholds): Resolution {
    if classifications == [] then Resolution(None, [], false, false)
    else ResolveSorted(Sort(ClassLe, classifications), t)
  }

  function ResolveSorted(sorted: seq<Classification>, t: Thresholds): Resolution {
    if sorted == [] then Resolution(None, [], false, false)
    else
      var ambiguous := Ambiguous(sorted, t);
      var fallback := Find(sorted, t.fallback);
      var chosen := if ambiguous && fallback.Some? then fallback.value.(accepted := true) else sorted[0];
      var winner := chosen.(accepted := chosen.accepted || chosen.confidence >= t.rejectBelow);
      Resolution(Some(winner), Without(sorted, winner.classifier), ambiguous,
                 ambiguous && fallback.Some? && t.fallback == GenericMarkdown)
  }

  method FindClassification(s: seq<Classification>, id: string) returns (c: Option<Classification>)
    ensures c == Find(s, id)
  {
    assert s[0..] == s;
    for i := 0 to |s|
      invariant Find(s[i..], id) == Find(s, id)
    {
      assert s[i..][1..] == s[i + 1..];
      if s[i].classifier == id {
        return Some(s[i]);
      }
    }
    c := None;
  }

  method ResolveClassifications(classifications: seq<Classification>, t: Thresholds) returns (r: Resolution)
    ensures r == Resolve(classifications, t)
  {
    if |classifications| == 0 {
      return Resolution(None, [], false, false);
    }
    SortPermutes(ClassLe, classifications);
    var sorted := Sort(ClassLe, classifications);
    var winner := sorted[0];
    var ambiguous := winner.confidence < t.weakAccept;
    if |sorted| > 1 && winner.confidence >= t.weakAccept && winner.confidence < t.strongAccept {
      ambiguous := winner.confidence - sorted[1].confidence < t.ambiguityGap;
    }
    var fallbackGeneric := false;
    if ambiguous {
      var fallback := FindClassification(sorted, t.fallback);
      if fallback.Some? {
        FindFinds(sorted, t.fallback);
        winner := fallback.value.(accepted := true);
        fallbackGeneric := fallback.value.classifier == GenericMarkdown;
      }
    }
    winner := winner.(accepted := winner.accepted || winner.confidence >= t.rejectBelow);
    var alternatives := OtherClassifications(sorted, winner.classifier);
    r := Resolution(Some(winner), alternatives, ambiguous, fallbackGeneric);
  }

  lemma WithoutStep(kept: seq<Classification>, s: seq<Classification>, id: string)
    requires s != []
    ensures kept + Without(s, id)
         == (if s[0].classifier == id then kept else kept + [s[0]]) + Without(s[1..], id)
  {
    var tail := Without(s[1..], id);
    if s[0].classifier == id {
      assert [] + tail == tail;
    } else {
      assert kept + ([s[0]] + tail) == (kept + [s[0]]) + tail;
    }
  }

  method OtherClassifications(sorted: seq<Classification>, id: string) returns (alternatives: seq<Classification>)
    ensures alternatives == Without(sorted, id)
  {
    alternatives := [];
    assert sorted[0..] == sorted && [] + Without(sorted, id) == Without(sorted, id);
    for i := 0 to |sorted|
      invariant alternatives + Without(sorted[i..], id) == Without(sorted, id)
    {
      WithoutStep(alternatives, sorted[i..], id);
      assert sorted[i..][0] == sorted[i] && sorted[i..][1..] == sorted[i + 1..];
      if sorted[i].classifier == id {
        continue;
      }
      alternatives := alternatives + [sorted[i]];
    }
    assert alternatives + [] == alternatives;
  }

  lemma {:induction false} FindFinds(s: seq<Classification>, id: string)
    ensures Find(s, id).Some? <==> exists c :: c in s && c.classifier == id
    ensures Find(s, id).Some? ==> Find(s, id).value in s && Find(s, id).value.classifier == id
  {
    if s != [] {
      FindFinds(s[1..], id);
      assert forall c :: c in s <==> c == s[0] || c in s[1..];
    }
  }

  // ---------------------------------------------------------------- the order of the input does not matter

  ghost predicate DistinctIds(s: seq<Classification>) {
    forall i, j :: 0 <= i < j < |s| ==> s[i].classifier != s[j].classifier
  }

  lemma ClassLeTotal()
    ensures TotalPreorder(ClassLe)
  {
    forall a: Classification, b: Classification ensures ClassLe(a, b) || ClassLe(b, a) {
      LexTotal(a.classifier, b.classifier);
    }
    forall a: Classification, b: Classification, c: Classification | ClassLe(a, b) && ClassLe(b, c)
      ensures ClassLe(a, c) {
      if a.confidence == b.confidence == c.confidence {
        LexTransitive(a.classifier, b.classifier, c.classifier);
      }
    }
  }

  /** No two different classifications share both id and confidence. */
  ghost predicate Separated(s: seq<Classification>) {
    forall x, y :: x in s && y in s && x.classifier == y.classifier && x.confidence == y.confidence ==> x == y
  }

  lemma SeparatedNoTies(s: seq<Classification>)
    requires Separated(s)
    ensures NoTies(ClassLe, s)
  {
    forall x, y | x in s && y in s && ClassLe(x, y) && ClassLe(y, x) ensures x == y {
      LexTotal(x.classifier, y.classifier);
    }
  }

  /** Unless two different classifications share id and confidence, the resolution is the same for every order
      of the classifications. */
  lemma ResolveIgnoresOrder(a: seq<Classification>, b: seq<Classification>, t: Thresholds)
    requires Separated(a) && multiset(a) == multiset(b)
    ensures Resolve(a, t) == Resolve(b, t)
  {
    ClassLeTotal();
    SeparatedNoTies(a);
    SortIgnoresOrder(ClassLe, a, b);
    assert |a| == |multiset(a)| == |multiset(b)| == |b|;
  }

  // ---------------------------------------------------------------- what a resolution says

  lemma SortedClasses(s: seq<Classification>)
    ensures SortedBy(ClassLe, Sort(ClassLe, s)) && multiset(Sort(ClassLe, s)) == multiset(s)
            && |Sort(ClassLe, s)| == |s|
    ensures forall c :: c in Sort(ClassLe, s) <==> c in s
  {
    ClassLeTotal();
    SortSorts(ClassLe, s);
    SortPermutes(ClassLe, s);
    forall c ensures c in Sort(ClassLe, s) <==> c in s {
      assert c in multiset(Sort(ClassLe, s)) <==> c in multiset(s);
    }
  }

  /** An unambiguous winner has the highest confidence, is accepted, and below the strong threshold leads
      every other classification by the gap. */
  lemma UnambiguousLeads(classifications: seq<Classification>, t: Thresholds)
    requires classifications != [] && ValidThresholds(t)
    requires !Resolve(classifications, t).ambiguous
    ensures var w := Resolve(classifications, t).winner.value;
            && w.accepted && w.confidence >= t.weakAccept
            && (forall c :: c in classifications ==> c.confidence <= w.confidence)
            && (w.confidence < t.strongAccept ==>
                  forall c :: c in classifications && c.classifier != w.classifier
                              ==> w.confidence - c.confidence >= t.ambiguityGap)
  {
    SortedClasses(classifications);
    var sorted := Sort(ClassLe, classifications);
    forall c | c in classifications
      ensures c.confidence <= sorted[0].confidence
      ensures c.classifier != sorted[0].classifier ==> |sorted| > 1 && c.confidence <= sorted[1].confidence
    {
      assert c in sorted;
      var k :| 0 <= k < |sorted| && sorted[k] == c;
      assert k > 0 ==> ClassLe(sorted[0], sorted[k]);
      assert k > 1 ==> ClassLe(sorted[1], sorted[k]);
    }
  }

  lemma {:induction false} WithoutMembers(s: seq<Classification>, id: string)
    ensures forall c :: c in Without(s, id) <==> c in s && c.classifier != id
  {
    if s != [] {
      WithoutMembers(s[1..], id);
      assert s == [s[0]] + s[1..];
    }
  }

  lemma {:induction false} WithoutSorted(s: seq<Classification>, id: string)
    requires SortedBy(ClassLe, s)
    ensures SortedBy(ClassLe, Without(s, id))
  {
    if s != [] {
      WithoutSorted(s[1..], id);
      WithoutMembers(s[1..], id);
      var rest := Without(s[1..], id);
      forall k | 0 <= k < |rest| ensures ClassLe(s[0], rest[k]) {
        assert rest[k] in rest;
        var j :| 0 <= j < |s[1..]| && s[1..][j] == rest[k];
        assert s[j + 1] == rest[k];
      }
    }
  }

  function OtherThan(id: string): Classification -> bool {
    (c: Classification) => c.classifier != id
  }

  lemma {:induction false} WithoutFilters(s: seq<Classification>, id: string)
    ensures Without(s, id) == Filter(OtherThan(id), s)
  {
    if s != [] {
      WithoutFilters(s[1..], id);
    }
  }

  lemma WithoutOne(s: seq<Classification>, w: Classification)
    requires DistinctIds(s) && w in s
    ensures multiset(Without(s, w.classifier)) == multiset(s) - multiset{w}
  {
    var k :| 0 <= k < |s| && s[k] == w;
    WithoutFilters(s, w.classifier);
    forall c ensures multiset(Filter(OtherThan(w.classifier), s))[c] == (multiset(s) - multiset{w})[c] {
      OthersCount(s, k, c);
    }
  }

  lemma OthersCount(s: seq<Classification>, k: nat, c: Classification)
    requires DistinctIds(s) && k < |s|
    ensures multiset(Filter(OtherThan(s[k].classifier), s))[c] == (multiset(s) - multiset{s[k]})[c]
  {
    FilterMultiplicity(OtherThan(s[k].classifier), s, c);
    OnceIn(s, k);
    if c.classifier == s[k].classifier && c != s[k] {
      OnlyOneWith(s, k, c);
    }
  }

  lemma OnlyOneWith(s: seq<Classification>, k: nat, c: Classification)
    requires DistinctIds(s) && k < |s| && c.classifier == s[k].classifier && c != s[k]
    ensures multiset(s)[c] == 0
  {
    assert forall j :: 0 <= j < |s| ==> s[j] != c;
  }

  /** The alternatives are exactly the classifications whose id is not the winner's, in sorted order; the
      winner is one of the classifications, possibly marked accepted, and with distinct ids the only one that
      is no alternative. */
  lemma AlternativesAreTheRest(classifications: seq<Classification>, t: Thresholds)
    requires classifications != []
    ensures var r := Resolve(classifications, t);
            && r.winner.Some?
            && SortedBy(ClassLe, r.alternatives)
            && multiset(r.alternatives) == multiset(Filter(OtherThan(r.winner.value.classifier), classifications))
            && exists w :: w in classifications && r.winner.value == w.(accepted := r.winner.value.accepted)
                           && (DistinctIds(classifications) ==>
                                 multiset(r.alternatives) == multiset(classifications) - multiset{w})
  {
    SortedClasses(classifications);
    var sorted := Sort(ClassLe, classifications);
    FindFinds(sorted, t.fallback);
    var fallback := Find(sorted, t.fallback);
    var w := if Ambiguous(sorted, t) && fallback.Some? then fallback.value else sorted[0];
    assert w in sorted;
    WithoutSorted(sorted, w.classifier);
    WithoutFilters(sorted, w.classifier);
    FilterPermutes(OtherThan(w.classifier), sorted, classifications);
    if DistinctIds(classifications) {
      SortKeepsDistinct(classifications);
      WithoutOne(sorted, w);
    }
    assert w in classifications;
  }

  lemma SortKeepsDistinct(s: seq<Classification>)
    requires DistinctIds(s)
    ensures DistinctIds(Sort(ClassLe, s))
  {
    var sorted := Sort(ClassLe, s);
    SortPermutes(ClassLe, s);
    forall i, j | 0 <= i < j < |sorted| ensures sorted[i].classifier != sorted[j].classifier {
      var x, y := sorted[i], sorted[j];
      assert x in multiset(s) && y in multiset(s);
      var a :| 0 <= a < |s| && s[a] == x;
      var b :| 0 <= b < |s| && s[b] == y;
      if a == b {
        OccursTwice(sorted, i, j);
        OnceIn(s, a);
      }
    }
  }

  lemma OnceIn(s: seq<Classification>, a: nat)
    requires DistinctIds(s) && a < |s|
    ensures multiset(s)[s[a]] == 1
  {
    assert s == s[..a] + [s[a]] + s[a + 1..];
    assert s[a] !in s[..a] && s[a] !in s[a + 1..];
  }

  /** Raising an unambiguous winner's confidence keeps it the unambiguous, accepted winner over the same
      alternatives, whether or not others share its id. */
  lemma RaisingKeepsWinner(classifications: seq<Classification>, i: nat, confidence: real, t: Thresholds)
    requires i < |classifications| && ValidThresholds(t)
    requires var r := Resolve(classifications, t);
             && !r.ambiguous && r.winner.value.classifier == classifications[i].classifier
             && (r.winner.value.confidence == classifications[i].confidence || DistinctIds(classifications))
    requires confidence >= classifications[i].confidence
    ensures var r := Resolve(classifications, t);
            var r' := Resolve(classifications[i := classifications[i].(confidence := confidence)], t);
            && r'.winner.Some? && r'.winner.value.classifier == classifications[i].classifier
            && !r'.ambiguous && r'.winner.value.accepted && r'.alternatives == r.alternatives
  {
    var raised := classifications[i].(confidence := confidence);
    SortedClasses(classifications);
    SortedClasses(classifications[i := raised]);
    if DistinctIds(classifications) {
      WinnerIsFirst(classifications, i);
    }
    if confidence == classifications[i].confidence {
      assert classifications[i := raised] == classifications;
      UnambiguousLeads(classifications, t);
    } else {
      RaisedIsFirst(classifications, i, raised);
      RaisedStaysClear(classifications, i, raised, t);
      OthersStay(classifications, i, raised);
    }
  }

  lemma WinnerIsFirst(classifications: seq<Classification>, i: nat)
    requires i < |classifications| && DistinctIds(classifications)
    requires Sort(ClassLe, classifications) != []
             && Sort(ClassLe, classifications)[0].classifier == classifications[i].classifier
    ensures Sort(ClassLe, classifications)[0] == classifications[i]
  {
    SortedClasses(classifications);
    var first := Sort(ClassLe, classifications)[0];
    assert first in classifications;
    var k :| 0 <= k < |classifications| && classifications[k] == first;
    assert k == i;
  }

  /** The first of the sorted classifications has the confidence of the one at this place. */
  predicate Leads(classifications: seq<Classification>, i: nat) {
    && i < |classifications| && Sort(ClassLe, classifications) != []
    && Sort(ClassLe, classifications)[0].confidence == classifications[i].confidence
  }

  lemma LeadIsHighest(classifications: seq<Classification>, i: nat)
    requires Leads(classifications, i)
    ensures forall c :: c in classifications ==> c.confidence <= classifications[i].confidence
  {
    SortedClasses(classifications);
    var sorted := Sort(ClassLe, classifications);
    forall c | c in classifications ensures c.confidence <= sorted[0].confidence {
      assert c in sorted;
      var k :| 0 <= k < |sorted| && sorted[k] == c;
      assert k > 0 ==> ClassLe(sorted[0], sorted[k]);
    }
  }

  lemma RaisedIsFirst(classifications: seq<Classification>, i: nat, raised: Classification)
    requires Leads(classifications, i) && raised.confidence > classifications[i].confidence
    ensures var sorted := Sort(ClassLe, classifications[i := raised]); sorted != [] && sorted[0] == raised
  {
    var after := classifications[i := raised];
    LeadIsHighest(classifications, i);
    SortedClasses(after);
    var sorted := Sort(ClassLe, after);
    assert after[i] in sorted;
    var k :| 0 <= k < |sorted| && sorted[k] == raised;
    assert k > 0 ==> ClassLe(sorted[0], sorted[k]);
    assert sorted[0] in after;
  }

  lemma TailMultiset(s: seq<Classification>)
    requires s != []
    ensures multiset(s[1..]) == multiset(s) - multiset{s[0]}
  {
    assert s == [s[0]] + s[1..];
  }

  lemma ReplacedMultiset(s: seq<Classification>, i: nat, x: Classification)
    requires i < |s|
    ensures multiset(s[i := x]) == multiset(s) - multiset{s[i]} + multiset{x}
  {
  }

  lemma BehindRaised(classifications: seq<Classification>, i: nat, raised: Classification)
    requires Leads(classifications, i) && raised.confidence > classifications[i].confidence
    ensures var after := Sort(ClassLe, classifications[i := raised]);
            && |after| == |classifications|
            && multiset(after[1..]) == multiset(classifications) - multiset{classifications[i]}
  {
    SortPermutes(ClassLe, classifications[i := raised]);
    RaisedIsFirst(classifications, i, raised);
    ReplacedMultiset(classifications, i, raised);
    TailMultiset(Sort(ClassLe, classifications[i := raised]));
    assert classifications[i] in multiset(classifications);
  }

  /** No second classification is above the one that was second before. */
  lemma SecondStays(classifications: seq<Classification>, i: nat, raised: Classification)
    requires Leads(classifications, i) && raised.confidence > classifications[i].confidence && |classifications| > 1
    ensures var before, after := Sort(ClassLe, classifications), Sort(ClassLe, classifications[i := raised]);
            |before| > 1 && |after| > 1 && after[1].confidence <= before[1].confidence
  {
    var before, after := Sort(ClassLe, classifications), Sort(ClassLe, classifications[i := raised]);
    SortedClasses(classifications);
    BehindRaised(classifications, i, raised);
    TailMultiset(before);
    assert after[1..][0] == after[1];
    assert after[1] in multiset(after[1..]) && classifications[i] in multiset(classifications);
    SecondBelow(multiset(classifications), before, classifications[i], after[1]);
  }

  lemma SecondBelow(m: multiset<Classification>, sorted: seq<Classification>, y: Classification, e: Classification)
    requires |sorted| > 1 && SortedBy(ClassLe, sorted) && multiset(sorted[1..]) == m - multiset{sorted[0]}
    requires y in m && y.confidence == sorted[0].confidence && e in m - multiset{y}
    ensures e.confidence <= sorted[1].confidence
  {
    if e in multiset(sorted[1..]) {
      BelowSecond(sorted, e);
    } else {
      OneOrTheOther(m, sorted[0], y, e);
      BelowSecond(sorted, y);
    }
  }

  lemma OneOrTheOther(m: multiset<Classification>, x: Classification, y: Classification, e: Classification)
    requires e in m - multiset{y} && e !in m - multiset{x} && y in m
    ensures e == x && y in m - multiset{x}
  {
  }

  lemma BelowSecond(sorted: seq<Classification>, c: Classification)
    requires |sorted| > 1 && SortedBy(ClassLe, sorted) && c in multiset(sorted[1..])
    ensures c.confidence <= sorted[1].confidence
  {
    assert c in sorted[1..];
    var k :| 0 <= k < |sorted[1..]| && sorted[1..][k] == c;
    assert k > 0 ==> ClassLe(sorted[1], sorted[k + 1]);
  }

  lemma RaisedStaysClear(classifications: seq<Classification>, i: nat, raised: Classification, t: Thresholds)
    requires Leads(classifications, i) && raised.confidence > classifications[i].confidence && ValidThresholds(t)
    requires !Ambiguous(Sort(ClassLe, classifications), t)
    ensures Sort(ClassLe, classifications[i := raised]) != []
    ensures !Ambiguous(Sort(ClassLe, classifications[i := raised]), t)
  {
    SortedClasses(classifications);
    SortedClasses(classifications[i := raised]);
    RaisedIsFirst(classifications, i, raised);
    if |classifications| > 1 {
      SecondStays(classifications, i, raised);
    }
  }

  lemma {:induction false} FilterWithout(p: Classification -> bool, s: seq<Classification>, i: nat, x: Classification)
    requires i < |s| && !p(s[i]) && !p(x)
    ensures Filter(p, s[i := x]) == Filter(p, s)
  {
    var after := s[i := x];
    if i == 0 {
      assert after[1..] == s[1..];
    } else {
      assert after[1..] == s[1..][i - 1 := x];
      FilterWithout(p, s[1..], i - 1, x);
    }
  }

  lemma OthersStay(classifications: seq<Classification>, i: nat, raised: Classification)
    requires i < |classifications| && raised.classifier == classifications[i].classifier
    ensures Without(Sort(ClassLe, classifications[i := raised]), raised.classifier)
         == Without(Sort(ClassLe, classifications), raised.classifier)
  {
    var others := OtherThan(raised.classifier);
    ClassLeTotal();
    WithoutFilters(Sort(ClassLe, classifications), raised.classifier);
    WithoutFilters(Sort(ClassLe, classifications[i := raised]), raised.classifier);
    FilterSort(ClassLe, others, classifications);
    FilterSort(ClassLe, others, classifications[i := raised]);
    FilterWithout(others, classifications, i, raised);
  }

  // ---------------------------------------------------------------- classifying a candidate

  datatype NamedModel = NamedModel(id: string, model: Model)

  /** A configuration: its models in the order of their ids, and its local models in their own order. */
  datatype Config = Config(models: seq<NamedModel>, localEnabled: bool, locals: seq<Local>, thresholds: Thresholds)

  function FindModel(models: seq<NamedModel>, id: string): Option<Model> {
    if models == [] then None else if models[0].id == id then Some(models[0].model) else FindModel(models[1..], id)
  }

  function FromModels(models: seq<NamedModel>, candidate: Candidate, t: Thresholds): seq<Classification> {
    if models == [] then []
    else
      var n := |models| - 1;
      var before := FromModels(models[..n], candidate, t);
      match Evaluate(models[n].id, models[n].model, candidate, t) case None => before case Some(c) => before + [c]
  }

  function EvaluateLocal(local: Local, config: Config, candidate: Candidate): Option<Classification> {
    match FindModel(config.models, local.base)
    case None => None
    case Some(base) => Evaluate(local.id, Extend(base, local), candidate, config.thresholds)
  }

  function FromLocals(locals: seq<Local>, config: Config, candidate: Candidate): seq<Classification> {
    if locals == [] then []
    else
      var n := |locals| - 1;
      var before := FromLocals(locals[..n], config, candidate);
      match EvaluateLocal(locals[n], config, candidate) case None => before case Some(c) => before + [c]
  }

  function Classify(candidate: Candidate, config: Config): Resolution {
    Resolve(FromModels(config.models, candidate, config.thresholds)
            + (if config.localEnabled then FromLocals(config.locals, config, candidate) else []),
            config.thresholds)
  }

  lemma LocalsStep(config: Config, candidate: Candidate, i: nat)
    requires i < |config.locals|
    ensures FromLocals(config.locals[..i + 1], config, candidate)
            == FromLocals(config.locals[..i], config, candidate)
               + match EvaluateLocal(config.locals[i], config, candidate) case None => [] case Some(c) => [c]
  {
    assert config.locals[..i + 1][..i] == config.locals[..i];
  }

  method ClassifyCandidate(candidate: Candidate, config: Config) returns (r: Resolution)
    ensures r == Classify(candidate, config)
  {
    var t := config.thresholds;
    var classifications: seq<Classification> := [];
    for i := 0 to |config.models|
      invariant classifications == FromModels(config.models[..i], candidate, t)
    {
      assert config.models[..i + 1][..i] == config.models[..i];
      var c := EvaluateModel(config.models[i].id, config.models[i].model, candidate, t);
      if c.Some? {
        classifications := classifications + [c.value];
      }
    }
    assert config.models[..|config.models|] == config.models;
    if config.localEnabled {
      ghost var before := classifications;
      for i := 0 to |config.locals|
        invariant classifications == before + FromLocals(config.locals[..i], config, candidate)
      {
        LocalsStep(config, candidate, i);
        var base := FindModel(config.models, config.locals[i].base);
        if base.Some? {
          var c := EvaluateModel(config.locals[i].id, Extend(base.value, config.locals[i]), candidate, t);
          if c.Some? {
            classifications := classifications + [c.value];
          }
        }
      }
      assert config.locals[..|config.locals|] == config.locals;
    }
    assert classifications + [] == classifications;
    r := ResolveClassifications(classifications, t);
  }

  lemma {:induction false} FromModelsHas(models: seq<NamedModel>, k: nat, candidate: Candidate, t: Thresholds)
    requires k < |models| && Evaluate(models[k].id, models[k].model, candidate, t).Some?
    ensures Evaluate(models[k].id, models[k].model, candidate, t).value in FromModels(models, candidate, t)
  {
    if k < |models| - 1 {
      FromModelsHas(models[..|models| - 1], k, candidate, t);
    }
  }

  /** Classification is total: when the fallback model is enabled and covers the candidate's scope, there is
      always an accepted winner, whatever the other models and the local models are. */
  lemma ClassificationTotal(candidate: Candidate, config: Config, k: nat)
    requires ValidThresholds(config.thresholds)
    requires k < |config.models| && config.models[k].id == config.thresholds.fallback
    requires config.models[k].model.enabled && candidate.scope in config.models[k].model.scopes
    ensures var r := Classify(candidate, config); r.winner.Some? && r.winner.value.accepted
  {
    var t := config.thresholds;
    var all := FromModels(config.models, candidate, t)
               + (if config.localEnabled then FromLocals(config.locals, config, candidate) else []);
    FromModelsHas(config.models, k, candidate, t);
    var fallback := Evaluate(config.models[k].id, config.models[k].model, candidate, t).value;
    assert fallback in all && fallback.classifier == t.fallback;
    SortedClasses(all);
    assert fallback in Sort(ClassLe, all);
    FindFinds(Sort(ClassLe, all), t.fallback);
  }
}
