/** The models of the declarative classifier. */
module Classifier {
  // Evidence rules are summed, submodels compete, and local models extend base models (engine.go). All of it is
  // about one candidate document; what its text says about a rule's terms is part of the rule's description here.
  // Scores are exact reals.

  import opened Options
  import opened Text
  import opened Glob

  /** An evidence rule against the candidate at hand: whether it asks for a path hint, whether it has any
      other predicate, and whether all those others hold. */
  datatype Rule = Rule(weight: real, usesPathHints: bool, hasOther: bool, othersHold: bool)

  datatype Submodel = Submodel(id: string, enabled: bool, evidence: seq<Rule>, negative: seq<Rule>)

  /** A document model. Submodels are listed in the order of their ids. */
  datatype Model = Model(enabled: bool, scopes: set<string>, pathHints: seq<string>, evidence: seq<Rule>,
                         negative: seq<Rule>,
                         subformats: seq<Submodel>, families: seq<Submodel>, fallback: bool)

  /** A local definition on top of a base model; for its term lists, whether the candidate has them. */
  datatype Local = Local(id: string, base: string, pathHints: seq<string>, requiredHeadings: Option<bool>,
                         positiveTerms: Option<bool>,
                         evidence: seq<Rule>, negativeTerms: Option<bool>, negativeEvidence: seq<Rule>)

  datatype Candidate = Candidate(path: string, scope: string)

  datatype Thresholds = Thresholds(strongAccept: real, weakAccept: real, ambiguityGap: real, rejectBelow: real,
                                   fallback: string,
                                   pathPrior: real)

  datatype Classification = Classification(classifier: string, subformat: string, family: string, accepted: bool,
                                           confidence: real)

  // ---------------------------------------------------------------- rules

  /** A rule may ask that some path hint of the model matches the path: hinted. */
  predicate RuleMatches(rule: Rule, hinted: bool) {
    if rule.usesPathHints && !hinted then false
    else if !rule.othersHold then false
    else rule.usesPathHints || rule.hasOther
  }

  function RuleSum(rules: seq<Rule>, hinted: bool): real {
    if rules == [] then 0.0
    else
      var last := rules[|rules| - 1];
      RuleSum(rules[..|rules| - 1], hinted)
      + if last.weight > 0.0 && RuleMatches(last, hinted) then last.weight else 0.0
  }

  method EvaluateRules(rules: seq<Rule>, hints: seq<string>, path: string) returns (score: real)
    ensures score == RuleSum(rules, MatchesAnyGlob(hints, path))
  {
    score := 0.0;
    for i := 0 to |rules|
      invariant score == RuleSum(rules[..i], MatchesAnyGlob(hints, path))
    {
      assert rules[..i + 1][..i] == rules[..i];
      if rules[i].weight <= 0.0 {
        continue;
      }
      if !RuleMatches(rules[i], MatchesAnyGlob(hints, path)) {
        continue;
      }
      score := score + rules[i].weight;
    }
    assert rules[..|rules|] == rules;
  }

  lemma {:induction false} RuleSumAppend(a: seq<Rule>, b: seq<Rule>, hinted: bool)
    ensures RuleSum(a + b, hinted) == RuleSum(a, hinted) + RuleSum(b, hinted)
  {
    if b == [] {
      assert a + b == a;
    } else {
      RuleSumAppend(a, b[..|b| - 1], hinted);
      assert (a + b)[..|a + b| - 1] == a + b[..|b| - 1];
    }
  }

  lemma {:induction false} RuleSumNonNegative(rules: seq<Rule>, hinted: bool)
    ensures RuleSum(rules, hinted) >= 0.0
  {
    if rules != [] {
      RuleSumNonNegative(rules[..|rules| - 1], hinted);
    }
  }

  /** With a hint a rule can only start to match. */
  lemma {:induction false} RuleSumHinted(rules: seq<Rule>)
    ensures RuleSum(rules, false) <= RuleSum(rules, true)
    ensures (forall r :: r in rules ==> !r.usesPathHints) ==> RuleSum(rules, false) == RuleSum(rules, true)
  {
    if rules != [] {
      RuleSumHinted(rules[..|rules| - 1]);
    }
  }

  // ---------------------------------------------------------------- submodels

  function Net(sub: Submodel, hinted: bool): real {
    RuleSum(sub.evidence, hinted) - RuleSum(sub.negative, hinted)
  }

  function Netting(hinted: bool): Submodel -> real {
    sub => Net(sub, hinted)
  }

  /** The best enabled submodel with a positive score, the earliest id among equals. */
  function BestBy(net: Submodel -> real, subs: seq<Submodel>): (string, real) {
    if subs == [] then ("", 0.0)
    else
      var before := BestBy(net, subs[..|subs| - 1]);
      var last := subs[|subs| - 1];
      if !last.enabled || net(last) <= 0.0 || net(last) <= before.1 then before else (last.id, net(last))
  }

  function Best(subs: seq<Submodel>, hinted: bool): (string, real) {
    BestBy(Netting(hinted), subs)
  }

  method BestSubmodel(subs: seq<Submodel>, hints: seq<string>, path: string) returns (bestId: string, bestScore: real)
    ensures (bestId, bestScore) == Best(subs, MatchesAnyGlob(hints, path))
  {
    bestId, bestScore := "", 0.0;
    for i := 0 to |subs|
      invariant (bestId, bestScore) == Best(subs[..i], MatchesAnyGlob(hints, path))
    {
      assert subs[..i + 1][..i] == subs[..i];
      if !subs[i].enabled {
        continue;
      }
      var positive := EvaluateRules(subs[i].evidence, hints, path);
      var negative := EvaluateRules(subs[i].negative, hints, path);
      var score := positive - negative;
      if score <= 0.0 {
        continue;
      }
      if score > bestScore {
        bestId, bestScore := subs[i].id, score;
      }
    }
    assert subs[..|subs|] == subs;
  }

  /** The k-th submodel is the one that wins: enabled, with this id and score, all earlier ones below. */
  ghost predicate WinsAt(net: Submodel -> real, subs: seq<Submodel>, k: int, id: string, score: real) {
    && 0 <= k < |subs| && subs[k].enabled && subs[k].id == id && net(subs[k]) == score
    && forall j :: 0 <= j < k && subs[j].enabled ==> net(subs[j]) < score
  }

  lemma WinsStill(net: Submodel -> real, subs: seq<Submodel>, k: int, id: string, score: real)
    requires subs != [] && WinsAt(net, subs[..|subs| - 1], k, id, score)
    ensures WinsAt(net, subs, k, id, score)
  {
    forall j | 0 <= j <= k ensures subs[j] == subs[..|subs| - 1][j] {}
  }

  /** The best submodel is an argmax: no enabled submodel scores higher, and a nonzero best score belongs
      to an enabled submodel that every earlier one stays strictly below. */
  lemma {:induction false} BestIsArgmax(net: Submodel -> real, subs: seq<Submodel>)
    ensures var (id, score) := BestBy(net, subs);
            && score >= 0.0
            && (forall k :: 0 <= k < |subs| && subs[k].enabled ==> net(subs[k]) <= score)
            && (score == 0.0 ==> id == "")
            && (score > 0.0 ==> exists k :: WinsAt(net, subs, k, id, score))
  {
    if subs != [] {
      var n := |subs| - 1;
      BestIsArgmax(net, subs[..n]);
      var (id, score) := BestBy(net, subs);
      var before := BestBy(net, subs[..n]);
      forall k | 0 <= k < n ensures subs[k] == subs[..n][k] {}
      if score > 0.0 {
        if subs[n].enabled && net(subs[n]) > before.1 {
          assert WinsAt(net, subs, n, id, score);
        } else {
          var k :| WinsAt(net, subs[..n], k, id, score);
          WinsStill(net, subs, k, id, score);
        }
      }
    }
  }

  predicate PlainNegatives(subs: seq<Submodel>) {
    forall sub, r :: sub in subs && r in sub.negative ==> !r.usesPathHints
  }

  lemma {:induction false} BestHinted(subs: seq<Submodel>)
    requires PlainNegatives(subs)
    ensures Best(subs, false).1 <= Best(subs, true).1
  {
    if subs != [] {
      var n := |subs| - 1;
      assert subs[n] in subs;
      BestHinted(subs[..n]);
      RuleSumHinted(subs[n].evidence);
      RuleSumHinted(subs[n].negative);
    }
  }

  // ---------------------------------------------------------------- models

  function Clamp01(value: real): real {
    if value < 0.0 then 0.0 else if value > 1.0 then 1.0 else value
  }

  /** The score of a model whose path hints match, or do not match, the path. */
  function ScoreIf(model: Model, hinted: bool, prior: real): real {
    (if hinted then prior else 0.0) + RuleSum(model.evidence, hinted) - RuleSum(model.negative, hinted)
    + Best(model.subformats, hinted).1 + Best(model.families, hinted).1
  }

  function Score(model: Model, path: string, prior: real): real {
    ScoreIf(model, MatchesAnyGlob(model.pathHints, path), prior)
  }

  function QualifyChild(parent: string, child: string): string {
    if child == "" || Contains(child, ".") then child else parent + "." + child
  }

  function Evaluate(id: string, model: Model, candidate: Candidate, t: Thresholds): Option<Classification> {
    if !model.enabled || candidate.scope !in model.scopes then None
    else
      var hinted := MatchesAnyGlob(model.pathHints, candidate.path);
      var confidence := Clamp01(Score(model, candidate.path, t.pathPrior));
      Some(Classification(id, QualifyChild(id, Best(model.subformats, hinted).0),
                          QualifyChild(id, Best(model.families, hinted).0),
                          confidence >= t.rejectBelow || model.fallback, confidence))
  }

  method EvaluateModel(id: string, model: Model, candidate: Candidate, t: Thresholds)
    returns (c: Option<Classification>)
    ensures c == Evaluate(id, model, candidate, t)
  {
    if !model.enabled || candidate.scope !in model.scopes {
      return None;
    }
    var score := 0.0;
    if |model.pathHints| > 0 && MatchesAnyGlob(model.pathHints, candidate.path) {
      score := score + t.pathPrior;
    }
    var positive := EvaluateRules(model.evidence, model.pathHints, candidate.path);
    var negative := EvaluateRules(model.negative, model.pathHints, candidate.path);
    score := score + positive - negative;
    var subformat, subScore := BestSubmodel(model.subformats, model.pathHints, candidate.path);
    var family, familyScore := BestSubmodel(model.families, model.pathHints, candidate.path);
    score := score + (subScore + familyScore);
    var confidence := Clamp01(score);
    c := Some(Classification(id, QualifyChild(id, subformat), QualifyChild(id, family),
                             confidence >= t.rejectBelow || model.fallback, confidence));
  }

  // ---------------------------------------------------------------- local models

  function TermRule(weight: real, present: Option<bool>): seq<Rule> {
    match present case None => [] case Some(holds) => [Rule(weight, false, true, holds)]
  }

  function Extend(base: Model, local: Local): Model {
    base.(pathHints := base.pathHints + local.pathHints,
          evidence := base.evidence + TermRule(0.20, local.requiredHeadings) + TermRule(0.12, local.positiveTerms)
              + local.evidence,
          negative := base.negative + TermRule(0.12, local.negativeTerms) + local.negativeEvidence)
  }

  /** A local model that adds nothing negative, over a base whose negative rules ask for no path hint. */
  predicate OnlyAdds(base: Model, local: Local) {
    && AddsNoNegatives(local)
    && (forall r :: r in base.negative ==> !r.usesPathHints)
    && PlainNegatives(base.subformats) && PlainNegatives(base.families)
  }

  /** A local model brings no negative terms and no negative rules. */
  predicate AddsNoNegatives(local: Local) {
    local.negativeTerms == None && local.negativeEvidence == []
  }

  /** Whether the path is hinted or not, the additions only raise the score. */
  lemma AdditionsRaise(base: Model, local: Local, hinted: bool, prior: real)
    requires AddsNoNegatives(local)
    ensures ScoreIf(base, hinted, prior) <= ScoreIf(Extend(base, local), hinted, prior)
  {
    var model := Extend(base, local);
    var headings, terms := TermRule(0.20, local.requiredHeadings), TermRule(0.12, local.positiveTerms);
    RuleSumAppend(base.evidence, headings, hinted);
    RuleSumAppend(base.evidence + headings, terms, hinted);
    RuleSumAppend(base.evidence + headings + terms, local.evidence, hinted);
    RuleSumNonNegative(headings, hinted);
    RuleSumNonNegative(terms, hinted);
    RuleSumNonNegative(local.evidence, hinted);
    assert model.negative == base.negative;
  }

  /** A base whose negative rules ask for no path hint gains from a hint. */
  lemma HintRaises(base: Model, prior: real)
    requires forall r :: r in base.negative ==> !r.usesPathHints
    requires PlainNegatives(base.subformats) && PlainNegatives(base.families) && prior >= 0.0
    ensures ScoreIf(base, false, prior) <= ScoreIf(base, true, prior)
  {
    RuleSumHinted(base.evidence);
    RuleSumHinted(base.negative);
    BestHinted(base.subformats);
    BestHinted(base.families);
  }

  lemma ExtendedScore(base: Model, local: Local, path: string, prior: real)
    requires AddsNoNegatives(local)
    requires SomeGlobMatches(base.pathHints, path) || ScoreIf(base, false, prior) <= ScoreIf(base, true, prior)
    ensures Score(base, path, prior) <= Score(Extend(base, local), path, prior)
  {
    FirstGlobAppend(base.pathHints, local.pathHints, path);
    MorePatternsMatch(base.pathHints, local.pathHints, path);
    AdditionsRaise(base, local, MatchesAnyGlob(Extend(base, local).pathHints, path), prior);
  }

  /** A local model that brings nothing but a hint for the path. */
  lemma HintAlone(base: Model, path: string, prior: real) returns (local: Local)
    requires !SomeGlobMatches(base.pathHints, path)
    ensures AddsNoNegatives(local)
    ensures Score(base, path, prior) == ScoreIf(base, false, prior)
    ensures Score(Extend(base, local), path, prior) == ScoreIf(base, true, prior)
  {
    var pattern := SomePatternFor(path);
    local := Local("", "", [pattern], None, None, [], None, []);
    FirstGlobAppend(base.pathHints, [pattern], path);
    FirstGlobAppend(base.pathHints, [], path);
    assert base.pathHints + [] == base.pathHints;
    var model := Extend(base, local);
    assert model.evidence == base.evidence && model.negative == base.negative;
  }

  /** On a path, no local model that brings nothing negative scores below its base, if and only if a hint of
      the base already matches the path or the base loses nothing when one does. */
  lemma LocalNeverLowersExactly(base: Model, path: string, prior: real)
    ensures (forall local :: AddsNoNegatives(local) ==>
               Score(base, path, prior) <= Score(Extend(base, local), path, prior))
       <==> SomeGlobMatches(base.pathHints, path) || ScoreIf(base, false, prior) <= ScoreIf(base, true, prior)
  {
    if SomeGlobMatches(base.pathHints, path) || ScoreIf(base, false, prior) <= ScoreIf(base, true, prior) {
      forall local | AddsNoNegatives(local)
        ensures Score(base, path, prior) <= Score(Extend(base, local), path, prior) {
        ExtendedScore(base, local, path, prior);
      }
    } else {
      var local := HintAlone(base, path, prior);
      assert AddsNoNegatives(local) && Score(base, path, prior) > Score(Extend(base, local), path, prior);
    }
  }

  /** The same for confidences, which are what classifications carry. */
  lemma LocalConfidenceExactly(base: Model, path: string, prior: real)
    ensures (forall local :: AddsNoNegatives(local) ==>
               Clamp01(Score(base, path, prior)) <= Clamp01(Score(Extend(base, local), path, prior)))
       <==> SomeGlobMatches(base.pathHints, path)
            || Clamp01(ScoreIf(base, false, prior)) <= Clamp01(ScoreIf(base, true, prior))
  {
    if SomeGlobMatches(base.pathHints, path)
        || Clamp01(ScoreIf(base, false, prior)) <= Clamp01(ScoreIf(base, true, prior)) {
      forall local | AddsNoNegatives(local)
        ensures Clamp01(Score(base, path, prior)) <= Clamp01(Score(Extend(base, local), path, prior))
      {
        AdditionsKeepConfidence(base, local, path, prior);
      }
    } else {
      var local := HintAlone(base, path, prior);
      assert AddsNoNegatives(local)
             && Clamp01(Score(base, path, prior)) > Clamp01(Score(Extend(base, local), path, prior));
    }
  }

  lemma AdditionsKeepConfidence(base: Model, local: Local, path: string, prior: real)
    requires SomeGlobMatches(base.pathHints, path)
             || Clamp01(ScoreIf(base, false, prior)) <= Clamp01(ScoreIf(base, true, prior))
    requires AddsNoNegatives(local)
    ensures Clamp01(Score(base, path, prior)) <= Clamp01(Score(Extend(base, local), path, prior))
  {
    FirstGlobAppend(base.pathHints, local.pathHints, path);
    MorePatternsMatch(base.pathHints, local.pathHints, path);
    AdditionsRaise(base, local, MatchesAnyGlob(Extend(base, local).pathHints, path), prior);
  }

  /** Extending a model locally is monotone: no candidate becomes less likely, through path prior, rule
      sums, the choice of submodels and clamping. */
  lemma LocalExtensionMonotone(base: Model, local: Local, path: string, prior: real)
    requires OnlyAdds(base, local) && prior >= 0.0
    ensures Score(base, path, prior) <= Score(Extend(base, local), path, prior)
    ensures Clamp01(Score(base, path, prior)) <= Clamp01(Score(Extend(base, local), path, prior))
  {
    HintRaises(base, prior);
    ExtendedScore(base, local, path, prior);
  }

  /** So wherever the base model applies, the local one applies with at least its confidence, and it is
      accepted wherever the base is. */
  lemma LocalClassificationMonotone(base: Model, local: Local, id: string, candidate: Candidate, t: Thresholds)
    requires OnlyAdds(base, local) && t.pathPrior >= 0.0
    ensures var b, l := Evaluate(id, base, candidate, t), Evaluate(local.id, Extend(base, local), candidate, t);
            && (b.Some? <==> l.Some?)
            && (b.Some? ==> b.value.confidence <= l.value.confidence && (b.value.accepted ==> l.value.accepted))
  {
    LocalExtensionMonotone(base, local, candidate.path, t.pathPrior);
  }

  /** So the condition on path hints cannot be dropped: a negative rule of the base that asks for a path
      hint starts to count when a local model brings the first hint that matches, on any path. */
  lemma NegativeHintRuleBreaksMonotonicity(path: string) returns (base: Model, local: Local)
    ensures AddsNoNegatives(local) && Clamp01(Score(Extend(base, local), path, 0.0)) < Clamp01(Score(base, path, 0.0))
  {
    var positive, negative := Rule(0.5, false, true, true), Rule(0.3, true, false, true);
    base := Model(true, {"document"}, [], [positive], [negative], [], [], false);
    local := HintAlone(base, path, 0.0);
    OneRule(base.evidence[0], false);
    OneRule(base.negative[0], false);
    OneRule(base.evidence[0], true);
    OneRule(base.negative[0], true);
  }

  lemma OneRule(rule: Rule, hinted: bool)
    ensures RuleSum([rule], hinted) == if rule.weight > 0.0 && RuleMatches(rule, hinted) then rule.weight else 0.0
  {
    assert [rule][..0] == [];
    assert RuleSum([], hinted) == 0.0;
  }
}
