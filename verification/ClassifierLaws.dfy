/** What a classification is made of. */
module ClassifierLaws {
  // Which rules count, which submodels are named, what a local model adds and who competes (engine.go).

  import opened Options
  import opened Text
  import opened Glob
  import opened Classifier
  import opened Resolver

  // ---------------------------------------------------------------- rules

  /** A rule counts when its weight is positive, it asks for something, and all that it asks for holds. */
  predicate Counts(rule: Rule, hinted: bool) {
    rule.weight > 0.0 && rule.othersHold && (rule.usesPathHints ==> hinted) && (rule.usesPathHints || rule.hasOther)
  }

  /** A rule adds its weight when it counts and nothing otherwise, wherever it stands; no rules add up to nothing. */
  lemma EachRuleAdds(before: seq<Rule>, rule: Rule, after: seq<Rule>, hinted: bool)
    ensures RuleSum([], hinted) == 0.0
    ensures RuleSum(before + [rule] + after, hinted)
         == RuleSum(before + after, hinted) + if Counts(rule, hinted) then rule.weight else 0.0
  {
    RuleSumAppend(before + [rule], after, hinted);
    RuleSumAppend(before, [rule], hinted);
    RuleSumAppend(before, after, hinted);
    OneRule(rule, hinted);
  }

  // ---------------------------------------------------------------- one model

  /** The evidence for a submodel less the evidence against it. */
  function For(sub: Submodel, hinted: bool): real {
    RuleSum(sub.evidence, hinted) - RuleSum(sub.negative, hinted)
  }

  /** The k-th submodel is enabled with this id and score, none enabled scores more and no earlier one as much. */
  ghost predicate BestAt(subs: seq<Submodel>, hinted: bool, k: nat, id: string, score: real) {
    && k < |subs| && subs[k].enabled && subs[k].id == id && For(subs[k], hinted) == score
    && forall j :: 0 <= j < |subs| && subs[j].enabled ==>
         For(subs[j], hinted) <= score && (j < k ==> For(subs[j], hinted) < score)
  }

  /** The best submodel's id and score, or nothing when none is enabled with a positive score. */
  ghost predicate Named(subs: seq<Submodel>, hinted: bool, id: string, score: real) {
    if exists j :: 0 <= j < |subs| && subs[j].enabled && For(subs[j], hinted) > 0.0
    then exists k: nat :: BestAt(subs, hinted, k, id, score)
    else id == "" && score == 0.0
  }

  lemma BestIsNamed(subs: seq<Submodel>, hinted: bool)
    ensures Named(subs, hinted, Best(subs, hinted).0, Best(subs, hinted).1)
  {
    var net := Netting(hinted);
    var (id, score) := BestBy(net, subs);
    BestIsArgmax(net, subs);
    assert forall j :: 0 <= j < |subs| ==> For(subs[j], hinted) == net(subs[j]);
    if j :| 0 <= j < |subs| && subs[j].enabled && For(subs[j], hinted) > 0.0 {
      var k :| WinsAt(net, subs, k, id, score);
      assert BestAt(subs, hinted, k, id, score);
    }
  }

  /** A child's id with its parent's in front, unless it has none or is qualified already. */
  ghost predicate Qualified(parent: string, child: string, id: string) {
    if child == "" || '.' in child then id == child else id == parent + "." + child
  }

  lemma ChildQualified(parent: string, child: string)
    ensures Qualified(parent, child, QualifyChild(parent, child))
  {
    DotContained(child);
  }

  lemma {:induction false} DotContained(s: string)
    ensures Contains(s, ".") <==> '.' in s
  {
    if s != "" {
      DotContained(s[1..]);
      assert "." <= s <==> s[0] == '.';
      assert '.' in s <==> s[0] == '.' || '.' in s[1..];
    }
  }

  /** A model classifies a candidate if and only if it is enabled and covers the candidate's scope. It then names
      the best subformat of its subformats and the best family of its families. Its confidence is its score, cut off
      at 0 and 1: the prior for a path hint, the evidence for it less that against it, and the scores of the two.
      It is accepted when not below the rejection threshold, and the fallback always. */
  lemma EvaluateExactly(id: string, model: Model, candidate: Candidate, t: Thresholds)
    returns (subformat: string, subScore: real, family: string, familyScore: real)
    ensures Evaluate(id, model, candidate, t).Some? <==> model.enabled && candidate.scope in model.scopes
    ensures var hinted := MatchesAnyGlob(model.pathHints, candidate.path);
            && Named(model.subformats, hinted, subformat, subScore)
            && Named(model.families, hinted, family, familyScore)
            && (Evaluate(id, model, candidate, t).Some? ==>
                  var c := Evaluate(id, model, candidate, t).value;
                  var score := RuleSum(model.evidence, hinted) - RuleSum(model.negative, hinted)
                               + subScore + familyScore + if hinted then t.pathPrior else 0.0;
                  && c.classifier == id && Qualified(id, subformat, c.subformat) && Qualified(id, family, c.family)
                  && 0.0 <= c.confidence <= 1.0 && (0.0 <= score <= 1.0 ==> c.confidence == score)
                  && (score < 0.0 ==> c.confidence == 0.0) && (score > 1.0 ==> c.confidence == 1.0)
                  && (c.accepted <==> c.confidence >= t.rejectBelow || model.fallback))
  {
    var hinted := MatchesAnyGlob(model.pathHints, candidate.path);
    subformat, subScore := Best(model.subformats, hinted).0, Best(model.subformats, hinted).1;
    family, familyScore := Best(model.families, hinted).0, Best(model.families, hinted).1;
    BestIsNamed(model.subformats, hinted);
    BestIsNamed(model.families, hinted);
    ChildQualified(id, subformat);
    ChildQualified(id, family);
  }

  // ---------------------------------------------------------------- local models

  /** What a term list of a local model is worth. */
  function Worth(weight: real, present: Option<bool>): real {
    if present == Some(true) then weight else 0.0
  }

  lemma TermsAdd(weight: real, present: Option<bool>, hinted: bool)
    requires weight > 0.0
    ensures RuleSum(TermRule(weight, present), hinted) == Worth(weight, present)
  {
    if present.Some? {
      OneRule(TermRule(weight, present)[0], hinted);
    }
  }

  /** A local model scores as its base does when a hint of either matches, and then 0.20 more when the required
      headings are there, 0.12 more or less for its positive or negative terms, and its own rules' weights more or
      less. It keeps the base's submodels, scopes, switches and fallback. */
  lemma ExtendedExactly(base: Model, local: Local, path: string, prior: real)
    requires TrimPrefix("./", ToLower(path)) != ""
    ensures var hinted := SomeGlobMatches(base.pathHints, path) || SomeGlobMatches(local.pathHints, path);
            Score(Extend(base, local), path, prior)
            == ScoreIf(base, hinted, prior)
               + Worth(0.20, local.requiredHeadings) + Worth(0.12, local.positiveTerms)
               + RuleSum(local.evidence, hinted)
               - Worth(0.12, local.negativeTerms) - RuleSum(local.negativeEvidence, hinted)
    ensures var model := Extend(base, local);
            && model.enabled == base.enabled && model.scopes == base.scopes && model.fallback == base.fallback
            && model.subformats == base.subformats && model.families == base.families
  {
    var model := Extend(base, local);
    var hinted := MatchesAnyGlob(model.pathHints, path);
    var headings, terms := TermRule(0.20, local.requiredHeadings), TermRule(0.12, local.positiveTerms);
    var against := TermRule(0.12, local.negativeTerms);
    AnyGlobPlain(model.pathHints, path);
    assert forall p :: p in model.pathHints <==> p in base.pathHints || p in local.pathHints;
    RuleSumAppend(base.evidence, headings, hinted);
    RuleSumAppend(base.evidence + headings, terms, hinted);
    RuleSumAppend(base.evidence + headings + terms, local.evidence, hinted);
    RuleSumAppend(base.negative, against, hinted);
    RuleSumAppend(base.negative + against, local.negativeEvidence, hinted);
    TermsAdd(0.20, local.requiredHeadings, hinted);
    TermsAdd(0.12, local.positiveTerms, hinted);
    TermsAdd(0.12, local.negativeTerms, hinted);
  }

  // ---------------------------------------------------------------- who competes

  /** Comes from a model of the configuration. */
  ghost predicate OfModel(c: Classification, models: seq<NamedModel>, candidate: Candidate, t: Thresholds) {
    exists m :: m in models && Evaluate(m.id, m.model, candidate, t) == Some(c)
  }

  /** Comes from a local model over the first model with its base's id. */
  ghost predicate OfLocal(c: Classification, locals: seq<Local>, config: Config, candidate: Candidate) {
    exists l :: l in locals && SaysOverBase(l, config, candidate, c)
  }

  ghost predicate SaysOverBase(l: Local, config: Config, candidate: Candidate, c: Classification) {
    exists k: nat :: BaseAt(config.models, k, l.base)
                     && Evaluate(l.id, Extend(config.models[k].model, l), candidate, config.thresholds) == Some(c)
  }

  ghost predicate BaseAt(models: seq<NamedModel>, k: nat, id: string) {
    k < |models| && models[k].id == id && forall j :: 0 <= j < k ==> models[j].id != id
  }

  lemma {:induction false} FindModelFinds(models: seq<NamedModel>, id: string)
    ensures match FindModel(models, id)
            case None => forall k :: 0 <= k < |models| ==> models[k].id != id
            case Some(model) => exists k: nat :: BaseAt(models, k, id) && models[k].model == model
  {
    if models != [] {
      if models[0].id == id {
        assert BaseAt(models, 0, id);
      } else {
        FindModelFinds(models[1..], id);
        forall k | 0 < k < |models| ensures models[k] == models[1..][k - 1] {}
        if FindModel(models[1..], id).Some? {
          var k: nat :| BaseAt(models[1..], k, id) && models[1..][k].model == FindModel(models, id).value;
          assert BaseAt(models, k + 1, id);
        }
      }
    }
  }

  lemma LocalOver(l: Local, config: Config, candidate: Candidate, c: Classification)
    ensures EvaluateLocal(l, config, candidate) == Some(c) <==> SaysOverBase(l, config, candidate, c)
  {
    FindModelFinds(config.models, l.base);
  }

  lemma {:induction false} ModelsCompete(models: seq<NamedModel>, candidate: Candidate, t: Thresholds,
                                         c: Classification)
    ensures c in FromModels(models, candidate, t) <==> OfModel(c, models, candidate, t)
  {
    if models != [] {
      var n := |models| - 1;
      ModelsCompete(models[..n], candidate, t, c);
      assert forall m :: m in models <==> m in models[..n] || m == models[n];
    }
  }

  lemma {:induction false} LocalsCompete(locals: seq<Local>, config: Config, candidate: Candidate, c: Classification)
    ensures c in FromLocals(locals, config, candidate) <==> OfLocal(c, locals, config, candidate)
  {
    if locals != [] {
      var n := |locals| - 1;
      LocalsCompete(locals[..n], config, candidate, c);
      LocalOver(locals[n], config, candidate, c);
      assert forall l :: l in locals <==> l in locals[..n] || l == locals[n];
    }
  }

  lemma {:induction false} OneEach(models: seq<NamedModel>, locals: seq<Local>, config: Config, candidate: Candidate)
    ensures |FromModels(models, candidate, config.thresholds)| <= |models|
    ensures |FromLocals(locals, config, candidate)| <= |locals|
    decreases |models| + |locals|
  {
    if models != [] {
      OneEach(models[..|models| - 1], locals, config, candidate);
    } else if locals != [] {
      OneEach(models, locals[..|locals| - 1], config, candidate);
    }
  }

  /** A candidate is resolved among exactly what its models say of it and, when local models are enabled, what they
      say, each over its base. */
  lemma AllCompete(candidate: Candidate, config: Config) returns (all: seq<Classification>)
    ensures Classify(candidate, config) == Resolve(all, config.thresholds)
    ensures forall c :: c in all <==> OfModel(c, config.models, candidate, config.thresholds)
                                      || (config.localEnabled && OfLocal(c, config.locals, config, candidate))
    ensures |all| <= |config.models| + if config.localEnabled then |config.locals| else 0
  {
    var models := FromModels(config.models, candidate, config.thresholds);
    var locals := if config.localEnabled then FromLocals(config.locals, config, candidate) else [];
    all := models + locals;
    forall c ensures c in all <==> OfModel(c, config.models, candidate, config.thresholds)
                                   || (config.localEnabled && OfLocal(c, config.locals, config, candidate))
    {
      ModelsCompete(config.models, candidate, config.thresholds, c);
      LocalsCompete(config.locals, config, candidate, c);
    }
    OneEach(config.models, config.locals, config, candidate);
  }
}
