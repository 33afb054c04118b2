/** Evaluation counters of the classifier (classify/eval.go). */
module Confusions {
  // One summary per model and one entry per confusion, both collected in maps and then sorted.

  import opened Sorting
  import opened Modal

  datatype Case = Case(expected: string, actual: string)

  datatype Tally = Tally(expected: nat, predicted: nat, truePos: nat, falsePos: nat, falseNeg: nat)

  datatype Summary = Summary(model: string, tally: Tally, precision: real, recall: real)

  datatype Confusion = Confusion(expected: string, actual: string, count: nat)

  predicate Right(c: Case) {
    c.expected == c.actual
  }

  predicate Wrong(c: Case) {
    c.expected != c.actual
  }

  function One(b: bool): nat {
    if b then 1 else 0
  }

  /** The counters of model m after one more case. */
  function Add(t: Tally, c: Case, m: string): Tally {
    Tally(t.expected + One(c.expected == m), t.predicted + One(c.actual == m),
          t.truePos + One(Right(c) && c.expected == m),
          t.falsePos + One(Wrong(c) && c.actual == m), t.falseNeg + One(Wrong(c) && c.expected == m))
  }

  function TallyOf(cases: seq<Case>, m: string): Tally {
    if cases == [] then Tally(0, 0, 0, 0, 0) else Add(TallyOf(cases[..|cases| - 1], m), cases[|cases| - 1], m)
  }

  function Mentioned(cases: seq<Case>): set<string> {
    (set c | c in cases :: c.expected) + (set c | c in cases :: c.actual)
  }

  function Ratio(part: nat, whole: nat): real {
    if whole > 0 then part as real / whole as real else 0.0
  }

  function SummaryOf(model: string, t: Tally): Summary {
    Summary(model, t, Ratio(t.truePos, t.predicted), Ratio(t.truePos, t.expected))
  }

  ghost function Tallies(cases: seq<Case>): string -> Tally {
    m => TallyOf(cases, m)
  }

  function Summarizing(tallies: string -> Tally): string -> Summary {
    m => SummaryOf(m, tallies(m))
  }

  /** One summary for each model that is expected or predicted, by name. */
  ghost function SummariesOf(cases: seq<Case>): seq<Summary> {
    Map(Summarizing(Tallies(cases)), Sort(LexLe, Elements(Mentioned(cases))))
  }

  function Key(c: Case): string {
    c.expected + ("\0" + c.actual)
  }

  /** The number of wrong cases with each key. */
  function KeyCounts(cases: seq<Case>): map<string, nat> {
    if cases == [] then map[]
    else
      var before := KeyCounts(cases[..|cases| - 1]);
      var c := cases[|cases| - 1];
      if Right(c) then before else before[Key(c) := (if Key(c) in before then before[Key(c)] else 0) + 1]
  }

  function Before(key: string): string {
    if key == "" || key[0] == '\0' then "" else [key[0]] + Before(key[1..])
  }

  function After(key: string): string {
    if key == "" then "" else if key[0] == '\0' then key[1..] else After(key[1..])
  }

  function Entry(key: string, count: nat): Confusion {
    Confusion(Before(key), After(key), count)
  }

  function CountOf(counts: map<string, nat>, key: string): nat {
    if key in counts then counts[key] else 0
  }

  function Entering(counts: map<string, nat>): string -> Confusion {
    key => Entry(key, CountOf(counts, key))
  }

  predicate ConfusionLe(a: Confusion, b: Confusion) {
    if a.count == b.count then
      if a.expected == b.expected then LexLe(a.actual, b.actual) else LexLe(a.expected, b.expected)
    else a.count > b.count
  }

  /** One entry for each key, split back at the first NUL. */
  ghost function ConfusionsOf(cases: seq<Case>): seq<Confusion> {
    Sort(ConfusionLe, Map(Entering(KeyCounts(cases)), Elements(KeyCounts(cases).Keys)))
  }

  // ---------------------------------------------------------------- the source's loops

  class EvalModelSummary {
    const model: string
    var expected: nat
    var predicted: nat
    var truePos: nat
    var falsePos: nat
    var falseNeg: nat

    function Counts(): Tally
      reads this
    {
      Tally(expected, predicted, truePos, falsePos, falseNeg)
    }

    constructor (model: string)
      ensures this.model == model && Counts() == Tally(0, 0, 0, 0, 0)
    {
      this.model := model;
      expected, predicted, truePos, falsePos, falseNeg := 0, 0, 0, 0, 0;
    }
  }

  lemma {:induction false} NotMentioned(cases: seq<Case>, m: string)
    requires m !in Mentioned(cases)
    ensures TallyOf(cases, m) == Tally(0, 0, 0, 0, 0)
  {
    if cases != [] {
      var n := |cases| - 1;
      assert cases[n] in cases;
      assert Mentioned(cases[..n]) <= Mentioned(cases);
      NotMentioned(cases[..n], m);
    }
  }

  lemma MentionedStep(cases: seq<Case>, i: nat)
    requires i < |cases|
    ensures Mentioned(cases[..i + 1]) == Mentioned(cases[..i]) + {cases[i].expected, cases[i].actual}
  {
    assert cases[..i + 1] == cases[..i] + [cases[i]];
  }

  /** Each record is found under its model's name, so two names never share a record; a right case counts
      twice on one record. */
  method CountCase(models: map<string, EvalModelSummary>, c: Case)
    requires c.expected in models && c.actual in models && forall m :: m in models ==> models[m].model == m
    modifies set m | m in models :: models[m]
    ensures forall m :: m in models ==> models[m].Counts() == Add(old(models[m].Counts()), c, m)
  {
    var expected, actual := models[c.expected], models[c.actual];
    expected.expected := expected.expected + 1;
    actual.predicted := actual.predicted + 1;
    if c.expected == c.actual {
      expected.truePos := expected.truePos + 1;
    } else {
      expected.falseNeg := expected.falseNeg + 1;
      actual.falsePos := actual.falsePos + 1;
    }
  }

  method Ensure(models: map<string, EvalModelSummary>, model: string) returns (models': map<string, EvalModelSummary>)
    ensures model in models' && models'.Keys == models.Keys + {model}
    ensures forall m :: m in models ==> models'[m] == models[m]
    ensures model !in models ==>
              && fresh(models'[model]) && models'[model].model == model
              && models'[model].Counts() == Tally(0, 0, 0, 0, 0)
  {
    if model in models {
      return models;
    }
    var summary := new EvalModelSummary(model);
    models' := models[model := summary];
  }

  method EnsureBoth(models: map<string, EvalModelSummary>, c: Case, ghost before: string -> Tally)
    returns (models': map<string, EvalModelSummary>)
    requires forall m :: m in models ==> models[m].model == m && models[m].Counts() == before(m)
    requires forall m :: m !in models ==> before(m) == Tally(0, 0, 0, 0, 0)
    ensures models'.Keys == models.Keys + {c.expected, c.actual}
    ensures forall m :: m in models' ==> models'[m].model == m && models'[m].Counts() == before(m)
    ensures forall m :: m in models' ==> fresh(models'[m]) || (m in models && models'[m] == models[m])
  {
    models' := Ensure(models, c.expected);
    models' := Ensure(models', c.actual);
  }

  /** The body of the loop: before says what each model's counters are. */
  method CountNext(models: map<string, EvalModelSummary>, c: Case, ghost before: string -> Tally)
    returns (models': map<string, EvalModelSummary>)
    requires forall m :: m in models ==> models[m].model == m && models[m].Counts() == before(m)
    requires forall m :: m !in models ==> before(m) == Tally(0, 0, 0, 0, 0)
    modifies set m | m in models :: models[m]
    ensures models'.Keys == models.Keys + {c.expected, c.actual}
    ensures forall m :: m in models' ==> models'[m].model == m && models'[m].Counts() == Add(before(m), c, m)
    ensures forall m :: m in models' ==> fresh(models'[m]) || (m in models && models'[m] == models[m])
  {
    models' := EnsureBoth(models, c, before);
    CountCase(models', c);
  }

  lemma TalliesStart(cases: seq<Case>)
    ensures forall m :: m !in Mentioned(cases) ==> Tallies(cases)(m) == Tally(0, 0, 0, 0, 0)
  {
    forall m | m !in Mentioned(cases) ensures TallyOf(cases, m) == Tally(0, 0, 0, 0, 0) {
      NotMentioned(cases, m);
    }
  }

  lemma TalliesStep(cases: seq<Case>, i: nat)
    requires i < |cases|
    ensures forall m :: Tallies(cases[..i + 1])(m) == Add(Tallies(cases[..i])(m), cases[i], m)
    ensures Mentioned(cases[..i + 1]) == Mentioned(cases[..i]) + {cases[i].expected, cases[i].actual}
  {
    assert cases[..i + 1][..i] == cases[..i];
    MentionedStep(cases, i);
  }

  method CountModels(cases: seq<Case>) returns (models: map<string, EvalModelSummary>)
    ensures models.Keys == Mentioned(cases)
    ensures forall m :: m in models ==> models[m].model == m && models[m].Counts() == Tallies(cases)(m)
  {
    models := map[];
    for i := 0 to |cases|
      invariant models.Keys == Mentioned(cases[..i])
      invariant forall m :: m in models ==> fresh(models[m]) && models[m].model == m
      invariant forall m :: m in models ==> models[m].Counts() == Tallies(cases[..i])(m)
    {
      TalliesStart(cases[..i]);
      TalliesStep(cases, i);
      models := CountNext(models, cases[i], Tallies(cases[..i]));
    }
    assert cases[..|cases|] == cases;
  }

  predicate SummaryLe(a: Summary, b: Summary) {
    LexLe(a.model, b.model)
  }

  /** The models are visited in no particular order. */
  method CollectSummaries(models: map<string, EvalModelSummary>, ghost tallies: string -> Tally)
    returns (names: seq<string>, out: seq<Summary>)
    requires forall m :: m in models ==> models[m].model == m && models[m].Counts() == tallies(m)
    ensures multiset(names) == multiset(models.Keys) && out == Map(Summarizing(tallies), names)
  {
    names, out := [], [];
    var rest := models.Keys;
    while rest != {}
      invariant rest <= models.Keys && multiset(names) == multiset(models.Keys - rest)
      invariant out == Map(Summarizing(tallies), names)
      decreases |rest|
    {
      var name :| name in rest;
      var model := models[name];
      NextKey(names, rest, models.Keys, name);
      rest := rest - {name};
      names := names + [name];
      out := out + [SummaryOf(model.model, model.Counts())];
    }
    assert models.Keys - rest == models.Keys;
  }

  lemma NextKey(names: seq<string>, rest: set<string>, all: set<string>, x: string)
    requires rest <= all && x in rest && multiset(names) == multiset(all - rest)
    ensures multiset(names + [x]) == multiset(all - (rest - {x}))
  {
    NewWinner(multiset(names), all - rest, x);
    assert all - (rest - {x}) == all - rest + {x};
  }

  lemma SummariesSorted(names: seq<string>, tallies: string -> Tally, models: set<string>)
    requires multiset(names) == multiset(models)
    ensures Sort(SummaryLe, Map(Summarizing(tallies), names))
            == Map(Summarizing(tallies), Sort(LexLe, Elements(models)))
  {
    MapSort(LexLe, SummaryLe, Summarizing(tallies), names);
    SortedElements(names, models);
  }

  method SummarizeEvalModels(cases: seq<Case>) returns (out: seq<Summary>)
    ensures out == SummariesOf(cases)
  {
    var models := CountModels(cases);
    var names, collected := CollectSummaries(models, Tallies(cases));
    SummariesSorted(names, Tallies(cases), Mentioned(cases));
    out := Sort(SummaryLe, collected);
  }

  method CountConfusions(cases: seq<Case>) returns (counts: map<string, nat>)
    ensures counts == KeyCounts(cases)
  {
    counts := map[];
    for i := 0 to |cases|
      invariant counts == KeyCounts(cases[..i])
    {
      assert cases[..i + 1][..i] == cases[..i];
      var c := cases[i];
      if c.expected == c.actual {
        continue;
      }
      var key := Key(c);
      counts := counts[key := CountOf(counts, key) + 1];
    }
    assert cases[..|cases|] == cases;
  }

  method CollectConfusions(counts: map<string, nat>) returns (out: seq<Confusion>, ghost keys: seq<string>)
    ensures multiset(keys) == multiset(counts.Keys) && out == Map(Entering(counts), keys)
  {
    keys, out := [], [];
    var rest := counts.Keys;
    while rest != {}
      invariant rest <= counts.Keys && multiset(keys) == multiset(counts.Keys - rest)
      invariant out == Map(Entering(counts), keys)
      decreases |rest|
    {
      var key :| key in rest;
      NextKey(keys, rest, counts.Keys, key);
      rest := rest - {key};
      keys := keys + [key];
      out := out + [Entry(key, CountOf(counts, key))];
    }
    assert counts.Keys - rest == counts.Keys;
  }

  lemma ConfusionLeTotal()
    ensures TotalPreorder(ConfusionLe)
  {
    forall a, b ensures ConfusionLe(a, b) || ConfusionLe(b, a) {
      LexTotal(a.actual, b.actual);
      LexTotal(a.expected, b.expected);
    }
    forall a, b, c | ConfusionLe(a, b) && ConfusionLe(b, c) ensures ConfusionLe(a, c) {
      ConfusionLeTransitive(a, b, c);
    }
  }

  lemma ConfusionLeTransitive(a: Confusion, b: Confusion, c: Confusion)
    requires ConfusionLe(a, b) && ConfusionLe(b, c)
    ensures ConfusionLe(a, c)
  {
    if a.count == b.count == c.count {
      LexTotal(a.expected, b.expected);
      LexTotal(b.expected, c.expected);
      if LexLe(a.expected, b.expected) && LexLe(b.expected, c.expected) {
        LexTransitive(a.expected, b.expected, c.expected);
      }
      if a.expected == b.expected == c.expected {
        LexTransitive(a.actual, b.actual, c.actual);
      } else {
        LexTotal(a.expected, c.expected);
      }
    }
  }

  lemma ConfusionNoTies(s: seq<Confusion>)
    ensures NoTies(ConfusionLe, s)
  {
    forall x, y | x in s && y in s && ConfusionLe(x, y) && ConfusionLe(y, x) ensures x == y {
      LexTotal(x.actual, y.actual);
      LexTotal(x.expected, y.expected);
    }
  }

  method SummarizeEvalConfusions(cases: seq<Case>) returns (out: seq<Confusion>)
    ensures out == ConfusionsOf(cases)
  {
    var counts := CountConfusions(cases);
    ghost var keys;
    out, keys := CollectConfusions(counts);
    ConfusionsSorted(keys, counts);
    out := Sort(ConfusionLe, out);
  }

  lemma ConfusionsSorted(keys: seq<string>, counts: map<string, nat>)
    requires multiset(keys) == multiset(counts.Keys)
    ensures Sort(ConfusionLe, Map(Entering(counts), keys))
            == Sort(ConfusionLe, Map(Entering(counts), Elements(counts.Keys)))
  {
    MapPermutes(Entering(counts), keys, Elements(counts.Keys));
    ConfusionLeTotal();
    ConfusionNoTies(Map(Entering(counts), keys));
    SortIgnoresOrder(ConfusionLe, Map(Entering(counts), keys), Map(Entering(counts), Elements(counts.Keys)));
  }
}
