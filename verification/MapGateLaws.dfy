/** Laws of the action-quality gate. */
module MapGateLaws {
  // The gate lets exactly the outputs with the same actions through, when no evidence count is zero; so acceptance
  // is a preorder and no chain of accepted outputs drifts.

  import opened Options
  import opened Sorting
  import opened MapGate

  // ---------------------------------------------------------------- the actions an output stands for

  /** A suppressed suggestion is no action; extensions and labels count whatever their order. */
  datatype PackAction = PackAction(decision: string, selectedTrySource: string, trySuppressed: bool,
                                   suggestion: Option<(string, string)>, missingKeyExtensions: multiset<string>)

  datatype AreaAction = AreaAction(names: seq<string>, confidence: string, umbrella: bool, lists: seq<seq<string>>,
                                   evidenceCounts: map<string, int>, try: string, caveats: Option<seq<string>>,
                                   key: string, traceReceiptMode: string, packability: Option<PackAction>)

  datatype OutputAction = OutputAction(schema: string, repo: Repo, evidence: Evidence, areaQuery: string,
                                       matchedAreaCount: int,
                                       suppressedLabels: multiset<string>, areas: seq<AreaAction>)

  function ActionOfPack(p: Packability): PackAction {
    PackAction(p.decision, p.selectedTrySource, p.trySuppressed,
               if p.trySuppressed then None else Some((p.suppressedTry, p.suppressedTrySource)),
               multiset(p.missingKeyExtensions))
  }

  function ActionOfPacks(p: Option<Packability>): Option<PackAction> {
    if p.None? then None else Some(ActionOfPack(p.value))
  }

  function ActionOfArea(a: Area): AreaAction {
    AreaAction([a.id, a.areaLabel, a.classOf, a.areaType, a.boundaryRole, a.purpose], a.confidence, a.umbrella,
               [a.adjacentSystems, a.covers, a.keyPaths], a.evidenceCounts, a.try, a.caveats,
               a.diagnostics.key, a.diagnostics.traceReceiptMode, ActionOfPacks(a.diagnostics.packability))
  }

  function ActionsOf(o: MapOutput): OutputAction {
    OutputAction(o.schema, o.repo, o.evidence, o.diagnostics.areaQuery, o.diagnostics.matchedAreaCount,
                 multiset(o.diagnostics.suppressedLabels),
                 seq(|o.areas|, i requires 0 <= i < |o.areas| => ActionOfArea(o.areas[i])))
  }

  predicate Accepted(b: MapOutput, c: MapOutput) {
    !Gate(Some(b), Some(c)).Rejected?
  }

  predicate CaveatsKept(b: seq<string>, c: seq<string>) {
    c == b || c == Remove(b, IndexRequiredCaveat)
  }

  predicate NonZero(m: map<string, int>) {
    forall k :: k in m ==> m[k] != 0
  }

  predicate CountsNonZero(o: MapOutput) {
    forall i :: 0 <= i < |o.areas| ==> NonZero(o.areas[i].evidenceCounts)
  }

  // ---------------------------------------------------------------- acceptance is the absence of changes

  ghost predicate NoChange(checks: seq<Check>) {
    forall x :: x in checks ==> !x.verdict.Changed?
  }

  lemma {:induction false} ActionDiffsGrow(d: Diffs, checks: seq<Check>)
    ensures |d.action| <= |ApplyAll(d, checks).action|
    ensures |ApplyAll(d, checks).action| == |d.action| <==> NoChange(checks)
    decreases |checks|
  {
    if checks != [] {
      ActionDiffsGrow(Apply(d, checks[0]), checks[1..]);
      assert forall x :: x in checks <==> x == checks[0] || x in checks[1..];
    }
  }

  lemma AcceptedMeans(b: MapOutput, c: MapOutput)
    ensures Accepted(b, c) <==> NoChange(OutputChecks(b, c))
  {
    ActionDiffsGrow(Diffs([], []), OutputChecks(b, c));
  }

  lemma NoChangeAppend(a: seq<Check>, b: seq<Check>)
    ensures NoChange(a + b) <==> NoChange(a) && NoChange(b)
  {
    assert forall x :: x in a + b <==> x in a || x in b;
  }

  lemma NoChange1(x: Check)
    ensures NoChange([x]) <==> !x.verdict.Changed?
  {
    assert x in [x];
  }

  lemma NoChange2(x: Check, y: Check)
    ensures NoChange([x, y]) <==> !x.verdict.Changed? && !y.verdict.Changed?
  {
    assert x in [x, y] && y in [x, y];
  }

  lemma NoChange3(x: Check, y: Check, z: Check)
    ensures NoChange([x, y, z]) <==> !x.verdict.Changed? && !y.verdict.Changed? && !z.verdict.Changed?
  {
    assert x in [x, y, z] && y in [x, y, z] && z in [x, y, z];
  }

  // ---------------------------------------------------------------- the fields, one group at a time

  lemma StringSets(a: seq<string>, b: seq<string>)
    ensures a == b || StringSetEqual(a, b) <==> multiset(a) == multiset(b)
  {
    SortPermutes(LexLe, a);
    SortPermutes(LexLe, b);
    if multiset(a) == multiset(b) {
      LexLeTotalPreorder();
      forall x, y | x in a && y in a && LexLe(x, y) && LexLe(y, x) ensures x == y {
        LexTotal(x, y);
      }
      SortIgnoresOrder(LexLe, a, b);
      assert |multiset(a)| == |multiset(b)|;
    }
  }

  lemma TryAction(i: nat, b: Packability, c: Packability)
    requires b.decision == c.decision && b.trySuppressed == c.trySuppressed
    ensures NoChange(TryChecks(i, b, c)) <==> ActionOfPack(b).suggestion == ActionOfPack(c).suggestion
  {
    if BothSuppressed(b, c) {
      NoChange1(TryChecks(i, b, c)[0]);
    } else {
      NoChange2(TryChecks(i, b, c)[0], TryChecks(i, b, c)[1]);
    }
  }

  lemma PackabilityAction(i: nat, b: Option<Packability>, c: Option<Packability>)
    ensures NoChange(PackabilityChecks(i, b, c)) <==> ActionOfPacks(b) == ActionOfPacks(c)
  {
    if b.Some? && c.Some? {
      var x, y := b.value, c.value;
      var decision, suggestion, support := DecisionChecks(i, x, y), TryChecks(i, x, y), SupportChecks(i, x, y);
      NoChangeAppend(decision, suggestion);
      NoChangeAppend(decision + suggestion, support);
      NoChange2(decision[0], decision[1]);
      NoChange3(support[0], support[1], support[2]);
      StringSets(x.missingKeyExtensions, y.missingKeyExtensions);
      if x.decision == y.decision && x.trySuppressed == y.trySuppressed {
        TryAction(i, x, y);
      }
    } else if b.Some? || c.Some? {
      NoChange1(Check(InArea(i, Packable), Changed));
    }
  }

  lemma NamesAction(i: nat, b: Area, c: Area)
    ensures NoChange(NameChecks(i, b, c)) <==> ActionOfArea(b).names == ActionOfArea(c).names
  {
    var checks := NameChecks(i, b, c);
    var x, y := ActionOfArea(b).names, ActionOfArea(c).names;
    NoChangeAppend([checks[0], checks[1], checks[2]], [checks[3], checks[4], checks[5]]);
    NoChange3(checks[0], checks[1], checks[2]);
    NoChange3(checks[3], checks[4], checks[5]);
    assert x == y <==> x[0] == y[0] && x[1] == y[1] && x[2] == y[2] && x[3] == y[3] && x[4] == y[4] && x[5] == y[5];
  }

  lemma ContentAction(i: nat, b: Area, c: Area)
    ensures NoChange(ContentChecks(i, b, c))
       <==> ActionOfArea(b).lists == ActionOfArea(c).lists && b.confidence == c.confidence && b.umbrella == c.umbrella
            && CountsMatch(b.evidenceCounts, c.evidenceCounts)
  {
    var checks := ContentChecks(i, b, c);
    var x, y := ActionOfArea(b).lists, ActionOfArea(c).lists;
    NoChangeAppend([checks[0], checks[1], checks[2]], [checks[3], checks[4], checks[5]]);
    NoChange3(checks[0], checks[1], checks[2]);
    NoChange3(checks[3], checks[4], checks[5]);
    assert x == y <==> x[0] == y[0] && x[1] == y[1] && x[2] == y[2];
  }

  lemma ShownAction(i: nat, b: Area, c: Area)
    ensures NoChange(ShownChecks(i, b, c)) <==> b.try == c.try && b.caveats == c.caveats
  {
    var checks := ShownChecks(i, b, c);
    NoChangeAppend([checks[0], checks[1]], [checks[2], checks[3]]);
    NoChange2(checks[0], checks[1]);
    NoChange2(checks[2], checks[3]);
  }

  lemma AreaDiagnosticsAction(i: nat, b: AreaDiagnostics, c: AreaDiagnostics)
    ensures NoChange(AreaDiagnosticsChecks(i, b, c))
       <==> b.key == c.key && b.traceReceiptMode == c.traceReceiptMode
            && ActionOfPacks(b.packability) == ActionOfPacks(c.packability)
  {
    var keys, traces := KeyChecks(i, b, c), TraceChecks(i, b, c);
    NoChangeAppend(keys, traces);
    NoChangeAppend(keys + traces, PackabilityChecks(i, b.packability, c.packability));
    NoChange2(keys[0], keys[1]);
    NoChange3(traces[0], traces[1], traces[2]);
    PackabilityAction(i, b.packability, c.packability);
  }

  /** All of an area's actions but its evidence counts. */
  function Uncounted(a: Area): AreaAction {
    ActionOfArea(a).(evidenceCounts := map[])
  }

  predicate AreaKept(b: Area, c: Area) {
    CountsMatch(b.evidenceCounts, c.evidenceCounts) && Uncounted(b) == Uncounted(c)
  }

  lemma AreaActions(i: nat, b: Area, c: Area)
    ensures NoChange(AreaChecks(i, b, c)) <==> AreaKept(b, c)
  {
    var names, content, shown := NameChecks(i, b, c), ContentChecks(i, b, c), ShownChecks(i, b, c);
    NoChangeAppend(names, content);
    NoChangeAppend(names + content, shown);
    NoChangeAppend(names + content + shown, AreaDiagnosticsChecks(i, b.diagnostics, c.diagnostics));
    NamesAction(i, b, c);
    ContentAction(i, b, c);
    ShownAction(i, b, c);
    AreaDiagnosticsAction(i, b.diagnostics, c.diagnostics);
  }

  lemma {:induction false} AreasPass(ofArea: (nat, Area, Area) -> seq<Check>, b: seq<Area>, c: seq<Area>, n: nat)
    requires n <= |b| && n <= |c|
    ensures NoChange(AreasChecks(ofArea, b, c, n)) <==> forall i: nat :: i < n ==> NoChange(ofArea(i, b[i], c[i]))
  {
    if n > 0 {
      AreasPass(ofArea, b, c, n - 1);
      NoChangeAppend(AreasChecks(ofArea, b, c, n - 1), ofArea(n - 1, b[n - 1], c[n - 1]));
    }
  }

  lemma AreasActions(b: seq<Area>, c: seq<Area>, n: nat)
    requires n <= |b| && n <= |c|
    ensures NoChange(AreasChecks(AreaChecks, b, c, n)) <==> forall i :: 0 <= i < n ==> AreaKept(b[i], c[i])
  {
    AreasPass(AreaChecks, b, c, n);
    forall i: nat | i < n ensures NoChange(AreaChecks(i, b[i], c[i])) <==> AreaKept(b[i], c[i]) {
      AreaActions(i, b[i], c[i]);
    }
  }

  lemma {:induction false} RemoveShortens(s: seq<string>, x: string)
    ensures |Remove(s, x)| <= |s| && (|Remove(s, x)| == |s| ==> Remove(s, x) == s)
    ensures x !in Remove(s, x)
  {
    if s != [] {
      RemoveShortens(s[..|s| - 1], x);
    }
  }

  lemma {:induction false} RemoveAbsent(s: seq<string>, x: string)
    requires x !in s
    ensures Remove(s, x) == s
  {
    if s != [] {
      RemoveAbsent(s[..|s| - 1], x);
    }
  }

  /** All of an output's actions but those of its areas. */
  function HeadOf(o: MapOutput): OutputAction {
    ActionsOf(o).(areas := [])
  }

  predicate OutputKept(b: MapOutput, c: MapOutput) {
    && HeadOf(b) == HeadOf(c) && CaveatsKept(b.caveats, c.caveats) && |b.areas| == |c.areas|
    && forall i :: 0 <= i < |b.areas| ==> AreaKept(b.areas[i], c.areas[i])
  }

  lemma HeadAction(b: MapOutput, c: MapOutput)
    ensures NoChange(HeadChecks(b, c) + DiagnosticsChecks(b.diagnostics, c.diagnostics))
       <==> HeadOf(b) == HeadOf(c) && CaveatsKept(b.caveats, c.caveats)
  {
    var head, diagnostics := HeadChecks(b, c), DiagnosticsChecks(b.diagnostics, c.diagnostics);
    NoChangeAppend(head, diagnostics);
    NoChangeAppend([head[0], head[1]], [head[2], head[3]]);
    NoChange2(head[0], head[1]);
    NoChange2(head[2], head[3]);
    NoChangeAppend([diagnostics[0], diagnostics[1]], [diagnostics[2], diagnostics[3]]);
    NoChange2(diagnostics[0], diagnostics[1]);
    NoChange2(diagnostics[2], diagnostics[3]);
    StringSets(b.diagnostics.suppressedLabels, c.diagnostics.suppressedLabels);
    RemoveShortens(b.caveats, IndexRequiredCaveat);
  }

  lemma AcceptedKeeps(b: MapOutput, c: MapOutput)
    ensures Accepted(b, c) <==> OutputKept(b, c)
  {
    AcceptedMeans(b, c);
    HeadAction(b, c);
    var checks := HeadChecks(b, c) + DiagnosticsChecks(b.diagnostics, c.diagnostics);
    if |b.areas| != |c.areas| {
      NoChangeAppend(checks, [Check(Top(AreaCount), Changed)]);
      NoChange1(Check(Top(AreaCount), Changed));
    } else {
      NoChangeAppend(checks, AreasChecks(AreaChecks, b.areas, c.areas, |b.areas|));
      AreasActions(b.areas, c.areas, |b.areas|);
    }
  }

  // ---------------------------------------------------------------- evidence counts

  lemma {:induction false} SameSizeSubset(a: set<string>, b: set<string>)
    requires a <= b && |a| == |b|
    ensures a == b
  {
    assert |b - a| == |b| - |a|;
    assert b == a + (b - a);
  }

  lemma CountsMatchEqual(b: map<string, int>, c: map<string, int>)
    requires NonZero(b)
    ensures CountsMatch(b, c) <==> b == c
  {
    if CountsMatch(b, c) {
      forall k | k in b ensures k in c && c[k] == b[k] {
        assert Count(c, k) == b[k];
      }
      SameSizeSubset(b.Keys, c.Keys);
      forall k | k in c ensures k in b {
        assert k in c.Keys;
      }
    }
  }

  lemma {:induction false} LongerThanAll(keys: set<string>) returns (key: string)
    ensures forall k :: k in keys ==> |k| < |key|
    decreases |keys|
  {
    if keys == {} {
      key := "a";
    } else {
      var k :| k in keys;
      var longest := LongerThanAll(keys - {k});
      key := if |longest| > |k| then longest else k + "a";
      forall j | j in keys ensures |j| < |key| {
        if j != k {
          assert j in keys - {k};
        }
      }
    }
  }

  /** A map with a zero count matches another map: the key is traded for a new one. */
  lemma ZeroCountDrifts(b: map<string, int>) returns (c: map<string, int>)
    requires !NonZero(b)
    ensures CountsMatch(b, c) && b != c
  {
    var zero :| zero in b && b[zero] == 0;
    var key := LongerThanAll(b.Keys);
    c := (map k | k in b && k != zero :: b[k])[key := 5];
    assert key !in b && zero !in c;
    assert c.Keys == b.Keys - {zero} + {key};
  }

  /** Two steps from a map with a zero count reach one that it does not match: the key is traded for a new
      one that counts zero, and comes back with a count. */
  lemma ZeroCountReturns(a: map<string, int>) returns (b: map<string, int>, c: map<string, int>)
    requires !NonZero(a)
    ensures CountsMatch(a, b) && CountsMatch(b, c) && !CountsMatch(a, c)
  {
    var zero :| zero in a && a[zero] == 0;
    var key := LongerThanAll(a.Keys);
    var rest := map k | k in a && k != zero :: a[k];
    b, c := rest[key := 0], rest[zero := 7];
    assert key !in a && zero !in b && key !in c && Count(c, zero) == 7;
    assert rest.Keys == a.Keys - {zero} && b.Keys == rest.Keys + {key} && c.Keys == a.Keys;
    assert |rest.Keys| == |a.Keys| - 1 && |b.Keys| == |a.Keys|;
  }

  // ---------------------------------------------------------------- the laws

  lemma KeptActions(b: MapOutput, c: MapOutput)
    requires CountsNonZero(b)
    ensures OutputKept(b, c) <==> ActionsOf(b) == ActionsOf(c) && CaveatsKept(b.caveats, c.caveats)
  {
    forall i | 0 <= i < |b.areas| && i < |c.areas|
      ensures AreaKept(b.areas[i], c.areas[i]) <==> ActionOfArea(b.areas[i]) == ActionOfArea(c.areas[i])
    {
      CountsMatchEqual(b.areas[i].evidenceCounts, c.areas[i].evidenceCounts);
    }
    SameAreas(b, c);
  }

  lemma SameAreas(b: MapOutput, c: MapOutput)
    ensures ActionsOf(b) == ActionsOf(c)
       <==> HeadOf(b) == HeadOf(c) && |b.areas| == |c.areas|
            && forall i :: 0 <= i < |b.areas| ==> ActionOfArea(b.areas[i]) == ActionOfArea(c.areas[i])
  {
    var x, y := ActionsOf(b).areas, ActionsOf(c).areas;
    assert forall i :: 0 <= i < |b.areas| ==> x[i] == ActionOfArea(b.areas[i]);
    assert forall i :: 0 <= i < |c.areas| ==> y[i] == ActionOfArea(c.areas[i]);
    assert ActionsOf(b) == HeadOf(b).(areas := x) && ActionsOf(c) == HeadOf(c).(areas := y);
    if HeadOf(b) == HeadOf(c) && |b.areas| == |c.areas|
       && forall i :: 0 <= i < |b.areas| ==> ActionOfArea(b.areas[i]) == ActionOfArea(c.areas[i]) {
      assert x == y;
    }
  }

  /** With no zero evidence count in the baseline, a candidate is accepted exactly when its actions are the
      baseline's and its caveats are the same or lose the index caveat. */
  lemma AcceptedExactly(b: MapOutput, c: MapOutput)
    requires CountsNonZero(b)
    ensures Accepted(b, c) <==> ActionsOf(b) == ActionsOf(c) && CaveatsKept(b.caveats, c.caveats)
  {
    AcceptedKeeps(b, c);
    KeptActions(b, c);
  }

  lemma AcceptanceIsReflexive(b: MapOutput)
    ensures Accepted(b, b)
  {
    AcceptedKeeps(b, b);
  }

  lemma SameActionsNonZero(b: MapOutput, c: MapOutput)
    requires CountsNonZero(b) && ActionsOf(b) == ActionsOf(c)
    ensures CountsNonZero(c)
  {
    forall i | 0 <= i < |c.areas| ensures NonZero(c.areas[i].evidenceCounts) {
      assert |ActionsOf(b).areas| == |ActionsOf(c).areas| && ActionsOf(b).areas[i] == ActionsOf(c).areas[i];
      assert NonZero(b.areas[i].evidenceCounts);
      assert ActionOfArea(b.areas[i]).evidenceCounts == ActionOfArea(c.areas[i]).evidenceCounts;
    }
  }

  lemma CaveatsKeptTransitive(a: seq<string>, b: seq<string>, c: seq<string>)
    requires CaveatsKept(a, b) && CaveatsKept(b, c)
    ensures CaveatsKept(a, c)
  {
    RemoveShortens(a, IndexRequiredCaveat);
    RemoveAbsent(Remove(a, IndexRequiredCaveat), IndexRequiredCaveat);
  }

  /** Acceptance is transitive from a baseline without zero counts. */
  lemma AcceptanceIsTransitive(a: MapOutput, b: MapOutput, c: MapOutput)
    requires CountsNonZero(a) && Accepted(a, b) && Accepted(b, c)
    ensures Accepted(a, c) && ActionsOf(a) == ActionsOf(c)
  {
    AcceptedExactly(a, b);
    SameActionsNonZero(a, b);
    AcceptedExactly(b, c);
    CaveatsKeptTransitive(a.caveats, b.caveats, c.caveats);
    AcceptedExactly(a, c);
  }

  /** A chain of accepted outputs, each compared with the one before, never drifts from the first. */
  lemma {:induction false} AcceptedChainsDoNotDrift(outputs: seq<MapOutput>)
    requires outputs != [] && CountsNonZero(outputs[0])
    requires forall i, j :: 0 <= i && j == i + 1 < |outputs| ==> Accepted(outputs[i], outputs[j])
    ensures forall k :: 0 <= k < |outputs| ==>
              ActionsOf(outputs[k]) == ActionsOf(outputs[0]) && Accepted(outputs[0], outputs[k])
  {
    var n := |outputs| - 1;
    if n == 0 {
      AcceptanceIsReflexive(outputs[0]);
    } else {
      AcceptedChainsDoNotDrift(outputs[..n]);
      assert outputs[..n][0] == outputs[0] && outputs[..n][n - 1] == outputs[n - 1];
      assert Accepted(outputs[n - 1], outputs[n]);
      AcceptanceIsTransitive(outputs[0], outputs[n - 1], outputs[n]);
      forall k | 0 <= k < |outputs|
        ensures ActionsOf(outputs[k]) == ActionsOf(outputs[0]) && Accepted(outputs[0], outputs[k])
      {
        if k < n {
          assert outputs[..n][k] == outputs[k];
        }
      }
    }
  }

  /** The same output with other counts in one area. */
  function Recounted(o: MapOutput, i: nat, counts: map<string, int>): MapOutput
    requires i < |o.areas|
  {
    o.(areas := o.areas[i := o.areas[i].(evidenceCounts := counts)])
  }

  lemma RecountedAccepted(o: MapOutput, i: nat, x: map<string, int>, y: map<string, int>)
    requires i < |o.areas|
    ensures Accepted(Recounted(o, i, x), Recounted(o, i, y)) <==> CountsMatch(x, y)
  {
    var b, c := Recounted(o, i, x), Recounted(o, i, y);
    AcceptedKeeps(b, c);
    assert HeadOf(b) == HeadOf(c);
    forall j | 0 <= j < |o.areas| ensures AreaKept(b.areas[j], c.areas[j]) <==> (j == i ==> CountsMatch(x, y)) {}
    assert AreaKept(b.areas[i], c.areas[i]) <==> CountsMatch(x, y);
  }

  lemma RecountedSame(o: MapOutput, i: nat)
    requires i < |o.areas|
    ensures Recounted(o, i, o.areas[i].evidenceCounts) == o
  {
    assert o.areas[i := o.areas[i]] == o.areas;
  }

  lemma ZeroCountBreaksComposition(a: MapOutput, i: nat) returns (b: MapOutput, c: MapOutput)
    requires i < |a.areas| && !NonZero(a.areas[i].evidenceCounts)
    ensures Accepted(a, b) && Accepted(b, c) && !Accepted(a, c)
  {
    var x := a.areas[i].evidenceCounts;
    var y, z := ZeroCountReturns(x);
    b, c := Recounted(a, i, y), Recounted(a, i, z);
    RecountedSame(a, i);
    RecountedAccepted(a, i, x, y);
    RecountedAccepted(a, i, y, z);
    RecountedAccepted(a, i, x, z);
  }

  /** From an output acceptance composes, for all further outputs, if and only if it has no zero evidence count. */
  lemma AcceptanceComposesExactly(a: MapOutput)
    ensures (forall b, c :: Accepted(a, b) && Accepted(b, c) ==> Accepted(a, c)) <==> CountsNonZero(a)
  {
    if CountsNonZero(a) {
      forall b, c | Accepted(a, b) && Accepted(b, c) ensures Accepted(a, c) {
        AcceptanceIsTransitive(a, b, c);
      }
    } else {
      var i :| 0 <= i < |a.areas| && !NonZero(a.areas[i].evidenceCounts);
      var b, c := ZeroCountBreaksComposition(a, i);
      assert Accepted(a, b) && Accepted(b, c) && !Accepted(a, c);
    }
  }

  lemma ZeroCountAccepted(b: MapOutput, i: nat) returns (c: MapOutput)
    requires i < |b.areas| && !NonZero(b.areas[i].evidenceCounts)
    ensures Accepted(b, c) && ActionsOf(b) != ActionsOf(c)
  {
    var counts := ZeroCountDrifts(b.areas[i].evidenceCounts);
    c := Recounted(b, i, counts);
    RecountedSame(b, i);
    RecountedAccepted(b, i, b.areas[i].evidenceCounts, counts);
    SameAreas(b, c);
    assert ActionOfArea(b.areas[i]).evidenceCounts != ActionOfArea(c.areas[i]).evidenceCounts;
  }

  /** Every accepted candidate has the baseline's actions if and only if the baseline has no zero evidence
      count: the comparison of counts reads an absent key as zero. */
  lemma GateIsSoundExactly(b: MapOutput)
    ensures (forall c :: Accepted(b, c) ==> ActionsOf(b) == ActionsOf(c)) <==> CountsNonZero(b)
  {
    if CountsNonZero(b) {
      forall c | Accepted(b, c) ensures ActionsOf(b) == ActionsOf(c) {
        AcceptedExactly(b, c);
      }
    } else {
      var i :| 0 <= i < |b.areas| && !NonZero(b.areas[i].evidenceCounts);
      var c := ZeroCountAccepted(b, i);
      assert Accepted(b, c);
    }
  }
  /** Outputs each of which was accepted against the one before. */
  ghost predicate Chain(outputs: seq<MapOutput>) {
    outputs != [] && forall i, j :: 0 <= i && j == i + 1 < |outputs| ==> Accepted(outputs[i], outputs[j])
  }

  ghost predicate Drifts(outputs: seq<MapOutput>) {
    exists k :: 0 <= k < |outputs|
                && (ActionsOf(outputs[k]) != ActionsOf(outputs[0]) || !Accepted(outputs[0], outputs[k]))
  }

  /** No chain of accepted outputs drifts from its first if and only if that has no zero evidence count. */
  lemma ChainsDoNotDriftExactly(a: MapOutput)
    ensures (forall outputs :: Chain(outputs) && outputs[0] == a ==> !Drifts(outputs)) <==> CountsNonZero(a)
  {
    if CountsNonZero(a) {
      forall outputs | Chain(outputs) && outputs[0] == a ensures !Drifts(outputs) {
        AcceptedChainsDoNotDrift(outputs);
      }
    } else {
      var i :| 0 <= i < |a.areas| && !NonZero(a.areas[i].evidenceCounts);
      var c := ZeroCountAccepted(a, i);
      assert [a, c][1] == c && [a, c][0] == a;
      assert Chain([a, c]) && Drifts([a, c]);
    }
  }

  // ---------------------------------------------------------------- what each status says

  ghost predicate AllSame(checks: seq<Check>) {
    forall x :: x in checks ==> x.verdict.Same?
  }

  lemma {:induction false} DiffsEmpty(d: Diffs, checks: seq<Check>)
    ensures ApplyAll(d, checks) == Diffs([], []) <==> d == Diffs([], []) && AllSame(checks)
    decreases |checks|
  {
    if checks != [] {
      DiffsEmpty(Apply(d, checks[0]), checks[1..]);
      assert forall x :: x in checks <==> x == checks[0] || x in checks[1..];
      assert Apply(d, checks[0]) == Diffs([], []) <==> d == Diffs([], []) && checks[0].verdict.Same?;
    }
  }

  lemma SameAppend(a: seq<Check>, b: seq<Check>)
    ensures AllSame(a + b) <==> AllSame(a) && AllSame(b)
  {
    assert forall x :: x in a + b <==> x in a || x in b;
  }

  lemma Same1(x: Check)
    ensures AllSame([x]) <==> x.verdict.Same?
  {
    assert x in [x];
  }

  lemma Same2(x: Check, y: Check)
    ensures AllSame([x, y]) <==> x.verdict.Same? && y.verdict.Same?
  {
    assert x in [x, y] && y in [x, y];
  }

  lemma Same3(x: Check, y: Check, z: Check)
    ensures AllSame([x, y, z]) <==> x.verdict.Same? && y.verdict.Same? && z.verdict.Same?
  {
    assert x in [x, y, z] && y in [x, y, z] && z in [x, y, z];
  }

  lemma SameHead(b: MapOutput, c: MapOutput)
    ensures AllSame(HeadChecks(b, c) + DiagnosticsChecks(b.diagnostics, c.diagnostics)) <==> b == c.(areas := b.areas)
  {
    var head, diagnostics := HeadChecks(b, c), DiagnosticsChecks(b.diagnostics, c.diagnostics);
    SameAppend(head, diagnostics);
    SameAppend([head[0], head[1]], [head[2], head[3]]);
    Same2(head[0], head[1]);
    Same2(head[2], head[3]);
    SameAppend([diagnostics[0], diagnostics[1]], [diagnostics[2], diagnostics[3]]);
    Same2(diagnostics[0], diagnostics[1]);
    Same2(diagnostics[2], diagnostics[3]);
  }

  lemma SameTry(i: nat, b: Packability, c: Packability)
    requires b.decision == c.decision && b.trySuppressed == c.trySuppressed
    ensures AllSame(TryChecks(i, b, c))
       <==> b.suppressedTry == c.suppressedTry && b.suppressedTrySource == c.suppressedTrySource
  {
    if BothSuppressed(b, c) {
      Same1(TryChecks(i, b, c)[0]);
    } else {
      Same2(TryChecks(i, b, c)[0], TryChecks(i, b, c)[1]);
    }
  }

  lemma SamePackability(i: nat, b: Option<Packability>, c: Option<Packability>)
    ensures AllSame(PackabilityChecks(i, b, c)) <==> b == c
  {
    if b.Some? && c.Some? {
      var x, y := b.value, c.value;
      var decision, suggestion, support := DecisionChecks(i, x, y), TryChecks(i, x, y), SupportChecks(i, x, y);
      SameAppend(decision, suggestion);
      SameAppend(decision + suggestion, support);
      Same2(decision[0], decision[1]);
      Same3(support[0], support[1], support[2]);
      if x.decision == y.decision && x.trySuppressed == y.trySuppressed {
        SameTry(i, x, y);
      }
    } else if b.Some? || c.Some? {
      Same1(Check(InArea(i, Packable), Changed));
    }
  }

  lemma SameDiagnostics(i: nat, b: AreaDiagnostics, c: AreaDiagnostics)
    ensures AllSame(AreaDiagnosticsChecks(i, b, c)) <==> b == c
  {
    var keys, traces := KeyChecks(i, b, c), TraceChecks(i, b, c);
    SameAppend(keys, traces);
    SameAppend(keys + traces, PackabilityChecks(i, b.packability, c.packability));
    Same2(keys[0], keys[1]);
    Same3(traces[0], traces[1], traces[2]);
    SamePackability(i, b.packability, c.packability);
  }

  lemma SameNames(i: nat, b: Area, c: Area)
    ensures AllSame(NameChecks(i, b, c)) <==> ActionOfArea(b).names == ActionOfArea(c).names
  {
    var checks := NameChecks(i, b, c);
    NamesAction(i, b, c);
    SameAppend([checks[0], checks[1], checks[2]], [checks[3], checks[4], checks[5]]);
    NoChangeAppend([checks[0], checks[1], checks[2]], [checks[3], checks[4], checks[5]]);
    Same3(checks[0], checks[1], checks[2]);
    Same3(checks[3], checks[4], checks[5]);
    NoChange3(checks[0], checks[1], checks[2]);
    NoChange3(checks[3], checks[4], checks[5]);
  }

  lemma SameContent(i: nat, b: Area, c: Area)
    ensures AllSame(ContentChecks(i, b, c)) <==> NoChange(ContentChecks(i, b, c))
  {
    var checks := ContentChecks(i, b, c);
    SameAppend([checks[0], checks[1], checks[2]], [checks[3], checks[4], checks[5]]);
    NoChangeAppend([checks[0], checks[1], checks[2]], [checks[3], checks[4], checks[5]]);
    Same3(checks[0], checks[1], checks[2]);
    Same3(checks[3], checks[4], checks[5]);
    NoChange3(checks[0], checks[1], checks[2]);
    NoChange3(checks[3], checks[4], checks[5]);
  }

  lemma SameShown(i: nat, b: Area, c: Area)
    ensures AllSame(ShownChecks(i, b, c))
       <==> b.try == c.try && b.caveats == c.caveats && b.boundaryPaths == c.boundaryPaths
            && b.traceReceipts == c.traceReceipts
  {
    var checks := ShownChecks(i, b, c);
    SameAppend([checks[0], checks[1]], [checks[2], checks[3]]);
    Same2(checks[0], checks[1]);
    Same2(checks[2], checks[3]);
  }

  /** The same area, up to evidence counts that match. */
  predicate AreaSame(b: Area, c: Area) {
    CountsMatch(b.evidenceCounts, c.evidenceCounts) && b == c.(evidenceCounts := b.evidenceCounts)
  }

  lemma SameArea(i: nat, b: Area, c: Area)
    ensures AllSame(AreaChecks(i, b, c)) <==> AreaSame(b, c)
  {
    var names, content, shown := NameChecks(i, b, c), ContentChecks(i, b, c), ShownChecks(i, b, c);
    SameAppend(names, content);
    SameAppend(names + content, shown);
    SameAppend(names + content + shown, AreaDiagnosticsChecks(i, b.diagnostics, c.diagnostics));
    SameNames(i, b, c);
    SameContent(i, b, c);
    ContentAction(i, b, c);
    SameShown(i, b, c);
    SameDiagnostics(i, b.diagnostics, c.diagnostics);
    SameFields(b, c);
  }

  lemma SameFields(b: Area, c: Area)
    ensures ActionOfArea(b).names == ActionOfArea(c).names
       <==> b.id == c.id && b.areaLabel == c.areaLabel && b.classOf == c.classOf && b.areaType == c.areaType
            && b.boundaryRole == c.boundaryRole && b.purpose == c.purpose
    ensures ActionOfArea(b).lists == ActionOfArea(c).lists
       <==> b.adjacentSystems == c.adjacentSystems && b.covers == c.covers && b.keyPaths == c.keyPaths
  {
    var m, n := ActionOfArea(b).names, ActionOfArea(c).names;
    var x, y := ActionOfArea(b).lists, ActionOfArea(c).lists;
    assert m == n <==> m[0] == n[0] && m[1] == n[1] && m[2] == n[2] && m[3] == n[3] && m[4] == n[4] && m[5] == n[5];
    assert x == y <==> x[0] == y[0] && x[1] == y[1] && x[2] == y[2];
  }

  lemma {:induction false} AreasSame(ofArea: (nat, Area, Area) -> seq<Check>, b: seq<Area>, c: seq<Area>, n: nat)
    requires n <= |b| && n <= |c|
    ensures AllSame(AreasChecks(ofArea, b, c, n)) <==> forall i: nat :: i < n ==> AllSame(ofArea(i, b[i], c[i]))
  {
    if n > 0 {
      AreasSame(ofArea, b, c, n - 1);
      SameAppend(AreasChecks(ofArea, b, c, n - 1), ofArea(n - 1, b[n - 1], c[n - 1]));
    }
  }

  /** The same output, up to evidence counts that match. */
  predicate OutputSame(b: MapOutput, c: MapOutput) {
    && b == c.(areas := b.areas) && |b.areas| == |c.areas|
    && forall i :: 0 <= i < |b.areas| ==> AreaSame(b.areas[i], c.areas[i])
  }

  lemma SameOutput(b: MapOutput, c: MapOutput)
    ensures AllSame(OutputChecks(b, c)) <==> OutputSame(b, c)
  {
    SameHead(b, c);
    var checks := HeadChecks(b, c) + DiagnosticsChecks(b.diagnostics, c.diagnostics);
    if |b.areas| != |c.areas| {
      SameAppend(checks, [Check(Top(AreaCount), Changed)]);
      Same1(Check(Top(AreaCount), Changed));
    } else {
      SameAppend(checks, AreasChecks(AreaChecks, b.areas, c.areas, |b.areas|));
      AreasSame(AreaChecks, b.areas, c.areas, |b.areas|);
      forall i: nat | i < |b.areas|
        ensures AllSame(AreaChecks(i, b.areas[i], c.areas[i])) <==> AreaSame(b.areas[i], c.areas[i])
      {
        SameArea(i, b.areas[i], c.areas[i]);
      }
    }
  }

  /** The gate says "identical" of two outputs if and only if they are equal up to evidence counts that match. */
  lemma IdenticalExactly(b: MapOutput, c: MapOutput)
    ensures Gate(Some(b), Some(c)) == Identical <==> OutputSame(b, c)
  {
    DiffsEmpty(Diffs([], []), OutputChecks(b, c));
    SameOutput(b, c);
  }

  /** What each status says of two outputs, when the baseline has no zero evidence count: "identical" that they are
      equal; "rejected" that their actions differ, or the caveats do by more than the index caveat; the third that
      they differ in neither way. The gate fails to parse if and only if one of the outputs does not parse. */
  lemma StatusTells(b: Option<MapOutput>, c: Option<MapOutput>)
    ensures Gate(b, c).ParseError? <==> b.None? || c.None?
    ensures b.Some? && c.Some? && CountsNonZero(b.value) ==>
              && (Gate(b, c).Identical? <==> b == c)
              && (Gate(b, c).Rejected? <==>
                    ActionsOf(b.value) != ActionsOf(c.value) || !CaveatsKept(b.value.caveats, c.value.caveats))
  {
    if b.Some? && c.Some? && CountsNonZero(b.value) {
      AcceptedExactly(b.value, c.value);
      IdenticalExactly(b.value, c.value);
      SameWhenNonZero(b.value, c.value);
    }
  }

  lemma SameWhenNonZero(b: MapOutput, c: MapOutput)
    requires CountsNonZero(b)
    ensures OutputSame(b, c) <==> b == c
  {
    forall i | 0 <= i < |b.areas| && i < |c.areas|
      ensures AreaSame(b.areas[i], c.areas[i]) <==> b.areas[i] == c.areas[i]
    {
      CountsMatchEqual(b.areas[i].evidenceCounts, c.areas[i].evidenceCounts);
    }
    if OutputSame(b, c) {
      assert b.areas == c.areas;
    }
  }
}
