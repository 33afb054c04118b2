/** The action-quality gate over two map outputs (eval_activation.go). */
module MapGate {
  // Every field is compared, and only differences that do not change what a reader would do are let through.

  import opened Options
  import opened Sorting

  datatype Repo = Repo(name: string, path: string, confidence: string)

  datatype Evidence = Evidence(markdown: int, openSpec: int, adr: int, source: int, test: int, comment: int,
                               intent: int,
                               protocol: int, trace: bool)

  datatype TopDiagnostics = TopDiagnostics(rawClusterCount: int, anchorsSeen: int, materialized: int,
                                           noisyFiltered: int,
                                           areaQuery: string, matchedAreaCount: int, suppressedLabels: seq<string>)

  datatype Packability = Packability(keyPathCount: int, indexedKeyPathCount: int, prefixKeyPathCount: int,
                                     indexedQueryAnchorCount: int, missingKeyExtensions: seq<string>, decision: string,
                                     selectedTrySource: string, suppressedTry: string, suppressedTrySource: string,
                                     trySuppressed: bool)

  datatype AreaDiagnostics = AreaDiagnostics(key: string, rawAnchors: seq<string>, labelEvidence: seq<string>,
                                             traceTerms: seq<string>, traceReceiptMode: string,
                                             packability: Option<Packability>)

  datatype Receipt = Receipt(sha: string, subject: string)

  /** The caveats of an area are compared through their printed form, which tells a missing list from an
      empty one. */
  datatype Area = Area(id: string, areaLabel: string, classOf: string, areaType: string, boundaryRole: string,
                       purpose: string,
                       boundaryPaths: seq<string>, adjacentSystems: seq<string>, confidence: string, umbrella: bool,
                       covers: seq<string>, evidenceCounts: map<string, int>, keyPaths: seq<string>,
                       traceReceipts: seq<Receipt>, try: string, caveats: Option<seq<string>>,
                       diagnostics: AreaDiagnostics)

  datatype MapOutput = MapOutput(schema: string, repo: Repo, evidence: Evidence, areas: seq<Area>, caveats: seq<string>,
                                 diagnostics: TopDiagnostics)

  const IndexRequiredCaveat :=
    "local index is not loaded yet; suggested ds find commands will auto-index unless --no-refresh is set"

  // ---------------------------------------------------------------- the specification: one verdict per comparison

  datatype FieldName =
    | Schema | RepoField | EvidenceField | Caveats | AreaQuery | MatchedAreaCount | NonActionCounts
    | SuppressedLabels | AreaCount
    | Id | Label | ClassOf | AreaType | BoundaryRole | Purpose | AdjacentSystems | Confidence | Umbrella | Covers
    | EvidenceCounts | KeyPaths | Try | AreaCaveats | BoundaryPaths | TraceReceipts
    | Key | TraceReceiptMode | RawAnchors | LabelEvidence | TraceTerms
    | Packable | Decision | SelectedTrySource | SuppressedDiagnostic | SuppressedTry | SuppressedTrySource
    | TrySuppressed
    | SupportCounts | MissingKeyExtensions

  /** A field of the output or of its n-th area. */
  datatype Field = Top(name: FieldName) | InArea(index: nat, name: FieldName)

  /** The field agrees, differs in a way that is let through, or differs in an action. */
  datatype Verdict = Same | Shown | Changed

  datatype Check = Check(field: Field, verdict: Verdict)

  datatype Diffs = Diffs(action: seq<Field>, accepted: seq<Field>)

  function AddOnce(accepted: seq<Field>, f: Field): seq<Field> {
    if f in accepted then accepted else accepted + [f]
  }

  function Apply(d: Diffs, c: Check): Diffs {
    match c.verdict
    case Same => d
    case Shown => d.(accepted := AddOnce(d.accepted, c.field))
    case Changed => d.(action := d.action + [c.field])
  }

  function ApplyAll(d: Diffs, checks: seq<Check>): Diffs
    decreases |checks|
  {
    if checks == [] then d else ApplyAll(Apply(d, checks[0]), checks[1..])
  }

  function Value(f: Field, same: bool): Check {
    Check(f, if same then Same else Changed)
  }

  function Display(f: Field, same: bool): Check {
    Check(f, if same then Same else Shown)
  }

  predicate StringSetEqual(a: seq<string>, b: seq<string>) {
    |a| == |b| && Sort(LexLe, a) == Sort(LexLe, b)
  }

  function SetOnly(f: Field, a: seq<string>, b: seq<string>): Check {
    Check(f, if a == b then Same else if StringSetEqual(a, b) then Shown else Changed)
  }

  function Remove(s: seq<string>, x: string): seq<string> {
    if s == [] then [] else Remove(s[..|s| - 1], x) + if s[|s| - 1] == x then [] else [s[|s| - 1]]
  }

  function CaveatCheck(b: seq<string>, c: seq<string>): Check {
    var kept := Remove(b, IndexRequiredCaveat);
    Check(Top(Caveats), if b == c then Same else if |kept| != |b| && kept == c then Shown else Changed)
  }

  function Count(m: map<string, int>, k: string): int {
    if k in m then m[k] else 0
  }

  /** Same size, and every count of the baseline is the candidate's, an absent key counting zero. */
  predicate CountsMatch(b: map<string, int>, c: map<string, int>) {
    |b| == |c| && forall k :: k in b ==> Count(c, k) == b[k]
  }

  predicate SupportSame(b: Packability, c: Packability) {
    && b.keyPathCount == c.keyPathCount && b.indexedKeyPathCount == c.indexedKeyPathCount
    && b.prefixKeyPathCount == c.prefixKeyPathCount && b.indexedQueryAnchorCount == c.indexedQueryAnchorCount
  }

  predicate BothSuppressed(b: Packability, c: Packability) {
    b.trySuppressed && c.trySuppressed && b.decision == c.decision
  }

  function TryChecks(i: nat, b: Packability, c: Packability): seq<Check> {
    if BothSuppressed(b, c) then
      [Display(InArea(i, SuppressedDiagnostic),
               b.suppressedTry == c.suppressedTry && b.suppressedTrySource == c.suppressedTrySource)]
    else
      [Value(InArea(i, SuppressedTry), b.suppressedTry == c.suppressedTry),
       Value(InArea(i, SuppressedTrySource), b.suppressedTrySource == c.suppressedTrySource)]
  }

  function DecisionChecks(i: nat, b: Packability, c: Packability): seq<Check> {
    [Value(InArea(i, Decision), b.decision == c.decision),
     Value(InArea(i, SelectedTrySource), b.selectedTrySource == c.selectedTrySource)]
  }

  function SupportChecks(i: nat, b: Packability, c: Packability): seq<Check> {
    [Value(InArea(i, TrySuppressed), b.trySuppressed == c.trySuppressed),
     Display(InArea(i, SupportCounts), SupportSame(b, c)),
     SetOnly(InArea(i, MissingKeyExtensions), b.missingKeyExtensions, c.missingKeyExtensions)]
  }

  function PackabilityChecks(i: nat, b: Option<Packability>, c: Option<Packability>): seq<Check> {
    if b.None? && c.None? then []
    else if b.None? || c.None? then [Check(InArea(i, Packable), Changed)]
    else
      var x, y := b.value, c.value;
      DecisionChecks(i, x, y) + TryChecks(i, x, y) + SupportChecks(i, x, y)
  }

  function KeyChecks(i: nat, b: AreaDiagnostics, c: AreaDiagnostics): seq<Check> {
    [Value(InArea(i, Key), b.key == c.key),
     Value(InArea(i, TraceReceiptMode), b.traceReceiptMode == c.traceReceiptMode)]
  }

  function TraceChecks(i: nat, b: AreaDiagnostics, c: AreaDiagnostics): seq<Check> {
    [Display(InArea(i, RawAnchors), b.rawAnchors == c.rawAnchors),
     Display(InArea(i, LabelEvidence), b.labelEvidence == c.labelEvidence),
     Display(InArea(i, TraceTerms), b.traceTerms == c.traceTerms)]
  }

  function AreaDiagnosticsChecks(i: nat, b: AreaDiagnostics, c: AreaDiagnostics): seq<Check> {
    KeyChecks(i, b, c) + TraceChecks(i, b, c) + PackabilityChecks(i, b.packability, c.packability)
  }

  function NameChecks(i: nat, b: Area, c: Area): seq<Check> {
    [Value(InArea(i, Id), b.id == c.id), Value(InArea(i, Label), b.areaLabel == c.areaLabel),
     Value(InArea(i, ClassOf), b.classOf == c.classOf)]
    + [Value(InArea(i, AreaType), b.areaType == c.areaType),
       Value(InArea(i, BoundaryRole), b.boundaryRole == c.boundaryRole),
       Value(InArea(i, Purpose), b.purpose == c.purpose)]
  }

  function ContentChecks(i: nat, b: Area, c: Area): seq<Check> {
    [Value(InArea(i, AdjacentSystems), b.adjacentSystems == c.adjacentSystems),
     Value(InArea(i, Confidence), b.confidence == c.confidence),
     Value(InArea(i, Umbrella), b.umbrella == c.umbrella)]
    + [Value(InArea(i, Covers), b.covers == c.covers),
       Value(InArea(i, EvidenceCounts), CountsMatch(b.evidenceCounts, c.evidenceCounts)),
       Value(InArea(i, KeyPaths), b.keyPaths == c.keyPaths)]
  }

  function ShownChecks(i: nat, b: Area, c: Area): seq<Check> {
    [Value(InArea(i, Try), b.try == c.try), Value(InArea(i, AreaCaveats), b.caveats == c.caveats)]
    + [Display(InArea(i, BoundaryPaths), b.boundaryPaths == c.boundaryPaths),
       Display(InArea(i, TraceReceipts), b.traceReceipts == c.traceReceipts)]
  }

  function AreaChecks(i: nat, b: Area, c: Area): seq<Check> {
    NameChecks(i, b, c) + ContentChecks(i, b, c) + ShownChecks(i, b, c)
        + AreaDiagnosticsChecks(i, b.diagnostics, c.diagnostics)
  }

  /** The checks of the first n areas. */
  function AreasChecks(ofArea: (nat, Area, Area) -> seq<Check>, b: seq<Area>, c: seq<Area>, n: nat): seq<Check>
    requires n <= |b| && n <= |c|
  {
    if n == 0 then [] else AreasChecks(ofArea, b, c, n - 1) + ofArea(n - 1, b[n - 1], c[n - 1])
  }

  predicate NonActionSame(b: TopDiagnostics, c: TopDiagnostics) {
    && b.rawClusterCount == c.rawClusterCount && b.anchorsSeen == c.anchorsSeen
    && b.materialized == c.materialized && b.noisyFiltered == c.noisyFiltered
  }

  function DiagnosticsChecks(b: TopDiagnostics, c: TopDiagnostics): seq<Check> {
    [Value(Top(AreaQuery), b.areaQuery == c.areaQuery),
     Value(Top(MatchedAreaCount), b.matchedAreaCount == c.matchedAreaCount)]
    + [Display(Top(NonActionCounts), NonActionSame(b, c)),
       SetOnly(Top(SuppressedLabels), b.suppressedLabels, c.suppressedLabels)]
  }

  function HeadChecks(b: MapOutput, c: MapOutput): seq<Check> {
    [Value(Top(Schema), b.schema == c.schema), Value(Top(RepoField), b.repo == c.repo)]
    + [Value(Top(EvidenceField), b.evidence == c.evidence), CaveatCheck(b.caveats, c.caveats)]
  }

  function OutputChecks(b: MapOutput, c: MapOutput): seq<Check> {
    HeadChecks(b, c) + DiagnosticsChecks(b.diagnostics, c.diagnostics)
    + if |b.areas| != |c.areas| then [Check(Top(AreaCount), Changed)]
      else AreasChecks(AreaChecks, b.areas, c.areas, |b.areas|)
  }

  datatype Status = ParseError | Rejected(reason: Field) | AcceptedNonActionDeltas(reasons: seq<Field>) | Identical

  function StatusOf(d: Diffs): Status {
    if d.action != [] then Rejected(d.action[0])
    else if d.accepted != [] then AcceptedNonActionDeltas(d.accepted)
    else Identical
  }

  /** The gate on two outputs, either of which may fail to parse. */
  function Gate(b: Option<MapOutput>, c: Option<MapOutput>): Status {
    if b.None? || c.None? then ParseError else StatusOf(ApplyAll(Diffs([], []), OutputChecks(b.value, c.value)))
  }

  lemma {:induction false} ApplyAppend(d: Diffs, a: seq<Check>, b: seq<Check>)
    ensures ApplyAll(d, a + b) == ApplyAll(ApplyAll(d, a), b)
    decreases |a|
  {
    if a == [] {
      assert a + b == b;
    } else {
      assert (a + b)[1..] == a[1..] + b;
      ApplyAppend(Apply(d, a[0]), a[1..], b);
    }
  }

  lemma Apply1(d: Diffs, x: Check)
    ensures ApplyAll(d, [x]) == Apply(d, x)
  {
    assert [x][1..] == [];
  }

  lemma Apply2(d: Diffs, x: Check, y: Check)
    ensures ApplyAll(d, [x, y]) == Apply(Apply(d, x), y)
  {
    assert [x, y] == [x] + [y];
    ApplyAppend(d, [x], [y]);
    Apply1(d, x);
    Apply1(Apply(d, x), y);
  }

  lemma Apply3(d: Diffs, x: Check, y: Check, z: Check)
    ensures ApplyAll(d, [x, y, z]) == Apply(Apply(Apply(d, x), y), z)
  {
    assert [x, y, z] == [x, y] + [z];
    ApplyAppend(d, [x, y], [z]);
    Apply2(d, x, y);
    Apply1(Apply(Apply(d, x), y), z);
  }

  ghost predicate IsAreaChecks(ofArea: (nat, Area, Area) -> seq<Check>) {
    forall i: nat, b, c {:trigger AreaChecks(i, b, c)} :: ofArea(i, b, c) == AreaChecks(i, b, c)
  }

  lemma AreasStep(d: Diffs, ofArea: (nat, Area, Area) -> seq<Check>, b: seq<Area>, c: seq<Area>, n: nat)
    requires n < |b| && n < |c|
    ensures ApplyAll(d, AreasChecks(ofArea, b, c, n + 1))
            == ApplyAll(ApplyAll(d, AreasChecks(ofArea, b, c, n)), ofArea(n, b[n], c[n]))
  {
    ApplyAppend(d, AreasChecks(ofArea, b, c, n), ofArea(n, b[n], c[n]));
  }

  // ---------------------------------------------------------------- the source's comparisons

  method OrderedStringsEqual(a: seq<string>, b: seq<string>) returns (same: bool)
    ensures same == (a == b)
  {
    if |a| != |b| {
      return false;
    }
    for i := 0 to |a|
      invariant a[..i] == b[..i]
    {
      if a[i] != b[i] {
        return false;
      }
    }
    same := true;
  }

  method RemoveString(values: seq<string>, remove: string) returns (out: seq<string>)
    ensures out == Remove(values, remove)
  {
    out := [];
    for i := 0 to |values|
      invariant out == Remove(values[..i], remove)
    {
      assert values[..i + 1][..i] == values[..i];
      if values[i] == remove {
        continue;
      }
      out := out + [values[i]];
    }
    assert values[..|values|] == values;
  }

  class Comparison {
    var actionDiffs: seq<Field>
    var acceptedDiffs: seq<Field>

    ghost function Contents(): Diffs
      reads this
    {
      Diffs(actionDiffs, acceptedDiffs)
    }

    constructor ()
      ensures Contents() == Diffs([], [])
    {
      actionDiffs, acceptedDiffs := [], [];
    }

    method AddAcceptedDiff(field: Field)
      modifies this`acceptedDiffs
      ensures Contents() == Apply(old(Contents()), Check(field, Shown))
    {
      for i := 0 to |acceptedDiffs|
        invariant acceptedDiffs == old(acceptedDiffs) && field !in acceptedDiffs[..i]
      {
        if acceptedDiffs[i] == field {
          return;
        }
      }
      assert acceptedDiffs[..|acceptedDiffs|] == acceptedDiffs;
      acceptedDiffs := acceptedDiffs + [field];
    }

    method AddActionDiff(field: Field)
      modifies this`actionDiffs
      ensures Contents() == Apply(old(Contents()), Check(field, Changed))
    {
      actionDiffs := actionDiffs + [field];
    }

    method CompareValue<T(==)>(field: Field, baseline: T, candidate: T)
      modifies this`actionDiffs
      ensures Contents() == Apply(old(Contents()), Value(field, baseline == candidate))
    {
      if baseline == candidate {
        return;
      }
      AddActionDiff(field);
    }

    method CompareOrderedStrings(field: Field, baseline: seq<string>, candidate: seq<string>)
      modifies this`actionDiffs
      ensures Contents() == Apply(old(Contents()), Value(field, baseline == candidate))
    {
      var same := OrderedStringsEqual(baseline, candidate);
      if same {
        return;
      }
      AddActionDiff(field);
    }

    /** The keys are visited in no particular order. */
    method CompareIntMap(field: Field, baseline: map<string, int>, candidate: map<string, int>)
      modifies this`actionDiffs
      ensures Contents() == Apply(old(Contents()), Value(field, CountsMatch(baseline, candidate)))
    {
      if |baseline| != |candidate| {
        AddActionDiff(field);
        return;
      }
      var rest := baseline.Keys;
      while rest != {}
        invariant Contents() == old(Contents())
        invariant forall k :: k in baseline && k !in rest ==> Count(candidate, k) == baseline[k]
        invariant rest <= baseline.Keys
        decreases |rest|
      {
        var key :| key in rest;
        if Count(candidate, key) != baseline[key] {
          AddActionDiff(field);
          return;
        }
        rest := rest - {key};
      }
    }

    method CompareStringSetOnly(field: Field, baseline: seq<string>, candidate: seq<string>)
      modifies this
      ensures Contents() == Apply(old(Contents()), SetOnly(field, baseline, candidate))
    {
      var same := OrderedStringsEqual(baseline, candidate);
      if same {
        return;
      }
      var sameSet := |baseline| == |candidate|;
      if sameSet {
        sameSet := OrderedStringsEqual(Sort(LexLe, baseline), Sort(LexLe, candidate));
      }
      if sameSet {
        AddAcceptedDiff(field);
        return;
      }
      AddActionDiff(field);
    }

    method CompareDisplayStrings(field: Field, baseline: seq<string>, candidate: seq<string>)
      modifies this`acceptedDiffs
      ensures Contents() == Apply(old(Contents()), Display(field, baseline == candidate))
    {
      var same := OrderedStringsEqual(baseline, candidate);
      if same {
        return;
      }
      AddAcceptedDiff(field);
    }

    method CompareTraceDisplay(field: Field, baseline: seq<Receipt>, candidate: seq<Receipt>)
      modifies this`acceptedDiffs
      ensures Contents() == Apply(old(Contents()), Display(field, baseline == candidate))
    {
      if |baseline| == |candidate| {
        var sameOrder := true;
        for i := 0 to |baseline|
          invariant sameOrder && baseline[..i] == candidate[..i] && Contents() == old(Contents())
        {
          if baseline[i] != candidate[i] {
            sameOrder := false;
            break;
          }
        }
        if sameOrder {
          return;
        }
      }
      AddAcceptedDiff(field);
    }

    method CompareCaveats(baseline: seq<string>, candidate: seq<string>)
      modifies this
      ensures Contents() == Apply(old(Contents()), CaveatCheck(baseline, candidate))
    {
      var same := OrderedStringsEqual(baseline, candidate);
      if same {
        return;
      }
      var without := RemoveString(baseline, IndexRequiredCaveat);
      if |without| != |baseline| {
        var onlyIndexCaveat := OrderedStringsEqual(without, candidate);
        if onlyIndexCaveat {
          AddAcceptedDiff(Top(Caveats));
          return;
        }
      }
      AddActionDiff(Top(Caveats));
    }

    method CompareTry(i: nat, b: Packability, c: Packability)
      modifies this
      ensures Contents() == ApplyAll(old(Contents()), TryChecks(i, b, c))
    {
      ghost var start := Contents();
      if b.trySuppressed && c.trySuppressed && b.decision == c.decision {
        if b.suppressedTry != c.suppressedTry || b.suppressedTrySource != c.suppressedTrySource {
          AddAcceptedDiff(InArea(i, SuppressedDiagnostic));
        }
        Apply1(start, TryChecks(i, b, c)[0]);
      } else {
        CompareValue(InArea(i, SuppressedTry), b.suppressedTry, c.suppressedTry);
        CompareValue(InArea(i, SuppressedTrySource), b.suppressedTrySource, c.suppressedTrySource);
        Apply2(start, TryChecks(i, b, c)[0], TryChecks(i, b, c)[1]);
      }
    }

    method CompareSupport(i: nat, b: Packability, c: Packability)
      modifies this
      ensures Contents() == ApplyAll(old(Contents()), SupportChecks(i, b, c))
    {
      ghost var start, checks := Contents(), SupportChecks(i, b, c);
      CompareValue(InArea(i, TrySuppressed), b.trySuppressed, c.trySuppressed);
      if b.keyPathCount != c.keyPathCount || b.indexedKeyPathCount != c.indexedKeyPathCount
         || b.prefixKeyPathCount != c.prefixKeyPathCount || b.indexedQueryAnchorCount != c.indexedQueryAnchorCount
      {
        AddAcceptedDiff(InArea(i, SupportCounts));
      }
      CompareStringSetOnly(InArea(i, MissingKeyExtensions), b.missingKeyExtensions, c.missingKeyExtensions);
      Apply3(start, checks[0], checks[1], checks[2]);
    }

    method ComparePackability(i: nat, baseline: Option<Packability>, candidate: Option<Packability>)
      modifies this
      ensures Contents() == ApplyAll(old(Contents()), PackabilityChecks(i, baseline, candidate))
    {
      ghost var start := Contents();
      if baseline.None? && candidate.None? {
        return;
      }
      if baseline.None? || candidate.None? {
        AddActionDiff(InArea(i, Packable));
        Apply1(start, Check(InArea(i, Packable), Changed));
        return;
      }
      var b, c := baseline.value, candidate.value;
      CompareValue(InArea(i, Decision), b.decision, c.decision);
      CompareValue(InArea(i, SelectedTrySource), b.selectedTrySource, c.selectedTrySource);
      Apply2(start, DecisionChecks(i, b, c)[0], DecisionChecks(i, b, c)[1]);
      CompareTry(i, b, c);
      ApplyAppend(start, DecisionChecks(i, b, c), TryChecks(i, b, c));
      CompareSupport(i, b, c);
      ApplyAppend(start, DecisionChecks(i, b, c) + TryChecks(i, b, c), SupportChecks(i, b, c));
    }

    method CompareAreaDiagnostics(i: nat, b: AreaDiagnostics, c: AreaDiagnostics)
      modifies this
      ensures Contents() == ApplyAll(old(Contents()), AreaDiagnosticsChecks(i, b, c))
    {
      ghost var start, keys, traces := Contents(), KeyChecks(i, b, c), TraceChecks(i, b, c);
      CompareValue(InArea(i, Key), b.key, c.key);
      CompareValue(InArea(i, TraceReceiptMode), b.traceReceiptMode, c.traceReceiptMode);
      Apply2(start, keys[0], keys[1]);
      ghost var next := Contents();
      CompareDisplayStrings(InArea(i, RawAnchors), b.rawAnchors, c.rawAnchors);
      CompareDisplayStrings(InArea(i, LabelEvidence), b.labelEvidence, c.labelEvidence);
      CompareDisplayStrings(InArea(i, TraceTerms), b.traceTerms, c.traceTerms);
      Apply3(next, traces[0], traces[1], traces[2]);
      ApplyAppend(start, keys, traces);
      ComparePackability(i, b.packability, c.packability);
      ApplyAppend(start, keys + traces, PackabilityChecks(i, b.packability, c.packability));
    }

    method CompareNames(i: nat, b: Area, c: Area)
      modifies this`actionDiffs
      ensures Contents() == ApplyAll(old(Contents()), NameChecks(i, b, c))
    {
      ghost var start, checks := Contents(), NameChecks(i, b, c);
      CompareValue(InArea(i, Id), b.id, c.id);
      CompareValue(InArea(i, Label), b.areaLabel, c.areaLabel);
      CompareValue(InArea(i, ClassOf), b.classOf, c.classOf);
      Apply3(start, checks[0], checks[1], checks[2]);
      ghost var next := Contents();
      CompareValue(InArea(i, AreaType), b.areaType, c.areaType);
      CompareValue(InArea(i, BoundaryRole), b.boundaryRole, c.boundaryRole);
      CompareValue(InArea(i, Purpose), b.purpose, c.purpose);
      Apply3(next, checks[3], checks[4], checks[5]);
      ApplyAppend(start, [checks[0], checks[1], checks[2]], [checks[3], checks[4], checks[5]]);
    }

    method CompareContent(i: nat, b: Area, c: Area)
      modifies this`actionDiffs
      ensures Contents() == ApplyAll(old(Contents()), ContentChecks(i, b, c))
    {
      ghost var start, checks := Contents(), ContentChecks(i, b, c);
      CompareOrderedStrings(InArea(i, AdjacentSystems), b.adjacentSystems, c.adjacentSystems);
      CompareValue(InArea(i, Confidence), b.confidence, c.confidence);
      CompareValue(InArea(i, Umbrella), b.umbrella, c.umbrella);
      Apply3(start, checks[0], checks[1], checks[2]);
      ghost var next := Contents();
      CompareOrderedStrings(InArea(i, Covers), b.covers, c.covers);
      CompareIntMap(InArea(i, EvidenceCounts), b.evidenceCounts, c.evidenceCounts);
      CompareOrderedStrings(InArea(i, KeyPaths), b.keyPaths, c.keyPaths);
      Apply3(next, checks[3], checks[4], checks[5]);
      ApplyAppend(start, [checks[0], checks[1], checks[2]], [checks[3], checks[4], checks[5]]);
    }

    method CompareShown(i: nat, b: Area, c: Area)
      modifies this
      ensures Contents() == ApplyAll(old(Contents()), ShownChecks(i, b, c))
    {
      ghost var start, checks := Contents(), ShownChecks(i, b, c);
      CompareValue(InArea(i, Try), b.try, c.try);
      CompareValue(InArea(i, AreaCaveats), b.caveats, c.caveats);
      Apply2(start, checks[0], checks[1]);
      ghost var next := Contents();
      CompareDisplayStrings(InArea(i, BoundaryPaths), b.boundaryPaths, c.boundaryPaths);
      CompareTraceDisplay(InArea(i, TraceReceipts), b.traceReceipts, c.traceReceipts);
      Apply2(next, checks[2], checks[3]);
      ApplyAppend(start, [checks[0], checks[1]], [checks[2], checks[3]]);
    }

    method CompareArea(i: nat, b: Area, c: Area)
      modifies this
      ensures Contents() == ApplyAll(old(Contents()), AreaChecks(i, b, c))
    {
      ghost var start, names, content, shown := Contents(), NameChecks(i, b, c), ContentChecks(i, b, c),
          ShownChecks(i, b, c);
      CompareNames(i, b, c);
      CompareContent(i, b, c);
      ApplyAppend(start, names, content);
      CompareShown(i, b, c);
      ApplyAppend(start, names + content, shown);
      CompareAreaDiagnostics(i, b.diagnostics, c.diagnostics);
      ApplyAppend(start, names + content + shown, AreaDiagnosticsChecks(i, b.diagnostics, c.diagnostics));
    }

    method CompareTopDiagnostics(b: TopDiagnostics, c: TopDiagnostics)
      modifies this
      ensures Contents() == ApplyAll(old(Contents()), DiagnosticsChecks(b, c))
    {
      ghost var start, checks := Contents(), DiagnosticsChecks(b, c);
      CompareValue(Top(AreaQuery), b.areaQuery, c.areaQuery);
      CompareValue(Top(MatchedAreaCount), b.matchedAreaCount, c.matchedAreaCount);
      Apply2(start, checks[0], checks[1]);
      ghost var next := Contents();
      if b.rawClusterCount != c.rawClusterCount || b.anchorsSeen != c.anchorsSeen
         || b.materialized != c.materialized || b.noisyFiltered != c.noisyFiltered
      {
        AddAcceptedDiff(Top(NonActionCounts));
      }
      CompareStringSetOnly(Top(SuppressedLabels), b.suppressedLabels, c.suppressedLabels);
      Apply2(next, checks[2], checks[3]);
      ApplyAppend(start, [checks[0], checks[1]], [checks[2], checks[3]]);
    }

    method CompareHead(b: MapOutput, c: MapOutput)
      modifies this
      ensures Contents() == ApplyAll(old(Contents()), HeadChecks(b, c))
    {
      ghost var start, checks := Contents(), HeadChecks(b, c);
      CompareValue(Top(Schema), b.schema, c.schema);
      CompareValue(Top(RepoField), b.repo, c.repo);
      Apply2(start, checks[0], checks[1]);
      ghost var next := Contents();
      if b.evidence != c.evidence {
        AddActionDiff(Top(EvidenceField));
      }
      CompareCaveats(b.caveats, c.caveats);
      Apply2(next, checks[2], checks[3]);
      ApplyAppend(start, [checks[0], checks[1]], [checks[2], checks[3]]);
    }

    /** The body of the loop over the areas. */
    method CompareAreaAt(ghost ofArea: (nat, Area, Area) -> seq<Check>, ghost start: Diffs, b: seq<Area>,
                         c: seq<Area>, i: nat)
      requires IsAreaChecks(ofArea)
      requires i < |b| && i < |c| && Contents() == ApplyAll(start, AreasChecks(ofArea, b, c, i))
      modifies this
      ensures Contents() == ApplyAll(start, AreasChecks(ofArea, b, c, i + 1))
    {
      CompareArea(i, b[i], c[i]);
      AreasStep(start, ofArea, b, c, i);
    }

    method CompareAreas(ghost ofArea: (nat, Area, Area) -> seq<Check>, b: seq<Area>, c: seq<Area>)
      requires IsAreaChecks(ofArea) && |b| == |c|
      modifies this
      ensures Contents() == ApplyAll(old(Contents()), AreasChecks(ofArea, b, c, |b|))
    {
      ghost var start := Contents();
      for i := 0 to |b|
        invariant Contents() == ApplyAll(start, AreasChecks(ofArea, b, c, i))
      {
        CompareAreaAt(ofArea, start, b, c, i);
      }
    }

    method Compare(b: MapOutput, c: MapOutput)
      modifies this
      ensures Contents() == ApplyAll(old(Contents()), OutputChecks(b, c))
    {
      ghost var start, head, diagnostics := Contents(), HeadChecks(b, c),
          DiagnosticsChecks(b.diagnostics, c.diagnostics);
      CompareHead(b, c);
      CompareTopDiagnostics(b.diagnostics, c.diagnostics);
      ApplyAppend(start, head, diagnostics);
      if |b.areas| != |c.areas| {
        AddActionDiff(Top(AreaCount));
        Apply1(ApplyAll(start, head + diagnostics), Check(Top(AreaCount), Changed));
        ApplyAppend(start, head + diagnostics, [Check(Top(AreaCount), Changed)]);
      } else {
        CompareAreas(AreaChecks, b.areas, c.areas);
        ApplyAppend(start, head + diagnostics, AreasChecks(AreaChecks, b.areas, c.areas, |b.areas|));
      }
    }
  }

  method CompareMapActionQuality(baseline: Option<MapOutput>, candidate: Option<MapOutput>) returns (status: Status)
    ensures status == Gate(baseline, candidate)
  {
    if baseline.None? || candidate.None? {
      return ParseError;
    }
    var out := new Comparison();
    out.Compare(baseline.value, candidate.value);
    if |out.actionDiffs| > 0 {
      return Rejected(out.actionDiffs[0]);
    }
    if |out.acceptedDiffs| > 0 {
      return AcceptedNonActionDeltas(out.acceptedDiffs);
    }
    status := Identical;
  }
}
