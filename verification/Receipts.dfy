/** Capped selections built on the greedy choice. */
module Receipts {
  // Behaviour-test receipts, their second phase of related files, and source-manifest recovery
  // (find_source_test_receipts.go, find_source_manifest_recovery.go).

  import opened Options
  import opened Sorting
  import opened Paths
  import opened PathFamilies
  import opened Selection

  const MaxRows: nat := 4

  /** A manifest row with what the scorer and the path predicates say about it: its score, whether the
      evidence is strong, and the strength of the direct evidence. */
  datatype Row = Row(path: string, behaviorTest: bool, tutorial: bool, score: real, strong: bool, direct: nat)

  // ---------------------------------------------------------------- behaviour-test receipts

  function BehaviorEntry(row: Row, familyOf: string -> string, seen: set<string>,
                         already: set<string>): Option<Scored> {
    var path := Normalize(row.path);
    if path == "" || path in seen || path in already || !row.behaviorTest then None
    else if row.score < 12.0 then None
    else
      var score := if row.strong then row.score else row.score * 0.35;
      if score < 12.0 then None else Some(Scored(path, familyOf(path), score, row.strong))
  }

  function BehaviorScored(rows: seq<Row>, familyOf: string -> string, seen: set<string>,
                          already: set<string>): seq<Scored> {
    if rows == [] then []
    else
      var before := BehaviorScored(rows[..|rows| - 1], familyOf, seen, already);
      match BehaviorEntry(rows[|rows| - 1], familyOf, seen, already)
      case None => before
      case Some(entry) => before + [entry]
  }

  function BehaviorTests(rows: seq<Row>, familyOf: string -> string, seen: set<string>, already: set<string>,
                         limit: nat): seq<Scored> {
    Picks(Filter(IsStrong, Sort(RankLe, BehaviorScored(rows, familyOf, seen, already))), limit, map[])
  }

  method ScoreBehaviorRows(rows: seq<Row>, familyOf: string -> string, seen: set<string>, already: set<string>)
    returns (scored: seq<Scored>)
    ensures scored == BehaviorScored(rows, familyOf, seen, already)
  {
    scored := [];
    for i := 0 to |rows|
      invariant scored == BehaviorScored(rows[..i], familyOf, seen, already)
    {
      assert rows[..i + 1][..i] == rows[..i];
      var path := Normalize(rows[i].path);
      if path == "" || path in seen || path in already || !rows[i].behaviorTest {
        continue;
      }
      var score := rows[i].score;
      if score < 12.0 {
        continue;
      }
      if !rows[i].strong {
        score := score * 0.35;
      }
      if score < 12.0 {
        continue;
      }
      scored := scored + [Scored(path, familyOf(path), score, rows[i].strong)];
    }
    assert rows[..|rows|] == rows;
  }

  method SelectBehaviorTests(rows: seq<Row>, familyOf: string -> string, seen: set<string>, already: set<string>,
                             limit: nat)
    returns (items: seq<Scored>)
    ensures items == BehaviorTests(rows, familyOf, seen, already, limit)
  {
    var scored := ScoreBehaviorRows(rows, familyOf, seen, already);
    scored := Sort(RankLe, scored);
    items := TakeCapped(scored, limit, map[], true);
  }

  /** The test receipts are the best that the limit and the family budget allow: entry by entry and in
      total they beat every other admissible choice of strong, sufficiently scored, unseen test rows. */
  lemma BehaviorTestsOptimal(rows: seq<Row>, familyOf: string -> string, seen: set<string>, already: set<string>,
                             limit: nat, choice: seq<Scored>)
    requires multiset(choice) <= multiset(Filter(IsStrong, BehaviorScored(rows, familyOf, seen, already)))
    requires Feasible(choice, limit, map[])
    ensures Feasible(BehaviorTests(rows, familyOf, seen, already, limit), limit, map[])
    ensures multiset(BehaviorTests(rows, familyOf, seen, already, limit))
            <= multiset(Filter(IsStrong, BehaviorScored(rows, familyOf, seen, already)))
    ensures Dominates(BehaviorTests(rows, familyOf, seen, already, limit), Sort(RankLe, choice))
    ensures Total(choice) <= Total(BehaviorTests(rows, familyOf, seen, already, limit))
  {
    var scored := BehaviorScored(rows, familyOf, seen, already);
    var ranked := Filter(IsStrong, Sort(RankLe, scored));
    BehaviorTestsBounded(rows, familyOf, seen, already, limit);
    RankedDescends(scored);
    FilterDescends(Sort(RankLe, scored));
    FilterPermutes(IsStrong, Sort(RankLe, scored), scored);
    RankedDescends(choice);
    FeasibleShrinks(choice, Sort(RankLe, choice), limit, map[]);
    RankingDominates(ranked, Sort(RankLe, choice), limit, map[]);
    forall p | p in BehaviorTests(rows, familyOf, seen, already, limit) ensures p.score >= 0.0 {
      BehaviorTestEntries(rows, familyOf, seen, already, limit, p);
    }
    TotalPointwise(Sort(RankLe, choice), BehaviorTests(rows, familyOf, seen, already, limit));
    TotalSort(choice);
  }

  lemma {:induction false} FilterDescends(s: seq<Scored>)
    requires Descending(s)
    ensures Descending(Filter(IsStrong, s))
    ensures forall x :: x in Filter(IsStrong, s) ==> x in s && x.strong
  {
    if s != [] {
      var rest := Filter(IsStrong, s[1..]);
      FilterDescends(s[1..]);
      HighestFirst(s);
      if IsStrong(s[0]) {
        DescendingFrom(s[0], rest);
      }
    }
  }

  lemma HighestFirst(s: seq<Scored>)
    requires s != [] && Descending(s)
    ensures Descending(s[1..]) && forall x :: x in s[1..] ==> x in s && s[0].score >= x.score
  {
  }

  lemma DescendingFrom(first: Scored, rest: seq<Scored>)
    requires Descending(rest) && forall x :: x in rest ==> first.score >= x.score
    ensures Descending([first] + rest)
  {
  }

  lemma {:induction false} BehaviorScoredEntry(rows: seq<Row>, familyOf: string -> string, seen: set<string>,
                                               already: set<string>,
                                               e: Scored)
    returns (i: nat)
    requires e in BehaviorScored(rows, familyOf, seen, already)
    ensures i < |rows| && BehaviorEntry(rows[i], familyOf, seen, already) == Some(e)
  {
    var n := |rows| - 1;
    if BehaviorEntry(rows[n], familyOf, seen, already) == Some(e) {
      i := n;
    } else {
      i := BehaviorScoredEntry(rows[..n], familyOf, seen, already, e);
    }
  }

  /** Every receipt comes from a strong test row that was neither seen nor listed already. */
  lemma BehaviorTestEntries(rows: seq<Row>, familyOf: string -> string, seen: set<string>, already: set<string>,
                            limit: nat, e: Scored)
    requires e in BehaviorTests(rows, familyOf, seen, already, limit)
    ensures e in BehaviorScored(rows, familyOf, seen, already)
    ensures exists row :: row in rows && row.behaviorTest && row.strong && e.path == Normalize(row.path)
    ensures e.strong && e.score >= 12.0 && e.family == familyOf(e.path)
    ensures e.path != "" && e.path !in seen && e.path !in already
  {
    var scored := BehaviorScored(rows, familyOf, seen, already);
    var ranked := Filter(IsStrong, Sort(RankLe, scored));
    PicksAreCandidates(ranked, limit, map[]);
    assert e in multiset(BehaviorTests(rows, familyOf, seen, already, limit));
    assert e in multiset(ranked);
    RankedDescends(scored);
    FilterDescends(Sort(RankLe, scored));
    assert e in multiset(Sort(RankLe, scored));
    assert e in scored;
    var i := BehaviorScoredEntry(rows, familyOf, seen, already, e);
    assert rows[i] in rows;
  }

  // ---------------------------------------------------------------- related files, the second phase

  predicate RelatedAllowed(row: Row) {
    if row.score < 18.0 then false
    else if row.behaviorTest then !(row.tutorial && row.direct < 7) && (row.strong || row.direct >= 4)
    else row.direct >= 5 || (row.strong && row.direct >= 2 && row.score >= 24.0)
  }

  function RelatedEntry(row: Row, familyOf: string -> string, seen: set<string>,
                        selectedPaths: set<string>): Option<Scored> {
    var path := Normalize(row.path);
    if path == "" || path in seen || path in selectedPaths then None
    else if !RelatedAllowed(row) then None
    else Some(Scored(path, familyOf(path), row.score, row.strong))
  }

  function RelatedScored(rows: seq<Row>, familyOf: string -> string, seen: set<string>,
                         selectedPaths: set<string>): seq<Scored> {
    if rows == [] then []
    else
      var before := RelatedScored(rows[..|rows| - 1], familyOf, seen, selectedPaths);
      match RelatedEntry(rows[|rows| - 1], familyOf, seen, selectedPaths)
      case None => before
      case Some(entry) => before + [entry]
  }

  function SelectedPaths(selected: seq<Scored>): set<string> {
    set item | item in selected :: Normalize(item.path)
  }

  /** Family counts as the second phase recomputes them, from the reported paths. */
  function FamilyTally(selected: seq<Scored>, familyOf: string -> string): Counts {
    if selected == [] then map[]
    else Bump(FamilyTally(selected[..|selected| - 1], familyOf), familyOf(Normalize(selected[|selected| - 1].path)))
  }

  /** The entries that fill the room left. */
  function Extension(selected: nat, eligible: seq<Scored>, counts: Counts): seq<Scored> {
    if selected >= MaxRows then [] else Take(eligible, MaxRows - selected, counts)
  }

  /** What the second phase appends to the tests already selected. */
  function SecondPhase(selected: seq<Scored>, rows: seq<Row>, familyOf: string -> string,
                       seen: set<string>): seq<Scored> {
    Extension(|selected|, RelatedScored(rows, familyOf, seen, SelectedPaths(selected)), FamilyTally(selected, familyOf))
  }

  lemma ExtensionPart(selected: nat, eligible: seq<Scored>, counts: Counts)
    requires selected <= MaxRows
    ensures var picks := Extension(selected, eligible, counts);
            && multiset(picks) <= multiset(eligible) && (forall e :: e in picks ==> e in eligible)
            && Feasible(picks, MaxRows - selected, counts)
  {
    if selected < MaxRows {
      TakeFeasible(eligible, MaxRows - selected, counts);
    } else {
      assert forall f :: FamilyCount([], f) == 0;
    }
  }

  lemma ExtensionOptimal(selected: nat, eligible: seq<Scored>, counts: Counts, choice: seq<Scored>)
    requires selected <= MaxRows && Feasible(choice, MaxRows - selected, counts)
             && multiset(choice) <= multiset(eligible)
    requires forall e :: e in eligible ==> e.score >= 0.0
    ensures Dominates(Extension(selected, eligible, counts), Sort(RankLe, choice))
    ensures Total(choice) <= Total(Extension(selected, eligible, counts))
  {
    if selected < MaxRows {
      GreedyDominates(eligible, choice, MaxRows - selected, counts);
      GreedyOptimal(eligible, choice, MaxRows - selected, counts);
    } else {
      assert choice == [];
    }
  }

  function RelatedPicks(rows: seq<Row>, familyOf: string -> string, seen: set<string>): seq<Scored> {
    SecondPhase(BehaviorTests(rows, familyOf, seen, {}, MaxRows), rows, familyOf, seen)
  }

  function RelatedEligible(rows: seq<Row>, familyOf: string -> string, seen: set<string>): seq<Scored> {
    RelatedScored(rows, familyOf, seen, SelectedPaths(BehaviorTests(rows, familyOf, seen, {}, MaxRows)))
  }

  function RelatedFiles(rows: seq<Row>, familyOf: string -> string, seen: set<string>): seq<Scored> {
    BehaviorTests(rows, familyOf, seen, {}, MaxRows) + RelatedPicks(rows, familyOf, seen)
  }

  method ScoreRelatedRows(rows: seq<Row>, familyOf: string -> string, seen: set<string>, selectedPaths: set<string>)
    returns (scored: seq<Scored>)
    ensures scored == RelatedScored(rows, familyOf, seen, selectedPaths)
  {
    scored := [];
    for i := 0 to |rows|
      invariant scored == RelatedScored(rows[..i], familyOf, seen, selectedPaths)
    {
      assert rows[..i + 1][..i] == rows[..i];
      var path := Normalize(rows[i].path);
      if path == "" || path in seen || path in selectedPaths {
        continue;
      }
      if !RelatedAllowed(rows[i]) {
        continue;
      }
      scored := scored + [Scored(path, familyOf(path), rows[i].score, rows[i].strong)];
    }
    assert rows[..|rows|] == rows;
  }

  lemma TallyStep(selected: seq<Scored>, familyOf: string -> string, i: nat)
    requires i < |selected|
    ensures var path := Normalize(selected[i].path);
            && SelectedPaths(selected[..i + 1]) == SelectedPaths(selected[..i]) + {path}
            && FamilyTally(selected[..i + 1], familyOf) == Bump(FamilyTally(selected[..i], familyOf), familyOf(path))
  {
    assert selected[..i + 1] == selected[..i] + [selected[i]];
    assert selected[..i + 1][..i] == selected[..i];
  }

  method TallySelected(selected: seq<Scored>, familyOf: string -> string)
    returns (selectedPaths: set<string>, familyCounts: Counts)
    ensures selectedPaths == SelectedPaths(selected)
    ensures familyCounts == FamilyTally(selected, familyOf)
  {
    selectedPaths, familyCounts := {}, map[];
    for i := 0 to |selected|
      invariant selectedPaths == SelectedPaths(selected[..i])
      invariant familyCounts == FamilyTally(selected[..i], familyOf)
    {
      TallyStep(selected, familyOf, i);
      var path := Normalize(selected[i].path);
      selectedPaths := selectedPaths + {path};
      familyCounts := Bump(familyCounts, familyOf(path));
    }
    assert selected[..|selected|] == selected;
  }

  method Extend(tests: seq<Scored>, eligible: seq<Scored>, familyCounts: Counts) returns (selected: seq<Scored>)
    ensures selected == tests + Extension(|tests|, eligible, familyCounts)
  {
    if |tests| >= MaxRows {
      return tests;
    }
    var scored := Sort(RankLe, eligible);
    var related := TakeCapped(scored, MaxRows - |tests|, familyCounts, false);
    selected := tests + related;
  }

  method AppendRelated(tests: seq<Scored>, rows: seq<Row>, familyOf: string -> string, seen: set<string>)
    returns (selected: seq<Scored>)
    ensures selected == tests + SecondPhase(tests, rows, familyOf, seen)
  {
    var selectedPaths, familyCounts := TallySelected(tests, familyOf);
    if |tests| >= MaxRows {
      return tests;
    }
    var scored := ScoreRelatedRows(rows, familyOf, seen, selectedPaths);
    selected := Extend(tests, scored, familyCounts);
  }

  method BuildRelatedFiles(rows: seq<Row>, familyOf: string -> string, seen: set<string>)
    returns (selected: seq<Scored>)
    ensures selected == RelatedFiles(rows, familyOf, seen)
  {
    selected := SelectBehaviorTests(rows, familyOf, seen, {}, MaxRows);
    selected := AppendRelated(selected, rows, familyOf, seen);
  }

  /** The strong tests come first and at most four entries are listed; what the second phase adds is,
      score by score and in total, the best extension that the remaining budgets allow. */
  lemma RelatedFilesOptimal(rows: seq<Row>, familyOf: string -> string, seen: set<string>, choice: seq<Scored>)
    requires var tests := BehaviorTests(rows, familyOf, seen, {}, MaxRows);
             && |tests| + |choice| <= MaxRows
             && multiset(choice) <= multiset(RelatedEligible(rows, familyOf, seen))
             && Feasible(choice, MaxRows - |tests|, FamilyTally(tests, familyOf))
    ensures BehaviorTests(rows, familyOf, seen, {}, MaxRows) <= RelatedFiles(rows, familyOf, seen)
    ensures |RelatedFiles(rows, familyOf, seen)| <= MaxRows
    ensures Dominates(RelatedPicks(rows, familyOf, seen), Sort(RankLe, choice))
    ensures Total(choice) <= Total(RelatedPicks(rows, familyOf, seen))
  {
    var tests := BehaviorTests(rows, familyOf, seen, {}, MaxRows);
    var eligible := RelatedEligible(rows, familyOf, seen);
    BehaviorTestsBounded(rows, familyOf, seen, {}, MaxRows);
    RelatedScoresPositive(rows, familyOf, seen, SelectedPaths(tests));
    ExtensionPart(|tests|, eligible, FamilyTally(tests, familyOf));
    ExtensionOptimal(|tests|, eligible, FamilyTally(tests, familyOf), choice);
  }

  lemma BehaviorTestsBounded(rows: seq<Row>, familyOf: string -> string, seen: set<string>, already: set<string>,
                             limit: nat)
    ensures Feasible(BehaviorTests(rows, familyOf, seen, already, limit), limit, map[])
    ensures multiset(BehaviorTests(rows, familyOf, seen, already, limit))
            <= multiset(Filter(IsStrong, BehaviorScored(rows, familyOf, seen, already)))
  {
    var scored := BehaviorScored(rows, familyOf, seen, already);
    SortPermutes(RankLe, scored);
    FilterPermutes(IsStrong, Sort(RankLe, scored), scored);
    PicksFeasible(Filter(IsStrong, Sort(RankLe, scored)), limit, map[]);
  }

  lemma {:induction false} RelatedScoresPositive(rows: seq<Row>, familyOf: string -> string, seen: set<string>,
                                                 selectedPaths: set<string>)
    ensures forall e :: e in RelatedScored(rows, familyOf, seen, selectedPaths) ==> e.score >= 18.0
  {
    if rows != [] {
      RelatedScoresPositive(rows[..|rows| - 1], familyOf, seen, selectedPaths);
    }
  }

  lemma {:induction false} RelatedScoredEntry(rows: seq<Row>, familyOf: string -> string, seen: set<string>,
                                              selectedPaths: set<string>,
                                              e: Scored)
    returns (i: nat)
    requires e in RelatedScored(rows, familyOf, seen, selectedPaths)
    ensures i < |rows| && RelatedEntry(rows[i], familyOf, seen, selectedPaths) == Some(e)
  {
    var n := |rows| - 1;
    if RelatedEntry(rows[n], familyOf, seen, selectedPaths) == Some(e) {
      i := n;
    } else {
      i := RelatedScoredEntry(rows[..n], familyOf, seen, selectedPaths, e);
    }
  }

  // ---------------------------------------------------------------- no path twice, no family over budget

  ghost predicate DistinctPaths(s: seq<Scored>) {
    forall i, j :: 0 <= i < j < |s| ==> s[i].path != s[j].path
  }

  ghost predicate DistinctRows(rows: seq<Row>) {
    forall i, j :: 0 <= i < j < |rows| ==> Normalize(rows[i].path) != Normalize(rows[j].path)
  }

  ghost predicate SettledRows(rows: seq<Row>) {
    forall row :: row in rows ==> Settled(Normalize(row.path))
  }

  lemma OnceInMultiset(s: seq<Scored>, a: nat)
    requires DistinctPaths(s) && a < |s|
    ensures multiset(s)[s[a]] == 1
  {
    assert s == s[..a] + [s[a]] + s[a + 1..];
    assert s[a] !in s[..a] && s[a] !in s[a + 1..];
  }

  lemma DistinctSelection(small: seq<Scored>, big: seq<Scored>)
    requires DistinctPaths(big) && multiset(small) <= multiset(big)
    ensures DistinctPaths(small)
  {
    forall i, j | 0 <= i < j < |small| ensures small[i].path != small[j].path {
      assert small[i] in multiset(big) && small[j] in multiset(big);
      var a :| 0 <= a < |big| && big[a] == small[i];
      var b :| 0 <= b < |big| && big[b] == small[j];
      if small[j].path == small[i].path {
        assert a == b;
        OccursTwice(small, i, j);
        OnceInMultiset(big, a);
      }
    }
  }

  lemma {:induction false} BehaviorScoredDistinct(rows: seq<Row>, familyOf: string -> string, seen: set<string>,
                                                  already: set<string>)
    requires DistinctRows(rows)
    ensures DistinctPaths(BehaviorScored(rows, familyOf, seen, already))
  {
    if rows != [] {
      var n := |rows| - 1;
      BehaviorScoredDistinct(rows[..n], familyOf, seen, already);
      var before := BehaviorScored(rows[..n], familyOf, seen, already);
      forall e | e in before ensures e.path != Normalize(rows[n].path) {
        var i := BehaviorScoredEntry(rows[..n], familyOf, seen, already, e);
      }
    }
  }

  lemma {:induction false} RelatedScoredDistinct(rows: seq<Row>, familyOf: string -> string, seen: set<string>,
                                                 selectedPaths: set<string>)
    requires DistinctRows(rows)
    ensures DistinctPaths(RelatedScored(rows, familyOf, seen, selectedPaths))
  {
    if rows != [] {
      var n := |rows| - 1;
      RelatedScoredDistinct(rows[..n], familyOf, seen, selectedPaths);
      var before := RelatedScored(rows[..n], familyOf, seen, selectedPaths);
      forall e | e in before ensures e.path != Normalize(rows[n].path) {
        var i := RelatedScoredEntry(rows[..n], familyOf, seen, selectedPaths, e);
      }
    }
  }

  lemma {:induction false} TallyCounts(selected: seq<Scored>, familyOf: string -> string, f: string)
    requires forall e :: e in selected ==> e.family == familyOf(Normalize(e.path))
    ensures CountOf(FamilyTally(selected, familyOf), f) == FamilyCount(selected, f)
  {
    if selected != [] {
      var n := |selected| - 1;
      TallyCounts(selected[..n], familyOf, f);
      assert selected == selected[..n] + [selected[n]];
      FamilyCountAppend(selected[..n], [selected[n]], f);
      FamilyCountOfOne(selected[n], f);
    }
  }

  lemma FamilyCountOfOne(e: Scored, f: string)
    ensures FamilyCount([e], f) == if e.family == f then 1 else 0
  {
    assert [e][1..] == [];
  }

  lemma RelatedPickEntries(rows: seq<Row>, familyOf: string -> string, seen: set<string>, e: Scored)
    requires e in RelatedPicks(rows, familyOf, seen)
    ensures e.path !in SelectedPaths(BehaviorTests(rows, familyOf, seen, {}, MaxRows))
    ensures e.family == familyOf(e.path)
  {
    BehaviorTestsBounded(rows, familyOf, seen, {}, MaxRows);
    SecondPhaseEntries(BehaviorTests(rows, familyOf, seen, {}, MaxRows), rows, familyOf, seen, e);
  }

  lemma SecondPhaseEntries(tests: seq<Scored>, rows: seq<Row>, familyOf: string -> string, seen: set<string>, e: Scored)
    requires |tests| <= MaxRows && e in SecondPhase(tests, rows, familyOf, seen)
    ensures e.path !in SelectedPaths(tests) && e.family == familyOf(e.path)
  {
    ExtensionPart(|tests|, RelatedScored(rows, familyOf, seen, SelectedPaths(tests)), FamilyTally(tests, familyOf));
    var i := RelatedScoredEntry(rows, familyOf, seen, SelectedPaths(tests), e);
  }

  lemma TestsSettled(rows: seq<Row>, familyOf: string -> string, seen: set<string>)
    requires SettledRows(rows)
    ensures forall e :: e in BehaviorTests(rows, familyOf, seen, {}, MaxRows) ==>
                          Normalize(e.path) == e.path && e.family == familyOf(e.path)
  {
    forall e | e in BehaviorTests(rows, familyOf, seen, {}, MaxRows)
      ensures Normalize(e.path) == e.path && e.family == familyOf(e.path)
    {
      BehaviorTestEntries(rows, familyOf, seen, {}, MaxRows, e);
      var row :| row in rows && e.path == Normalize(row.path);
      NormalizeTwice(row.path);
    }
  }

  /** When every row's normal form is settled and no two rows share one, the two phases together list
      no path twice. */
  lemma RelatedFilesDistinct(rows: seq<Row>, familyOf: string -> string, seen: set<string>)
    requires DistinctRows(rows) && SettledRows(rows)
    ensures DistinctPaths(RelatedFiles(rows, familyOf, seen))
  {
    var tests, picks := BehaviorTests(rows, familyOf, seen, {}, MaxRows), RelatedPicks(rows, familyOf, seen);
    TestsDistinct(rows, familyOf, seen);
    PicksDistinct(rows, familyOf, seen);
    TestsSettled(rows, familyOf, seen);
    forall a, b | a in tests && b in picks ensures a.path != b.path {
      RelatedPickEntries(rows, familyOf, seen, b);
      assert Normalize(a.path) in SelectedPaths(tests);
    }
  }

  lemma TestsDistinct(rows: seq<Row>, familyOf: string -> string, seen: set<string>)
    requires DistinctRows(rows)
    ensures DistinctPaths(BehaviorTests(rows, familyOf, seen, {}, MaxRows))
  {
    var scored := BehaviorScored(rows, familyOf, seen, {});
    BehaviorScoredDistinct(rows, familyOf, seen, {});
    BehaviorTestsBounded(rows, familyOf, seen, {}, MaxRows);
    forall x ensures multiset(Filter(IsStrong, scored))[x] <= multiset(scored)[x] {
      FilterMultiplicity(IsStrong, scored, x);
    }
    assert multiset(Filter(IsStrong, scored)) <= multiset(scored);
    DistinctSelection(BehaviorTests(rows, familyOf, seen, {}, MaxRows), scored);
  }

  lemma PicksDistinct(rows: seq<Row>, familyOf: string -> string, seen: set<string>)
    requires DistinctRows(rows)
    ensures DistinctPaths(RelatedPicks(rows, familyOf, seen))
  {
    var tests := BehaviorTests(rows, familyOf, seen, {}, MaxRows);
    BehaviorTestsBounded(rows, familyOf, seen, {}, MaxRows);
    RelatedScoredDistinct(rows, familyOf, seen, SelectedPaths(tests));
    ExtensionPart(|tests|, RelatedEligible(rows, familyOf, seen), FamilyTally(tests, familyOf));
    DistinctSelection(RelatedPicks(rows, familyOf, seen), RelatedEligible(rows, familyOf, seen));
  }

  /** Normalising a reported path again keeps its family. */
  predicate FamilyKept(familyOf: string -> string, path: string) {
    var n := Normalize(path);
    n != "" ==> familyOf(Normalize(n)) == familyOf(n)
  }

  /** When normalising the rows' paths again keeps their families, no family has more than two entries across
      both phases; an entry's family is that of the path it reports. */
  lemma RelatedFilesWithinFamilyBudget(rows: seq<Row>, familyOf: string -> string, seen: set<string>, f: string)
    requires forall row :: row in rows ==> FamilyKept(familyOf, row.path)
    ensures FamilyCount(RelatedFiles(rows, familyOf, seen), f) <= MaxPerFamily
    ensures forall e :: e in RelatedFiles(rows, familyOf, seen) ==> e.family == familyOf(e.path)
  {
    var tests, picks := BehaviorTests(rows, familyOf, seen, {}, MaxRows), RelatedPicks(rows, familyOf, seen);
    forall e | e in tests ensures e.family == familyOf(e.path) == familyOf(Normalize(e.path)) {
      BehaviorTestEntries(rows, familyOf, seen, {}, MaxRows, e);
      var row :| row in rows && e.path == Normalize(row.path);
      assert FamilyKept(familyOf, row.path);
    }
    BudgetAcrossPhases(rows, familyOf, seen, f);
    forall e | e in picks ensures e.family == familyOf(e.path) {
      RelatedPickEntries(rows, familyOf, seen, e);
    }
  }

  lemma BudgetAcrossPhases(rows: seq<Row>, familyOf: string -> string, seen: set<string>, f: string)
    requires forall e :: e in BehaviorTests(rows, familyOf, seen, {}, MaxRows) ==>
               e.family == familyOf(Normalize(e.path))
    ensures FamilyCount(RelatedFiles(rows, familyOf, seen), f) <= MaxPerFamily
  {
    var tests := BehaviorTests(rows, familyOf, seen, {}, MaxRows);
    var tally := FamilyTally(tests, familyOf);
    BehaviorTestsBounded(rows, familyOf, seen, {}, MaxRows);
    assert CountOf(map[], f) == 0;
    TallyCounts(tests, familyOf, f);
    ExtensionPart(|tests|, RelatedEligible(rows, familyOf, seen), tally);
    FamilyCountAppend(tests, RelatedPicks(rows, familyOf, seen), f);
  }

  lemma TestOfOne(row: Row, entry: Scored, familyOf: string -> string)
    requires BehaviorEntry(row, familyOf, {}, {}) == Some(entry) && entry.strong
    ensures BehaviorTests([row], familyOf, {}, {}, MaxRows) == [entry]
  {
    assert [row][..0] == [];
    assert BehaviorScored([], familyOf, {}, {}) == [];
    assert BehaviorScored([row], familyOf, {}, {}) == [entry];
    SingleTaken(entry, MaxRows, map[]);
  }

  lemma RelatedOfOne(row: Row, entry: Scored, familyOf: string -> string)
    requires RelatedEntry(row, familyOf, {}, SelectedPaths([entry])) == Some(entry) && entry.strong
    ensures SecondPhase([entry], [row], familyOf, {}) == [entry]
  {
    var paths := SelectedPaths([entry]);
    assert [row][..0] == [] && [entry][..0] == [];
    assert RelatedScored([], familyOf, {}, paths) == [];
    assert RelatedScored([row], familyOf, {}, paths) == [entry];
    assert FamilyTally([], familyOf) == map[];
    assert FamilyTally([entry], familyOf) == Bump(map[], familyOf(Normalize(entry.path)));
    SingleTaken(entry, MaxRows - 1, FamilyTally([entry], familyOf));
  }

  /** The condition on paths is exact: a single strong test row whose normal form is not settled, such
      as "././store_test.go", is listed in both phases. */
  lemma UnsettledPathListedTwice(path: string, familyOf: string -> string)
    requires Normalize(path) != "" && !Settled(Normalize(path))
    ensures var files := RelatedFiles([Row(path, true, false, 30.0, true, 4)], familyOf, {});
            |files| == 2 && files[0].path == files[1].path == Normalize(path)
  {
    var row := Row(path, true, false, 30.0, true, 4);
    var n := Normalize(path);
    var entry := Scored(n, familyOf(n), 30.0, true);
    NormalizeTwice(path);
    TestOfOne(row, entry, familyOf);
    assert SelectedPaths([entry]) == {Normalize(n)};
    RelatedOfOne(row, entry, familyOf);
  }

  lemma SingleTaken(entry: Scored, room: nat, counts: Counts)
    requires room > 0 && CountOf(counts, entry.family) < MaxPerFamily && entry.strong
    ensures Sort(RankLe, [entry]) == [entry] && Filter(IsStrong, [entry]) == [entry]
    ensures Picks([entry], room, counts) == [entry]
  {
    assert [entry][1..] == [];
    assert Sort(RankLe, []) == [];
    assert Picks([], room - 1, Bump(counts, entry.family)) == [];
  }

  lemma PairTaken(entry: Scored, room: nat, counts: Counts)
    requires room > 1 && CountOf(counts, entry.family) == 0 && entry.strong
    ensures Sort(RankLe, [entry, entry]) == [entry, entry] && Filter(IsStrong, [entry, entry]) == [entry, entry]
    ensures Picks([entry, entry], room, counts) == [entry, entry]
  {
    RankLeTotal();
    assert [entry, entry][1..] == [entry];
    SingleTaken(entry, room - 1, Bump(counts, entry.family));
  }

  lemma TestsOfTwo(row: Row, entry: Scored, familyOf: string -> string)
    requires BehaviorEntry(row, familyOf, {}, {}) == Some(entry) && entry.strong
    ensures BehaviorTests([row, row], familyOf, {}, {}, MaxRows) == [entry, entry]
  {
    assert [row][..0] == [] && [row, row][..1] == [row];
    assert BehaviorScored([row], familyOf, {}, {}) == [entry];
    assert BehaviorScored([row, row], familyOf, {}, {}) == [entry, entry];
    PairTaken(entry, MaxRows, map[]);
  }

  lemma TallyOfTwo(entry: Scored, familyOf: string -> string)
    ensures SelectedPaths([entry, entry]) == {Normalize(entry.path)}
    ensures FamilyTally([entry, entry], familyOf).Keys == {familyOf(Normalize(entry.path))}
  {
    assert [entry][..0] == [] && [entry, entry][..1] == [entry];
    assert FamilyTally([entry], familyOf).Keys == {familyOf(Normalize(entry.path))};
  }

  lemma RelatedOfTwo(row: Row, entry: Scored, familyOf: string -> string)
    requires RelatedEntry(row, familyOf, {}, SelectedPaths([entry, entry])) == Some(entry) && entry.strong
    requires entry.family != familyOf(Normalize(entry.path))
    ensures SecondPhase([entry, entry], [row, row], familyOf, {}) == [entry, entry]
  {
    RelatedScoredPair(row, entry, familyOf, SelectedPaths([entry, entry]));
    TallyOfTwo(entry, familyOf);
    PairExtends(entry, FamilyTally([entry, entry], familyOf));
  }

  lemma RelatedScoredPair(row: Row, entry: Scored, familyOf: string -> string, paths: set<string>)
    requires RelatedEntry(row, familyOf, {}, paths) == Some(entry)
    ensures RelatedScored([row, row], familyOf, {}, paths) == [entry, entry]
  {
    assert [row][..0] == [] && [row, row][..1] == [row];
    assert RelatedScored([row], familyOf, {}, paths) == [entry];
  }

  lemma PairExtends(entry: Scored, counts: Counts)
    requires CountOf(counts, entry.family) == 0 && entry.strong
    ensures Extension(2, [entry, entry], counts) == [entry, entry]
  {
    PairTaken(entry, MaxRows - 2, counts);
  }

  /** A path whose family changes when it is normalised again takes all four places when it has two rows. */
  lemma FamilyOverBudget(path: string, familyOf: string -> string)
    requires !FamilyKept(familyOf, path)
    ensures var row := Row(path, true, false, 30.0, true, 4);
            FamilyCount(RelatedFiles([row, row], familyOf, {}), familyOf(Normalize(path))) == MaxRows > MaxPerFamily
  {
    var row := Row(path, true, false, 30.0, true, 4);
    var n := Normalize(path);
    var entry := Scored(n, familyOf(n), 30.0, true);
    TestsOfTwo(row, entry, familyOf);
    TallyOfTwo(entry, familyOf);
    RelatedOfTwo(row, entry, familyOf);
    assert RelatedFiles([row, row], familyOf, {}) == [entry, entry, entry, entry];
    FamilyCountOfFour(entry);
  }

  lemma FamilyCountOfFour(entry: Scored)
    ensures FamilyCount([entry, entry, entry, entry], entry.family) == 4
  {
    FamilyCountAppend([entry, entry], [entry, entry], entry.family);
    FamilyCountAppend([entry], [entry], entry.family);
    assert [entry] + [entry] == [entry, entry] && [entry, entry] + [entry, entry] == [entry, entry, entry, entry];
    assert FamilyCount([entry], entry.family) == 1 by { assert [entry][1..] == []; }
  }

  /** The families of the source do change: for every file in a directory, such as a/b_test.go, there is a path
      with slashes and blanks in front whose family is " a", and after one more normalisation "a". */
  lemma SpacedPathOverBudget(a: string, b: string)
    requires '/' !in a && '/' !in b && a != "" && b != "" && a != "." && a != ".." && Plain(a + "/" + b)
    ensures var path := Slashed(Spaced(Slashed(Spaced(a + "/" + b))));
            var row := Row(path, true, false, 30.0, true, 4);
            && !FamilyKept(PathFamily, path)
            && FamilyCount(RelatedFiles([row, row], PathFamily, {}), Spaced(a)) == MaxRows > MaxPerFamily
  {
    var path := Slashed(Spaced(Slashed(Spaced(a + "/" + b))));
    NormalizePeels(a + "/" + b);
    FamilyInDirectory(a, b);
    FamilyOverBudget(path, PathFamily);
  }

  /** A path keeps its family when normalising twice settles it, as it does for "././a". */
  lemma SettledTwiceKeepsFamily(path: string)
    requires Settled(Normalize(Normalize(path)))
    ensures FamilyKept(PathFamily, path)
  {
    NormalizeTwice(Normalize(path));
  }

  ghost predicate FamilyBudgetHolds(familyOf: string -> string) {
    forall rows: seq<Row>, seen: set<string>, f: string ::
      FamilyCount(RelatedFiles(rows, familyOf, seen), f) <= MaxPerFamily
  }

  /** The budget of two per family spans both phases exactly when normalising a normal form again never
      changes its family. */
  lemma FamilyBudgetExactly(familyOf: string -> string)
    ensures FamilyBudgetHolds(familyOf) <==> forall path :: FamilyKept(familyOf, path)
  {
    if forall path :: FamilyKept(familyOf, path) {
      FamiliesWithinBudget(familyOf);
    } else {
      var path :| !FamilyKept(familyOf, path);
      BudgetBroken(path, familyOf);
    }
  }

  lemma FamiliesWithinBudget(familyOf: string -> string)
    requires forall path :: FamilyKept(familyOf, path)
    ensures FamilyBudgetHolds(familyOf)
  {
    forall rows: seq<Row>, seen: set<string>, f: string
      ensures FamilyCount(RelatedFiles(rows, familyOf, seen), f) <= MaxPerFamily
    {
      RelatedFilesWithinFamilyBudget(rows, familyOf, seen, f);
    }
  }

  lemma BudgetBroken(path: string, familyOf: string -> string)
    requires !FamilyKept(familyOf, path)
    ensures !FamilyBudgetHolds(familyOf)
  {
    FamilyOverBudget(path, familyOf);
  }

  // ---------------------------------------------------------------- source-manifest recovery

  /** A row of the recovery pass with its candidate's path and score and what the threshold looks at. */
  datatype RecoveryRow =
    RecoveryRow(path: string, candidatePath: string, score: int, weakPath: bool, sameStem: bool, behaviorTest: bool)

  function RecoveryThreshold(row: RecoveryRow): int {
    if row.weakPath then 28 else if row.sameStem then 16 else if row.behaviorTest then 22 else 18
  }

  function RecoveryEntry(row: RecoveryRow, familyOf: string -> string, seen: set<string>): Option<Scored> {
    var path := Normalize(row.path);
    if path == "" || path in seen || row.score < RecoveryThreshold(row) then None
    else Some(Scored(row.candidatePath, familyOf(path), row.score as real, true))
  }

  function RecoveryScored(rows: seq<RecoveryRow>, familyOf: string -> string, seen: set<string>): seq<Scored> {
    if rows == [] then []
    else
      var before := RecoveryScored(rows[..|rows| - 1], familyOf, seen);
      match RecoveryEntry(rows[|rows| - 1], familyOf, seen)
      case None => before
      case Some(entry) => before + [entry]
  }

  lemma {:induction false} RecoveryScoredPositive(rows: seq<RecoveryRow>, familyOf: string -> string, seen: set<string>)
    ensures forall e :: e in RecoveryScored(rows, familyOf, seen) ==> e.score >= 16.0
  {
    if rows != [] {
      RecoveryScoredPositive(rows[..|rows| - 1], familyOf, seen);
    }
  }

  method ScoreRecoveryRows(rows: seq<RecoveryRow>, familyOf: string -> string, seen: set<string>)
    returns (scored: seq<Scored>)
    ensures scored == RecoveryScored(rows, familyOf, seen)
  {
    scored := [];
    for i := 0 to |rows|
      invariant scored == RecoveryScored(rows[..i], familyOf, seen)
    {
      assert rows[..i + 1][..i] == rows[..i];
      var path := Normalize(rows[i].path);
      if path == "" || path in seen {
        continue;
      }
      if rows[i].score < RecoveryThreshold(rows[i]) {
        continue;
      }
      scored := scored + [Scored(rows[i].candidatePath, familyOf(path), rows[i].score as real, true)];
    }
    assert rows[..|rows|] == rows;
  }

  /** What recovery selects; contextReady says that the query left terms to score with and that the
      selection left source paths to recover from. */
  function Recovered(rows: seq<RecoveryRow>, familyOf: string -> string, seen: set<string>, contextReady: bool,
                     limit: int): seq<Scored> {
    if limit <= 0 || rows == [] || !contextReady then [] else Take(RecoveryScored(rows, familyOf, seen), limit, map[])
  }

  method SelectRecoveryCandidates(rows: seq<RecoveryRow>, familyOf: string -> string, seen: set<string>,
                                  contextReady: bool, limit: int)
    returns (items: seq<Scored>)
    ensures items == Recovered(rows, familyOf, seen, contextReady, limit)
  {
    if limit <= 0 || |rows| == 0 {
      return [];
    }
    if !contextReady {
      return [];
    }
    var scored := ScoreRecoveryRows(rows, familyOf, seen);
    scored := Sort(RankLe, scored);
    items := TakeCapped(scored, limit, map[], false);
  }

  /** Recovery adds an optimal choice within its limit and the family cap, or nothing when it has
      nothing to work from. */
  lemma RecoveredOptimal(rows: seq<RecoveryRow>, familyOf: string -> string, seen: set<string>, contextReady: bool,
                         limit: int,
                         choice: seq<Scored>)
    requires limit > 0 && contextReady
    requires multiset(choice) <= multiset(RecoveryScored(rows, familyOf, seen)) && Feasible(choice, limit, map[])
    ensures Feasible(Recovered(rows, familyOf, seen, contextReady, limit), limit, map[])
    ensures Dominates(Recovered(rows, familyOf, seen, contextReady, limit), Sort(RankLe, choice))
    ensures Total(choice) <= Total(Recovered(rows, familyOf, seen, contextReady, limit))
  {
    var eligible := RecoveryScored(rows, familyOf, seen);
    if rows == [] {
      assert Sort(RankLe, eligible) == [];
    }
    TakeFeasible(eligible, limit, map[]);
    RecoveryScoredPositive(rows, familyOf, seen);
    GreedyDominates(eligible, choice, limit, map[]);
    GreedyOptimal(eligible, choice, limit, map[]);
  }
}
