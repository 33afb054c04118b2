/** Which rows the capped selections list. */
module ReceiptLaws {
  // Every row that qualifies is listed unless the list is full or its family has spent its two, and nothing else
  // is (find_source_test_receipts.go, find_source_manifest_recovery.go).

  import opened Options
  import opened Sorting
  import opened Paths
  import opened Selection
  import opened Receipts

  // ---------------------------------------------------------------- the take loop passes nothing over

  lemma {:induction false} TakenOrSpent(ranked: seq<Scored>, room: nat, counts: Counts, e: Scored)
    requires e in ranked
    ensures var p := Picks(ranked, room, counts);
            e in p || |p| == room || CountOf(counts, e.family) + FamilyCount(p, e.family) >= 2
  {
    if room > 0 {
      if CountOf(counts, ranked[0].family) >= MaxPerFamily {
        if ranked[0] != e {
          TakenOrSpent(ranked[1..], room, counts, e);
        }
      } else if ranked[0] != e {
        var counts' := Bump(counts, ranked[0].family);
        var rest := Picks(ranked[1..], room - 1, counts');
        TakenOrSpent(ranked[1..], room - 1, counts', e);
        assert ([ranked[0]] + rest)[1..] == rest;
      }
    }
  }

  lemma Sorted(s: seq<Scored>, e: Scored)
    ensures e in Sort(RankLe, s) <==> e in s
  {
    SortPermutes(RankLe, s);
    assert e in multiset(Sort(RankLe, s)) <==> e in multiset(s);
  }

  lemma {:induction false} FilterKeeps(p: Scored -> bool, s: seq<Scored>, e: Scored)
    requires e in s && p(e)
    ensures e in Filter(p, s)
  {
    if s[0] != e {
      FilterKeeps(p, s[1..], e);
    }
  }

  lemma PickedWasThere(ranked: seq<Scored>, room: nat, counts: Counts, e: Scored)
    requires e in Picks(ranked, room, counts)
    ensures e in ranked
  {
    PicksAreCandidates(ranked, room, counts);
    assert e in multiset(Picks(ranked, room, counts));
  }

  lemma InExtended(before: seq<Scored>, after: seq<Scored>, entry: Option<Scored>, e: Scored)
    requires after == if entry.Some? then before + [entry.value] else before
    requires e in before || entry == Some(e)
    ensures e in after
  {
    assert entry == Some(e) ==> after[|before|] == e;
  }

  // ---------------------------------------------------------------- behaviour tests

  /** A test with strong evidence, a score of at least 12 and a path not seen and not listed. */
  predicate TestQualifies(row: Row, seen: set<string>, already: set<string>) {
    var n := Normalize(row.path);
    row.behaviorTest && row.strong && row.score >= 12.0 && n != "" && n !in seen && n !in already
  }

  function EntryOf(row: Row, familyOf: string -> string): Scored {
    Scored(Normalize(row.path), familyOf(Normalize(row.path)), row.score, row.strong)
  }

  lemma BehaviorStep(rows: seq<Row>, familyOf: string -> string, seen: set<string>, already: set<string>)
    requires rows != []
    ensures var before := BehaviorScored(rows[..|rows| - 1], familyOf, seen, already);
            var entry := BehaviorEntry(rows[|rows| - 1], familyOf, seen, already);
            BehaviorScored(rows, familyOf, seen, already)
            == if entry.Some? then before + [entry.value] else before
  {
  }

  lemma {:induction false} BehaviorScoredHas(rows: seq<Row>, familyOf: string -> string, seen: set<string>,
                                             already: set<string>, row: Row, e: Scored)
    requires row in rows && BehaviorEntry(row, familyOf, seen, already) == Some(e)
    ensures e in BehaviorScored(rows, familyOf, seen, already)
  {
    var n := |rows| - 1;
    if rows[n] != row {
      assert row in rows[..n];
      BehaviorScoredHas(rows[..n], familyOf, seen, already, row, e);
    }
    BehaviorStep(rows, familyOf, seen, already);
    InExtended(BehaviorScored(rows[..n], familyOf, seen, already), BehaviorScored(rows, familyOf, seen, already),
               BehaviorEntry(rows[n], familyOf, seen, already), e);
  }

  lemma QualifiedScores(row: Row, familyOf: string -> string, seen: set<string>, already: set<string>)
    requires TestQualifies(row, seen, already)
    ensures BehaviorEntry(row, familyOf, seen, already) == Some(EntryOf(row, familyOf))
  {
  }

  /** Every test that qualifies is listed, or as many as may be are, or two of its family. */
  lemma ReceiptsListed(rows: seq<Row>, familyOf: string -> string, seen: set<string>, already: set<string>, limit: nat,
                       row: Row)
    requires row in rows && TestQualifies(row, seen, already)
    ensures var tests, e := BehaviorTests(rows, familyOf, seen, already, limit), EntryOf(row, familyOf);
            e in tests || |tests| == limit || FamilyCount(tests, e.family) == 2
  {
    var e, scored := EntryOf(row, familyOf), BehaviorScored(rows, familyOf, seen, already);
    QualifiedScores(row, familyOf, seen, already);
    BehaviorScoredHas(rows, familyOf, seen, already, row, e);
    Sorted(scored, e);
    FilterKeeps(IsStrong, Sort(RankLe, scored), e);
    TakenOrSpent(Filter(IsStrong, Sort(RankLe, scored)), limit, map[], e);
    PicksFeasible(Filter(IsStrong, Sort(RankLe, scored)), limit, map[]);
  }

  /** And every test listed qualifies, with its own path, family and score. */
  lemma ListedReceiptsQualify(rows: seq<Row>, familyOf: string -> string, seen: set<string>, already: set<string>,
                              limit: nat, e: Scored)
    requires e in BehaviorTests(rows, familyOf, seen, already, limit)
    ensures exists row :: row in rows && TestQualifies(row, seen, already) && e == EntryOf(row, familyOf)
  {
    BehaviorTestEntries(rows, familyOf, seen, already, limit, e);
    var i := BehaviorScoredEntry(rows, familyOf, seen, already, e);
    assert rows[i] in rows;
  }

  // ---------------------------------------------------------------- related files

  /** A row with a score of at least 18 and evidence enough, whose path is not seen and is no test's: a test with
      strong evidence or direct evidence of 4, on a tutorial path also of 7; other files with direct evidence of 5,
      or with strong evidence, direct evidence of 2 and a score of 24. */
  ghost predicate RelatedQualifies(row: Row, seen: set<string>, tests: seq<Scored>) {
    var n := Normalize(row.path);
    && n != "" && n !in seen && (forall t :: t in tests ==> Normalize(t.path) != n)
    && row.score >= 18.0
    && (row.behaviorTest ==> (row.strong || row.direct >= 4) && (row.tutorial ==> row.direct >= 7))
    && (!row.behaviorTest ==> row.direct >= 5 || (row.strong && row.direct >= 2 && row.score >= 24.0))
  }

  lemma RelatedExactly(row: Row, familyOf: string -> string, seen: set<string>, tests: seq<Scored>)
    ensures RelatedEntry(row, familyOf, seen, SelectedPaths(tests))
         == if RelatedQualifies(row, seen, tests) then Some(EntryOf(row, familyOf)) else None
  {
  }

  lemma RelatedStep(rows: seq<Row>, familyOf: string -> string, seen: set<string>, selectedPaths: set<string>)
    requires rows != []
    ensures var before := RelatedScored(rows[..|rows| - 1], familyOf, seen, selectedPaths);
            var entry := RelatedEntry(rows[|rows| - 1], familyOf, seen, selectedPaths);
            RelatedScored(rows, familyOf, seen, selectedPaths)
            == if entry.Some? then before + [entry.value] else before
  {
  }

  lemma {:induction false} RelatedScoredHas(rows: seq<Row>, familyOf: string -> string, seen: set<string>,
                                            selectedPaths: set<string>, row: Row, e: Scored)
    requires row in rows && RelatedEntry(row, familyOf, seen, selectedPaths) == Some(e)
    ensures e in RelatedScored(rows, familyOf, seen, selectedPaths)
  {
    var n := |rows| - 1;
    if rows[n] != row {
      assert row in rows[..n];
      RelatedScoredHas(rows[..n], familyOf, seen, selectedPaths, row, e);
    }
    RelatedStep(rows, familyOf, seen, selectedPaths);
    InExtended(RelatedScored(rows[..n], familyOf, seen, selectedPaths),
               RelatedScored(rows, familyOf, seen, selectedPaths),
               RelatedEntry(rows[n], familyOf, seen, selectedPaths), e);
  }

  /** The tests whose path, as it is normalised again, has this family. */
  function OfFamily(familyOf: string -> string, f: string): Scored -> bool {
    (t: Scored) => familyOf(Normalize(t.path)) == f
  }

  lemma {:induction false} TallyIsCount(tests: seq<Scored>, familyOf: string -> string, f: string)
    ensures CountOf(FamilyTally(tests, familyOf), f) == |Filter(OfFamily(familyOf, f), tests)|
  {
    if tests != [] {
      var n := |tests| - 1;
      TallyIsCount(tests[..n], familyOf, f);
      FilterAppend(OfFamily(familyOf, f), tests[..n], [tests[n]]);
      assert tests == tests[..n] + [tests[n]];
    }
  }

  /** Every row that qualifies is listed behind the tests, or four files are listed, or its family has spent its
      two on tests and related files. */
  lemma RelatedListed(rows: seq<Row>, familyOf: string -> string, seen: set<string>, row: Row)
    requires row in rows && RelatedQualifies(row, seen, BehaviorTests(rows, familyOf, seen, {}, 4))
    ensures var tests, files := BehaviorTests(rows, familyOf, seen, {}, 4), RelatedFiles(rows, familyOf, seen);
            var e := EntryOf(row, familyOf);
            && tests <= files
            && (e in files[|tests|..] || |files| == 4
                || |Filter(OfFamily(familyOf, e.family), tests)| + FamilyCount(files[|tests|..], e.family) >= 2)
  {
    var tests := BehaviorTests(rows, familyOf, seen, {}, 4);
    var eligible, e := RelatedEligible(rows, familyOf, seen), EntryOf(row, familyOf);
    BehaviorTestsBounded(rows, familyOf, seen, {}, 4);
    RelatedExactly(row, familyOf, seen, tests);
    RelatedScoredHas(rows, familyOf, seen, SelectedPaths(tests), row, e);
    Sorted(eligible, e);
    TallyIsCount(tests, familyOf, e.family);
    ExtendedOrSpent(|tests|, eligible, FamilyTally(tests, familyOf), e);
    assert RelatedFiles(rows, familyOf, seen)[|tests|..] == RelatedPicks(rows, familyOf, seen);
  }

  lemma ExtendedOrSpent(selected: nat, eligible: seq<Scored>, counts: Counts, e: Scored)
    requires selected <= 4 && e in Sort(RankLe, eligible)
    ensures var picks := Extension(selected, eligible, counts);
            e in picks || selected + |picks| == 4 || CountOf(counts, e.family) + FamilyCount(picks, e.family) >= 2
  {
    if selected < 4 {
      var room := 4 - selected;
      assert Extension(selected, eligible, counts) == Picks(Sort(RankLe, eligible), room, counts);
      TakenOrSpent(Sort(RankLe, eligible), room, counts, e);
    } else {
      assert Extension(selected, eligible, counts) == [];
    }
  }

  /** And every file listed behind the tests qualifies. */
  lemma ListedRelatedQualify(rows: seq<Row>, familyOf: string -> string, seen: set<string>, e: Scored)
    requires var tests, files := BehaviorTests(rows, familyOf, seen, {}, 4), RelatedFiles(rows, familyOf, seen);
             |tests| <= |files| && e in files[|tests|..]
    ensures exists row :: row in rows && RelatedQualifies(row, seen, BehaviorTests(rows, familyOf, seen, {}, 4))
                          && e == EntryOf(row, familyOf)
  {
    var tests := BehaviorTests(rows, familyOf, seen, {}, 4);
    BehaviorTestsBounded(rows, familyOf, seen, {}, 4);
    assert RelatedFiles(rows, familyOf, seen)[|tests|..] == RelatedPicks(rows, familyOf, seen);
    ExtensionPart(|tests|, RelatedEligible(rows, familyOf, seen), FamilyTally(tests, familyOf));
    var i := RelatedScoredEntry(rows, familyOf, seen, SelectedPaths(tests), e);
    RelatedExactly(rows[i], familyOf, seen, tests);
    assert rows[i] in rows;
  }

  // ---------------------------------------------------------------- recovery

  /** A path not seen, and a score that a weak path, a shared stem, a behaviour test or none of these asks for. */
  predicate RecoveryQualifies(row: RecoveryRow, seen: set<string>) {
    var n := Normalize(row.path);
    && n != "" && n !in seen
    && (row.weakPath ==> row.score >= 28)
    && (!row.weakPath && row.sameStem ==> row.score >= 16)
    && (!row.weakPath && !row.sameStem && row.behaviorTest ==> row.score >= 22)
    && (!row.weakPath && !row.sameStem && !row.behaviorTest ==> row.score >= 18)
  }

  function RecoveryEntryOf(row: RecoveryRow, familyOf: string -> string): Scored {
    Scored(row.candidatePath, familyOf(Normalize(row.path)), row.score as real, true)
  }

  lemma RecoveryStep(rows: seq<RecoveryRow>, familyOf: string -> string, seen: set<string>)
    requires rows != []
    ensures var before := RecoveryScored(rows[..|rows| - 1], familyOf, seen);
            var entry := RecoveryEntry(rows[|rows| - 1], familyOf, seen);
            RecoveryScored(rows, familyOf, seen) == if entry.Some? then before + [entry.value] else before
  {
  }

  lemma {:induction false} RecoveryScoredHas(rows: seq<RecoveryRow>, familyOf: string -> string, seen: set<string>,
                                             row: RecoveryRow, e: Scored)
    requires row in rows && RecoveryEntry(row, familyOf, seen) == Some(e)
    ensures e in RecoveryScored(rows, familyOf, seen)
  {
    var n := |rows| - 1;
    if rows[n] != row {
      assert row in rows[..n];
      RecoveryScoredHas(rows[..n], familyOf, seen, row, e);
    }
    RecoveryStep(rows, familyOf, seen);
    InExtended(RecoveryScored(rows[..n], familyOf, seen), RecoveryScored(rows, familyOf, seen),
               RecoveryEntry(rows[n], familyOf, seen), e);
  }

  lemma {:induction false} RecoveryScoredFrom(rows: seq<RecoveryRow>, familyOf: string -> string, seen: set<string>,
                                              e: Scored)
    returns (i: nat)
    requires e in RecoveryScored(rows, familyOf, seen)
    ensures i < |rows| && RecoveryQualifies(rows[i], seen) && e == RecoveryEntryOf(rows[i], familyOf)
  {
    var n := |rows| - 1;
    RecoveryExactly(rows[n], familyOf, seen);
    if RecoveryQualifies(rows[n], seen) && e == RecoveryEntryOf(rows[n], familyOf) {
      i := n;
    } else {
      i := RecoveryScoredFrom(rows[..n], familyOf, seen, e);
    }
  }

  lemma RecoveryExactly(row: RecoveryRow, familyOf: string -> string, seen: set<string>)
    ensures RecoveryEntry(row, familyOf, seen)
         == if RecoveryQualifies(row, seen) then Some(RecoveryEntryOf(row, familyOf)) else None
  {
  }

  /** With a limit and something to work from, every row that qualifies is recovered, or as many as the limit
      are, or two of its family; without, none is. */
  lemma RecoveredListed(rows: seq<RecoveryRow>, familyOf: string -> string, seen: set<string>, contextReady: bool,
                        limit: int, row: RecoveryRow)
    requires row in rows && RecoveryQualifies(row, seen)
    ensures var items, e := Recovered(rows, familyOf, seen, contextReady, limit), RecoveryEntryOf(row, familyOf);
            if limit > 0 && contextReady then e in items || |items| == limit || FamilyCount(items, e.family) == 2
            else items == []
  {
    var scored, e := RecoveryScored(rows, familyOf, seen), RecoveryEntryOf(row, familyOf);
    if limit > 0 && contextReady {
      RecoveryExactly(row, familyOf, seen);
      RecoveryScoredHas(rows, familyOf, seen, row, e);
      TakenFromNothing(scored, limit, e);
      assert rows != [] && Recovered(rows, familyOf, seen, contextReady, limit) == Take(scored, limit, map[]);
    }
  }

  lemma TakenFromNothing(eligible: seq<Scored>, room: nat, e: Scored)
    requires e in eligible
    ensures var items := Take(eligible, room, map[]);
            e in items || |items| == room || FamilyCount(items, e.family) == 2
  {
    var items := Take(eligible, room, map[]);
    Sorted(eligible, e);
    TakenOrSpent(Sort(RankLe, eligible), room, map[], e);
    TakeFeasible(eligible, room, map[]);
    assert CountOf(map[], e.family) == 0;
    assert FamilyCount(items, e.family) > 0 ==> CountOf(map[], e.family) + FamilyCount(items, e.family) <= 2;
  }

  /** And every candidate recovered comes from a row that qualifies. */
  lemma RecoveredQualify(rows: seq<RecoveryRow>, familyOf: string -> string, seen: set<string>, contextReady: bool,
                         limit: int, e: Scored)
    requires e in Recovered(rows, familyOf, seen, contextReady, limit)
    ensures exists row :: row in rows && RecoveryQualifies(row, seen) && e == RecoveryEntryOf(row, familyOf)
  {
    var scored := RecoveryScored(rows, familyOf, seen);
    PickedWasThere(Sort(RankLe, scored), limit, map[], e);
    Sorted(scored, e);
    var i := RecoveryScoredFrom(rows, familyOf, seen, e);
    assert rows[i] in rows;
  }

  // ---------------------------------------------------------------- the order of the lists

  /** By falling score; those of the same score by path. */
  ghost predicate InOrder(s: seq<Scored>) {
    forall i, j :: 0 <= i < j < |s| ==>
      s[i].score > s[j].score || (s[i].score == s[j].score && LexLe(s[i].path, s[j].path))
  }

  lemma {:induction false} PicksInOrder(ranked: seq<Scored>, room: nat, counts: Counts)
    requires SortedBy(RankLe, ranked)
    ensures InOrder(Picks(ranked, room, counts))
  {
    if ranked != [] && room > 0 {
      if CountOf(counts, ranked[0].family) >= MaxPerFamily {
        PicksInOrder(ranked[1..], room, counts);
      } else {
        var counts' := Bump(counts, ranked[0].family);
        var rest := Picks(ranked[1..], room - 1, counts');
        PicksInOrder(ranked[1..], room - 1, counts');
        forall e | e in rest ensures RankLe(ranked[0], e) {
          PickedWasThere(ranked[1..], room - 1, counts', e);
        }
        BestInFront(ranked[0], rest);
      }
    }
  }

  lemma BestInFront(e: Scored, rest: seq<Scored>)
    requires InOrder(rest) && forall o :: o in rest ==> RankLe(e, o)
    ensures InOrder([e] + rest)
  {
    forall j | 0 <= j < |rest| ensures RankLe(e, rest[j]) {}
  }

  lemma TakenInOrder(eligible: seq<Scored>, room: nat, counts: Counts)
    ensures InOrder(Take(eligible, room, counts))
  {
    RankLeTotal();
    SortSorts(RankLe, eligible);
    PicksInOrder(Sort(RankLe, eligible), room, counts);
  }

  /** The tests are listed best first. */
  lemma ReceiptsInOrder(rows: seq<Row>, familyOf: string -> string, seen: set<string>, already: set<string>, limit: nat)
    ensures InOrder(BehaviorTests(rows, familyOf, seen, already, limit))
  {
    var scored := BehaviorScored(rows, familyOf, seen, already);
    RankLeTotal();
    FilterSort(RankLe, IsStrong, scored);
    TakenInOrder(Filter(IsStrong, scored), limit, map[]);
  }

  /** So are the files behind them. */
  lemma RelatedInOrder(rows: seq<Row>, familyOf: string -> string, seen: set<string>)
    ensures var tests, files := BehaviorTests(rows, familyOf, seen, {}, 4), RelatedFiles(rows, familyOf, seen);
            tests <= files && InOrder(files[|tests|..])
  {
    var tests := BehaviorTests(rows, familyOf, seen, {}, 4);
    assert RelatedFiles(rows, familyOf, seen)[|tests|..] == RelatedPicks(rows, familyOf, seen);
    ExtensionInOrder(|tests|, RelatedEligible(rows, familyOf, seen), FamilyTally(tests, familyOf));
  }

  lemma ExtensionInOrder(selected: nat, eligible: seq<Scored>, counts: Counts)
    ensures InOrder(Extension(selected, eligible, counts))
  {
    if selected < 4 {
      ExtensionTakes(selected, eligible, counts);
      TakenInOrder(eligible, 4 - selected, counts);
    } else {
      assert Extension(selected, eligible, counts) == [];
    }
  }

  lemma ExtensionTakes(selected: nat, eligible: seq<Scored>, counts: Counts)
    requires selected < 4
    ensures Extension(selected, eligible, counts) == Take(eligible, 4 - selected, counts)
  {
  }

  /** And so are the candidates recovered. */
  lemma RecoveredInOrder(rows: seq<RecoveryRow>, familyOf: string -> string, seen: set<string>, contextReady: bool,
                         limit: int)
    ensures InOrder(Recovered(rows, familyOf, seen, contextReady, limit))
  {
    if limit > 0 {
      TakenInOrder(RecoveryScored(rows, familyOf, seen), limit, map[]);
    }
  }
}
