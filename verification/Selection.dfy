/** Bounded evidence selection by a greedy choice. */
module Selection {
  // Score, sort, then take greedily under a total limit and at most two entries per family
  // (find_source_test_receipts.go and find_source_manifest_recovery.go).

  import opened Sorting

  const MaxPerFamily: nat := 2

  /** One scored entry: the path that is reported, the family it is budgeted under, and its score. */
  datatype Scored = Scored(path: string, family: string, score: real, strong: bool)

  predicate RankLe(a: Scored, b: Scored) {
    if a.score == b.score then LexLe(a.path, b.path) else a.score > b.score
  }

  predicate IsStrong(s: Scored) { s.strong }

  // ---------------------------------------------------------------- the greedy choice

  type Counts = map<string, nat>

  function CountOf(counts: Counts, family: string): nat {
    if family in counts then counts[family] else 0
  }

  function Bump(counts: Counts, family: string): Counts {
    counts[family := CountOf(counts, family) + 1]
  }

  /** What the take loop appends: entries in rank order, while there is room and the family has budget. */
  function Picks(ranked: seq<Scored>, room: nat, counts: Counts): seq<Scored> {
    if ranked == [] || room == 0 then []
    else if CountOf(counts, ranked[0].family) >= MaxPerFamily then Picks(ranked[1..], room, counts)
    else [ranked[0]] + Picks(ranked[1..], room - 1, Bump(counts, ranked[0].family))
  }

  /** The whole operation: sort, then take. */
  function Take(eligible: seq<Scored>, room: nat, counts: Counts): seq<Scored> {
    Picks(Sort(RankLe, eligible), room, counts)
  }

  function PicksOf(ranked: seq<Scored>, room: nat, counts: Counts, strongOnly: bool): seq<Scored> {
    if ranked == [] || room == 0 then []
    else if (strongOnly && !ranked[0].strong) || CountOf(counts, ranked[0].family) >= MaxPerFamily then
      PicksOf(ranked[1..], room, counts, strongOnly)
    else [ranked[0]] + PicksOf(ranked[1..], room - 1, Bump(counts, ranked[0].family), strongOnly)
  }

  /** Skipping weak entries while taking is taking from the strong entries alone. */
  lemma {:induction false} PicksOfStrong(ranked: seq<Scored>, room: nat, counts: Counts, strongOnly: bool)
    ensures PicksOf(ranked, room, counts, strongOnly)
            == Picks(if strongOnly then Filter(IsStrong, ranked) else ranked, room, counts)
  {
    if ranked == [] || room == 0 {
      return;
    }
    var strong := Filter(IsStrong, ranked[1..]);
    assert [] + strong == strong && ([ranked[0]] + strong)[1..] == strong;
    if (strongOnly && !ranked[0].strong) || CountOf(counts, ranked[0].family) >= MaxPerFamily {
      PicksOfStrong(ranked[1..], room, counts, strongOnly);
    } else {
      PicksOfStrong(ranked[1..], room - 1, Bump(counts, ranked[0].family), strongOnly);
    }
  }

  /** An entry passed over: not strong where only strong ones are wanted, or beyond the budget of its family. */
  predicate Skipped(candidate: Scored, counts: Counts, strongOnly: bool) {
    (strongOnly && !candidate.strong) || CountOf(counts, candidate.family) >= MaxPerFamily
  }

  /** What is taken in the end, with these items taken and the entries from i on to come. */
  function Finished(items: seq<Scored>, ranked: seq<Scored>, i: nat, room: nat, counts: Counts,
                    strongOnly: bool): seq<Scored>
    requires i <= |ranked| && |items| <= room
  {
    items + PicksOf(ranked[i..], room - |items|, counts, strongOnly)
  }

  lemma FinishedSkip(items: seq<Scored>, ranked: seq<Scored>, i: nat, room: nat, counts: Counts, strongOnly: bool)
    requires i < |ranked| && |items| < room && Skipped(ranked[i], counts, strongOnly)
    ensures Finished(items, ranked, i + 1, room, counts, strongOnly)
            == Finished(items, ranked, i, room, counts, strongOnly)
  {
    assert ranked[i..][1..] == ranked[i + 1..];
  }

  lemma FinishedTake(items: seq<Scored>, ranked: seq<Scored>, i: nat, room: nat, counts: Counts, strongOnly: bool)
    requires i < |ranked| && |items| < room && !Skipped(ranked[i], counts, strongOnly)
    ensures Finished(items + [ranked[i]], ranked, i + 1, room, Bump(counts, ranked[i].family), strongOnly)
            == Finished(items, ranked, i, room, counts, strongOnly)
  {
    assert ranked[i..][1..] == ranked[i + 1..];
  }

  lemma FinishedFull(items: seq<Scored>, ranked: seq<Scored>, i: nat, room: nat, counts: Counts, strongOnly: bool)
    requires i <= |ranked| && |items| <= room && (i == |ranked| || |items| == room)
    ensures Finished(items, ranked, i, room, counts, strongOnly) == items
  {
  }

  /** The take loop itself; the behaviour-test selection also skips entries that are not strong. */
  method TakeCapped(ranked: seq<Scored>, room: nat, counts: Counts, strongOnly: bool) returns (items: seq<Scored>)
    ensures items == Picks(if strongOnly then Filter(IsStrong, ranked) else ranked, room, counts)
  {
    items := [];
    var familyCounts := counts;
    var i := 0;
    assert ranked[0..] == ranked;
    while i < |ranked|
      invariant 0 <= i <= |ranked| && |items| <= room
      invariant Finished(items, ranked, i, room, familyCounts, strongOnly) == PicksOf(ranked, room, counts, strongOnly)
    {
      if |items| >= room {
        break;
      }
      var candidate := ranked[i];
      if Skipped(candidate, familyCounts, strongOnly) {
        FinishedSkip(items, ranked, i, room, familyCounts, strongOnly);
      } else {
        FinishedTake(items, ranked, i, room, familyCounts, strongOnly);
      }
      i := i + 1;
      if strongOnly && !candidate.strong {
        continue;
      }
      if CountOf(familyCounts, candidate.family) >= MaxPerFamily {
        continue;
      }
      familyCounts := Bump(familyCounts, candidate.family);
      items := items + [candidate];
    }
    FinishedFull(items, ranked, i, room, familyCounts, strongOnly);
    PicksOfStrong(ranked, room, counts, strongOnly);
  }

  function FamilyCount(s: seq<Scored>, family: string): nat {
    if s == [] then 0 else (if s[0].family == family then 1 else 0) + FamilyCount(s[1..], family)
  }

  function Total(s: seq<Scored>): real {
    if s == [] then 0.0 else s[0].score + Total(s[1..])
  }

  /** A choice that may be added on top of the given family counts. */
  ghost predicate Feasible(choice: seq<Scored>, room: nat, counts: Counts) {
    && |choice| <= room
    && forall f :: FamilyCount(choice, f) > 0 ==> CountOf(counts, f) + FamilyCount(choice, f) <= MaxPerFamily
  }

  // ---------------------------------------------------------------- counting lemmas

  lemma {:induction false} FamilyCountAppend(a: seq<Scored>, b: seq<Scored>, f: string)
    ensures FamilyCount(a + b, f) == FamilyCount(a, f) + FamilyCount(b, f)
  {
    if a == [] {
      assert a + b == b;
    } else {
      FamilyCountAppend(a[1..], b, f);
      assert (a + b)[1..] == a[1..] + b;
    }
  }

  lemma FamilyCountRemove(s: seq<Scored>, i: nat, f: string)
    requires i < |s|
    ensures FamilyCount(s, f) == FamilyCount(s[..i] + s[i + 1..], f) + (if s[i].family == f then 1 else 0)
  {
    assert s == s[..i] + ([s[i]] + s[i + 1..]);
    FamilyCountAppend(s[..i], [s[i]] + s[i + 1..], f);
    assert ([s[i]] + s[i + 1..])[1..] == s[i + 1..];
    FamilyCountAppend(s[..i], s[i + 1..], f);
  }

  lemma {:induction false} FamilyCountPositive(s: seq<Scored>, f: string) returns (i: nat)
    requires FamilyCount(s, f) > 0
    ensures i < |s| && s[i].family == f
  {
    if s[0].family == f {
      i := 0;
    } else {
      i := FamilyCountPositive(s[1..], f);
      i := i + 1;
    }
  }

  lemma {:induction false} FamilyCountMonotone(a: seq<Scored>, b: seq<Scored>, f: string)
    requires multiset(a) <= multiset(b)
    ensures FamilyCount(a, f) <= FamilyCount(b, f)
  {
    if a != [] {
      assert a[0] in multiset(a);
      assert a[0] in multiset(b);
      var i :| 0 <= i < |b| && b[i] == a[0];
      RemoveAt(b, i);
      assert a == [a[0]] + a[1..];
      assert multiset(a[1..]) == multiset(a) - multiset{a[0]};
      FamilyCountMonotone(a[1..], b[..i] + b[i + 1..], f);
      FamilyCountRemove(b, i, f);
    }
  }

  /** A list with no more entries of any family than another is no longer than it. */
  lemma {:induction false} FamilyCountsBoundLength(a: seq<Scored>, b: seq<Scored>)
    requires forall f :: FamilyCount(a, f) <= FamilyCount(b, f)
    ensures |a| <= |b|
  {
    if a != [] {
      var f := a[0].family;
      assert FamilyCount(a, f) > 0;
      var i := FamilyCountPositive(b, f);
      var rest := b[..i] + b[i + 1..];
      forall g ensures FamilyCount(a[1..], g) <= FamilyCount(rest, g) {
        FamilyCountRemove(b, i, g);
      }
      FamilyCountsBoundLength(a[1..], rest);
    }
  }

  // ---------------------------------------------------------------- what the greedy choice is

  lemma {:induction false} PicksAreCandidates(ranked: seq<Scored>, room: nat, counts: Counts)
    ensures multiset(Picks(ranked, room, counts)) <= multiset(ranked)
  {
    if ranked == [] || room == 0 {
    } else {
      assert ranked == [ranked[0]] + ranked[1..];
      if CountOf(counts, ranked[0].family) >= MaxPerFamily {
        PicksAreCandidates(ranked[1..], room, counts);
      } else {
        PicksAreCandidates(ranked[1..], room - 1, Bump(counts, ranked[0].family));
      }
    }
  }

  lemma FeasibleCons(head: Scored, rest: seq<Scored>, room: nat, counts: Counts)
    requires room > 0 && CountOf(counts, head.family) < MaxPerFamily
    requires Feasible(rest, room - 1, Bump(counts, head.family))
    ensures Feasible([head] + rest, room, counts)
  {
    var all := [head] + rest;
    assert all[1..] == rest;
    var counts' := Bump(counts, head.family);
    forall f | FamilyCount(all, f) > 0
      ensures CountOf(counts, f) + FamilyCount(all, f) <= MaxPerFamily
    {
      if FamilyCount(rest, f) > 0 {
        assert CountOf(counts', f) + FamilyCount(rest, f) <= MaxPerFamily;
      }
    }
  }

  lemma {:induction false} PicksWithinBudget(ranked: seq<Scored>, room: nat, counts: Counts)
    ensures Feasible(Picks(ranked, room, counts), room, counts)
  {
    if ranked == [] || room == 0 {
    } else if CountOf(counts, ranked[0].family) >= MaxPerFamily {
      PicksWithinBudget(ranked[1..], room, counts);
    } else {
      PicksWithinBudget(ranked[1..], room - 1, Bump(counts, ranked[0].family));
      FeasibleCons(ranked[0], Picks(ranked[1..], room - 1, Bump(counts, ranked[0].family)), room, counts);
    }
  }

  /** The picks are candidates, each used at most once, and respect the limit and the family budgets. */
  lemma PicksFeasible(ranked: seq<Scored>, room: nat, counts: Counts)
    ensures multiset(Picks(ranked, room, counts)) <= multiset(ranked)
    ensures Feasible(Picks(ranked, room, counts), room, counts)
  {
    PicksAreCandidates(ranked, room, counts);
    PicksWithinBudget(ranked, room, counts);
  }

  lemma {:induction false} PicksPrefix(a: seq<Scored>, b: seq<Scored>, room: nat, counts: Counts)
    ensures Picks(a, room, counts) <= Picks(a + b, room, counts)
  {
    if a == [] || room == 0 {
    } else {
      assert (a + b)[1..] == a[1..] + b;
      if CountOf(counts, a[0].family) >= MaxPerFamily {
        PicksPrefix(a[1..], b, room, counts);
      } else {
        PicksPrefix(a[1..], b, room - 1, Bump(counts, a[0].family));
      }
    }
  }

  /** With room to spare, every family is used up: all its candidates are in, or its budget is spent. */
  lemma {:induction false} PicksSaturate(ranked: seq<Scored>, room: nat, counts: Counts, f: string)
    requires |Picks(ranked, room, counts)| < room
    ensures var p := Picks(ranked, room, counts);
            FamilyCount(p, f) == FamilyCount(ranked, f) || CountOf(counts, f) + FamilyCount(p, f) >= MaxPerFamily
  {
    if ranked == [] {
    } else if CountOf(counts, ranked[0].family) >= MaxPerFamily {
      PicksSaturate(ranked[1..], room, counts, f);
    } else {
      var counts' := Bump(counts, ranked[0].family);
      var rest := Picks(ranked[1..], room - 1, counts');
      PicksSaturate(ranked[1..], room - 1, counts', f);
      assert ([ranked[0]] + rest)[1..] == rest;
    }
  }

  /** No feasible choice is larger than the greedy one. */
  lemma PicksLargest(ranked: seq<Scored>, room: nat, counts: Counts, choice: seq<Scored>)
    requires multiset(choice) <= multiset(ranked)
    requires Feasible(choice, room, counts)
    ensures |choice| <= |Picks(ranked, room, counts)|
  {
    var p := Picks(ranked, room, counts);
    if |p| < room {
      forall f ensures FamilyCount(choice, f) <= FamilyCount(p, f) {
        PicksSaturate(ranked, room, counts, f);
        FamilyCountMonotone(choice, ranked, f);
      }
      FamilyCountsBoundLength(choice, p);
    }
  }

  // ---------------------------------------------------------------- optimality

  ghost predicate Descending(s: seq<Scored>) {
    forall i, j :: 0 <= i < j < |s| ==> s[i].score >= s[j].score
  }

  lemma RankLeTotal()
    ensures TotalPreorder(RankLe)
  {
    forall a: Scored, b: Scored ensures RankLe(a, b) || RankLe(b, a) {
      LexTotal(a.path, b.path);
    }
    forall a: Scored, b: Scored, c: Scored | RankLe(a, b) && RankLe(b, c) ensures RankLe(a, c) {
      if a.score == b.score == c.score {
        LexTransitive(a.path, b.path, c.path);
      }
    }
  }

  lemma RankedDescends(s: seq<Scored>)
    ensures Descending(Sort(RankLe, s)) && multiset(Sort(RankLe, s)) == multiset(s) && |Sort(RankLe, s)| == |s|
  {
    RankLeTotal();
    SortSorts(RankLe, s);
    SortPermutes(RankLe, s);
  }

  /** How many leading entries of a ranking reach a score. */
  function Reaching(ranked: seq<Scored>, score: real): (n: nat)
    ensures n <= |ranked|
    ensures forall i :: 0 <= i < n ==> ranked[i].score >= score
    ensures n < |ranked| ==> ranked[n].score < score
  {
    if ranked == [] || ranked[0].score < score then 0 else 1 + Reaching(ranked[1..], score)
  }

  lemma FeasibleShrinks(big: seq<Scored>, small: seq<Scored>, room: nat, counts: Counts)
    requires Feasible(big, room, counts) && multiset(small) <= multiset(big) && |small| <= |big|
    ensures Feasible(small, room, counts)
  {
    forall f | FamilyCount(small, f) > 0
      ensures CountOf(counts, f) + FamilyCount(small, f) <= MaxPerFamily
    {
      FamilyCountMonotone(small, big, f);
    }
  }

  lemma TopWithinReaching(ranked: seq<Scored>, top: seq<Scored>, score: real)
    requires Descending(ranked) && multiset(top) <= multiset(ranked)
    requires forall x :: x in top ==> x.score >= score
    ensures multiset(top) <= multiset(ranked[..Reaching(ranked, score)])
  {
    var m := Reaching(ranked, score);
    assert ranked == ranked[..m] + ranked[m..];
    assert multiset(ranked) == multiset(ranked[..m]) + multiset(ranked[m..]);
    forall x | x in multiset(top) ensures x !in multiset(ranked[m..]) {
      assert x in top;
    }
    PartOfSum(multiset(top), multiset(ranked[..m]), multiset(ranked[m..]));
  }

  lemma PartOfSum(m: multiset<Scored>, a: multiset<Scored>, b: multiset<Scored>)
    requires m <= a + b && forall x :: x in m ==> x !in b
    ensures m <= a
  {
    forall x | x in m ensures m[x] <= a[x] {
      assert b[x] == 0;
    }
  }

  lemma PrefixIsPart(s: seq<Scored>, k: nat)
    requires k <= |s|
    ensures multiset(s[..k]) <= multiset(s)
  {
    assert s == s[..k] + s[k..];
  }

  /** The exchange step: the first k+1 entries of a feasible ranking all reach its k-th score, so the
      greedy choice over the candidates reaching that score has at least k+1 entries. */
  lemma BestAt(ranked: seq<Scored>, best: seq<Scored>, room: nat, counts: Counts, k: nat)
    requires Descending(ranked) && Descending(best)
    requires multiset(best) <= multiset(ranked) && Feasible(best, room, counts)
    requires k < |best|
    ensures var picks := Picks(ranked, room, counts); k < |picks| && best[k].score <= picks[k].score
  {
    var top, score := best[..k + 1], best[k].score;
    PrefixIsPart(best, k + 1);
    FeasibleShrinks(best, top, room, counts);
    TopWithinReaching(ranked, top, score);
    var m := Reaching(ranked, score);
    var p := Picks(ranked[..m], room, counts);
    PicksLargest(ranked[..m], room, counts, top);
    assert ranked == ranked[..m] + ranked[m..];
    PicksPrefix(ranked[..m], ranked[m..], room, counts);
    PicksAreCandidates(ranked[..m], room, counts);
    assert p[k] in multiset(p);
    assert p[k] in ranked[..m];
  }

  ghost predicate Dominates(picks: seq<Scored>, best: seq<Scored>) {
    && |best| <= |picks|
    && forall k :: 0 <= k < |best| ==> best[k].score <= picks[k].score
  }

  lemma RankingDominates(ranked: seq<Scored>, best: seq<Scored>, room: nat, counts: Counts)
    requires Descending(ranked) && Descending(best)
    requires multiset(best) <= multiset(ranked) && Feasible(best, room, counts)
    ensures Dominates(Picks(ranked, room, counts), best)
  {
    forall k | 0 <= k < |best|
      ensures k < |Picks(ranked, room, counts)| && best[k].score <= Picks(ranked, room, counts)[k].score
    {
      BestAt(ranked, best, room, counts, k);
    }
    if best != [] {
      BestAt(ranked, best, room, counts, |best| - 1);
    }
  }

  /** The k-th best score of the greedy choice is at least the k-th best score of any feasible choice,
      for every k: the matroid form of optimality. */
  lemma GreedyDominates(eligible: seq<Scored>, choice: seq<Scored>, room: nat, counts: Counts)
    requires multiset(choice) <= multiset(eligible) && Feasible(choice, room, counts)
    ensures |Sort(RankLe, choice)| == |choice|
    ensures Dominates(Take(eligible, room, counts), Sort(RankLe, choice))
  {
    RankedDescends(eligible);
    RankedDescends(choice);
    FeasibleShrinks(choice, Sort(RankLe, choice), room, counts);
    RankingDominates(Sort(RankLe, eligible), Sort(RankLe, choice), room, counts);
  }

  lemma {:induction false} TotalInsert(x: Scored, s: seq<Scored>)
    ensures Total(Insert(RankLe, x, s)) == x.score + Total(s)
  {
    if s == [] || RankLe(x, s[0]) {
      assert ([x] + s)[1..] == s;
    } else {
      TotalInsert(x, s[1..]);
      assert ([s[0]] + Insert(RankLe, x, s[1..]))[1..] == Insert(RankLe, x, s[1..]);
    }
  }

  lemma {:induction false} TotalSort(s: seq<Scored>)
    ensures Total(Sort(RankLe, s)) == Total(s)
  {
    if s != [] {
      TotalSort(s[1..]);
      TotalInsert(s[0], Sort(RankLe, s[1..]));
    }
  }

  lemma {:induction false} TotalPointwise(a: seq<Scored>, b: seq<Scored>)
    requires |a| <= |b|
    requires forall k :: 0 <= k < |a| ==> a[k].score <= b[k].score
    requires forall k :: |a| <= k < |b| ==> b[k].score >= 0.0
    ensures Total(a) <= Total(b)
  {
    if b == [] {
    } else if a == [] {
      TotalPointwise([], b[1..]);
    } else {
      TotalPointwise(a[1..], b[1..]);
    }
  }

  /** What is taken is a feasible part of what was eligible. */
  lemma TakeFeasible(eligible: seq<Scored>, room: nat, counts: Counts)
    ensures multiset(Take(eligible, room, counts)) <= multiset(eligible)
    ensures Feasible(Take(eligible, room, counts), room, counts)
    ensures forall e :: e in Take(eligible, room, counts) ==> e in eligible
  {
    SortPermutes(RankLe, eligible);
    PicksFeasible(Sort(RankLe, eligible), room, counts);
    forall e | e in Take(eligible, room, counts) ensures e in eligible {
      assert e in multiset(Take(eligible, room, counts));
    }
  }

  /** Among all feasible choices of the eligible entries the greedy one has the greatest total score. */
  lemma GreedyOptimal(eligible: seq<Scored>, choice: seq<Scored>, room: nat, counts: Counts)
    requires multiset(choice) <= multiset(eligible) && Feasible(choice, room, counts)
    requires forall e :: e in eligible ==> e.score >= 0.0
    ensures Total(choice) <= Total(Take(eligible, room, counts))
  {
    GreedyDominates(eligible, choice, room, counts);
    TakeFeasible(eligible, room, counts);
    TotalPointwise(Sort(RankLe, choice), Take(eligible, room, counts));
    TotalSort(choice);
  }
}
