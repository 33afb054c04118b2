/** What the pack versions bring in, best first. */
module PackLaws {
  // V0 takes the best manifest candidates that qualify; V1 and V2 add all that the scouts selected
  // (find_source_manifest_consumption.go, find_source_manifest_recovery.go).

  import opened Sorting
  import opened Paths
  import opened PackChain
  import opened PackMerge

  // ---------------------------------------------------------------- pools in order

  lemma RankedLeTotal()
    ensures TotalPreorder(RankedLe)
  {
    forall a, b ensures RankedLe(a, b) || RankedLe(b, a) {
      LexTotal(a.candidate.path, b.candidate.path);
    }
    forall a, b, c | RankedLe(a, b) && RankedLe(b, c) ensures RankedLe(a, c) {
      if a.score == b.score == c.score {
        LexTransitive(a.candidate.path, b.candidate.path, c.candidate.path);
      }
    }
  }

  /** The pool, best first. */
  function Best(pool: seq<Ranked>): seq<Ranked> {
    Sort(RankedLe, pool)
  }

  lemma BestFalls(pool: seq<Ranked>)
    ensures forall i, j :: 0 <= i < j < |Best(pool)| ==> Best(pool)[i].score >= Best(pool)[j].score
    ensures forall r :: r in Best(pool) <==> r in pool
  {
    RankedLeTotal();
    SortSorts(RankedLe, pool);
    SortPermutes(RankedLe, pool);
    forall i, j | 0 <= i < j < |Best(pool)| ensures Best(pool)[i].score >= Best(pool)[j].score {
      assert RankedLe(Best(pool)[i], Best(pool)[j]);
    }
    forall r ensures r in Best(pool) <==> r in pool {
      assert r in multiset(Best(pool)) <==> r in multiset(pool);
    }
  }

  lemma {:induction false} PoolHas(all: seq<Candidate>, seen: set<string>, score: Candidate -> int, tests: bool,
                                   bonus: int, c: Candidate)
    requires c in all && IsManifest(c) && IsTest(c) == tests && ConsumptionPath(c) !in seen && !WeakNoise(c)
    requires score(c) > 0
    ensures Ranked(c, score(c) + bonus) in Pool(all, seen, score, tests, bonus)
  {
    var n := |all| - 1;
    if all[n] != c {
      assert c in all[..n];
      PoolHas(all[..n], seen, score, tests, bonus, c);
    }
  }

  // ---------------------------------------------------------------- V0: replacements

  /** The noise slots that gave way, from the front, to the first of the pool in turn. */
  ghost predicate Taken(before: seq<Candidate>, after: seq<Candidate>, i: nat, pool: seq<Ranked>, at: seq<nat>) {
    && |after| == |before| && |at| <= |pool|
    && (forall j :: 0 <= j < |at| ==>
          i <= at[j] < |before| && WeakNoise(before[at[j]]) && pool[j].score >= 10
          && after[at[j]] == AsReplacement(pool[j].candidate))
    && (forall j, k :: 0 <= j < k < |at| ==> at[j] < at[k])
    && (forall m :: 0 <= m < |before| && m !in at ==> after[m] == before[m])
    && (|at| == |pool| || pool[|at|].score < 10 || forall m :: i <= m < |before| && WeakNoise(before[m]) ==> m in at)
  }

  lemma TakeFirst(slots: seq<Candidate>, i: nat, pool: seq<Ranked>, after: seq<Candidate>, at: seq<nat>)
    requires i < |slots| && pool != [] && pool[0].score >= 10 && WeakNoise(slots[i])
    requires Taken(slots[i := AsReplacement(pool[0].candidate)], after, i + 1, pool[1..], at)
    ensures Taken(slots, after, i, pool, [i] + at)
  {
    var at', slots' := [i] + at, slots[i := AsReplacement(pool[0].candidate)];
    assert i !in at && forall m :: m in at' <==> m == i || m in at;
    assert after[i] == slots'[i];
    forall j | 0 <= j < |at'|
      ensures i <= at'[j] < |slots| && WeakNoise(slots[at'[j]]) && pool[j].score >= 10
              && after[at'[j]] == AsReplacement(pool[j].candidate)
    {
      if j > 0 {
        assert at'[j] == at[j - 1] && pool[j] == pool[1..][j - 1] && slots'[at[j - 1]] == slots[at[j - 1]];
      }
    }
    assert |at| < |pool[1..]| ==> pool[|at'|] == pool[1..][|at|];
  }

  lemma {:induction false} ReplaceTakes(slots: seq<Candidate>, i: nat, pool: seq<Ranked>) returns (at: seq<nat>)
    ensures Taken(slots, ReplaceNoise(slots, i, pool), i, pool, at)
    decreases |slots| - i
  {
    at := [];
    if i >= |slots| || pool == [] {
    } else if !WeakNoise(slots[i]) {
      at := ReplaceTakes(slots, i + 1, pool);
    } else if pool[0].score >= 10 {
      at := ReplaceTakes(slots[i := AsReplacement(pool[0].candidate)], i + 1, pool[1..]);
      TakeFirst(slots, i, pool, ReplaceNoise(slots, i, pool), at);
      at := [i] + at;
    }
  }

  /** A manifest candidate that is no test and no noise, with a path no match has and a score of at least 10. */
  ghost predicate Replaces(c: Candidate, matches: seq<Candidate>, all: seq<Candidate>, score: Candidate -> int) {
    && c in all && IsManifest(c) && !IsTest(c) && !WeakNoise(c) && score(c) >= 10
    && forall m :: m in matches ==> ConsumptionPath(m) != ConsumptionPath(c)
  }

  lemma ReplacesIsPooled(c: Candidate, matches: seq<Candidate>, all: seq<Candidate>, score: Candidate -> int)
    requires Replaces(c, matches, all, score)
    ensures Ranked(c, score(c)) in Best(Pool(all, PathsOf(matches), score, false, 0))
  {
    PoolHas(all, PathsOf(matches), score, false, 0, c);
    BestFalls(Pool(all, PathsOf(matches), score, false, 0));
  }

  /** A replacement outlives the reservation of tests. */
  lemma ReplacementStays(matches: seq<Candidate>, all: seq<Candidate>, score: Candidate -> int, i: nat)
    requires all != [] && i < |matches| && !WeakNoise(ReplacedSlots(matches, all, score)[i])
    ensures i < |Consume(matches, all, score, true)|
    ensures Consume(matches, all, score, true)[i] == ReplacedSlots(matches, all, score)[i]
  {
    var slots := ReplacedSlots(matches, all, score);
    SortedPoolEntries(all, TakenPaths(matches, all, score), score, true, 4);
    ReserveGivesWay(slots, Best(Pool(all, TakenPaths(matches, all, score), score, true, 4)), 0);
  }

  /** Where V0 put its replacements. */
  ghost predicate Placing(matches: seq<Candidate>, all: seq<Candidate>, score: Candidate -> int, pool: seq<Ranked>,
                          at: seq<nat>)
  {
    && pool == Best(Pool(all, PathsOf(matches), score, false, 0))
    && Taken(matches, ReplacedSlots(matches, all, score), 0, pool, at)
  }

  lemma PlacedStays(matches: seq<Candidate>, all: seq<Candidate>, score: Candidate -> int, pool: seq<Ranked>,
                    at: seq<nat>, j: nat)
    requires all != [] && Placing(matches, all, score, pool, at) && j < |at|
    ensures at[j] < |Consume(matches, all, score, true)|
    ensures Consume(matches, all, score, true)[at[j]] == AsReplacement(pool[j].candidate)
  {
    SortedPoolEntries(all, PathsOf(matches), score, false, 0);
    assert pool[j] in pool && !WeakNoise(pool[j].candidate);
    assert !WeakNoise(AsReplacement(pool[j].candidate));
    ReplacementStays(matches, all, score, at[j]);
  }

  /** Every candidate that qualifies replaces a noise match in V0, or no noise match is left for it. */
  lemma ReplacementsListed(matches: seq<Candidate>, all: seq<Candidate>, score: Candidate -> int, c: Candidate)
    requires Replaces(c, matches, all, score)
    ensures var v0 := Consume(matches, all, score, true);
            || (exists i :: 0 <= i < |matches| && i < |v0| && WeakNoise(matches[i]) && v0[i] == AsReplacement(c))
            || (forall i :: 0 <= i < |matches| && WeakNoise(matches[i]) ==> i < |v0| && !WeakNoise(v0[i]))
  {
    if matches != [] {
      var pool := Best(Pool(all, PathsOf(matches), score, false, 0));
      var at := ReplaceTakes(matches, 0, pool);
      assert Placing(matches, all, score, pool, at);
      ReplacesIsPooled(c, matches, all, score);
      var m :| 0 <= m < |pool| && pool[m] == Ranked(c, score(c));
      if m < |at| {
        PlacedStays(matches, all, score, pool, at, m);
        assert WeakNoise(matches[at[m]]);
      } else {
        LaterIsNoBetter(Pool(all, PathsOf(matches), score, false, 0), |at|, m);
        NoNoiseStays(matches, all, score, pool, at);
      }
    }
  }

  lemma LaterIsNoBetter(pool: seq<Ranked>, j: nat, m: nat)
    requires j <= m < |Best(pool)|
    ensures Best(pool)[j].score >= Best(pool)[m].score
  {
    BestFalls(pool);
  }

  lemma NoNoiseStays(matches: seq<Candidate>, all: seq<Candidate>, score: Candidate -> int, pool: seq<Ranked>,
                     at: seq<nat>)
    requires all != [] && Placing(matches, all, score, pool, at) && |at| < |pool| && pool[|at|].score >= 10
    ensures forall i :: 0 <= i < |matches| && WeakNoise(matches[i]) ==>
              i < |Consume(matches, all, score, true)| && !WeakNoise(Consume(matches, all, score, true)[i])
  {
    forall i | 0 <= i < |matches| && WeakNoise(matches[i])
      ensures i < |Consume(matches, all, score, true)| && !WeakNoise(Consume(matches, all, score, true)[i])
    {
      AllGaveWay(matches, all, score, pool, at, i);
    }
  }

  lemma AllGaveWay(matches: seq<Candidate>, all: seq<Candidate>, score: Candidate -> int, pool: seq<Ranked>,
                   at: seq<nat>, i: nat)
    requires all != [] && Placing(matches, all, score, pool, at) && i in at
    ensures i < |Consume(matches, all, score, true)| && !WeakNoise(Consume(matches, all, score, true)[i])
  {
    var j :| 0 <= j < |at| && at[j] == i;
    PlacedStays(matches, all, score, pool, at, j);
    SortedPoolEntries(all, PathsOf(matches), score, false, 0);
    assert pool[j] in pool && !WeakNoise(pool[j].candidate);
    assert !WeakNoise(AsReplacement(pool[j].candidate));
  }

  lemma PooledReplaces(matches: seq<Candidate>, all: seq<Candidate>, score: Candidate -> int, pool: seq<Ranked>,
                       at: seq<nat>, j: nat)
    requires Placing(matches, all, score, pool, at) && j < |at|
    ensures Replaces(pool[j].candidate, matches, all, score) && pool[j].score == score(pool[j].candidate)
  {
    SortedPoolEntries(all, PathsOf(matches), score, false, 0);
    assert pool[j] in pool;
    forall m | m in matches ensures ConsumptionPath(m) != ConsumptionPath(pool[j].candidate) {
      assert ConsumptionPath(m) in PathsOf(matches);
    }
  }

  lemma BetterIsBefore(pool: seq<Ranked>, j: nat, d: Ranked) returns (m: nat)
    requires j < |Best(pool)| && d in Best(pool) && Better(d, Best(pool)[j])
    ensures m < j && Best(pool)[m] == d
  {
    RankedLeTotal();
    SortSorts(RankedLe, pool);
    m :| 0 <= m < |Best(pool)| && Best(pool)[m] == d;
    LexTotal(d.candidate.path, d.candidate.path);
    assert m > j ==> RankedLe(Best(pool)[j], Best(pool)[m]);
  }

  /** Higher in score, or as high and before by path. */
  predicate Better(a: Ranked, b: Ranked) {
    a.score > b.score || (a.score == b.score && !LexLe(b.candidate.path, a.candidate.path))
  }

  /** The best go first: a match that was replaced gave way to a candidate that qualifies, and every better one
      that qualifies replaced a match before it. */
  lemma BestReplaceFirst(matches: seq<Candidate>, all: seq<Candidate>, score: Candidate -> int, i: nat)
    returns (c: Candidate)
    requires matches != [] && all != [] && i < |matches| && ReplacedSlots(matches, all, score)[i] != matches[i]
    ensures Replaces(c, matches, all, score) && i < |Consume(matches, all, score, true)|
    ensures Consume(matches, all, score, true)[i] == AsReplacement(c)
    ensures forall d :: Replaces(d, matches, all, score) && Better(Ranked(d, score(d)), Ranked(c, score(c))) ==>
              exists k :: 0 <= k < i && Consume(matches, all, score, true)[k] == AsReplacement(d)
  {
    var pool := Best(Pool(all, PathsOf(matches), score, false, 0));
    var at := ReplaceTakes(matches, 0, pool);
    assert Placing(matches, all, score, pool, at) && i in at;
    var j :| 0 <= j < |at| && at[j] == i;
    PlacedStays(matches, all, score, pool, at, j);
    PooledReplaces(matches, all, score, pool, at, j);
    c := pool[j].candidate;
    forall d | Replaces(d, matches, all, score) && Better(Ranked(d, score(d)), Ranked(c, score(c)))
      ensures exists k :: 0 <= k < i && Consume(matches, all, score, true)[k] == AsReplacement(d)
    {
      BetterReplacedBefore(matches, all, score, pool, at, j, d);
    }
  }

  lemma BetterReplacedBefore(matches: seq<Candidate>, all: seq<Candidate>, score: Candidate -> int, pool: seq<Ranked>,
                             at: seq<nat>, j: nat, d: Candidate)
    requires all != [] && Placing(matches, all, score, pool, at) && j < |at|
    requires Replaces(d, matches, all, score) && Better(Ranked(d, score(d)), pool[j])
    ensures exists k :: 0 <= k < at[j] && k < |Consume(matches, all, score, true)|
                        && Consume(matches, all, score, true)[k] == AsReplacement(d)
  {
    ReplacesIsPooled(d, matches, all, score);
    var m := BetterIsBefore(Pool(all, PathsOf(matches), score, false, 0), j, Ranked(d, score(d)));
    PlacedStays(matches, all, score, pool, at, m);
    assert at[m] < at[j];
  }

  // ---------------------------------------------------------------- V0: reserved tests

  lemma {:induction false} ReserveStuck(slots: seq<Candidate>, pool: seq<Ranked>, reserved: nat)
    requires !CanReserve(slots)
    ensures Reserve(slots, pool, reserved) == slots
    decreases |pool|
  {
    if pool != [] && pool[0].score >= 10 && reserved < MaxReserved {
      ReserveStuck(slots, pool[1..], reserved);
    }
  }

  lemma {:induction false} NoNoiseLeft(slots: seq<Candidate>)
    requires LastOf(WeakNoise, slots) == |slots|
    ensures forall i :: 0 <= i < |slots| ==> !WeakNoise(slots[i])
  {
    if slots != [] {
      NoNoiseLeft(slots[..|slots| - 1]);
    }
  }

  /** The first of the pool in turn, each of them reserved. */
  ghost predicate Reserved(before: seq<Candidate>, after: seq<Candidate>, pool: seq<Ranked>, room: nat, k: nat) {
    && k <= |pool| && k <= room
    && (forall j :: 0 <= j < k ==> pool[j].score >= 10 && AsReservation(pool[j].candidate) in after)
    && (forall c :: c in after ==> c in before || exists j :: 0 <= j < k && c == AsReservation(pool[j].candidate))
    && (k == |pool| || pool[k].score < 10 || k == room
        || (|after| >= 8 && forall i :: 0 <= i < |after| ==> !WeakNoise(after[i])))
  }

  lemma ReservedStays(slots: seq<Candidate>, pool: seq<Ranked>, reserved: nat, c: Candidate)
    requires forall r :: r in pool ==> !WeakNoise(r.candidate)
    requires c in slots && !WeakNoise(c)
    ensures c in Reserve(slots, pool, reserved)
  {
    ReserveGivesWay(slots, pool, reserved);
    var i :| 0 <= i < |slots| && slots[i] == c;
    assert Reserve(slots, pool, reserved)[i] == c;
  }

  lemma ReserveOneHas(slots: seq<Candidate>, c: Candidate)
    requires CanReserve(slots)
    ensures AsReservation(c) in ReserveOne(slots, c)
    ensures forall d :: d in ReserveOne(slots, c) ==> d in slots || d == AsReservation(c)
  {
    var after := ReserveOne(slots, c);
    assert after[if |slots| >= MaxVisible then LastNoise(slots) else |slots|] == AsReservation(c);
  }

  lemma ReserveFirst(slots: seq<Candidate>, pool: seq<Ranked>, after: seq<Candidate>, room: nat, k: nat)
    requires pool != [] && pool[0].score >= 10 && CanReserve(slots) && AsReservation(pool[0].candidate) in after
    requires room > 0 && Reserved(ReserveOne(slots, pool[0].candidate), after, pool[1..], room - 1, k)
    ensures Reserved(slots, after, pool, room, k + 1)
  {
    ReserveOneHas(slots, pool[0].candidate);
    forall j | 0 <= j < k + 1 ensures pool[j].score >= 10 && AsReservation(pool[j].candidate) in after {
      if j > 0 {
        assert pool[j] == pool[1..][j - 1];
      }
    }
    forall c | c in after && c !in slots ensures exists j :: 0 <= j < k + 1 && c == AsReservation(pool[j].candidate) {
      if c != AsReservation(pool[0].candidate) {
        var j :| 0 <= j < k && c == AsReservation(pool[1..][j].candidate);
        assert pool[j + 1] == pool[1..][j];
      }
    }
    assert k < |pool[1..]| ==> pool[k + 1] == pool[1..][k];
  }

  lemma ReservedAtOnce(slots: seq<Candidate>, pool: seq<Ranked>, reserved: nat)
    requires forall r :: r in pool ==> IsTest(r.candidate)
    requires pool != [] && pool[0].score >= 10 && reserved < 2 && CanReserve(slots)
    ensures AsReservation(pool[0].candidate) in Reserve(slots, pool, reserved)
  {
    assert pool[0] in pool && IsTest(AsReservation(pool[0].candidate));
    ReserveOneHas(slots, pool[0].candidate);
    ReservedStays(ReserveOne(slots, pool[0].candidate), pool[1..], reserved + 1, AsReservation(pool[0].candidate));
  }

  lemma {:induction false} ReserveTakes(slots: seq<Candidate>, pool: seq<Ranked>, reserved: nat) returns (k: nat)
    requires reserved <= 2 && forall r :: r in pool ==> IsTest(r.candidate)
    ensures Reserved(slots, Reserve(slots, pool, reserved), pool, 2 - reserved, k)
    decreases |pool|
  {
    k := 0;
    if pool == [] || pool[0].score < 10 || reserved >= 2 {
    } else if !CanReserve(slots) {
      ReserveStuck(slots, pool, reserved);
      NoNoiseLeft(slots);
    } else {
      k := ReserveTakes(ReserveOne(slots, pool[0].candidate), pool[1..], reserved + 1);
      ReservedAtOnce(slots, pool, reserved);
      ReserveFirst(slots, pool, Reserve(slots, pool, reserved), 2 - reserved, k);
      k := k + 1;
    }
  }

  /** A manifest test with a score of at least 6, whose path neither a match nor a replacement has. */
  ghost predicate Reserves(c: Candidate, matches: seq<Candidate>, all: seq<Candidate>, score: Candidate -> int) {
    && c in all && IsManifest(c) && IsTest(c) && score(c) >= 6
    && (forall m :: m in matches ==> ConsumptionPath(m) != ConsumptionPath(c))
    && (forall m :: m in ReplacedSlots(matches, all, score) ==> ConsumptionPath(m) != ConsumptionPath(c))
  }

  lemma ReservesIsPooled(c: Candidate, matches: seq<Candidate>, all: seq<Candidate>, score: Candidate -> int)
    requires c in all && score(c) >= 6
    ensures Reserves(c, matches, all, score)
       <==> Ranked(c, score(c) + 4) in Best(Pool(all, TakenPaths(matches, all, score), score, true, 4))
  {
    var seen := TakenPaths(matches, all, score);
    BestFalls(Pool(all, seen, score, true, 4));
    SortedPoolEntries(all, seen, score, true, 4);
    if Reserves(c, matches, all, score) {
      PoolHas(all, seen, score, true, 4, c);
    }
    if Ranked(c, score(c) + 4) in Best(Pool(all, seen, score, true, 4)) {
      forall m | m in matches ensures ConsumptionPath(m) in seen {}
      forall m | m in ReplacedSlots(matches, all, score) ensures ConsumptionPath(m) in seen {}
    }
  }

  /** Where V0 took its tests from. */
  ghost predicate Reserving(matches: seq<Candidate>, all: seq<Candidate>, score: Candidate -> int, pool: seq<Ranked>,
                            k: nat)
  {
    && pool == Best(Pool(all, TakenPaths(matches, all, score), score, true, 4))
    && Reserved(ReplacedSlots(matches, all, score), Consume(matches, all, score, true), pool, 2, k)
  }

  lemma ReservesSome(matches: seq<Candidate>, all: seq<Candidate>, score: Candidate -> int)
    returns (pool: seq<Ranked>, k: nat)
    requires matches != [] && all != []
    ensures Reserving(matches, all, score, pool, k)
  {
    pool := Best(Pool(all, TakenPaths(matches, all, score), score, true, 4));
    SortedPoolEntries(all, TakenPaths(matches, all, score), score, true, 4);
    k := ReserveTakes(ReplacedSlots(matches, all, score), pool, 0);
  }

  lemma PooledReserves(matches: seq<Candidate>, all: seq<Candidate>, score: Candidate -> int, pool: seq<Ranked>,
                       k: nat, j: nat)
    requires Reserving(matches, all, score, pool, k) && j < k
    ensures Reserves(pool[j].candidate, matches, all, score)
  {
    SortedPoolEntries(all, TakenPaths(matches, all, score), score, true, 4);
    assert pool[j] in pool;
    ReservesIsPooled(pool[j].candidate, matches, all, score);
  }

  function Firsts(pool: seq<Ranked>, k: nat): (r: seq<Candidate>)
    requires k <= |pool|
    ensures |r| == k && forall j :: 0 <= j < k ==> r[j] == pool[j].candidate
  {
    if k == 0 then [] else Firsts(pool, k - 1) + [pool[k - 1].candidate]
  }

  /** At most two tests are reserved, the best of those that qualify; fewer only when no more qualify, or eight
      slots hold no noise. Nothing else is added to the replaced matches. */
  lemma TestsReserved(matches: seq<Candidate>, all: seq<Candidate>, score: Candidate -> int)
    returns (tests: seq<Candidate>)
    requires matches != [] && all != []
    ensures |tests| <= 2
    ensures forall t :: t in tests ==>
              Reserves(t, matches, all, score) && AsReservation(t) in Consume(matches, all, score, true)
    ensures forall c :: c in Consume(matches, all, score, true) ==>
              c in ReplacedSlots(matches, all, score) || exists t :: t in tests && c == AsReservation(t)
    ensures forall d :: Reserves(d, matches, all, score) && d !in tests ==>
              || (|tests| == 2 && forall t :: t in tests ==> score(t) >= score(d))
              || (|Consume(matches, all, score, true)| >= 8
                  && forall c :: c in Consume(matches, all, score, true) ==> !WeakNoise(c))
  {
    var pool, k := ReservesSome(matches, all, score);
    tests := Firsts(pool, k);
    ReservedQualify(matches, all, score, pool, k);
    OnlyReserved(matches, all, score, pool, k);
    forall d | Reserves(d, matches, all, score) && d !in tests
      ensures || (|tests| == 2 && forall t :: t in tests ==> score(t) >= score(d))
              || (|Consume(matches, all, score, true)| >= 8
                  && forall c :: c in Consume(matches, all, score, true) ==> !WeakNoise(c))
    {
      PassedOver(matches, all, score, pool, k, d);
    }
  }

  lemma ReservedQualify(matches: seq<Candidate>, all: seq<Candidate>, score: Candidate -> int, pool: seq<Ranked>,
                        k: nat)
    requires Reserving(matches, all, score, pool, k)
    ensures forall t :: t in Firsts(pool, k) ==>
              Reserves(t, matches, all, score) && AsReservation(t) in Consume(matches, all, score, true)
  {
    forall t | t in Firsts(pool, k)
      ensures Reserves(t, matches, all, score) && AsReservation(t) in Consume(matches, all, score, true)
    {
      var j :| 0 <= j < k && Firsts(pool, k)[j] == t;
      PooledReserves(matches, all, score, pool, k, j);
    }
  }

  lemma OnlyReserved(matches: seq<Candidate>, all: seq<Candidate>, score: Candidate -> int, pool: seq<Ranked>, k: nat)
    requires Reserving(matches, all, score, pool, k)
    ensures forall c :: c in Consume(matches, all, score, true) ==>
              c in ReplacedSlots(matches, all, score) || exists t :: t in Firsts(pool, k) && c == AsReservation(t)
  {
    forall c | c in Consume(matches, all, score, true) && c !in ReplacedSlots(matches, all, score)
      ensures exists t :: t in Firsts(pool, k) && c == AsReservation(t)
    {
      var j :| 0 <= j < k && c == AsReservation(pool[j].candidate);
      assert Firsts(pool, k)[j] in Firsts(pool, k);
    }
  }

  lemma FirstsHas(pool: seq<Ranked>, k: nat, d: Candidate)
    requires k <= |pool| && d !in Firsts(pool, k)
    ensures forall m :: 0 <= m < k ==> pool[m].candidate != d
  {
    forall m | 0 <= m < k ensures pool[m].candidate != d {
      assert Firsts(pool, k)[m] in Firsts(pool, k);
    }
  }

  lemma PassedOver(matches: seq<Candidate>, all: seq<Candidate>, score: Candidate -> int, pool: seq<Ranked>, k: nat,
                   d: Candidate)
    requires Reserving(matches, all, score, pool, k)
    requires Reserves(d, matches, all, score) && d !in Firsts(pool, k)
    ensures || (k == 2 && forall t :: t in Firsts(pool, k) ==> score(t) >= score(d))
            || (|Consume(matches, all, score, true)| >= 8
                && forall c :: c in Consume(matches, all, score, true) ==> !WeakNoise(c))
  {
    ReservesIsPooled(d, matches, all, score);
    var m :| 0 <= m < |pool| && pool[m] == Ranked(d, score(d) + 4);
    FirstsHas(pool, k, d);
    forall t | t in Firsts(pool, k) ensures score(t) >= score(d) {
      var j :| 0 <= j < k && Firsts(pool, k)[j] == t;
      BetterPooled(matches, all, score, pool, j, m);
    }
    assert pool[k].score >= 10 by {
      BestFalls(Pool(all, TakenPaths(matches, all, score), score, true, 4));
    }
  }

  lemma BetterPooled(matches: seq<Candidate>, all: seq<Candidate>, score: Candidate -> int, pool: seq<Ranked>,
                     j: nat, m: nat)
    requires pool == Best(Pool(all, TakenPaths(matches, all, score), score, true, 4)) && j <= m < |pool|
    ensures score(pool[j].candidate) >= score(pool[m].candidate)
  {
    BestFalls(Pool(all, TakenPaths(matches, all, score), score, true, 4));
    SortedPoolEntries(all, TakenPaths(matches, all, score), score, true, 4);
    assert pool[j] in pool && pool[m] in pool;
  }

  // ---------------------------------------------------------------- V1 and V2: what is added

  /** V0, the companions found on disk, and with an index and rows what recovery selected. */
  function Base(v0: seq<Candidate>, a: Additions): seq<Candidate> {
    v0 + a.filesystem + if a.hasIndex && a.hasRows then a.recovered else []
  }

  /** A nonempty V0 is followed in V2 by the companions and the recovered candidates, in order and each at its own
      index under its own folded path; only a relationship of that path may stand in for one, and only with an
      index and rows. */
  lemma AdditionsStand(v0: seq<Candidate>, a: Additions, baseline: seq<Candidate>, judge: Judge, i: nat)
    requires v0 != [] && i < |Base(v0, a)|
    ensures var out, base := V2(v0, a, baseline, judge), Base(v0, a);
            && i < |out| && FoldKey(out[i].path) == FoldKey(base[i].path)
            && (out[i] == base[i] || (a.hasIndex && a.hasRows && out[i] in a.relationships))
  {
    var v1, base := V1(v0, a), Base(v0, a);
    LossSafeKeepsBaseline(baseline, v1, judge);
    assert v1 <= V2(v0, a, baseline, judge);
    if a.hasIndex && a.hasRows {
      MergeRelationshipsKeeps(base, a.relationships);
    } else {
      assert v1 == v0 + a.filesystem && base == v0 + a.filesystem + [] == v0 + a.filesystem;
    }
  }

  /** Every relationship's folded path is listed in V2. */
  lemma RelationshipsListed(v0: seq<Candidate>, a: Additions, baseline: seq<Candidate>, judge: Judge, c: Candidate)
    requires v0 != [] && a.hasIndex && a.hasRows && c in a.relationships
    ensures exists i :: 0 <= i < |V2(v0, a, baseline, judge)|
                        && FoldKey(V2(v0, a, baseline, judge)[i].path) == FoldKey(c.path)
  {
    var v1, out := V1(v0, a), V2(v0, a, baseline, judge);
    MergeListsRelationships(Base(v0, a), a.relationships, c);
    LossSafeKeepsBaseline(baseline, v1, judge);
    assert v1 <= out;
    var i :| 0 <= i < |v1| && KeyOf(v1[i]) == FoldKey(c.path);
    assert out[i] == v1[i];
  }

  /** The slots from n on are the marked forms of baseline candidates to keep at indices from i up to k. */
  ghost predicate KeptFrom(keep: Keep, out: seq<Candidate>, n: nat, baseline: seq<Candidate>, i: nat, k: nat) {
    forall j :: n <= j < |out| ==> Sourced(keep, out[j], baseline, i, k)
  }

  ghost predicate Sourced(keep: Keep, c: Candidate, baseline: seq<Candidate>, i: nat, k: nat) {
    exists m: nat :: i <= m < k && Source(keep, c, baseline, m)
  }

  ghost predicate Source(keep: Keep, c: Candidate, baseline: seq<Candidate>, m: nat) {
    m < |baseline| && keep(baseline[m], m) && c == AsPreserved(baseline[m])
  }

  lemma KeptLater(keep: Keep, out: seq<Candidate>, n: nat, baseline: seq<Candidate>, i: nat, k: nat)
    requires i < k && i < |baseline|
    requires KeptFrom(keep, out, n + 1, baseline, i + 1, k) && n < |out|
    requires keep(baseline[i], i) && out[n] == AsPreserved(baseline[i])
    ensures KeptFrom(keep, out, n, baseline, i, k)
  {
    forall j | n <= j < |out| ensures Sourced(keep, out[j], baseline, i, k) {
      if j > n {
        assert Sourced(keep, out[j], baseline, i + 1, k);
      } else {
        assert Source(keep, out[j], baseline, i);
      }
    }
  }

  lemma KeptWider(keep: Keep, out: seq<Candidate>, n: nat, baseline: seq<Candidate>, i: nat)
    ensures forall k: nat :: KeptFrom(keep, out, n, baseline, i + 1, k) ==> KeptFrom(keep, out, n, baseline, i, k)
  {
    forall k: nat | KeptFrom(keep, out, n, baseline, i + 1, k) ensures KeptFrom(keep, out, n, baseline, i, k) {
      forall j | n <= j < |out| ensures Sourced(keep, out[j], baseline, i, k) {
        assert Sourced(keep, out[j], baseline, i + 1, k);
      }
    }
  }

  /** Of the merge from index i on: what it adds comes from there, and the kept candidate at index k was seen, is
      listed, or found all slots taken by candidates before it. */
  ghost predicate PassedBy(pathOf: Key, keep: Keep, out: seq<Candidate>, seen: set<string>, preserved: nat,
                           baseline: seq<Candidate>, i: nat, k: nat)
  {
    var r := PreserveFrom(pathOf, keep, out, seen, preserved, baseline, i);
    && KeptFrom(keep, r, |out|, baseline, i, |baseline|)
    && (i <= k < |baseline| && keep(baseline[k], k) && pathOf(baseline[k]) != "" ==>
          || pathOf(baseline[k]) in seen
          || (exists j, d :: |out| <= j < |r| && pathOf(d) == pathOf(baseline[k]) && r[j] == AsPreserved(d))
          || (|r| == |out| + 8 - preserved && KeptFrom(keep, r, |out|, baseline, i, k)))
  }

  lemma PassStep(pathOf: Key, keep: Keep, out: seq<Candidate>, seen: set<string>, preserved: nat,
                 baseline: seq<Candidate>, i: nat, k: nat)
    requires preserved < 8 && i < |baseline| && keep(baseline[i], i)
    requires pathOf(baseline[i]) != "" && pathOf(baseline[i]) !in seen
    requires PassedBy(pathOf, keep, out + [AsPreserved(baseline[i])], seen + {pathOf(baseline[i])}, preserved + 1,
                      baseline, i + 1, k)
    ensures PassedBy(pathOf, keep, out, seen, preserved, baseline, i, k)
  {
    var c := baseline[i];
    var out', seen' := out + [AsPreserved(c)], seen + {pathOf(c)};
    var r := PreserveFrom(pathOf, keep, out', seen', preserved + 1, baseline, i + 1);
    PreserveFromKeeps(pathOf, keep, out', seen', preserved + 1, baseline, i + 1);
    assert r[|out|] == out'[|out|] == AsPreserved(c);
    KeptLater(keep, r, |out|, baseline, i, |baseline|);
    if i < k && KeptFrom(keep, r, |out'|, baseline, i + 1, k) {
      KeptLater(keep, r, |out|, baseline, i, k);
    }
  }

  lemma {:induction false} PreserveFromPasses(pathOf: Key, keep: Keep, out: seq<Candidate>, seen: set<string>,
                                              preserved: nat, baseline: seq<Candidate>, i: nat, k: nat)
    requires preserved <= 8
    ensures PassedBy(pathOf, keep, out, seen, preserved, baseline, i, k)
    decreases |baseline| - i
  {
    if i < |baseline| && preserved < 8 {
      var c := baseline[i];
      if pathOf(c) == "" || pathOf(c) in seen || !keep(c, i) {
        PreserveFromPasses(pathOf, keep, out, seen, preserved, baseline, i + 1, k);
        KeptWider(keep, PreserveFrom(pathOf, keep, out, seen, preserved, baseline, i), |out|, baseline, i);
      } else {
        PreserveFromPasses(pathOf, keep, out + [AsPreserved(c)], seen + {pathOf(c)}, preserved + 1, baseline, i + 1, k);
        PassStep(pathOf, keep, out, seen, preserved, baseline, i, k);
      }
    }
  }

  /** A baseline candidate that V2 preserves: of a source-like file with a path that is neither weak nor noise, and
      a score of at least 8, or above 0 among the first six. */
  predicate Preserved(c: Candidate, judge: Judge, rank: nat) {
    && ConsumptionPath(c) != "" && !WeakNoise(c) && !WeakPath(ConsumptionPath(c)) && judge.sourceLike(c)
    && (judge.score(c) >= 8 || (rank < 6 && judge.score(c) > 0))
  }

  /** The slots from n on are baseline candidates at indices before k that were to be preserved. */
  ghost predicate FromBaseline(out: seq<Candidate>, n: nat, baseline: seq<Candidate>, judge: Judge, k: nat) {
    forall j :: n <= j < |out| ==> InBaseline(out[j], baseline, judge, k)
  }

  ghost predicate InBaseline(c: Candidate, baseline: seq<Candidate>, judge: Judge, k: nat) {
    exists m: nat :: m < k && m < |baseline| && Preserved(baseline[m], judge, m) && c == AsPreserved(baseline[m])
  }

  lemma KeptIsFromBaseline(out: seq<Candidate>, n: nat, baseline: seq<Candidate>, judge: Judge, k: nat)
    requires KeptFrom(KeepBy(judge), out, n, baseline, 0, k)
    ensures FromBaseline(out, n, baseline, judge, k)
  {
    forall j | n <= j < |out| ensures InBaseline(out[j], baseline, judge, k) {
      assert Sourced(KeepBy(judge), out[j], baseline, 0, k);
      var m: nat :| 0 <= m < k && Source(KeepBy(judge), out[j], baseline, m);
      assert Preserved(baseline[m], judge, m);
    }
  }

  lemma BehindTheBase(v0: seq<Candidate>, a: Additions)
    requires v0 != []
    ensures |Base(v0, a)| <= |V1(v0, a)| <= |Base(v0, a)| + |a.relationships|
    ensures !a.hasIndex || !a.hasRows ==> |V1(v0, a)| == |Base(v0, a)|
    ensures forall i :: |Base(v0, a)| <= i < |V1(v0, a)| ==> V1(v0, a)[i] in a.relationships
  {
    MergeRelationshipsKeeps(Base(v0, a), a.relationships);
  }

  /** V2 holds nothing else: what stands behind the base are relationships, and behind them at most eight baseline
      candidates that were to be preserved. An empty V0 stays empty. */
  lemma NothingElseIsAdded(v0: seq<Candidate>, a: Additions, baseline: seq<Candidate>, judge: Judge) returns (n: nat)
    ensures v0 == [] ==> V2(v0, a, baseline, judge) == []
    ensures v0 != [] ==> |Base(v0, a)| <= n <= |V2(v0, a, baseline, judge)| <= n + 8
    ensures !a.hasIndex || !a.hasRows ==> n <= |Base(v0, a)|
    ensures n <= |Base(v0, a)| + |a.relationships|
    ensures v0 != [] ==> forall i :: |Base(v0, a)| <= i < n ==> V2(v0, a, baseline, judge)[i] in a.relationships
    ensures FromBaseline(V2(v0, a, baseline, judge), n, baseline, judge, |baseline|)
  {
    var v1 := V1(v0, a);
    n := |v1|;
    if v0 != [] {
      BehindTheBase(v0, a);
    }
    LossSafeKeepsBaseline(baseline, v1, judge);
    PreserveFromPasses(ConsumptionPath, KeepBy(judge), v1, PathSet(v1), 0, baseline, 0, 0);
    KeptIsFromBaseline(V2(v0, a, baseline, judge), n, baseline, judge, |baseline|);
  }

  /** Every baseline candidate that is to be preserved has its path listed in V2, or eight that come before it in
      the baseline took the places. */
  lemma BaselineIsPreserved(v0: seq<Candidate>, a: Additions, baseline: seq<Candidate>, judge: Judge, k: nat)
    requires v0 != [] && k < |baseline| && Preserved(baseline[k], judge, k)
    ensures var out := V2(v0, a, baseline, judge);
            || Lists(out, ConsumptionPath(baseline[k]))
            || (|out| >= |Base(v0, a)| + 8 && FromBaseline(out, |out| - 8, baseline, judge, k))
  {
    var v1, out := V1(v0, a), V2(v0, a, baseline, judge);
    BehindTheBase(v0, a);
    LossSafeKeepsBaseline(baseline, v1, judge);
    PreserveFromPasses(ConsumptionPath, KeepBy(judge), v1, PathSet(v1), 0, baseline, 0, k);
    if KeptFrom(KeepBy(judge), out, |v1|, baseline, 0, k) {
      KeptIsFromBaseline(out, |v1|, baseline, judge, k);
    } else {
      PreservedIsListed(v1, baseline, judge, k);
    }
  }

  lemma PreservedIsListed(v1: seq<Candidate>, baseline: seq<Candidate>, judge: Judge, k: nat)
    requires k < |baseline| && KeepBy(judge)(baseline[k], k)
    requires PassedBy(ConsumptionPath, KeepBy(judge), v1, PathSet(v1), 0, baseline, 0, k)
    requires !(|MergeLossSafe(baseline, v1, judge)| == |v1| + 8
               && KeptFrom(KeepBy(judge), MergeLossSafe(baseline, v1, judge), |v1|, baseline, 0, k))
    ensures Lists(MergeLossSafe(baseline, v1, judge), ConsumptionPath(baseline[k]))
  {
    var path, out := ConsumptionPath(baseline[k]), MergeLossSafe(baseline, v1, judge);
    PreserveFromKeeps(ConsumptionPath, KeepBy(judge), v1, PathSet(v1), 0, baseline, 0);
    if path in PathSet(v1) {
      var d :| d in v1 && Normalize(d.path) != "" && Normalize(d.path) == path;
      assert d in out;
    } else {
      var j, d :| |v1| <= j < |out| && ConsumptionPath(d) == path && out[j] == AsPreserved(d);
      assert AsPreserved(d) in out && ConsumptionPath(AsPreserved(d)) == path;
    }
  }
}
