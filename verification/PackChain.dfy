/** The first pack version, V0, and what candidates are. */
module PackChain {
  // Noise replacement and test reservation (find_source_manifest_consumption.go).

  import opened Sorting
  import opened Text
  import opened Paths

  const MaxVisible: nat := 8
  const MaxReserved: nat := 2
  const MaxAdditions: nat := 4
  const MaxPreserved: nat := 8

  type Metadata = map<string, string>

  datatype Candidate = Candidate(path: string, source: string, kind: string, subtype: string, title: string,
                                 metadata: Metadata)

  datatype Ranked = Ranked(candidate: Candidate, score: int)

  // ---------------------------------------------------------------- what a candidate is

  predicate IsManifest(c: Candidate) {
    "retrieval_candidate" in c.metadata && c.metadata["retrieval_candidate"] == "source_manifest"
  }

  predicate IsTest(c: Candidate) {
    var path := ToLower(c.path);
    ToLower(c.subtype) == "test_case" || Contains(path, "/tests/") || "tests/" <= path
  }

  predicate WeakNoise(c: Candidate) {
    var path := ToLower(c.path);
    && !IsTest(c)
    && (Contains(path, "/docs_src/") || "docs_src/" <= path || Contains(path, "/docs/en/docs/js/")
        || Contains(path, "/tutorial") || Contains(path, "/examples/") || "examples/" <= path)
  }

  predicate WeakPath(raw: string) {
    var path := FoldKey(raw);
    path == "" || Contains(path, "/docs_src/") || "docs_src/" <= path || Contains(path, "/tutorial")
    || Contains(path, "/examples/") || "examples/" <= path || Contains(path, "/fixtures/")
    || Contains(path, "/testdata/") || Contains(path, "/vendor/") || Contains(path, "/node_modules/")
    || Contains(path, "/generated/") || Contains(path, "/dist/")
  }

  /** The lower-cased path, or source when there is no path, that consumption compares by. */
  function ConsumptionPath(c: Candidate): string {
    ToLower(if c.path == "" then c.source else c.path)
  }

  function AsReplacement(c: Candidate): Candidate {
    c.(metadata := c.metadata["retrieval_expansion_reason" := "source_manifest_consumption_replacement"]
                             ["source_manifest_consumption" := "true"]["pack_tier" := "primary"])
  }

  function AsReservation(c: Candidate): Candidate {
    c.(metadata := c.metadata["retrieval_expansion_reason" := "source_manifest_test_reservation"]
                             ["source_manifest_consumption" := "true"]["pack_tier" := "related"])
  }

  function AsPreserved(c: Candidate): Candidate {
    c.(metadata := c.metadata["retrieval_expansion_reason" := "source_manifest_loss_safe_preserved"]
                             ["source_manifest_loss_safe_preserved" := "true"]["pack_tier" := "primary"])
  }

  // ---------------------------------------------------------------- V0: replacement and reservation

  predicate RankedLe(a: Ranked, b: Ranked) {
    if a.score == b.score then LexLe(a.candidate.path, b.candidate.path) else a.score > b.score
  }

  /** Unseen manifest candidates of the wanted kind with a positive score, raised by a bonus. */
  function Pool(all: seq<Candidate>, seen: set<string>, score: Candidate -> int, tests: bool, bonus: int): seq<Ranked> {
    if all == [] then []
    else
      var before := Pool(all[..|all| - 1], seen, score, tests, bonus);
      var c := all[|all| - 1];
      if !IsManifest(c) || IsTest(c) != tests || ConsumptionPath(c) in seen || WeakNoise(c) || score(c) <= 0 then before
      else before + [Ranked(c, score(c) + bonus)]
  }

  method RankPool(all: seq<Candidate>, seen: set<string>, score: Candidate -> int, tests: bool, bonus: int)
    returns (ranked: seq<Ranked>)
    ensures ranked == Sort(RankedLe, Pool(all, seen, score, tests, bonus))
  {
    ranked := [];
    for i := 0 to |all|
      invariant ranked == Pool(all[..i], seen, score, tests, bonus)
    {
      assert all[..i + 1][..i] == all[..i];
      var c := all[i];
      if !IsManifest(c) || IsTest(c) != tests {
        continue;
      }
      if ConsumptionPath(c) in seen || WeakNoise(c) {
        continue;
      }
      if score(c) <= 0 {
        continue;
      }
      ranked := ranked + [Ranked(c, score(c) + bonus)];
    }
    assert all[..|all|] == all;
    ranked := Sort(RankedLe, ranked);
  }

  /** From slot i on, noise slots take the pool's candidates, best first, down to score 10. */
  function ReplaceNoise(slots: seq<Candidate>, i: nat, pool: seq<Ranked>): (r: seq<Candidate>)
    ensures |r| == |slots|
    ensures forall k :: 0 <= k < i && k < |slots| ==> r[k] == slots[k]
    decreases |slots| - i
  {
    if i >= |slots| || pool == [] then slots
    else if !WeakNoise(slots[i]) then ReplaceNoise(slots, i + 1, pool)
    else if pool[0].score < 10 then slots
    else ReplaceNoise(slots[i := AsReplacement(pool[0].candidate)], i + 1, pool[1..])
  }

  /** The last slot that is a hit, or the length when there is none. */
  function LastOf(hit: Candidate -> bool, slots: seq<Candidate>): (i: nat)
    ensures i <= |slots|
    ensures i < |slots| ==> hit(slots[i])
  {
    if slots == [] then 0
    else
      var n := |slots| - 1;
      if hit(slots[n]) then n
      else var i := LastOf(hit, slots[..n]); if i < n then i else |slots|
  }

  function LastNoise(slots: seq<Candidate>): (i: nat)
    ensures i <= |slots|
    ensures i < |slots| ==> WeakNoise(slots[i])
  {
    LastOf(WeakNoise, slots)
  }

  lemma {:induction false} LastOfIs(hit: Candidate -> bool, slots: seq<Candidate>, i: int)
    requires -1 <= i < |slots| && (i >= 0 ==> hit(slots[i]))
    requires forall k :: i < k < |slots| ==> !hit(slots[k])
    ensures LastOf(hit, slots) == if i >= 0 then i else |slots|
  {
    if slots != [] && i < |slots| - 1 {
      LastOfIs(hit, slots[..|slots| - 1], i);
    }
  }

  /** One reservation: a noise slot of a full pack gives way, a short pack grows, otherwise nothing. */
  function ReserveOne(slots: seq<Candidate>, test: Candidate): seq<Candidate> {
    if |slots| >= MaxVisible then
      var i := LastNoise(slots);
      if i < |slots| then slots[i := AsReservation(test)] else slots
    else slots + [AsReservation(test)]
  }

  predicate CanReserve(slots: seq<Candidate>) {
    |slots| < MaxVisible || LastNoise(slots) < |slots|
  }

  function Reserve(slots: seq<Candidate>, pool: seq<Ranked>, reserved: nat): seq<Candidate>
    decreases |pool|
  {
    if pool == [] || pool[0].score < 10 || reserved >= MaxReserved then slots
    else Reserve(ReserveOne(slots, pool[0].candidate), pool[1..], if CanReserve(slots) then reserved + 1 else reserved)
  }

  function PathsOf(slots: seq<Candidate>): set<string> {
    set c | c in slots :: ConsumptionPath(c)
  }

  function ReplacedSlots(matches: seq<Candidate>, all: seq<Candidate>, score: Candidate -> int): seq<Candidate> {
    ReplaceNoise(matches, 0, Sort(RankedLe, Pool(all, PathsOf(matches), score, false, 0)))
  }

  /** Paths that are taken before tests are reserved: every match's, and every replacement's. */
  function TakenPaths(matches: seq<Candidate>, all: seq<Candidate>, score: Candidate -> int): set<string> {
    PathsOf(matches) + PathsOf(ReplacedSlots(matches, all, score))
  }

  /** V0. */
  function Consume(matches: seq<Candidate>, all: seq<Candidate>, score: Candidate -> int,
                   hasTerms: bool): seq<Candidate> {
    if matches == [] || all == [] || !hasTerms then matches
    else Reserve(ReplacedSlots(matches, all, score),
                 Sort(RankedLe, Pool(all, TakenPaths(matches, all, score), score, true, 4)), 0)
  }

  /** The paths marked as seen while noise slots are replaced. */
  function ReplaceSeen(slots: seq<Candidate>, i: nat, pool: seq<Ranked>, seen: set<string>): set<string>
    decreases |slots| - i
  {
    if i >= |slots| || pool == [] then seen
    else if !WeakNoise(slots[i]) then ReplaceSeen(slots, i + 1, pool, seen)
    else if pool[0].score < 10 then seen
    else
      var c := AsReplacement(pool[0].candidate);
      ReplaceSeen(slots[i := c], i + 1, pool[1..], seen + {ConsumptionPath(c)})
  }

  lemma PathsOfUpdate(slots: seq<Candidate>, i: nat, c: Candidate)
    requires i < |slots|
    ensures PathsOf(slots[i := c]) <= PathsOf(slots) + {ConsumptionPath(c)}
  {
    forall d | d in slots[i := c] ensures d in slots || d == c {}
  }

  lemma PathsOfHas(slots: seq<Candidate>, i: nat)
    requires i < |slots|
    ensures ConsumptionPath(slots[i]) in PathsOf(slots)
  {
    assert slots[i] in slots;
  }

  lemma {:induction false} ReplaceSeenIsPaths(slots: seq<Candidate>, i: nat, pool: seq<Ranked>, seen: set<string>)
    requires PathsOf(slots) <= seen
    ensures ReplaceSeen(slots, i, pool, seen) == seen + PathsOf(ReplaceNoise(slots, i, pool))
    decreases |slots| - i
  {
    if i >= |slots| || pool == [] {
    } else if !WeakNoise(slots[i]) {
      ReplaceSeenIsPaths(slots, i + 1, pool, seen);
    } else if pool[0].score >= 10 {
      var c := AsReplacement(pool[0].candidate);
      PathsOfUpdate(slots, i, c);
      ReplaceSeenIsPaths(slots[i := c], i + 1, pool[1..], seen + {ConsumptionPath(c)});
      PathsOfHas(ReplaceNoise(slots[i := c], i + 1, pool[1..]), i);
    }
  }

  method ReplaceSlots(matches: seq<Candidate>, pool: seq<Ranked>, taken: set<string>)
    returns (out: seq<Candidate>, seen: set<string>)
    ensures out == ReplaceNoise(matches, 0, pool)
    ensures seen == ReplaceSeen(matches, 0, pool, taken)
  {
    out, seen := matches, taken;
    var next := 0;
    assert pool[0..] == pool;
    for i := 0 to |matches|
      invariant |out| == |matches| && 0 <= next <= |pool|
      invariant ReplaceNoise(out, i, pool[next..]) == ReplaceNoise(matches, 0, pool)
      invariant ReplaceSeen(out, i, pool[next..], seen) == ReplaceSeen(matches, 0, pool, taken)
    {
      if next >= |pool| {
        break;
      }
      if !WeakNoise(out[i]) {
        continue;
      }
      if pool[next].score < 10 {
        break;
      }
      assert pool[next..][1..] == pool[next + 1..];
      var replacement := AsReplacement(pool[next].candidate);
      out := out[i := replacement];
      seen := seen + {ConsumptionPath(replacement)};
      next := next + 1;
    }
  }

  /** Walks back from the end and puts the test over the first noise it meets. */
  method DisplaceNoise(slots: seq<Candidate>, test: Candidate) returns (out: seq<Candidate>, replaced: bool)
    ensures replaced <==> LastNoise(slots) < |slots|
    ensures out == if replaced then slots[LastNoise(slots) := test] else slots
  {
    out, replaced := slots, false;
    var i := |slots| - 1;
    while i >= 0
      invariant -1 <= i < |slots| && out == slots && !replaced
      invariant forall k :: i < k < |slots| ==> !WeakNoise(slots[k])
    {
      if WeakNoise(out[i]) {
        LastOfIs(WeakNoise, slots, i);
        return slots[i := test], true;
      }
      i := i - 1;
    }
    LastOfIs(WeakNoise, slots, -1);
  }

  method ReserveTests(slots: seq<Candidate>, pool: seq<Ranked>) returns (out: seq<Candidate>)
    ensures out == Reserve(slots, pool, 0)
  {
    out := slots;
    var reserved: nat := 0;
    var k := 0;
    assert pool[0..] == pool;
    while k < |pool|
      invariant 0 <= k <= |pool|
      invariant Reserve(out, pool[k..], reserved) == Reserve(slots, pool, 0)
    {
      var ranked := pool[k];
      if ranked.score < 10 || reserved >= MaxReserved {
        break;
      }
      assert pool[k..][1..] == pool[k + 1..];
      k := k + 1;
      var test := AsReservation(ranked.candidate);
      var replaced := false;
      if |out| >= MaxVisible {
        out, replaced := DisplaceNoise(out, test);
      }
      if !replaced && |out| < MaxVisible {
        out := out + [test];
      } else if !replaced {
        continue;
      }
      reserved := reserved + 1;
    }
  }

  method ApplyConsumption(matches: seq<Candidate>, all: seq<Candidate>, score: Candidate -> int, hasTerms: bool)
    returns (out: seq<Candidate>)
    ensures out == Consume(matches, all, score, hasTerms)
  {
    if |matches| == 0 || |all| == 0 {
      return matches;
    }
    if !hasTerms {
      return matches;
    }
    var seen := set c | c in matches :: ConsumptionPath(c);
    var replacements := RankPool(all, seen, score, false, 0);
    ReplaceSeenIsPaths(matches, 0, replacements, seen);
    out, seen := ReplaceSlots(matches, replacements, seen);
    var reservations := RankPool(all, seen, score, true, 4);
    out := ReserveTests(out, reservations);
  }

  // ---------------------------------------------------------------- V0: nothing good is lost

  /** Slots that changed held noise, and what took them is not noise. */
  ghost predicate NoiseGaveWay(before: seq<Candidate>, after: seq<Candidate>) {
    && |before| <= |after|
    && (forall i :: 0 <= i < |before| && after[i] != before[i] ==> WeakNoise(before[i]) && !WeakNoise(after[i]))
    && (forall i :: |before| <= i < |after| ==> !WeakNoise(after[i]))
  }

  lemma GaveWayTransitive(a: seq<Candidate>, b: seq<Candidate>, c: seq<Candidate>)
    requires NoiseGaveWay(a, b) && NoiseGaveWay(b, c)
    ensures NoiseGaveWay(a, c)
  {
    forall i | 0 <= i < |a| && c[i] != a[i] ensures WeakNoise(a[i]) && !WeakNoise(c[i]) {
      assert c[i] != b[i] || b[i] != a[i];
    }
  }

  lemma {:induction false} PoolEntries(all: seq<Candidate>, seen: set<string>, score: Candidate -> int, tests: bool,
                                       bonus: int)
    ensures forall r :: r in Pool(all, seen, score, tests, bonus) ==>
                          && r.candidate in all && IsManifest(r.candidate) && IsTest(r.candidate) == tests
                          && ConsumptionPath(r.candidate) !in seen && !WeakNoise(r.candidate)
                          && r.score == score(r.candidate) + bonus
  {
    if all != [] {
      PoolEntries(all[..|all| - 1], seen, score, tests, bonus);
    }
  }

  lemma SortedPoolEntries(all: seq<Candidate>, seen: set<string>, score: Candidate -> int, tests: bool, bonus: int)
    ensures forall r :: r in Sort(RankedLe, Pool(all, seen, score, tests, bonus)) ==>
                          && r.candidate in all && IsManifest(r.candidate) && IsTest(r.candidate) == tests
                          && ConsumptionPath(r.candidate) !in seen && !WeakNoise(r.candidate)
                          && r.score == score(r.candidate) + bonus
  {
    var pool := Pool(all, seen, score, tests, bonus);
    PoolEntries(all, seen, score, tests, bonus);
    SortPermutes(RankedLe, pool);
    forall r | r in Sort(RankedLe, pool) ensures r in pool {
      assert r in multiset(Sort(RankedLe, pool));
    }
  }

  lemma {:induction false} ReplaceGivesWay(slots: seq<Candidate>, i: nat, pool: seq<Ranked>)
    requires forall r :: r in pool ==> !WeakNoise(r.candidate)
    ensures NoiseGaveWay(slots, ReplaceNoise(slots, i, pool))
    decreases |slots| - i
  {
    if i >= |slots| || pool == [] {
    } else if !WeakNoise(slots[i]) {
      ReplaceGivesWay(slots, i + 1, pool);
    } else if pool[0].score >= 10 {
      assert pool[0] in pool;
      assert !WeakNoise(AsReplacement(pool[0].candidate));
      var slots' := slots[i := AsReplacement(pool[0].candidate)];
      ReplaceGivesWay(slots', i + 1, pool[1..]);
      GaveWayTransitive(slots, slots', ReplaceNoise(slots', i + 1, pool[1..]));
    }
  }

  lemma {:induction false} ReserveGivesWay(slots: seq<Candidate>, pool: seq<Ranked>, reserved: nat)
    requires forall r :: r in pool ==> !WeakNoise(r.candidate)
    ensures NoiseGaveWay(slots, Reserve(slots, pool, reserved))
    ensures |Reserve(slots, pool, reserved)| <= if |slots| > 8 then |slots| else 8
    decreases |pool|
  {
    if pool == [] || pool[0].score < 10 || reserved >= MaxReserved {
    } else {
      var slots' := ReserveOne(slots, pool[0].candidate);
      var reserved' := if CanReserve(slots) then reserved + 1 else reserved;
      assert pool[0] in pool;
      assert !WeakNoise(AsReservation(pool[0].candidate));
      ReserveGivesWay(slots', pool[1..], reserved');
      GaveWayTransitive(slots, slots', Reserve(slots', pool[1..], reserved'));
    }
  }

  /** V0 keeps every match that is not noise at its own index, replaces only noise and only by
      candidates that are not noise, and grows the pack only up to the visible limit. */
  lemma ConsumeKeepsMatches(matches: seq<Candidate>, all: seq<Candidate>, score: Candidate -> int, hasTerms: bool)
    ensures NoiseGaveWay(matches, Consume(matches, all, score, hasTerms))
    ensures |Consume(matches, all, score, hasTerms)| <= if |matches| > 8 then |matches| else 8
  {
    if matches == [] || all == [] || !hasTerms {
    } else {
      var slots := ReplacedSlots(matches, all, score);
      var pool := Sort(RankedLe, Pool(all, TakenPaths(matches, all, score), score, true, 4));
      SortedPoolEntries(all, PathsOf(matches), score, false, 0);
      ReplaceGivesWay(matches, 0, Sort(RankedLe, Pool(all, PathsOf(matches), score, false, 0)));
      SortedPoolEntries(all, TakenPaths(matches, all, score), score, true, 4);
      ReserveGivesWay(slots, pool, 0);
      GaveWayTransitive(matches, slots, Reserve(slots, pool, 0));
    }
  }

  /** What V0 may bring in: a scored manifest candidate whose path no match had. */
  ghost predicate Admissible(c: Candidate, matches: seq<Candidate>, all: seq<Candidate>, score: Candidate -> int) {
    exists raw :: raw in all && IsManifest(raw) && !WeakNoise(raw) && ConsumptionPath(raw) !in PathsOf(matches)
                  && (if IsTest(raw) then c == AsReservation(raw) && score(raw) >= 6
                      else c == AsReplacement(raw) && score(raw) >= 10)
  }

  ghost predicate FromPool(after: seq<Candidate>, matches: seq<Candidate>, all: seq<Candidate>,
                           score: Candidate -> int) {
    forall c :: c in after ==> c in matches || Admissible(c, matches, all, score)
  }

  lemma {:induction false} ReplaceFromPool(slots: seq<Candidate>, i: nat, pool: seq<Ranked>, matches: seq<Candidate>,
                                           all: seq<Candidate>, score: Candidate -> int)
    requires FromPool(slots, matches, all, score)
    requires forall r :: r in pool && r.score >= 10 ==> Admissible(AsReplacement(r.candidate), matches, all, score)
    ensures FromPool(ReplaceNoise(slots, i, pool), matches, all, score)
    decreases |slots| - i
  {
    if i >= |slots| || pool == [] {
    } else if !WeakNoise(slots[i]) {
      ReplaceFromPool(slots, i + 1, pool, matches, all, score);
    } else if pool[0].score >= 10 {
      assert pool[0] in pool;
      var slots' := slots[i := AsReplacement(pool[0].candidate)];
      assert forall c :: c in slots' ==> c in slots || c == AsReplacement(pool[0].candidate);
      ReplaceFromPool(slots', i + 1, pool[1..], matches, all, score);
    }
  }

  lemma {:induction false} ReserveFromPool(slots: seq<Candidate>, pool: seq<Ranked>, reserved: nat,
                                           matches: seq<Candidate>,
                                           all: seq<Candidate>, score: Candidate -> int)
    requires FromPool(slots, matches, all, score)
    requires forall r :: r in pool && r.score >= 10 ==> Admissible(AsReservation(r.candidate), matches, all, score)
    ensures FromPool(Reserve(slots, pool, reserved), matches, all, score)
    decreases |pool|
  {
    if pool == [] || pool[0].score < 10 || reserved >= MaxReserved {
    } else {
      assert pool[0] in pool;
      var slots' := ReserveOne(slots, pool[0].candidate);
      assert forall c :: c in slots' ==> c in slots || c == AsReservation(pool[0].candidate);
      ReserveFromPool(slots', pool[1..], if CanReserve(slots) then reserved + 1 else reserved, matches, all, score);
    }
  }

  /** Everything in V0 is a match or an annotated, well-scored manifest candidate no match stood for. */
  lemma ConsumeProvenance(matches: seq<Candidate>, all: seq<Candidate>, score: Candidate -> int, hasTerms: bool)
    ensures FromPool(Consume(matches, all, score, hasTerms), matches, all, score)
  {
    if matches == [] || all == [] || !hasTerms {
    } else {
      var seen := TakenPaths(matches, all, score);
      var first := Sort(RankedLe, Pool(all, PathsOf(matches), score, false, 0));
      var second := Sort(RankedLe, Pool(all, seen, score, true, 4));
      SortedPoolEntries(all, PathsOf(matches), score, false, 0);
      forall r | r in first && r.score >= 10 ensures Admissible(AsReplacement(r.candidate), matches, all, score) {
        assert r.candidate in all;
      }
      ReplaceFromPool(matches, 0, first, matches, all, score);
      SortedPoolEntries(all, seen, score, true, 4);
      forall r | r in second && r.score >= 10 ensures Admissible(AsReservation(r.candidate), matches, all, score) {
        assert r.candidate in all;
      }
      ReserveFromPool(ReplacedSlots(matches, all, score), second, 0, matches, all, score);
    }
  }
}
