/** The pack versions V1 and V2. */
module PackMerge {
  // V1 appends recovered candidates and merges relationship candidates by path; V2 merges in what the default
  // retrieval had found (find_source_manifest_recovery.go).

  import opened Text
  import opened Paths
  import opened PackChain

  // ---------------------------------------------------------------- the relationship merge

  type Key = Candidate -> string

  function KeyOf(c: Candidate): string { FoldKey(c.path) }

  function IndexOf(key: Key, base: seq<Candidate>): map<string, nat> {
    if base == [] then map[]
    else
      var n := |base| - 1;
      if key(base[n]) == "" then IndexOf(key, base[..n]) else IndexOf(key, base[..n])[key(base[n]) := n]
  }

  /** A relationship candidate takes the slot of its path, or a new slot at the end. */
  function MergeFrom(key: Key, out: seq<Candidate>, indexes: map<string, nat>,
                     relationships: seq<Candidate>): seq<Candidate>
    decreases |relationships|
  {
    if relationships == [] then out
    else
      var c := relationships[0];
      if key(c) in indexes && indexes[key(c)] < |out| then
        MergeFrom(key, out[indexes[key(c)] := c], indexes, relationships[1..])
      else MergeFrom(key, out + [c], indexes[key(c) := |out|], relationships[1..])
  }

  function MergeRelationships(base: seq<Candidate>, relationships: seq<Candidate>): seq<Candidate> {
    MergeFrom(KeyOf, base, IndexOf(KeyOf, base), relationships)
  }

  /** Every index points at a slot with its key, and every nonempty key in the pack is indexed. */
  ghost predicate Indexed(key: Key, out: seq<Candidate>, indexes: map<string, nat>) {
    && (forall k :: k in indexes ==> indexes[k] < |out| && key(out[indexes[k]]) == k)
    && (forall i :: 0 <= i < |out| && key(out[i]) != "" ==> key(out[i]) in indexes)
  }

  lemma {:induction false} IndexOfIndexes(key: Key, base: seq<Candidate>)
    ensures Indexed(key, base, IndexOf(key, base))
  {
    if base != [] {
      var n := |base| - 1;
      IndexOfIndexes(key, base[..n]);
      var before, indexes := IndexOf(key, base[..n]), IndexOf(key, base);
      forall k | k in indexes ensures indexes[k] < |base| && key(base[indexes[k]]) == k {
        assert k in before || k == key(base[n]);
      }
      forall i | 0 <= i < |base| && key(base[i]) != "" ensures key(base[i]) in indexes {
        assert i == n || base[..n][i] == base[i];
      }
    }
  }

  method MergeRelationshipCandidates(base: seq<Candidate>, relationships: seq<Candidate>) returns (out: seq<Candidate>)
    ensures out == MergeRelationships(base, relationships)
  {
    out := base;
    var indexes: map<string, nat> := map[];
    for i := 0 to |out|
      invariant out == base && indexes == IndexOf(KeyOf, base[..i])
    {
      assert base[..i + 1][..i] == base[..i];
      var path := KeyOf(out[i]);
      if path != "" {
        indexes := indexes[path := i];
      }
    }
    assert base[..|base|] == base;
    IndexOfIndexes(KeyOf, base);
    assert relationships[0..] == relationships;
    for i := 0 to |relationships|
      invariant Indexed(KeyOf, out, indexes)
      invariant MergeFrom(KeyOf, out, indexes, relationships[i..]) == MergeRelationships(base, relationships)
    {
      assert relationships[i..][1..] == relationships[i + 1..];
      var candidate := relationships[i];
      var path := KeyOf(candidate);
      if path in indexes {
        IndexedUpdate(KeyOf, out, indexes, candidate);
        out := out[indexes[path] := candidate];
        continue;
      }
      IndexedAppend(KeyOf, out, indexes, candidate);
      indexes := indexes[path := |out|];
      out := out + [candidate];
    }
  }

  lemma IndexedUpdate(key: Key, out: seq<Candidate>, indexes: map<string, nat>, c: Candidate)
    requires Indexed(key, out, indexes) && key(c) in indexes
    ensures Indexed(key, out[indexes[key(c)] := c], indexes)
  {
  }

  lemma IndexedAppend(key: Key, out: seq<Candidate>, indexes: map<string, nat>, c: Candidate)
    requires Indexed(key, out, indexes) && key(c) !in indexes
    ensures Indexed(key, out + [c], indexes[key(c) := |out|])
  {
  }

  /** Slots keep their keys; a slot that changed now holds one of the given candidates. */
  ghost predicate SameSlots(key: Key, before: seq<Candidate>, after: seq<Candidate>, given: seq<Candidate>) {
    && |before| <= |after| <= |before| + |given|
    && (forall i :: 0 <= i < |before| ==> key(after[i]) == key(before[i]))
    && (forall i :: 0 <= i < |before| && after[i] != before[i] ==> after[i] in given)
    && (forall i :: |before| <= i < |after| ==> after[i] in given)
  }

  /** The keys of the slots from n on are new: no earlier slot has them. */
  ghost predicate NewKeys(key: Key, s: seq<Candidate>, n: nat) {
    forall i, j :: 0 <= i < j < |s| && n <= j && key(s[j]) != "" ==> key(s[i]) != key(s[j])
  }

  lemma SlotsThenSlots(key: Key, a: seq<Candidate>, b: seq<Candidate>, c: seq<Candidate>, head: Candidate,
                       rest: seq<Candidate>)
    requires SameSlots(key, a, b, [head]) && SameSlots(key, b, c, rest)
    ensures SameSlots(key, a, c, [head] + rest)
  {
    forall i | 0 <= i < |a| && c[i] != a[i] ensures c[i] in [head] + rest {
      assert c[i] != b[i] || b[i] != a[i];
    }
    forall i | |a| <= i < |c| ensures c[i] in [head] + rest {
      assert i >= |b| || c[i] != b[i] || b[i] in [head];
    }
  }

  lemma {:induction false} MergeFromKeeps(key: Key, out: seq<Candidate>, indexes: map<string, nat>,
                                          relationships: seq<Candidate>, n: nat)
    requires Indexed(key, out, indexes) && NewKeys(key, out, n)
    ensures SameSlots(key, out, MergeFrom(key, out, indexes, relationships), relationships)
    ensures NewKeys(key, MergeFrom(key, out, indexes, relationships), n)
    decreases |relationships|
  {
    if relationships != [] {
      var c, rest := relationships[0], relationships[1..];
      assert relationships == [c] + rest;
      var out', indexes';
      if key(c) in indexes {
        IndexedUpdate(key, out, indexes, c);
        out', indexes' := out[indexes[key(c)] := c], indexes;
      } else {
        IndexedAppend(key, out, indexes, c);
        out', indexes' := out + [c], indexes[key(c) := |out|];
      }
      MergeFromKeeps(key, out', indexes', rest, n);
      SlotsThenSlots(key, out, out', MergeFrom(key, out', indexes', rest), c, rest);
    }
  }

  /** The relationship merge keeps every slot of the base under its own path, adds at most one slot per
      relationship, and never adds a path that the pack already lists. */
  lemma MergeRelationshipsKeeps(base: seq<Candidate>, relationships: seq<Candidate>)
    ensures SameSlots(KeyOf, base, MergeRelationships(base, relationships), relationships)
    ensures NewKeys(KeyOf, MergeRelationships(base, relationships), |base|)
  {
    IndexOfIndexes(KeyOf, base);
    MergeFromKeeps(KeyOf, base, IndexOf(KeyOf, base), relationships, |base|);
  }

  ghost predicate HasKey(key: Key, s: seq<Candidate>, k: string) {
    exists i :: 0 <= i < |s| && key(s[i]) == k
  }

  lemma {:induction false} MergeFromLists(key: Key, out: seq<Candidate>, indexes: map<string, nat>,
                                          relationships: seq<Candidate>,
                                          c: Candidate)
    requires Indexed(key, out, indexes)
    requires c in relationships || HasKey(key, out, key(c))
    ensures HasKey(key, MergeFrom(key, out, indexes, relationships), key(c))
    decreases |relationships|
  {
    if relationships != [] {
      var d := relationships[0];
      var out', indexes', at;
      if key(d) in indexes {
        IndexedUpdate(key, out, indexes, d);
        at := indexes[key(d)];
        out', indexes' := out[at := d], indexes;
      } else {
        IndexedAppend(key, out, indexes, d);
        at := |out|;
        out', indexes' := out + [d], indexes[key(d) := at];
      }
      assert key(out'[at]) == key(d);
      if c !in relationships[1..] && c != d {
        var i :| 0 <= i < |out| && key(out[i]) == key(c);
        assert key(out'[i]) == key(c);
      }
      MergeFromLists(key, out', indexes', relationships[1..], c);
    }
  }

  /** No relationship is lost: its path is listed afterwards. */
  lemma MergeListsRelationships(base: seq<Candidate>, relationships: seq<Candidate>, c: Candidate)
    requires c in relationships
    ensures HasKey(KeyOf, MergeRelationships(base, relationships), FoldKey(c.path))
  {
    IndexOfIndexes(KeyOf, base);
    MergeFromLists(KeyOf, base, IndexOf(KeyOf, base), relationships, c);
  }

  // ---------------------------------------------------------------- the loss-safe merge

  /** The judgements of the scorer and of the source-path heuristics on a candidate. */
  datatype Judge = Judge(score: Candidate -> int, sourceLike: Candidate -> bool)

  predicate Preservable(c: Candidate, judge: Judge, rank: nat) {
    var path := ConsumptionPath(c);
    if path == "" || WeakNoise(c) || WeakPath(path) || !judge.sourceLike(c) then false
    else judge.score(c) >= 8 || (rank < 6 && judge.score(c) > 0)
  }

  /** The paths a pack is said to contain: normalised, but with their case kept. */
  function PathSet(pack: seq<Candidate>): set<string> {
    set c | c in pack && Normalize(c.path) != "" :: Normalize(c.path)
  }

  /** Whether a candidate of the given baseline rank is kept. */
  type Keep = (Candidate, nat) -> bool

  function KeepBy(judge: Judge): Keep {
    (c: Candidate, rank: nat) => Preservable(c, judge, rank)
  }

  function PreserveFrom(pathOf: Key, keep: Keep, out: seq<Candidate>, seen: set<string>, preserved: nat,
                        baseline: seq<Candidate>, i: nat)
    : seq<Candidate>
    decreases |baseline| - i
  {
    if i >= |baseline| || preserved >= MaxPreserved then out
    else
      var c := baseline[i];
      var path := pathOf(c);
      if path == "" || path in seen || !keep(c, i) then
        PreserveFrom(pathOf, keep, out, seen, preserved, baseline, i + 1)
      else PreserveFrom(pathOf, keep, out + [AsPreserved(c)], seen + {path}, preserved + 1, baseline, i + 1)
  }

  function MergeLossSafe(baseline: seq<Candidate>, recovered: seq<Candidate>, judge: Judge): seq<Candidate> {
    PreserveFrom(ConsumptionPath, KeepBy(judge), recovered, PathSet(recovered), 0, baseline, 0)
  }

  method MergeLossSafeCandidates(baseline: seq<Candidate>, recovered: seq<Candidate>, judge: Judge)
    returns (out: seq<Candidate>)
    ensures out == MergeLossSafe(baseline, recovered, judge)
  {
    out := recovered;
    var seen := set c | c in recovered && Normalize(c.path) != "" :: Normalize(c.path);
    var preserved: nat := 0;
    for i := 0 to |baseline|
      invariant PreserveFrom(ConsumptionPath, KeepBy(judge), out, seen, preserved, baseline, i)
                == MergeLossSafe(baseline, recovered, judge)
    {
      if preserved >= MaxPreserved {
        break;
      }
      var path := ConsumptionPath(baseline[i]);
      if path == "" || path in seen {
        continue;
      }
      if !Preservable(baseline[i], judge, i) {
        continue;
      }
      out := out + [AsPreserved(baseline[i])];
      seen := seen + {path};
      preserved := preserved + 1;
    }
  }

  /** A pack lists a path if some candidate spells it after normalisation or by its lower-cased path. */
  ghost predicate Lists(pack: seq<Candidate>, path: string) {
    exists d :: d in pack && (Normalize(d.path) == path || ConsumptionPath(d) == path)
  }

  lemma {:induction false} PreserveFromKeeps(pathOf: Key, keep: Keep, out: seq<Candidate>, seen: set<string>,
                                             preserved: nat,
                                             baseline: seq<Candidate>, i: nat)
    requires preserved <= MaxPreserved
    ensures out <= PreserveFrom(pathOf, keep, out, seen, preserved, baseline, i)
    ensures |PreserveFrom(pathOf, keep, out, seen, preserved, baseline, i)| <= |out| + MaxPreserved - preserved
    decreases |baseline| - i
  {
    if i >= |baseline| || preserved >= MaxPreserved {
    } else {
      var c := baseline[i];
      if pathOf(c) == "" || pathOf(c) in seen || !keep(c, i) {
        PreserveFromKeeps(pathOf, keep, out, seen, preserved, baseline, i + 1);
      } else {
        PreserveFromKeeps(pathOf, keep, out + [AsPreserved(c)], seen + {pathOf(c)}, preserved + 1, baseline, i + 1);
      }
    }
  }

  /** The kept candidate at index k was seen before the merge, is appended, or found no slot left. */
  lemma {:induction false} PreserveFromCovers(pathOf: Key, keep: Keep, out: seq<Candidate>, seen: set<string>,
                                              preserved: nat,
                                              baseline: seq<Candidate>, i: nat, k: nat)
    requires preserved <= MaxPreserved
    requires i <= k < |baseline| && keep(baseline[k], k) && pathOf(baseline[k]) != ""
    ensures var r := PreserveFrom(pathOf, keep, out, seen, preserved, baseline, i);
            || pathOf(baseline[k]) in seen
            || (exists j, d :: |out| <= j < |r| && d in baseline && pathOf(d) == pathOf(baseline[k])
                               && r[j] == AsPreserved(d))
            || |r| == |out| + MaxPreserved - preserved
    decreases |baseline| - i
  {
    if preserved < MaxPreserved {
      var c := baseline[i];
      var path := pathOf(c);
      if path == "" || path in seen || !keep(c, i) {
        if i != k {
          PreserveFromCovers(pathOf, keep, out, seen, preserved, baseline, i + 1, k);
        }
      } else {
        var out', seen' := out + [AsPreserved(c)], seen + {path};
        var r := PreserveFrom(pathOf, keep, out', seen', preserved + 1, baseline, i + 1);
        PreserveFromKeeps(pathOf, keep, out', seen', preserved + 1, baseline, i + 1);
        assert r[|out|] == out'[|out|] == AsPreserved(c);
        if i != k && path != pathOf(baseline[k]) {
          PreserveFromCovers(pathOf, keep, out', seen', preserved + 1, baseline, i + 1, k);
        }
      }
    }
  }

  lemma BaselineListed(baseline: seq<Candidate>, recovered: seq<Candidate>, judge: Judge, k: nat)
    requires k < |baseline| && Preservable(baseline[k], judge, k)
    ensures || Lists(MergeLossSafe(baseline, recovered, judge), ConsumptionPath(baseline[k]))
            || |MergeLossSafe(baseline, recovered, judge)| == |recovered| + MaxPreserved
  {
    var path := ConsumptionPath(baseline[k]);
    var out := MergeLossSafe(baseline, recovered, judge);
    PreserveFromKeeps(ConsumptionPath, KeepBy(judge), recovered, PathSet(recovered), 0, baseline, 0);
    PreserveFromCovers(ConsumptionPath, KeepBy(judge), recovered, PathSet(recovered), 0, baseline, 0, k);
    if path in PathSet(recovered) {
      var d :| d in recovered && Normalize(d.path) != "" && Normalize(d.path) == path;
      assert d in out;
    } else if |out| != |recovered| + MaxPreserved {
      var j, d :| |recovered| <= j < |out| && d in baseline && ConsumptionPath(d) == path && out[j] == AsPreserved(d);
      assert AsPreserved(d) in out && ConsumptionPath(AsPreserved(d)) == path;
    }
  }

  /** The merge leaves the recovered pack as it is, appends at most eight candidates, and leaves out a
      preservable baseline candidate only when its path is listed or all eight slots were used. */
  lemma LossSafeKeepsBaseline(baseline: seq<Candidate>, recovered: seq<Candidate>, judge: Judge)
    ensures recovered <= MergeLossSafe(baseline, recovered, judge)
    ensures |MergeLossSafe(baseline, recovered, judge)| <= |recovered| + 8
    ensures forall k :: 0 <= k < |baseline| && Preservable(baseline[k], judge, k) ==>
                          || Lists(MergeLossSafe(baseline, recovered, judge), ConsumptionPath(baseline[k]))
                          || |MergeLossSafe(baseline, recovered, judge)| == |recovered| + MaxPreserved
  {
    PreserveFromKeeps(ConsumptionPath, KeepBy(judge), recovered, PathSet(recovered), 0, baseline, 0);
    forall k | 0 <= k < |baseline| && Preservable(baseline[k], judge, k)
      ensures || Lists(MergeLossSafe(baseline, recovered, judge), ConsumptionPath(baseline[k]))
              || |MergeLossSafe(baseline, recovered, judge)| == |recovered| + MaxPreserved
    {
      BaselineListed(baseline, recovered, judge, k);
    }
  }

  /** From slot n on, every path is strong and new: not seen before and not that of another such slot. */
  ghost predicate NewPaths(pathOf: Key, weak: string -> bool, out: seq<Candidate>, n: nat, seen: set<string>) {
    && (forall i :: n <= i < |out| ==> pathOf(out[i]) != "" && pathOf(out[i]) !in seen && !weak(pathOf(out[i])))
    && (forall i, j :: n <= i < j < |out| ==> pathOf(out[i]) != pathOf(out[j]))
  }

  lemma {:induction false} PreserveFromNew(pathOf: Key, weak: string -> bool, keep: Keep, out: seq<Candidate>,
                                           seen: set<string>,
                                           preserved: nat, baseline: seq<Candidate>, i: nat)
    requires forall c :: pathOf(AsPreserved(c)) == pathOf(c)
    requires forall c, rank: nat :: keep(c, rank) ==> !weak(pathOf(c))
    requires preserved <= MaxPreserved
    ensures NewPaths(pathOf, weak, PreserveFrom(pathOf, keep, out, seen, preserved, baseline, i), |out|, seen)
    decreases |baseline| - i
  {
    if i < |baseline| && preserved < MaxPreserved {
      var c := baseline[i];
      if pathOf(c) == "" || pathOf(c) in seen || !keep(c, i) {
        PreserveFromNew(pathOf, weak, keep, out, seen, preserved, baseline, i + 1);
      } else {
        var out', seen' := out + [AsPreserved(c)], seen + {pathOf(c)};
        var r := PreserveFrom(pathOf, keep, out', seen', preserved + 1, baseline, i + 1);
        PreserveFromNew(pathOf, weak, keep, out', seen', preserved + 1, baseline, i + 1);
        PreserveFromKeeps(pathOf, keep, out', seen', preserved + 1, baseline, i + 1);
        assert r[|out|] == out'[|out|] == AsPreserved(c);
      }
    }
  }

  /** A slot is added only for a path outside the recovered pack's path set, and for each such path once. */
  lemma LossSafeAddsNewPaths(baseline: seq<Candidate>, recovered: seq<Candidate>, judge: Judge)
    ensures NewPaths(ConsumptionPath, WeakPath, MergeLossSafe(baseline, recovered, judge), |recovered|,
                     PathSet(recovered))
  {
    PreserveFromNew(ConsumptionPath, WeakPath, KeepBy(judge), recovered, PathSet(recovered), 0, baseline, 0);
  }

  lemma PreserveOne(pathOf: Key, keep: Keep, out: seq<Candidate>, c: Candidate, seen: set<string>)
    requires keep(c, 0) && pathOf(c) != ""
    ensures PreserveFrom(pathOf, keep, out, seen, 0, [c], 0)
         == if pathOf(c) in seen then out else out + [AsPreserved(c)]
  {
    assert PreserveFrom(pathOf, keep, out, seen, 0, [c], 1) == out;
    assert PreserveFrom(pathOf, keep, out + [AsPreserved(c)], seen + {pathOf(c)}, 1, [c], 1) == out + [AsPreserved(c)];
  }

  /** The merge looks a lower-cased path up among paths whose case was kept. Whatever the recovered pack
      holds, a lone preservable baseline candidate is appended exactly when its lower-cased path is not the
      case-keeping path of a recovered one, be it recovered already or not. */
  lemma LossSafeRepeats(c: Candidate, recovered: seq<Candidate>, judge: Judge)
    requires Preservable(c, judge, 0)
    ensures MergeLossSafe([c], recovered, judge)
            == if ConsumptionPath(c) in PathSet(recovered) then recovered else recovered + [AsPreserved(c)]
  {
    PreserveOne(ConsumptionPath, KeepBy(judge), recovered, c, PathSet(recovered));
  }

  /** No appended candidate has the lower-cased path of a recovered one. */
  ghost predicate NoRepeats(baseline: seq<Candidate>, recovered: seq<Candidate>, judge: Judge) {
    var out := MergeLossSafe(baseline, recovered, judge);
    forall i, d :: |recovered| <= i < |out| && d in recovered ==> ConsumptionPath(out[i]) != ConsumptionPath(d)
  }

  /** Every path of the pack that could be preserved is also spelt lower-case by some recovered candidate. */
  predicate SpeltLower(recovered: seq<Candidate>) {
    forall d :: d in recovered && ConsumptionPath(d) != "" && !WeakPath(ConsumptionPath(d)) ==>
                  ConsumptionPath(d) in PathSet(recovered)
  }

  lemma NewPathsDoNotRepeat(pathOf: Key, weak: string -> bool, out: seq<Candidate>, recovered: seq<Candidate>,
                            seen: set<string>)
    requires NewPaths(pathOf, weak, out, |recovered|, seen)
    requires forall d :: d in recovered && pathOf(d) != "" && !weak(pathOf(d)) ==> pathOf(d) in seen
    ensures forall i, d :: |recovered| <= i < |out| && d in recovered ==> pathOf(out[i]) != pathOf(d)
  {
  }

  lemma SpeltLowerNeverRepeats(baseline: seq<Candidate>, recovered: seq<Candidate>, judge: Judge)
    requires SpeltLower(recovered)
    ensures NoRepeats(baseline, recovered, judge)
  {
    LossSafeAddsNewPaths(baseline, recovered, judge);
    NewPathsDoNotRepeat(ConsumptionPath, WeakPath, MergeLossSafe(baseline, recovered, judge), recovered,
                        PathSet(recovered));
  }

  /** A candidate found by source alone, with a given lower-case path, and a judge that keeps it. */
  lemma RepeatAppears(recovered: seq<Candidate>, d: Candidate) returns (c: Candidate, judge: Judge)
    requires d in recovered && ConsumptionPath(d) != "" && !WeakPath(ConsumptionPath(d))
    requires ConsumptionPath(d) !in PathSet(recovered)
    ensures Preservable(c, judge, 0) && !NoRepeats([c], recovered, judge)
  {
    var path := ConsumptionPath(d);
    c := Candidate("", path, "", "", "", map[]);
    judge := Judge(_ => 8, _ => true);
    ToLowerTwice(if d.path == "" then d.source else d.path);
    assert ConsumptionPath(c) == path && ToLower(c.path) == "";
    NoPathNoNoise(c);
    LossSafeRepeats(c, recovered, judge);
    var out := MergeLossSafe([c], recovered, judge);
    assert out[|recovered|] == AsPreserved(c) && ConsumptionPath(AsPreserved(c)) == path;
  }

  lemma NoPathNoNoise(c: Candidate)
    requires c.path == ""
    ensures !WeakNoise(c)
  {
    assert ToLower("") == "";
  }

  /** The loss-safe merge never lists a recovered path again, for any baseline and any judgement, if and
      only if every preservable path of the recovered pack is there in lower case. */
  lemma NeverRepeatsExactly(recovered: seq<Candidate>)
    ensures (forall baseline, judge :: NoRepeats(baseline, recovered, judge)) <==> SpeltLower(recovered)
  {
    if SpeltLower(recovered) {
      forall baseline, judge ensures NoRepeats(baseline, recovered, judge) {
        SpeltLowerNeverRepeats(baseline, recovered, judge);
      }
    } else {
      RepeatsSomewhere(recovered);
    }
  }

  lemma RepeatsSomewhere(recovered: seq<Candidate>)
    requires !SpeltLower(recovered)
    ensures exists baseline, judge :: !NoRepeats(baseline, recovered, judge)
  {
    var d :| d in recovered && ConsumptionPath(d) != "" && !WeakPath(ConsumptionPath(d))
        && ConsumptionPath(d) !in PathSet(recovered);
    var c, judge := RepeatAppears(recovered, d);
    assert !NoRepeats([c], recovered, judge);
  }

  // ---------------------------------------------------------------- the chain

  /** What V1 is given besides V0: the companions found on disk, whether an index and its manifest rows
      are there, and what recovery and the relationship scout select. */
  datatype Additions =
    Additions(filesystem: seq<Candidate>, hasIndex: bool, hasRows: bool, recovered: seq<Candidate>,
              relationships: seq<Candidate>)

  /** The three scouts honour their limits. */
  predicate WithinLimits(a: Additions) {
    |a.filesystem| <= MaxAdditions && |a.recovered| <= MaxAdditions && |a.relationships| <= MaxAdditions
  }

  function V1(v0: seq<Candidate>, a: Additions): seq<Candidate> {
    if v0 == [] then v0
    else if !a.hasIndex || !a.hasRows then v0 + a.filesystem
    else MergeRelationships(v0 + a.filesystem + a.recovered, a.relationships)
  }

  function V2(v0: seq<Candidate>, a: Additions, baseline: seq<Candidate>, judge: Judge): seq<Candidate> {
    var v1 := V1(v0, a);
    if v1 == [] || baseline == [] then v1 else MergeLossSafe(baseline, v1, judge)
  }

  method BuildPack(matches: seq<Candidate>, all: seq<Candidate>, judge: Judge, hasTerms: bool, a: Additions,
                   baseline: seq<Candidate>)
    returns (out: seq<Candidate>)
    ensures out == V2(Consume(matches, all, judge.score, hasTerms), a, baseline, judge)
  {
    out := ApplyConsumption(matches, all, judge.score, hasTerms);
    if |out| != 0 {
      out := out + a.filesystem;
      if a.hasIndex && a.hasRows {
        out := out + a.recovered;
        out := MergeRelationshipCandidates(out, a.relationships);
      }
    }
    if |out| == 0 || |baseline| == 0 {
      return;
    }
    out := MergeLossSafeCandidates(baseline, out, judge);
  }

  lemma V1Keeps(v0: seq<Candidate>, a: Additions)
    requires WithinLimits(a)
    ensures |v0| <= |V1(v0, a)| <= |v0| + 3 * MaxAdditions
    ensures forall i :: 0 <= i < |v0| ==> KeyOf(V1(v0, a)[i]) == KeyOf(v0[i])
    ensures forall i :: 0 <= i < |v0| && V1(v0, a)[i] != v0[i] ==> V1(v0, a)[i] in a.relationships
  {
    if v0 != [] && a.hasIndex && a.hasRows {
      var base := v0 + a.filesystem + a.recovered;
      MergeRelationshipsKeeps(base, a.relationships);
      forall i | 0 <= i < |v0| ensures base[i] == v0[i] {}
    }
  }

  /** Nothing good is lost through V0, V1 and V2: every match that is not weak noise is still listed, at
      its own index and under its own folded path, and only a relationship candidate for the same path
      may stand in for it. The pack never grows by more than twenty beyond V0, which itself stays within
      the visible limit or the number of matches. */
  lemma NoLossThroughChain(matches: seq<Candidate>, all: seq<Candidate>, judge: Judge, hasTerms: bool, a: Additions,
                           baseline: seq<Candidate>)
    requires WithinLimits(a)
    ensures var out := V2(Consume(matches, all, judge.score, hasTerms), a, baseline, judge);
            && |matches| <= |out| <= (if |matches| > 8 then |matches| else 8) + 20
            && forall i :: 0 <= i < |matches| && !WeakNoise(matches[i]) ==>
                 && KeyOf(out[i]) == KeyOf(matches[i])
                 && (out[i] == matches[i] || out[i] in a.relationships)
  {
    var v0 := Consume(matches, all, judge.score, hasTerms);
    var v1 := V1(v0, a);
    ConsumeKeepsMatches(matches, all, judge.score, hasTerms);
    V1Keeps(v0, a);
    LossSafeKeepsBaseline(baseline, v1, judge);
    var out := V2(v0, a, baseline, judge);
    assert v1 <= out;
    forall i | 0 <= i < |matches| && !WeakNoise(matches[i])
      ensures KeyOf(out[i]) == KeyOf(matches[i]) && (out[i] == matches[i] || out[i] in a.relationships)
    {
      assert v0[i] == matches[i];
      assert out[i] == v1[i];
    }
  }

  /** V2 also answers for the default retrieval: a preservable baseline candidate is listed unless all
      eight loss-safe slots went to others or there was no pack to merge into. */
  lemma BaselineAnswered(v0: seq<Candidate>, a: Additions, baseline: seq<Candidate>, judge: Judge, k: nat)
    requires k < |baseline| && Preservable(baseline[k], judge, k) && V1(v0, a) != []
    ensures var out := V2(v0, a, baseline, judge);
            Lists(out, ConsumptionPath(baseline[k])) || |out| == |V1(v0, a)| + MaxPreserved
  {
    LossSafeKeepsBaseline(baseline, V1(v0, a), judge);
  }
}
