/** Conservation laws of the evaluation counters. */
module ConfusionLaws {
  // With exactly when the confusion list is faithful.

  import opened Sorting
  import opened Modal
  import opened Confusions

  // ---------------------------------------------------------------- sums and counts

  function SumOver<T>(f: T -> nat, s: seq<T>): nat {
    if s == [] then 0 else f(s[0]) + SumOver(f, s[1..])
  }

  function CountIf(p: Case -> bool, cases: seq<Case>): nat {
    if cases == [] then 0 else CountIf(p, cases[..|cases| - 1]) + One(p(cases[|cases| - 1]))
  }

  lemma {:induction false} SumWithout<T>(f: T -> nat, s: seq<T>, i: nat)
    requires i < |s|
    ensures SumOver(f, s) == SumOver(f, s[..i] + s[i + 1..]) + f(s[i])
  {
    var rest := s[..i] + s[i + 1..];
    if i == 0 {
      assert rest == s[1..];
    } else {
      SumWithout(f, s[1..], i - 1);
      assert rest[1..] == s[1..][..i - 1] + s[1..][i..];
    }
  }

  lemma {:induction false} SumPermuted<T>(f: T -> nat, a: seq<T>, b: seq<T>)
    requires multiset(a) == multiset(b)
    ensures SumOver(f, a) == SumOver(f, b)
  {
    if a == [] {
      assert |multiset(b)| == 0;
    } else {
      assert a == [a[0]] + a[1..];
      assert a[0] in multiset(b);
      var i :| 0 <= i < |b| && b[i] == a[0];
      RemoveAt(b, i);
      assert multiset(a[1..]) == multiset(a) - multiset{a[0]};
      assert multiset(b[..i] + b[i + 1..]) == multiset(b) - multiset{a[0]};
      SumPermuted(f, a[1..], b[..i] + b[i + 1..]);
      SumWithout(f, b, i);
    }
  }

  lemma {:induction false} SumOfMap<A, B>(f: B -> nat, g: A -> B, h: A -> nat, s: seq<A>)
    requires forall a :: a in s ==> h(a) == f(g(a))
    ensures SumOver(f, Map(g, s)) == SumOver(h, s)
  {
    if s != [] {
      assert s[0] in s && forall a :: a in s[1..] ==> a in s;
      SumOfMap(f, g, h, s[1..]);
      assert Map(g, s)[1..] == Map(g, s[1..]);
    }
  }

  lemma {:induction false} SumBump(f: string -> nat, g: string -> nat, x: string, bumped: bool, s: seq<string>)
    requires forall k :: k in s ==> g(k) == f(k) + One(k == x && bumped)
    ensures SumOver(g, s) == SumOver(f, s) + if bumped then multiset(s)[x] else 0
  {
    if s != [] {
      assert s == [s[0]] + s[1..];
      assert s[0] in s && forall k :: k in s[1..] ==> k in s;
      SumBump(f, g, x, bumped, s[1..]);
      assert multiset(s)[x] == multiset(s[1..])[x] + if s[0] == x then 1 else 0;
    }
  }

  lemma {:induction false} SumZero(f: string -> nat, s: seq<string>)
    requires forall k :: k in s ==> f(k) == 0
    ensures SumOver(f, s) == 0
  {
    if s != [] {
      assert s[0] in s && forall k :: k in s[1..] ==> k in s;
      SumZero(f, s[1..]);
    }
  }

  /** How many selected cases have each key. */
  ghost function Counting(select: Case -> bool, key: Case -> string, cases: seq<Case>): string -> nat {
    k => CountIf(c => select(c) && key(c) == k, cases)
  }

  lemma CountingStep(select: Case -> bool, key: Case -> string, cases: seq<Case>, k: string)
    requires cases != []
    ensures Counting(select, key, cases)(k)
         == Counting(select, key, cases[..|cases| - 1])(k)
            + One(k == key(cases[|cases| - 1]) && select(cases[|cases| - 1]))
  {
  }

  /** Counting the selected cases key by key counts each of them once. */
  lemma {:induction false} SumOfCounts(select: Case -> bool, key: Case -> string, keys: seq<string>,
                                       all: set<string>, cases: seq<Case>)
    requires multiset(keys) == multiset(all) && forall c :: c in cases && select(c) ==> key(c) in all
    ensures SumOver(Counting(select, key, cases), keys) == CountIf(select, cases)
  {
    if cases == [] {
      SumZero(Counting(select, key, cases), keys);
    } else {
      var n := |cases| - 1;
      var c := cases[n];
      SumOfCounts(select, key, keys, all, cases[..n]);
      forall k ensures Counting(select, key, cases)(k)
                    == Counting(select, key, cases[..n])(k) + One(k == key(c) && select(c)) {
        CountingStep(select, key, cases, k);
      }
      SumBump(Counting(select, key, cases[..n]), Counting(select, key, cases), key(c), select(c), keys);
      assert c in cases;
      assert multiset(keys)[key(c)] == if key(c) in all then 1 else 0;
    }
  }

  lemma {:induction false} CountIfSame(p: Case -> bool, q: Case -> bool, cases: seq<Case>)
    requires forall c :: c in cases ==> p(c) == q(c)
    ensures CountIf(p, cases) == CountIf(q, cases)
  {
    if cases != [] {
      assert cases[|cases| - 1] in cases;
      CountIfSame(p, q, cases[..|cases| - 1]);
    }
  }

  // ---------------------------------------------------------------- per model

  /** A model's expected cases are its true positives and false negatives, its predicted cases its true and
      false positives. */
  lemma {:induction false} TallyConserves(cases: seq<Case>, m: string)
    ensures var t := TallyOf(cases, m); t.expected == t.truePos + t.falseNeg && t.predicted == t.truePos + t.falsePos
  {
    if cases != [] {
      TallyConserves(cases[..|cases| - 1], m);
    }
  }

  lemma {:induction false} TallyCounts(cases: seq<Case>, m: string)
    ensures var t := TallyOf(cases, m);
            && t.truePos == CountIf(c => Right(c) && c.expected == m, cases)
            && t.falseNeg == CountIf(c => Wrong(c) && c.expected == m, cases)
            && t.falsePos == CountIf(c => Wrong(c) && c.actual == m, cases)
  {
    if cases != [] {
      TallyCounts(cases[..|cases| - 1], m);
    }
  }

  // ---------------------------------------------------------------- keys

  lemma {:induction false} KeyCountsCount(cases: seq<Case>, k: string)
    ensures CountOf(KeyCounts(cases), k) == CountIf(c => Wrong(c) && Key(c) == k, cases)
  {
    if cases != [] {
      KeyCountsCount(cases[..|cases| - 1], k);
    }
  }

  lemma {:induction false} KeyCounted(cases: seq<Case>, c: Case)
    requires c in cases && Wrong(c)
    ensures Key(c) in KeyCounts(cases)
  {
    var n := |cases| - 1;
    if c != cases[n] {
      assert c in cases[..n];
      KeyCounted(cases[..n], c);
    }
  }

  lemma {:induction false} BeforeFree(key: string)
    ensures '\0' !in Before(key)
  {
    if key != "" && key[0] != '\0' {
      BeforeFree(key[1..]);
    }
  }

  /** A key splits back into its two parts when the first is free of NUL. */
  lemma {:induction false} KeySplits(expected: string, actual: string)
    requires '\0' !in expected
    ensures Before(expected + ("\0" + actual)) == expected && After(expected + ("\0" + actual)) == actual
  {
    var key := expected + ("\0" + actual);
    if expected == "" {
      assert key == "\0" + actual && key[1..] == actual;
    } else {
      assert expected[0] in expected && forall c :: c in expected[1..] ==> c in expected;
      assert key[1..] == expected[1..] + ("\0" + actual);
      KeySplits(expected[1..], actual);
    }
  }

  // ---------------------------------------------------------------- the confusion list

  /** The sum of the counts of the entries about such a pair of models. */
  function Total(p: (string, string) -> bool, out: seq<Confusion>): nat {
    SumOver(Weighing(p), out)
  }

  function Expecting(m: string): (string, string) -> bool {
    (e, a) => e == m
  }

  function Giving(m: string): (string, string) -> bool {
    (e, a) => a == m
  }

  function Weighing(p: (string, string) -> bool): Confusion -> nat {
    (e: Confusion) => Weight(p, e)
  }

  function Weight(p: (string, string) -> bool, e: Confusion): nat {
    if p(e.expected, e.actual) then e.count else 0
  }

  function Selected(p: (string, string) -> bool): Case -> bool {
    c => Wrong(c) && p(Before(Key(c)), After(Key(c)))
  }

  lemma SelectedCount(p: (string, string) -> bool, cases: seq<Case>, k: string)
    ensures Counting(Selected(p), Key, cases)(k) == if p(Before(k), After(k)) then CountOf(KeyCounts(cases), k) else 0
  {
    KeyCountsCount(cases, k);
    if p(Before(k), After(k)) {
      CountIfSame(c => Selected(p)(c) && Key(c) == k, c => Wrong(c) && Key(c) == k, cases);
    } else {
      CountIfNone(c => Selected(p)(c) && Key(c) == k, cases);
    }
  }

  lemma {:induction false} CountIfNone(p: Case -> bool, cases: seq<Case>)
    requires forall c :: c in cases ==> !p(c)
    ensures CountIf(p, cases) == 0
  {
    if cases != [] {
      assert cases[|cases| - 1] in cases;
      CountIfNone(p, cases[..|cases| - 1]);
    }
  }

  /** For any kind of pair, the entries of that kind add up to the wrong cases whose key splits into it. */
  lemma ConfusionTotals(p: (string, string) -> bool, cases: seq<Case>)
    ensures Total(p, ConfusionsOf(cases)) == CountIf(Selected(p), cases)
  {
    var counts := KeyCounts(cases);
    var keys := Elements(counts.Keys);
    var entries := Map(Entering(counts), keys);
    SortPermutes(ConfusionLe, entries);
    SumPermuted(Weighing(p), ConfusionsOf(cases), entries);
    var counting := Counting(Selected(p), Key, cases);
    forall k ensures counting(k) == Weighing(p)(Entering(counts)(k)) {
      SelectedCount(p, cases, k);
    }
    SumOfMap(Weighing(p), Entering(counts), counting, keys);
    forall c | c in cases && Selected(p)(c) ensures Key(c) in counts.Keys {
      KeyCounted(cases, c);
    }
    SumOfCounts(Selected(p), Key, keys, counts.Keys, cases);
  }

  function ExpectedModel(c: Case): string {
    c.expected
  }

  function TruePositives(): Summary -> nat {
    (s: Summary) => s.tally.truePos
  }

  lemma TruePositiveCount(cases: seq<Case>, m: string)
    ensures Counting(Right, ExpectedModel, cases)(m) == TallyOf(cases, m).truePos
  {
    TallyCounts(cases, m);
    CountIfSame(c => Right(c) && ExpectedModel(c) == m, c => Right(c) && c.expected == m, cases);
  }

  lemma TruePositiveTotals(cases: seq<Case>)
    ensures SumOver(TruePositives(), SummariesOf(cases)) == CountIf(Right, cases)
  {
    var all := Mentioned(cases);
    var models := Sort(LexLe, Elements(all));
    SortPermutes(LexLe, Elements(all));
    assert multiset(models) == multiset(all);
    var counting := Counting(Right, ExpectedModel, cases);
    var summarizing := Summarizing(Tallies(cases));
    forall m ensures counting(m) == TruePositives()(summarizing(m)) {
      TruePositiveCount(cases, m);
      assert summarizing(m) == SummaryOf(m, TallyOf(cases, m));
    }
    SumOfMap(TruePositives(), summarizing, counting, models);
    SumOfCounts(Right, ExpectedModel, models, all, cases);
  }

  lemma {:induction false} RightOrWrong(cases: seq<Case>)
    ensures CountIf(Right, cases) + CountIf(Wrong, cases) == |cases|
  {
    if cases != [] {
      RightOrWrong(cases[..|cases| - 1]);
    }
  }

  /** All true positives and all confusions together are all the cases. */
  lemma EveryCaseCounted(cases: seq<Case>)
    ensures SumOver(TruePositives(), SummariesOf(cases)) + Total((e, a) => true, ConfusionsOf(cases)) == |cases|
  {
    TruePositiveTotals(cases);
    ConfusionTotals((e, a) => true, cases);
    CountIfSame(Selected((e, a) => true), Wrong, cases);
    RightOrWrong(cases);
  }

  /** No wrong case expects a model whose id holds a NUL. */
  predicate NulFree(cases: seq<Case>) {
    forall c :: c in cases && Wrong(c) ==> '\0' !in c.expected
  }

  /** With such ids a model's false negatives are the confusions that expect it, and its false positives the
      confusions that give it. */
  lemma ErrorsAreConfusions(cases: seq<Case>, m: string)
    requires NulFree(cases)
    ensures TallyOf(cases, m).falseNeg == Total(Expecting(m), ConfusionsOf(cases))
    ensures TallyOf(cases, m).falsePos == Total(Giving(m), ConfusionsOf(cases))
  {
    TallyCounts(cases, m);
    ConfusionTotals(Expecting(m), cases);
    ConfusionTotals(Giving(m), cases);
    forall c | c in cases && Wrong(c) ensures Before(Key(c)) == c.expected && After(Key(c)) == c.actual {
      KeySplits(c.expected, c.actual);
    }
    CountIfSame(c => Wrong(c) && c.expected == m, Selected(Expecting(m)), cases);
    CountIfSame(c => Wrong(c) && c.actual == m, Selected(Giving(m)), cases);
  }

  lemma {:induction false} CountIfSome(p: Case -> bool, cases: seq<Case>, c: Case)
    requires c in cases && p(c)
    ensures CountIf(p, cases) > 0
  {
    var n := |cases| - 1;
    if c != cases[n] {
      assert c in cases[..n];
      CountIfSome(p, cases[..n], c);
    }
  }

  /** The list accounts for every model's false negatives if and only if no wrong case expects a model whose
      id holds a NUL. */
  lemma FaithfulExactly(cases: seq<Case>)
    ensures (forall m :: TallyOf(cases, m).falseNeg == Total(Expecting(m), ConfusionsOf(cases))) <==> NulFree(cases)
  {
    if NulFree(cases) {
      forall m ensures TallyOf(cases, m).falseNeg == Total(Expecting(m), ConfusionsOf(cases)) {
        ErrorsAreConfusions(cases, m);
      }
    } else {
      var c :| c in cases && Wrong(c) && '\0' in c.expected;
      var m := c.expected;
      TallyCounts(cases, m);
      CountIfSome(c => Wrong(c) && c.expected == m, cases, c);
      ConfusionTotals(Expecting(m), cases);
      forall d | d in cases ensures !Selected(Expecting(m))(d) {
        BeforeFree(Key(d));
      }
      CountIfNone(Selected(Expecting(m)), cases);
      assert TallyOf(cases, m).falseNeg != Total(Expecting(m), ConfusionsOf(cases));
    }
  }
  // ---------------------------------------------------------------- the same for the models given

  function Length(m: string): nat {
    |m|
  }

  function Second(c: Case): string {
    After(Key(c))
  }

  function ActualModel(c: Case): string {
    c.actual
  }

  /** What the wrong cases say, in order. */
  function Given(says: Case -> string, cases: seq<Case>): seq<string> {
    if cases == [] then []
    else
      var n := |cases| - 1;
      Given(says, cases[..n]) + if Wrong(cases[n]) then [says(cases[n])] else []
  }

  function Saying(says: Case -> string, m: string): Case -> bool {
    c => Wrong(c) && says(c) == m
  }

  lemma {:induction false} GivenCounts(says: Case -> string, cases: seq<Case>, m: string)
    ensures multiset(Given(says, cases))[m] == CountIf(Saying(says, m), cases)
  {
    if cases != [] {
      GivenCounts(says, cases[..|cases| - 1], m);
    }
  }

  lemma SumAppend(f: string -> nat, s: seq<string>, x: string)
    ensures SumOver(f, s + [x]) == SumOver(f, s) + f(x)
  {
    SumWithout(f, s + [x], |s|);
    assert (s + [x])[..|s|] + (s + [x])[|s| + 1..] == s;
  }

  lemma GivenLength(says: Case -> string, cases: seq<Case>, n: nat)
    requires |cases| == n + 1
    ensures SumOver(Length, Given(says, cases))
            == SumOver(Length, Given(says, cases[..n])) + if Wrong(cases[n]) then |says(cases[n])| else 0
  {
    if Wrong(cases[n]) {
      SumAppend(Length, Given(says, cases[..n]), says(cases[n]));
    } else {
      assert Given(says, cases[..n]) + [] == Given(says, cases[..n]);
    }
  }

  /** A NUL in the first part of a key moves the rest of that part in front of the second. */
  lemma {:induction false} AfterLonger(expected: string, actual: string)
    ensures |After(expected + ("\0" + actual))| >= |actual|
    ensures '\0' in expected ==> |After(expected + ("\0" + actual))| > |actual|
  {
    var key := expected + ("\0" + actual);
    if expected == "" {
      assert key == "\0" + actual && key[1..] == actual;
    } else {
      assert key[1..] == expected[1..] + ("\0" + actual);
      AfterLonger(expected[1..], actual);
      assert expected == [expected[0]] + expected[1..];
    }
  }

  lemma {:induction false} GivenLonger(cases: seq<Case>)
    ensures SumOver(Length, Given(Second, cases)) >= SumOver(Length, Given(ActualModel, cases))
    ensures !NulFree(cases) ==> SumOver(Length, Given(Second, cases)) > SumOver(Length, Given(ActualModel, cases))
  {
    if cases != [] {
      var n := |cases| - 1;
      GivenLonger(cases[..n]);
      GivenLength(Second, cases, n);
      GivenLength(ActualModel, cases, n);
      AfterLonger(cases[n].expected, cases[n].actual);
      NulFreeStep(cases, n);
    }
  }

  lemma NulFreeStep(cases: seq<Case>, n: nat)
    requires |cases| == n + 1
    ensures NulFree(cases) <==> NulFree(cases[..n]) && (Wrong(cases[n]) ==> '\0' !in cases[n].expected)
  {
    assert cases == cases[..n] + [cases[n]];
  }

  lemma FalsePositivesGiven(cases: seq<Case>, m: string)
    ensures TallyOf(cases, m).falsePos == multiset(Given(ActualModel, cases))[m]
  {
    TallyCounts(cases, m);
    GivenCounts(ActualModel, cases, m);
    forall c ensures Saying(ActualModel, m)(c) == (Wrong(c) && c.actual == m) {
      assert ActualModel(c) == c.actual;
    }
    CountIfSame(Saying(ActualModel, m), c => Wrong(c) && c.actual == m, cases);
  }

  lemma ConfusionsGiven(cases: seq<Case>, m: string)
    ensures Total(Giving(m), ConfusionsOf(cases)) == multiset(Given(Second, cases))[m]
  {
    ConfusionTotals(Giving(m), cases);
    GivenCounts(Second, cases, m);
    forall c ensures Saying(Second, m)(c) == Selected(Giving(m))(c) {
      assert Second(c) == After(Key(c));
      assert Giving(m)(Before(Key(c)), After(Key(c))) == (After(Key(c)) == m);
    }
    CountIfSame(Saying(Second, m), Selected(Giving(m)), cases);
  }

  ghost predicate PositivesAccounted(cases: seq<Case>) {
    forall m :: TallyOf(cases, m).falsePos == Total(Giving(m), ConfusionsOf(cases))
  }

  lemma AccountedGiven(cases: seq<Case>)
    requires PositivesAccounted(cases)
    ensures multiset(Given(ActualModel, cases)) == multiset(Given(Second, cases))
  {
    forall m ensures multiset(Given(ActualModel, cases))[m] == multiset(Given(Second, cases))[m] {
      FalsePositivesGiven(cases, m);
      ConfusionsGiven(cases, m);
    }
  }

  /** The list accounts for every model's false positives under the same condition, and no weaker one: a NUL
      in an expected id makes the second part of some key longer than the model given, and never shorter. */
  lemma FaithfulGivenExactly(cases: seq<Case>)
    ensures PositivesAccounted(cases) <==> NulFree(cases)
  {
    if NulFree(cases) {
      forall m ensures TallyOf(cases, m).falsePos == Total(Giving(m), ConfusionsOf(cases)) {
        ErrorsAreConfusions(cases, m);
      }
    }
    if PositivesAccounted(cases) {
      AccountedGiven(cases);
      SumPermuted(Length, Given(ActualModel, cases), Given(Second, cases));
      GivenLonger(cases);
    }
  }

  // ---------------------------------------------------------------- what the two lists say

  lemma {:induction false} TallyCountsBoth(cases: seq<Case>, m: string)
    ensures var t := TallyOf(cases, m);
            && t.expected == CountIf((c: Case) => c.expected == m, cases)
            && t.predicted == CountIf((c: Case) => c.actual == m, cases)
            && t.truePos == CountIf((c: Case) => c.expected == m && c.actual == m, cases)
  {
    if cases != [] {
      TallyCountsBoth(cases[..|cases| - 1], m);
    }
  }

  /** Of a whole, the part it is the ratio of. */
  ghost predicate RatioOf(r: real, part: nat, whole: nat) {
    0.0 <= r <= 1.0 && if whole == 0 then r == 0.0 else r * whole as real == part as real
  }

  lemma RatioIs(part: nat, whole: nat)
    requires part <= whole
    ensures RatioOf(Ratio(part, whole), part, whole)
  {
    if whole > 0 {
      var r := part as real / whole as real;
      assert r * whole as real == part as real;
    }
  }

  /** A summary counts the cases that expect its model, that are given it, and both; precision is the right part
      of those given it, recall that of those that expect it, and both are zero when there are none. */
  lemma SummaryExactly(cases: seq<Case>, s: Summary)
    requires s in SummariesOf(cases)
    ensures s.tally.expected == CountIf((c: Case) => c.expected == s.model, cases)
    ensures s.tally.predicted == CountIf((c: Case) => c.actual == s.model, cases)
    ensures s.tally.truePos == CountIf((c: Case) => c.expected == s.model && c.actual == s.model, cases)
    ensures RatioOf(s.precision, s.tally.truePos, s.tally.predicted)
    ensures RatioOf(s.recall, s.tally.truePos, s.tally.expected)
  {
    TallyCountsBoth(cases, s.model);
    TallyConserves(cases, s.model);
    RatioIs(s.tally.truePos, s.tally.predicted);
    RatioIs(s.tally.truePos, s.tally.expected);
  }

  /** The names of the models, in order. */
  ghost function Names(cases: seq<Case>): seq<string> {
    Sort(LexLe, Elements(Mentioned(cases)))
  }

  lemma SummaryNames(cases: seq<Case>)
    ensures |SummariesOf(cases)| == |Names(cases)|
    ensures forall i :: 0 <= i < |Names(cases)| ==> SummariesOf(cases)[i].model == Names(cases)[i]
  {
  }

  lemma NameMentioned(cases: seq<Case>, m: string)
    ensures m in Names(cases) <==> exists c :: c in cases && (c.expected == m || c.actual == m)
  {
    SortPermutes(LexLe, Elements(Mentioned(cases)));
    assert m in Names(cases) <==> m in multiset(Names(cases));
    assert m in multiset(Mentioned(cases)) <==> m in Mentioned(cases);
  }

  /** A model has a summary if and only if some case expects it or is given it. */
  lemma SummarizedExactly(cases: seq<Case>, m: string)
    ensures (exists s :: s in SummariesOf(cases) && s.model == m)
       <==> (exists c :: c in cases && (c.expected == m || c.actual == m))
  {
    SummaryNames(cases);
    NameMentioned(cases, m);
    if m in Names(cases) {
      var i :| 0 <= i < |Names(cases)| && Names(cases)[i] == m;
      assert SummariesOf(cases)[i] in SummariesOf(cases);
    }
    if s :| s in SummariesOf(cases) && s.model == m {
      var i :| 0 <= i < |SummariesOf(cases)| && SummariesOf(cases)[i] == s;
      assert Names(cases)[i] == m;
    }
  }

  /** The summaries stand by name, and no name stands twice. */
  lemma SummariesInOrder(cases: seq<Case>, i: nat, j: nat)
    requires i < j < |SummariesOf(cases)|
    ensures var a, b := SummariesOf(cases)[i].model, SummariesOf(cases)[j].model; a != b && LexLe(a, b)
  {
    var all, names := Mentioned(cases), Names(cases);
    LexLeTotalPreorder();
    SortSorts(LexLe, Elements(all));
    SortPermutes(LexLe, Elements(all));
    SummaryNames(cases);
    assert LexLe(names[i], names[j]) && multiset(all)[names[i]] <= 1;
    if names[i] == names[j] {
      OccursTwice(names, i, j);
    }
  }

  /** The confusions stand by falling count, then by the expected and the given model. */
  lemma ConfusionsInOrder(cases: seq<Case>, i: nat, j: nat)
    requires i < j < |ConfusionsOf(cases)|
    ensures var a, b := ConfusionsOf(cases)[i], ConfusionsOf(cases)[j];
            || a.count > b.count
            || (a.count == b.count && a.expected != b.expected && LexLe(a.expected, b.expected))
            || (a.count == b.count && a.expected == b.expected && LexLe(a.actual, b.actual))
  {
    ConfusionLeTotal();
    SortSorts(ConfusionLe, Map(Entering(KeyCounts(cases)), Elements(KeyCounts(cases).Keys)));
    assert ConfusionLe(ConfusionsOf(cases)[i], ConfusionsOf(cases)[j]);
  }
}
