/** The unique most frequent value of a count table (compose.go uniqueModalValue). */
module Modal {
  import opened Sorting

  datatype ModalValue = NoValue | Unique(value: string) | Tie(winners: seq<string>)

  /** The keys with the highest count, when that count is positive. */
  function Maximal(counts: map<string, nat>): set<string> {
    set k | k in counts && counts[k] > 0 && forall j :: j in counts ==> counts[j] <= counts[k]
  }

  ghost function Elements(s: set<string>): (r: seq<string>)
    ensures multiset(r) == multiset(s) && |r| == |s|
  {
    if s == {} then []
    else
      var x :| x in s;
      assert s == s - {x} + {x};
      [x] + Elements(s - {x})
  }

  ghost function UniqueMode(counts: map<string, nat>): ModalValue {
    var winners := Sort(LexLe, Elements(Maximal(counts)));
    if |Maximal(counts)| > 1 then Tie(winners)
    else if winners == [] then NoValue
    else Unique(winners[0])
  }

  lemma LexNoTies(s: seq<string>)
    ensures NoTies(LexLe, s)
  {
    forall x, y | x in s && y in s && LexLe(x, y) && LexLe(y, x) ensures x == y {
      LexTotal(x, y);
    }
  }

  lemma SortedElements(winners: seq<string>, s: set<string>)
    requires multiset(winners) == multiset(s)
    ensures Sort(LexLe, winners) == Sort(LexLe, Elements(s)) && |Sort(LexLe, winners)| == |s|
  {
    SortPermutes(LexLe, Elements(s));
    LexLeTotalPreorder();
    LexNoTies(winners);
    SortIgnoresOrder(LexLe, winners, Elements(s));
  }

  lemma NewWinner(winners: multiset<string>, s: set<string>, x: string)
    requires winners == multiset(s) && x !in s
    ensures winners + multiset{x} == multiset(s + {x})
  {
  }

  ghost predicate TopOf(counts: map<string, nat>, seen: set<string>, winners: set<string>, top: nat) {
    && seen <= counts.Keys
    && (forall k :: k in seen ==> counts[k] <= top)
    && winners == (set k | k in seen && counts[k] > 0 && counts[k] == top)
    && (top > 0 ==> winners != {})
  }

  lemma TopStep(counts: map<string, nat>, rest: set<string>, winners: set<string>, top: nat, x: string)
    requires rest <= counts.Keys && x in rest && TopOf(counts, counts.Keys - rest, winners, top)
    ensures var seen := counts.Keys - (rest - {x});
            && (counts[x] > top ==> TopOf(counts, seen, {x}, counts[x]))
            && (counts[x] == top && top > 0 ==> x !in winners && TopOf(counts, seen, winners + {x}, top))
            && (counts[x] < top || top == 0 == counts[x] ==> TopOf(counts, seen, winners, top))
  {
    assert counts.Keys - (rest - {x}) == counts.Keys - rest + {x};
  }

  lemma TopIsMaximal(counts: map<string, nat>, winners: set<string>, top: nat)
    requires TopOf(counts, counts.Keys, winners, top)
    ensures winners == Maximal(counts)
  {
  }

  /** The keys are visited in no particular order. */
  method MostFrequent(counts: map<string, nat>) returns (winners: seq<string>)
    ensures multiset(winners) == multiset(Maximal(counts))
  {
    var maxCount := 0;
    winners := [];
    var rest := counts.Keys;
    ghost var top: set<string> := {};
    while rest != {}
      invariant rest <= counts.Keys && TopOf(counts, counts.Keys - rest, top, maxCount)
      invariant multiset(winners) == multiset(top)
      decreases |rest|
    {
      var value :| value in rest;
      TopStep(counts, rest, top, maxCount, value);
      rest := rest - {value};
      if counts[value] > maxCount {
        maxCount := counts[value];
        winners := [value];
        top := {value};
      } else if counts[value] == maxCount && counts[value] > 0 {
        NewWinner(multiset(winners), top, value);
        winners := winners + [value];
        top := top + {value};
      }
    }
    assert counts.Keys - rest == counts.Keys;
    TopIsMaximal(counts, top, maxCount);
  }

  /** The result does not depend on the order in which the keys are visited. */
  method UniqueModalValue(counts: map<string, nat>) returns (r: ModalValue)
    ensures r == UniqueMode(counts)
  {
    var winners := MostFrequent(counts);
    SortedElements(winners, Maximal(counts));
    winners := Sort(LexLe, winners);
    if |winners| > 1 {
      return Tie(winners);
    }
    if |winners| == 0 {
      return NoValue;
    }
    r := Unique(winners[0]);
  }

  lemma UniqueOfMaximal(counts: map<string, nat>, k: string)
    ensures UniqueMode(counts) == Unique(k) <==> Maximal(counts) == {k}
  {
    var top := Maximal(counts);
    var winners := Sort(LexLe, Elements(top));
    SortPermutes(LexLe, Elements(top));
    assert multiset(winners) == multiset(top) && |winners| == |top|;
    if |top| == 1 {
      var w := winners[0];
      assert w in multiset(winners) && w in top;
      assert |top - {w}| == 0 && top == {w} + (top - {w});
    } else {
      assert top != {k};
    }
  }

  /** One value is returned exactly when its count is positive and beats every other. */
  lemma UniqueModeIs(counts: map<string, nat>, k: string)
    ensures UniqueMode(counts) == Unique(k)
       <==> k in counts && counts[k] > 0 && forall j :: j in counts && j != k ==> counts[j] < counts[k]
  {
    UniqueOfMaximal(counts, k);
    var top := Maximal(counts);
    if top == {k} {
      assert k in top;
      forall j | j in counts && j != k ensures counts[j] < counts[k] {
        assert j !in top;
        SomeAbove(counts, j, k);
      }
    }
    if k in counts && counts[k] > 0 && forall j :: j in counts && j != k ==> counts[j] < counts[k] {
      OnlyMaximal(counts, k);
    }
  }

  lemma OnlyMaximal(counts: map<string, nat>, k: string)
    requires k in counts && counts[k] > 0 && forall j :: j in counts && j != k ==> counts[j] < counts[k]
    ensures Maximal(counts) == {k}
  {
    assert k in Maximal(counts) && forall j :: j in Maximal(counts) ==> j == k;
  }

  lemma SomeAbove(counts: map<string, nat>, j: string, k: string)
    requires j in counts && j !in Maximal(counts) && k in Maximal(counts)
    ensures counts[j] < counts[k]
  {
  }

  /** A tie lists exactly the values with the highest count, in order and once each. */
  lemma TieLists(counts: map<string, nat>)
    requires UniqueMode(counts).Tie?
    ensures var w := UniqueMode(counts).winners;
            && SortedBy(LexLe, w) && multiset(w) == multiset(Maximal(counts)) && |w| > 1
  {
    LexLeTotalPreorder();
    SortSorts(LexLe, Elements(Maximal(counts)));
    SortPermutes(LexLe, Elements(Maximal(counts)));
  }

  lemma NoValueIs(counts: map<string, nat>)
    requires exists k :: k in counts && counts[k] > 0
    ensures !UniqueMode(counts).NoValue?
  {
    var k :| k in counts && counts[k] > 0;
    SomeMaximal(counts, counts.Keys, k);
    SortPermutes(LexLe, Elements(Maximal(counts)));
  }

  lemma {:induction false} SomeMaximal(counts: map<string, nat>, keys: set<string>, k: string)
    requires keys <= counts.Keys && k in counts && counts[k] > 0
    requires forall j :: j in counts && j !in keys ==> counts[j] <= counts[k]
    ensures Maximal(counts) != {}
    decreases |keys|
  {
    if j :| j in keys && counts[j] > counts[k] {
      SomeMaximal(counts, keys - {j}, j);
    } else {
      assert k in Maximal(counts);
    }
  }
}
