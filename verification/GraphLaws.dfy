/** What graph admission admits, and in which order. */
module GraphLaws {
  // The gates and budgets in the terms of the ranking and the store (find_graph_diagnostics.go).

  import opened Options
  import opened Sorting
  import opened GraphAdmission

  // ---------------------------------------------------------------- what is admitted

  /** No ranked result is this artifact, by id or by path. */
  ghost predicate Unranked(w: World, target: Candidate) {
    forall c :: c in w.ranked ==>
      && c.id != target.id
      && (c.path != "" ==>
            w.normalize(c.path) != w.normalize(target.path) && w.normalize(c.path) != w.normalize(target.source))
      && (c.source != "" ==>
            w.normalize(c.source) != w.normalize(target.path) && w.normalize(c.source) != w.normalize(target.source))
  }

  /** The last artifact with its id. */
  ghost predicate LastOfID(all: seq<Candidate>, target: Candidate) {
    && target.id != ""
    && exists k :: 0 <= k < |all| && all[k] == target && forall m :: k < m < |all| ==> all[m].id != target.id
  }

  /** An edge from one of the first eight results to an artifact that may be attached: between an implementation
      and a behaviour test, of an admitting type and signal, with confidence enough, for a query that asks. */
  ghost predicate Attaches(w: World, pos: nat, e: Edge, target: Candidate) {
    && pos < |w.ranked| && pos < 8
    && var seed := w.ranked[pos];
       && seed.id != "" && seed.repoID != "" && w.anchored(seed, pos)
       && (e in w.leaving(seed.id) || e in w.entering(seed.id))
       && ((e.src == seed.id && target.id == e.dst) || (e.src != seed.id && e.dst == seed.id && target.id == e.src))
       && (e.edgeType == "tests_source" || (e.edgeType == "mentions_symbol" && e.sourceSignal == "test_symbol_match"))
       && e.confidence >= 0.75 && w.allowsSourceTest
       && LastOfID(w.all, target) && Unranked(w, target)
       && ((w.role(seed) == Implementation && w.role(target) == BehaviorTests)
           || (w.role(seed) == BehaviorTests && w.role(target) == Implementation))
  }

  lemma {:induction false} ByIDIsLast(all: seq<Candidate>, target: Candidate)
    ensures target.id != "" ==> (ByID(all, target.id) == Some(target) <==> LastOfID(all, target))
  {
    if all != [] {
      var n := |all| - 1;
      ByIDIsLast(all[..n], target);
      if target.id != "" {
        if all[n].id == target.id {
          if k :| 0 <= k < |all| && all[k] == target && forall m :: k < m < |all| ==> all[m].id != target.id {
            assert k == n;
          }
        } else {
          if k :| 0 <= k < |all| && all[k] == target && forall m :: k < m < |all| ==> all[m].id != target.id {
            assert all[..n][k] == target;
          }
          if k :| 0 <= k < n && all[..n][k] == target && forall m :: k < m < n ==> all[..n][m].id != target.id {
            assert forall m :: k < m < |all| ==> m == n || all[m] == all[..n][m];
          }
        }
      }
    }
  }

  lemma UnrankedExactly(w: World, target: Candidate)
    requires target.id != ""
    ensures Unranked(w, target) <==> !DirectID(w, target.id) && !Direct(w, target)
  {
  }

  lemma {:induction false} ByIDHasID(all: seq<Candidate>, id: string)
    ensures ByID(all, id).Some? ==> ByID(all, id).value.id == id && id != ""
  {
    if all != [] {
      ByIDHasID(all[..|all| - 1], id);
    }
  }

  lemma OtherEnd(e: Edge, seedID: string, id: string)
    requires id != ""
    ensures OtherArtifactID(e, seedID) == id
       <==> (e.src == seedID && id == e.dst) || (e.src != seedID && e.dst == seedID && id == e.src)
  {
  }

  lemma GatesExactly(w: World, seed: Candidate, e: Edge, target: Candidate)
    requires target.id != "" && OtherArtifactID(e, seed.id) == target.id && ByID(w.all, target.id) == Some(target)
    requires w.role(seed) == Implementation || w.role(seed) == BehaviorTests
    ensures PassesGates(w, seed, e)
       <==> && Unranked(w, target) && e.confidence >= 0.75 && w.allowsSourceTest
            && (e.edgeType == "tests_source"
                || (e.edgeType == "mentions_symbol" && e.sourceSignal == "test_symbol_match"))
            && ((w.role(seed) == Implementation && w.role(target) == BehaviorTests)
                || (w.role(seed) == BehaviorTests && w.role(target) == Implementation))
  {
    UnrankedExactly(w, target);
  }

  lemma AttachesExactly(w: World, pos: nat, e: Edge, target: Candidate)
    requires target.id != ""
    ensures Attaches(w, pos, e, target)
       <==> && pos < |Seeds(w)| && Eligible(w, pos) && e in SeedEdges(w, Seeds(w)[pos])
            && PassesGates(w, Seeds(w)[pos], e) && OtherArtifactID(e, Seeds(w)[pos].id) == target.id
            && ByID(w.all, target.id) == Some(target)
  {
    assert |Seeds(w)| == if |w.ranked| > 8 then 8 else |w.ranked|;
    if pos < |Seeds(w)| {
      var seed := w.ranked[pos];
      assert Seeds(w)[pos] == seed;
      SeedEdgesAll(w, seed, e);
      OtherEnd(e, seed.id, target.id);
      ByIDIsLast(w.all, target);
      if OtherArtifactID(e, seed.id) == target.id && ByID(w.all, target.id) == Some(target)
         && (w.role(seed) == Implementation || w.role(seed) == BehaviorTests) {
        GatesExactly(w, seed, e, target);
      }
    }
  }

  /** The candidates are at most six different artifacts, each attached by its edge, with its role. */
  lemma CandidatesAttach(w: World)
    ensures var candidates := Diagnose(w).candidates;
            && |candidates| <= 6 && |Diagnose(w).suppressed| <= 12
            && (forall a :: a in candidates ==> Attaches(w, a.seed, a.edge, a.target) && a.role == w.role(a.target))
            && (forall i, j :: 0 <= i < j < |candidates| ==> candidates[i].target.id != candidates[j].target.id)
  {
    AdmissionInvariants(w);
    var candidates := Diagnose(w).candidates;
    forall a | a in candidates ensures Attaches(w, a.seed, a.edge, a.target) && a.role == w.role(a.target) {
      assert Admissibles(w)(a);
      ByIDHasID(w.all, OtherArtifactID(a.edge, Seeds(w)[a.seed].id));
      AttachesExactly(w, a.seed, a.edge, a.target);
    }
    forall i, j | 0 <= i < j < |candidates| ensures candidates[i].target.id != candidates[j].target.id {
      if candidates[i].target.id == candidates[j].target.id {
        TargetedTwice(candidates, i, j);
      }
    }
  }

  lemma TargetedTwice(candidates: seq<Admitted>, i: nat, j: nat)
    requires i < j < |candidates| && candidates[i].target.id == candidates[j].target.id
    ensures Targeting(candidates, candidates[i].target.id) >= 2
  {
    var id := candidates[i].target.id;
    var p := (a: Admitted) => a.target.id == id;
    var a, b, c := candidates[..i + 1], candidates[i + 1..j + 1], candidates[j + 1..];
    assert candidates == a + b + c;
    FilterAppend(p, a + b, c);
    FilterAppend(p, a, b);
    FilterHas(p, a, i);
    FilterHas(p, b, j - i - 1);
  }

  lemma {:induction false} FilterHas(p: Admitted -> bool, s: seq<Admitted>, i: nat)
    requires i < |s| && p(s[i])
    ensures |Filter(p, s)| > 0
  {
    if i > 0 {
      FilterHas(p, s[1..], i - 1);
    }
  }

  // ---------------------------------------------------------------- in which order

  /** Edges of this seed that pass the gates, of the same type. */
  ghost predicate Alike(w: World, pos: nat, e: Edge, edgeType: string)
    requires pos < |Seeds(w)|
  {
    PassesGates(w, Seeds(w)[pos], e) && e.edgeType == edgeType
  }

  /** The candidate came over one of these edges, and the targets of all edges like it before are in. */
  ghost predicate InTurn(w: World, pos: nat, edges: seq<Edge>, p: Pass, a: Admitted)
    requires pos < |Seeds(w)|
  {
    exists m :: 0 <= m < |edges| && edges[m] == a.edge
      && forall j :: 0 <= j < m && Alike(w, pos, edges[j], a.edge.edgeType) ==>
                       OtherArtifactID(edges[j], Seeds(w)[pos].id) in p.seen
  }

  ghost predicate BestFirst(w: World, pos: nat, edges: seq<Edge>, p: Pass)
    requires pos < |Seeds(w)|
  {
    forall a :: a in p.diag.candidates && a.seed == pos ==> InTurn(w, pos, edges, p, a)
  }

  lemma InTurnStays(w: World, pos: nat, edges: seq<Edge>, more: seq<Edge>, p: Pass, p': Pass, a: Admitted)
    requires pos < |Seeds(w)| && InTurn(w, pos, edges, p, a) && p.seen <= p'.seen && edges <= more
    ensures InTurn(w, pos, more, p', a)
  {
    var m :| 0 <= m < |edges| && edges[m] == a.edge
      && forall j :: 0 <= j < m && Alike(w, pos, edges[j], a.edge.edgeType) ==>
                       OtherArtifactID(edges[j], Seeds(w)[pos].id) in p.seen;
    assert more[m] == a.edge;
  }

  /** One edge adds itself at most, and only when its type has budget left. */
  lemma EdgeAddsItself(w: World, pos: nat, p: Pass, e: Edge)
    requires pos < |Seeds(w)|
    ensures var p' := OneEdge(w, pos, Seeds(w)[pos], p, e);
            && Grows(p, p')
            && forall a :: a in p'.diag.candidates && a !in p.diag.candidates ==>
                             a.edge == e && a.seed == pos && Get(p.perType, e.edgeType) < 3
  {
    CarryGrows(w, pos, Seeds(w)[pos], p, e, Judge(w, Seeds(w)[pos], p.perType, p.seen, e));
  }

  lemma NewInTurn(w: World, pos: nat, edges: seq<Edge>, p: Pass, p': Pass, a: Admitted)
    requires pos < |Seeds(w)| && edges != [] && PerTypeOk(pos, p) && p.seen <= p'.seen
    requires var n := |edges| - 1; a.edge == edges[n] && Get(p.perType, a.edge.edgeType) < 3
    requires forall e :: e in edges[..|edges| - 1] ==> Handling(w, pos)(p, e)
    ensures InTurn(w, pos, edges, p', a)
  {
    var n := |edges| - 1;
    forall j | 0 <= j < n && Alike(w, pos, edges[j], a.edge.edgeType)
      ensures OtherArtifactID(edges[j], Seeds(w)[pos].id) in p'.seen
    {
      assert edges[j] in edges[..n] && Handling(w, pos)(p, edges[j]);
      assert Get(p.perType, a.edge.edgeType) == Outgoing(p.diag.candidates, pos, a.edge.edgeType);
    }
  }

  lemma {:induction false} OverEdgesInTurn(w: World, pos: nat, start: Pass, edges: seq<Edge>)
    requires pos < |Seeds(w)| && Eligible(w, pos) && Inv(Admissibles(w), pos, start)
    requires forall e :: e in edges ==> e in SeedEdges(w, Seeds(w)[pos])
    requires forall a :: a in start.diag.candidates ==> a.seed < pos
    ensures var p := OverEdges(Considering(w, pos, Seeds(w)[pos]), start, edges);
            && BestFirst(w, pos, edges, p) && Grows(start, p)
            && (forall a :: a in p.diag.candidates && a !in start.diag.candidates ==> a.seed == pos)
  {
    if edges != [] {
      var n := |edges| - 1;
      var step := Considering(w, pos, Seeds(w)[pos]);
      var p := OverEdges(step, start, edges[..n]);
      OverEdgesInTurn(w, pos, start, edges[..n]);
      OverEdgesKeeps(w, pos, start, edges[..n]);
      if Full(p.diag) {
        BestFirstOfMore(w, pos, edges, p);
      } else {
        EdgeAddsItself(w, pos, p, edges[n]);
        BestFirstNext(w, pos, edges, p, step(p, edges[n]));
      }
    }
  }

  lemma BestFirstOfMore(w: World, pos: nat, edges: seq<Edge>, p: Pass)
    requires pos < |Seeds(w)| && edges != [] && BestFirst(w, pos, edges[..|edges| - 1], p)
    ensures BestFirst(w, pos, edges, p)
  {
    forall a | a in p.diag.candidates && a.seed == pos ensures InTurn(w, pos, edges, p, a) {
      InTurnStays(w, pos, edges[..|edges| - 1], edges, p, p, a);
    }
  }

  lemma BestFirstNext(w: World, pos: nat, edges: seq<Edge>, p: Pass, p': Pass)
    requires pos < |Seeds(w)| && edges != [] && BestFirst(w, pos, edges[..|edges| - 1], p)
    requires PerTypeOk(pos, p) && p.seen <= p'.seen
    requires forall e :: e in edges[..|edges| - 1] ==> Handling(w, pos)(p, e)
    requires forall a :: a in p'.diag.candidates && a !in p.diag.candidates ==>
               a.edge == edges[|edges| - 1] && Get(p.perType, a.edge.edgeType) < 3
    ensures BestFirst(w, pos, edges, p')
  {
    forall a | a in p'.diag.candidates && a.seed == pos ensures InTurn(w, pos, edges, p', a) {
      if a in p.diag.candidates {
        InTurnStays(w, pos, edges[..|edges| - 1], edges, p, p', a);
      } else {
        NewInTurn(w, pos, edges, p, p', a);
      }
    }
  }

  /** Every candidate of these seeds is in turn among its seed's edges, and all seeds before its own are done. */
  ghost predicate Ordered(w: World, n: nat, p: Pass) {
    && n <= |Seeds(w)|
    && (forall pos: nat :: pos < n ==> BestFirst(w, pos, SeedEdges(w, Seeds(w)[pos]), p))
    && (forall a :: a in p.diag.candidates ==> a.seed < n && SeedsHandled(w, a.seed, p))
  }

  lemma SeedsHandledStay(w: World, n: nat, p: Pass, p': Pass)
    requires n <= |Seeds(w)| && SeedsHandled(w, n, p) && Grows(p, p')
    ensures SeedsHandled(w, n, p')
  {
    forall pos: nat | pos < n ensures SeedHandled(w, pos, p') {
      SeedHandledStays(w, pos, p, p');
    }
  }

  lemma BestFirstStays(w: World, pos: nat, p: Pass, p': Pass)
    requires pos < |Seeds(w)| && BestFirst(w, pos, SeedEdges(w, Seeds(w)[pos]), p) && p.seen <= p'.seen
    requires forall a :: a in p'.diag.candidates && a.seed == pos ==> a in p.diag.candidates
    ensures BestFirst(w, pos, SeedEdges(w, Seeds(w)[pos]), p')
  {
    var edges := SeedEdges(w, Seeds(w)[pos]);
    forall a | a in p'.diag.candidates && a.seed == pos ensures InTurn(w, pos, edges, p', a) {
      InTurnStays(w, pos, edges, edges, p, p', a);
    }
  }

  /** What one seed adds is its own and in turn. */
  lemma OneSeedInTurn(w: World, n: nat, p: Pass)
    requires n < |Seeds(w)| && SeedsInv(Admissibles(w), n, p)
    ensures var p' := OneSeed(w, n, Seeds(w)[n], p);
            && Grows(p, p') && BestFirst(w, n, SeedEdges(w, Seeds(w)[n]), p')
            && (forall a :: a in p'.diag.candidates && a !in p.diag.candidates ==> a.seed == n)
  {
    if Eligible(w, n) {
      StartSeed(Admissibles(w), n, p);
      OverEdgesInTurn(w, n, p.(perType := map[]), SeedEdges(w, Seeds(w)[n]));
    }
  }

  lemma OrderedNext(w: World, n: nat, p: Pass)
    requires n < |Seeds(w)| && SeedsInv(Admissibles(w), n, p) && SeedsHandled(w, n, p) && Ordered(w, n, p)
    ensures Ordered(w, n + 1, OneSeed(w, n, Seeds(w)[n], p))
  {
    var p' := OneSeed(w, n, Seeds(w)[n], p);
    OneSeedInTurn(w, n, p);
    forall pos: nat | pos < n ensures BestFirst(w, pos, SeedEdges(w, Seeds(w)[pos]), p') {
      BestFirstStays(w, pos, p, p');
    }
    forall a | a in p'.diag.candidates ensures a.seed < n + 1 && SeedsHandled(w, a.seed, p') {
      SeedsHandledStay(w, if a in p.diag.candidates then a.seed else n, p, p');
    }
  }

  lemma OrderedFull(w: World, n: nat, p: Pass)
    requires n < |Seeds(w)| && Ordered(w, n, p)
    ensures Ordered(w, n + 1, p)
  {
  }

  ghost function Orders(w: World): (nat, Pass) -> bool {
    (n: nat, p: Pass) => SeedsDone(w)(n, p) && Ordered(w, n, p)
  }

  lemma NextOrders(w: World, n: nat, p: Pass)
    requires n < |Seeds(w)| && Orders(w)(n, p)
    ensures Orders(w)(n + 1, if Full(p.diag) then p else Visiting(w)(n, p))
  {
    NextSeedDone(w, n, p);
    if Full(p.diag) {
      OrderedFull(w, n, p);
    } else {
      OrderedNext(w, n, p);
    }
  }

  lemma NothingOrdered(w: World)
    ensures Orders(w)(0, Pass(Diagnosis(map[], [], []), map[], {}))
  {
    var start := Pass(Diagnosis(map[], [], []), map[], {});
    NothingYet(Admissibles(w));
    assert SeedsHandled(w, 0, start);
    assert SeedsDone(w)(0, start);
    assert Ordered(w, 0, start);
  }

  lemma AllOrdered(w: World)
    ensures Orders(w)(|Seeds(w)|, OverSeeds(w, |Seeds(w)|))
  {
    var good := Orders(w);
    var start := Pass(Diagnosis(map[], [], []), map[], {});
    NothingOrdered(w);
    forall pos: nat, p | pos < |Seeds(w)| && good(pos, p)
      ensures good(pos + 1, if Full(p.diag) then p else Visiting(w)(pos, p))
    {
      NextOrders(w, pos, p);
    }
    VisitsKeep(Visiting(w), start, good, |Seeds(w)|, |Seeds(w)|);
  }

  // ---------------------------------------------------------------- the laws

  ghost predicate Listed(w: World, id: string) {
    exists a :: a in Diagnose(w).candidates && a.target.id == id
  }

  /** More confident, or as confident and weightier. */
  predicate Stronger(e: Edge, f: Edge) {
    e.confidence > f.confidence || (e.confidence == f.confidence && e.weight > f.weight)
  }

  lemma StrongerIsBefore(edges: seq<Edge>, i: nat, m: nat)
    requires i < |edges| && m < |edges| && SortedBy(EdgeLe, edges) && Stronger(edges[i], edges[m])
    ensures i < m
  {
    assert m < i ==> EdgeLe(edges[m], edges[i]);
  }

  lemma EdgeLeTotal()
    ensures TotalPreorder(EdgeLe)
  {
    forall a, b ensures EdgeLe(a, b) || EdgeLe(b, a) {
      LexTotal(a.edgeType, b.edgeType);
    }
    forall a, b, c | EdgeLe(a, b) && EdgeLe(b, c) ensures EdgeLe(a, c) {
      if a.confidence == b.confidence == c.confidence && a.weight == b.weight == c.weight {
        LexTransitive(a.edgeType, b.edgeType, c.edgeType);
      }
    }
  }

  lemma SeedEdgesSorted(w: World, seed: Candidate)
    ensures SortedBy(EdgeLe, SeedEdges(w, seed))
  {
    EdgeLeTotal();
    SortSorts(EdgeLe, w.leaving(seed.id) + w.entering(seed.id));
  }

  /** The strongest edges of a seed spend its budget: whatever was admitted over an edge of some type, the target
      of every stronger edge of that seed and type that attaches is a candidate too. */
  lemma StrongestEdgesFirst(w: World, a: Admitted, e: Edge, target: Candidate)
    requires a in Diagnose(w).candidates && Attaches(w, a.seed, e, target)
    requires e.edgeType == a.edge.edgeType && Stronger(e, a.edge)
    ensures Listed(w, target.id)
  {
    AttachesExactly(w, a.seed, e, target);
    FinallyOrdered(w, a);
    StrongerIsSeen(w, OverSeeds(w, |Seeds(w)|), a, e);
    SeenIsListed(w, target.id);
  }

  /** What is diagnosed was added, in turn and after better seeds. */
  lemma FinallyOrdered(w: World, a: Admitted)
    requires a in Diagnose(w).candidates
    ensures var p := OverSeeds(w, |Seeds(w)|);
            && a.seed < |Seeds(w)| && InTurn(w, a.seed, SeedEdges(w, Seeds(w)[a.seed]), p, a)
            && SeedsHandled(w, a.seed, p)
  {
    AllOrdered(w);
    DiagnosedWasAdded(w, a);
    OrdersMeans(w, OverSeeds(w, |Seeds(w)|), a);
  }

  lemma DiagnosedWasAdded(w: World, a: Admitted)
    requires a in Diagnose(w).candidates
    ensures a in OverSeeds(w, |Seeds(w)|).diag.candidates
  {
    SortedCandidates(OverSeeds(w, |Seeds(w)|).diag.candidates);
  }

  lemma OrdersMeans(w: World, p: Pass, a: Admitted)
    requires Orders(w)(|Seeds(w)|, p) && a in p.diag.candidates
    ensures a.seed < |Seeds(w)| && InTurn(w, a.seed, SeedEdges(w, Seeds(w)[a.seed]), p, a)
    ensures SeedsHandled(w, a.seed, p)
  {
    var n := |Seeds(w)|;
    assert Orders(w)(n, p);
    OrderedMeans(w, n, p, a);
  }

  lemma OrderedMeans(w: World, n: nat, p: Pass, a: Admitted)
    requires Ordered(w, n, p) && a in p.diag.candidates
    ensures a.seed < n && InTurn(w, a.seed, SeedEdges(w, Seeds(w)[a.seed]), p, a) && SeedsHandled(w, a.seed, p)
  {
    assert a.seed < n;
    assert BestFirst(w, a.seed, SeedEdges(w, Seeds(w)[a.seed]), p);
  }

  lemma StrongerIsSeen(w: World, p: Pass, a: Admitted, e: Edge)
    requires a.seed < |Seeds(w)| && InTurn(w, a.seed, SeedEdges(w, Seeds(w)[a.seed]), p, a)
    requires e in SeedEdges(w, Seeds(w)[a.seed]) && Stronger(e, a.edge) && Alike(w, a.seed, e, a.edge.edgeType)
    ensures OtherArtifactID(e, Seeds(w)[a.seed].id) in p.seen
  {
    var edges := SeedEdges(w, Seeds(w)[a.seed]);
    var m :| 0 <= m < |edges| && edges[m] == a.edge
      && forall j :: 0 <= j < m && Alike(w, a.seed, edges[j], a.edge.edgeType) ==>
                       OtherArtifactID(edges[j], Seeds(w)[a.seed].id) in p.seen;
    var i :| 0 <= i < |edges| && edges[i] == e;
    SeedEdgesSorted(w, Seeds(w)[a.seed]);
    StrongerIsBefore(edges, i, m);
  }

  lemma SeenIsListed(w: World, id: string)
    requires id in OverSeeds(w, |Seeds(w)|).seen
    ensures Listed(w, id)
  {
    var p := OverSeeds(w, |Seeds(w)|);
    OverSeedsKeeps(w, |Seeds(w)|);
    SortedCandidates(p.diag.candidates);
    var b :| b in p.diag.candidates && b.target.id == id;
    assert b in Diagnose(w).candidates;
  }

  lemma HandledIsListed(w: World, pos: nat, e: Edge, target: Candidate)
    requires Attaches(w, pos, e, target) && SeedHandled(w, pos, OverSeeds(w, |Seeds(w)|))
    ensures Listed(w, target.id) || Outgoing(Diagnose(w).candidates, pos, e.edgeType) == 3
  {
    var p := OverSeeds(w, |Seeds(w)|);
    AttachesExactly(w, pos, e, target);
    OverSeedsKeeps(w, |Seeds(w)|);
    SortedCandidates(p.diag.candidates);
    assert Handling(w, pos)(p, e);
    assert Outgoing(p.diag.candidates, pos, e.edgeType) <= 3;
    if target.id in p.seen {
      SeenIsListed(w, target.id);
    }
  }

  /** Better ranked results come first: before anything is admitted from a result, the target of every edge that
      attaches to a better one is a candidate, or that one has spent its three on the edge's type. */
  lemma BetterSeedsFirst(w: World, a: Admitted, pos: nat, e: Edge, target: Candidate)
    requires a in Diagnose(w).candidates && pos < a.seed && Attaches(w, pos, e, target)
    ensures Listed(w, target.id) || Outgoing(Diagnose(w).candidates, pos, e.edgeType) == 3
  {
    FinallyOrdered(w, a);
    assert SeedHandled(w, pos, OverSeeds(w, |Seeds(w)|));
    HandledIsListed(w, pos, e, target);
  }

  /** Nothing that attaches is lost: it is a candidate unless there are six, or three from its seed and type. */
  lemma NothingAttachingIsLost(w: World, pos: nat, e: Edge, target: Candidate)
    requires Attaches(w, pos, e, target)
    ensures var candidates := Diagnose(w).candidates;
            Listed(w, target.id) || |candidates| == 6 || Outgoing(candidates, pos, e.edgeType) == 3
  {
    var p := OverSeeds(w, |Seeds(w)|);
    OverSeedsKeeps(w, |Seeds(w)|);
    SortedCandidates(p.diag.candidates);
    AttachesExactly(w, pos, e, target);
    if |p.diag.candidates| < 6 {
      assert SeedHandled(w, pos, p);
      HandledIsListed(w, pos, e, target);
    }
  }

  /** The candidates are listed by falling confidence; those alike by edge type, then by path. */
  lemma CandidatesInOrder(w: World, i: nat, j: nat)
    requires i < j < |Diagnose(w).candidates|
    ensures var a, b := Diagnose(w).candidates[i], Diagnose(w).candidates[j];
            && a.edge.confidence >= b.edge.confidence
            && (a.edge.confidence == b.edge.confidence ==>
                  && LexLe(a.edge.edgeType, b.edge.edgeType)
                  && (a.edge.edgeType == b.edge.edgeType ==> LexLe(a.target.path, b.target.path)))
  {
    CandidatesAreSorted(w);
    var a, b := Diagnose(w).candidates[i], Diagnose(w).candidates[j];
    assert CandidateLe(a, b);
    LexTotal(a.edge.edgeType, a.edge.edgeType);
  }
  // ---------------------------------------------------------------- what is refused, and why

  /** An edge of a seed that is looked at, to an artifact that is there and not ranked. */
  ghost predicate Leads(w: World, pos: nat, e: Edge, target: Candidate) {
    && pos < |w.ranked| && pos < 8
    && var seed := w.ranked[pos];
       && seed.id != "" && seed.repoID != "" && w.anchored(seed, pos)
       && (w.role(seed) == Implementation || w.role(seed) == BehaviorTests)
       && (e in w.leaving(seed.id) || e in w.entering(seed.id))
       && ((e.src == seed.id && target.id == e.dst) || (e.src != seed.id && e.dst == seed.id && target.id == e.src))
       && LastOfID(w.all, target) && Unranked(w, target)
  }

  /** What the counter of a refusal says. */
  predicate Gate(w: World, seed: Candidate, e: Edge, target: Candidate, why: Counter) {
    match why
    case SupportOnly => SupportOnlyEdge(e)
    case UnknownEdge => !SupportOnlyEdge(e) && !Admitting(e)
    case LowConfidence => Admitting(e) && e.confidence < 0.75
    case QueryIntent => Admitting(e) && e.confidence >= 0.75 && !w.allowsSourceTest
    case PackExclusion =>
      Admitting(e) && e.confidence >= 0.75 && w.allowsSourceTest && w.role(target) == ExcludedNoise
    case RoleMismatch =>
      && Admitting(e) && e.confidence >= 0.75 && w.allowsSourceTest && w.role(target) != ExcludedNoise
      && !Opposite(w.role(seed), w.role(target))
    case _ => false
  }

  predicate Admitting(e: Edge) {
    e.edgeType == "tests_source" || (e.edgeType == "mentions_symbol" && e.sourceSignal == "test_symbol_match")
  }

  predicate Opposite(a: Role, b: Role) {
    (a == Implementation && b == BehaviorTests) || (a == BehaviorTests && b == Implementation)
  }

  /** Why an edge that leads to an artifact does not attach it. */
  ghost predicate Blocked(w: World, pos: nat, e: Edge, target: Candidate, why: Counter) {
    Leads(w, pos, e, target) && Gate(w, w.ranked[pos], e, target, why)
  }

  lemma JudgeFinds(w: World, seed: Candidate, perType: map<string, nat>, seen: set<string>, e: Edge)
    ensures var v := Judge(w, seed, perType, seen, e); var id := OtherArtifactID(e, seed.id);
            v.Refuse? ==> id != "" && ByID(w.all, id) == Some(v.target) && !DirectID(w, id) && !Direct(w, v.target)
  {
  }

  lemma JudgeGates(w: World, seed: Candidate, perType: map<string, nat>, seen: set<string>, e: Edge)
    requires w.role(seed) == Implementation || w.role(seed) == BehaviorTests
    ensures var v := Judge(w, seed, perType, seen, e);
            v.Refuse? ==> Gate(w, seed, e, v.target, v.counter)
  {
  }

  lemma LeadsExactly(w: World, pos: nat, e: Edge, target: Candidate)
    requires target.id != "" && pos < |Seeds(w)| && Eligible(w, pos) && e in SeedEdges(w, Seeds(w)[pos])
    ensures Leads(w, pos, e, target)
       <==> && OtherArtifactID(e, Seeds(w)[pos].id) == target.id && ByID(w.all, target.id) == Some(target)
            && !DirectID(w, target.id) && !Direct(w, target)
  {
    var seed := w.ranked[pos];
    assert |Seeds(w)| == (if |w.ranked| > 8 then 8 else |w.ranked|) && Seeds(w)[pos] == seed;
    SeedEdgesAll(w, seed, e);
    OtherEnd(e, seed.id, target.id);
    ByIDIsLast(w.all, target);
    UnrankedExactly(w, target);
  }

  /** A refusal gives a reason that holds of its edge. */
  lemma JudgeRefuses(w: World, pos: nat, perType: map<string, nat>, seen: set<string>, e: Edge)
    requires pos < |Seeds(w)| && Eligible(w, pos) && e in SeedEdges(w, Seeds(w)[pos])
    ensures var v := Judge(w, Seeds(w)[pos], perType, seen, e);
            v.Refuse? ==> Blocked(w, pos, e, v.target, v.counter)
  {
    var v := Judge(w, Seeds(w)[pos], perType, seen, e);
    if v.Refuse? {
      JudgeFinds(w, Seeds(w)[pos], perType, seen, e);
      JudgeGates(w, Seeds(w)[pos], perType, seen, e);
      ByIDHasID(w.all, OtherArtifactID(e, Seeds(w)[pos].id));
      LeadsExactly(w, pos, e, v.target);
      assert Seeds(w)[pos] == w.ranked[pos];
    }
  }

  /** The reasons that do not depend on what was admitted before. */
  predicate Constant(why: Counter) {
    why == SupportOnly || why == UnknownEdge || why == LowConfidence || why == QueryIntent
  }

  lemma JudgeBlocked(w: World, pos: nat, perType: map<string, nat>, seen: set<string>, e: Edge, target: Candidate,
                     why: Counter)
    requires pos < |Seeds(w)| && Eligible(w, pos) && e in SeedEdges(w, Seeds(w)[pos])
    requires Constant(why) && Blocked(w, pos, e, target, why)
    ensures Judge(w, Seeds(w)[pos], perType, seen, e) == Refuse(target, why)
  {
    LeadsExactly(w, pos, e, target);
    assert Seeds(w)[pos] == w.ranked[pos];
    JudgeGated(w, Seeds(w)[pos], perType, seen, e, target, why);
  }

  lemma JudgeGated(w: World, seed: Candidate, perType: map<string, nat>, seen: set<string>, e: Edge, target: Candidate,
                   why: Counter)
    requires Constant(why) && Gate(w, seed, e, target, why)
    requires target.id != "" && OtherArtifactID(e, seed.id) == target.id && ByID(w.all, target.id) == Some(target)
    requires !DirectID(w, target.id) && !Direct(w, target)
    ensures Judge(w, seed, perType, seen, e) == Refuse(target, why)
  {
  }

  ghost function BlockedBy(w: World, pos: nat, why: Counter): Edge -> bool {
    e => exists target :: Blocked(w, pos, e, target, why)
  }

  ghost predicate TellWhy(w: World, suppressed: seq<Suppression>) {
    forall s :: s in suppressed ==> Blocked(w, s.seed, s.edge, s.target, s.why)
  }

  lemma OneEdgeTells(w: World, pos: nat, p: Pass, e: Edge)
    requires pos < |Seeds(w)| && Eligible(w, pos) && e in SeedEdges(w, Seeds(w)[pos]) && TellWhy(w, p.diag.suppressed)
    ensures TellWhy(w, OneEdge(w, pos, Seeds(w)[pos], p, e).diag.suppressed)
  {
    JudgeRefuses(w, pos, p.perType, p.seen, e);
    CarryTells(w, pos, Seeds(w)[pos], p, e, Judge(w, Seeds(w)[pos], p.perType, p.seen, e));
  }

  lemma CarryTells(w: World, pos: nat, seed: Candidate, p: Pass, e: Edge, verdict: Verdict)
    requires TellWhy(w, p.diag.suppressed)
    requires verdict.Refuse? ==> Blocked(w, pos, e, verdict.target, verdict.counter)
    ensures TellWhy(w, Carry(w, pos, seed, p, e, verdict).diag.suppressed)
  {
  }

  lemma CarryCounts(w: World, pos: nat, seed: Candidate, p: Pass, e: Edge, verdict: Verdict, why: Counter)
    requires Constant(why)
    ensures Get(Carry(w, pos, seed, p, e, verdict).diag.counts, why)
         == Get(p.diag.counts, why)
            + if (verdict.Refuse? || verdict.OnlyCount?) && verdict.counter == why then 1 else 0
  {
  }

  lemma OneEdgeCounts(w: World, pos: nat, p: Pass, e: Edge, why: Counter)
    requires pos < |Seeds(w)| && Eligible(w, pos) && e in SeedEdges(w, Seeds(w)[pos]) && Constant(why)
    ensures Get(OneEdge(w, pos, Seeds(w)[pos], p, e).diag.counts, why)
         == Get(p.diag.counts, why) + if BlockedBy(w, pos, why)(e) then 1 else 0
  {
    var v := Judge(w, Seeds(w)[pos], p.perType, p.seen, e);
    CarryCounts(w, pos, Seeds(w)[pos], p, e, v, why);
    JudgeRefuses(w, pos, p.perType, p.seen, e);
    JudgeCounts(w, Seeds(w)[pos], p.perType, p.seen, e);
    if BlockedBy(w, pos, why)(e) {
      var target :| Blocked(w, pos, e, target, why);
      JudgeBlocked(w, pos, p.perType, p.seen, e, target, why);
    }
  }

  lemma {:induction false} OverEdgesTell(w: World, pos: nat, start: Pass, edges: seq<Edge>)
    requires pos < |Seeds(w)| && Eligible(w, pos) && TellWhy(w, start.diag.suppressed)
    requires forall e :: e in edges ==> e in SeedEdges(w, Seeds(w)[pos])
    ensures TellWhy(w, OverEdges(Considering(w, pos, Seeds(w)[pos]), start, edges).diag.suppressed)
  {
    if edges != [] {
      var n := |edges| - 1;
      var p := OverEdges(Considering(w, pos, Seeds(w)[pos]), start, edges[..n]);
      OverEdgesTell(w, pos, start, edges[..n]);
      OneEdgeTells(w, pos, p, edges[n]);
    }
  }

  lemma {:induction false} OverEdgesCount(w: World, pos: nat, start: Pass, edges: seq<Edge>, why: Counter)
    requires pos < |Seeds(w)| && Eligible(w, pos) && Constant(why)
    requires forall e :: e in edges ==> e in SeedEdges(w, Seeds(w)[pos])
    requires !Full(OverEdges(Considering(w, pos, Seeds(w)[pos]), start, edges).diag)
    ensures Get(OverEdges(Considering(w, pos, Seeds(w)[pos]), start, edges).diag.counts, why)
         == Get(start.diag.counts, why) + |Filter(BlockedBy(w, pos, why), edges)|
  {
    if edges != [] {
      var n := |edges| - 1;
      var p := OverEdges(Considering(w, pos, Seeds(w)[pos]), start, edges[..n]);
      OverEdgesCount(w, pos, start, edges[..n], why);
      OneEdgeCounts(w, pos, p, edges[n], why);
      FilterLast(BlockedBy(w, pos, why), edges);
    }
  }

  lemma FilterLast(p: Edge -> bool, edges: seq<Edge>)
    requires edges != []
    ensures var n := |edges| - 1; |Filter(p, edges)| == |Filter(p, edges[..n])| + if p(edges[n]) then 1 else 0
  {
    var n := |edges| - 1;
    FilterAppend(p, edges[..n], [edges[n]]);
    assert edges == edges[..n] + [edges[n]];
  }

  /** The stored edges of a ranked result. */
  function Stored(w: World, pos: nat): seq<Edge>
    requires pos < |w.ranked|
  {
    w.leaving(w.ranked[pos].id) + w.entering(w.ranked[pos].id)
  }

  /** How many stored edges of the first n results are refused for this reason. */
  ghost function Refused(w: World, n: nat, why: Counter): nat
    requires n <= |w.ranked|
  {
    if n == 0 then 0 else Refused(w, n - 1, why) + |Filter(BlockedBy(w, n - 1, why), Stored(w, n - 1))|
  }

  lemma {:induction false} NoneFiltered(p: Edge -> bool, edges: seq<Edge>)
    requires forall e :: e in edges ==> !p(e)
    ensures Filter(p, edges) == []
  {
    if edges != [] {
      NoneFiltered(p, edges[1..]);
    }
  }

  lemma NotEligibleBlocksNothing(w: World, n: nat, why: Counter, e: Edge)
    requires n < |Seeds(w)| && Constant(why) && (!Eligible(w, n) || Seeds(w)[n].repoID == "")
    ensures !BlockedBy(w, n, why)(e)
  {
    assert Seeds(w)[n] == w.ranked[n];
  }

  lemma OneSeedCounts(w: World, n: nat, p: Pass, why: Counter)
    requires n < |Seeds(w)| && Constant(why) && !Full(OneSeed(w, n, Seeds(w)[n], p).diag)
    ensures Get(OneSeed(w, n, Seeds(w)[n], p).diag.counts, why)
         == Get(p.diag.counts, why) + |Filter(BlockedBy(w, n, why), Stored(w, n))|
  {
    var blocked := BlockedBy(w, n, why);
    if Eligible(w, n) {
      OverEdgesCount(w, n, p.(perType := map[]), SeedEdges(w, Seeds(w)[n]), why);
    }
    if Eligible(w, n) && Seeds(w)[n].repoID != "" {
      SortPermutes(EdgeLe, Stored(w, n));
      FilterLengthPermutes(blocked, Sort(EdgeLe, Stored(w, n)), Stored(w, n));
    } else {
      forall e | e in Stored(w, n) ensures !blocked(e) {
        NotEligibleBlocksNothing(w, n, why, e);
      }
      NoneFiltered(blocked, Stored(w, n));
    }
  }

  lemma OneSeedTells(w: World, n: nat, p: Pass)
    requires n < |Seeds(w)| && TellWhy(w, p.diag.suppressed)
    ensures TellWhy(w, OneSeed(w, n, Seeds(w)[n], p).diag.suppressed)
  {
    if Eligible(w, n) {
      OverEdgesTell(w, n, p.(perType := map[]), SeedEdges(w, Seeds(w)[n]));
    }
  }

  ghost function Refusals(w: World, why: Counter): (nat, Pass) -> bool {
    (n: nat, p: Pass) =>
      && n <= |Seeds(w)| && n <= |w.ranked| && TellWhy(w, p.diag.suppressed)
      && (!Full(p.diag) ==> Get(p.diag.counts, why) == Refused(w, n, why))
  }

  lemma NextRefusals(w: World, why: Counter, n: nat, p: Pass)
    requires Constant(why) && n < |Seeds(w)| && Refusals(w, why)(n, p)
    ensures Refusals(w, why)(n + 1, if Full(p.diag) then p else Visiting(w)(n, p))
  {
    RefusalsMeans(w, why, n, p);
    if Full(p.diag) {
      RefusalsHold(w, why, n + 1, p);
    } else {
      var p' := OneSeed(w, n, Seeds(w)[n], p);
      OneSeedTells(w, n, p);
      if !Full(p'.diag) {
        OneSeedCounts(w, n, p, why);
      }
      RefusalsHold(w, why, n + 1, p');
    }
  }

  lemma RefusalsHold(w: World, why: Counter, n: nat, p: Pass)
    requires n <= |Seeds(w)| && n <= |w.ranked| && TellWhy(w, p.diag.suppressed)
    requires !Full(p.diag) ==> Get(p.diag.counts, why) == Refused(w, n, why)
    ensures Refusals(w, why)(n, p)
  {
  }

  lemma NoRefusals(w: World, why: Counter)
    ensures Refusals(w, why)(0, Pass(Diagnosis(map[], [], []), map[], {}))
  {
    var start := Pass(Diagnosis(map[], [], []), map[], {});
    assert TellWhy(w, start.diag.suppressed);
    assert Get(start.diag.counts, why) == 0 && Refused(w, 0, why) == 0;
  }

  lemma AllRefusals(w: World, why: Counter)
    requires Constant(why)
    ensures Refusals(w, why)(|Seeds(w)|, OverSeeds(w, |Seeds(w)|))
  {
    var good := Refusals(w, why);
    var start := Pass(Diagnosis(map[], [], []), map[], {});
    NoRefusals(w, why);
    forall pos: nat, p | pos < |Seeds(w)| && good(pos, p)
      ensures good(pos + 1, if Full(p.diag) then p else Visiting(w)(pos, p))
    {
      NextRefusals(w, why, pos, p);
    }
    VisitsKeep(Visiting(w), start, good, |Seeds(w)|, |Seeds(w)|);
  }

  /** Every suppression that is reported gives the reason that holds of its edge. */
  lemma SuppressionsTellWhy(w: World)
    ensures forall s :: s in Diagnose(w).suppressed ==> Blocked(w, s.seed, s.edge, s.target, s.why)
  {
    AllRefusals(w, SupportOnly);
    RefusalsMeans(w, SupportOnly, |Seeds(w)|, OverSeeds(w, |Seeds(w)|));
  }

  lemma RefusalsMeans(w: World, why: Counter, n: nat, p: Pass)
    requires Refusals(w, why)(n, p)
    ensures n <= |Seeds(w)| && n <= |w.ranked| && TellWhy(w, p.diag.suppressed)
    ensures !Full(p.diag) ==> Get(p.diag.counts, why) == Refused(w, n, why)
  {
  }

  /** Below six candidates the counters of the reasons that do not depend on what was admitted count exactly the
      edges they hold of. */
  lemma RefusalsAreCounted(w: World, why: Counter)
    requires why == SupportOnly || why == UnknownEdge || why == LowConfidence || why == QueryIntent
    requires |Diagnose(w).candidates| < 6
    ensures Get(Diagnose(w).counts, why) == Refused(w, if |w.ranked| > 8 then 8 else |w.ranked|, why)
  {
    AllRefusals(w, why);
    RefusalsMeans(w, why, |Seeds(w)|, OverSeeds(w, |Seeds(w)|));
    SortPermutes(CandidateLe, OverSeeds(w, |Seeds(w)|).diag.candidates);
  }
}
