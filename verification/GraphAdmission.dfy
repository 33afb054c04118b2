/** Budgeted graph admission. */
module GraphAdmission {
  // Which artifacts the typed edges of the best-ranked seeds may add to an answer, under a budget per seed and
  // edge type and one over all (find_graph_diagnostics.go).

  import opened Options
  import opened Sorting

  const MaxSeeds := 8
  const MaxCandidates := 6
  const MaxOutgoingPerEdge := 3
  const MaxSuppressed := 12
  const MinAdmitConfidence := 0.75

  datatype Candidate = Candidate(id: string, path: string, source: string, repoID: string)

  datatype Edge = Edge(src: string, dst: string, edgeType: string, sourceSignal: string, confidence: real, weight: real)

  datatype Role = Implementation | BehaviorTests | ExcludedNoise | OtherRole(name: string)

  /** One counter for each key of the source's count table. */
  datatype Counter =
    | SeedPackExclusion | SeedRole | SeedAnchor | MissingCandidate
    | SupportOnly | UnknownEdge | LowConfidence | QueryIntent | PackExclusion | RoleMismatch
    | EdgeBudget | SuppressedBudgetReached | CandidateBudgetReached
    | AdmittedBy(edgeType: string)

  /** An admitted target, with the position of its seed among the ranked results. */
  datatype Admitted = Admitted(target: Candidate, seed: nat, edge: Edge, role: Role)

  datatype Suppression = Suppression(target: Candidate, seed: nat, edge: Edge, why: Counter)

  /** What the query, the ranking and the store give: the ranked results, all artifacts, the edges leaving
      and entering an artifact, and the role, anchor and path functions of the retrieval package. */
  datatype World = World(ranked: seq<Candidate>, all: seq<Candidate>, leaving: string -> seq<Edge>,
                         entering: string -> seq<Edge>,
                         role: Candidate -> Role, anchored: (Candidate, nat) -> bool, allowsSourceTest: bool,
                         normalize: string -> string)

  datatype Diagnosis = Diagnosis(counts: map<Counter, nat>, candidates: seq<Admitted>, suppressed: seq<Suppression>)

  /** The diagnosis so far, the admissions of the current seed by edge type, and the admitted target ids. */
  datatype Pass = Pass(diag: Diagnosis, perType: map<string, nat>, seen: set<string>)

  predicate SupportOnlyEdge(e: Edge) {
    || (e.edgeType == "mentions_symbol" && e.sourceSignal == "symbol_reference")
    || e.edgeType in ["explicit_reference", "same_file_or_line_variant", "openspec_companion", "mentions_same_concept",
                      "same_layout_group", "same_workstream_anchor", "same_workstream_reference", "co_changed_with",
                      "same_pr_reference", "same_ticket_reference", "same_commit_reference", "same_branch_reference",
                      "same_workstream_cluster", "support_cross_role", "strong_workstream_cluster",
                      "workstream_cluster_member", "workstream_cluster_support"]
  }

  predicate AdmittingEdge(e: Edge) {
    if e.edgeType == "mentions_symbol" then e.sourceSignal == "test_symbol_match" else e.edgeType == "tests_source"
  }

  predicate SourceTestRole(r: Role) {
    r == Implementation || r == BehaviorTests
  }

  predicate RolesCompatible(edgeType: string, seed: Role, target: Role) {
    || (edgeType != "tests_source" && edgeType != "mentions_symbol")
    || (seed == Implementation && target == BehaviorTests)
    || (seed == BehaviorTests && target == Implementation)
  }

  function OtherArtifactID(e: Edge, seedID: string): string {
    if seedID == e.src then e.dst else if seedID == e.dst then e.src else ""
  }

  predicate EdgeLe(a: Edge, b: Edge) {
    if a.confidence != b.confidence then a.confidence > b.confidence
    else if a.weight != b.weight then a.weight > b.weight
    else LexLe(a.edgeType, b.edgeType)
  }

  function SeedEdges(w: World, seed: Candidate): seq<Edge> {
    if seed.repoID == "" then [] else Sort(EdgeLe, w.leaving(seed.id) + w.entering(seed.id))
  }

  /** The artifact with this id; a later one replaces an earlier one. */
  function ByID(all: seq<Candidate>, id: string): Option<Candidate> {
    if all == [] then None
    else if all[|all| - 1].id == id && id != "" then Some(all[|all| - 1])
    else ByID(all[..|all| - 1], id)
  }

  predicate DirectID(w: World, id: string) {
    id != "" && exists c :: c in w.ranked && c.id == id
  }

  predicate DirectPath(w: World, path: string) {
    exists c :: c in w.ranked
                && ((c.path != "" && w.normalize(c.path) == path) || (c.source != "" && w.normalize(c.source) == path))
  }

  predicate Direct(w: World, target: Candidate) {
    DirectPath(w, w.normalize(target.path)) || DirectPath(w, w.normalize(target.source))
  }

  // ---------------------------------------------------------------- the specification of one edge

  function Get<K(==)>(counts: map<K, nat>, k: K): nat {
    if k in counts then counts[k] else 0
  }

  function Bump<K(==)>(counts: map<K, nat>, k: K): map<K, nat> {
    counts[k := Get(counts, k) + 1]
  }

  function Count(d: Diagnosis, counter: Counter): Diagnosis {
    d.(counts := Bump(d.counts, counter))
  }

  function Suppressing(d: Diagnosis, s: Suppression): Diagnosis {
    if |d.suppressed| >= MaxSuppressed then Count(d, SuppressedBudgetReached) else d.(suppressed := d.suppressed + [s])
  }

  datatype Verdict =
    | Ignore | OnlyCount(counter: Counter)
    | Refuse(target: Candidate, counter: Counter) | Admit(target: Candidate)

  function Judge(w: World, seed: Candidate, perType: map<string, nat>, seen: set<string>, e: Edge): Verdict {
    var id := OtherArtifactID(e, seed.id);
    if id == "" || DirectID(w, id) then Ignore
    else
      match ByID(w.all, id)
      case None => OnlyCount(MissingCandidate)
      case Some(target) =>
        if Direct(w, target) then Ignore
        else if SupportOnlyEdge(e) then Refuse(target, SupportOnly)
        else if !AdmittingEdge(e) then Refuse(target, UnknownEdge)
        else if e.confidence < MinAdmitConfidence then Refuse(target, LowConfidence)
        else if !w.allowsSourceTest then Refuse(target, QueryIntent)
        else if Get(perType, e.edgeType) >= MaxOutgoingPerEdge then OnlyCount(EdgeBudget)
        else if id in seen then Ignore
        else if w.role(target) == ExcludedNoise then Refuse(target, PackExclusion)
        else if !RolesCompatible(e.edgeType, w.role(seed), w.role(target)) then Refuse(target, RoleMismatch)
        else Admit(target)
  }

  predicate Full(d: Diagnosis) {
    |d.candidates| >= MaxCandidates
  }

  function AdmitTarget(p: Pass, a: Admitted, id: string): Pass {
    var d := Count(p.diag.(candidates := p.diag.candidates + [a]), AdmittedBy(a.edge.edgeType));
    Pass(if Full(d) then Count(d, CandidateBudgetReached) else d, Bump(p.perType, a.edge.edgeType), p.seen + {id})
  }

  function Carry(w: World, pos: nat, seed: Candidate, p: Pass, e: Edge, verdict: Verdict): Pass {
    match verdict
    case Ignore => p
    case OnlyCount(counter) => p.(diag := Count(p.diag, counter))
    case Refuse(target, counter) =>
      p.(diag := Suppressing(Count(p.diag, counter), Suppression(target, pos, e, counter)))
    case Admit(target) => AdmitTarget(p, Admitted(target, pos, e, w.role(target)), OtherArtifactID(e, seed.id))
  }

  function OneEdge(w: World, pos: nat, seed: Candidate, p: Pass, e: Edge): Pass {
    Carry(w, pos, seed, p, e, Judge(w, seed, p.perType, p.seen, e))
  }

  function Considering(w: World, pos: nat, seed: Candidate): (Pass, Edge) -> Pass {
    (p, e) => OneEdge(w, pos, seed, p, e)
  }

  /** The edges in turn, until the candidates are full. */
  function OverEdges(step: (Pass, Edge) -> Pass, start: Pass, edges: seq<Edge>): Pass {
    if edges == [] then start
    else
      var p := OverEdges(step, start, edges[..|edges| - 1]);
      if Full(p.diag) then p else step(p, edges[|edges| - 1])
  }

  function RejectedSeed(w: World, pos: nat, seed: Candidate): Option<Counter> {
    if w.role(seed) == ExcludedNoise then Some(SeedPackExclusion)
    else if !SourceTestRole(w.role(seed)) then Some(SeedRole)
    else if !w.anchored(seed, pos) then Some(SeedAnchor)
    else None
  }

  function OneSeed(w: World, pos: nat, seed: Candidate, p: Pass): Pass {
    if seed.id == "" then p
    else
      match RejectedSeed(w, pos, seed)
      case Some(counter) => p.(diag := Count(p.diag, counter))
      case None => OverEdges(Considering(w, pos, seed), p.(perType := map[]), SeedEdges(w, seed))
  }

  function Seeds(w: World): (seeds: seq<Candidate>)
    ensures |seeds| <= MaxSeeds
  {
    if |w.ranked| > MaxSeeds then w.ranked[..MaxSeeds] else w.ranked
  }

  function Visiting(w: World): (nat, Pass) -> Pass {
    (pos: nat, p: Pass) => if pos < |Seeds(w)| then OneSeed(w, pos, Seeds(w)[pos], p) else p
  }

  /** The first n positions in turn, until the candidates are full. */
  function Visits(step: (nat, Pass) -> Pass, start: Pass, n: nat): Pass {
    if n == 0 then start
    else
      var p := Visits(step, start, n - 1);
      if Full(p.diag) then p else step(n - 1, p)
  }

  function OverSeeds(w: World, n: nat): Pass {
    Visits(Visiting(w), Pass(Diagnosis(map[], [], []), map[], {}), n)
  }

  predicate CandidateLe(a: Admitted, b: Admitted) {
    if a.edge.confidence != b.edge.confidence then a.edge.confidence > b.edge.confidence
    else if a.edge.edgeType != b.edge.edgeType then LexLe(a.edge.edgeType, b.edge.edgeType)
    else LexLe(a.target.path, b.target.path)
  }

  function Diagnose(w: World): Diagnosis {
    var d := OverSeeds(w, |Seeds(w)|).diag;
    d.(candidates := Sort(CandidateLe, d.candidates))
  }

  // ---------------------------------------------------------------- the source's loops

  class FindGraphDiagnostics {
    var seedCount: nat
    var candidateCount: nat
    var suppressedCount: nat
    var counts: map<Counter, nat>
    var candidates: seq<Admitted>
    var suppressed: seq<Suppression>

    ghost function Value(): Diagnosis
      reads this
    {
      Diagnosis(counts, candidates, suppressed)
    }

    constructor ()
      ensures Value() == Diagnosis(map[], [], []) && seedCount == candidateCount == suppressedCount == 0
    {
      seedCount, candidateCount, suppressedCount := 0, 0, 0;
      counts, candidates, suppressed := map[], [], [];
    }

    method AddSuppression(target: Candidate, seed: nat, edge: Edge, why: Counter)
      modifies this`counts, this`suppressed
      ensures Value() == Suppressing(old(Value()), Suppression(target, seed, edge, why))
    {
      if |suppressed| >= MaxSuppressed {
        counts := Bump(counts, SuppressedBudgetReached);
        return;
      }
      suppressed := suppressed + [Suppression(target, seed, edge, why)];
    }

    method RefuseEdge(target: Candidate, seed: nat, edge: Edge, why: Counter)
      modifies this`counts, this`suppressed
      ensures Value() == Suppressing(Count(old(Value()), why), Suppression(target, seed, edge, why))
    {
      counts := Bump(counts, why);
      AddSuppression(target, seed, edge, why);
    }

    /** The body of the loop over the edges of one seed. */
    method ConsiderEdge(w: World, pos: nat, seed: Candidate, edge: Edge, perType: map<string, nat>,
                        seenCandidates: set<string>)
      returns (perType': map<string, nat>, seen': set<string>)
      modifies this`counts, this`suppressed, this`candidates
      ensures Pass(Value(), perType', seen') == OneEdge(w, pos, seed, Pass(old(Value()), perType, seenCandidates), edge)
    {
      perType', seen' := perType, seenCandidates;
      var targetID := OtherArtifactID(edge, seed.id);
      if targetID == "" || DirectID(w, targetID) {
        return;
      }
      var found := ByID(w.all, targetID);
      if found.None? {
        counts := Bump(counts, MissingCandidate);
        return;
      }
      var target := found.value;
      if Direct(w, target) {
        return;
      }
      if SupportOnlyEdge(edge) {
        RefuseEdge(target, pos, edge, SupportOnly);
        return;
      }
      if !AdmittingEdge(edge) {
        RefuseEdge(target, pos, edge, UnknownEdge);
        return;
      }
      if edge.confidence < MinAdmitConfidence {
        RefuseEdge(target, pos, edge, LowConfidence);
        return;
      }
      if !w.allowsSourceTest {
        RefuseEdge(target, pos, edge, QueryIntent);
        return;
      }
      if Get(perType, edge.edgeType) >= MaxOutgoingPerEdge {
        counts := Bump(counts, EdgeBudget);
        return;
      }
      if targetID in seenCandidates {
        return;
      }
      var role := w.role(target);
      if role == ExcludedNoise {
        RefuseEdge(target, pos, edge, PackExclusion);
        return;
      }
      if !RolesCompatible(edge.edgeType, w.role(seed), role) {
        RefuseEdge(target, pos, edge, RoleMismatch);
        return;
      }
      perType' := Bump(perType, edge.edgeType);
      seen' := seenCandidates + {targetID};
      candidates := candidates + [Admitted(target, pos, edge, role)];
      counts := Bump(counts, AdmittedBy(edge.edgeType));
      if |candidates| >= MaxCandidates {
        counts := Bump(counts, CandidateBudgetReached);
      }
    }

    method ConsiderEdges(w: World, pos: nat, seed: Candidate, seenCandidates: set<string>)
      returns (seen': set<string>, ghost perType': map<string, nat>)
      requires !Full(Value())
      modifies this`counts, this`suppressed, this`candidates
      ensures Pass(Value(), perType', seen')
           == OverEdges(Considering(w, pos, seed), Pass(old(Value()), map[], seenCandidates), SeedEdges(w, seed))
    {
      var edges := SeedEdges(w, seed);
      var perType: map<string, nat> := map[];
      seen' := seenCandidates;
      ghost var start := Pass(Value(), map[], seenCandidates);
      var i := 0;
      while i < |edges| && |candidates| < MaxCandidates
        invariant i <= |edges|
        invariant Pass(Value(), perType, seen') == OverEdges(Considering(w, pos, seed), start, edges[..i])
      {
        assert edges[..i + 1][..i] == edges[..i];
        perType, seen' := ConsiderEdge(w, pos, seed, edges[i], perType, seen');
        i := i + 1;
      }
      perType' := perType;
      if i < |edges| {
        FullStops(Considering(w, pos, seed), start, edges, i);
      } else {
        assert edges[..i] == edges;
      }
    }

    method Build(w: World)
      requires Value() == Diagnosis(map[], [], [])
      modifies this
      ensures Value() == Diagnose(w)
      ensures seedCount == |Seeds(w)| && candidateCount == |candidates| && suppressedCount == |suppressed|
    {
      var seeds := Seeds(w);
      seedCount := |seeds|;
      var seenCandidates: set<string> := {};
      ghost var perType: map<string, nat> := map[];
      var pos := 0;
      while pos < |seeds| && |candidates| < MaxCandidates
        invariant pos <= |seeds| && seedCount == |seeds|
        invariant Pass(Value(), perType, seenCandidates) == OverSeeds(w, pos)
      {
        var seed := seeds[pos];
        pos := pos + 1;
        if seed.id == "" {
          continue;
        }
        var rejected := RejectedSeed(w, pos - 1, seed);
        if rejected.Some? {
          counts := Bump(counts, rejected.value);
          continue;
        }
        seenCandidates, perType := ConsiderEdges(w, pos - 1, seed, seenCandidates);
      }
      FullStopsVisits(Visiting(w), Pass(Diagnosis(map[], [], []), map[], {}), pos, |seeds|);
      candidates := Sort(CandidateLe, candidates);
      candidateCount := |candidates|;
      suppressedCount := |suppressed|;
    }
  }

  lemma {:induction false} FullStops(step: (Pass, Edge) -> Pass, start: Pass, edges: seq<Edge>, i: nat)
    requires i <= |edges| && Full(OverEdges(step, start, edges[..i]).diag)
    ensures OverEdges(step, start, edges) == OverEdges(step, start, edges[..i])
  {
    if i < |edges| {
      var n := |edges| - 1;
      assert edges[..n][..i] == edges[..i];
      FullStops(step, start, edges[..n], i);
    } else {
      assert edges[..i] == edges;
    }
  }

  lemma {:induction false} FullStopsVisits(step: (nat, Pass) -> Pass, start: Pass, n: nat, most: nat)
    requires n <= most && (n == most || Full(Visits(step, start, n).diag))
    ensures Visits(step, start, most) == Visits(step, start, n)
  {
    if n < most {
      FullStopsVisits(step, start, n, most - 1);
    }
  }

  // ---------------------------------------------------------------- what every step keeps

  /** How many candidates this seed added over edges of this type. */
  function Outgoing(candidates: seq<Admitted>, seed: nat, edgeType: string): nat {
    |Filter((a: Admitted) => a.seed == seed && a.edge.edgeType == edgeType, candidates)|
  }

  /** How many candidates are the artifact with this id. */
  function Targeting(candidates: seq<Admitted>, id: string): nat {
    |Filter((a: Admitted) => a.target.id == id, candidates)|
  }

  /** How many candidates were reached over edges of this type. */
  function OfType(candidates: seq<Admitted>, edgeType: string): nat {
    |Filter((a: Admitted) => a.edge.edgeType == edgeType, candidates)|
  }

  /** An edge that passes every gate but the budgets and the check for repeated targets. */
  predicate PassesGates(w: World, seed: Candidate, e: Edge) {
    var id := OtherArtifactID(e, seed.id);
    && id != "" && !DirectID(w, id) && ByID(w.all, id).Some?
    && var target := ByID(w.all, id).value;
       && !Direct(w, target) && !SupportOnlyEdge(e) && AdmittingEdge(e) && e.confidence >= MinAdmitConfidence
       && w.allowsSourceTest && w.role(target) != ExcludedNoise
       && RolesCompatible(e.edgeType, w.role(seed), w.role(target))
  }

  /** A seed whose edges are looked at. */
  predicate Eligible(w: World, pos: nat)
    requires pos < |Seeds(w)|
  {
    Seeds(w)[pos].id != "" && RejectedSeed(w, pos, Seeds(w)[pos]).None?
  }

  ghost predicate Admissible(w: World, a: Admitted) {
    && a.seed < |Seeds(w)| && Eligible(w, a.seed) && a.edge in SeedEdges(w, Seeds(w)[a.seed])
    && PassesGates(w, Seeds(w)[a.seed], a.edge)
    && ByID(w.all, OtherArtifactID(a.edge, Seeds(w)[a.seed].id)) == Some(a.target)
    && a.target.id == OtherArtifactID(a.edge, Seeds(w)[a.seed].id) && a.role == w.role(a.target)
  }

  function TargetSuppressions(counts: map<Counter, nat>): nat {
    Get(counts, SupportOnly) + Get(counts, UnknownEdge) + Get(counts, LowConfidence) + Get(counts, QueryIntent)
    + Get(counts, PackExclusion) + Get(counts, RoleMismatch)
  }

  /** Each admission counter is the number of candidates of its edge type. */
  ghost predicate CountsByType(d: Diagnosis) {
    forall t :: Get(d.counts, AdmittedBy(t)) == OfType(d.candidates, t)
  }

  ghost predicate Conserved(d: Diagnosis) {
    && CountsByType(d)
    && Get(d.counts, AdmittedBy("tests_source")) + Get(d.counts, AdmittedBy("mentions_symbol")) == |d.candidates|
    && TargetSuppressions(d.counts) == |d.suppressed| + Get(d.counts, SuppressedBudgetReached)
    && |d.suppressed| <= 12 && (Get(d.counts, SuppressedBudgetReached) > 0 ==> |d.suppressed| == 12)
  }

  ghost function Admissibles(w: World): Admitted -> bool {
    a => Admissible(w, a)
  }

  ghost predicate Bounded(good: Admitted -> bool, candidates: seq<Admitted>) {
    && |candidates| <= 6
    && (forall a :: a in candidates ==> good(a))
    && (forall id :: Targeting(candidates, id) <= 1)
  }

  ghost predicate WithinBudget(candidates: seq<Admitted>) {
    forall seed: nat, edgeType :: Outgoing(candidates, seed, edgeType) <= 3
  }

  ghost predicate SeenOk(p: Pass) {
    forall id :: id in p.seen <==> exists a :: a in p.diag.candidates && a.target.id == id
  }

  /** The table by edge type counts the candidates of the seed at hand. */
  ghost predicate PerTypeOk(pos: nat, p: Pass) {
    && (forall a :: a in p.diag.candidates ==> a.seed <= pos)
    && (forall t :: Get(p.perType, t) == Outgoing(p.diag.candidates, pos, t))
  }

  ghost predicate Inv(good: Admitted -> bool, pos: nat, p: Pass) {
    Conserved(p.diag) && Bounded(good, p.diag.candidates) && WithinBudget(p.diag.candidates) && SeenOk(p)
        && PerTypeOk(pos, p)
  }

  lemma OutgoingAppend(candidates: seq<Admitted>, a: Admitted, seed: nat, t: string)
    ensures Outgoing(candidates + [a], seed, t)
         == Outgoing(candidates, seed, t) + if a.seed == seed && a.edge.edgeType == t then 1 else 0
  {
    FilterAppend((a: Admitted) => a.seed == seed && a.edge.edgeType == t, candidates, [a]);
    assert [a][1..] == [];
  }

  lemma {:induction false} ByIDFinds(all: seq<Candidate>, id: string)
    ensures ByID(all, id).Some? ==> ByID(all, id).value.id == id
  {
    if all != [] {
      ByIDFinds(all[..|all| - 1], id);
    }
  }

  predicate Suppresses(c: Counter) {
    c.SupportOnly? || c.UnknownEdge? || c.LowConfidence? || c.QueryIntent? || c.PackExclusion? || c.RoleMismatch?
  }

  lemma BumpedSuppressions(counts: map<Counter, nat>, c: Counter)
    ensures TargetSuppressions(Bump(counts, c)) == TargetSuppressions(counts) + if Suppresses(c) then 1 else 0
  {
  }

  lemma CountingKeepsTypes(d: Diagnosis, counter: Counter)
    requires CountsByType(d) && !counter.AdmittedBy?
    ensures CountsByType(Count(d, counter))
  {
  }

  lemma AdmittingKeepsTypes(d: Diagnosis, a: Admitted)
    requires CountsByType(d)
    ensures CountsByType(Count(d.(candidates := d.candidates + [a]), AdmittedBy(a.edge.edgeType)))
  {
    forall t ensures OfType(d.candidates + [a], t) == OfType(d.candidates, t) + if a.edge.edgeType == t then 1 else 0 {
      FilterAppend((x: Admitted) => x.edge.edgeType == t, d.candidates, [a]);
    }
  }

  lemma CountingConserves(d: Diagnosis, counter: Counter)
    requires Conserved(d) && !Suppresses(counter) && !counter.AdmittedBy? && !counter.SuppressedBudgetReached?
    ensures Conserved(Count(d, counter))
  {
    BumpedSuppressions(d.counts, counter);
    CountingKeepsTypes(d, counter);
  }

  lemma SuppressingConserves(d: Diagnosis, s: Suppression)
    requires Conserved(d) && Suppresses(s.why)
    ensures Conserved(Suppressing(Count(d, s.why), s))
  {
    var counted := Count(d, s.why);
    BumpedSuppressions(d.counts, s.why);
    BumpedSuppressions(counted.counts, SuppressedBudgetReached);
    CountingKeepsTypes(d, s.why);
    if |d.suppressed| >= MaxSuppressed {
      CountingKeepsTypes(counted, SuppressedBudgetReached);
    } else {
      assert CountsByType(counted.(suppressed := d.suppressed + [s]));
    }
  }

  lemma AdmittingConserves(p: Pass, a: Admitted, id: string)
    requires Conserved(p.diag) && AdmittingEdge(a.edge)
    ensures Conserved(AdmitTarget(p, a, id).diag)
  {
    var d := Count(p.diag.(candidates := p.diag.candidates + [a]), AdmittedBy(a.edge.edgeType));
    BumpedSuppressions(p.diag.counts, AdmittedBy(a.edge.edgeType));
    AdmittingKeepsTypes(p.diag, a);
    assert Conserved(d);
    CountingConserves(d, CandidateBudgetReached);
  }

  lemma AppendBounded(good: Admitted -> bool, candidates: seq<Admitted>, a: Admitted)
    requires Bounded(good, candidates) && |candidates| < MaxCandidates && good(a)
    requires forall x :: x in candidates ==> x.target.id != a.target.id
    ensures Bounded(good, candidates + [a])
  {
    forall id ensures Targeting(candidates + [a], id) <= 1 {
      TargetingAppend(candidates, a, id);
      if id == a.target.id {
        NoneTargeting(candidates, id);
      }
    }
  }

  lemma TargetingAppend(candidates: seq<Admitted>, a: Admitted, id: string)
    ensures Targeting(candidates + [a], id) == Targeting(candidates, id) + if a.target.id == id then 1 else 0
  {
    FilterAppend((a: Admitted) => a.target.id == id, candidates, [a]);
    assert [a][1..] == [];
  }

  lemma {:induction false} NoneTargeting(candidates: seq<Admitted>, id: string)
    requires forall x :: x in candidates ==> x.target.id != id
    ensures Targeting(candidates, id) == 0
  {
    if candidates != [] {
      NoneTargeting(candidates[1..], id);
    }
  }

  lemma AppendWithinBudget(candidates: seq<Admitted>, a: Admitted)
    requires WithinBudget(candidates) && Outgoing(candidates, a.seed, a.edge.edgeType) < MaxOutgoingPerEdge
    ensures WithinBudget(candidates + [a])
  {
    forall seed: nat, t ensures Outgoing(candidates + [a], seed, t) <= MaxOutgoingPerEdge {
      OutgoingAppend(candidates, a, seed, t);
    }
  }

  lemma AppendPerType(pos: nat, p: Pass, a: Admitted)
    requires PerTypeOk(pos, p) && a.seed == pos
    ensures PerTypeOk(pos, AdmitTarget(p, a, a.target.id))
  {
    forall t ensures Get(Bump(p.perType, a.edge.edgeType), t) == Outgoing(p.diag.candidates + [a], pos, t) {
      OutgoingAppend(p.diag.candidates, a, pos, t);
    }
  }

  lemma AppendSeen(p: Pass, a: Admitted)
    requires SeenOk(p)
    ensures SeenOk(AdmitTarget(p, a, a.target.id))
  {
    var after := AdmitTarget(p, a, a.target.id).diag.candidates;
    assert after == p.diag.candidates + [a];
    assert a in after && forall x :: x in after <==> x in p.diag.candidates || x == a;
  }

  lemma AdmittingKeeps(good: Admitted -> bool, pos: nat, p: Pass, a: Admitted)
    requires Inv(good, pos, p) && !Full(p.diag) && good(a) && a.seed == pos && AdmittingEdge(a.edge)
    requires a.target.id !in p.seen && Get(p.perType, a.edge.edgeType) < MaxOutgoingPerEdge
    ensures Inv(good, pos, AdmitTarget(p, a, a.target.id))
  {
    AdmittingConserves(p, a, a.target.id);
    AppendBounded(good, p.diag.candidates, a);
    AppendWithinBudget(p.diag.candidates, a);
    AppendPerType(pos, p, a);
    AppendSeen(p, a);
  }

  /** What a verdict to admit means. */
  lemma AdmitMeans(w: World, pos: nat, perType: map<string, nat>, seen: set<string>, e: Edge)
    requires pos < |Seeds(w)| && Judge(w, Seeds(w)[pos], perType, seen, e).Admit?
    requires Eligible(w, pos) && e in SeedEdges(w, Seeds(w)[pos])
    ensures var target := Judge(w, Seeds(w)[pos], perType, seen, e).target;
            && target.id == OtherArtifactID(e, Seeds(w)[pos].id)
            && Admissible(w, Admitted(target, pos, e, w.role(target)))
            && target.id !in seen && Get(perType, e.edgeType) < MaxOutgoingPerEdge && AdmittingEdge(e)
  {
    ByIDFinds(w.all, OtherArtifactID(e, Seeds(w)[pos].id));
  }

  lemma JudgeCounts(w: World, seed: Candidate, perType: map<string, nat>, seen: set<string>, e: Edge)
    ensures var v := Judge(w, seed, perType, seen, e);
            && (v.Refuse? ==> Suppresses(v.counter))
            && (v.OnlyCount? ==> v.counter == MissingCandidate || v.counter == EdgeBudget)
  {
  }

  lemma CarryKeeps(w: World, pos: nat, p: Pass, e: Edge, verdict: Verdict, good: Admitted -> bool)
    requires pos < |Seeds(w)| && Inv(good, pos, p) && !Full(p.diag)
    requires verdict.Refuse? ==> Suppresses(verdict.counter)
    requires verdict.OnlyCount? ==> verdict.counter == MissingCandidate || verdict.counter == EdgeBudget
    requires verdict.Admit? ==>
               var a := Admitted(verdict.target, pos, e, w.role(verdict.target));
               && a.target.id == OtherArtifactID(e, Seeds(w)[pos].id) && good(a)
               && a.target.id !in p.seen && Get(p.perType, e.edgeType) < MaxOutgoingPerEdge && AdmittingEdge(e)
    ensures Inv(good, pos, Carry(w, pos, Seeds(w)[pos], p, e, verdict))
  {
    match verdict
    case Ignore =>
    case OnlyCount(counter) => CountingConserves(p.diag, counter);
    case Refuse(target, counter) => SuppressingConserves(p.diag, Suppression(target, pos, e, counter));
    case Admit(target) => AdmittingKeeps(good, pos, p, Admitted(target, pos, e, w.role(target)));
  }

  lemma OneEdgeKeeps(w: World, pos: nat, p: Pass, e: Edge)
    requires pos < |Seeds(w)| && Inv(Admissibles(w), pos, p) && !Full(p.diag)
    requires Eligible(w, pos) && e in SeedEdges(w, Seeds(w)[pos])
    ensures Inv(Admissibles(w), pos, OneEdge(w, pos, Seeds(w)[pos], p, e))
  {
    var verdict := Judge(w, Seeds(w)[pos], p.perType, p.seen, e);
    JudgeCounts(w, Seeds(w)[pos], p.perType, p.seen, e);
    if verdict.Admit? {
      AdmitMeans(w, pos, p.perType, p.seen, e);
    }
    CarryKeeps(w, pos, p, e, verdict, Admissibles(w));
  }

  // ---------------------------------------------------------------- nothing that passes is lost

  ghost predicate Handled(p: Pass, pos: nat, id: string, edgeType: string) {
    id in p.seen || Outgoing(p.diag.candidates, pos, edgeType) >= MaxOutgoingPerEdge
  }

  ghost predicate EdgeHandled(w: World, pos: nat, p: Pass, e: Edge)
    requires pos < |Seeds(w)|
  {
    PassesGates(w, Seeds(w)[pos], e) ==> Handled(p, pos, OtherArtifactID(e, Seeds(w)[pos].id), e.edgeType)
  }

  ghost predicate Grows(p: Pass, p': Pass) {
    p.seen <= p'.seen && p.diag.candidates <= p'.diag.candidates
  }

  lemma OneEdgeHandles(w: World, pos: nat, p: Pass, e: Edge)
    requires pos < |Seeds(w)| && PerTypeOk(pos, p)
    ensures EdgeHandled(w, pos, OneEdge(w, pos, Seeds(w)[pos], p, e), e)
  {
    if PassesGates(w, Seeds(w)[pos], e) {
      assert Get(p.perType, e.edgeType) == Outgoing(p.diag.candidates, pos, e.edgeType);
    }
  }

  lemma CarryGrows(w: World, pos: nat, seed: Candidate, p: Pass, e: Edge, verdict: Verdict)
    ensures Grows(p, Carry(w, pos, seed, p, e, verdict))
  {
  }

  lemma OutgoingGrows(a: seq<Admitted>, b: seq<Admitted>, pos: nat, t: string)
    requires a <= b
    ensures Outgoing(a, pos, t) <= Outgoing(b, pos, t)
  {
    FilterAppend((x: Admitted) => x.seed == pos && x.edge.edgeType == t, a, b[|a|..]);
    assert b == a + b[|a|..];
  }

  lemma HandledStays(w: World, pos: nat, p: Pass, p': Pass, e: Edge)
    requires pos < |Seeds(w)| && Grows(p, p') && EdgeHandled(w, pos, p, e)
    ensures EdgeHandled(w, pos, p', e)
  {
    OutgoingGrows(p.diag.candidates, p'.diag.candidates, pos, e.edgeType);
  }

  ghost function Handling(w: World, pos: nat): (Pass, Edge) -> bool
    requires pos < |Seeds(w)|
  {
    (p, e) => EdgeHandled(w, pos, p, e)
  }

  lemma HandledEdges(w: World, pos: nat, p: Pass, p': Pass, edges: seq<Edge>)
    requires pos < |Seeds(w)| && Grows(p, p') && edges != []
    requires var handled := Handling(w, pos);
             && (forall e :: e in edges[..|edges| - 1] ==> handled(p, e))
             && handled(p', edges[|edges| - 1])
    ensures forall e :: e in edges ==> Handling(w, pos)(p', e)
  {
    var handled := Handling(w, pos);
    forall e | e in edges ensures handled(p', e) {
      if e in edges[..|edges| - 1] {
        assert handled(p, e);
        HandledStays(w, pos, p, p', e);
      }
    }
  }

  lemma {:induction false} OverEdgesKeeps(w: World, pos: nat, start: Pass, edges: seq<Edge>)
    requires pos < |Seeds(w)| && Eligible(w, pos) && Inv(Admissibles(w), pos, start)
    requires forall e :: e in edges ==> e in SeedEdges(w, Seeds(w)[pos])
    ensures var p := OverEdges(Considering(w, pos, Seeds(w)[pos]), start, edges);
            && Inv(Admissibles(w), pos, p) && Grows(start, p)
            && (!Full(p.diag) ==> forall e :: e in edges ==> Handling(w, pos)(p, e))
  {
    if edges != [] {
      var n := |edges| - 1;
      var step := Considering(w, pos, Seeds(w)[pos]);
      var p := OverEdges(step, start, edges[..n]);
      OverEdgesKeeps(w, pos, start, edges[..n]);
      if !Full(p.diag) {
        var p' := step(p, edges[n]);
        OneEdgeKeeps(w, pos, p, edges[n]);
        OneEdgeHandles(w, pos, p, edges[n]);
        CarryGrows(w, pos, Seeds(w)[pos], p, edges[n], Judge(w, Seeds(w)[pos], p.perType, p.seen, edges[n]));
        HandledEdges(w, pos, p, p', edges);
      }
    }
  }

  /** What holds after n seeds. */
  ghost predicate SeedsInv(good: Admitted -> bool, n: nat, p: Pass) {
    && Conserved(p.diag) && Bounded(good, p.diag.candidates) && WithinBudget(p.diag.candidates) && SeenOk(p)
    && forall a :: a in p.diag.candidates ==> a.seed < n
  }

  lemma {:induction false} NoneOutgoing(candidates: seq<Admitted>, pos: nat, t: string)
    requires forall a :: a in candidates ==> a.seed < pos
    ensures Outgoing(candidates, pos, t) == 0
  {
    if candidates != [] {
      NoneOutgoing(candidates[1..], pos, t);
    }
  }

  lemma StartSeed(good: Admitted -> bool, pos: nat, p: Pass)
    requires SeedsInv(good, pos, p)
    ensures Inv(good, pos, p.(perType := map[]))
  {
    forall t ensures Outgoing(p.diag.candidates, pos, t) == 0 {
      NoneOutgoing(p.diag.candidates, pos, t);
    }
  }

  lemma OneSeedKeeps(w: World, pos: nat, p: Pass)
    requires pos < |Seeds(w)| && SeedsInv(Admissibles(w), pos, p)
    ensures var p' := OneSeed(w, pos, Seeds(w)[pos], p);
            && SeedsInv(Admissibles(w), pos + 1, p') && Grows(p, p')
            && (Eligible(w, pos) && !Full(p'.diag) ==>
                  forall e :: e in SeedEdges(w, Seeds(w)[pos]) ==> Handling(w, pos)(p', e))
  {
    var seed := Seeds(w)[pos];
    if Eligible(w, pos) {
      StartSeed(Admissibles(w), pos, p);
      OverEdgesKeeps(w, pos, p.(perType := map[]), SeedEdges(w, seed));
    } else if seed.id != "" {
      CountingConserves(p.diag, RejectedSeed(w, pos, seed).value);
    }
  }

  ghost predicate SeedHandled(w: World, pos: nat, p: Pass)
    requires pos < |Seeds(w)|
  {
    Eligible(w, pos) ==> forall e :: e in SeedEdges(w, Seeds(w)[pos]) ==> Handling(w, pos)(p, e)
  }

  lemma SeedHandledStays(w: World, pos: nat, p: Pass, p': Pass)
    requires pos < |Seeds(w)| && Grows(p, p') && SeedHandled(w, pos, p)
    ensures SeedHandled(w, pos, p')
  {
    if Eligible(w, pos) {
      forall e | e in SeedEdges(w, Seeds(w)[pos]) ensures Handling(w, pos)(p', e) {
        assert Handling(w, pos)(p, e);
        HandledStays(w, pos, p, p', e);
      }
    }
  }

  ghost predicate SeedsHandled(w: World, n: nat, p: Pass)
    requires n <= |Seeds(w)|
  {
    forall pos: nat :: pos < n ==> SeedHandled(w, pos, p)
  }

  lemma SeedsHandledNext(w: World, n: nat, p: Pass, p': Pass)
    requires n < |Seeds(w)| && Grows(p, p') && SeedsHandled(w, n, p) && SeedHandled(w, n, p')
    ensures SeedsHandled(w, n + 1, p')
  {
    forall pos: nat | pos < n + 1 ensures SeedHandled(w, pos, p') {
      if pos < n {
        SeedHandledStays(w, pos, p, p');
      }
    }
  }

  lemma NextSeedKeeps(w: World, n: nat, p: Pass)
    requires n < |Seeds(w)| && SeedsInv(Admissibles(w), n, p) && SeedsHandled(w, n, p)
    ensures var p' := OneSeed(w, n, Seeds(w)[n], p);
            SeedsInv(Admissibles(w), n + 1, p') && (!Full(p'.diag) ==> SeedsHandled(w, n + 1, p'))
  {
    OneSeedKeeps(w, n, p);
    var p' := OneSeed(w, n, Seeds(w)[n], p);
    if !Full(p'.diag) {
      assert SeedHandled(w, n, p');
      SeedsHandledNext(w, n, p, p');
    }
  }

  lemma FullKeeps(good: Admitted -> bool, n: nat, p: Pass)
    requires SeedsInv(good, n, p)
    ensures SeedsInv(good, n + 1, p)
  {
  }

  /** What n seeds leave behind. */
  ghost function SeedsDone(w: World): (nat, Pass) -> bool {
    (n: nat, p: Pass) => n <= |Seeds(w)| && SeedsInv(Admissibles(w), n, p) && (!Full(p.diag) ==> SeedsHandled(w, n, p))
  }

  lemma NothingYet(good: Admitted -> bool)
    ensures SeedsInv(good, 0, Pass(Diagnosis(map[], [], []), map[], {}))
  {
    forall seed: nat, t ensures Outgoing([], seed, t) == 0 {
      NoneOutgoing([], seed, t);
    }
    assert forall id :: Targeting([], id) == 0;
  }

  lemma NextSeedDone(w: World, n: nat, p: Pass)
    requires n < |Seeds(w)| && SeedsDone(w)(n, p)
    ensures SeedsDone(w)(n + 1, if Full(p.diag) then p else Visiting(w)(n, p))
  {
    if Full(p.diag) {
      FullKeeps(Admissibles(w), n, p);
    } else {
      NextSeedKeeps(w, n, p);
    }
  }

  lemma {:induction false} VisitsKeep(step: (nat, Pass) -> Pass, start: Pass, good: (nat, Pass) -> bool, n: nat,
                                      most: nat)
    requires n <= most && good(0, start)
    requires forall pos: nat, p :: pos < most && good(pos, p) ==>
               good(pos + 1, if Full(p.diag) then p else step(pos, p))
    ensures good(n, Visits(step, start, n))
  {
    if n > 0 {
      VisitsKeep(step, start, good, n - 1, most);
    }
  }

  lemma OverSeedsKeeps(w: World, n: nat)
    requires n <= |Seeds(w)|
    ensures SeedsDone(w)(n, OverSeeds(w, n))
  {
    NothingYet(Admissibles(w));
    var good := SeedsDone(w);
    forall pos: nat, p | pos < |Seeds(w)| && good(pos, p)
      ensures good(pos + 1, if Full(p.diag) then p else Visiting(w)(pos, p)) {
      NextSeedDone(w, pos, p);
    }
    VisitsKeep(Visiting(w), Pass(Diagnosis(map[], [], []), map[], {}), good, n, |Seeds(w)|);
  }

  lemma SortedCandidates(candidates: seq<Admitted>)
    ensures var sorted := Sort(CandidateLe, candidates);
            && |sorted| == |candidates| && multiset(sorted) == multiset(candidates)
            && (forall a :: a in sorted <==> a in candidates)
            && (forall seed: nat, t :: Outgoing(sorted, seed, t) == Outgoing(candidates, seed, t))
            && (forall id :: Targeting(sorted, id) == Targeting(candidates, id))
            && (forall t :: OfType(sorted, t) == OfType(candidates, t))
  {
    var sorted := Sort(CandidateLe, candidates);
    SortPermutes(CandidateLe, candidates);
    forall a ensures a in sorted <==> a in candidates {
      assert a in multiset(sorted) <==> a in multiset(candidates);
    }
    forall seed: nat, t ensures Outgoing(sorted, seed, t) == Outgoing(candidates, seed, t) {
      FilterLengthPermutes((a: Admitted) => a.seed == seed && a.edge.edgeType == t, sorted, candidates);
    }
    forall id ensures Targeting(sorted, id) == Targeting(candidates, id) {
      FilterLengthPermutes((a: Admitted) => a.target.id == id, sorted, candidates);
    }
    forall t ensures OfType(sorted, t) == OfType(candidates, t) {
      FilterLengthPermutes((a: Admitted) => a.edge.edgeType == t, sorted, candidates);
    }
  }

  /** Over every query and store: at most 6 candidates, each a different artifact reached from an eligible
      seed over one of its edges that passes every gate, none of them ranked already; at most 3 per seed and
      edge type; the counters add up. */
  lemma AdmissionInvariants(w: World)
    ensures var d := Diagnose(w); Bounded(Admissibles(w), d.candidates) && WithinBudget(d.candidates) && Conserved(d)
  {
    OverSeedsKeeps(w, |Seeds(w)|);
    SortedCandidates(OverSeeds(w, |Seeds(w)|).diag.candidates);
  }

  lemma {:induction false} SeedEdgesAll(w: World, seed: Candidate, e: Edge)
    ensures e in SeedEdges(w, seed) <==> seed.repoID != "" && e in w.leaving(seed.id) + w.entering(seed.id)
  {
    var edges := w.leaving(seed.id) + w.entering(seed.id);
    SortPermutes(EdgeLe, edges);
    assert e in multiset(Sort(EdgeLe, edges)) <==> e in multiset(edges);
  }

  /** Below 6 candidates nothing is lost: the target of every stored edge of an eligible seed that passes the
      gates is among the candidates, unless 3 candidates came from that seed over edges of that type. */
  lemma NothingPassingIsLost(w: World, pos: nat, e: Edge)
    requires pos < |Seeds(w)| && Eligible(w, pos) && PassesGates(w, Seeds(w)[pos], e)
    requires Seeds(w)[pos].repoID != "" && e in w.leaving(Seeds(w)[pos].id) + w.entering(Seeds(w)[pos].id)
    requires |Diagnose(w).candidates| < 6
    ensures var candidates := Diagnose(w).candidates;
            || (exists a :: a in candidates && a.target.id == OtherArtifactID(e, Seeds(w)[pos].id))
            || Outgoing(candidates, pos, e.edgeType) == 3
  {
    var p := OverSeeds(w, |Seeds(w)|);
    OverSeedsKeeps(w, |Seeds(w)|);
    SortedCandidates(p.diag.candidates);
    SeedEdgesAll(w, Seeds(w)[pos], e);
    assert SeedHandled(w, pos, p);
    assert Handling(w, pos)(p, e);
  }

  lemma CandidateLeTransitive(a: Admitted, b: Admitted, c: Admitted)
    requires CandidateLe(a, b) && CandidateLe(b, c)
    ensures CandidateLe(a, c)
  {
    if a.edge.confidence == b.edge.confidence == c.edge.confidence {
      if a.edge.edgeType == b.edge.edgeType == c.edge.edgeType {
        LexTransitive(a.target.path, b.target.path, c.target.path);
      } else {
        LexTotal(a.edge.edgeType, b.edge.edgeType);
        LexTotal(b.edge.edgeType, c.edge.edgeType);
        LexTotal(a.edge.edgeType, c.edge.edgeType);
        if LexLe(a.edge.edgeType, b.edge.edgeType) && LexLe(b.edge.edgeType, c.edge.edgeType) {
          LexTransitive(a.edge.edgeType, b.edge.edgeType, c.edge.edgeType);
        }
      }
    }
  }

  lemma CandidateLeTotal()
    ensures TotalPreorder(CandidateLe)
  {
    forall a, b ensures CandidateLe(a, b) || CandidateLe(b, a) {
      LexTotal(a.edge.edgeType, b.edge.edgeType);
      LexTotal(a.target.path, b.target.path);
    }
    forall a, b, c | CandidateLe(a, b) && CandidateLe(b, c) ensures CandidateLe(a, c) {
      CandidateLeTransitive(a, b, c);
    }
  }

  /** The candidates are listed by confidence, then edge type, then path, and are exactly the admitted ones. */
  lemma CandidatesAreSorted(w: World)
    ensures var admitted := OverSeeds(w, |Seeds(w)|).diag.candidates;
            SortedBy(CandidateLe, Diagnose(w).candidates) && multiset(Diagnose(w).candidates) == multiset(admitted)
  {
    CandidateLeTotal();
    SortSorts(CandidateLe, OverSeeds(w, |Seeds(w)|).diag.candidates);
    SortPermutes(CandidateLe, OverSeeds(w, |Seeds(w)|).diag.candidates);
  }
}
