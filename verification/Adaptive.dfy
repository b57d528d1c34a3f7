/** Staged confidence-adaptive search: Fast, Balanced and Strict stages share the visited set and the
    scored list, so no slot is scored twice and recall never regresses from stage to stage. */
module Adaptive {
  import opened Basics
  import opened Ranking
  import opened WitnessLists
  import opened Hops
  import opened Resolution
  import Descent

  datatype Profile = Fast | Balanced | Strict

  function CandidateCap(p: Profile): nat { match p case Fast => 512 case Balanced => 1024 case Strict => 2048 }

  function Next(p: Profile): Profile { if p == Fast then Balanced else Strict }

  /** Candidates scored before witness expansion; a filter lifts the profile limits. */
  function EvalLimit(p: Profile, mask: Option<set<nat>>, n: nat): nat {
    if mask.Some? then n else match p case Fast => Min(n, 512) case Balanced => Min(n, 1024) case Strict => n
  }

  /** Witness seeds, second-hop seeds and degree, already bounded. */
  datatype Limits = Limits(seeds: nat, second: nat, degree: nat)

  function StageLimits(p: Profile, l: Limits): Limits {
    match p
    case Fast => Limits(Min(l.seeds, 12), Min(l.second, 2), Min(l.degree, 16))
    case Balanced => Limits(Min(l.seeds, 24), Min(l.second, 4), Min(l.degree, 32))
    case Strict => l
  }

  /** The vote-ranked slots of a stage, and those after the doubled probe budget. */
  datatype Route = Route(voted: seq<nat>, expanded: seq<nat>)

  function Take(s: seq<nat>, n: nat): seq<nat> { s[..Min(n, |s|)] }

  function Skip(s: seq<nat>, n: nat): seq<nat> { s[Min(n, |s|)..] }

  function OneEligible(c: Corpus, i: nat, w: Work): Work {
    if i !in w.visited && Eligible(c, i) then w.(visited := w.visited + {i}, scored := w.scored + [Exact(c, i)]) else w
  }

  /** Filter-aware expansion: only eligible unvisited slots are taken, nothing is counted as rejected. */
  function TakeEligible(c: Corpus, ns: seq<nat>, w: Work): Work
    decreases |ns|
  {
    if ns == [] then w else TakeEligible(c, ns[1..], OneEligible(c, ns[0], w))
  }

  predicate Starved(c: Corpus, p: Profile, k: nat, w: Work) { c.mask.Some? && |w.scored| < k && p != Strict }

  /** Phase 1 of a stage: the routed candidates, and more of them if the filter starves the query. */
  function StageCandidates(c: Corpus, route: Route, p: Profile, k: nat, w: Work): Work {
    var cap := CandidateCap(p);
    var cands := Take(route.voted, cap);
    var w0 := w.(found := [], nonLive := 0, filtered := 0, scanned := 0, added := 0);
    var w1 := Scan(c, Take(cands, EvalLimit(p, c.mask, |cands|)), w0);
    if Starved(c, p, k, w1) then TakeEligible(c, Take(Skip(route.expanded, cap), cap), w1) else w1
  }

  /** Slots a stage may examine before witness expansion; Strict never widens its route. */
  function Budget(c: Corpus, p: Profile): nat {
    CandidateCap(p) + if c.mask.Some? && p != Strict then CandidateCap(p) else 0
  }

  /** Phases 2 and 3. */
  ghost function Hopped(c: Corpus, l: Limits, w: Work): Work { TwoHops(c, l.seeds, l.second, l.degree, w) }

  /** One whole stage; counters restart, the visited set and the scored list carry over. */
  ghost function Stage(c: Corpus, route: Route, limits: Limits, p: Profile, k: nat, w: Work): Work {
    var w1 := StageCandidates(c, route, p, k, w);
    var w2 := Hopped(c, StageLimits(p, limits), w1.(scored := Rank(w1.scored)));
    w2.(scored := Rank(w2.scored))
  }

  /** Whether the confidence evaluation of a finished stage recommends escalation; it may look at the
      profile, at everything scored and counted, and at the previous stage's results. */
  type Confidence = (Profile, Work, seq<Scored>) -> bool

  /** How one profile's stage turns the shared work into the next. */
  type Step = (Profile, Work) -> Work

  ghost function StageOf(c: Corpus, routes: Profile -> Route, limits: Limits, k: nat): Step {
    (p: Profile, w: Work) => Stage(c, routes(p), limits, p, k, w)
  }

  /** The work after each executed stage, from profile `p` on. */
  ghost function Escalation(step: Step, k: nat, escalate: Confidence, p: Profile, w: Work,
                            previous: seq<Scored>): (r: seq<Work>)
    ensures 1 <= |r| <= match p case Fast => 3 case Balanced => 2 case Strict => 1
    decreases match p case Fast => 2 case Balanced => 1 case Strict => 0
  {
    var w' := step(p, w);
    if p == Strict || !escalate(p, w', previous) then [w']
    else [w'] + Escalation(step, k, escalate, Next(p), w', TopK(w'.scored, k))
  }

  ghost function Stages(c: Corpus, routes: Profile -> Route, limits: Limits, k: nat,
                        escalate: Confidence): (r: seq<Work>)
    ensures 1 <= |r| <= 3
  {
    Escalation(StageOf(c, routes, limits, k), k, escalate, Fast, NoWork, [])
  }

  // ---- what a stage keeps ----------------------------------------------------------------------

  lemma {:induction false} TakeEligibleKeeps(c: Corpus, ns: seq<nat>, w: Work)
    requires Tracks(c, w)
    ensures var r := TakeEligible(c, ns, w);
      Tracks(c, r) && w.scored <= r.scored && r.found == w.found && r.scanned == w.scanned
    ensures Examined(TakeEligible(c, ns, w)) <= Examined(w) + |ns|
    decreases |ns|
  {
    if ns != [] {
      var i := ns[0];
      if i !in w.visited && Eligible(c, i) {
        VisitKeeps(c, i, w);
        assert OneEligible(c, i, w) == Visit(c, i, w);
      }
      TakeEligibleKeeps(c, ns[1..], OneEligible(c, i, w));
    }
  }

  lemma CandidatesKeep(c: Corpus, route: Route, p: Profile, k: nat, w: Work)
    requires Tracks(c, w)
    ensures var r := StageCandidates(c, route, p, k, w);
      Tracks(c, r) && w.scored <= r.scored && r.found == [] && r.scanned == 0
    ensures Examined(StageCandidates(c, route, p, k, w)) <= |w.scored| + Budget(c, p)
  {
    var cap := CandidateCap(p);
    var cands := Take(route.voted, cap);
    var w0 := w.(found := [], nonLive := 0, filtered := 0, scanned := 0, added := 0);
    var ns := Take(cands, EvalLimit(p, c.mask, |cands|));
    ScanKeeps(c, ns, w0);
    TakeEligibleKeeps(c, Take(Skip(route.expanded, cap), cap), Scan(c, ns, w0));
  }

  /** What the hops leave of a tracked list: everything, nothing scored twice, at most one slot examined
      per edge. */
  lemma HoppedKeeps(c: Corpus, l: Limits, w: Work)
    requires Tracks(c, w) && w.found == []
    ensures var r := Hopped(c, l, w);
      Tracks(c, r) && w.scored <= r.scored && Examined(r) - Examined(w) <= r.scanned - w.scanned
  {
    TwoHopsLook(c, l.seeds, l.second, l.degree, w);
  }

  /** A stage only adds scored slots: all earlier ones stay, none is scored again. */
  lemma StageKeeps(c: Corpus, route: Route, limits: Limits, p: Profile, k: nat, w: Work)
    requires Tracks(c, w)
    ensures var r := Stage(c, route, limits, p, k, w);
      Tracks(c, r) && Elems(w.scored) <= Elems(r.scored) && Ranked(r.scored)
    ensures Elems(StageCandidates(c, route, p, k, w).scored) <= Elems(Stage(c, route, limits, p, k, w).scored)
  {
    var w1 := StageCandidates(c, route, p, k, w);
    CandidatesKeep(c, route, p, k, w);
    RankKeepsTracks(c, w1);
    RankElems(w1.scored);
    var w2 := Hopped(c, StageLimits(p, limits), w1.(scored := Rank(w1.scored)));
    HoppedKeeps(c, StageLimits(p, limits), w1.(scored := Rank(w1.scored)));
    RankKeepsTracks(c, w2);
    RankElems(w2.scored);
    RankSorts(w2.scored);
  }

  function HopBound(l: Limits): nat { (l.seeds + l.second) * l.degree }

  /** Work of a stage, whatever the corpus size: it follows at most `(seeds + second) * degree` witness
      edges with its own reduced limits, never more than the reported two-hop bound, and newly scores
      at most its candidate budget plus those. Without a filter that is 512 + 224 in Fast and
      1,024 + 896 in Balanced; in Strict it is 2,048 plus its edges, filter or not. */
  lemma StageWork(c: Corpus, route: Route, limits: Limits, p: Profile, k: nat, w: Work)
    requires Tracks(c, w)
    ensures var r := Stage(c, route, limits, p, k, w);
      && r.scanned <= HopBound(StageLimits(p, limits)) <= HopBound(limits)
      && |r.scored| <= |w.scored| + Budget(c, p) + r.scanned
      && (p == Fast ==> r.scanned <= 224) && (p == Balanced ==> r.scanned <= 896)
      && (p == Strict ==> |r.scored| <= |w.scored| + 2048 + r.scanned)
  {
    CandidatesKeep(c, route, p, k, w);
    var w1 := StageCandidates(c, route, p, k, w);
    HoppedScores(c, StageLimits(p, limits), w1);
    HoppedScans(c, StageLimits(p, limits), w1.(scored := Rank(w1.scored)));
    LimitsShrink(p, limits);
  }

  lemma HoppedScores(c: Corpus, l: Limits, w: Work)
    requires Tracks(c, w) && w.found == [] && w.scanned == 0
    ensures var r := Hopped(c, l, w.(scored := Rank(w.scored))); |Rank(r.scored)| <= Examined(w) + r.scanned
  {
    RankKeepsTracks(c, w);
    var w' := w.(scored := Rank(w.scored));
    HoppedKeeps(c, l, w');
    RankKeepsTracks(c, Hopped(c, l, w'));
  }

  lemma HoppedScans(c: Corpus, l: Limits, w: Work)
    requires w.scanned == 0
    ensures Hopped(c, l, w).scanned <= HopBound(l)
  {
    TwoHopsScan(c, l.seeds, l.second, l.degree, w);
  }

  lemma LimitsShrink(p: Profile, limits: Limits)
    ensures var n := HopBound(StageLimits(p, limits));
      n <= HopBound(limits) && (p == Fast ==> n <= 224) && (p == Balanced ==> n <= 896)
  {
    var l := StageLimits(p, limits);
    Products(l.seeds + l.second, limits.seeds + limits.second, l.degree, limits.degree);
    if p == Fast { Products(l.seeds + l.second, 14, l.degree, 16); }
    if p == Balanced { Products(l.seeds + l.second, 28, l.degree, 32); }
  }

  lemma Products(a: nat, b: nat, d: nat, e: nat)
    requires a <= b && d <= e
    ensures a * d <= b * e
  {
    ProductBound(a, b, d);
    ProductBound(d, e, b);
  }

  // ---- what a stage looks at -------------------------------------------------------------------

  lemma TrackedSize(c: Corpus, w: Work)
    requires Tracks(c, w)
    ensures |w.scored| == |EligibleIn(c, w.visited)|
  {
    assert Lists(c, EligibleIn(c, w.visited), w.scored);
    ListedSize(c, EligibleIn(c, w.visited), w.scored);
  }

  lemma {:induction false} TakeEligibleVisits(c: Corpus, ns: seq<nat>, w: Work)
    ensures TakeEligible(c, ns, w).visited == w.visited + EligibleIn(c, Elems(ns))
    decreases |ns|
  {
    if ns != [] {
      TakeEligibleVisits(c, ns[1..], OneEligible(c, ns[0], w));
      assert Elems(ns) == {ns[0]} + Elems(ns[1..]);
    }
  }

  /** The slots a stage has visited before it follows witnesses: those it started with, the first `cap` voted
      ones, and, where a filter leaves fewer than `k`, the eligible ones of the next `cap` of the wider
      route. */
  ghost function Routed(c: Corpus, route: Route, k: nat, visited: set<nat>, cap: nat, widens: bool): set<nat> {
    var v := visited + Elems(Take(route.voted, cap));
    if widens && c.mask.Some? && |EligibleIn(c, v)| < k then
      v + EligibleIn(c, Elems(Take(Skip(route.expanded, cap), cap)))
    else v
  }

  ghost predicate Reaches(c: Corpus, route: Route, k: nat, w: Work, r: Work, cap: nat, widens: bool, l: Limits) {
    var v := Routed(c, route, k, w.visited, cap, widens);
    Tracks(c, r) && r.visited == v + Around(c, v, l.seeds, l.second, l.degree)
  }

  lemma CandidatesRouted(c: Corpus, route: Route, p: Profile, k: nat, w: Work)
    requires Tracks(c, w)
    ensures StageCandidates(c, route, p, k, w).visited ==
      Routed(c, route, k, w.visited, match p case Fast => 512 case Balanced => 1024 case Strict => 2048, p != Strict)
  {
    var cap := CandidateCap(p);
    var cands := Take(route.voted, cap);
    var w0 := w.(found := [], nonLive := 0, filtered := 0, scanned := 0, added := 0);
    assert Take(cands, EvalLimit(p, c.mask, |cands|)) == cands;
    ScanKeeps(c, cands, w0);
    TrackedSize(c, Scan(c, cands, w0));
    TakeEligibleVisits(c, Take(Skip(route.expanded, cap), cap), Scan(c, cands, w0));
  }

  /** Exactly what a stage has looked at when it ends; it has scored the eligible part of that. */
  lemma StageLooks(c: Corpus, route: Route, limits: Limits, p: Profile, k: nat, w: Work)
    requires Tracks(c, w)
    ensures var r := Stage(c, route, limits, p, k, w);
      match p
      case Fast =>
        Reaches(c, route, k, w, r, 512, true,
          Limits(Min(limits.seeds, 12), Min(limits.second, 2), Min(limits.degree, 16)))
      case Balanced =>
        Reaches(c, route, k, w, r, 1024, true,
          Limits(Min(limits.seeds, 24), Min(limits.second, 4), Min(limits.degree, 32)))
      case Strict => Reaches(c, route, k, w, r, 2048, false, limits)
  {
    var l, w1 := StageLimits(p, limits), StageCandidates(c, route, p, k, w);
    CandidatesKeep(c, route, p, k, w);
    CandidatesRouted(c, route, p, k, w);
    RankKeepsTracks(c, w1);
    var w2 := w1.(scored := Rank(w1.scored));
    TwoHopsLook(c, l.seeds, l.second, l.degree, w2);
    RankKeepsTracks(c, Hopped(c, l, w2));
  }

  /** What a stage adds to: still nothing scored twice, nothing forgotten, best first. */
  ghost predicate Extends(c: Corpus, w: Work, w': Work) {
    Tracks(c, w') && Elems(w.scored) <= Elems(w'.scored) && Ranked(w'.scored)
  }

  ghost predicate Growing(c: Corpus, w: Work, r: seq<Work>) {
    && (forall i :: 0 <= i < |r| ==> Extends(c, w, r[i]))
    && (forall i, j :: 0 <= i < j < |r| ==> Extends(c, r[i], r[j]))
  }

  ghost predicate StepExtends(c: Corpus, step: Step) {
    forall p, w :: Tracks(c, w) ==> Extends(c, w, step(p, w))
  }

  lemma StageExtends(c: Corpus, routes: Profile -> Route, limits: Limits, k: nat)
    ensures StepExtends(c, StageOf(c, routes, limits, k))
  {
    forall p, w | Tracks(c, w) ensures Extends(c, w, StageOf(c, routes, limits, k)(p, w)) {
      StageKeeps(c, routes(p), limits, p, k, w);
    }
  }

  lemma {:induction false} EscalationExtends(c: Corpus, step: Step, k: nat, escalate: Confidence, p: Profile,
                                             w: Work, previous: seq<Scored>)
    requires Tracks(c, w) && StepExtends(c, step)
    ensures Growing(c, w, Escalation(step, k, escalate, p, w, previous))
    decreases match p case Fast => 2 case Balanced => 1 case Strict => 0
  {
    var w' := step(p, w);
    if p != Strict && escalate(p, w', previous) {
      EscalationExtends(c, step, k, escalate, Next(p), w', TopK(w'.scored, k));
    }
  }

  /** Across all stages of a query: nothing is scored twice, everything scored is eligible with its
      exact score, and every stage keeps what the earlier ones scored. */
  lemma StagesKeep(c: Corpus, routes: Profile -> Route, limits: Limits, k: nat, escalate: Confidence)
    ensures Growing(c, NoWork, Stages(c, routes, limits, k, escalate))
  {
    StageExtends(c, routes, limits, k);
    EscalationExtends(c, StageOf(c, routes, limits, k), k, escalate, Fast, NoWork, []);
  }

  /** How the stages follow one another: Fast first, each starting from the work of the one before, the next
      one exactly when escalation is recommended, none after Strict. */
  lemma StagesFollow(c: Corpus, routes: Profile -> Route, limits: Limits, k: nat, escalate: Confidence)
    ensures var r := Stages(c, routes, limits, k, escalate);
      && r[0] == Stage(c, routes(Fast), limits, Fast, k, NoWork)
      && (|r| > 1 <==> escalate(Fast, r[0], []))
      && (|r| > 1 ==> r[1] == Stage(c, routes(Balanced), limits, Balanced, k, r[0]))
      && (|r| > 2 <==> |r| > 1 && escalate(Balanced, r[1], TopK(r[0].scored, k)))
      && (|r| > 2 ==> r[2] == Stage(c, routes(Strict), limits, Strict, k, r[1]))
  {
    EscalationFollows(StageOf(c, routes, limits, k), k, escalate);
  }

  lemma EscalationFollows(step: Step, k: nat, escalate: Confidence)
    ensures var r := Escalation(step, k, escalate, Fast, NoWork, []);
      && r[0] == step(Fast, NoWork) && (|r| > 1 <==> escalate(Fast, r[0], []))
      && (|r| > 1 ==> r[1] == step(Balanced, r[0]))
      && (|r| > 2 <==> |r| > 1 && escalate(Balanced, r[1], TopK(r[0].scored, k)))
      && (|r| > 2 ==> r[2] == step(Strict, r[1]))
  {
    var w1 := step(Fast, NoWork);
    if escalate(Fast, w1, []) {
      var w2, top := step(Balanced, w1), TopK(w1.scored, k);
      var rest := Escalation(step, k, escalate, Balanced, w1, top);
      assert rest[0] == w2;
      if escalate(Balanced, w2, top) {
        assert rest == [w2] + Escalation(step, k, escalate, Strict, w2, TopK(w2.scored, k));
      }
    }
  }

  /** The true ranking: all eligible slots with their exact scores, in any listing. */
  ghost predicate ListsAll(c: Corpus, e: seq<Scored>) {
    Distinct(e) && forall x :: x in e <==> Eligible(c, x.index) && x == Exact(c, x.index)
  }

  lemma ScoredNeighbourReturned(c: Corpus, e: seq<Scored>, w: Work, k: nat, x: Scored)
    requires ListsAll(c, e) && Tracks(c, w) && x in TopK(e, k) && x in w.scored
    ensures x in TopK(w.scored, k)
  {
    assert Distinct(w.scored) && Elems(w.scored) <= Elems(e);
    TrueNeighboursSurvive(e, w.scored, k, x);
  }

  /** Recall never regresses: a true top-`k` neighbour returned by one stage is returned by every
      later stage, and one that has been scored at all is returned. */
  lemma RecallAcrossStages(c: Corpus, routes: Profile -> Route, limits: Limits, k: nat, escalate: Confidence,
                           e: seq<Scored>, i: nat, j: nat, x: Scored)
    requires ListsAll(c, e) && x in TopK(e, k)
    requires var r := Stages(c, routes, limits, k, escalate); i <= j < |r| && x in r[i].scored
    ensures var r := Stages(c, routes, limits, k, escalate);
      x in TopK(r[i].scored, k) && x in TopK(r[j].scored, k)
  {
    StagesKeep(c, routes, limits, k, escalate);
    RecallGrows(c, Stages(c, routes, limits, k, escalate), k, e, i, j, x);
  }

  lemma RecallGrows(c: Corpus, r: seq<Work>, k: nat, e: seq<Scored>, i: nat, j: nat, x: Scored)
    requires ListsAll(c, e) && x in TopK(e, k) && Growing(c, NoWork, r) && i <= j < |r| && x in r[i].scored
    ensures x in TopK(r[i].scored, k) && x in TopK(r[j].scored, k)
  {
    assert Extends(c, NoWork, r[i]) && Extends(c, NoWork, r[j]) && (i < j ==> Extends(c, r[i], r[j]));
    assert x in Elems(r[i].scored) && x in Elems(r[j].scored);
    ScoredNeighbourReturned(c, e, r[i], k, x);
    ScoredNeighbourReturned(c, e, r[j], k, x);
  }

  // ---- the graph fallback ----------------------------------------------------------------------

  /** `entry(idx).or_insert(score)`: graph hits join unless their slot was scored already. */
  function Merged(scored: seq<Scored>, graph: seq<Scored>): seq<Scored>
    decreases |graph|
  {
    if graph == [] then scored
    else Merged(if Names(scored, graph[0].index) then scored else scored + [graph[0]], graph[1..])
  }

  lemma {:induction false} MergedFacts(scored: seq<Scored>, graph: seq<Scored>)
    requires OncePerSlot(scored)
    ensures var m := Merged(scored, graph);
      && OncePerSlot(m) && scored <= m
      && (forall x :: x in m ==> x in scored || x in graph)
      && (forall x :: x in graph ==> Names(m, x.index))
    decreases |graph|
  {
    if graph != [] {
      var g := graph[0];
      var next := if Names(scored, g.index) then scored else scored + [g];
      if !Names(scored, g.index) {
        forall j | 0 <= j < |scored| ensures scored[j].index != g.index { assert scored[j] in scored; }
      }
      MergedFacts(next, graph[1..]);
      var m := Merged(scored, graph);
      assert Names(next, g.index);
      var y :| y in next && y.index == g.index;
      assert y in m;
    }
  }

  ghost predicate Truthful(c: Corpus, y: Scored) { Eligible(c, y.index) && y == Exact(c, y.index) }

  /** Members ahead of `x` that are eligible with exact scores never are too many for a true neighbour. */
  lemma TruthfulAhead(c: Corpus, e: seq<Scored>, m: seq<Scored>, k: nat, x: Scored)
    requires ListsAll(c, e) && x in TopK(e, k) && forall y :: y in AheadOf(m, x) ==> Truthful(c, y)
    ensures |AheadOf(m, x)| < k
  {
    TopKMember(e, k, x);
    forall y | y in AheadOf(m, x) ensures y in AheadOf(e, x) { assert Truthful(c, y); }
    SubsetSize(AheadOf(m, x), AheadOf(e, x));
  }

  /** The merge keeps a true neighbour already scored if the graph hits ahead of it are truthful. */
  lemma FallbackKeepsRecall(c: Corpus, e: seq<Scored>, w: Work, graph: seq<Scored>, k: nat, x: Scored)
    requires ListsAll(c, e) && Tracks(c, w) && x in TopK(e, k) && x in w.scored
    requires forall y :: y in graph && Ahead(y, x) ==> Truthful(c, y)
    ensures x in TopK(Merged(w.scored, graph), k)
  {
    var m := Merged(w.scored, graph);
    MergedFacts(w.scored, graph);
    assert Distinct(m) && x in m;
    TopKMember(m, k, x);
    forall y | y in AheadOf(m, x) ensures Truthful(c, y) { assert y in w.scored || y in graph; }
    TruthfulAhead(c, e, m, k, x);
  }

  /** The graph of a corpus, as a search of it sees it. */
  ghost predicate Graphs(c: Corpus, s: Descent.Searcher, sp: Descent.Space, roots: seq<nat>) {
    Descent.Fit(s) && Descent.Proper(sp) && Descent.RootsIn(sp, roots) && sp.live == c.live
  }

  /** Where the graph is entered at the base layer, and how many it returns. */
  datatype Way = Way(roots: seq<nat>, top: nat, ef: nat)

  /** The graph hits handed to the merge. */
  ghost function GraphOf(c: Corpus, s: Descent.Searcher, sp: Descent.Space, way: Way, k: nat): seq<Scored>
    requires Graphs(c, s, sp, way.roots)
  {
    Descent.GraphSearch(s, sp, c.score, c.mask, way.roots, way.top, way.ef, k)
  }

  ghost function Entry(c: Corpus, s: Descent.Searcher, sp: Descent.Space, way: Way): Scored
    requires Graphs(c, s, sp, way.roots) && way.roots != []
  {
    Descent.Landing(s, sp, c.score, way.roots, way.top, 0)
  }

  /** Every graph hit is live with its exact score; only the slot the base layer is entered at may fail
      the filter. If the filter admits that slot, or there is none, all hits are truthful. */
  lemma GraphHitsTruthful(c: Corpus, s: Descent.Searcher, sp: Descent.Space, way: Way, k: nat)
    requires Graphs(c, s, sp, way.roots)
    ensures forall y :: y in GraphOf(c, s, sp, way, k) ==>
      y.index in c.live && y == Exact(c, y.index) && (Truthful(c, y) || (way.roots != [] && y == Entry(c, s, sp, way)))
    ensures way.roots == [] || Permits(c.mask, Entry(c, s, sp, way).index) ==>
      forall y :: y in GraphOf(c, s, sp, way, k) ==> Truthful(c, y)
  {
    Descent.GraphSearchFacts(s, sp, c.score, c.mask, way.roots, way.top, way.ef, k);
  }

  /** What the adaptive search returns. */
  ghost function AdaptiveHits(c: Corpus, routes: Profile -> Route, limits: Limits, k: nat, escalate: Confidence,
                              fallback: bool, graph: seq<Scored>): seq<Scored> {
    var w := Final(c, routes, limits, k, escalate);
    TopK(if fallback then Merged(w.scored, graph) else w.scored, k)
  }

  /** The work after the last stage. */
  ghost function Final(c: Corpus, routes: Profile -> Route, limits: Limits, k: nat, escalate: Confidence): Work {
    var r := Stages(c, routes, limits, k, escalate);
    r[|r| - 1]
  }

  const MAX_VALIDATED: nat := 100_000

  /** The graph is searched as well: Strict is not convinced, the policy allows it, the corpus is small. */
  ghost predicate FallsBack(c: Corpus, routes: Profile -> Route, limits: Limits, k: nat, escalate: Confidence,
                            allowGraph: bool) {
    var w := Stages(c, routes, limits, k, escalate);
    |w| == 3 && escalate(Strict, w[2], TopK(w[1].scored, k)) && allowGraph && |c.live| <= MAX_VALIDATED
  }

  /** It does exactly when every stage recommends escalation, the policy allows it and the corpus is small. */
  lemma FallsBackIff(c: Corpus, routes: Profile -> Route, limits: Limits, k: nat, escalate: Confidence,
                     allowGraph: bool)
    ensures var fast := Stage(c, routes(Fast), limits, Fast, k, NoWork);
      var balanced := Stage(c, routes(Balanced), limits, Balanced, k, fast);
      var strict := Stage(c, routes(Strict), limits, Strict, k, balanced);
      FallsBack(c, routes, limits, k, escalate, allowGraph) <==>
        && escalate(Fast, fast, []) && escalate(Balanced, balanced, TopK(fast.scored, k))
        && escalate(Strict, strict, TopK(balanced.scored, k)) && allowGraph && |c.live| <= 100_000
  {
    StagesFollow(c, routes, limits, k, escalate);
  }

  ghost predicate SomeStageScored(c: Corpus, routes: Profile -> Route, limits: Limits, k: nat, escalate: Confidence,
                                  x: Scored) {
    exists w :: w in Stages(c, routes, limits, k, escalate) && x in w.scored
  }

  /** Without a fallback the hits are the best `k` of all eligible slots visited. */
  lemma HitsAreBest(c: Corpus, routes: Profile -> Route, limits: Limits, k: nat, escalate: Confidence,
                    graph: seq<Scored>)
    ensures BestOf(c, EligibleIn(c, Final(c, routes, limits, k, escalate).visited), k,
                   AdaptiveHits(c, routes, limits, k, escalate, false, graph))
  {
    var r := Stages(c, routes, limits, k, escalate);
    StagesKeep(c, routes, limits, k, escalate);
    var w := r[|r| - 1];
    assert Extends(c, NoWork, w);
    assert Lists(c, EligibleIn(c, w.visited), w.scored);
    BestListed(c, EligibleIn(c, w.visited), w.scored, k);
  }

  /** What a stage scored is in the last one. */
  lemma FinalKeeps(c: Corpus, routes: Profile -> Route, limits: Limits, k: nat, escalate: Confidence, x: Scored)
    requires SomeStageScored(c, routes, limits, k, escalate, x)
    ensures var w := Final(c, routes, limits, k, escalate); Tracks(c, w) && x in w.scored
  {
    var r := Stages(c, routes, limits, k, escalate);
    StagesKeep(c, routes, limits, k, escalate);
    var v :| v in r && x in v.scored;
    var i :| 0 <= i < |r| && r[i] == v;
    var w := r[|r| - 1];
    assert Extends(c, NoWork, w) && (i < |r| - 1 ==> Extends(c, r[i], w));
    assert x in Elems(r[i].scored);
    assert x in Elems(w.scored);
  }

  /** Stages, graph search and merge together: every true top-`k` neighbour any stage has scored is among
      the hits, fallback or not, if the filter admits the slot the graph is entered at. */
  lemma AdaptiveKeepsRecall(c: Corpus, routes: Profile -> Route, limits: Limits, k: nat, escalate: Confidence,
                            fallback: bool, s: Descent.Searcher, sp: Descent.Space, way: Way, e: seq<Scored>, x: Scored)
    requires Graphs(c, s, sp, way.roots) && ListsAll(c, e) && x in TopK(e, k)
    requires SomeStageScored(c, routes, limits, k, escalate, x)
    requires way.roots == [] || Permits(c.mask, Entry(c, s, sp, way).index)
    ensures x in AdaptiveHits(c, routes, limits, k, escalate, fallback, GraphOf(c, s, sp, way, k))
  {
    FinalKeeps(c, routes, limits, k, escalate, x);
    GraphHitsTruthful(c, s, sp, way, k);
    ScoredNeighbourReturned(c, e, Final(c, routes, limits, k, escalate), k, x);
    FallbackKeepsRecall(c, e, Final(c, routes, limits, k, escalate), GraphOf(c, s, sp, way, k), k, x);
  }

  // ---- the search as it runs -------------------------------------------------------------------

  /** Scores the unvisited candidates of a stage. */
  method ScanCandidates(c: Corpus, ns: seq<nat>, w0: Work) returns (w: Work)
    ensures w == Scan(c, ns, w0)
  {
    w := w0;
    for i := 0 to |ns|
      invariant Scan(c, ns[i..], w) == Scan(c, ns, w0)
    {
      var n := ns[i];
      assert ns[i..][1..] == ns[i + 1..];
      if n in w.visited { continue; }
      w := w.(visited := w.visited + {n});
      if n !in c.live {
        w := w.(nonLive := w.nonLive + 1);
        continue;
      }
      if !Permits(c.mask, n) {
        w := w.(filtered := w.filtered + 1);
        continue;
      }
      w := w.(scored := w.scored + [Scored(n, c.score(n))]);
    }
  }

  method TakeMore(c: Corpus, ns: seq<nat>, w0: Work) returns (w: Work)
    ensures w == TakeEligible(c, ns, w0)
  {
    w := w0;
    for i := 0 to |ns|
      invariant TakeEligible(c, ns[i..], w) == TakeEligible(c, ns, w0)
    {
      var n := ns[i];
      assert ns[i..][1..] == ns[i + 1..];
      if n !in w.visited && n in c.live && Permits(c.mask, n) {
        w := w.(visited := w.visited + {n}, scored := w.scored + [Scored(n, c.score(n))]);
      }
    }
  }

  /** One pass of the stage loop. */
  method RunStage(c: Corpus, route: Route, limits: Limits, p: Profile, k: nat, w0: Work) returns (w: Work)
    ensures w == Stage(c, route, limits, p, k, w0) && Ranked(w.scored)
  {
    var cap, l := CandidateCap(p), StageLimits(p, limits);
    var cands := Take(route.voted, cap);
    w := w0.(found := [], nonLive := 0, filtered := 0, scanned := 0, added := 0);
    w := ScanCandidates(c, Take(cands, EvalLimit(p, c.mask, |cands|)), w);
    if c.mask.Some? && |w.scored| < k && p != Strict {
      w := TakeMore(c, Take(Skip(route.expanded, cap), cap), w);
    }
    RankSorts(w.scored);
    w := w.(scored := Rank(w.scored));
    var seeds := TakeSeeds(w.scored, l.seeds);
    w := ExpandSeeds(c, seeds, l.degree, w);
    RankSorts(w.found);
    SeedsOfRanked(w.found, l.second);
    var second := TakeSeeds(Rank(w.found), l.second);
    w := ExpandSeeds(c, second, l.degree, w.(found := []));
    RankSorts(w.scored);
    w := w.(scored := Rank(w.scored));
  }


  /** The stage loop: escalates while the confidence does not suffice, at most to Strict. */
  method RunStages(c: Corpus, routes: Profile -> Route, limits: Limits, k: nat, escalate: Confidence)
      returns (w: Work, stages: nat, convinced: bool)
    ensures var r := Stages(c, routes, limits, k, escalate); stages == |r| && w == r[|r| - 1]
    ensures Ranked(w.scored)
    ensures var r := Stages(c, routes, limits, k, escalate);
      convinced <==> |r| < 3 || !escalate(Strict, r[2], TopK(r[1].scored, k))
  {
    var p: Profile, previous: seq<Scored> := Fast, [];
    w, stages, convinced := NoWork, 0, false;
    ghost var step, all := StageOf(c, routes, limits, k), Stages(c, routes, limits, k, escalate);
    while true
      invariant stages <= |all| && Escalation(step, k, escalate, p, w, previous) == all[stages..]
      invariant stages == match p case Fast => 0 case Balanced => 1 case Strict => 2
      invariant stages > 0 ==> previous == TopK(all[stages - 1].scored, k)
      decreases 3 - stages
    {
      ghost var rest := all[stages..];
      w := RunStage(c, routes(p), limits, p, k, w);
      stages := stages + 1;
      convinced := !escalate(p, w, previous);
      assert rest[0] == w == all[stages - 1];
      if convinced || p == Strict {
        assert |rest| == 1;
        break;
      }
      previous, p := w.scored[..Min(k, |w.scored|)], Next(p);
      TopKIs(w.scored, w.scored, k);
      assert rest[1..] == all[stages..];
    }
  }

  datatype Outcome =
    | DimensionMismatch(expected: nat, actual: nat)
    | Found(hits: seq<Scored>, stages: nat, fallback: bool)

  /** `search_indices_adaptive`: the stages, then, if allowed and still unconvinced, a merge with the hits
      of a graph search. The result is the first `k` of everything scored, or of the merge. */
  method SearchAdaptive(c: Corpus, dimension: nat, queryDim: nat, routes: Profile -> Route, limits: Limits, k: nat,
                        escalate: Confidence, allowGraph: bool, s: Descent.Searcher, sp: Descent.Space, way: Way)
      returns (r: Outcome)
    requires Graphs(c, s, sp, way.roots)
    ensures queryDim != dimension ==> r == Outcome.DimensionMismatch(dimension, queryDim)
    ensures queryDim == dimension && (k == 0 || c.live == {}) ==> r == Found([], 0, false)
    ensures queryDim == dimension && k > 0 && c.live != {} ==>
      var fallback := FallsBack(c, routes, limits, k, escalate, allowGraph);
      r == Found(AdaptiveHits(c, routes, limits, k, escalate, fallback, GraphOf(c, s, sp, way, k)),
                 |Stages(c, routes, limits, k, escalate)|, fallback)
  {
    if queryDim != dimension { return Outcome.DimensionMismatch(dimension, queryDim); }
    if k == 0 || c.live == {} { return Found([], 0, false); }
    var w, stages, convinced := RunStages(c, routes, limits, k, escalate);
    var fallback := !convinced && allowGraph && |c.live| <= MAX_VALIDATED;
    StagesKeep(c, routes, limits, k, escalate);
    var hits;
    if fallback {
      var graph := Descent.SearchGraph(s, sp, c.score, c.mask, way.roots, way.top, way.ef, k);
      hits := MergedTop(w.scored, graph, k);
    } else {
      hits := w.scored[..Min(k, |w.scored|)];
      TopKIs(w.scored, w.scored, k);
    }
    r := Found(hits, stages, fallback);
  }

  method MergedTop(scored: seq<Scored>, graph: seq<Scored>, k: nat) returns (hits: seq<Scored>)
    requires OncePerSlot(scored)
    ensures hits == TopK(Merged(scored, graph), k)
  {
    var merged := MergeHits(scored, graph);
    RankOfPermutation(merged, Merged(scored, graph));
    var ranked := Rank(merged);
    hits := ranked[..Min(k, |ranked|)];
  }

  /** The merge as it runs, through a hash map whose iteration order is unspecified; ranking makes the
      order irrelevant. */
  method MergeHits(scored: seq<Scored>, graph: seq<Scored>) returns (m: seq<Scored>)
    requires OncePerSlot(scored)
    ensures multiset(m) == multiset(Merged(scored, graph))
  {
    var combined: map<nat, real> := map[];
    for i := 0 to |scored|
      invariant Holds(combined, scored[..i])
    {
      combined := combined[scored[i].index := scored[i].score];
      assert scored[..i + 1] == scored[..i] + [scored[i]];
    }
    assert scored[..|scored|] == scored;
    ghost var list := scored;
    for i := 0 to |graph|
      invariant Merged(list, graph[i..]) == Merged(scored, graph)
      invariant OncePerSlot(list) && Holds(combined, list)
    {
      assert graph[i..][1..] == graph[i + 1..];
      NamesWhenHeld(combined, list, graph[i].index);
      if graph[i].index !in combined {
        AppendNew(list, graph[i]);
        combined := combined[graph[i].index := graph[i].score];
        list := list + [graph[i]];
      }
    }
    m := Entries(combined);
    SameEntries(combined, m, list);
  }

  /** `list` has an entry for each pair of the map, and no other. */
  ghost predicate Holds(m: map<nat, real>, list: seq<Scored>) {
    forall x: Scored :: x in list <==> x.index in m && m[x.index] == x.score
  }

  lemma NamesWhenHeld(m: map<nat, real>, list: seq<Scored>, i: nat)
    requires Holds(m, list)
    ensures i in m <==> Names(list, i)
  {
    if i in m { assert Scored(i, m[i]) in list; }
  }

  lemma AppendNew(list: seq<Scored>, x: Scored)
    requires OncePerSlot(list) && !Names(list, x.index)
    ensures OncePerSlot(list + [x])
  {
    forall j | 0 <= j < |list| ensures list[j].index != x.index { assert list[j] in list; }
  }

  lemma SameEntries(m: map<nat, real>, a: seq<Scored>, b: seq<Scored>)
    requires OncePerSlot(a) && OncePerSlot(b) && Holds(m, a) && Holds(m, b)
    ensures multiset(a) == multiset(b)
  {
    forall x ensures multiset(a)[x] == multiset(b)[x] {
      if x in a { DistinctCounts(a, x); }
      if x in b { DistinctCounts(b, x); }
    }
  }

  method Entries(m: map<nat, real>) returns (list: seq<Scored>)
    ensures OncePerSlot(list) && Holds(m, list)
  {
    list := [];
    var todo := m.Keys;
    while todo != {}
      invariant todo <= m.Keys && OncePerSlot(list)
      invariant forall x: Scored :: x in list <==> x.index in m.Keys - todo && m[x.index] == x.score
    {
      var i :| i in todo;
      AppendNew(list, Scored(i, m[i]));
      list, todo := list + [Scored(i, m[i])], todo - {i};
    }
  }
}
