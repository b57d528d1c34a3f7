/** Exactly when the graph fallback of the adaptive search keeps the true neighbours already scored. The
    graph search does not test the slot it enters the base layer at; a filter may reject it. */
module Fallback {
  import opened Basics
  import opened Ranking
  import opened WitnessLists
  import opened Hops
  import opened Adaptive
  import LayerCore
  import LayerOptimality
  import Superposition
  import Descent

  // ---- one neighbour ---------------------------------------------------------------------------

  /** Graph hits of which one, `entry`, is a slot the filter rejects, and the others are truthful. */
  ghost predicate OneStranger(c: Corpus, graph: seq<Scored>, entry: Scored) {
    entry in graph && !Eligible(c, entry.index) && forall y :: y in graph && y != entry ==> Truthful(c, y)
  }

  lemma StrangerJoins(c: Corpus, w: Work, graph: seq<Scored>, entry: Scored)
    requires Tracks(c, w) && OneStranger(c, graph, entry)
    ensures entry in Merged(w.scored, graph)
    ensures forall y :: y in Merged(w.scored, graph) && y != entry ==> Truthful(c, y)
  {
    MergedFacts(w.scored, graph);
    var m := Merged(w.scored, graph);
    assert Names(m, entry.index);
    var y :| y in m && y.index == entry.index;
    assert y in w.scored || y in graph;
  }

  lemma WithoutOne(s: set<Scored>, x: Scored)
    ensures |s| == |s - {x}| + if x in s then 1 else 0
  {
    if x in s { assert s == (s - {x}) + {x}; } else { assert s == s - {x}; }
  }

  lemma FullSubset(a: set<Scored>, b: set<Scored>)
    requires a <= b
    ensures |a| <= |b| && (|a| == |b| <==> a == b)
  {
    SubsetSize(a, b);
    if a != b {
      var x :| x in b && x !in a;
      SubsetSize(a + {x}, b);
    }
  }

  /** `x` is the `k`-th true neighbour, `entry` is ahead of it, and every other true neighbour is there to
      take the places before it. */
  ghost predicate Crowded(e: seq<Scored>, m: seq<Scored>, k: nat, x: Scored, entry: Scored) {
    Ahead(entry, x) && |AheadOf(e, x)| == k - 1 && AheadOf(e, x) <= Elems(m)
  }

  /** Others ahead of `x` in the merge are true neighbours ahead of it. */
  lemma OthersAhead(c: Corpus, e: seq<Scored>, m: seq<Scored>, x: Scored, entry: Scored)
    requires ListsAll(c, e) && !Eligible(c, entry.index) && forall y :: y in m && y != entry ==> Truthful(c, y)
    ensures AheadOf(m, x) - {entry} <= AheadOf(e, x)
    ensures AheadOf(e, x) <= Elems(m) <==> AheadOf(m, x) - {entry} == AheadOf(e, x)
  {
    forall y | y in AheadOf(m, x) - {entry} ensures y in AheadOf(e, x) { assert Truthful(c, y); }
    if AheadOf(e, x) <= Elems(m) {
      forall y | y in AheadOf(e, x) ensures y in AheadOf(m, x) - {entry} { assert y in Elems(m); }
    }
  }

  /** Only the `k`-th true neighbour can be lost, only to a rejected slot ahead of it, and only when all
      the others are present. */
  lemma NeighbourLostIff(c: Corpus, e: seq<Scored>, w: Work, graph: seq<Scored>, k: nat, x: Scored, entry: Scored)
    requires ListsAll(c, e) && Tracks(c, w) && x in TopK(e, k) && x in w.scored && OneStranger(c, graph, entry)
    ensures x !in TopK(Merged(w.scored, graph), k) <==> Crowded(e, Merged(w.scored, graph), k, x, entry)
  {
    var m := Merged(w.scored, graph);
    MergedFacts(w.scored, graph);
    StrangerJoins(c, w, graph, entry);
    assert Distinct(m) && x in m && x != entry;
    TopKMember(m, k, x);
    TopKMember(e, k, x);
    OthersAhead(c, e, m, x, entry);
    WithoutOne(AheadOf(m, x), entry);
    FullSubset(AheadOf(m, x) - {entry}, AheadOf(e, x));
  }

  // ---- every neighbour, on corpus, filter and graph alone --------------------------------------

  lemma TopKSize(e: seq<Scored>, k: nat)
    ensures |TopK(e, k)| == Min(k, |e|)
  {
    RankSorts(e);
    assert |Rank(e)| == |multiset(Rank(e))| == |multiset(e)| == |e|;
  }

  /** The `k`-th true neighbour. */
  ghost function Kth(e: seq<Scored>, k: nat): (x: Scored)
    requires 0 < k <= |e|
    ensures x in TopK(e, k)
  {
    TopKSize(e, k);
    TopK(e, k)[k - 1]
  }

  /** The `k`-th of the true ranking is the one with `k - 1` ahead of it. */
  lemma KthNeighbour(e: seq<Scored>, k: nat, x: Scored)
    requires Distinct(e) && 0 < k && x in e
    ensures |AheadOf(e, x)| == k - 1 <==> k <= |e| && x == Kth(e, k)
  {
    var r := Rank(e);
    RankSorts(e);
    RankElems(e);
    DistinctPermutation(e, r);
    assert |r| == |multiset(r)| == |multiset(e)| == |e|;
    assert AheadOf(e, x) == AheadOf(r, x);
    assert x in r;
    var i :| 0 <= i < |r| && r[i] == x;
    AheadOfRanked(r, i);
  }

  /** The rejected slot is ahead of the `k`-th true neighbour. */
  ghost predicate Threatens(e: seq<Scored>, k: nat, entry: Scored) { 0 < k <= |e| && Ahead(entry, Kth(e, k)) }

  lemma OncePerSlotTruth(c: Corpus, e: seq<Scored>)
    requires ListsAll(c, e)
    ensures OncePerSlot(e)
  {
    forall i, j | 0 <= i < j < |e| ensures e[i].index != e[j].index { assert e[i] in e && e[j] in e; }
  }

  /** The work in which every eligible slot has been scored. */
  ghost function Complete(e: seq<Scored>): Work { NoWork.(visited := set x | x in e :: x.index, scored := e) }

  lemma CompleteTracks(c: Corpus, e: seq<Scored>)
    requires ListsAll(c, e)
    ensures Tracks(c, Complete(e))
  {
    OncePerSlotTruth(c, e);
  }

  lemma ThreatenedIsLost(c: Corpus, e: seq<Scored>, w: Work, graph: seq<Scored>, k: nat, entry: Scored)
    requires ListsAll(c, e) && Tracks(c, w) && OneStranger(c, graph, entry) && Threatens(e, k, entry)
    requires Elems(TopK(e, k)) <= Elems(w.scored)
    ensures var x := Kth(e, k); x in w.scored && x !in TopK(Merged(w.scored, graph), k)
  {
    var x := Kth(e, k);
    assert x in Elems(TopK(e, k));
    TopKMember(e, k, x);
    KthNeighbour(e, k, x);
    MergedFacts(w.scored, graph);
    forall y | y in AheadOf(e, x) ensures y in Elems(Merged(w.scored, graph)) {
      AheadIsBetter(e, k, x, y);
      assert y in Elems(TopK(e, k));
      assert y in Elems(w.scored);
      assert y in w.scored;
    }
    NeighbourLostIff(c, e, w, graph, k, x, entry);
  }

  /** Whoever is ahead of a true neighbour is one. */
  lemma AheadIsBetter(e: seq<Scored>, k: nat, x: Scored, y: Scored)
    requires Distinct(e) && x in TopK(e, k) && y in AheadOf(e, x)
    ensures y in TopK(e, k)
  {
    TopKMember(e, k, x);
    TopKMember(e, k, y);
    forall z | z in AheadOf(e, y) ensures z in AheadOf(e, x) {}
    SubsetSize(AheadOf(e, y), AheadOf(e, x));
  }

  /** Whatever has been scored, the merge keeps every true neighbour among it: exactly when there are fewer
      than `k` true neighbours or the rejected slot is not ahead of the `k`-th. */
  lemma FallbackKeepsRecallIff(c: Corpus, e: seq<Scored>, graph: seq<Scored>, k: nat, entry: Scored)
    requires k > 0 && ListsAll(c, e) && OneStranger(c, graph, entry)
    ensures (forall w, x | Tracks(c, w) && x in TopK(e, k) && x in w.scored :: x in TopK(Merged(w.scored, graph), k))
       <==> |e| < k || !Ahead(entry, Kth(e, k))
  {
    if Threatens(e, k, entry) {
      CompleteTracks(c, e);
      TopKWithin(e, k);
      ThreatenedIsLost(c, e, Complete(e), graph, k, entry);
      var w, x := Complete(e), Kth(e, k);
      assert Tracks(c, w) && x in TopK(e, k) && x in w.scored && x !in TopK(Merged(w.scored, graph), k);
    } else {
      forall w, x | Tracks(c, w) && x in TopK(e, k) && x in w.scored ensures x in TopK(Merged(w.scored, graph), k) {
        TopKMember(e, k, x);
        KthNeighbour(e, k, x);
        NeighbourLostIff(c, e, w, graph, k, x, entry);
      }
    }
  }

  lemma TopKWithin(e: seq<Scored>, k: nat)
    ensures Elems(TopK(e, k)) <= Elems(e)
  {
    RankElems(e);
    forall x | x in Elems(TopK(e, k)) ensures x in e { assert x in Rank(e) && x in Elems(Rank(e)); }
  }

  // ---- the whole search ------------------------------------------------------------------------

  /** The slot the graph is entered at is returned although the filter rejects it. */
  ghost predicate Intrudes(c: Corpus, s: Descent.Searcher, sp: Descent.Space, way: Way, k: nat)
    requires Graphs(c, s, sp, way.roots)
  {
    && way.roots != [] && !Permits(c.mask, Entry(c, s, sp, way).index)
    && Entry(c, s, sp, way) in GraphOf(c, s, sp, way, k)
  }

  lemma GraphStrangers(c: Corpus, s: Descent.Searcher, sp: Descent.Space, way: Way, k: nat)
    requires Graphs(c, s, sp, way.roots)
    ensures Intrudes(c, s, sp, way, k) ==> OneStranger(c, GraphOf(c, s, sp, way, k), Entry(c, s, sp, way))
    ensures !Intrudes(c, s, sp, way, k) ==> forall y :: y in GraphOf(c, s, sp, way, k) ==> Truthful(c, y)
  {
    GraphHitsTruthful(c, s, sp, way, k);
  }

  /** What the search returns, given the routes, the confidence, the policy and the graph. */
  ghost function Returned(c: Corpus, routes: Profile -> Route, limits: Limits, k: nat, escalate: Confidence,
                          allowGraph: bool, graph: seq<Scored>): seq<Scored> {
    AdaptiveHits(c, routes, limits, k, escalate, FallsBack(c, routes, limits, k, escalate, allowGraph), graph)
  }

  /** Stages, graph search and merge: a true neighbour some stage scored is missing from the hits exactly
      when the search falls back, the slot the graph is entered at intrudes and is ahead of it, and it is
      the `k`-th with all the others present. */
  lemma AdaptiveLosesIff(c: Corpus, routes: Profile -> Route, limits: Limits, k: nat, escalate: Confidence,
                         allowGraph: bool, s: Descent.Searcher, sp: Descent.Space, way: Way, e: seq<Scored>, x: Scored)
    requires Graphs(c, s, sp, way.roots) && ListsAll(c, e) && x in TopK(e, k)
    requires SomeStageScored(c, routes, limits, k, escalate, x)
    ensures var graph := GraphOf(c, s, sp, way, k);
      x !in Returned(c, routes, limits, k, escalate, allowGraph, graph)
      <==> && FallsBack(c, routes, limits, k, escalate, allowGraph) && Intrudes(c, s, sp, way, k)
           && Crowded(e, Merged(Final(c, routes, limits, k, escalate).scored, graph), k, x, Entry(c, s, sp, way))
  {
    FinalKeeps(c, routes, limits, k, escalate, x);
    GraphStrangers(c, s, sp, way, k);
    if FallsBack(c, routes, limits, k, escalate, allowGraph) {
      MergeLosesIff(c, e, Final(c, routes, limits, k, escalate), GraphOf(c, s, sp, way, k), k, x,
                    Intrudes(c, s, sp, way, k), if way.roots == [] then x else Entry(c, s, sp, way));
    } else {
      ScoredNeighbourReturned(c, e, Final(c, routes, limits, k, escalate), k, x);
    }
  }

  lemma MergeLosesIff(c: Corpus, e: seq<Scored>, w: Work, graph: seq<Scored>, k: nat, x: Scored, stranger: bool,
                      entry: Scored)
    requires ListsAll(c, e) && Tracks(c, w) && x in TopK(e, k) && x in w.scored
    requires if stranger then OneStranger(c, graph, entry) else forall y :: y in graph ==> Truthful(c, y)
    ensures x !in TopK(Merged(w.scored, graph), k) <==> stranger && Crowded(e, Merged(w.scored, graph), k, x, entry)
  {
    if stranger { NeighbourLostIff(c, e, w, graph, k, x, entry); } else { FallbackKeepsRecall(c, e, w, graph, k, x); }
  }

  // ---- every route and every confidence --------------------------------------------------------

  /** Every stage is routed to the same slots, and none is enough. */
  function RouteTo(ns: seq<nat>): Profile -> Route { (p: Profile) => Route(ns, []) }

  function Always(): Confidence { (p: Profile, w: Work, previous: seq<Scored>) => true }

  /** The Strict stage scores every eligible slot it is routed to, up to its cap. */
  lemma StrictScores(c: Corpus, route: Route, limits: Limits, k: nat, w: Work, i: nat)
    requires Tracks(c, w) && i in route.voted && |route.voted| <= 2048 && Eligible(c, i)
    ensures Exact(c, i) in Elems(Stage(c, route, limits, Strict, k, w).scored)
  {
    var w0 := w.(found := [], nonLive := 0, filtered := 0, scanned := 0, added := 0);
    assert Take(Take(route.voted, 2048), |route.voted|) == route.voted == Take(route.voted, 2048);
    ScanKeeps(c, route.voted, w0);
    StageKeeps(c, route, limits, Strict, k, w);
    assert i in Elems(route.voted);
    assert Exact(c, i) in StageCandidates(c, route, Strict, k, w).scored;
    assert Exact(c, i) in Elems(StageCandidates(c, route, Strict, k, w).scored);
  }

  lemma AlwaysThree(step: Step, k: nat)
    ensures var r := Escalation(step, k, Always(), Fast, NoWork, []); |r| == 3 && r[2] == step(Strict, r[1])
  {
    var w1 := step(Fast, NoWork);
    var w2 := step(Balanced, w1);
    assert Escalation(step, k, Always(), Strict, w2, TopK(w2.scored, k)) == [step(Strict, w2)];
    assert Escalation(step, k, Always(), Balanced, w1, TopK(w1.scored, k)) == [w2] + [step(Strict, w2)];
  }

  /** Routed to the true neighbours and never convinced, the search scores them all. */
  lemma RoutedScores(c: Corpus, limits: Limits, k: nat, t: seq<Scored>)
    requires |t| <= 2048 && forall x :: x in t ==> Truthful(c, x)
    ensures |Stages(c, RouteTo(Indices(t)), limits, k, Always())| == 3
    ensures Tracks(c, Final(c, RouteTo(Indices(t)), limits, k, Always()))
    ensures Elems(t) <= Elems(Final(c, RouteTo(Indices(t)), limits, k, Always()).scored)
  {
    var routes := RouteTo(Indices(t));
    var step := StageOf(c, routes, limits, k);
    AlwaysThree(step, k);
    StagesKeep(c, routes, limits, k, Always());
    var r := Stages(c, routes, limits, k, Always());
    assert Extends(c, NoWork, r[1]) && Extends(c, NoWork, r[2]);
    forall x | x in Elems(t) ensures x in Elems(r[2].scored) {
      assert x in t && Truthful(c, x);
      var i :| 0 <= i < |t| && t[i] == x;
      assert Indices(t)[i] == x.index;
      StrictScores(c, routes(Strict), limits, k, r[1], x.index);
    }
  }

  /** If some stage scored `x`, the hits have it. */
  ghost predicate Kept(c: Corpus, routes: Profile -> Route, limits: Limits, k: nat, escalate: Confidence,
                       allowGraph: bool, graph: seq<Scored>, x: Scored) {
    SomeStageScored(c, routes, limits, k, escalate, x) ==>
      x in Returned(c, routes, limits, k, escalate, allowGraph, graph)
  }

  /** A threatened neighbour is lost on a run that does fall back. */
  lemma AdaptiveLoses(c: Corpus, limits: Limits, k: nat, graph: seq<Scored>, e: seq<Scored>, entry: Scored)
    requires ListsAll(c, e) && OneStranger(c, graph, entry) && Threatens(e, k, entry) && k <= 2048
    requires |c.live| <= MAX_VALIDATED
    ensures var routes := RouteTo(Indices(TopK(e, k)));
      FallsBack(c, routes, limits, k, Always(), true) && !Kept(c, routes, limits, k, Always(), true, graph, Kth(e, k))
  {
    var t, routes := TopK(e, k), RouteTo(Indices(TopK(e, k)));
    TopKSize(e, k);
    TopKWithin(e, k);
    forall x | x in t ensures Truthful(c, x) { assert x in Elems(t); assert x in Elems(e); assert x in e; }
    RoutedScores(c, limits, k, t);
    ThreatenedIsLost(c, e, Final(c, routes, limits, k, Always()), graph, k, entry);
    var r := Stages(c, routes, limits, k, Always());
    assert r[2] in r;
  }

  /** The search may fall back, to a graph entered at a slot that intrudes ahead of the `k`-th neighbour. */
  ghost predicate Exposed(c: Corpus, k: nat, allowGraph: bool, s: Descent.Searcher, sp: Descent.Space, way: Way,
                          e: seq<Scored>)
    requires Graphs(c, s, sp, way.roots)
  {
    && allowGraph && |c.live| <= MAX_VALIDATED
    && Intrudes(c, s, sp, way, k) && Threatens(e, k, Entry(c, s, sp, way))
  }

  /** The adaptive search keeps every true neighbour any stage scores, whatever the routes and the
      confidence, unless it is exposed; and if it is, for `k` up to the Strict cap, it does lose one. */
  lemma AdaptiveKeepsRecallIff(c: Corpus, limits: Limits, k: nat, allowGraph: bool, s: Descent.Searcher,
                               sp: Descent.Space, way: Way, e: seq<Scored>)
    requires k > 0 && Graphs(c, s, sp, way.roots) && ListsAll(c, e)
    ensures var graph, exposed := GraphOf(c, s, sp, way, k), Exposed(c, k, allowGraph, s, sp, way, e);
      && (!exposed ==> forall routes: Profile -> Route, escalate: Confidence, x | x in TopK(e, k) ::
            Kept(c, routes, limits, k, escalate, allowGraph, graph, x))
      && (exposed && k <= 2048 ==>
            !Kept(c, RouteTo(Indices(TopK(e, k))), limits, k, Always(), allowGraph, graph, Kth(e, k)))
  {
    var graph := GraphOf(c, s, sp, way, k);
    GraphStrangers(c, s, sp, way, k);
    if !Exposed(c, k, allowGraph, s, sp, way, e) {
      forall routes: Profile -> Route, escalate: Confidence, x | x in TopK(e, k)
        ensures Kept(c, routes, limits, k, escalate, allowGraph, graph, x)
      {
        if SomeStageScored(c, routes, limits, k, escalate, x) {
          AdaptiveLosesIff(c, routes, limits, k, escalate, allowGraph, s, sp, way, e, x);
          TopKMember(e, k, x);
          KthNeighbour(e, k, x);
        }
      }
    } else if k <= 2048 {
      AdaptiveLoses(c, limits, k, graph, e, Entry(c, s, sp, way));
    }
  }

  // ---- a true neighbour displaced --------------------------------------------------------------

  /** Two live slots, no edges, a filter for slot 1 only, and slot 0 the more similar one. */
  ghost function Lonely(witnesses: nat -> seq<nat>, layer0: nat -> seq<nat>): Corpus {
    Corpus({0, 1}, Some({1}), (i: nat) => if i == 0 then 1.0 else 0.5, witnesses, layer0)
  }

  function NoEdges(): Descent.Space { Descent.Space({0, 1}, 2, (l: nat) => [[], []]) }

  lemma OnlyEntryReachable(q: LayerCore.Query, n: nat)
    requires LayerCore.WellFormed(q) && forall i: nat :: i < |q.layer.adj| ==> q.layer.adj[i] == []
    ensures LayerOptimality.Reachable(q, n) <==> n == q.entry
  {
    if LayerOptimality.Reachable(q, n) {
      var w :| LayerOptimality.Walk(q, w) && w[|w| - 1] == n;
      LayerOptimality.ClosedHoldsWalk(q, {q.entry}, w);
    }
    assert LayerOptimality.Walk(q, [q.entry]) && [q.entry][|[q.entry]| - 1] == q.entry;
  }

  /** The graph search, whatever its heaps, attention and vectors, returns the filtered-out entry. */
  lemma LonelySearch(c: Corpus, s: Descent.Searcher, at: Scored, ef: nat)
    requires Descent.Fit(s) && ef > 0 && at == Exact(c, 0)
    ensures Descent.Proper(NoEdges())
    ensures Descent.SearchLevel(s, NoEdges(), 0, c.score, c.mask, at, ef) == [at]
  {
    var q := Descent.LevelQuery(NoEdges(), 0, c.score, c.mask, at, ef);
    forall n: nat ensures n in {0} <==> LayerOptimality.Reachable(q, n) { OnlyEntryReachable(q, n); }
    Superposition.SmallReachableSetReturned(s.e, q, s.att, Descent.AtLevel(s.geo, 0), {0});
    Descent.LevelFacts(s, NoEdges(), 0, c.score, c.mask, at, ef);
    var r := Descent.SearchLevel(s, NoEdges(), 0, c.score, c.mask, at, ef);
    ElemsSize(Indices(r));
    assert r[0].index in Elems(Indices(r));
  }

  lemma LonelyGraph(c: Corpus, s: Descent.Searcher, ef: nat)
    requires Descent.Fit(s) && ef > 0 && c.live == {0, 1}
    ensures var way := Way([0], 0, ef);
      Graphs(c, s, NoEdges(), way.roots) && GraphOf(c, s, NoEdges(), way, 1) == [Exact(c, 0)]
  {
    var at := Exact(c, 0);
    LonelySearch(c, s, at, ef);
    assert Descent.BestRoot(c.score, [0]) == at;
    assert Descent.GraphHits([at], c.live, 1) == [at];
  }

  lemma OneListed(x: Scored)
    ensures TopK([x], 1) == [x] && Kth([x], 1) == x && Indices([x]) == [x.index]
  {
    TopKIs([x], [x], 1);
  }

  /** Under a filter the adaptive search loses the only true neighbour: routed to it, never convinced and
      falling back to a graph without edges, whose search returns the slot it entered at untested. */
  lemma FilteredFallbackDisplaces(witnesses: nat -> seq<nat>, layer0: nat -> seq<nat>, limits: Limits,
                                  s: Descent.Searcher, ef: nat)
    requires Descent.Fit(s) && ef > 0
    ensures var c, way := Lonely(witnesses, layer0), Way([0], 0, ef); var x := Exact(c, 1);
      && Graphs(c, s, NoEdges(), way.roots) && ListsAll(c, [x])
      && FallsBack(c, RouteTo([1]), limits, 1, Always(), true)
      && SomeStageScored(c, RouteTo([1]), limits, 1, Always(), x)
      && x !in Returned(c, RouteTo([1]), limits, 1, Always(), true, GraphOf(c, s, NoEdges(), way, 1))
  {
    var c := Lonely(witnesses, layer0);
    LonelyGraph(c, s, ef);
    OneListed(Exact(c, 1));
    AdaptiveLoses(c, limits, 1, [Exact(c, 0)], [Exact(c, 1)], Exact(c, 0));
  }
}
