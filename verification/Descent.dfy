/** Graph search from the roots down: the best root, a greedy walk through the upper layers, the base
    layer search, and the live results. */
module Descent {
  import opened Basics
  import opened Ranking
  import opened LayerCore
  import opened LayerOptimality
  import opened Superposition
  import Overlap

  /** The graph a search walks: live slots and, per level, one connection list per slot. */
  datatype Space = Space(live: set<nat>, size: nat, adj: nat -> seq<seq<nat>>)

  ghost predicate Proper(sp: Space) {
    forall l: nat ::
      && |sp.adj(l)| == sp.size
      && forall i, j :: 0 <= i < sp.size && 0 <= j < |sp.adj(l)[i]| ==> sp.adj(l)[i][j] < sp.size
  }

  /** How a search is carried out: heaps, attention parameters and vectors. */
  datatype Searcher = Searcher(e: Engine, att: Attention, geo: Geometry)

  ghost predicate Fit(s: Searcher) { LawfulEngine(s.e) && Overlap.IsSqrt(s.att.sqrt) }

  function LevelQuery(sp: Space, level: nat, sim: nat -> real, mask: Option<set<nat>>, at: Scored, ef: nat): Query {
    Query(Layer(sp.live, sp.adj(level)), sim, mask, at.index, at.score, ef)
  }

  function AtLevel(geo: Geometry, level: nat): Geometry { geo.(base := level == 0) }

  /** The superposition search of one level. */
  ghost function SearchLevel(s: Searcher, sp: Space, level: nat, sim: nat -> real, mask: Option<set<nat>>, at: Scored,
                             ef: nat): seq<Scored>
    requires Fit(s) && Proper(sp) && at.index < sp.size
  {
    SuperpositionResult(s.e, LevelQuery(sp, level, sim, mask, at, ef), s.att, AtLevel(s.geo, level))
  }

  /** A slot of the graph with its true similarity. */
  ghost predicate Placed(sp: Space, sim: nat -> real, at: Scored) { at.index < sp.size && at.score == sim(at.index) }

  /** What a level search returns: slots of the graph once each with their true similarity, permitted or
      the entry point, and, given room, nothing worse than the entry point comes first. */
  lemma LevelFacts(s: Searcher, sp: Space, level: nat, sim: nat -> real, mask: Option<set<nat>>, at: Scored, ef: nat)
    requires Fit(s) && Proper(sp) && Placed(sp, sim, at)
    ensures var r := SearchLevel(s, sp, level, sim, mask, at, ef);
      && Distinct(Indices(r)) && Ranked(r) && |r| <= ef
      && (forall i :: 0 <= i < |r| ==> Placed(sp, sim, r[i]) && (r[i].index == at.index || Permits(mask, r[i].index)))
      && (ef > 0 ==> r != [] && r[0].score >= at.score)
  {
    var q := LevelQuery(sp, level, sim, mask, at, ef);
    var geo := AtLevel(s.geo, level);
    var r := SearchLevel(s, sp, level, sim, mask, at, ef);
    assert WellFormed(q);
    if ef > 0 {
      SuperpositionLocallyOptimal(s.e, q, s.att, geo);
      var scored := Loop(s.e, q, s.att, geo, Begin(q)).core.visited;
      LocalFacts(q, scored, r);
    }
  }

  lemma LocalFacts(q: Query, scored: set<nat>, r: seq<Scored>)
    requires WellFormed(q) && LocallyOptimal(q, scored, r) && q.ef > 0
    ensures forall i :: 0 <= i < |r| ==> r[i].index < |q.layer.adj| && r[i] == Cand(q, r[i].index)
    ensures forall i :: 0 <= i < |r| ==> r[i].index == q.entry || Permits(q.mask, r[i].index)
    ensures r != [] && r[0].score >= q.entrySim
  {
    forall i | 0 <= i < |r| ensures r[i].index < |q.layer.adj| { assert r[i].index in scored; }
    assert q.entry in scored;
    if Cand(q, q.entry) in r {
      var i :| 0 <= i < |r| && r[i] == Cand(q, q.entry);
      assert i > 0 ==> Ahead(r[0], r[i]);
    }
  }

  /** One greedy step: the list found on a level from a slot. */
  type Step = (nat, Scored) -> seq<Scored>

  function Better(found: seq<Scored>, at: Scored): Scored { if found == [] then at else found[0] }

  /** The greedy walk through levels `top` down to `bottom + 1`. */
  function Descend(step: Step, at: Scored, top: nat, bottom: nat): Scored
    decreases top
  {
    if top <= bottom then at else Descend(step, Better(step(top, at), at), top - 1, bottom)
  }

  /** The step of the program: a search without filter for one slot. */
  ghost function StepOf(s: Searcher, sp: Space, sim: nat -> real): Step
    requires Fit(s) && Proper(sp)
  {
    (level: nat, at: Scored) => if at.index < sp.size then SearchLevel(s, sp, level, sim, None, at, 1) else []
  }

  ghost predicate Climbs(step: Step, sp: Space, sim: nat -> real) {
    forall l: nat, at: Scored :: Placed(sp, sim, at) ==>
      var next := Better(step(l, at), at); Placed(sp, sim, next) && next.score >= at.score
  }

  lemma StepClimbs(s: Searcher, sp: Space, sim: nat -> real)
    requires Fit(s) && Proper(sp)
    ensures Climbs(StepOf(s, sp, sim), sp, sim)
  {
    forall l: nat, at: Scored | Placed(sp, sim, at)
      ensures var next := Better(StepOf(s, sp, sim)(l, at), at); Placed(sp, sim, next) && next.score >= at.score
    {
      LevelFacts(s, sp, l, sim, None, at, 1);
    }
  }

  lemma {:induction false} DescentClimbs(step: Step, sp: Space, sim: nat -> real, at: Scored, top: nat, bottom: nat)
    requires Climbs(step, sp, sim) && Placed(sp, sim, at)
    ensures var r := Descend(step, at, top, bottom); Placed(sp, sim, r) && r.score >= at.score
    decreases top
  {
    if top > bottom { DescentClimbs(step, sp, sim, Better(step(top, at), at), top - 1, bottom); }
  }

  /** The root most similar to the query, the first one among equals. */
  function BestRoot(sim: nat -> real, roots: seq<nat>): (r: Scored)
    requires roots != []
    ensures r.index in roots && r.score == sim(r.index)
    ensures forall i :: i in roots ==> sim(i) <= r.score
  {
    if |roots| == 1 then Scored(roots[0], sim(roots[0]))
    else
      var n := |roots| - 1;
      var best := BestRoot(sim, roots[..n]);
      assert roots == roots[..n] + [roots[n]];
      if sim(roots[n]) > best.score then Scored(roots[n], sim(roots[n])) else best
  }

  lemma LastRootBest(sim: nat -> real, roots: seq<nat>, n: nat)
    requires 0 < n == |roots| - 1 && sim(roots[n]) > BestRoot(sim, roots[..n]).score
    ensures BestRoot(sim, roots) == Scored(roots[n], sim(roots[n]))
    ensures forall i :: 0 <= i < n ==> sim(roots[i]) < sim(roots[n])
  {
    forall i | 0 <= i < n ensures sim(roots[i]) < sim(roots[n]) { assert roots[i] in roots[..n]; }
  }

  lemma EarlierRootBest(sim: nat -> real, roots: seq<nat>, n: nat)
    requires 0 < n == |roots| - 1 && sim(roots[n]) <= BestRoot(sim, roots[..n]).score
    ensures BestRoot(sim, roots) == BestRoot(sim, roots[..n])
  {
  }

  /** No root before it is as similar. */
  lemma {:induction false} BestRootIsFirst(sim: nat -> real, roots: seq<nat>) returns (p: nat)
    requires roots != []
    ensures p < |roots| && roots[p] == BestRoot(sim, roots).index
    ensures forall i :: 0 <= i < p ==> sim(roots[i]) < BestRoot(sim, roots).score
    decreases |roots|
  {
    var n := |roots| - 1;
    p := n;
    if n > 0 {
      if sim(roots[n]) > BestRoot(sim, roots[..n]).score {
        LastRootBest(sim, roots, n);
      } else {
        EarlierRootBest(sim, roots, n);
        p := BestRootIsFirst(sim, roots[..n]);
      }
    }
  }

  ghost predicate RootsIn(sp: Space, roots: seq<nat>) { forall i :: i in roots ==> i < sp.size }

  /** Where the search of level `bottom` starts. */
  ghost function Landing(s: Searcher, sp: Space, sim: nat -> real, roots: seq<nat>, top: nat, bottom: nat): Scored
    requires Fit(s) && Proper(sp) && roots != []
  {
    Descend(StepOf(s, sp, sim), BestRoot(sim, roots), top, bottom)
  }

  /** It is at least as similar to the query as every root, whatever the layers look like. */
  lemma LandingFacts(s: Searcher, sp: Space, sim: nat -> real, roots: seq<nat>, top: nat, bottom: nat)
    requires Fit(s) && Proper(sp) && roots != [] && RootsIn(sp, roots)
    ensures var at := Landing(s, sp, sim, roots, top, bottom);
      Placed(sp, sim, at) && forall i :: i in roots ==> sim(i) <= at.score
  {
    StepClimbs(s, sp, sim);
    DescentClimbs(StepOf(s, sp, sim), sp, sim, BestRoot(sim, roots), top, bottom);
  }

  /** The live entries of a list, first `k`. */
  function GraphHits(found: seq<Scored>, live: set<nat>, k: nat): (r: seq<Scored>)
    ensures forall y :: y in r ==> y in found && y.index in live
    ensures |r| <= k
    decreases |found|
  {
    if found == [] || k == 0 then []
    else if found[0].index in live then [found[0]] + GraphHits(found[1..], live, k - 1)
    else GraphHits(found[1..], live, k)
  }

  /** `search_indices_graph_internal`. */
  ghost function GraphSearch(s: Searcher, sp: Space, sim: nat -> real, mask: Option<set<nat>>, roots: seq<nat>,
                             top: nat, ef: nat, k: nat): seq<Scored>
    requires Fit(s) && Proper(sp) && RootsIn(sp, roots)
  {
    if roots == [] then []
    else
      LandingFacts(s, sp, sim, roots, top, 0);
      GraphHits(SearchLevel(s, sp, 0, sim, mask, Landing(s, sp, sim, roots, top, 0), ef), sp.live, k)
  }

  /** Graph hits are live slots with their true similarity, and permitted, except that the landing slot
      is not tested against the filter. */
  lemma GraphSearchFacts(s: Searcher, sp: Space, sim: nat -> real, mask: Option<set<nat>>, roots: seq<nat>, top: nat,
                         ef: nat, k: nat)
    requires Fit(s) && Proper(sp) && RootsIn(sp, roots)
    ensures forall y :: y in GraphSearch(s, sp, sim, mask, roots, top, ef, k) ==>
      && y.index in sp.live && y.score == sim(y.index)
      && (Permits(mask, y.index) || (roots != [] && y == Landing(s, sp, sim, roots, top, 0)))
  {
    if roots != [] {
      var at := Landing(s, sp, sim, roots, top, 0);
      LandingFacts(s, sp, sim, roots, top, 0);
      LevelFacts(s, sp, 0, sim, mask, at, ef);
      var found := SearchLevel(s, sp, 0, sim, mask, at, ef);
      forall y | y in GraphHits(found, sp.live, k)
        ensures y.score == sim(y.index) && (Permits(mask, y.index) || y == at)
      {
        var i :| 0 <= i < |found| && found[i] == y;
      }
    }
  }

  // ---- what a search finds ---------------------------------------------------------------------

  lemma HeadOf(found: seq<Scored>)
    requires found != [] && Ranked(found) && Distinct(Indices(found))
    ensures var tail := found[1..];
      && Ranked(tail) && Distinct(Indices(tail))
      && forall y :: y in tail ==> Ahead(found[0], y) && y.index != found[0].index
  {
    var tail := found[1..];
    assert Indices(tail) == Indices(found)[1..];
    forall y | y in tail ensures Ahead(found[0], y) && y.index != found[0].index {
      var i :| 0 <= i < |tail| && tail[i] == y;
      assert found[i + 1] == y && Indices(found)[i + 1] == y.index;
    }
  }

  lemma ConsRanked(head: Scored, rest: seq<Scored>)
    requires Ranked(rest) && Distinct(Indices(rest))
    requires forall y :: y in rest ==> Ahead(head, y) && y.index != head.index
    ensures Ranked([head] + rest) && Distinct(Indices([head] + rest))
  {
    var r := [head] + rest;
    forall i, j | 0 <= i < j < |r| ensures Ahead(r[i], r[j]) && Indices(r)[i] != Indices(r)[j] {
      assert r[j] == rest[j - 1] && rest[j - 1] in rest;
      if i > 0 { assert r[i] == rest[i - 1] && Indices(rest)[i - 1] != Indices(rest)[j - 1]; }
    }
  }

  lemma {:induction false} GraphHitsRanked(found: seq<Scored>, live: set<nat>, k: nat)
    requires Ranked(found) && Distinct(Indices(found))
    ensures var r := GraphHits(found, live, k); Ranked(r) && Distinct(Indices(r))
    decreases |found|
  {
    if found != [] && k > 0 {
      HeadOf(found);
      var n := if found[0].index in live then k - 1 else k;
      GraphHitsRanked(found[1..], live, n);
      if found[0].index in live { ConsRanked(found[0], GraphHits(found[1..], live, n)); }
    }
  }

  /** Nothing live is passed over: a live entry that is not among the hits comes after `k` of them. */
  lemma {:induction false} GraphHitsComplete(found: seq<Scored>, live: set<nat>, k: nat, y: Scored)
    requires Ranked(found) && Distinct(Indices(found)) && y in found && y.index in live
    requires y !in GraphHits(found, live, k)
    ensures var r := GraphHits(found, live, k); |r| == k && forall x :: x in r ==> Ahead(x, y)
    decreases |found|
  {
    if k > 0 {
      HeadOf(found);
      assert found == [found[0]] + found[1..];
      GraphHitsComplete(found[1..], live, if found[0].index in live then k - 1 else k, y);
    }
  }

  /** `n` is a neighbour of `at` on a level. */
  predicate Linked(sp: Space, level: nat, at: nat, n: nat)
    requires |sp.adj(level)| == sp.size
  {
    at < sp.size && at in sp.live && n in sp.adj(level)[at]
  }

  /** No permitted neighbour of a slot of the list is missed: it is on the list, or the list is full and no
      entry is worse than it. */
  ghost predicate Peak(sp: Space, level: nat, sim: nat -> real, mask: Option<set<nat>>, ef: nat, r: seq<Scored>)
    requires Proper(sp)
  {
    forall i, n :: 0 <= i < |r| && Linked(sp, level, r[i].index, n) && Permits(mask, n) ==>
      Scored(n, sim(n)) in r || (|r| == ef && forall j :: 0 <= j < |r| ==> sim(n) <= r[j].score)
  }

  /** A level search ends at a local optimum of that level. */
  lemma LevelPeak(s: Searcher, sp: Space, level: nat, sim: nat -> real, mask: Option<set<nat>>, at: Scored, ef: nat)
    requires Fit(s) && Proper(sp) && Placed(sp, sim, at)
    ensures Peak(sp, level, sim, mask, ef, SearchLevel(s, sp, level, sim, mask, at, ef))
  {
    if ef > 0 {
      var q, geo := LevelQuery(sp, level, sim, mask, at, ef), AtLevel(s.geo, level);
      assert WellFormed(q);
      SuperpositionLocallyOptimal(s.e, q, s.att, geo);
      OptimumIsPeak(sp, level, sim, mask, at, ef, Loop(s.e, q, s.att, geo, Begin(q)).core.visited,
        SearchLevel(s, sp, level, sim, mask, at, ef));
    }
  }

  lemma OptimumIsPeak(sp: Space, level: nat, sim: nat -> real, mask: Option<set<nat>>, at: Scored, ef: nat,
                      scored: set<nat>, r: seq<Scored>)
    requires Proper(sp) && Placed(sp, sim, at)
    requires var q := LevelQuery(sp, level, sim, mask, at, ef); WellFormed(q) && LocallyOptimal(q, scored, r)
    ensures Peak(sp, level, sim, mask, ef, r)
  {
    var q := LevelQuery(sp, level, sim, mask, at, ef);
    forall i, n | 0 <= i < |r| && Linked(sp, level, r[i].index, n) && Permits(mask, n)
      ensures Scored(n, sim(n)) in r || (|r| == ef && forall j :: 0 <= j < |r| ==> sim(n) <= r[j].score)
    {
      assert Expanded(q, scored, r[i].index) && Edge(q, r[i].index, n);
      assert n in scored && Cand(q, n) == Scored(n, sim(n));
    }
  }

  lemma {:induction false} DescendStep(step: Step, at: Scored, top: nat, bottom: nat)
    requires bottom < top
    ensures var before := Descend(step, at, top, bottom + 1);
      Descend(step, at, top, bottom) == Better(step(bottom + 1, before), before)
    decreases top
  {
    if bottom + 1 < top { DescendStep(step, Better(step(top, at), at), top - 1, bottom); }
  }

  /** The descent really uses every upper level: where it leaves a level it is at least as similar as where
      it entered it, and no neighbour on that level is more similar. */
  lemma DescentPeaks(s: Searcher, sp: Space, sim: nat -> real, roots: seq<nat>, top: nat, bottom: nat)
    requires Fit(s) && Proper(sp) && roots != [] && RootsIn(sp, roots) && bottom < top
    ensures var at, before := Landing(s, sp, sim, roots, top, bottom), Landing(s, sp, sim, roots, top, bottom + 1);
      at.score >= before.score && forall n :: Linked(sp, bottom + 1, at.index, n) ==> sim(n) <= at.score
  {
    var at, before := Landing(s, sp, sim, roots, top, bottom), Landing(s, sp, sim, roots, top, bottom + 1);
    LandingFacts(s, sp, sim, roots, top, bottom + 1);
    DescendStep(StepOf(s, sp, sim), BestRoot(sim, roots), top, bottom);
    LevelFacts(s, sp, bottom + 1, sim, None, before, 1);
    LevelPeak(s, sp, bottom + 1, sim, None, before, 1);
    var r := SearchLevel(s, sp, bottom + 1, sim, None, before, 1);
    assert at == r[0] && |r| == 1;
    forall n | Linked(sp, bottom + 1, at.index, n) ensures sim(n) <= at.score {
      assert Linked(sp, bottom + 1, r[0].index, n);
    }
  }

  /** Hits come ranked and once each; no permitted live neighbour of a hit is missed unless it beats no
      hit. */
  lemma GraphSearchComplete(s: Searcher, sp: Space, sim: nat -> real, mask: Option<set<nat>>, roots: seq<nat>,
                            top: nat, ef: nat, k: nat)
    requires Fit(s) && Proper(sp) && RootsIn(sp, roots)
    ensures var hits := GraphSearch(s, sp, sim, mask, roots, top, ef, k);
      && Ranked(hits) && Distinct(Indices(hits)) && |hits| <= Min(ef, k)
      && (forall x, n :: x in hits && n in sp.live && Linked(sp, 0, x.index, n) && Permits(mask, n) ==>
            Scored(n, sim(n)) in hits || forall y :: y in hits ==> sim(n) <= y.score)
  {
    if roots != [] {
      var at := Landing(s, sp, sim, roots, top, 0);
      LandingFacts(s, sp, sim, roots, top, 0);
      LevelFacts(s, sp, 0, sim, mask, at, ef);
      LevelPeak(s, sp, 0, sim, mask, at, ef);
      HitsOfPeak(sp, sim, mask, ef, SearchLevel(s, sp, 0, sim, mask, at, ef), k);
    }
  }

  lemma HitsOfPeak(sp: Space, sim: nat -> real, mask: Option<set<nat>>, ef: nat, found: seq<Scored>, k: nat)
    requires Proper(sp) && Ranked(found) && Distinct(Indices(found)) && |found| <= ef
    requires Peak(sp, 0, sim, mask, ef, found)
    ensures var hits := GraphHits(found, sp.live, k);
      && Ranked(hits) && Distinct(Indices(hits)) && |hits| <= Min(ef, k)
      && (forall x, n :: x in hits && n in sp.live && Linked(sp, 0, x.index, n) && Permits(mask, n) ==>
            Scored(n, sim(n)) in hits || forall y :: y in hits ==> sim(n) <= y.score)
  {
    var hits := GraphHits(found, sp.live, k);
    GraphHitsRanked(found, sp.live, k);
    HitsAreFew(found, sp.live, k);
    forall x, n | x in hits && n in sp.live && Linked(sp, 0, x.index, n) && Permits(mask, n)
      ensures Scored(n, sim(n)) in hits || forall y :: y in hits ==> sim(n) <= y.score
    {
      var i :| 0 <= i < |found| && found[i] == x;
      if Scored(n, sim(n)) !in found {
        forall y | y in hits ensures sim(n) <= y.score { var j :| 0 <= j < |found| && found[j] == y; }
      } else if Scored(n, sim(n)) !in hits {
        GraphHitsComplete(found, sp.live, k, Scored(n, sim(n)));
      }
    }
  }

  lemma {:induction false} HitsAreFew(found: seq<Scored>, live: set<nat>, k: nat)
    ensures |GraphHits(found, live, k)| <= |found|
    decreases |found|
  {
    if found != [] && k > 0 { HitsAreFew(found[1..], live, if found[0].index in live then k - 1 else k); }
  }

  /** When what is reachable from the landing slot fits into `ef`, the hits are exactly the best `k` live
      reachable slots: all of them if there are no more. */
  lemma SmallGraphSearched(s: Searcher, sp: Space, sim: nat -> real, mask: Option<set<nat>>, roots: seq<nat>, top: nat,
                           ef: nat, k: nat, reach: set<nat>)
    requires Fit(s) && Proper(sp) && roots != [] && RootsIn(sp, roots) && |reach| <= ef
    requires Landing(s, sp, sim, roots, top, 0).index < sp.size
    requires var q := LevelQuery(sp, 0, sim, mask, Landing(s, sp, sim, roots, top, 0), ef);
      WellFormed(q) && forall n :: n in reach <==> Reachable(q, n)
    ensures var hits := GraphSearch(s, sp, sim, mask, roots, top, ef, k);
      && |hits| == Min(k, |reach * sp.live|)
      && (forall x :: x in hits ==> x.index in reach && x.index in sp.live && x.score == sim(x.index))
      && (forall n :: n in reach && n in sp.live && Scored(n, sim(n)) !in hits ==>
            forall x :: x in hits ==> Ahead(x, Scored(n, sim(n))))
  {
    var at := Landing(s, sp, sim, roots, top, 0);
    LandingFacts(s, sp, sim, roots, top, 0);
    var q, geo := LevelQuery(sp, 0, sim, mask, at, ef), AtLevel(s.geo, 0);
    LevelFacts(s, sp, 0, sim, mask, at, ef);
    SmallReachableSetReturned(s.e, q, s.att, geo, reach);
    HitsOfAll(sp, sim, SearchLevel(s, sp, 0, sim, mask, at, ef), k, reach);
  }

  lemma HitsOfAll(sp: Space, sim: nat -> real, found: seq<Scored>, k: nat, reach: set<nat>)
    requires Ranked(found) && Distinct(Indices(found)) && Elems(Indices(found)) == reach
    requires forall i :: 0 <= i < |found| ==> Placed(sp, sim, found[i])
    ensures var hits := GraphHits(found, sp.live, k);
      && |hits| == Min(k, |reach * sp.live|)
      && (forall x :: x in hits ==> x.index in reach && x.index in sp.live && x.score == sim(x.index))
      && (forall n :: n in reach && n in sp.live && Scored(n, sim(n)) !in hits ==>
            forall x :: x in hits ==> Ahead(x, Scored(n, sim(n))))
  {
    var hits := GraphHits(found, sp.live, k);
    GraphHitsRanked(found, sp.live, k);
    forall x | x in hits ensures x.index in reach && x.score == sim(x.index) {
      var i :| 0 <= i < |found| && found[i] == x;
      assert Indices(found)[i] in Elems(Indices(found));
    }
    forall n | n in reach ensures Scored(n, sim(n)) in found {
      var i :| 0 <= i < |found| && Indices(found)[i] == n;
      assert found[i] == Scored(n, sim(n));
    }
    forall n | n in reach && n in sp.live && Scored(n, sim(n)) !in hits
      ensures |hits| == k && forall x :: x in hits ==> Ahead(x, Scored(n, sim(n)))
    {
      GraphHitsComplete(found, sp.live, k, Scored(n, sim(n)));
    }
    ElemsSize(Indices(hits));
    var got, all := Elems(Indices(hits)), reach * sp.live;
    forall n | n in got ensures n in all { var i :| 0 <= i < |hits| && hits[i].index == n; assert hits[i] in hits; }
    SubsetSize(got, all);
    if |hits| < k {
      forall n | n in all ensures n in got {
        assert Scored(n, sim(n)) in hits;
        var i :| 0 <= i < |hits| && hits[i] == Scored(n, sim(n));
        assert Indices(hits)[i] == n;
      }
      assert got == all;
    }
  }

  // ---- the searches of an insertion ------------------------------------------------------------

  /** What an insertion finds on levels `levels - 1` down to 0, each search entered at the best slot of
      the one before; listed from level 0 up. */
  function Collect(step: Step, at: Scored, levels: nat): (r: seq<seq<Scored>>)
    ensures |r| == levels
    decreases levels
  {
    if levels == 0 then []
    else
      var found := step(levels - 1, at);
      Collect(step, Better(found, at), levels - 1) + [found]
  }

  /** The step of an insertion: a search without filter for `ef` slots. */
  ghost function BroadStepOf(s: Searcher, sp: Space, sim: nat -> real, ef: nat): Step
    requires Fit(s) && Proper(sp)
  {
    (level: nat, at: Scored) => if at.index < sp.size then SearchLevel(s, sp, level, sim, None, at, ef) else []
  }

  /** A list a search may return: no slot twice, only slots of the graph, true similarities. */
  ghost predicate Sane(sp: Space, sim: nat -> real, found: seq<Scored>) {
    Distinct(Indices(found)) && forall i :: 0 <= i < |found| ==> Placed(sp, sim, found[i])
  }

  ghost predicate Finds(step: Step, sp: Space, sim: nat -> real) {
    forall l: nat, at: Scored :: Placed(sp, sim, at) ==> Sane(sp, sim, step(l, at))
  }

  lemma BroadStepFinds(s: Searcher, sp: Space, sim: nat -> real, ef: nat)
    requires Fit(s) && Proper(sp)
    ensures Finds(BroadStepOf(s, sp, sim, ef), sp, sim)
  {
    forall l: nat, at: Scored | Placed(sp, sim, at) ensures Sane(sp, sim, BroadStepOf(s, sp, sim, ef)(l, at)) {
      LevelFacts(s, sp, l, sim, None, at, ef);
    }
  }

  lemma {:induction false} CollectFinds(step: Step, sp: Space, sim: nat -> real, at: Scored, levels: nat)
    requires Finds(step, sp, sim) && Placed(sp, sim, at)
    ensures forall l :: 0 <= l < levels ==> Sane(sp, sim, Collect(step, at, levels)[l])
    decreases levels
  {
    if levels > 0 {
      var found := step(levels - 1, at);
      assert Sane(sp, sim, found);
      CollectFinds(step, sp, sim, Better(found, at), levels - 1);
    }
  }

  /** Everything an insertion finds: from the best root down to its own levels, then level by level. */
  ghost function Insertion(s: Searcher, sp: Space, sim: nat -> real, roots: seq<nat>, top: nat, levels: nat, ef: nat)
      : seq<seq<Scored>>
    requires Fit(s) && Proper(sp) && roots != [] && levels > 0
  {
    Collect(BroadStepOf(s, sp, sim, ef), Landing(s, sp, sim, roots, top, levels - 1), levels)
  }

  lemma InsertionFinds(s: Searcher, sp: Space, sim: nat -> real, roots: seq<nat>, top: nat, levels: nat, ef: nat)
    requires Fit(s) && Proper(sp) && roots != [] && RootsIn(sp, roots) && levels > 0
    ensures var found := Insertion(s, sp, sim, roots, top, levels, ef);
      |found| == levels && forall l :: 0 <= l < levels ==> Sane(sp, sim, found[l])
  {
    LandingFacts(s, sp, sim, roots, top, levels - 1);
    BroadStepFinds(s, sp, sim, ef);
    CollectFinds(BroadStepOf(s, sp, sim, ef), sp, sim, Landing(s, sp, sim, roots, top, levels - 1), levels);
  }

  /** A list a level search with room may return when entered at `at`. */
  ghost predicate Ascends(sp: Space, level: nat, sim: nat -> real, ef: nat, at: Scored, found: seq<Scored>)
    requires Proper(sp)
  {
    && found != [] && Placed(sp, sim, found[0]) && found[0].score >= at.score
    && Ranked(found) && |found| <= ef && Peak(sp, level, sim, None, ef, found)
  }

  ghost predicate AlwaysAscends(step: Step, sp: Space, sim: nat -> real, ef: nat)
    requires Proper(sp)
  {
    forall l: nat, at: Scored :: Placed(sp, sim, at) ==> Ascends(sp, l, sim, ef, at, step(l, at))
  }

  lemma BroadStepAscends(s: Searcher, sp: Space, sim: nat -> real, ef: nat)
    requires Fit(s) && Proper(sp) && ef > 0
    ensures AlwaysAscends(BroadStepOf(s, sp, sim, ef), sp, sim, ef)
  {
    forall l: nat, at: Scored | Placed(sp, sim, at)
      ensures Ascends(sp, l, sim, ef, at, BroadStepOf(s, sp, sim, ef)(l, at))
    {
      LevelFacts(s, sp, l, sim, None, at, ef);
      LevelPeak(s, sp, l, sim, None, at, ef);
    }
  }

  /** Where the search of level `l` is entered: at the best slot of the level above, or at `at`. */
  function EnteredAt(found: seq<seq<Scored>>, at: Scored, l: nat): Scored {
    if l + 1 < |found| then Better(found[l + 1], at) else at
  }

  /** The lists of an insertion entered at `at`: each a local optimum of its level, ranked, and beginning no
      worse than the list of the level above, or than `at`. */
  ghost predicate AscendsThrough(sp: Space, sim: nat -> real, ef: nat, at: Scored, found: seq<seq<Scored>>)
    requires Proper(sp)
  {
    forall l: nat {:trigger EnteredAt(found, at, l)} {:trigger found[l]} ::
      l < |found| ==> Ascends(sp, l, sim, ef, EnteredAt(found, at, l), found[l])
  }

  lemma RankedThroughout(sp: Space, sim: nat -> real, ef: nat, at: Scored, found: seq<seq<Scored>>, l: nat)
    requires Proper(sp) && AscendsThrough(sp, sim, ef, at, found) && l < |found|
    ensures Ranked(found[l]) && found[l] != []
  {
  }

  lemma AscendsFrom(sp: Space, sim: nat -> real, ef: nat, at: Scored, found: seq<seq<Scored>>, first: seq<Scored>)
    requires Proper(sp) && Ascends(sp, |found|, sim, ef, at, first) && AscendsThrough(sp, sim, ef, first[0], found)
    ensures AscendsThrough(sp, sim, ef, at, found + [first])
  {
    var r := found + [first];
    forall l: nat | l < |r| ensures Ascends(sp, l, sim, ef, EnteredAt(r, at, l), r[l]) {
      if l < |found| {
        if l + 1 < |found| { RankedThroughout(sp, sim, ef, first[0], found, l + 1); }
        assert EnteredAt(r, at, l) == EnteredAt(found, first[0], l);
      }
    }
  }

  lemma {:induction false} CollectAscends(step: Step, sp: Space, sim: nat -> real, ef: nat, at: Scored, levels: nat)
    requires Proper(sp) && AlwaysAscends(step, sp, sim, ef) && Placed(sp, sim, at)
    ensures AscendsThrough(sp, sim, ef, at, Collect(step, at, levels))
    decreases levels
  {
    if levels > 0 {
      var found := step(levels - 1, at);
      assert Ascends(sp, levels - 1, sim, ef, at, found);
      CollectAscends(step, sp, sim, ef, found[0], levels - 1);
      AscendsFrom(sp, sim, ef, at, Collect(step, found[0], levels - 1), found);
    }
  }

  /** What an insertion finds on a level is a local optimum of it, ranked, and begins no worse than what it
      found on the level above, or than the landing slot. */
  lemma InsertionAscends(s: Searcher, sp: Space, sim: nat -> real, roots: seq<nat>, top: nat, levels: nat, ef: nat)
    requires Fit(s) && Proper(sp) && roots != [] && RootsIn(sp, roots) && levels > 0 && ef > 0
    ensures AscendsThrough(sp, sim, ef, Landing(s, sp, sim, roots, top, levels - 1),
              Insertion(s, sp, sim, roots, top, levels, ef))
  {
    LandingFacts(s, sp, sim, roots, top, levels - 1);
    BroadStepAscends(s, sp, sim, ef);
    CollectAscends(BroadStepOf(s, sp, sim, ef), sp, sim, ef, Landing(s, sp, sim, roots, top, levels - 1), levels);
  }

  // ---- the search as it runs -------------------------------------------------------------------

  /** The seeding loop over the roots. */
  method SeedRoot(sim: nat -> real, roots: seq<nat>) returns (best: Scored)
    requires roots != []
    ensures best == BestRoot(sim, roots)
  {
    best := Scored(roots[0], sim(roots[0]));
    for i := 1 to |roots|
      invariant best == BestRoot(sim, roots[..i])
    {
      assert roots[..i + 1][..i] == roots[..i];
      if sim(roots[i]) > best.score { best := Scored(roots[i], sim(roots[i])); }
    }
    assert roots[..|roots|] == roots;
  }

  /** `step` is what the program does on a level. */
  ghost predicate Runs(step: Step, s: Searcher, sp: Space, sim: nat -> real)
    requires Fit(s) && Proper(sp)
  {
    forall l: nat, at: Scored {:trigger SearchLevel(s, sp, l, sim, None, at, 1)} ::
      at.index < sp.size ==> step(l, at) == SearchLevel(s, sp, l, sim, None, at, 1)
  }

  lemma StepRuns(s: Searcher, sp: Space, sim: nat -> real)
    requires Fit(s) && Proper(sp)
    ensures Runs(StepOf(s, sp, sim), s, sp, sim)
  {
  }

  method SearchOne(s: Searcher, sp: Space, level: nat, sim: nat -> real, mask: Option<set<nat>>, at: Scored, ef: nat)
      returns (r: seq<Scored>)
    requires Fit(s) && Proper(sp) && at.index < sp.size
    ensures r == SearchLevel(s, sp, level, sim, mask, at, ef)
  {
    r := SuperpositionSearchLayer(s.e, LevelQuery(sp, level, sim, mask, at, ef), s.att, AtLevel(s.geo, level));
  }

  method StepDown(s: Searcher, sp: Space, level: nat, sim: nat -> real, at: Scored, ghost step: Step)
      returns (r: Scored)
    requires Fit(s) && Proper(sp) && Placed(sp, sim, at) && Runs(step, s, sp, sim)
    ensures r == Better(step(level, at), at) && Placed(sp, sim, r)
  {
    var found := SearchOne(s, sp, level, sim, None, at, 1);
    LevelFacts(s, sp, level, sim, None, at, 1);
    r := Better(found, at);
  }

  /** The loop over the upper levels. */
  method WalkDown(s: Searcher, sp: Space, sim: nat -> real, start: Scored, top: nat, bottom: nat, ghost step: Step)
      returns (at: Scored)
    requires Fit(s) && Proper(sp) && Placed(sp, sim, start) && Runs(step, s, sp, sim)
    ensures at == Descend(step, start, top, bottom) && Placed(sp, sim, at)
  {
    at := start;
    var l: nat := top;
    while l > bottom
      invariant Placed(sp, sim, at) && Descend(step, at, l, bottom) == Descend(step, start, top, bottom)
    {
      at := StepDown(s, sp, l, sim, at, step);
      l := l - 1;
    }
  }

  /** `step` is what the program does on a level of an insertion. */
  ghost predicate RunsBroad(step: Step, s: Searcher, sp: Space, sim: nat -> real, ef: nat)
    requires Fit(s) && Proper(sp)
  {
    forall l: nat, at: Scored {:trigger SearchLevel(s, sp, l, sim, None, at, ef)} ::
      at.index < sp.size ==> step(l, at) == SearchLevel(s, sp, l, sim, None, at, ef)
  }

  method StepBroad(s: Searcher, sp: Space, level: nat, sim: nat -> real, at: Scored, ef: nat, ghost step: Step)
      returns (found: seq<Scored>)
    requires Fit(s) && Proper(sp) && Placed(sp, sim, at) && RunsBroad(step, s, sp, sim, ef)
    ensures found == step(level, at) && Sane(sp, sim, found)
  {
    found := SearchOne(s, sp, level, sim, None, at, ef);
    LevelFacts(s, sp, level, sim, None, at, ef);
  }

  lemma CollectUnrolls(step: Step, at: Scored, l: nat, found: seq<seq<Scored>>)
    requires l > 0
    ensures var r := step(l - 1, at);
      Collect(step, at, l) + found == Collect(step, Better(r, at), l - 1) + ([r] + found)
  {
  }

  /** The search loop of an insertion, from the top level of the new node down. */
  method CollectLevels(s: Searcher, sp: Space, sim: nat -> real, start: Scored, levels: nat, ef: nat, ghost step: Step)
      returns (found: seq<seq<Scored>>)
    requires Fit(s) && Proper(sp) && Placed(sp, sim, start) && RunsBroad(step, s, sp, sim, ef)
    ensures found == Collect(step, start, levels)
  {
    found := [];
    var at, l: nat := start, levels;
    while l > 0
      invariant Placed(sp, sim, at) && Collect(step, at, l) + found == Collect(step, start, levels)
    {
      var r := StepBroad(s, sp, l - 1, sim, at, ef, step);
      CollectUnrolls(step, at, l, found);
      found := [r] + found;
      if r != [] { at := r[0]; }
      l := l - 1;
    }
  }

  lemma BroadRuns(s: Searcher, sp: Space, sim: nat -> real, ef: nat)
    requires Fit(s) && Proper(sp)
    ensures RunsBroad(BroadStepOf(s, sp, sim, ef), s, sp, sim, ef)
  {
  }

  /** Seeding, descent and the searches on the levels of a new node. */
  method SearchLevels(s: Searcher, sp: Space, sim: nat -> real, roots: seq<nat>, top: nat, levels: nat, ef: nat)
      returns (found: seq<seq<Scored>>)
    requires Fit(s) && Proper(sp) && roots != [] && RootsIn(sp, roots) && levels > 0
    ensures found == Insertion(s, sp, sim, roots, top, levels, ef)
  {
    var at := SeedRoot(sim, roots);
    StepRuns(s, sp, sim);
    at := WalkDown(s, sp, sim, at, top, levels - 1, StepOf(s, sp, sim));
    BroadRuns(s, sp, sim, ef);
    found := CollectLevels(s, sp, sim, at, levels, ef, BroadStepOf(s, sp, sim, ef));
  }

  method TakeLive(pool: seq<Scored>, live: set<nat>, k: nat) returns (hits: seq<Scored>)
    ensures hits == GraphHits(pool, live, k)
  {
    hits := [];
    var i := 0;
    while i < |pool| && |hits| < k
      invariant i <= |pool| && |hits| <= k
      invariant hits + GraphHits(pool[i..], live, k - |hits|) == GraphHits(pool, live, k)
    {
      assert pool[i..][1..] == pool[i + 1..];
      if pool[i].index in live { hits := hits + [pool[i]]; }
      i := i + 1;
    }
  }

  method SearchGraph(s: Searcher, sp: Space, sim: nat -> real, mask: Option<set<nat>>, roots: seq<nat>, top: nat,
                     ef: nat, k: nat) returns (hits: seq<Scored>)
    requires Fit(s) && Proper(sp) && RootsIn(sp, roots)
    ensures hits == GraphSearch(s, sp, sim, mask, roots, top, ef, k)
  {
    if roots == [] { return []; }
    var at := SeedRoot(sim, roots);
    StepRuns(s, sp, sim);
    at := WalkDown(s, sp, sim, at, top, 0, StepOf(s, sp, sim));
    var pool := SearchOne(s, sp, 0, sim, mask, at, ef);
    hits := TakeLive(pool, sp.live, k);
  }
}
