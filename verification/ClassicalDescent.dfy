/** The conventional graph search, level by level, against the superposition one: the whole searches,
    not only their layers, agree at beam width 1. */
module ClassicalDescent {
  import opened Basics
  import opened Ranking
  import opened LayerCore
  import opened Superposition
  import opened Descent
  import ClassicalSearch

  /** The classical search of one level. */
  ghost function ClassicalLevel(e: Engine, sp: Space, level: nat, sim: nat -> real, mask: Option<set<nat>>, at: Scored,
                                ef: nat): seq<Scored>
    requires LawfulEngine(e) && Proper(sp) && at.index < sp.size
  {
    ClassicalSearch.ClassicalResult(e, LevelQuery(sp, level, sim, mask, at, ef))
  }

  lemma ClassicalLevelFacts(e: Engine, sp: Space, level: nat, sim: nat -> real, mask: Option<set<nat>>, at: Scored,
                            ef: nat)
    requires LawfulEngine(e) && Proper(sp) && Placed(sp, sim, at)
    ensures var r := ClassicalLevel(e, sp, level, sim, mask, at, ef);
      && (forall i :: 0 <= i < |r| ==> Placed(sp, sim, r[i]) && (r[i].index == at.index || Permits(mask, r[i].index)))
      && (ef > 0 ==> r != [] && r[0].score >= at.score)
  {
    var q := LevelQuery(sp, level, sim, mask, at, ef);
    assert WellFormed(q);
    if ef > 0 {
      ClassicalSearch.ClassicalLocallyOptimal(e, q);
      LocalFacts(q, ClassicalSearch.ClassicalLoop(e, q, ClassicalSearch.Begin(q)).scored,
        ClassicalLevel(e, sp, level, sim, mask, at, ef));
    }
  }

  ghost function ClassicalStep(e: Engine, sp: Space, sim: nat -> real): Step
    requires LawfulEngine(e) && Proper(sp)
  {
    (level: nat, at: Scored) => if at.index < sp.size then ClassicalLevel(e, sp, level, sim, None, at, 1) else []
  }

  ghost function ClassicalLanding(e: Engine, sp: Space, sim: nat -> real, roots: seq<nat>, top: nat): Scored
    requires LawfulEngine(e) && Proper(sp) && roots != []
  {
    Descend(ClassicalStep(e, sp, sim), BestRoot(sim, roots), top, 0)
  }

  lemma ClassicalStepClimbs(e: Engine, sp: Space, sim: nat -> real)
    requires LawfulEngine(e) && Proper(sp)
    ensures Climbs(ClassicalStep(e, sp, sim), sp, sim)
  {
    forall l: nat, at: Scored | Placed(sp, sim, at)
      ensures var next := Better(ClassicalStep(e, sp, sim)(l, at), at); Placed(sp, sim, next) && next.score >= at.score
    {
      ClassicalLevelFacts(e, sp, l, sim, None, at, 1);
    }
  }

  /** The classical descent never loses similarity either. */
  lemma ClassicalLandingFacts(e: Engine, sp: Space, sim: nat -> real, roots: seq<nat>, top: nat)
    requires LawfulEngine(e) && Proper(sp) && roots != [] && RootsIn(sp, roots)
    ensures var at := ClassicalLanding(e, sp, sim, roots, top);
      Placed(sp, sim, at) && forall i :: i in roots ==> sim(i) <= at.score
  {
    ClassicalStepClimbs(e, sp, sim);
    DescentClimbs(ClassicalStep(e, sp, sim), sp, sim, BestRoot(sim, roots), top, 0);
  }

  /** `search_indices_hnsw_classical_internal`. */
  ghost function ClassicalGraphSearch(e: Engine, sp: Space, sim: nat -> real, mask: Option<set<nat>>, roots: seq<nat>,
                                      top: nat, ef: nat, k: nat): seq<Scored>
    requires LawfulEngine(e) && Proper(sp) && RootsIn(sp, roots)
  {
    if roots == [] then []
    else
      ClassicalLandingFacts(e, sp, sim, roots, top);
      GraphHits(ClassicalLevel(e, sp, 0, sim, mask, ClassicalLanding(e, sp, sim, roots, top), ef), sp.live, k)
  }

  /** Steps that agree on every slot of the graph lead down the same way. */
  lemma {:induction false} SameDescent(step: Step, step': Step, sp: Space, sim: nat -> real, at: Scored, top: nat)
    requires Climbs(step, sp, sim) && Placed(sp, sim, at)
    requires forall l: nat, x: Scored :: Placed(sp, sim, x) ==> step(l, x) == step'(l, x)
    ensures Descend(step, at, top, 0) == Descend(step', at, top, 0)
    decreases top
  {
    if top > 0 { SameDescent(step, step', sp, sim, Better(step(top, at), at), top - 1); }
  }

  lemma SameLevel(s: Searcher, sp: Space, level: nat, sim: nat -> real, mask: Option<set<nat>>, at: Scored, ef: nat)
    requires Fit(s) && BeamWidth(s.att) == 1 && Proper(sp) && at.index < sp.size
    ensures SearchLevel(s, sp, level, sim, mask, at, ef) == ClassicalLevel(s.e, sp, level, sim, mask, at, ef)
  {
    WidthOneIsClassical(s.e, LevelQuery(sp, level, sim, mask, at, ef), s.att, AtLevel(s.geo, level));
  }

  /** With beam width 1 the two graph searches return the same hits in the same order, for every graph,
      roots, filter, `ef` and `k`, whatever the attention parameters and the vectors. */
  lemma GraphSearchIsClassical(s: Searcher, sp: Space, sim: nat -> real, mask: Option<set<nat>>, roots: seq<nat>,
                               top: nat, ef: nat, k: nat)
    requires Fit(s) && BeamWidth(s.att) == 1 && Proper(sp) && RootsIn(sp, roots)
    ensures GraphSearch(s, sp, sim, mask, roots, top, ef, k)
         == ClassicalGraphSearch(s.e, sp, sim, mask, roots, top, ef, k)
  {
    if roots != [] {
      var step, step' := StepOf(s, sp, sim), ClassicalStep(s.e, sp, sim);
      StepClimbs(s, sp, sim);
      forall l: nat, x: Scored | Placed(sp, sim, x) ensures step(l, x) == step'(l, x) {
        SameLevel(s, sp, l, sim, None, x, 1);
      }
      SameDescent(step, step', sp, sim, BestRoot(sim, roots), top);
      LandingFacts(s, sp, sim, roots, top, 0);
      SameLevel(s, sp, 0, sim, mask, Landing(s, sp, sim, roots, top, 0), ef);
    }
  }

  /** Beyond the beam width, attention changes no graph search. */
  lemma AttentionNeverMattersDescending(s: Searcher, s': Searcher, sp: Space, sim: nat -> real, mask: Option<set<nat>>,
                                        roots: seq<nat>, top: nat, ef: nat, k: nat)
    requires Fit(s) && Fit(s') && s.e == s'.e && BeamWidth(s.att) == BeamWidth(s'.att)
    requires Proper(sp) && RootsIn(sp, roots)
    ensures GraphSearch(s, sp, sim, mask, roots, top, ef, k) == GraphSearch(s', sp, sim, mask, roots, top, ef, k)
  {
    if roots != [] {
      var step, step' := StepOf(s, sp, sim), StepOf(s', sp, sim);
      StepClimbs(s, sp, sim);
      forall l: nat, x: Scored | Placed(sp, sim, x) ensures step(l, x) == step'(l, x) {
        AttentionNeverMatters(s.e, LevelQuery(sp, l, sim, None, x, 1), s.att, AtLevel(s.geo, l), s'.att,
          AtLevel(s'.geo, l));
      }
      SameDescent(step, step', sp, sim, BestRoot(sim, roots), top);
      LandingFacts(s, sp, sim, roots, top, 0);
      var at := Landing(s, sp, sim, roots, top, 0);
      AttentionNeverMatters(s.e, LevelQuery(sp, 0, sim, mask, at, ef), s.att, AtLevel(s.geo, 0), s'.att,
        AtLevel(s'.geo, 0));
    }
  }

  /** A classical level search, too, returns ranked slots once each and ends at a local optimum. */
  lemma ClassicalLevelPeak(e: Engine, sp: Space, level: nat, sim: nat -> real, mask: Option<set<nat>>, at: Scored,
                           ef: nat)
    requires LawfulEngine(e) && Proper(sp) && Placed(sp, sim, at)
    ensures var r := ClassicalLevel(e, sp, level, sim, mask, at, ef);
      Ranked(r) && Distinct(Indices(r)) && |r| <= ef && Peak(sp, level, sim, mask, ef, r)
  {
    if ef > 0 {
      var q := LevelQuery(sp, level, sim, mask, at, ef);
      assert WellFormed(q);
      ClassicalSearch.ClassicalLocallyOptimal(e, q);
      OptimumIsPeak(sp, level, sim, mask, at, ef, ClassicalSearch.ClassicalLoop(e, q, ClassicalSearch.Begin(q)).scored,
        ClassicalLevel(e, sp, level, sim, mask, at, ef));
    }
  }

  /** Hits of the classical graph search are live, with true similarity, permitted unless it is the landing
      slot, ranked and once each; no permitted live neighbour of a hit is missed unless it beats no hit. */
  lemma ClassicalSearchComplete(e: Engine, sp: Space, sim: nat -> real, mask: Option<set<nat>>, roots: seq<nat>,
                                top: nat, ef: nat, k: nat)
    requires LawfulEngine(e) && Proper(sp) && RootsIn(sp, roots)
    ensures var hits := ClassicalGraphSearch(e, sp, sim, mask, roots, top, ef, k);
      && Ranked(hits) && Distinct(Indices(hits)) && |hits| <= Min(ef, k)
      && (forall x, n :: x in hits && n in sp.live && Linked(sp, 0, x.index, n) && Permits(mask, n) ==>
            Scored(n, sim(n)) in hits || forall y :: y in hits ==> sim(n) <= y.score)
      && (forall y :: y in hits ==> y.index in sp.live && y.score == sim(y.index))
      && (forall y :: y in hits ==>
            Permits(mask, y.index) || (roots != [] && y == ClassicalLanding(e, sp, sim, roots, top)))
  {
    if roots != [] {
      var at := ClassicalLanding(e, sp, sim, roots, top);
      ClassicalLandingFacts(e, sp, sim, roots, top);
      ClassicalLevelFacts(e, sp, 0, sim, mask, at, ef);
      ClassicalLevelPeak(e, sp, 0, sim, mask, at, ef);
      var found := ClassicalLevel(e, sp, 0, sim, mask, at, ef);
      HitsOfPeak(sp, sim, mask, ef, found, k);
      forall y | y in GraphHits(found, sp.live, k)
        ensures y.score == sim(y.index) && (Permits(mask, y.index) || y == at)
      {
        var i :| 0 <= i < |found| && found[i] == y;
      }
    }
  }

  // ---- the search as it runs -------------------------------------------------------------------

  /** `step` is what the program does on a level. */
  ghost predicate RunsClassical(step: Step, e: Engine, sp: Space, sim: nat -> real)
    requires LawfulEngine(e) && Proper(sp)
  {
    forall l: nat, at: Scored {:trigger ClassicalLevel(e, sp, l, sim, None, at, 1)} ::
      at.index < sp.size ==> step(l, at) == ClassicalLevel(e, sp, l, sim, None, at, 1)
  }

  lemma ClassicalStepRuns(e: Engine, sp: Space, sim: nat -> real)
    requires LawfulEngine(e) && Proper(sp)
    ensures RunsClassical(ClassicalStep(e, sp, sim), e, sp, sim)
  {
  }

  method SearchOneClassical(e: Engine, sp: Space, level: nat, sim: nat -> real, mask: Option<set<nat>>, at: Scored,
                            ef: nat) returns (r: seq<Scored>)
    requires LawfulEngine(e) && Proper(sp) && at.index < sp.size
    ensures r == ClassicalLevel(e, sp, level, sim, mask, at, ef)
  {
    r := ClassicalSearch.ClassicalSearchLayer(e, LevelQuery(sp, level, sim, mask, at, ef));
  }

  method StepDownClassical(e: Engine, sp: Space, level: nat, sim: nat -> real, at: Scored, ghost step: Step)
      returns (r: Scored)
    requires LawfulEngine(e) && Proper(sp) && Placed(sp, sim, at) && RunsClassical(step, e, sp, sim)
    ensures r == Better(step(level, at), at) && Placed(sp, sim, r)
  {
    var found := SearchOneClassical(e, sp, level, sim, None, at, 1);
    ClassicalLevelFacts(e, sp, level, sim, None, at, 1);
    r := Better(found, at);
  }

  /** The loop over the upper levels. */
  method WalkDownClassical(e: Engine, sp: Space, sim: nat -> real, start: Scored, top: nat, ghost step: Step)
      returns (at: Scored)
    requires LawfulEngine(e) && Proper(sp) && Placed(sp, sim, start) && RunsClassical(step, e, sp, sim)
    ensures at == Descend(step, start, top, 0) && Placed(sp, sim, at)
  {
    at := start;
    var l: nat := top;
    while l > 0
      invariant Placed(sp, sim, at) && Descend(step, at, l, 0) == Descend(step, start, top, 0)
    {
      at := StepDownClassical(e, sp, l, sim, at, step);
      l := l - 1;
    }
  }

  /** Seeding, the greedy walk through the upper levels, the base layer and the live results. */
  method SearchGraphClassical(e: Engine, sp: Space, sim: nat -> real, mask: Option<set<nat>>, roots: seq<nat>,
                              top: nat, ef: nat, k: nat) returns (hits: seq<Scored>)
    requires LawfulEngine(e) && Proper(sp) && RootsIn(sp, roots)
    ensures hits == ClassicalGraphSearch(e, sp, sim, mask, roots, top, ef, k)
  {
    if roots == [] { return []; }
    var at := SeedRoot(sim, roots);
    ClassicalStepRuns(e, sp, sim);
    at := WalkDownClassical(e, sp, sim, at, top, ClassicalStep(e, sp, sim));
    var pool := SearchOneClassical(e, sp, 0, sim, mask, at, ef);
    hits := TakeLive(pool, sp.live, k);
  }
}
