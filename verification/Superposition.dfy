/** The superposition layer search (`superposition_search_layer_raw`): batches, a beam state, phase
    interference and softmax attention around the same two heaps. Beam scores feed only the next
    beam, so the returned list does not depend on them. */
module Superposition {
  import opened Basics
  import opened Ranking
  import opened Heaps
  import opened LayerCore
  import opened LayerOptimality
  import opened ComplexVectors
  import opened Overlap
  import ClassicalSearch

  /** The attention parameters; `exp` is whatever exponential the platform provides. */
  datatype Attention = Attention(width: nat, temperature: real, weight: real, exp: real -> real, sqrt: real -> real)

  /** The vectors the interference term is computed from, and whether this is layer 0. */
  datatype Geometry = Geometry(query: Vector, vectors: nat -> Vector, dimension: nat, base: bool)

  type Beam = seq<(nat, real)>

  function BeamWidth(att: Attention): (w: nat)
    ensures w > 0
  {
    if att.width == 0 then 1 else att.width
  }

  function Temperature(att: Attention): real { MaxReal(att.temperature, 0.0001) }

  function Lambda(att: Attention): real { Clamp(att.weight, 0.0, 1.0) }

  predicate UsesBeam(att: Attention, geo: Geometry) { geo.base && Lambda(att) > 0.0 }

  // ---- beam state and interference -------------------------------------------------------------

  function AddScaled(psi: Vector, v: Vector, w: real): (r: Vector)
    ensures |r| == |psi|
  {
    seq(|psi|, i requires 0 <= i < |psi| =>
      if i < |v| then Complex(psi[i].re + v[i].re * w, psi[i].im + v[i].im * w) else psi[i])
  }

  /** The weighted sum of the beam's vectors. */
  function BeamState(geo: Geometry, beam: Beam, psi: Vector): Vector
    decreases |beam|
  {
    if beam == [] then psi
    else BeamState(geo, beam[1..], AddScaled(psi, geo.vectors(beam[0].0), beam[0].1))
  }

  function Zeros(n: nat): Vector { seq(n, i => Zero) }

  /** The product of two squared lengths, floored. */
  function PhaseSquare(x: Complex, y: Complex): (r: real)
    ensures r > 0.0
  {
    NormSqrNonNegative(x);
    NormSqrNonNegative(y);
    NormSqr(x) * NormSqr(y) + Floor
  }

  /** The inner product of two complex numbers as vectors of the plane. */
  function Inner(x: Complex, y: Complex): real { x.re * y.re + x.im * y.im }

  /** The phase agreement of two overlaps. */
  function Phase(sqrt: real -> real, ipQuery: Complex, ipBeam: Complex): real
    requires IsSqrt(sqrt)
  {
    var square := PhaseSquare(ipQuery, ipBeam);
    assert sqrt(square) * sqrt(square) == square;
    Inner(ipQuery, ipBeam) / sqrt(square)
  }

  function Share(p: real, x: real): real { p * x }

  /** How well a neighbour's overlap with the beam agrees in phase with its overlap with the query. */
  function Coherence(sqrt: real -> real, ipQuery: Complex, ipBeam: Complex): real
    requires IsSqrt(sqrt)
  {
    Share(Clamp(NormSqr(ipBeam), 0.0, 1.0), MaxReal(Phase(sqrt, ipQuery, ipBeam), -0.5))
  }

  function Mix(share: real, a: real, b: real): real { (1.0 - share) * a + share * b }

  /** Query similarity blended with the phase-interference bonus. */
  function TotalScore(att: Attention, geo: Geometry, psi: Vector, n: nat, fidelity: real): real
    requires IsSqrt(att.sqrt)
  {
    if !UsesBeam(att, geo) then fidelity
    else Mix(Lambda(att), fidelity, Coherence(att.sqrt, Dot(geo.query, geo.vectors(n)), Dot(psi, geo.vectors(n))))
  }

  function Totals(att: Attention, geo: Geometry, q: Query, psi: Vector, ns: seq<nat>): (r: seq<real>)
    requires IsSqrt(att.sqrt)
    ensures |r| == |ns|
  {
    seq(|ns|, i requires 0 <= i < |ns| => TotalScore(att, geo, psi, ns[i], q.sim(ns[i])))
  }

  // ---- softmax attention -----------------------------------------------------------------------

  function Largest(s: seq<real>): real
    requires s != []
  {
    if |s| == 1 then s[0] else MaxReal(Largest(s[..|s| - 1]), s[|s| - 1])
  }

  function ExpAt(att: Attention, x: real, largest: real): real { att.exp((x - largest) / Temperature(att)) }

  function Exps(att: Attention, totals: seq<real>): (r: seq<real>)
    requires totals != []
    ensures |r| == |totals|
  {
    seq(|totals|, i requires 0 <= i < |totals| => ExpAt(att, totals[i], Largest(totals)))
  }

  function SumOf(s: seq<real>): real {
    if s == [] then 0.0 else SumOf(s[..|s| - 1]) + s[|s| - 1]
  }

  function InverseSum(sum: real): real { if sum > 0.000000001 then 1.0 / sum else 1.0 }

  function Weights(att: Attention, totals: seq<real>): (r: seq<real>)
    requires totals != []
    ensures |r| == |totals|
  {
    var exps := Exps(att, totals);
    seq(|exps|, i requires 0 <= i < |exps| => exps[i] * InverseSum(SumOf(exps)))
  }

  // ---- the loop --------------------------------------------------------------------------------

  datatype Update = Update(heaps: Pair, beam: Beam)

  /** Offers each neighbour by its query similarity and keeps the first `width` for the next beam. */
  function Offer(e: Engine, q: Query, width: nat, ns: seq<nat>, weights: seq<real>, u: Update): Update
    requires |ns| == |weights|
    decreases |ns|
  {
    if ns == [] then u
    else
      var heaps := Admit(e, q, Scored(ns[0], q.sim(ns[0])), u.heaps);
      var beam := if |u.beam| < width then u.beam + [(ns[0], weights[0])] else u.beam;
      Offer(e, q, width, ns[1..], weights[1..], Update(heaps, beam))
  }

  datatype State = State(core: Core, beam: Beam)

  function Step(e: Engine, q: Query, att: Attention, geo: Geometry, s: State): State
    requires LawfulEngine(e) && WellFormed(q) && Sound(q, s.core) && IsSqrt(att.sqrt)
  {
    PopBatchFacts(e, BeamWidth(att), s.core.heaps.queue);
    var popped := PopBatch(e, BeamWidth(att), s.core.heaps.queue);
    var ns := FreshBatch(q, popped.batch, s.core.visited);
    var heaps := Pair(popped.queue, s.core.heaps.results);
    if ns == [] then State(Core(heaps, s.core.visited), s.beam)
    else
      var psi := if UsesBeam(att, geo) then BeamState(geo, s.beam, Zeros(geo.dimension)) else Zeros(geo.dimension);
      var weights := Weights(att, Totals(att, geo, q, psi, ns));
      var u := Offer(e, q, BeamWidth(att), ns, weights, Update(heaps, []));
      State(Core(u.heaps, s.core.visited + Marked(ns)), if u.beam == [] then s.beam else u.beam)
  }

  lemma {:induction false} OfferIgnoresWeights(e: Engine, q: Query, width: nat, ns: seq<nat>, weights: seq<real>,
                                               u: Update)
    requires |ns| == |weights|
    ensures Offer(e, q, width, ns, weights, u).heaps == AdmitAll(e, q, ns, u.heaps)
    decreases |ns|
  {
    if ns != [] {
      var heaps := Admit(e, q, Scored(ns[0], q.sim(ns[0])), u.heaps);
      var beam := if |u.beam| < width then u.beam + [(ns[0], weights[0])] else u.beam;
      OfferIgnoresWeights(e, q, width, ns[1..], weights[1..], Update(heaps, beam));
    }
  }

  /** Whatever the beam holds, a step moves the heaps and the visited set as the core does. */
  lemma StepIsCore(e: Engine, q: Query, att: Attention, geo: Geometry, s: State)
    requires LawfulEngine(e) && WellFormed(q) && Sound(q, s.core) && IsSqrt(att.sqrt)
    ensures Step(e, q, att, geo, s).core == CoreStep(e, q, BeamWidth(att), s.core)
  {
    PopBatchFacts(e, BeamWidth(att), s.core.heaps.queue);
    var popped := PopBatch(e, BeamWidth(att), s.core.heaps.queue);
    var ns := FreshBatch(q, popped.batch, s.core.visited);
    var heaps := Pair(popped.queue, s.core.heaps.results);
    if ns == [] {
      assert s.core.visited + Marked(ns) == s.core.visited;
    } else {
      var psi := if UsesBeam(att, geo) then BeamState(geo, s.beam, Zeros(geo.dimension)) else Zeros(geo.dimension);
      OfferIgnoresWeights(e, q, BeamWidth(att), ns, Weights(att, Totals(att, geo, q, psi, ns)), Update(heaps, []));
    }
  }

  function Loop(e: Engine, q: Query, att: Attention, geo: Geometry, s: State): State
    requires LawfulEngine(e) && WellFormed(q) && Sound(q, s.core) && IsSqrt(att.sqrt)
    decreases Universe(q) - s.core.visited, |s.core.heaps.queue.items|
  {
    if |s.core.heaps.queue.items| == 0 || Exhausted(e, q, s.core.heaps) then s
    else
      StepIsCore(e, q, att, geo, s);
      CoreStepFacts(e, q, BeamWidth(att), s.core);
      Loop(e, q, att, geo, Step(e, q, att, geo, s))
  }

  function Begin(q: Query): State { State(Start(q), [(q.entry, 1.0)]) }

  /** The list `superposition_search_layer_raw` returns. */
  ghost function SuperpositionResult(e: Engine, q: Query, att: Attention, geo: Geometry): seq<Scored>
    requires LawfulEngine(e) && IsSqrt(att.sqrt) && (q.layer.adj != [] ==> WellFormed(q))
  {
    if q.ef == 0 || q.layer.adj == [] then [] else Listed(e, Loop(e, q, att, geo, Begin(q)).core.heaps)
  }

  // ---- theorems --------------------------------------------------------------------------------

  lemma {:induction false} LoopIsCore(e: Engine, q: Query, att: Attention, geo: Geometry, s: State)
    requires LawfulEngine(e) && WellFormed(q) && Sound(q, s.core) && IsSqrt(att.sqrt)
    ensures Loop(e, q, att, geo, s).core == CoreLoop(e, q, BeamWidth(att), s.core)
    decreases Universe(q) - s.core.visited, |s.core.heaps.queue.items|
  {
    if !(|s.core.heaps.queue.items| == 0 || Exhausted(e, q, s.core.heaps)) {
      StepIsCore(e, q, att, geo, s);
      CoreStepFacts(e, q, BeamWidth(att), s.core);
      LoopIsCore(e, q, att, geo, Step(e, q, att, geo, s));
    }
  }

  /** Interference weight, attention temperature, the exponential and the beam vectors never change
      the returned list: two searches with equal beam width agree. */
  lemma AttentionNeverMatters(e: Engine, q: Query, att: Attention, geo: Geometry, att': Attention, geo': Geometry)
    requires LawfulEngine(e) && (q.layer.adj != [] ==> WellFormed(q))
    requires IsSqrt(att.sqrt) && IsSqrt(att'.sqrt) && BeamWidth(att) == BeamWidth(att')
    ensures SuperpositionResult(e, q, att, geo) == SuperpositionResult(e, q, att', geo')
  {
    if q.layer.adj != [] {
      LoopIsCore(e, q, att, geo, Begin(q));
      LoopIsCore(e, q, att', geo', Begin(q));
    }
  }

  /** With beam width 1 the superposition search returns exactly what the classical search returns,
      on every graph, filter, entry point and `ef`. */
  lemma WidthOneIsClassical(e: Engine, q: Query, att: Attention, geo: Geometry)
    requires LawfulEngine(e) && (q.layer.adj != [] ==> WellFormed(q)) && IsSqrt(att.sqrt) && BeamWidth(att) == 1
    ensures SuperpositionResult(e, q, att, geo) == ClassicalSearch.ClassicalResult(e, q)
  {
    if q.layer.adj != [] {
      LoopIsCore(e, q, att, geo, Begin(q));
      ClassicalSearch.ClassicalIsCore(e, q, ClassicalSearch.Begin(q), Start(q));
    }
  }

  /** Local optimality at exit, for every beam width. */
  lemma SuperpositionLocallyOptimal(e: Engine, q: Query, att: Attention, geo: Geometry)
    requires LawfulEngine(e) && WellFormed(q) && IsSqrt(att.sqrt) && q.ef > 0
    ensures LocallyOptimal(q, Loop(e, q, att, geo, Begin(q)).core.visited, SuperpositionResult(e, q, att, geo))
  {
    CoreLocallyOptimal(e, q, BeamWidth(att));
    LoopIsCore(e, q, att, geo, Begin(q));
  }

  /** Two locally optimal lists over the same slots are the same list. */
  lemma SameSlotsSameList(q: Query, s: set<nat>, r: seq<Scored>, s': set<nat>, r': seq<Scored>)
    requires WellFormed(q) && LocallyOptimal(q, s, r) && LocallyOptimal(q, s', r')
    requires Elems(Indices(r)) == Elems(Indices(r'))
    ensures r == r'
  {
    forall c ensures multiset(r)[c] == multiset(r')[c] {
      CountInList(q, s, r, c);
      CountInList(q, s', r', c);
    }
    RankedUnique(r, r');
  }

  lemma CountInList(q: Query, s: set<nat>, r: seq<Scored>, c: Scored)
    requires WellFormed(q) && LocallyOptimal(q, s, r)
    ensures multiset(r)[c] == if c.index in Elems(Indices(r)) && c == Cand(q, c.index) then 1 else 0
  {
    forall i, j | 0 <= i < j < |r| ensures r[i] != r[j] { assert Indices(r)[i] != Indices(r)[j]; }
    DistinctCounts(r, c);
    assert c in r <==> c in multiset(r);
    if c in r {
      var i :| 0 <= i < |r| && r[i] == c;
      assert Indices(r)[i] == c.index;
    }
    if c.index in Elems(Indices(r)) && c == Cand(q, c.index) {
      var i :| 0 <= i < |r| && Indices(r)[i] == c.index;
      assert r[i] == c;
    }
  }

  /** When the reachable set fits into `ef`, both layer searches return all of it, and the same list
      whatever the beam width. */
  lemma SmallReachableSetReturned(e: Engine, q: Query, att: Attention, geo: Geometry, reach: set<nat>)
    requires LawfulEngine(e) && WellFormed(q) && IsSqrt(att.sqrt) && |reach| <= q.ef
    requires forall n :: n in reach <==> Reachable(q, n)
    ensures Elems(Indices(SuperpositionResult(e, q, att, geo))) == reach
    ensures SuperpositionResult(e, q, att, geo) == ClassicalSearch.ClassicalResult(e, q)
  {
    assert Walk(q, [q.entry]) && [q.entry][|[q.entry]| - 1] == q.entry;
    SubsetSize({q.entry}, reach);
    var s, r := Loop(e, q, att, geo, Begin(q)).core.visited, SuperpositionResult(e, q, att, geo);
    var s', r' := ClassicalSearch.ClassicalLoop(e, q, ClassicalSearch.Begin(q)).scored,
        ClassicalSearch.ClassicalResult(e, q);
    SuperpositionLocallyOptimal(e, q, att, geo);
    ClassicalSearch.ClassicalLocallyOptimal(e, q);
    ReachableReturned(q, s, r, reach);
    ReachableReturned(q, s', r', reach);
    SameSlotsSameList(q, s, r, s', r');
  }

  // ---- the search as it runs -------------------------------------------------------------------

  /** Pops up to `width` candidates. */
  method TakeBatch(e: Engine, width: nat, queue0: Heap) returns (batch: seq<Scored>, queue: Heap)
    ensures Popped(batch, queue) == PopBatch(e, width, queue0)
  {
    batch, queue := [], queue0;
    ghost var all := PopBatch(e, width, queue0);
    for i := 0 to width
      invariant batch + PopBatch(e, width - i, queue).batch == all.batch
      invariant PopBatch(e, width - i, queue).queue == all.queue
    {
      if |queue.items| == 0 { break; }
      batch := batch + [e.queue.top(queue)];
      queue := Pop(e.queue, queue);
    }
  }

  lemma MarkedConcat(a: seq<nat>, b: seq<nat>, visited: set<nat>)
    ensures visited + Marked(a) + Marked(b) == visited + Marked(a + b)
  {
  }

  lemma MarkedSnoc(a: seq<nat>, n: nat, visited: set<nat>)
    ensures visited + Marked(a) + {n} == visited + Marked(a + [n])
  {
    MarkedConcat(a, [n], visited);
    assert Marked([n]) == {n};
  }

  lemma FreshStep(q: Query, conns: seq<nat>, i: nat, visited: set<nat>, ns: seq<nat>)
    requires i < |conns|
    ensures var n := conns[i];
      ns + Fresh(q, conns[i..], visited) ==
        if n in visited || !Permits(q.mask, n) then ns + Fresh(q, conns[i + 1..], visited)
        else (ns + [n]) + Fresh(q, conns[i + 1..], visited + {n})
  {
    var n := conns[i];
    assert conns[i..][1..] == conns[i + 1..];
    assert ns + ([n] + Fresh(q, conns[i + 1..], visited + {n})) == (ns + [n]) + Fresh(q, conns[i + 1..], visited + {n});
  }

  /** Collects the unvisited, permitted entries of one connection list and marks them. */
  method CollectFrom(q: Query, conns: seq<nat>, visited0: set<nat>) returns (ns: seq<nat>, visited: set<nat>)
    ensures ns == Fresh(q, conns, visited0) && visited == visited0 + Marked(ns)
  {
    ns, visited := [], visited0;
    for i := 0 to |conns|
      invariant ns + Fresh(q, conns[i..], visited) == Fresh(q, conns, visited0)
      invariant visited == visited0 + Marked(ns)
    {
      var n := conns[i];
      FreshStep(q, conns, i, visited, ns);
      if n in visited || !Permits(q.mask, n) { continue; }
      MarkedSnoc(ns, n, visited0);
      visited, ns := visited + {n}, ns + [n];
    }
  }

  lemma FreshBatchStep(q: Query, batch: seq<Scored>, i: nat, visited: set<nat>, ns: seq<nat>)
    requires i < |batch| && forall c :: c in batch ==> c.index < |q.layer.adj|
    ensures batch[i] in batch
    ensures var more := Fresh(q, Neighbours(q, batch[i].index), visited);
      ns + FreshBatch(q, batch[i..], visited) == (ns + more) + FreshBatch(q, batch[i + 1..], visited + Marked(more))
  {
    var more := Fresh(q, Neighbours(q, batch[i].index), visited);
    assert batch[i..][1..] == batch[i + 1..];
    assert ns + (more + FreshBatch(q, batch[i + 1..], visited + Marked(more)))
        == (ns + more) + FreshBatch(q, batch[i + 1..], visited + Marked(more));
  }

  method CollectBatch(q: Query, batch: seq<Scored>, visited0: set<nat>) returns (ns: seq<nat>, visited: set<nat>)
    requires forall c :: c in batch ==> c.index < |q.layer.adj|
    ensures ns == FreshBatch(q, batch, visited0) && visited == visited0 + Marked(ns)
  {
    ns, visited := [], visited0;
    for i := 0 to |batch|
      invariant ns + FreshBatch(q, batch[i..], visited) == FreshBatch(q, batch, visited0)
      invariant visited == visited0 + Marked(ns)
    {
      FreshBatchStep(q, batch, i, visited, ns);
      var more, v := CollectFrom(q, Neighbours(q, batch[i].index), visited);
      MarkedConcat(ns, more, visited0);
      ns, visited := ns + more, v;
    }
  }

  /** Accumulates the beam state vector. */
  method ComputeBeamState(geo: Geometry, beam: Beam) returns (psi: Vector)
    ensures psi == BeamState(geo, beam, Zeros(geo.dimension))
  {
    psi := Zeros(geo.dimension);
    for i := 0 to |beam|
      invariant BeamState(geo, beam[i..], psi) == BeamState(geo, beam, Zeros(geo.dimension))
    {
      assert beam[i..][1..] == beam[i + 1..];
      psi := AddScaled(psi, geo.vectors(beam[i].0), beam[i].1);
    }
  }

  method ComputeTotals(att: Attention, geo: Geometry, q: Query, psi: Vector, ns: seq<nat>) returns (totals: seq<real>)
    requires IsSqrt(att.sqrt)
    ensures totals == Totals(att, geo, q, psi, ns)
  {
    totals := [];
    for i := 0 to |ns|
      invariant |totals| == i
      invariant forall j :: 0 <= j < i ==> totals[j] == TotalScore(att, geo, psi, ns[j], q.sim(ns[j]))
    {
      totals := totals + [TotalScore(att, geo, psi, ns[i], q.sim(ns[i]))];
    }
  }

  /** Maximum, exponentials with their sum, then the normalised weights. */
  method ComputeWeights(att: Attention, totals: seq<real>) returns (weights: seq<real>)
    requires totals != []
    ensures weights == Weights(att, totals)
  {
    var largest := ComputeLargest(totals);
    var exps, sum := ComputeExps(att, totals, largest);
    weights := seq(|exps|, i requires 0 <= i < |exps| => exps[i] * InverseSum(sum));
  }

  method ComputeLargest(totals: seq<real>) returns (largest: real)
    requires totals != []
    ensures largest == Largest(totals)
  {
    largest := totals[0];
    for i := 1 to |totals|
      invariant largest == Largest(totals[..i])
    {
      assert totals[..i + 1][..i] == totals[..i];
      largest := MaxReal(largest, totals[i]);
    }
    assert totals[..|totals|] == totals;
  }

  lemma SumSnoc(s: seq<real>, i: nat)
    requires i < |s|
    ensures s[..i + 1] == s[..i] + [s[i]] && SumOf(s[..i + 1]) == SumOf(s[..i]) + s[i]
  {
    assert s[..i + 1][..i] == s[..i];
  }

  method ComputeExps(att: Attention, totals: seq<real>, largest: real) returns (exps: seq<real>, sum: real)
    requires totals != [] && largest == Largest(totals)
    ensures exps == Exps(att, totals) && sum == SumOf(exps)
  {
    exps, sum := [], 0.0;
    ghost var all := Exps(att, totals);
    for i := 0 to |totals|
      invariant exps == all[..i] && sum == SumOf(exps)
    {
      var v := ExpAt(att, totals[i], largest);
      assert v == all[i];
      SumSnoc(all, i);
      exps, sum := exps + [v], sum + v;
    }
    assert all[..|totals|] == all;
  }

  /** Updates the candidate queue, the results and the next beam. */
  method OfferAll(e: Engine, q: Query, width: nat, ns: seq<nat>, weights: seq<real>, queue0: Heap, results0: Heap)
      returns (queue: Heap, results: Heap, next: Beam)
    requires |ns| == |weights|
    ensures Update(Pair(queue, results), next) == Offer(e, q, width, ns, weights, Update(Pair(queue0, results0), []))
  {
    queue, results, next := queue0, results0, [];
    ghost var all := Offer(e, q, width, ns, weights, Update(Pair(queue0, results0), []));
    for i := 0 to |ns|
      invariant Offer(e, q, width, ns[i..], weights[i..], Update(Pair(queue, results), next)) == all
    {
      assert ns[i..][1..] == ns[i + 1..] && weights[i..][1..] == weights[i + 1..];
      var cand := Scored(ns[i], q.sim(ns[i]));
      if |results.items| < q.ef || cand.score > e.best.top(results).score {
        queue := Push(queue, cand);
        results := Push(results, cand);
        if |results.items| > q.ef {
          results := Pop(e.best, results);
        }
      }
      if |next| < width {
        next := next + [(ns[i], weights[i])];
      }
    }
  }

  /** `run` is what the loop does from a state. */
  ghost predicate Follows(run: State -> State, e: Engine, q: Query, att: Attention, geo: Geometry)
    requires LawfulEngine(e) && WellFormed(q) && IsSqrt(att.sqrt)
  {
    forall s: State {:trigger Loop(e, q, att, geo, s)} :: Sound(q, s.core) ==> run(s) == Loop(e, q, att, geo, s)
  }

  ghost function LoopOf(e: Engine, q: Query, att: Attention, geo: Geometry): State -> State
    requires LawfulEngine(e) && WellFormed(q) && IsSqrt(att.sqrt)
  {
    (s: State) => if Sound(q, s.core) then Loop(e, q, att, geo, s) else s
  }

  /** The loop stops where nothing is queued or the best queued slot is worse than the worst result, and
      otherwise takes a step. */
  lemma LoopUnrolls(run: State -> State, e: Engine, q: Query, att: Attention, geo: Geometry, s: State)
    requires LawfulEngine(e) && WellFormed(q) && IsSqrt(att.sqrt) && Sound(q, s.core) && Follows(run, e, q, att, geo)
    ensures if |s.core.heaps.queue.items| == 0 || Exhausted(e, q, s.core.heaps) then run(s) == s
            else run(s) == run(Step(e, q, att, geo, s))
  {
    var _ := Loop(e, q, att, geo, s);
    if |s.core.heaps.queue.items| > 0 {
      StepIsCore(e, q, att, geo, s);
      CoreStepFacts(e, q, BeamWidth(att), s.core);
      var _ := Loop(e, q, att, geo, Step(e, q, att, geo, s));
    }
  }

  /** `superposition_search_layer_raw`. */
  method SuperpositionSearchLayer(e: Engine, q: Query, att: Attention, geo: Geometry) returns (r: seq<Scored>)
    requires LawfulEngine(e) && IsSqrt(att.sqrt) && (q.layer.adj != [] ==> WellFormed(q))
    ensures r == SuperpositionResult(e, q, att, geo)
  {
    if q.ef == 0 || |q.layer.adj| == 0 { return []; }
    var results := SearchLoop(e, q, att, geo, LoopOf(e, q, att, geo));
    r := Rank(e.best.drain(results));
  }

  /** The loop, from a queue and a result heap that hold the entry point. */
  method SearchLoop(e: Engine, q: Query, att: Attention, geo: Geometry, ghost run: State -> State)
      returns (results: Heap)
    requires LawfulEngine(e) && IsSqrt(att.sqrt) && WellFormed(q) && Follows(run, e, q, att, geo)
    ensures results == run(Begin(q)).core.heaps.results
  {
    var entry := Scored(q.entry, q.entrySim);
    var queue, visited := Push(Empty, entry), {q.entry};
    var beam: Beam := [(q.entry, 1.0)];
    results := Push(Empty, entry);
    while |queue.items| > 0
      invariant Sound(q, Core(Pair(queue, results), visited))
      invariant run(State(Core(Pair(queue, results), visited), beam)) == run(Begin(q))
      decreases Universe(q) - visited, |queue.items|
    {
      LoopUnrolls(run, e, q, att, geo, State(Core(Pair(queue, results), visited), beam));
      if |results.items| >= q.ef && e.queue.top(queue).score < e.best.top(results).score { return; }
      queue, results, visited, beam := Iterate(e, q, att, geo, queue, results, visited, beam);
    }
    LoopUnrolls(run, e, q, att, geo, State(Core(Pair(queue, results), visited), beam));
  }

  /** One round: batch, beam state, collection, scores, attention, heap updates, beam swap. */
  method Iterate(e: Engine, q: Query, att: Attention, geo: Geometry, queue0: Heap, results0: Heap,
                 visited0: set<nat>, beam0: Beam)
      returns (queue: Heap, results: Heap, visited: set<nat>, beam: Beam)
    requires LawfulEngine(e) && WellFormed(q) && IsSqrt(att.sqrt) && |queue0.items| > 0
    requires Sound(q, Core(Pair(queue0, results0), visited0))
    ensures State(Core(Pair(queue, results), visited), beam)
         == Step(e, q, att, geo, State(Core(Pair(queue0, results0), visited0), beam0))
    ensures Sound(q, Core(Pair(queue, results), visited)) && visited0 <= visited
    ensures visited == visited0 ==> |queue.items| < |queue0.items|
  {
    ghost var s := State(Core(Pair(queue0, results0), visited0), beam0);
    StepIsCore(e, q, att, geo, s);
    CoreStepFacts(e, q, BeamWidth(att), s.core);
    PopBatchFacts(e, BeamWidth(att), queue0);
    results, beam := results0, beam0;
    var batch;
    batch, queue := TakeBatch(e, BeamWidth(att), queue0);
    var psi := Zeros(geo.dimension);
    if UsesBeam(att, geo) { psi := ComputeBeamState(geo, beam); }
    var ns;
    ns, visited := CollectBatch(q, batch, visited0);
    if |ns| > 0 {
      var totals := ComputeTotals(att, geo, q, psi, ns);
      var weights := ComputeWeights(att, totals);
      var next;
      queue, results, next := OfferAll(e, q, BeamWidth(att), ns, weights, queue, results);
      if next != [] { beam := next; }
    } else {
      assert visited == visited0;
    }
  }
}
