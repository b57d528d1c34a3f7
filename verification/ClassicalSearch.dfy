/** The classical layer search (Algorithm 2 of Malkov and Yashunin, arXiv:1603.09320, as
    `hnsw_classical_search_layer_raw` runs it) and its equivalence with the batched core at width 1. */
module ClassicalSearch {
  import opened Basics
  import opened Ranking
  import opened Heaps
  import opened LayerCore
  import opened LayerOptimality

  /** The loop state. Filtered-out neighbours are marked visited but never scored. */
  datatype Frontier = Frontier(heaps: Pair, visited: set<nat>, scored: set<nat>)

  function ScanOne(e: Engine, q: Query, n: nat, f: Frontier): Frontier {
    if n in f.visited then f
    else if !Permits(q.mask, n) then f.(visited := f.visited + {n})
    else Frontier(Admit(e, q, Scored(n, q.sim(n)), f.heaps), f.visited + {n}, f.scored + {n})
  }

  /** The inner loop over one connection list. */
  function Scan(e: Engine, q: Query, ns: seq<nat>, f: Frontier): Frontier
    decreases |ns|
  {
    if ns == [] then f else Scan(e, q, ns[1..], ScanOne(e, q, ns[0], f))
  }

  ghost predicate InArena(q: Query, f: Frontier) {
    && (forall c :: c in f.heaps.queue.items ==> c.index < |q.layer.adj|)
    && f.visited <= Universe(q)
  }

  lemma {:induction false} ScanFacts(e: Engine, q: Query, ns: seq<nat>, f: Frontier)
    requires InArena(q, f) && forall n :: n in ns ==> n < |q.layer.adj|
    ensures var g := Scan(e, q, ns, f);
      InArena(q, g) && f.visited <= g.visited && (g.visited == f.visited ==> g.heaps == f.heaps)
    decreases |ns|
  {
    if ns != [] {
      assert ns[0] in ns && forall n :: n in ns[1..] ==> n in ns;
      ScanOneFacts(e, q, ns[0], f);
      ScanFacts(e, q, ns[1..], ScanOne(e, q, ns[0], f));
    }
  }

  lemma ScanOneFacts(e: Engine, q: Query, n: nat, f: Frontier)
    requires InArena(q, f) && n < |q.layer.adj|
    ensures var g := ScanOne(e, q, n, f);
      InArena(q, g) && f.visited <= g.visited && (g.visited == f.visited ==> g.heaps == f.heaps)
  {
  }

  function PopOne(e: Engine, f: Frontier): Frontier {
    f.(heaps := Pair(Pop(e.queue, f.heaps.queue), f.heaps.results))
  }

  lemma PopOneFacts(e: Engine, q: Query, f: Frontier)
    requires LawfulEngine(e) && WellFormed(q) && InArena(q, f) && |f.heaps.queue.items| > 0
    ensures InArena(q, PopOne(e, f)) && e.queue.top(f.heaps.queue).index < |q.layer.adj|
    ensures |PopOne(e, f).heaps.queue.items| < |f.heaps.queue.items|
    ensures forall n :: n in Neighbours(q, e.queue.top(f.heaps.queue).index) ==> n < |q.layer.adj|
  {
    PopItems(e.queue, true, f.heaps.queue);
  }

  /** `while let Some(current) = queue.pop()`: stop on a full result list no candidate can improve. */
  function ClassicalLoop(e: Engine, q: Query, f: Frontier): Frontier
    requires LawfulEngine(e) && WellFormed(q) && InArena(q, f)
    decreases Universe(q) - f.visited, |f.heaps.queue.items|
  {
    if |f.heaps.queue.items| == 0 then f
    else
      PopOneFacts(e, q, f);
      var current := e.queue.top(f.heaps.queue);
      var popped := PopOne(e, f);
      if Full(q, f.heaps.results) && current.score < e.best.top(f.heaps.results).score then popped
      else
        ScanFacts(e, q, Neighbours(q, current.index), popped);
        ClassicalLoop(e, q, Scan(e, q, Neighbours(q, current.index), popped))
  }

  function Begin(q: Query): Frontier {
    Frontier(Start(q).heaps, {q.entry}, {q.entry})
  }

  // ---- equivalence with the batched core at width 1 --------------------------------------------

  /** The classical state mirrors the core state; only filtered-out slots are marked in addition. */
  ghost predicate Mirrors(q: Query, f: Frontier, s: Core) {
    && f.heaps == s.heaps && f.scored == s.visited && s.visited <= f.visited
    && forall n :: n in f.visited && n !in s.visited ==> !Permits(q.mask, n)
  }

  /** Scanning with immediate admission equals collecting first and admitting afterwards. */
  lemma {:induction false} ScanMirrorsCollect(e: Engine, q: Query, ns: seq<nat>, f: Frontier, s: Core)
    requires Mirrors(q, f, s)
    ensures var found := Fresh(q, ns, s.visited);
      Mirrors(q, Scan(e, q, ns, f), Core(AdmitAll(e, q, found, s.heaps), s.visited + Marked(found)))
    decreases |ns|
  {
    if ns == [] {
      assert s.visited + Marked([]) == s.visited;
    } else if ns[0] in s.visited || !Permits(q.mask, ns[0]) {
      ScanMirrorsCollect(e, q, ns[1..], ScanOne(e, q, ns[0], f), s);
    } else {
      var n := ns[0];
      var s' := Core(Admit(e, q, Scored(n, q.sim(n)), s.heaps), s.visited + {n});
      ScanMirrorsCollect(e, q, ns[1..], ScanOne(e, q, n, f), s');
      var rest := Fresh(q, ns[1..], s'.visited);
      assert ([n] + rest)[1..] == rest;
      assert s'.visited + Marked(rest) == s.visited + Marked([n] + rest);
    }
  }

  lemma BatchOfOne(e: Engine, q: Query, s: Core)
    requires LawfulEngine(e) && WellFormed(q) && Sound(q, s) && |s.heaps.queue.items| > 0
    ensures e.queue.top(s.heaps.queue).index < |q.layer.adj|
    ensures var c := e.queue.top(s.heaps.queue);
      var found := Fresh(q, Neighbours(q, c.index), s.visited);
      CoreStep(e, q, 1, s) ==
        Core(AdmitAll(e, q, found, Pair(Pop(e.queue, s.heaps.queue), s.heaps.results)), s.visited + Marked(found))
  {
    var c := e.queue.top(s.heaps.queue);
    var p := PopBatch(e, 1, s.heaps.queue);
    assert PopBatch(e, 0, Pop(e.queue, s.heaps.queue)) == Popped([], Pop(e.queue, s.heaps.queue));
    assert p == Popped([c], Pop(e.queue, s.heaps.queue));
    var found := Fresh(q, Neighbours(q, c.index), s.visited);
    assert FreshBatch(q, [], s.visited + Marked(found)) == [];
    assert [c][1..] == [];
    assert FreshBatch(q, [c], s.visited) == found + FreshBatch(q, [], s.visited + Marked(found));
    assert found + [] == found;
  }

  /** The classical search ends with the results and the scored set of the core at width 1. */
  lemma {:induction false} ClassicalIsCore(e: Engine, q: Query, f: Frontier, s: Core)
    requires LawfulEngine(e) && WellFormed(q) && InArena(q, f) && Sound(q, s) && Mirrors(q, f, s)
    ensures ClassicalLoop(e, q, f).heaps.results == CoreLoop(e, q, 1, s).heaps.results
    ensures ClassicalLoop(e, q, f).scored == CoreLoop(e, q, 1, s).visited
    decreases Universe(q) - f.visited, |f.heaps.queue.items|
  {
    if |f.heaps.queue.items| > 0 && !Exhausted(e, q, f.heaps) {
      var c, popped := e.queue.top(f.heaps.queue), PopOne(e, f);
      PopOneFacts(e, q, f);
      ScanFacts(e, q, Neighbours(q, c.index), popped);
      ScanMirrorsCollect(e, q, Neighbours(q, c.index), popped, Core(popped.heaps, s.visited));
      BatchOfOne(e, q, s);
      CoreStepFacts(e, q, 1, s);
      ClassicalIsCore(e, q, Scan(e, q, Neighbours(q, c.index), popped), CoreStep(e, q, 1, s));
    }
  }

  // ---- the search ------------------------------------------------------------------------------

  /** The list `hnsw_classical_search_layer_raw` returns. */
  ghost function ClassicalResult(e: Engine, q: Query): seq<Scored>
    requires LawfulEngine(e) && (q.layer.adj != [] ==> WellFormed(q))
  {
    if q.ef == 0 || q.layer.adj == [] then [] else Listed(e, ClassicalLoop(e, q, Begin(q)).heaps)
  }

  /** Local optimality at exit, for every graph, filter, entry point, `ef` and tie-breaking. */
  lemma ClassicalLocallyOptimal(e: Engine, q: Query)
    requires LawfulEngine(e) && WellFormed(q) && q.ef > 0
    ensures LocallyOptimal(q, ClassicalLoop(e, q, Begin(q)).scored, ClassicalResult(e, q))
  {
    CoreLocallyOptimal(e, q, 1);
    ClassicalIsCore(e, q, Begin(q), Start(q));
  }

  /** `hnsw_classical_search_layer_raw`. */
  method ClassicalSearchLayer(e: Engine, q: Query) returns (r: seq<Scored>)
    requires LawfulEngine(e) && (q.layer.adj != [] ==> WellFormed(q))
    ensures r == ClassicalResult(e, q)
  {
    if q.ef == 0 || |q.layer.adj| == 0 { return []; }
    var entry := Scored(q.entry, q.entrySim);
    var queue, results := Push(Empty, entry), Push(Empty, entry);
    var visited, scored := {q.entry}, {q.entry};
    ghost var final := ClassicalLoop(e, q, Begin(q));
    while |queue.items| > 0
      invariant InArena(q, Frontier(Pair(queue, results), visited, scored))
      invariant ClassicalLoop(e, q, Frontier(Pair(queue, results), visited, scored)) == final
      decreases Universe(q) - visited, |queue.items|
    {
      ghost var f := Frontier(Pair(queue, results), visited, scored);
      PopOneFacts(e, q, f);
      var current := e.queue.top(queue);
      queue := Pop(e.queue, queue);
      if |results.items| >= q.ef && current.score < e.best.top(results).score { break; }
      queue, results, visited, scored := ScanList(e, q, Neighbours(q, current.index), queue, results, visited, scored);
      ScanFacts(e, q, Neighbours(q, current.index), PopOne(e, f));
    }
    r := Rank(e.best.drain(results));
  }

  /** The neighbour loop: skip visited, mark, filter, score, offer to both heaps. */
  method ScanList(e: Engine, q: Query, ns: seq<nat>, queue0: Heap, results0: Heap, visited0: set<nat>,
                  scored0: set<nat>)
      returns (queue: Heap, results: Heap, visited: set<nat>, scored: set<nat>)
    ensures Frontier(Pair(queue, results), visited, scored)
         == Scan(e, q, ns, Frontier(Pair(queue0, results0), visited0, scored0))
  {
    queue, results, visited, scored := queue0, results0, visited0, scored0;
    ghost var final := Scan(e, q, ns, Frontier(Pair(queue0, results0), visited0, scored0));
    for i := 0 to |ns|
      invariant Scan(e, q, ns[i..], Frontier(Pair(queue, results), visited, scored)) == final
    {
      var n := ns[i];
      assert ns[i..][1..] == ns[i + 1..];
      if n !in visited {
        visited := visited + {n};
        if !Permits(q.mask, n) { continue; }
        var sim := q.sim(n);
        scored := scored + {n};
        if |results.items| < q.ef || sim > e.best.top(results).score {
          var cand := Scored(n, sim);
          queue := Push(queue, cand);
          results := Push(results, cand);
          if |results.items| > q.ef {
            results := Pop(e.best, results);
          }
        }
      }
    }
  }
}
