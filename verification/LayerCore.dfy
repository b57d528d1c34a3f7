/** Best-first search of one graph layer: layers, queries, the two heaps, and the batched loop both layer
    searches reduce to. */
module LayerCore {
  import opened Basics
  import opened Ranking
  import opened Heaps

  /** One layer: `adj[i]` is the connection list of slot `i`, `live` the published slots. */
  datatype Layer = Layer(live: set<nat>, adj: seq<seq<nat>>)

  /** A layer query: similarities to the query vector, an optional filter, the entry point with the
      similarity it was handed in with, and the result width `ef`. */
  datatype Query = Query(layer: Layer, sim: nat -> real, mask: Option<set<nat>>, entry: nat, entrySim: real, ef: nat)

  /** The max-heap of candidates and the min-heap of results. */
  datatype Engine = Engine(queue: Impl, best: Impl)

  ghost predicate LawfulEngine(e: Engine) {
    Lawful(e.queue, true) && Lawful(e.best, false)
  }

  /** Connection lists and the entry point name arena slots. */
  predicate WellFormed(q: Query) {
    && q.entry < |q.layer.adj|
    && forall i, j :: 0 <= i < |q.layer.adj| && 0 <= j < |q.layer.adj[i]| ==> q.layer.adj[i][j] < |q.layer.adj|
  }

  function Universe(q: Query): set<nat> {
    UpTo(|q.layer.adj|)
  }

  function ScoreOf(q: Query, n: nat): real {
    if n == q.entry then q.entrySim else q.sim(n)
  }

  function Cand(q: Query, n: nat): Scored { Scored(n, ScoreOf(q, n)) }

  /** Neighbours the search walks to from `n`; dead slots are dead ends. */
  function Neighbours(q: Query, n: nat): seq<nat>
    requires n < |q.layer.adj|
  {
    if n in q.layer.live then q.layer.adj[n] else []
  }

  // ---- the two heaps ---------------------------------------------------------------------------

  datatype Pair = Pair(queue: Heap, results: Heap)

  predicate Full(q: Query, results: Heap) {
    |results.items| >= q.ef
  }

  /** Offer a scored neighbour: it enters both heaps if there is room or it beats the worst result. */
  function Admit(e: Engine, q: Query, c: Scored, h: Pair): Pair {
    if !Full(q, h.results) || c.score > e.best.top(h.results).score then
      var grown := Push(h.results, c);
      Pair(Push(h.queue, c), if |grown.items| > q.ef then Pop(e.best, grown) else grown)
    else h
  }

  function AdmitAll(e: Engine, q: Query, ns: seq<nat>, h: Pair): Pair
    decreases |ns|
  {
    if ns == [] then h else AdmitAll(e, q, ns[1..], Admit(e, q, Scored(ns[0], q.sim(ns[0])), h))
  }

  /** The stopping test: the results are full and the best candidate left is worse than all of them. */
  predicate Exhausted(e: Engine, q: Query, h: Pair) {
    Full(q, h.results) && e.queue.top(h.queue).score < e.best.top(h.results).score
  }

  // ---- the batched core loop -------------------------------------------------------------------

  /** Unvisited, mask-permitted entries of a connection list, first occurrences only. */
  function Fresh(q: Query, ns: seq<nat>, visited: set<nat>): (r: seq<nat>)
    ensures forall n :: n in r <==> n in ns && n !in visited && Permits(q.mask, n)
  {
    if ns == [] then []
    else if ns[0] in visited || !Permits(q.mask, ns[0]) then Fresh(q, ns[1..], visited)
    else [ns[0]] + Fresh(q, ns[1..], visited + {ns[0]})
  }

  function Marked(ns: seq<nat>): set<nat> { set n | n in ns }

  function FreshBatch(q: Query, batch: seq<Scored>, visited: set<nat>): seq<nat>
    requires forall c :: c in batch ==> c.index < |q.layer.adj|
  {
    if batch == [] then []
    else
      var first := Fresh(q, Neighbours(q, batch[0].index), visited);
      first + FreshBatch(q, batch[1..], visited + Marked(first))
  }

  datatype Popped = Popped(batch: seq<Scored>, queue: Heap)

  function PopBatch(e: Engine, width: nat, queue: Heap): Popped
    decreases width
  {
    if width == 0 || |queue.items| == 0 then Popped([], queue)
    else
      var rest := PopBatch(e, width - 1, Pop(e.queue, queue));
      Popped([e.queue.top(queue)] + rest.batch, rest.queue)
  }

  datatype Core = Core(heaps: Pair, visited: set<nat>)

  /** Everything queued names a slot, and so does everything visited. */
  ghost predicate Sound(q: Query, s: Core) {
    && (forall c :: c in s.heaps.queue.items ==> c.index < |q.layer.adj|)
    && s.visited <= Universe(q)
  }

  function CoreStep(e: Engine, q: Query, width: nat, s: Core): Core
    requires LawfulEngine(e) && WellFormed(q) && Sound(q, s)
  {
    PopBatchFacts(e, width, s.heaps.queue);
    var popped := PopBatch(e, width, s.heaps.queue);
    var found := FreshBatch(q, popped.batch, s.visited);
    Core(AdmitAll(e, q, found, Pair(popped.queue, s.heaps.results)), s.visited + Marked(found))
  }

  function CoreLoop(e: Engine, q: Query, width: nat, s: Core): Core
    requires LawfulEngine(e) && WellFormed(q) && Sound(q, s) && width > 0
    decreases Universe(q) - s.visited, |s.heaps.queue.items|
  {
    if |s.heaps.queue.items| == 0 || Exhausted(e, q, s.heaps) then s
    else
      CoreStepFacts(e, q, width, s);
      CoreLoop(e, q, width, CoreStep(e, q, width, s))
  }

  function Start(q: Query): Core {
    var c := Scored(q.entry, q.entrySim);
    Core(Pair(Push(Empty, c), Push(Empty, c)), {q.entry})
  }

  // ---- facts about the pieces of a step --------------------------------------------------------

  lemma ConsItems(all: multiset<Scored>, less: multiset<Scored>, rest: multiset<Scored>, top: Scored,
                  batch: seq<Scored>)
    requires less + multiset{top} == all && less == rest + multiset(batch)
    ensures all == rest + multiset([top] + batch)
  {
    assert multiset([top] + batch) == multiset{top} + multiset(batch);
  }

  /** A batch is what left the queue. */
  lemma {:induction false} PopBatchFacts(e: Engine, width: nat, queue: Heap)
    requires LawfulEngine(e)
    ensures queue.items == PopBatch(e, width, queue).queue.items + multiset(PopBatch(e, width, queue).batch)
    decreases width
  {
    if width == 0 || |queue.items| == 0 {
      assert PopBatch(e, width, queue) == Popped([], queue);
    } else {
      var top, less := e.queue.top(queue), Pop(e.queue, queue);
      var p := PopBatch(e, width - 1, less);
      assert PopBatch(e, width, queue) == Popped([top] + p.batch, p.queue);
      PopBatchFacts(e, width - 1, less);
      PopItems(e.queue, true, queue);
      ConsItems(queue.items, less.items, p.queue.items, top, p.batch);
    }
  }

  lemma {:induction false} FreshDistinct(q: Query, ns: seq<nat>, visited: set<nat>)
    ensures Distinct(Fresh(q, ns, visited))
  {
    if ns == [] {
    } else if ns[0] in visited || !Permits(q.mask, ns[0]) {
      FreshDistinct(q, ns[1..], visited);
    } else {
      FreshDistinct(q, ns[1..], visited + {ns[0]});
    }
  }

  /** `n` is a neighbour of some member of the batch. */
  ghost predicate Offered(q: Query, batch: seq<Scored>, n: nat)
    requires forall c :: c in batch ==> c.index < |q.layer.adj|
  {
    exists i :: 0 <= i < |batch| && n in Neighbours(q, batch[i].index)
  }

  lemma {:induction false} FreshBatchFacts(q: Query, batch: seq<Scored>, visited: set<nat>)
    requires forall c :: c in batch ==> c.index < |q.layer.adj|
    ensures Distinct(FreshBatch(q, batch, visited))
    ensures forall n: nat :: n in FreshBatch(q, batch, visited) <==>
      n !in visited && Permits(q.mask, n) && Offered(q, batch, n)
  {
    if batch != [] {
      var ns, tail := Neighbours(q, batch[0].index), batch[1..];
      var first := Fresh(q, ns, visited);
      FreshDistinct(q, ns, visited);
      FreshBatchFacts(q, tail, visited + Marked(first));
      DistinctConcat(first, FreshBatch(q, tail, visited + Marked(first)));
      forall n: nat ensures Offered(q, batch, n) <==> n in ns || Offered(q, tail, n) {
        if Offered(q, batch, n) {
          var i :| 0 <= i < |batch| && n in Neighbours(q, batch[i].index);
          assert i > 0 ==> tail[i - 1] == batch[i];
        }
        if Offered(q, tail, n) {
          var i :| 0 <= i < |tail| && n in Neighbours(q, tail[i].index);
          assert batch[i + 1] == tail[i];
        }
      }
    }
  }

  lemma OfferedInRange(q: Query, batch: seq<Scored>)
    requires WellFormed(q) && forall c :: c in batch ==> c.index < |q.layer.adj|
    ensures forall n: nat :: Offered(q, batch, n) ==> n < |q.layer.adj|
  {
  }

  lemma {:induction false} AdmitAllQueue(e: Engine, q: Query, ns: seq<nat>, h: Pair, c: Scored)
    requires LawfulEngine(e) && c in AdmitAll(e, q, ns, h).queue.items
    ensures c in h.queue.items || c.index in ns
    decreases |ns|
  {
    if ns != [] {
      AdmitAllQueue(e, q, ns[1..], Admit(e, q, Scored(ns[0], q.sim(ns[0])), h), c);
    }
  }

  /** A step stays sound and makes progress: it visits something new or shortens the queue. */
  lemma CoreStepFacts(e: Engine, q: Query, width: nat, s: Core)
    requires LawfulEngine(e) && WellFormed(q) && Sound(q, s) && width > 0
    requires |s.heaps.queue.items| > 0
    ensures var t := CoreStep(e, q, width, s);
      && Sound(q, t) && s.visited <= t.visited
      && (t.visited == s.visited ==> |t.heaps.queue.items| < |s.heaps.queue.items|)
  {
    var p := PopBatch(e, width, s.heaps.queue);
    PopBatchFacts(e, width, s.heaps.queue);
    var found := FreshBatch(q, p.batch, s.visited);
    FreshBatchFacts(q, p.batch, s.visited);
    OfferedInRange(q, p.batch);
    var t := CoreStep(e, q, width, s);
    forall c | c in t.heaps.queue.items ensures c.index < |q.layer.adj| {
      AdmitAllQueue(e, q, found, Pair(p.queue, s.heaps.results), c);
    }
    if found != [] { assert found[0] in t.visited; }
  }
}
