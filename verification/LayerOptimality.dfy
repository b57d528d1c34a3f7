/** What every step of the batched layer search keeps, and what that gives at exit: local optimality,
    and the whole reachable set when it fits into `ef`. */
module LayerOptimality {
  import opened Basics
  import opened Ranking
  import opened Heaps
  import opened LayerCore

  // ---- reachability ----------------------------------------------------------------------------

  /** One move of the search: from a live slot to a mask-permitted neighbour. */
  predicate Edge(q: Query, n: nat, m: nat)
    requires WellFormed(q)
  {
    n < |q.layer.adj| && n in q.layer.live && m in q.layer.adj[n] && Permits(q.mask, m)
  }

  /** A walk of the search from the entry point. */
  predicate Walk(q: Query, w: seq<nat>)
    requires WellFormed(q)
  {
    && w != [] && w[0] == q.entry
    && forall i :: 0 <= i < |w| - 1 ==> Edge(q, w[i], w[i + 1])
  }

  ghost predicate Reachable(q: Query, n: nat)
    requires WellFormed(q)
  {
    exists w :: Walk(q, w) && w[|w| - 1] == n
  }

  lemma ReachableStep(q: Query, n: nat, m: nat)
    requires WellFormed(q) && Reachable(q, n) && Edge(q, n, m)
    ensures Reachable(q, m)
  {
    var w :| Walk(q, w) && w[|w| - 1] == n;
    assert Walk(q, w + [m]);
    assert (w + [m])[|w + [m]| - 1] == m;
  }

  ghost predicate Closed(q: Query, s: set<nat>)
    requires WellFormed(q)
  {
    forall n, m :: n in s && Edge(q, n, m) ==> m in s
  }

  lemma {:induction false} ClosedHoldsWalk(q: Query, s: set<nat>, w: seq<nat>)
    requires WellFormed(q) && Closed(q, s) && q.entry in s && Walk(q, w)
    ensures w[|w| - 1] in s
    decreases |w|
  {
    if |w| > 1 {
      var v := w[..|w| - 1];
      forall i | 0 <= i < |v| - 1 ensures Edge(q, v[i], v[i + 1]) { assert Edge(q, w[i], w[i + 1]); }
      ClosedHoldsWalk(q, s, v);
      assert Edge(q, w[|w| - 2], w[|w| - 2 + 1]);
    }
  }

  // ---- the invariant ---------------------------------------------------------------------------

  /** `n` has been expanded: every move from it leads to a visited slot. */
  ghost predicate Expanded(q: Query, visited: set<nat>, n: nat)
    requires WellFormed(q)
  {
    forall m :: Edge(q, n, m) ==> m in visited
  }

  /** The results hold distinct, correctly scored members of `done`. */
  ghost predicate Held(q: Query, done: set<nat>, r: multiset<Scored>) {
    && (forall c :: c in r ==> r[c] == 1 && c.index in done && c == Cand(q, c.index))
    && |r| <= q.ef
  }

  /** `n` is in the results, or they are full and none of them is worse than `n`. */
  ghost predicate Placed(q: Query, r: multiset<Scored>, n: nat) {
    Cand(q, n) in r || (|r| == q.ef && forall c :: c in r ==> ScoreOf(q, n) <= c.score)
  }

  /** The state between two admissions: `done` have been offered to the heaps, `visited` are known. */
  ghost predicate Inv(q: Query, done: set<nat>, visited: set<nat>, h: Pair)
    requires WellFormed(q)
  {
    && done <= visited
    && Held(q, done, h.results.items)
    && (forall n :: n in done ==> Placed(q, h.results.items, n))
    && (forall c :: c in h.queue.items ==> c.index in done && c == Cand(q, c.index))
    && (forall c :: c in h.results.items ==> c in h.queue.items || Expanded(q, visited, c.index))
  }

  /** Visited slots are reachable, inside the arena, and pass the filter unless they are the entry. */
  ghost predicate Explored(q: Query, visited: set<nat>)
    requires WellFormed(q)
  {
    && q.entry in visited && visited <= Universe(q)
    && forall n :: n in visited ==> Reachable(q, n) && (n == q.entry || Permits(q.mask, n))
  }

  lemma StartHolds(q: Query)
    requires WellFormed(q) && q.ef > 0
    ensures Inv(q, {q.entry}, {q.entry}, Start(q).heaps) && Explored(q, {q.entry})
  {
    assert Walk(q, [q.entry]);
    assert [q.entry][|[q.entry]| - 1] == q.entry;
  }

  // ---- one admission ---------------------------------------------------------------------------

  /** With room left every offered slot is among the results. */
  lemma AdmitWithRoom(e: Engine, q: Query, done: set<nat>, n: nat, r: multiset<Scored>)
    requires |r| < q.ef && Held(q, done, r) && n !in done
    requires forall m :: m in done ==> Placed(q, r, m)
    ensures var r' := r + multiset{Cand(q, n)};
      Held(q, done + {n}, r') && forall m :: m in done + {n} ==> Placed(q, r', m)
  {
  }

  /** Replacing the worst result by a better one. */
  lemma AdmitByEviction(q: Query, done: set<nat>, n: nat, r: multiset<Scored>, w: Scored)
    requires |r| == q.ef > 0 && Held(q, done, r) && n !in done
    requires forall m :: m in done ==> Placed(q, r, m)
    requires exists c :: c in r && ScoreOf(q, n) > c.score
    requires IsTop(false, w, r + multiset{Cand(q, n)})
    ensures var r' := Less(r + multiset{Cand(q, n)}, w);
      Held(q, done + {n}, r') && forall m :: m in done + {n} ==> Placed(q, r', m)
  {
    var grown := r + multiset{Cand(q, n)};
    var r' := Less(grown, w);
    assert forall c :: c in r' ==> c in grown && c != w;
    var low :| low in r && ScoreOf(q, n) > low.score;
    assert low in grown;
    forall m | m in done + {n} ensures Placed(q, r', m) {
      if Cand(q, m) in grown {
        assert Cand(q, m) != w ==> Cand(q, m) in r';
      } else {
        assert ScoreOf(q, m) <= low.score;
      }
    }
  }

  /** Offering `n` keeps the invariant and moves `n` into `done`. */
  lemma AdmitKeeps(e: Engine, q: Query, done: set<nat>, visited: set<nat>, n: nat, h: Pair)
    requires LawfulEngine(e) && WellFormed(q) && q.ef > 0
    requires Inv(q, done, visited, h) && n in visited && n !in done && n != q.entry
    ensures Inv(q, done + {n}, visited, Admit(e, q, Scored(n, q.sim(n)), h))
  {
    var c, r, t := Cand(q, n), h.results.items, Admit(e, q, Scored(n, q.sim(n)), h);
    if |r| < q.ef {
      AdmitWithRoom(e, q, done, n, r);
      assert t.results.items == r + multiset{c};
    } else if c.score > e.best.top(h.results).score {
      var grown := Push(h.results, c);
      assert IsTop(false, e.best.top(h.results), r);
      AdmitByEviction(q, done, n, r, e.best.top(grown));
      assert forall x :: x in t.results.items ==> x in grown.items;
    } else {
      assert IsTop(false, e.best.top(h.results), r);
    }
  }

  /** Offering a whole batch of new slots. */
  lemma {:induction false} AdmitAllKeeps(e: Engine, q: Query, done: set<nat>, visited: set<nat>, ns: seq<nat>, h: Pair)
    requires LawfulEngine(e) && WellFormed(q) && q.ef > 0 && q.entry in done
    requires Inv(q, done, visited, h) && Distinct(ns)
    requires forall n :: n in ns ==> n in visited && n !in done
    ensures Inv(q, done + Marked(ns), visited, AdmitAll(e, q, ns, h))
    decreases |ns|
  {
    if ns == [] {
      assert done + Marked(ns) == done;
    } else {
      AdmitKeeps(e, q, done, visited, ns[0], h);
      AdmitAllKeeps(e, q, done + {ns[0]}, visited, ns[1..], Admit(e, q, Scored(ns[0], q.sim(ns[0])), h));
      assert done + {ns[0]} + Marked(ns[1..]) == done + Marked(ns);
    }
  }

  // ---- one step and the whole loop -------------------------------------------------------------

  /** Expanding a batch: whoever left the queue now has all its moves visited. */
  lemma BatchExpanded(e: Engine, q: Query, width: nat, s: Core)
    requires LawfulEngine(e) && WellFormed(q) && Sound(q, s) && Inv(q, s.visited, s.visited, s.heaps)
    ensures PopBatch(e, width, s.heaps.queue).queue.items <= s.heaps.queue.items
    ensures forall c :: c in PopBatch(e, width, s.heaps.queue).batch ==> c.index < |q.layer.adj|
    ensures var p := PopBatch(e, width, s.heaps.queue);
      Inv(q, s.visited, s.visited + Marked(FreshBatch(q, p.batch, s.visited)), Pair(p.queue, s.heaps.results))
  {
    var p := PopBatch(e, width, s.heaps.queue);
    PopBatchFacts(e, width, s.heaps.queue);
    forall c | c in p.batch ensures c in s.heaps.queue.items { assert c in multiset(p.batch); }
    var found := FreshBatch(q, p.batch, s.visited);
    FreshBatchFacts(q, p.batch, s.visited);
    var visited := s.visited + Marked(found);
    forall c | c in s.heaps.results.items && c !in p.queue.items ensures Expanded(q, visited, c.index) {
      if c in s.heaps.queue.items {
        assert c in multiset(p.batch);
        var i :| 0 <= i < |p.batch| && p.batch[i] == c;
        forall m | Edge(q, c.index, m) ensures m in visited { assert Offered(q, p.batch, m); }
      }
    }
  }

  lemma FoundExplored(q: Query, batch: seq<Scored>, visited: set<nat>)
    requires WellFormed(q) && Explored(q, visited)
    requires forall c :: c in batch ==> c.index < |q.layer.adj| && c.index in visited
    ensures Explored(q, visited + Marked(FreshBatch(q, batch, visited)))
  {
    var found := FreshBatch(q, batch, visited);
    FreshBatchFacts(q, batch, visited);
    OfferedInRange(q, batch);
    forall n | n in found ensures Reachable(q, n) {
      var i :| 0 <= i < |batch| && n in Neighbours(q, batch[i].index);
      assert batch[i] in batch;
      ReachableStep(q, batch[i].index, n);
    }
  }

  /** One iteration of the search keeps the invariant. */
  lemma StepKeeps(e: Engine, q: Query, width: nat, s: Core)
    requires LawfulEngine(e) && WellFormed(q) && Sound(q, s) && q.ef > 0
    requires Inv(q, s.visited, s.visited, s.heaps) && Explored(q, s.visited)
    ensures var t := CoreStep(e, q, width, s);
      Inv(q, t.visited, t.visited, t.heaps) && Explored(q, t.visited)
  {
    var p := PopBatch(e, width, s.heaps.queue);
    BatchExpanded(e, q, width, s);
    PopBatchFacts(e, width, s.heaps.queue);
    forall c | c in p.batch ensures c.index in s.visited { assert c in multiset(p.batch); }
    var found := FreshBatch(q, p.batch, s.visited);
    FreshBatchFacts(q, p.batch, s.visited);
    FoundExplored(q, p.batch, s.visited);
    AdmitAllKeeps(e, q, s.visited, s.visited + Marked(found), found, Pair(p.queue, s.heaps.results));
  }

  /** At exit nothing in the queue can be among the results, so every result has been expanded. */
  lemma ExitExpanded(e: Engine, q: Query, s: Core)
    requires LawfulEngine(e) && WellFormed(q) && Inv(q, s.visited, s.visited, s.heaps) && q.ef > 0
    requires |s.heaps.queue.items| == 0 || Exhausted(e, q, s.heaps)
    ensures forall c :: c in s.heaps.results.items ==> Expanded(q, s.visited, c.index)
  {
    forall c | c in s.heaps.results.items ensures Expanded(q, s.visited, c.index) {
      if |s.heaps.queue.items| > 0 {
        assert IsTop(true, e.queue.top(s.heaps.queue), s.heaps.queue.items);
        assert IsTop(false, e.best.top(s.heaps.results), s.heaps.results.items);
      }
    }
  }

  /** Termination on any finite graph is the totality of `CoreLoop`; this is what holds when it ends. */
  lemma {:induction false} LoopKeeps(e: Engine, q: Query, width: nat, s: Core)
    requires LawfulEngine(e) && WellFormed(q) && Sound(q, s) && q.ef > 0 && width > 0
    requires Inv(q, s.visited, s.visited, s.heaps) && Explored(q, s.visited)
    ensures var t := CoreLoop(e, q, width, s);
      && Inv(q, t.visited, t.visited, t.heaps) && Explored(q, t.visited)
      && forall c :: c in t.heaps.results.items ==> Expanded(q, t.visited, c.index)
    decreases Universe(q) - s.visited, |s.heaps.queue.items|
  {
    if |s.heaps.queue.items| == 0 || Exhausted(e, q, s.heaps) {
      ExitExpanded(e, q, s);
    } else {
      StepKeeps(e, q, width, s);
      CoreStepFacts(e, q, width, s);
      LoopKeeps(e, q, width, CoreStep(e, q, width, s));
    }
  }

  // ---- the returned list -----------------------------------------------------------------------

  /** What a layer search promises about its result list `r`, given the set of scored slots. */
  ghost predicate LocallyOptimal(q: Query, scored: set<nat>, r: seq<Scored>)
    requires WellFormed(q)
  {
    && Ranked(r) && Distinct(Indices(r)) && |r| <= q.ef
    // returned slots were scored, with the score they carry
    && (forall i :: 0 <= i < |r| ==> r[i].index in scored && r[i] == Cand(q, r[i].index))
    // every permitted neighbour of a returned live slot was scored
    && (forall i :: 0 <= i < |r| ==> Expanded(q, scored, r[i].index))
    // a scored slot that is not returned beats nobody, and the list is then full
    && (forall n :: n in scored ==>
          Cand(q, n) in r || (|r| == q.ef && forall i :: 0 <= i < |r| ==> ScoreOf(q, n) <= r[i].score))
    // scored slots are reachable, and pass the filter unless they are the entry point
    && Explored(q, scored)
  }

  function Listed(e: Engine, h: Pair): seq<Scored> { Rank(e.best.drain(h.results)) }

  lemma ListedFacts(e: Engine, q: Query, done: set<nat>, h: Pair)
    requires LawfulEngine(e) && Held(q, done, h.results.items)
    ensures var r := Listed(e, h);
      && Ranked(r) && Distinct(Indices(r)) && |r| == |h.results.items|
      && forall c :: c in r <==> c in h.results.items
  {
    var d, r := e.best.drain(h.results), Listed(e, h);
    RankSorts(d);
    assert multiset(r) == h.results.items;
    assert |multiset(r)| == |r|;
    forall i, j | 0 <= i < j < |r| ensures Indices(r)[i] != Indices(r)[j] {
      RepeatedCounts(r, i, j);
      assert r[i] in multiset(r) && r[j] in multiset(r);
    }
  }

  /** Local optimality at exit of the batched layer search, for every beam width. */
  lemma CoreLocallyOptimal(e: Engine, q: Query, width: nat)
    requires LawfulEngine(e) && WellFormed(q) && q.ef > 0 && width > 0
    ensures Sound(q, Start(q))
    ensures var t := CoreLoop(e, q, width, Start(q)); LocallyOptimal(q, t.visited, Listed(e, t.heaps))
  {
    StartHolds(q);
    LoopKeeps(e, q, width, Start(q));
    var t := CoreLoop(e, q, width, Start(q));
    ListedFacts(e, q, t.visited, t.heaps);
  }

  /** A locally optimal list is the whole reachable set whenever that set has at most `ef` members. */
  lemma ReachableReturned(q: Query, scored: set<nat>, r: seq<Scored>, reach: set<nat>)
    requires WellFormed(q) && LocallyOptimal(q, scored, r)
    requires forall n :: n in reach <==> Reachable(q, n)
    requires |reach| <= q.ef
    ensures Elems(Indices(r)) == reach
  {
    var got := Elems(Indices(r));
    ElemsSize(Indices(r));
    forall n | n in got ensures n in scored {
      var i :| 0 <= i < |r| && Indices(r)[i] == n;
    }
    assert scored <= reach;
    forall n | n in scored ensures n in got {
      if Cand(q, n) in r {
        var i :| 0 <= i < |r| && r[i] == Cand(q, n);
        assert Indices(r)[i] == n;
      } else {
        SubsetSize(got, scored);
        SubsetSize(scored, reach);
        SameSize(got, scored);
      }
    }
    assert got == scored;
    assert Closed(q, scored) by {
      forall n, m | n in scored && Edge(q, n, m) ensures m in scored {
        var i :| 0 <= i < |r| && Indices(r)[i] == n;
        assert Expanded(q, scored, r[i].index);
      }
    }
    forall n | n in reach ensures n in scored {
      var w :| Walk(q, w) && w[|w| - 1] == n;
      ClosedHoldsWalk(q, scored, w);
    }
  }

  lemma SameSize(a: set<nat>, b: set<nat>)
    requires a <= b && |a| >= |b|
    ensures a == b
  {
    assert b == a + (b - a);
  }
}
