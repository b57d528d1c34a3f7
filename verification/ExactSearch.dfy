/** Exact search: score every eligible slot, select partially, truncate, sort. */
module ExactSearch {
  import opened Basics
  import opened Ranking
  import opened ComplexVectors
  import opened Overlap

  datatype Outcome = Results(hits: seq<Scored>) | DimensionMismatch(expected: nat, actual: nat)

  /** The arena as a search sees it: which of the slots `0..size` are live. */
  datatype Slots = Slots(size: nat, live: set<nat>)

  predicate WellFormed(a: Slots) {
    forall i :: i in a.live ==> i < a.size
  }

  function Keep(a: Slots, mask: Option<set<nat>>): nat -> bool { (i: nat) => Admits(a.live, mask, i) }

  function EligibleSlots(a: Slots, mask: Option<set<nat>>): seq<nat> {
    Filter(a.size, Keep(a, mask))
  }

  /** What `select_nth_unstable_by(n, ..)` promises: a permutation with its `n`-th entry in sorted
      position, nothing better behind it and nothing worse before it. */
  ghost predicate SelectsNth(select: (seq<Scored>, nat) -> seq<Scored>) {
    forall s, n: nat :: n < |s| ==>
      var p := select(s, n);
      && multiset(p) == multiset(s) && n < |p|
      && (forall i :: 0 <= i < n ==> Ahead(p[i], p[n]))
      && (forall j :: n < j < |p| ==> Ahead(p[n], p[j]))
  }

  lemma SelectionPartitions(p: seq<Scored>, s: seq<Scored>, k: nat)
    requires multiset(p) == multiset(s) && 0 < k <= |p|
    requires forall i :: 0 <= i < k - 1 ==> Ahead(p[i], p[k - 1])
    requires forall j :: k - 1 < j < |p| ==> Ahead(p[k - 1], p[j])
    ensures PartitionedAt(p, s, k)
  {
  }

  /** `select_nth`, `truncate(k)` and a sort leave the first `k` of the full ranking. */
  method SelectTop(scored: seq<Scored>, k: nat, select: (seq<Scored>, nat) -> seq<Scored>) returns (r: seq<Scored>)
    requires k > 0 && SelectsNth(select)
    ensures r == TopK(scored, k)
  {
    r := scored;
    if |r| > k {
      r := select(r, k - 1);
      SelectionPartitions(r, scored, k);
      assert |r| == |multiset(r)| && |scored| == |multiset(scored)|;
      PartialSelection(r, scored, k);
      r := r[..k];
    }
    RankSorts(scored);
    r := Rank(r);
  }

  /** `search_indices_exact`. The result is the first `k` of all eligible slots, ranked. */
  method SearchExact(a: Slots, mask: Option<set<nat>>, score: nat -> real, k: nat, dimension: nat, queryDim: nat,
                     select: (seq<Scored>, nat) -> seq<Scored>) returns (r: Outcome)
    requires WellFormed(a) && SelectsNth(select)
    ensures queryDim != dimension ==> r == DimensionMismatch(dimension, queryDim)
    ensures queryDim == dimension ==> r == Results(TopK(Score(EligibleSlots(a, mask), score), k))
  {
    if queryDim != dimension { return DimensionMismatch(dimension, queryDim); }
    if k == 0 { return Results([]); }
    if a.live == {} {
      FilterNone(a.size, Keep(a, mask));
      return Results([]);
    }
    var scored: seq<Scored> := [];
    for i := 0 to a.size
      invariant scored == Score(Filter(i, Keep(a, mask)), score)
    {
      if i in a.live && Permits(mask, i) {
        scored := scored + [Scored(i, score(i))];
      }
    }
    var top := SelectTop(scored, k, select);
    r := Results(top);
  }

  /** The score a slot gets from its stored vector and cached norm. */
  ghost function SlotScore(sqrt: real -> real, q: Vector, vectors: nat -> Vector, norms: nat -> real,
                           m: Metric): nat -> real
    requires IsSqrt(sqrt)
  {
    (i: nat) => Similarity(sqrt, q, vectors(i), NormSquared(q), norms(i), m)
  }

  lemma MetricsSameOrder(sqrt: real -> real, q: Vector, vectors: nat -> Vector, norms: nat -> real, slots: set<nat>)
    requires IsSqrt(sqrt)
    ensures SameOrder(slots, SlotScore(sqrt, q, vectors, norms, CPO), SlotScore(sqrt, q, vectors, norms, Sine))
    ensures SameOrder(slots, SlotScore(sqrt, q, vectors, norms, CPO), SlotScore(sqrt, q, vectors, norms, Chordal))
  {
    var f := SlotScore(sqrt, q, vectors, norms, CPO);
    var g := SlotScore(sqrt, q, vectors, norms, Sine);
    var h := SlotScore(sqrt, q, vectors, norms, Chordal);
    forall i, j | i in slots && j in slots
      ensures (f(i) < f(j) <==> g(i) < g(j)) && (f(i) < f(j) <==> h(i) < h(j))
    {
      ProjectiveScoresAgree(sqrt, q, NormSquared(q), vectors(i), norms(i), vectors(j), norms(j));
    }
  }

  lemma TopSameOrder(slots: seq<nat>, f: nat -> real, g: nat -> real, k: nat)
    requires SameOrder(Elems(slots), f, g)
    ensures Indices(TopK(Score(slots, f), k)) == Indices(TopK(Score(slots, g), k))
  {
    RankSameOrder(slots, f, g);
    var a, b := Rank(Score(slots, f)), Rank(Score(slots, g));
    assert |Indices(a)| == |a| && |Indices(b)| == |b|;
    forall i | 0 <= i < |a| ensures a[i].index == b[i].index { assert Indices(a)[i] == Indices(b)[i]; }
  }

  /** The three projective metrics return the same slots in the same order, for every corpus, query,
      mask, cached norms and `k`. */
  lemma ProjectiveMetricsReturnTheSame(sqrt: real -> real, q: Vector, vectors: nat -> Vector, norms: nat -> real,
                                       a: Slots, mask: Option<set<nat>>, k: nat)
    requires IsSqrt(sqrt)
    ensures var slots := EligibleSlots(a, mask);
      var cpo := Indices(TopK(Score(slots, SlotScore(sqrt, q, vectors, norms, CPO)), k));
      && cpo == Indices(TopK(Score(slots, SlotScore(sqrt, q, vectors, norms, Sine)), k))
      && cpo == Indices(TopK(Score(slots, SlotScore(sqrt, q, vectors, norms, Chordal)), k))
  {
    var slots := EligibleSlots(a, mask);
    MetricsSameOrder(sqrt, q, vectors, norms, Elems(slots));
    TopSameOrder(slots, SlotScore(sqrt, q, vectors, norms, CPO), SlotScore(sqrt, q, vectors, norms, Sine), k);
    TopSameOrder(slots, SlotScore(sqrt, q, vectors, norms, CPO), SlotScore(sqrt, q, vectors, norms, Chordal), k);
  }
}
