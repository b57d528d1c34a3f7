/** Witness lists (`src/rivero/witness.rs`): ranked, duplicate-free, bounded. Selection, sorted
    insertion with eviction, and filtering. */
module WitnessLists {
  import opened Basics
  import opened Ranking

  const MAX_DEGREE: nat := 64
  const MAX_SEEDS: nat := 64

  function BoundedDegree(requested: nat): nat { Min(requested, MAX_DEGREE) }

  function BoundedSeeds(requested: nat): nat { Min(requested, MAX_SEEDS) }

  /** Requests of up to 64 are honoured as they are; larger ones count as 64. */
  lemma RequestsHonoured(requested: nat)
    ensures var r := if requested <= 64 then requested else 64;
      BoundedDegree(requested) == r && BoundedSeeds(requested) == r
  {
  }

  /** Maximum adjacency entries inspected across two witness hops. */
  function TwoHopBound(firstSeeds: nat, secondSeeds: nat, degree: nat): nat {
    (BoundedSeeds(firstSeeds) + BoundedSeeds(secondSeeds)) * BoundedDegree(degree)
  }

  /** No two entries name the same slot. */
  predicate OncePerSlot(l: seq<Scored>) {
    forall i, j :: 0 <= i < j < |l| ==> l[i].index != l[j].index
  }

  lemma OneScorePerSlot(l: seq<Scored>, x: Scored, y: Scored)
    requires OncePerSlot(l)
    ensures x in l && y in l && x.index == y.index ==> x == y
  {
  }

  lemma OncePerSlotPermutation(a: seq<Scored>, b: seq<Scored>)
    requires OncePerSlot(a) && multiset(a) == multiset(b)
    ensures OncePerSlot(b)
  {
    assert Distinct(a);
    DistinctPermutation(a, b);
    forall i, j | 0 <= i < j < |b| ensures b[i].index != b[j].index {
      assert b[i] in multiset(a) && b[j] in multiset(a);
    }
  }

  predicate Tidy(l: seq<Scored>) {
    Ranked(l) && OncePerSlot(l)
  }

  predicate Names(l: seq<Scored>, i: nat) {
    exists x :: x in l && x.index == i
  }

  // ---- retain ----------------------------------------------------------------------------------

  /** `retain(|edge| !drop.contains(edge.index))`. */
  function Retain(l: seq<Scored>, drop: set<nat>): (r: seq<Scored>)
    ensures forall x :: x in r <==> x in l && x.index !in drop
    ensures |r| <= |l|
  {
    if l == [] then []
    else if l[0].index in drop then Retain(l[1..], drop)
    else [l[0]] + Retain(l[1..], drop)
  }

  lemma {:induction false} RetainTidy(l: seq<Scored>, drop: set<nat>)
    requires Tidy(l)
    ensures Tidy(Retain(l, drop))
  {
    if l != [] {
      var t := Retain(l[1..], drop);
      RetainTidy(l[1..], drop);
      forall j | 0 <= j < |t| ensures Ahead(l[0], t[j]) && l[0].index != t[j].index {
        assert t[j] in t;
        var i :| 0 <= i < |l[1..]| && l[1..][i] == t[j];
        assert l[i + 1] == t[j];
      }
    }
  }

  lemma {:induction false} RetainAll(l: seq<Scored>, drop: set<nat>)
    requires forall x :: x in l ==> x.index !in drop
    ensures Retain(l, drop) == l
  {
    if l != [] { RetainAll(l[1..], drop); }
  }

  // ---- insert_reciprocal -----------------------------------------------------------------------

  /** Where `binary_search_by` places a new slot in a tidy list. */
  function Position(l: seq<Scored>, x: Scored): (p: nat)
    ensures p <= |l| && (forall i :: 0 <= i < p ==> Ahead(l[i], x)) && (p < |l| ==> !Ahead(l[p], x))
  {
    if l == [] || !Ahead(l[0], x) then 0 else 1 + Position(l[1..], x)
  }

  function Placed(l: seq<Scored>, x: Scored): seq<Scored> {
    var p := Position(l, x);
    l[..p] + [x] + l[p..]
  }

  datatype Insertion = Insertion(list: seq<Scored>, retained: bool, evicted: Option<Scored>)

  /** `insert_reciprocal` for a degree already bounded. */
  function InsertReciprocal(l: seq<Scored>, x: Scored, degree: nat): Insertion {
    if degree == 0 then Insertion([], false, None)
    else
      var current := Retain(l, {x.index});
      var grown := Placed(current, x);
      Insertion(grown[..Min(degree, |grown|)], Position(current, x) < degree,
                if |grown| > degree then Some(grown[degree]) else None)
  }

  lemma PlacedTidy(l: seq<Scored>, x: Scored)
    requires Tidy(l) && forall y :: y in l ==> y.index != x.index
    ensures Tidy(Placed(l, x))
  {
    var p, g := Position(l, x), Placed(l, x);
    forall j | p <= j < |l| ensures Ahead(x, l[j]) {
      assert !Ahead(l[p], x);
      assert j > p ==> Ahead(l[p], l[j]);
    }
    forall i, j | 0 <= i < j < |g| ensures Ahead(g[i], g[j]) && g[i].index != g[j].index {
      assert g[i] == if i < p then l[i] else if i == p then x else l[i - 1];
      assert g[j] == if j < p then l[j] else if j == p then x else l[j - 1];
      assert forall k :: 0 <= k < |l| ==> l[k] in l;
    }
  }

  lemma PlacedMembers(l: seq<Scored>, x: Scored)
    ensures |Placed(l, x)| == |l| + 1 && Placed(l, x)[Position(l, x)] == x
    ensures forall y :: y in Placed(l, x) <==> y in l || y == x
    ensures Position(l, x) == |l| ==> Placed(l, x) == l + [x]
  {
    var p := Position(l, x);
    assert l == l[..p] + l[p..];
  }

  /** Dropping the last entry of a tidy list. */
  lemma DropLast(g: seq<Scored>)
    requires Tidy(g) && g != []
    ensures var n := |g| - 1; Tidy(g[..n]) && forall y :: y in g[..n] <==> y in g && y != g[n]
  {
    var n := |g| - 1;
    assert g == g[..n] + [g[n]];
  }

  lemma InsertIs(l: seq<Scored>, x: Scored, degree: nat)
    requires degree > 0 && forall y :: y in l ==> y.index != x.index
    ensures |Placed(l, x)| == |l| + 1
    ensures var g := Placed(l, x);
      InsertReciprocal(l, x, degree) ==
        Insertion(g[..Min(degree, |g|)], Position(l, x) < degree, if |g| > degree then Some(g[degree]) else None)
  {
    RetainAll(l, {x.index});
  }

  /** An overfull tidy list `g` of `l` and `x` loses its last entry. */
  lemma CutFacts(l: seq<Scored>, x: Scored, g: seq<Scored>, p: nat)
    requires Tidy(g) && |g| == |l| + 1 && p < |g| && g[p] == x && (p == |l| ==> g == l + [x])
    requires forall y :: y in g <==> y in l || y == x
    ensures var n := |l|;
      && Tidy(g[..n]) && (forall y :: y in g[..n] <==> (y in l || y == x) && y != g[n])
      && (p == n ==> g[..n] == l && g[n] == x)
      && (p < n ==> x in g[..n] && g[n] != x) && (g[n] in l || g[n] == x)
  {
    DropLast(g);
    assert g[|l|] in g;
  }

  /** What an insertion promises: the new list is tidy, bounded, and the old one plus the edge minus the
      evicted entry; `retained` says whether the edge is in it; a rejected edge changes nothing. */
  ghost predicate InsertedWell(l: seq<Scored>, x: Scored, degree: nat, r: Insertion) {
    && Tidy(r.list) && |r.list| <= degree
    && (!r.retained ==> r.list == l && r.evicted == Some(x))
    && (r.retained ==> x in r.list && r.evicted != Some(x))
    && (forall y :: y in r.list <==> (y in l || y == x) && r.evicted != Some(y))
    && (r.evicted.Some? ==> r.evicted.value in l || r.evicted.value == x)
  }

  lemma RoomForOne(l: seq<Scored>, x: Scored, degree: nat)
    requires Tidy(Placed(l, x)) && |l| < degree
    ensures InsertedWell(l, x, degree, Insertion(Placed(l, x), true, None))
  {
    PlacedMembers(l, x);
    assert Placed(l, x)[Position(l, x)] in Placed(l, x);
  }

  lemma CutWell(l: seq<Scored>, x: Scored, g: seq<Scored>, p: nat)
    requires Tidy(g) && |g| == |l| + 1 && p < |g| && g[p] == x && (p == |l| ==> g == l + [x])
    requires forall y :: y in g <==> y in l || y == x
    ensures InsertedWell(l, x, |l|, Insertion(g[..|l|], p < |l|, Some(g[|l|])))
  {
    CutFacts(l, x, g, p);
  }

  lemma NewEdgeFacts(l: seq<Scored>, x: Scored, degree: nat)
    requires Tidy(l) && |l| <= degree && degree > 0 && forall y :: y in l ==> y.index != x.index
    ensures InsertedWell(l, x, degree, InsertReciprocal(l, x, degree))
  {
    var p, g := Position(l, x), Placed(l, x);
    InsertIs(l, x, degree);
    PlacedTidy(l, x);
    if |g| > degree {
      PlacedMembers(l, x);
      CutWell(l, x, g, p);
    } else {
      assert g[..|g|] == g;
      RoomForOne(l, x, degree);
    }
  }

  /** An edge the list already has is replaced. */
  lemma ReplacedFirst(l: seq<Scored>, x: Scored, degree: nat)
    ensures InsertReciprocal(l, x, degree) == InsertReciprocal(Retain(l, {x.index}), x, degree)
  {
    RetainAll(Retain(l, {x.index}), {x.index});
  }

  /** Whether or not the list had an edge to that slot: it is dropped, and the insertion into the rest
      keeps all its promises. */
  lemma InsertFacts(l: seq<Scored>, x: Scored, degree: nat)
    requires Tidy(l) && |l| <= degree && degree > 0
    ensures InsertedWell(Retain(l, {x.index}), x, degree, InsertReciprocal(l, x, degree))
  {
    RetainTidy(l, {x.index});
    ReplacedFirst(l, x, degree);
    NewEdgeFacts(Retain(l, {x.index}), x, degree);
  }

  /** The kept entries are the best `degree` of new edge and old list, less its edge to the same slot. */
  lemma InsertKeepsBest(l: seq<Scored>, x: Scored, degree: nat)
    requires Tidy(l) && degree > 0
    ensures InsertReciprocal(l, x, degree).list == TopK(Retain(l, {x.index}) + [x], degree)
  {
    var rest := Retain(l, {x.index});
    RetainTidy(l, {x.index});
    ReplacedFirst(l, x, degree);
    RetainAll(rest, {x.index});
    PlacedTidy(rest, x);
    PlacedMultiset(rest, x);
    TopKIs(Placed(rest, x), rest + [x], degree);
  }

  lemma PlacedMultiset(l: seq<Scored>, x: Scored)
    ensures multiset(Placed(l, x)) == multiset(l + [x])
  {
    var p := Position(l, x);
    assert l == l[..p] + l[p..];
  }

  /** The binary search of `insert_reciprocal`. */
  method FindPosition(l: seq<Scored>, x: Scored) returns (p: nat)
    requires Ranked(l) && forall y :: y in l ==> y.index != x.index
    ensures p == Position(l, x)
  {
    var lo, hi := 0, |l|;
    while lo < hi
      invariant 0 <= lo <= hi <= |l|
      invariant forall i :: 0 <= i < lo ==> Ahead(l[i], x)
      invariant forall i :: hi <= i < |l| ==> !Ahead(l[i], x)
    {
      var mid := (lo + hi) / 2;
      if Ahead(l[mid], x) {
        forall i | 0 <= i <= mid ensures Ahead(l[i], x) { assert i < mid ==> Ahead(l[i], l[mid]); }
        lo := mid + 1;
      } else {
        forall i | mid <= i < |l| ensures !Ahead(l[i], x) { assert i > mid ==> Ahead(l[mid], l[i]); }
        hi := mid;
      }
    }
    p := lo;
    ghost var q := Position(l, x);
    assert q < |l| ==> !Ahead(l[q], x);
    assert lo < |l| ==> !Ahead(l[lo], x);
  }

  /** `insert_reciprocal`: drop a stale edge to the same slot, insert in order, prune to `degree`. */
  method InsertEdge(l: seq<Scored>, x: Scored, requested: nat) returns (r: Insertion)
    requires Tidy(l)
    ensures r == InsertReciprocal(l, x, BoundedDegree(requested))
  {
    var degree := BoundedDegree(requested);
    if degree == 0 { return Insertion([], false, None); }
    var current := Retain(l, {x.index});
    RetainTidy(l, {x.index});
    var p := FindPosition(current, x);
    current := current[..p] + [x] + current[p..];
    var evicted := None;
    if |current| > degree { evicted := Some(current[degree]); }
    r := Insertion(current[..Min(degree, |current|)], p < degree, evicted);
  }

  // ---- select_top ------------------------------------------------------------------------------

  /** Scans a ranked list, skipping repeated slots, until `degree` entries are selected. */
  function Select(sorted: seq<Scored>, degree: nat, selected: seq<Scored>): seq<Scored>
    decreases |sorted|
  {
    if sorted == [] || |selected| >= degree then selected
    else if Names(selected, sorted[0].index) then Select(sorted[1..], degree, selected)
    else Select(sorted[1..], degree, selected + [sorted[0]])
  }

  function SelectTop(scored: seq<Scored>, degree: nat): seq<Scored> {
    Select(Rank(scored), degree, [])
  }

  /** `x` is selected, or beaten by a better entry for its slot, or beaten by `degree` entries. */
  ghost predicate Accounted(x: Scored, r: seq<Scored>, degree: nat) {
    || (exists y :: y in r && y.index == x.index && Ahead(y, x))
    || (|r| == degree && forall y :: y in r ==> Ahead(y, x))
  }

  lemma {:induction false} SelectFacts(sorted: seq<Scored>, degree: nat, selected: seq<Scored>)
    requires Tidy(selected) && |selected| <= degree && Ranked(sorted)
    requires forall x, y :: x in selected && y in sorted ==> Ahead(x, y)
    ensures var r := Select(sorted, degree, selected);
      && Tidy(r) && |r| <= degree && selected <= r
      && (forall x :: x in r ==> x in selected || x in sorted)
      && (forall x :: x in sorted ==> Accounted(x, r, degree))
    decreases |sorted|
  {
    if sorted != [] && |selected| < degree {
      var h, tail := sorted[0], sorted[1..];
      var next := if Names(selected, h.index) then selected else selected + [h];
      assert h in sorted && forall y :: y in tail ==> y in sorted && Ahead(h, y);
      if !Names(selected, h.index) {
        assert forall i :: 0 <= i < |selected| ==> selected[i] in selected;
        assert Tidy(next);
      }
      SelectFacts(tail, degree, next);
      var r := Select(sorted, degree, selected);
      assert Accounted(h, r, degree) by {
        assert Names(next, h.index);
        var y :| y in next && y.index == h.index;
        assert y in r;
      }
      forall x | x in sorted ensures Accounted(x, r, degree) {
        assert x == h || x in tail;
      }
    }
  }

  /** The selection is tidy, bounded, drawn from the candidates, and best possible. */
  lemma SelectTopFacts(scored: seq<Scored>, degree: nat)
    ensures var r := SelectTop(scored, degree);
      && Tidy(r) && |r| <= degree
      && (forall x :: x in r ==> x in scored)
      && (forall x :: x in scored ==> Accounted(x, r, degree))
  {
    RankSorts(scored);
    RankElems(scored);
    SelectFacts(Rank(scored), degree, []);
  }

  /** `select_top`. */
  method SelectWitnesses(scored: seq<Scored>, requested: nat) returns (r: seq<Scored>)
    ensures r == SelectTop(scored, BoundedDegree(requested))
  {
    var degree := BoundedDegree(requested);
    if degree == 0 { return []; }
    var sorted := Rank(scored);
    r := [];
    for i := 0 to |sorted|
      invariant |r| < degree
      invariant Select(sorted[i..], degree, r) == SelectTop(scored, degree)
    {
      assert sorted[i..][1..] == sorted[i + 1..];
      if Names(r, sorted[i].index) { continue; }
      r := r + [sorted[i]];
      if |r| == degree { break; }
    }
  }
}
