/** `select_rivero_witnesses`: score the routed candidates, expand the best of them through their own
    witnesses, select again. The route list is ranked by votes, yet searched by bisection: the answer may
    miss a slot that is there. The selection does not depend on it. */
module WitnessSelection {
  import opened Basics
  import opened Ranking
  import opened WitnessLists

  // ---- the selection depends on the set of candidates only --------------------------------------

  lemma AheadBothWays(x: Scored, y: Scored)
    requires Ahead(x, y) && Ahead(y, x)
    ensures x == y
  {
  }

  /** Tidy, bounded, drawn from `s`, and nothing in `s` unaccounted for. */
  ghost predicate Selects(s: set<Scored>, degree: nat, r: seq<Scored>) {
    && Tidy(r) && |r| <= degree
    && (forall x :: x in r ==> x in s)
    && (forall x :: x in s ==> Accounted(x, r, degree))
  }

  lemma SameSlotSelected(s: set<Scored>, degree: nat, a: seq<Scored>, b: seq<Scored>, x: Scored, y: Scored)
    requires Selects(s, degree, a) && Selects(s, degree, b) && x in a && y in b && x.index == y.index
    ensures x == y
  {
    if Ahead(x, y) { AheadOfItsSlot(s, degree, b, y, x); } else { AheadOfItsSlot(s, degree, a, x, y); }
  }

  /** No entry of `s` is ahead of the selected one of its slot. */
  lemma AheadOfItsSlot(s: set<Scored>, degree: nat, r: seq<Scored>, y: Scored, x: Scored)
    requires Selects(s, degree, r) && y in r && x in s && x.index == y.index && Ahead(x, y)
    ensures x == y
  {
    assert Accounted(x, r, degree);
    assert Ahead(y, x) by {
      if exists z :: z in r && z.index == x.index && Ahead(z, x) {
        var z :| z in r && z.index == x.index && Ahead(z, x);
        OneScorePerSlot(r, z, y);
      }
    }
    AheadBothWays(x, y);
  }

  /** If `x` is selected in `a` only, everything selected in `b` is selected in `a`. */
  lemma OthersSelected(s: set<Scored>, degree: nat, a: seq<Scored>, b: seq<Scored>, x: Scored, y: Scored)
    requires Selects(s, degree, a) && Selects(s, degree, b) && x in a && x !in b && y in b
    ensures |b| == degree && y in a
  {
    assert Accounted(x, b, degree) && Accounted(y, a, degree);
    if exists z :: z in b && z.index == x.index && Ahead(z, x) {
      var z :| z in b && z.index == x.index && Ahead(z, x);
      SameSlotSelected(s, degree, a, b, x, z);
      assert false;
    }
    if exists z :: z in a && z.index == y.index && Ahead(z, y) {
      var z :| z in a && z.index == y.index && Ahead(z, y);
      SameSlotSelected(s, degree, a, b, z, y);
    } else {
      AheadBothWays(x, y);
      assert false;
    }
  }

  lemma SelectedOnce(s: set<Scored>, degree: nat, a: seq<Scored>, b: seq<Scored>, x: Scored)
    requires Selects(s, degree, a) && Selects(s, degree, b) && x in a
    ensures x in b
  {
    if x !in b {
      forall y | y in b ensures |b| == degree && y in a { OthersSelected(s, degree, a, b, x, y); }
      OneMoreMember(a, b, x);
      assert false;
    }
  }

  lemma OneMoreMember(a: seq<Scored>, b: seq<Scored>, x: Scored)
    requires Distinct(a) && Distinct(b) && x in a && x !in b && forall y :: y in b ==> y in a
    ensures |b| < |a|
  {
    ElemsSize(a);
    ElemsSize(b);
    SubsetSize(Elems(b) + {x}, Elems(a));
  }

  lemma TidyUnique(a: seq<Scored>, b: seq<Scored>)
    requires Tidy(a) && Tidy(b) && forall x :: x in a <==> x in b
    ensures a == b
  {
    assert Distinct(a) && Distinct(b);
    forall x ensures multiset(a)[x] == multiset(b)[x] {
      DistinctCounts(a, x);
      DistinctCounts(b, x);
      assert (x in a <==> x in multiset(a)) && (x in b <==> x in multiset(b));
    }
    RankedUnique(a, b);
  }

  lemma SelectTopSelects(p: seq<Scored>, degree: nat)
    ensures Selects(Elems(p), degree, SelectTop(p, degree))
  {
    SelectTopFacts(p, degree);
  }

  /** The selection is determined by the set of scored candidates: order and repetitions do not matter. */
  lemma SelectTopOfSet(p: seq<Scored>, q: seq<Scored>, degree: nat)
    requires Elems(p) == Elems(q)
    ensures SelectTop(p, degree) == SelectTop(q, degree)
  {
    SelectTopSelects(p, degree);
    SelectTopSelects(q, degree);
    SelectsUnique(Elems(p), degree, SelectTop(p, degree), SelectTop(q, degree));
  }

  lemma SelectsUnique(s: set<Scored>, degree: nat, a: seq<Scored>, b: seq<Scored>)
    requires Selects(s, degree, a) && Selects(s, degree, b)
    ensures a == b
  {
    forall x ensures x in a <==> x in b {
      if x in a { SelectedOnce(s, degree, a, b, x); }
      if x in b { SelectedOnce(s, degree, b, a, x); }
    }
    TidyUnique(a, b);
  }

  // ---- expansion -------------------------------------------------------------------------------

  /** What the expansion reads: live slots, their witness lists, similarities to the new vector. */
  datatype View = View(live: set<nat>, lists: nat -> seq<Scored>, sim: nat -> real)

  /** What bisection promises over a list that need not be sorted: what it finds is there. */
  ghost predicate Sound(finds: nat -> bool, cands: seq<nat>) { forall i: nat :: finds(i) ==> i in cands }

  function Candidate(v: View, i: nat): Scored { Scored(i, v.sim(i)) }

  /** The live candidates, scored, in route order. */
  function Measure(v: View, cands: seq<nat>): (r: seq<Scored>)
    ensures forall x :: x in r <==> x.index in v.live && x.index in cands && x == Candidate(v, x.index)
    decreases |cands|
  {
    if cands == [] then []
    else
      var n := |cands| - 1;
      Measure(v, cands[..n]) + if cands[n] in v.live then [Candidate(v, cands[n])] else []
  }

  datatype Pool = Pool(expanded: set<nat>, scored: seq<Scored>)

  function Meet(v: View, finds: nat -> bool, i: nat, p: Pool): Pool {
    if finds(i) || i in p.expanded then p
    else Pool(p.expanded + {i}, if i in v.live then p.scored + [Candidate(v, i)] else p.scored)
  }

  function MeetAll(v: View, finds: nat -> bool, ns: seq<nat>, p: Pool): Pool
    decreases |ns|
  {
    if ns == [] then p else MeetAll(v, finds, ns[1..], Meet(v, finds, ns[0], p))
  }

  /** The first `degree` witnesses of a live seed. */
  function WitnessesOf(v: View, degree: nat, seed: nat): seq<nat> {
    if seed in v.live then Indices(v.lists(seed))[..Min(degree, |v.lists(seed)|)] else []
  }

  function Expand(v: View, finds: nat -> bool, degree: nat, seeds: seq<Scored>, p: Pool): Pool
    decreases |seeds|
  {
    if seeds == [] then p
    else Expand(v, finds, degree, seeds[1..], MeetAll(v, finds, WitnessesOf(v, degree, seeds[0].index), p))
  }

  /** Everything scored for the selection: the live candidates, and the witnesses of the best of them. */
  function Proposed(v: View, cands: seq<nat>, finds: nat -> bool, degree: nat): seq<Scored> {
    var direct := Measure(v, cands);
    Expand(v, finds, degree, SelectTop(direct, degree), Pool({}, direct)).scored
  }

  /** A slot passed over is dead or scored already. */
  ghost predicate Covered(v: View, finds: nat -> bool, p: Pool) {
    forall i: nat {:trigger Candidate(v, i)} :: (finds(i) || i in p.expanded) && i in v.live ==>
        Candidate(v, i) in p.scored
  }

  ghost function Hits(v: View, ns: seq<nat>): set<Scored> { set i | i in ns && i in v.live :: Candidate(v, i) }

  /** `i` is among the first `degree` witnesses of the live slot `seed`. */
  ghost predicate Witness(v: View, degree: nat, seed: nat, i: nat) {
    seed in v.live && exists j :: 0 <= j < degree && j < |v.lists(seed)| && v.lists(seed)[j].index == i
  }

  /** `x` is a live one of the first `degree` witnesses of a seed, with its similarity. */
  ghost predicate Reached(v: View, degree: nat, seeds: seq<Scored>, x: Scored) {
    x.index in v.live && x == Candidate(v, x.index)
    && exists i :: 0 <= i < |seeds| && Witness(v, degree, seeds[i].index, x.index)
  }

  lemma WitnessesAre(v: View, degree: nat, seed: nat, i: nat)
    ensures i in WitnessesOf(v, degree, seed) <==> Witness(v, degree, seed, i)
  {
    if seed in v.live {
      var l := WitnessesOf(v, degree, seed);
      assert forall j :: 0 <= j < |l| ==> l[j] == v.lists(seed)[j].index;
    }
  }

  lemma {:induction false} MeetAllElems(v: View, finds: nat -> bool, ns: seq<nat>, p: Pool)
    requires Covered(v, finds, p)
    ensures var r := MeetAll(v, finds, ns, p); Covered(v, finds, r) && Elems(r.scored) == Elems(p.scored) + Hits(v, ns)
    decreases |ns|
  {
    if ns != [] {
      var i, q := ns[0], Meet(v, finds, ns[0], p);
      assert ns == [i] + ns[1..];
      var one: set<Scored> := if i in v.live then {Candidate(v, i)} else {};
      assert Elems(q.scored) == Elems(p.scored) + one;
      assert Hits(v, ns) == one + Hits(v, ns[1..]);
      MeetAllElems(v, finds, ns[1..], q);
    }
  }

  lemma {:induction false} ExpandElems(v: View, finds: nat -> bool, degree: nat, seeds: seq<Scored>, p: Pool)
    requires Covered(v, finds, p)
    ensures var r := Expand(v, finds, degree, seeds, p);
      forall x :: x in r.scored <==> x in p.scored || Reached(v, degree, seeds, x)
    decreases |seeds|
  {
    if seeds != [] {
      var ns := WitnessesOf(v, degree, seeds[0].index);
      var q := MeetAll(v, finds, ns, p);
      MeetAllElems(v, finds, ns, p);
      ExpandElems(v, finds, degree, seeds[1..], q);
      var r := Expand(v, finds, degree, seeds, p);
      forall x ensures x in r.scored <==> x in p.scored || Reached(v, degree, seeds, x) {
        WitnessesAre(v, degree, seeds[0].index, x.index);
        assert x in q.scored <==> x in Elems(q.scored);
        ReachedCons(v, degree, seeds, x);
      }
    }
  }

  lemma ReachedCons(v: View, degree: nat, seeds: seq<Scored>, x: Scored)
    requires seeds != []
    ensures Reached(v, degree, seeds, x) <==>
      || Reached(v, degree, seeds[1..], x)
      || (x.index in v.live && x == Candidate(v, x.index) && Witness(v, degree, seeds[0].index, x.index))
  {
    if Reached(v, degree, seeds[1..], x) {
      var i :| 0 <= i < |seeds[1..]| && Witness(v, degree, seeds[1..][i].index, x.index);
      assert seeds[i + 1] == seeds[1..][i];
    }
    if Reached(v, degree, seeds, x) {
      var i :| 0 <= i < |seeds| && Witness(v, degree, seeds[i].index, x.index);
      if i > 0 { assert seeds[1..][i - 1] == seeds[i]; }
    }
  }

  /** The scored set is the live candidates and the live witnesses of the best `degree` of them, each
      with its similarity, whatever bisection finds. */
  lemma ProposedElems(v: View, cands: seq<nat>, finds: nat -> bool, degree: nat)
    requires Sound(finds, cands)
    ensures var direct := Measure(v, cands);
      forall x :: x in Proposed(v, cands, finds, degree) <==>
        || (x.index in v.live && x.index in cands && x == Candidate(v, x.index))
        || Reached(v, degree, SelectTop(direct, degree), x)
  {
    var direct := Measure(v, cands);
    ExpandElems(v, finds, degree, SelectTop(direct, degree), Pool({}, direct));
  }

  /** Bisecting the unsorted route list never changes the witnesses selected. */
  lemma BisectionNeverMatters(v: View, cands: seq<nat>, f: nat -> bool, g: nat -> bool, degree: nat)
    requires Sound(f, cands) && Sound(g, cands)
    ensures SelectTop(Proposed(v, cands, f, degree), degree) == SelectTop(Proposed(v, cands, g, degree), degree)
  {
    ProposedElems(v, cands, f, degree);
    ProposedElems(v, cands, g, degree);
    assert Elems(Proposed(v, cands, f, degree)) == Elems(Proposed(v, cands, g, degree)) by {
      forall x ensures x in Proposed(v, cands, f, degree) <==> x in Proposed(v, cands, g, degree) {}
    }
    SelectTopOfSet(Proposed(v, cands, f, degree), Proposed(v, cands, g, degree), degree);
  }

  lemma ProposedLive(v: View, cands: seq<nat>, finds: nat -> bool, degree: nat)
    requires Sound(finds, cands)
    ensures forall x :: x in Proposed(v, cands, finds, degree) ==> x.index in v.live && x == Candidate(v, x.index)
  {
    ProposedElems(v, cands, finds, degree);
  }

  // ---- the selection as it runs ----------------------------------------------------------------

  method MeasureLive(v: View, cands: seq<nat>) returns (scored: seq<Scored>)
    ensures scored == Measure(v, cands)
  {
    scored := [];
    for i := 0 to |cands|
      invariant scored == Measure(v, cands[..i])
    {
      assert cands[..i + 1][..i] == cands[..i];
      if cands[i] in v.live { scored := scored + [Scored(cands[i], v.sim(cands[i]))]; }
    }
    assert cands[..|cands|] == cands;
  }

  method MeetWitnesses(v: View, finds: nat -> bool, ns: seq<nat>, p0: Pool) returns (p: Pool)
    ensures p == MeetAll(v, finds, ns, p0)
  {
    p := p0;
    for i := 0 to |ns|
      invariant MeetAll(v, finds, ns[i..], p) == MeetAll(v, finds, ns, p0)
    {
      assert ns[i..][1..] == ns[i + 1..];
      if finds(ns[i]) || ns[i] in p.expanded { continue; }
      p := p.(expanded := p.expanded + {ns[i]});
      if ns[i] !in v.live { continue; }
      p := p.(scored := p.scored + [Scored(ns[i], v.sim(ns[i]))]);
    }
  }

  /** `n` rows of `d`. */
  function Rows(n: nat, d: nat): nat { if n == 0 then 0 else Rows(n - 1, d) + d }

  lemma {:induction false} RowsAre(n: nat, d: nat)
    ensures Rows(n, d) == n * d
  {
    if n > 0 { RowsAre(n - 1, d); }
  }

  lemma RowsWithin(n: nat, d: nat)
    requires n <= d
    ensures Rows(n, d) <= d * d
  {
    MoreRows(n, d, d);
    RowsAre(d, d);
  }

  lemma {:induction false} MoreRows(n: nat, m: nat, d: nat)
    requires n <= m
    ensures Rows(n, d) <= Rows(m, d)
    decreases m
  {
    if n < m { MoreRows(n, m - 1, d); }
  }

  /** The whole selection; `edges` counts the witness edges inspected. */
  method SelectRivero(v: View, cands: seq<nat>, finds: nat -> bool, requested: nat)
      returns (ws: seq<Scored>, edges: nat)
    ensures var degree := BoundedDegree(requested);
      ws == SelectTop(Proposed(v, cands, finds, degree), degree) && edges <= degree * degree
  {
    var degree := BoundedDegree(requested);
    var direct := MeasureLive(v, cands);
    var seeds := SelectWitnesses(direct, degree);
    SelectTopFacts(direct, degree);
    var pool := Pool({}, direct);
    edges := 0;
    for i := 0 to |seeds|
      invariant edges <= Rows(i, degree)
      invariant Expand(v, finds, degree, seeds[i..], pool) == Expand(v, finds, degree, seeds, Pool({}, direct))
    {
      assert seeds[i..][1..] == seeds[i + 1..];
      var ns := WitnessesOf(v, degree, seeds[i].index);
      edges := edges + |ns|;
      pool := MeetWitnesses(v, finds, ns, pool);
    }
    RowsWithin(|seeds|, degree);
    ws := SelectWitnesses(pool.scored, degree);
  }
}
