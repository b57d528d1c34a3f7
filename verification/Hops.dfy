/** Scoring candidates and following witness edges: what every examined slot keeps, and exactly which slots
    two hops look at. Work counters are part of the model. */
module Hops {
  import opened Basics
  import opened Ranking
  import opened WitnessLists

  /** What a query sees: live slots, the filter, exact scores, witness lists and layer-0 connections. */
  datatype Corpus = Corpus(live: set<nat>, mask: Option<set<nat>>, score: nat -> real,
                           witnesses: nat -> seq<nat>, layer0: nat -> seq<nat>)

  predicate Eligible(c: Corpus, i: nat) { Admits(c.live, c.mask, i) }

  function Exact(c: Corpus, i: nat): Scored { Scored(i, c.score(i)) }

  /** Query state and diagnostics. */
  datatype Work = Work(visited: set<nat>, scored: seq<Scored>, found: seq<Scored>,
                       nonLive: nat, filtered: nat, scanned: nat, added: nat)

  const NoWork: Work := Work({}, [], [], 0, 0, 0, 0)

  /** Slots that were examined: scored, dead or filtered out. */
  function Examined(w: Work): nat { |w.scored| + w.nonLive + w.filtered }

  /** Marks an unvisited slot and scores it, or counts why not. */
  function Visit(c: Corpus, i: nat, w: Work): Work {
    var m := w.(visited := w.visited + {i});
    if i !in c.live then m.(nonLive := w.nonLive + 1)
    else if !Permits(c.mask, i) then m.(filtered := w.filtered + 1)
    else m.(scored := w.scored + [Exact(c, i)])
  }

  function Scan(c: Corpus, ns: seq<nat>, w: Work): Work
    decreases |ns|
  {
    if ns == [] then w else Scan(c, ns[1..], if ns[0] in w.visited then w else Visit(c, ns[0], w))
  }

  /** One witness edge: counted as scanned, and as added when it leads to an unvisited slot. */
  function FollowOne(c: Corpus, i: nat, w: Work): Work {
    var m := w.(scanned := w.scanned + 1);
    if i in w.visited then m
    else Visit(c, i, m.(added := w.added + 1)).(found := if Eligible(c, i) then w.found + [Exact(c, i)] else w.found)
  }

  function Follow(c: Corpus, ns: seq<nat>, w: Work): Work
    decreases |ns|
  {
    if ns == [] then w else Follow(c, ns[1..], FollowOne(c, ns[0], w))
  }

  /** `copy_rivero_witness_connections`: the witness list, or layer 0 when there is none. */
  function Connections(c: Corpus, seed: nat, degree: nat): (r: seq<nat>)
    ensures |r| <= degree
  {
    if seed !in c.live then []
    else
      var l := if c.witnesses(seed) != [] then c.witnesses(seed) else c.layer0(seed);
      l[..Min(degree, |l|)]
  }

  function Hop(c: Corpus, seeds: seq<nat>, degree: nat, w: Work): Work
    decreases |seeds|
  {
    if seeds == [] then w else Hop(c, seeds[1..], degree, Follow(c, Connections(c, seeds[0], degree), w))
  }

  // ---- what hops look at, in terms of the lists themselves -------------------------------------

  /** The `j`-th connection followed from a seed: of its witnesses, or of layer 0 if it has none. */
  function Nth(c: Corpus, seed: nat, j: nat): Option<nat> {
    if seed !in c.live then None
    else if c.witnesses(seed) != [] then if j < |c.witnesses(seed)| then Some(c.witnesses(seed)[j]) else None
    else if j < |c.layer0(seed)| then Some(c.layer0(seed)[j])
    else None
  }

  /** The first `degree` connections of every slot of `from`. */
  ghost function Touched(c: Corpus, from: set<nat>, degree: nat): set<nat> {
    set s, j | s in from && j in UpTo(degree) && Nth(c, s, j).Some? :: Nth(c, s, j).value
  }

  ghost function EligibleIn(c: Corpus, v: set<nat>): set<nat> { set i | i in v && Eligible(c, i) }

  /** Those of `v` with fewer than `n` ahead of them. */
  ghost function Best(c: Corpus, v: set<nat>, n: nat): set<nat> {
    set i | i in v && |set j | j in v && j != i && Ahead(Exact(c, j), Exact(c, i)) :: Exact(c, j)| < n
  }

  /** What two hops from the slots `v` look at: the connections of the best eligible ones, and those of the
      best eligible ones among the slots newly met. */
  ghost function Around(c: Corpus, v: set<nat>, seeds: nat, second: nat, degree: nat): set<nat> {
    var first := Touched(c, Best(c, EligibleIn(c, v), seeds), degree);
    first + Touched(c, Best(c, EligibleIn(c, first - v), second), degree)
  }

  lemma ConnectionsTouched(c: Corpus, seed: nat, degree: nat)
    ensures Elems(Connections(c, seed, degree)) == Touched(c, {seed}, degree)
  {
    var l := Connections(c, seed, degree);
    forall i | i in Elems(l) ensures i in Touched(c, {seed}, degree) {
      var j: nat :| j < |l| && l[j] == i;
      assert j in UpTo(degree) && Nth(c, seed, j) == Some(i);
    }
    forall i | i in Touched(c, {seed}, degree) ensures i in Elems(l) {
      var j: nat :| j in UpTo(degree) && Nth(c, seed, j) == Some(i);
      assert l[j] == i;
    }
  }

  lemma TouchedUnion(c: Corpus, a: set<nat>, b: set<nat>, degree: nat)
    ensures Touched(c, a + b, degree) == Touched(c, a, degree) + Touched(c, b, degree)
  {
    forall i | i in Touched(c, a + b, degree) ensures i in Touched(c, a, degree) + Touched(c, b, degree) {
      var s: nat, j: nat :| s in a + b && j in UpTo(degree) && Nth(c, s, j) == Some(i);
    }
    forall i | i in Touched(c, a, degree) + Touched(c, b, degree) ensures i in Touched(c, a + b, degree) {
      if i in Touched(c, a, degree) {
        var s: nat, j: nat :| s in a && j in UpTo(degree) && Nth(c, s, j) == Some(i);
        assert s in a + b;
      } else {
        var s: nat, j: nat :| s in b && j in UpTo(degree) && Nth(c, s, j) == Some(i);
        assert s in a + b;
      }
    }
  }

  // ---- what every examined slot keeps ----------------------------------------------------------

  /** The scored list is exactly the eligible visited slots, each once, with its exact score. */
  ghost predicate Tracks(c: Corpus, w: Work) {
    && OncePerSlot(w.scored)
    && forall x :: x in w.scored <==> x.index in w.visited && Eligible(c, x.index) && x == Exact(c, x.index)
  }

  lemma VisitKeeps(c: Corpus, i: nat, w: Work)
    requires Tracks(c, w) && i !in w.visited
    ensures var w' := Visit(c, i, w); Tracks(c, w') && Examined(w') == Examined(w) + 1
  {
    var w' := Visit(c, i, w);
    if Eligible(c, i) {
      forall j | 0 <= j < |w.scored| ensures w.scored[j].index != i { assert w.scored[j] in w.scored; }
    }
    assert forall x :: x in w'.scored <==> x in w.scored || (Eligible(c, i) && x == Exact(c, i));
  }

  lemma {:induction false} ScanKeeps(c: Corpus, ns: seq<nat>, w: Work)
    requires Tracks(c, w)
    ensures var r := Scan(c, ns, w);
      && Tracks(c, r) && r.visited == w.visited + Elems(ns)
      && r.scanned == w.scanned && r.added == w.added && r.found == w.found && w.scored <= r.scored
      && Examined(r) <= Examined(w) + |ns|
    decreases |ns|
  {
    if ns != [] {
      assert Elems(ns) == {ns[0]} + Elems(ns[1..]);
      if ns[0] !in w.visited { VisitKeeps(c, ns[0], w); }
      ScanKeeps(c, ns[1..], if ns[0] in w.visited then w else Visit(c, ns[0], w));
    }
  }

  ghost function Dead(c: Corpus, v: set<nat>): set<nat> { set i | i in v && i !in c.live }

  ghost function Rejected(c: Corpus, v: set<nat>): set<nat> { set i | i in v && i in c.live && !Permits(c.mask, i) }

  /** The two counters say how many of the visited slots were dead, and how many the filter rejected. */
  ghost predicate Counts(c: Corpus, w: Work) {
    w.nonLive == |Dead(c, w.visited)| && w.filtered == |Rejected(c, w.visited)|
  }

  lemma DeadGrows(c: Corpus, v: set<nat>, i: nat)
    requires i !in v
    ensures |Dead(c, v + {i})| == |Dead(c, v)| + if i !in c.live then 1 else 0
  {
    if i !in c.live {
      assert Dead(c, v + {i}) == Dead(c, v) + {i};
    } else {
      assert Dead(c, v + {i}) == Dead(c, v);
    }
  }

  lemma RejectedGrows(c: Corpus, v: set<nat>, i: nat)
    requires i !in v
    ensures |Rejected(c, v + {i})| == |Rejected(c, v)| + if i in c.live && !Permits(c.mask, i) then 1 else 0
  {
    if i in c.live && !Permits(c.mask, i) {
      assert Rejected(c, v + {i}) == Rejected(c, v) + {i};
    } else {
      assert Rejected(c, v + {i}) == Rejected(c, v);
    }
  }

  lemma VisitCounts(c: Corpus, i: nat, w: Work)
    requires Counts(c, w) && i !in w.visited
    ensures Counts(c, Visit(c, i, w))
  {
    DeadGrows(c, w.visited, i);
    RejectedGrows(c, w.visited, i);
  }

  lemma {:induction false} ScanCounts(c: Corpus, ns: seq<nat>, w: Work)
    requires Counts(c, w)
    ensures Counts(c, Scan(c, ns, w))
    decreases |ns|
  {
    if ns != [] {
      if ns[0] !in w.visited { VisitCounts(c, ns[0], w); }
      ScanCounts(c, ns[1..], if ns[0] in w.visited then w else Visit(c, ns[0], w));
    }
  }

  lemma {:induction false} FollowCounts(c: Corpus, ns: seq<nat>, w: Work)
    requires Counts(c, w)
    ensures Counts(c, Follow(c, ns, w))
    decreases |ns|
  {
    if ns != [] {
      if ns[0] !in w.visited { VisitCounts(c, ns[0], w); }
      FollowCounts(c, ns[1..], FollowOne(c, ns[0], w));
    }
  }

  lemma {:induction false} HopCounts(c: Corpus, seeds: seq<nat>, degree: nat, w: Work)
    requires Counts(c, w)
    ensures Counts(c, Hop(c, seeds, degree, w))
    decreases |seeds|
  {
    if seeds != [] {
      var ns := Connections(c, seeds[0], degree);
      FollowCounts(c, ns, w);
      HopCounts(c, seeds[1..], degree, Follow(c, ns, w));
    }
  }

  /** Distinct, unvisited candidates are all examined. */
  lemma {:induction false} ScanAllNew(c: Corpus, ns: seq<nat>, w: Work)
    requires Tracks(c, w) && Distinct(ns) && forall n :: n in ns ==> n !in w.visited
    ensures Examined(Scan(c, ns, w)) == Examined(w) + |ns|
    decreases |ns|
  {
    if ns != [] {
      VisitKeeps(c, ns[0], w);
      assert ns[0] !in ns[1..];
      ScanAllNew(c, ns[1..], Visit(c, ns[0], w));
    }
  }

  /** The conservation law of witness expansion: every added slot is scored, dead or filtered out. */
  ghost predicate Conserves(c: Corpus, w: Work, r: Work) {
    && Examined(r) - Examined(w) == r.added - w.added
    && 0 <= r.added - w.added <= r.scanned - w.scanned
    && w.scored <= r.scored
  }

  /** Newly found slots are scored slots. */
  ghost predicate FoundOk(c: Corpus, w: Work) {
    OncePerSlot(w.found) && forall x :: x in w.found ==> x in w.scored
  }

  lemma {:induction false} FollowKeeps(c: Corpus, ns: seq<nat>, w: Work)
    requires Tracks(c, w) && FoundOk(c, w)
    ensures var r := Follow(c, ns, w);
      && Tracks(c, r) && FoundOk(c, r) && r.visited == w.visited + Elems(ns)
      && r.scanned == w.scanned + |ns| && Conserves(c, w, r)
    decreases |ns|
  {
    if ns != [] {
      var i := ns[0];
      var m := FollowOne(c, i, w);
      assert Elems(ns) == {i} + Elems(ns[1..]);
      FollowOneKeeps(c, i, w);
      FollowKeeps(c, ns[1..], m);
    }
  }

  lemma FollowOneKeeps(c: Corpus, i: nat, w: Work)
    requires Tracks(c, w) && FoundOk(c, w)
    ensures var r := FollowOne(c, i, w);
      && Tracks(c, r) && FoundOk(c, r) && r.visited == w.visited + {i}
      && r.scanned == w.scanned + 1 && Conserves(c, w, r)
  {
    if i !in w.visited {
      var m := w.(scanned := w.scanned + 1, added := w.added + 1);
      VisitKeeps(c, i, m);
      forall j | 0 <= j < |w.found| ensures w.found[j].index != i {
        assert w.found[j] in w.found;
        assert w.found[j] in w.scored;
      }
      var r := FollowOne(c, i, w);
      forall x | x in r.found ensures x in r.scored {
        assert x in w.found || x == Exact(c, i);
      }
    }
  }

  lemma {:induction false} HopKeeps(c: Corpus, seeds: seq<nat>, degree: nat, w: Work)
    requires Tracks(c, w) && FoundOk(c, w)
    ensures var r := Hop(c, seeds, degree, w);
      Tracks(c, r) && FoundOk(c, r) && r.visited == w.visited + Touched(c, Elems(seeds), degree) && Conserves(c, w, r)
    decreases |seeds|
  {
    if seeds == [] {
      assert Touched(c, Elems(seeds), degree) == {};
    } else {
      var ns := Connections(c, seeds[0], degree);
      FollowKeeps(c, ns, w);
      HopKeeps(c, seeds[1..], degree, Follow(c, ns, w));
      ConnectionsTouched(c, seeds[0], degree);
      TouchedUnion(c, {seeds[0]}, Elems(seeds[1..]), degree);
      assert Elems(seeds) == {seeds[0]} + Elems(seeds[1..]);
    }
  }

  /** Newly found are exactly the eligible slots newly visited. */
  ghost predicate FindsNew(c: Corpus, w: Work, r: Work) {
    forall x :: x in r.found <==>
      x in w.found || (x.index in r.visited && x.index !in w.visited && Eligible(c, x.index) && x == Exact(c, x.index))
  }

  lemma FollowOneFinds(c: Corpus, i: nat, w: Work)
    ensures FindsNew(c, w, FollowOne(c, i, w)) && w.visited <= FollowOne(c, i, w).visited
  {
  }

  lemma FindsMore(c: Corpus, w: Work, m: Work, r: Work)
    requires FindsNew(c, w, m) && FindsNew(c, m, r) && w.visited <= m.visited <= r.visited
    ensures FindsNew(c, w, r)
  {
  }

  lemma {:induction false} FollowFinds(c: Corpus, ns: seq<nat>, w: Work)
    ensures FindsNew(c, w, Follow(c, ns, w)) && w.visited <= Follow(c, ns, w).visited
    decreases |ns|
  {
    if ns != [] {
      var m := FollowOne(c, ns[0], w);
      FollowOneFinds(c, ns[0], w);
      FollowFinds(c, ns[1..], m);
      FindsMore(c, w, m, Follow(c, ns, w));
    }
  }

  lemma {:induction false} HopFinds(c: Corpus, seeds: seq<nat>, degree: nat, w: Work)
    ensures FindsNew(c, w, Hop(c, seeds, degree, w)) && w.visited <= Hop(c, seeds, degree, w).visited
    decreases |seeds|
  {
    if seeds != [] {
      var ns := Connections(c, seeds[0], degree);
      var m := Follow(c, ns, w);
      FollowFinds(c, ns, w);
      HopFinds(c, seeds[1..], degree, m);
      FindsMore(c, w, m, Hop(c, seeds, degree, w));
    }
  }

  lemma {:induction false} FollowScans(c: Corpus, ns: seq<nat>, w: Work)
    ensures Follow(c, ns, w).scanned == w.scanned + |ns|
    decreases |ns|
  {
    if ns != [] { FollowScans(c, ns[1..], FollowOne(c, ns[0], w)); }
  }

  lemma OneLess(n: nat, d: nat)
    requires n > 0
    ensures n * d == (n - 1) * d + d
  {
  }

  lemma {:induction false} HopScans(c: Corpus, seeds: seq<nat>, degree: nat, w: Work)
    ensures Hop(c, seeds, degree, w).scanned <= w.scanned + |seeds| * degree
    decreases |seeds|
  {
    if seeds != [] {
      var ns := Connections(c, seeds[0], degree);
      FollowScans(c, ns, w);
      HopScans(c, seeds[1..], degree, Follow(c, ns, w));
      OneLess(|seeds|, degree);
    }
  }

  // ---- two hops --------------------------------------------------------------------------------

  ghost function Seeds(s: seq<Scored>, limit: nat): seq<nat> { Indices(TopK(s, limit)) }

  /** The witnesses of the best scored slots, then of the best of those newly found. */
  ghost function TwoHops(c: Corpus, seeds: nat, second: nat, degree: nat, w: Work): Work {
    var w' := Hop(c, Seeds(w.scored, seeds), degree, w);
    Hop(c, Seeds(w'.found, second), degree, w'.(found := []))
  }

  /** `s` lists the slots `v`, once each, with their exact scores. */
  ghost predicate Lists(c: Corpus, v: set<nat>, s: seq<Scored>) {
    OncePerSlot(s) && forall x :: x in s <==> x.index in v && x == Exact(c, x.index)
  }

  lemma SeedsAreBest(c: Corpus, v: set<nat>, s: seq<Scored>, n: nat)
    requires Lists(c, v, s)
    ensures Elems(Seeds(s, n)) == Best(c, v, n)
  {
    forall i: nat ensures i in Seeds(s, n) <==> i in Best(c, v, n) {
      var x := Exact(c, i);
      TopKMember(s, n, x);
      assert AheadOf(s, x) == set j | j in v && j != i && Ahead(Exact(c, j), Exact(c, i)) :: Exact(c, j) by {
        forall y | y in AheadOf(s, x) ensures y in set j | j in v && j != i && Ahead(Exact(c, j), x) :: Exact(c, j) {
          assert y == Exact(c, y.index) && y.index in v;
        }
      }
      assert x in s <==> i in v;
      assert i in Seeds(s, n) <==> x in TopK(s, n) by { SeedOf(c, v, s, n, i); }
    }
  }

  lemma SeedOf(c: Corpus, v: set<nat>, s: seq<Scored>, n: nat, i: nat)
    requires Lists(c, v, s)
    ensures i in Seeds(s, n) <==> Exact(c, i) in TopK(s, n)
  {
    var t := TopK(s, n);
    RankElems(s);
    if i in Seeds(s, n) {
      var j :| 0 <= j < |t| && t[j].index == i;
      assert t[j] in Rank(s);
      assert t[j] in s;
    }
    if Exact(c, i) in t {
      var j :| 0 <= j < |t| && t[j] == Exact(c, i);
      assert Indices(t)[j] == i;
    }
  }

  /** Two hops visit exactly what is around, score the eligible part of it, and examine at most one slot per
      edge. */
  lemma TwoHopsLook(c: Corpus, seeds: nat, second: nat, degree: nat, w: Work)
    requires Tracks(c, w) && w.found == []
    ensures var r := TwoHops(c, seeds, second, degree, w);
      && Tracks(c, r) && r.visited == w.visited + Around(c, w.visited, seeds, second, degree) && Conserves(c, w, r)
  {
    var w' := Hop(c, Seeds(w.scored, seeds), degree, w);
    assert Lists(c, EligibleIn(c, w.visited), w.scored);
    SeedsAreBest(c, EligibleIn(c, w.visited), w.scored, seeds);
    HopKeeps(c, Seeds(w.scored, seeds), degree, w);
    HopFinds(c, Seeds(w.scored, seeds), degree, w);
    var first := Touched(c, Best(c, EligibleIn(c, w.visited), seeds), degree);
    assert w'.visited - w.visited == first - w.visited;
    assert Lists(c, EligibleIn(c, first - w.visited), w'.found);
    SeedsAreBest(c, EligibleIn(c, first - w.visited), w'.found, second);
    HopKeeps(c, Seeds(w'.found, second), degree, w'.(found := []));
  }

  lemma RankKeepsTracks(c: Corpus, w: Work)
    requires Tracks(c, w)
    ensures Tracks(c, w.(scored := Rank(w.scored))) && |Rank(w.scored)| == |w.scored|
  {
    RankSorts(w.scored);
    RankElems(w.scored);
    OncePerSlotPermutation(w.scored, Rank(w.scored));
  }

  lemma ProductBound(a: nat, b: nat, d: nat)
    requires a <= b
    ensures a * d <= b * d
  {
  }

  lemma TwoHopsScan(c: Corpus, seeds: nat, second: nat, degree: nat, w: Work)
    ensures TwoHops(c, seeds, second, degree, w).scanned <= w.scanned + (seeds + second) * degree
  {
    var s := Seeds(w.scored, seeds);
    var w' := Hop(c, s, degree, w);
    var s' := Seeds(w'.found, second);
    HopScans(c, s, degree, w);
    HopScans(c, s', degree, w'.(found := []));
    ProductBound(|s|, seeds, degree);
    ProductBound(|s'|, second, degree);
    assert (seeds + second) * degree == seeds * degree + second * degree;
  }

  lemma TopKFacts(s: seq<Scored>, k: nat)
    requires OncePerSlot(s)
    ensures var hits := TopK(s, k);
      && Ranked(hits) && OncePerSlot(hits) && |hits| <= k && (forall x :: x in hits ==> x in s)
      && (forall y :: y in s && y !in hits ==> |hits| == k && forall x :: x in hits ==> Ahead(x, y))
  {
    var r := Rank(s);
    RankSorts(s);
    RankElems(s);
    OncePerSlotPermutation(s, r);
    forall y | y in s && y !in TopK(s, k) ensures |TopK(s, k)| == k && forall x :: x in TopK(s, k) ==> Ahead(x, y) {
      var j :| 0 <= j < |r| && r[j] == y;
    }
  }

  lemma ListedSize(c: Corpus, v: set<nat>, s: seq<Scored>)
    requires Lists(c, v, s)
    ensures |s| == |v|
  {
    var slots := Indices(s);
    assert Distinct(slots);
    ElemsSize(slots);
    forall i ensures i in slots <==> i in v {
      if i in slots {
        var j :| 0 <= j < |slots| && slots[j] == i;
        assert s[j] in s;
      }
      if i in v {
        assert Exact(c, i) in s;
        var j :| 0 <= j < |slots| && s[j] == Exact(c, i);
        assert slots[j] == i;
      }
    }
    assert Elems(slots) == v;
  }

  /** `hits` are the best `k` of the slots `v`: ranked, once each, with exact scores, as many as there are up
      to `k`, and ahead of every slot left out. */
  ghost predicate BestOf(c: Corpus, v: set<nat>, k: nat, hits: seq<Scored>) {
    && Ranked(hits) && OncePerSlot(hits) && |hits| == Min(k, |v|)
    && (forall y :: y in hits ==> y.index in v && y == Exact(c, y.index))
    && (forall i :: i in v && Exact(c, i) !in hits ==> forall y :: y in hits ==> Ahead(y, Exact(c, i)))
  }

  lemma BestListed(c: Corpus, v: set<nat>, s: seq<Scored>, k: nat)
    requires Lists(c, v, s)
    ensures BestOf(c, v, k, TopK(s, k))
  {
    TopKFacts(s, k);
    ListedSize(c, v, s);
    RankSorts(s);
  }
}
