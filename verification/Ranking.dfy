/** Scored slots and the ranking every HNSQR search path ends with: score descending, index
    ascending on ties (`total_cmp(..).then_with(..)`), then the first `k`. */
module Ranking {
  import opened Basics

  /** A slot paired with its similarity score. */
  datatype Scored = Scored(index: nat, score: real)

  /** `a` may be listed ahead of `b`: higher score, and on equal scores the smaller index. */
  predicate Ahead(a: Scored, b: Scored) {
    a.score > b.score || (a.score == b.score && a.index <= b.index)
  }

  predicate Ranked(s: seq<Scored>) {
    forall i, j :: 0 <= i < j < |s| ==> Ahead(s[i], s[j])
  }

  function Indices(s: seq<Scored>): (r: seq<nat>)
    ensures |r| == |s|
    ensures forall i :: 0 <= i < |s| ==> r[i] == s[i].index
  {
    seq(|s|, i requires 0 <= i < |s| => s[i].index)
  }

  function InsertRanked(x: Scored, s: seq<Scored>): seq<Scored> {
    if s == [] then [x]
    else if Ahead(x, s[0]) then [x] + s
    else [s[0]] + InsertRanked(x, s[1..])
  }

  function Rank(s: seq<Scored>): seq<Scored> {
    if s == [] then [] else InsertRanked(s[0], Rank(s[1..]))
  }

  function TopK(s: seq<Scored>, k: nat): seq<Scored> {
    var r := Rank(s);
    if k <= |r| then r[..k] else r
  }

  lemma {:induction false} InsertRankedSorts(x: Scored, s: seq<Scored>)
    requires Ranked(s)
    ensures Ranked(InsertRanked(x, s))
    ensures multiset(InsertRanked(x, s)) == multiset(s) + multiset{x}
  {
    if s == [] {
    } else if Ahead(x, s[0]) {
      forall i, j | 0 <= i < j < |s| + 1 ensures Ahead(([x] + s)[i], ([x] + s)[j]) {
        if i == 0 && j > 1 { assert Ahead(s[0], s[j - 1]); }
      }
    } else {
      var t := InsertRanked(x, s[1..]);
      InsertRankedSorts(x, s[1..]);
      assert s == [s[0]] + s[1..];
      forall j | 0 <= j < |t| ensures Ahead(s[0], t[j]) {
        assert t[j] in multiset(t);
        assert t[j] == x || t[j] in s[1..];
      }
    }
  }

  /** Sorting is a ranked permutation. */
  lemma {:induction false} RankSorts(s: seq<Scored>)
    ensures Ranked(Rank(s))
    ensures multiset(Rank(s)) == multiset(s)
    ensures |Rank(s)| == |s|
  {
    if s != [] {
      RankSorts(s[1..]);
      InsertRankedSorts(s[0], Rank(s[1..]));
      assert s == [s[0]] + s[1..];
    }
    assert |multiset(Rank(s))| == |Rank(s)| && |multiset(s)| == |s|;
  }

  lemma RankedHeads(a: seq<Scored>, b: seq<Scored>)
    requires Ranked(a) && Ranked(b) && multiset(a) == multiset(b) && a != [] && b != []
    ensures a[0] == b[0]
  {
    assert a[0] in multiset(b) && b[0] in multiset(a);
    var i :| 0 <= i < |b| && b[i] == a[0];
    var j :| 0 <= j < |a| && a[j] == b[0];
  }

  /** A multiset has one ranked listing, so every sorting routine agrees with `Rank`. */
  lemma {:induction false} RankedUnique(a: seq<Scored>, b: seq<Scored>)
    requires Ranked(a) && Ranked(b) && multiset(a) == multiset(b)
    ensures a == b
  {
    assert |a| == |multiset(a)| && |multiset(b)| == |b|;
    if a != [] {
      RankedHeads(a, b);
      TailMultiset(a);
      TailMultiset(b);
      RankedUnique(a[1..], b[1..]);
      assert a == [a[0]] + a[1..] && b == [b[0]] + b[1..];
    }
  }

  lemma RankOfPermutation(a: seq<Scored>, b: seq<Scored>)
    requires multiset(a) == multiset(b)
    ensures Rank(a) == Rank(b)
  {
    RankSorts(a);
    RankSorts(b);
    RankedUnique(Rank(a), Rank(b));
  }

  lemma RankIs(g: seq<Scored>, s: seq<Scored>)
    requires Ranked(g) && multiset(g) == multiset(s)
    ensures Rank(s) == g
  {
    RankSorts(s);
    RankedUnique(g, Rank(s));
  }

  lemma TopKIs(g: seq<Scored>, s: seq<Scored>, k: nat)
    requires Ranked(g) && multiset(g) == multiset(s)
    ensures TopK(s, k) == g[..Min(k, |g|)]
  {
    RankIs(g, s);
    assert g[..|g|] == g;
  }

  /** A sequence `select_nth_unstable_by(k - 1, ..)` may leave behind: a permutation whose first `k`
      entries are all listed ahead of the others. */
  ghost predicate PartitionedAt(p: seq<Scored>, s: seq<Scored>, k: nat) {
    && multiset(p) == multiset(s)
    && k <= |p|
    && forall i, j :: 0 <= i < k <= j < |p| ==> Ahead(p[i], p[j])
  }

  /** Two ranked runs, the first wholly ahead of the second, concatenate to a ranked run. */
  lemma RankedConcat(a: seq<Scored>, b: seq<Scored>)
    requires Ranked(a) && Ranked(b)
    requires forall x, y :: x in a && y in b ==> Ahead(x, y)
    ensures Ranked(a + b)
  {
    var c := a + b;
    forall i, j | 0 <= i < j < |c| ensures Ahead(c[i], c[j]) {
      if i < |a| && j >= |a| { assert c[i] in a && c[j] in b; }
    }
  }

  lemma RankElems(s: seq<Scored>)
    ensures forall x :: x in Rank(s) <==> x in s
  {
    RankSorts(s);
    assert forall x :: x in Rank(s) <==> x in multiset(Rank(s));
  }

  /** Partial selection, truncation and a sort of what is left give the first `k` of the full sort,
      whichever of the admissible permutations the selection produced. */
  lemma PartialSelection(p: seq<Scored>, s: seq<Scored>, k: nat)
    requires PartitionedAt(p, s, k)
    ensures Rank(p[..k]) == TopK(s, k)
  {
    var lo, hi := p[..k], p[k..];
    assert p == lo + hi;
    assert forall x, y :: x in lo && y in hi ==> Ahead(x, y);
    RankSorts(lo);
    RankSorts(hi);
    RankElems(lo);
    RankElems(hi);
    RankedConcat(Rank(lo), Rank(hi));
    RankSorts(s);
    RankedUnique(Rank(lo) + Rank(hi), Rank(s));
  }

  /** Members of `s` listed strictly ahead of `x`. */
  ghost function AheadOf(s: seq<Scored>, x: Scored): set<Scored> {
    set y | y in s && y != x && Ahead(y, x)
  }

  /** In a ranked listing, the members ahead of the `i`-th are the first `i`. */
  lemma AheadOfRanked(r: seq<Scored>, i: nat)
    requires Ranked(r) && Distinct(r) && i < |r|
    ensures |AheadOf(r, r[i])| == i
  {
    assert AheadOf(r, r[i]) == Elems(r[..i]);
    ElemsSize(r[..i]);
  }

  /** Rank characterisation: `x` makes the first `k` exactly when fewer than `k` members beat it. */
  lemma TopKMember(s: seq<Scored>, k: nat, x: Scored)
    requires Distinct(s)
    ensures x in TopK(s, k) <==> x in s && |AheadOf(s, x)| < k
  {
    var r := Rank(s);
    RankSorts(s);
    RankElems(s);
    DistinctPermutation(s, r);
    assert AheadOf(s, x) == AheadOf(r, x);
    if x in s {
      var i :| 0 <= i < |r| && r[i] == x;
      AheadOfRanked(r, i);
      assert i < k ==> TopK(s, k)[i] == x;
    }
  }

  /** `S ⊆ E`: whoever is in the first `k` of `E` and was scored at all is in the first `k` of `S`. */
  lemma TrueNeighboursSurvive(e: seq<Scored>, s: seq<Scored>, k: nat, x: Scored)
    requires Distinct(e) && Distinct(s)
    requires Elems(s) <= Elems(e)
    requires x in TopK(e, k) && x in s
    ensures x in TopK(s, k)
  {
    TopKMember(e, k, x);
    TopKMember(s, k, x);
    forall y | y in AheadOf(s, x) ensures y in AheadOf(e, x) { assert y in Elems(s); }
    SubsetSize(AheadOf(s, x), AheadOf(e, x));
  }

  /** Recall never regresses: `S ⊆ T ⊆ E` keeps every true neighbour already returned. */
  lemma RecallNeverRegresses(e: seq<Scored>, s: seq<Scored>, t: seq<Scored>, k: nat, x: Scored)
    requires Distinct(e) && Distinct(s) && Distinct(t)
    requires Elems(s) <= Elems(t) <= Elems(e)
    requires x in TopK(e, k) && x in TopK(s, k)
    ensures x in TopK(t, k)
  {
    TopKMember(s, k, x);
    assert x in Elems(s);
    assert x in t;
    TrueNeighboursSurvive(e, t, k, x);
  }

  function Score(slots: seq<nat>, f: nat -> real): (r: seq<Scored>)
    ensures |r| == |slots|
    ensures forall i :: 0 <= i < |slots| ==> r[i] == Scored(slots[i], f(slots[i]))
  {
    seq(|slots|, i requires 0 <= i < |slots| => Scored(slots[i], f(slots[i])))
  }

  /** Two scorings that order every pair of the given slots alike. */
  ghost predicate SameOrder(slots: set<nat>, f: nat -> real, g: nat -> real) {
    forall i, j :: i in slots && j in slots ==> (f(i) < f(j) <==> g(i) < g(j))
  }

  lemma IndicesCons(x: Scored, s: seq<Scored>)
    ensures Indices([x] + s) == [x.index] + Indices(s)
  {
  }

  lemma ScoreTail(slots: seq<nat>, f: nat -> real)
    requires slots != []
    ensures Score(slots, f)[0] == Scored(slots[0], f(slots[0])) && Score(slots, f)[1..] == Score(slots[1..], f)
  {
  }

  lemma {:induction false} InsertSameOrder(n: nat, slots: seq<nat>, f: nat -> real, g: nat -> real)
    requires SameOrder({n} + Elems(slots), f, g)
    ensures Indices(InsertRanked(Scored(n, f(n)), Score(slots, f)))
         == Indices(InsertRanked(Scored(n, g(n)), Score(slots, g)))
  {
    if slots != [] {
      var x, y, m, t := Scored(n, f(n)), Scored(n, g(n)), slots[0], slots[1..];
      ScoreTail(slots, f);
      ScoreTail(slots, g);
      assert m in Elems(slots);
      assert Ahead(x, Scored(m, f(m))) <==> Ahead(y, Scored(m, g(m)));
      if Ahead(x, Scored(m, f(m))) {
        IndicesCons(x, Score(slots, f));
        IndicesCons(y, Score(slots, g));
      } else {
        forall z | z in t ensures z in Elems(slots) {}
        InsertSameOrder(n, t, f, g);
        IndicesCons(Scored(m, f(m)), InsertRanked(x, Score(t, f)));
        IndicesCons(Scored(m, g(m)), InsertRanked(y, Score(t, g)));
      }
    }
  }

  /** Ranked scores are scores of the ranked slots. */
  lemma ScoreOfIndices(s: seq<Scored>, slots: seq<nat>, f: nat -> real)
    requires multiset(s) == multiset(Score(slots, f))
    ensures Score(Indices(s), f) == s
    ensures Elems(Indices(s)) == Elems(slots)
  {
    forall i | 0 <= i < |s| ensures s[i].score == f(s[i].index) && s[i].index in slots {
      assert s[i] in multiset(Score(slots, f));
    }
    forall i | 0 <= i < |slots| ensures slots[i] in Indices(s) {
      assert Score(slots, f)[i] in multiset(s);
      var j :| 0 <= j < |s| && s[j] == Score(slots, f)[i];
      assert Indices(s)[j] == slots[i];
    }
  }

  /** Scorings that agree on every pair rank every slot list alike. */
  lemma {:induction false} RankSameOrder(slots: seq<nat>, f: nat -> real, g: nat -> real)
    requires SameOrder(Elems(slots), f, g)
    ensures Indices(Rank(Score(slots, f))) == Indices(Rank(Score(slots, g)))
  {
    if slots != [] {
      var tail := slots[1..];
      forall x | x in tail ensures x in Elems(slots) {}
      assert slots[0] in Elems(slots);
      RankSameOrder(tail, f, g);
      assert Score(slots, f)[1..] == Score(tail, f) && Score(slots, g)[1..] == Score(tail, g);
      RankSorts(Score(tail, f));
      RankSorts(Score(tail, g));
      ScoreOfIndices(Rank(Score(tail, f)), tail, f);
      ScoreOfIndices(Rank(Score(tail, g)), tail, g);
      InsertSameOrder(slots[0], Indices(Rank(Score(tail, f))), f, g);
    }
  }

  /** Slots `0..n` that pass `keep`, in index order. */
  function Filter(n: nat, keep: nat -> bool): (r: seq<nat>)
    ensures forall i: nat :: i in r <==> i < n && keep(i)
  {
    if n == 0 then [] else Filter(n - 1, keep) + if keep(n - 1) then [n - 1] else []
  }

  lemma {:induction false} FilterNone(n: nat, keep: nat -> bool)
    requires forall i: nat :: i < n ==> !keep(i)
    ensures Filter(n, keep) == []
  {
    if n > 0 { FilterNone(n - 1, keep); }
  }

  lemma {:induction false} FilterDistinct(n: nat, keep: nat -> bool)
    ensures Distinct(Filter(n, keep))
  {
    if n > 0 { FilterDistinct(n - 1, keep); }
  }
}
