/** Diversity-aware neighbour selection: extend the pool, sort it stably, accept what is diverse, and
    fill up with what was discarded. Slots stand for their vectors; `sim` is their similarity. */
module Neighbours {
  import opened Basics
  import opened Ranking
  import opened WitnessLists

  type Similarity = (nat, nat) -> real

  // ---- the stable sort -------------------------------------------------------------------------

  predicate Descending(s: seq<Scored>) { forall i, j :: 0 <= i < j < |s| ==> s[i].score >= s[j].score }

  function InsertStable(x: Scored, s: seq<Scored>): seq<Scored> {
    if s == [] || s[0].score <= x.score then [x] + s else [s[0]] + InsertStable(x, s[1..])
  }

  /** `sort_by` on descending similarity. */
  function SortStable(s: seq<Scored>): seq<Scored> {
    if s == [] then [] else InsertStable(s[0], SortStable(s[1..]))
  }

  /** The entries of one score, in order. */
  function WithScore(s: seq<Scored>, v: real): seq<Scored> {
    if s == [] then [] else OneWith(s[0], v) + WithScore(s[1..], v)
  }

  function OneWith(x: Scored, v: real): seq<Scored> { if x.score == v then [x] else [] }

  lemma {:induction false} InsertStablePermutes(x: Scored, s: seq<Scored>)
    ensures multiset(InsertStable(x, s)) == multiset(s) + multiset{x}
  {
    if s != [] && s[0].score > x.score {
      InsertStablePermutes(x, s[1..]);
      assert s == [s[0]] + s[1..];
    }
  }

  predicate Below(s: seq<Scored>, v: real) { forall i :: 0 <= i < |s| ==> s[i].score <= v }

  lemma {:induction false} InsertStableSorts(x: Scored, s: seq<Scored>, v: real)
    requires Descending(s)
    ensures Descending(InsertStable(x, s)) && (Below(s, v) && x.score <= v ==> Below(InsertStable(x, s), v))
  {
    if s != [] && s[0].score > x.score {
      InsertStableSorts(x, s[1..], v);
      InsertStableSorts(x, s[1..], s[0].score);
    }
  }

  lemma {:induction false} WithCons(x: Scored, s: seq<Scored>, v: real)
    ensures WithScore([x] + s, v) == OneWith(x, v) + WithScore(s, v)
  {
    assert ([x] + s)[1..] == s;
  }

  lemma TwoWith(x: Scored, y: Scored, rest: seq<Scored>, v: real)
    requires x.score != y.score
    ensures OneWith(x, v) + (OneWith(y, v) + rest) == OneWith(y, v) + (OneWith(x, v) + rest)
  {
  }

  lemma {:induction false} InsertStableKeepsOrder(x: Scored, s: seq<Scored>, v: real)
    ensures WithScore(InsertStable(x, s), v) == OneWith(x, v) + WithScore(s, v)
  {
    if s == [] || s[0].score <= x.score {
      WithCons(x, s, v);
    } else {
      InsertStableKeepsOrder(x, s[1..], v);
      WithCons(s[0], InsertStable(x, s[1..]), v);
      TwoWith(s[0], x, WithScore(s[1..], v), v);
    }
  }

  /** Sorted, a permutation, and equal scores keep their order: together these determine the list. */
  lemma {:induction false} SortStableFacts(s: seq<Scored>)
    ensures Descending(SortStable(s)) && multiset(SortStable(s)) == multiset(s)
  {
    if s != [] {
      SortStableFacts(s[1..]);
      InsertStableSorts(s[0], SortStable(s[1..]), 0.0);
      InsertStablePermutes(s[0], SortStable(s[1..]));
      assert s == [s[0]] + s[1..];
    }
  }

  lemma {:induction false} SortStableKeepsOrder(s: seq<Scored>, v: real)
    ensures WithScore(SortStable(s), v) == WithScore(s, v)
  {
    if s != [] {
      SortStableKeepsOrder(s[1..], v);
      InsertStableKeepsOrder(s[0], SortStable(s[1..]), v);
    }
  }

  // ---- extension -------------------------------------------------------------------------------

  /** Appends the unvisited slots of `ns`, scored against the base. */
  function AddUnseen(sim: Similarity, base: nat, ns: seq<nat>, pool: seq<Scored>): seq<Scored>
    decreases |ns|
  {
    if ns == [] then pool
    else AddUnseen(sim, base, ns[1..], if Names(pool, ns[0]) then pool else pool + [Scored(ns[0], sim(base, ns[0]))])
  }

  /** Extends `pool` with the connections of each of `from`. */
  function Extend(sim: Similarity, base: nat, conns: nat -> seq<nat>, from: seq<nat>, pool: seq<Scored>): seq<Scored>
    decreases |from|
  {
    if from == [] then pool
    else Extend(sim, base, conns, from[1..], AddUnseen(sim, base, conns(from[0]), pool))
  }

  /** The candidates, or the candidates and the connections of the first `m` of them. `conns` is empty
      for slots that are not live. */
  function Pool(sim: Similarity, base: nat, conns: nat -> seq<nat>, cands: seq<Scored>, m: nat,
                extend: bool): seq<Scored> {
    if extend then Extend(sim, base, conns, Indices(cands)[..Min(m, |cands|)], cands) else cands
  }

  ghost predicate Grows(pool: seq<Scored>, r: seq<Scored>) { OncePerSlot(r) && pool <= r }

  lemma {:induction false} AddUnseenFacts(sim: Similarity, base: nat, ns: seq<nat>, pool: seq<Scored>)
    requires OncePerSlot(pool)
    ensures var r := AddUnseen(sim, base, ns, pool);
      && Grows(pool, r)
      && (forall x :: x in r ==> x in pool || (x.index in ns && x.score == sim(base, x.index)))
      && (forall n :: n in ns ==> Names(r, n))
    decreases |ns|
  {
    if ns != [] {
      var next := if Names(pool, ns[0]) then pool else pool + [Scored(ns[0], sim(base, ns[0]))];
      if !Names(pool, ns[0]) {
        forall j | 0 <= j < |pool| ensures pool[j].index != ns[0] { assert pool[j] in pool; }
        assert next[|pool|] in next;
      }
      AddUnseenFacts(sim, base, ns[1..], next);
      var y :| y in next && y.index == ns[0];
      assert y in AddUnseen(sim, base, ns[1..], next);
    }
  }

  /** The extended pool has every candidate first, names no slot twice, and what it adds are exactly
      connections of the slots extended from, scored against the base. */
  lemma {:induction false} ExtendFacts(sim: Similarity, base: nat, conns: nat -> seq<nat>, from: seq<nat>,
                                       pool: seq<Scored>)
    requires OncePerSlot(pool)
    ensures var r := Extend(sim, base, conns, from, pool);
      && Grows(pool, r)
      && (forall x :: x in r ==>
          x in pool || (x.score == sim(base, x.index) && exists f :: f in from && x.index in conns(f)))
      && (forall f, n :: f in from && n in conns(f) ==> Names(r, n))
    decreases |from|
  {
    if from != [] {
      var next := AddUnseen(sim, base, conns(from[0]), pool);
      AddUnseenFacts(sim, base, conns(from[0]), pool);
      ExtendFacts(sim, base, conns, from[1..], next);
      var r := Extend(sim, base, conns, from, pool);
      forall f, n | f in from && n in conns(f) ensures Names(r, n) {
        if f == from[0] {
          var y :| y in next && y.index == n;
          assert y in r;
        } else {
          assert f in from[1..];
        }
      }
    }
  }

  // ---- selection -------------------------------------------------------------------------------

  const COMPARED: nat := 16

  /** Closer to the base than to each of the first accepted ones. */
  predicate Diverse(sim: Similarity, x: Scored, accepted: seq<nat>) {
    forall j :: 0 <= j < |accepted| && j < COMPARED ==> sim(x.index, accepted[j]) < x.score
  }

  /** The accept loop: the accepted slots, and the discarded ones in order. */
  function Choose(sim: Similarity, m: nat, pool: seq<Scored>, accepted: seq<nat>, discarded: seq<nat>): (seq<nat>,
                  seq<nat>)
    decreases |pool|
  {
    if pool == [] then (accepted, discarded)
    else if !Diverse(sim, pool[0], accepted) then Choose(sim, m, pool[1..], accepted, discarded + [pool[0].index])
    else if |accepted| + 1 >= m then (accepted + [pool[0].index], discarded)
    else Choose(sim, m, pool[1..], accepted + [pool[0].index], discarded)
  }

  function Fill(m: nat, selected: seq<nat>, discarded: seq<nat>): seq<nat>
    decreases |discarded|
  {
    if |selected| >= m || discarded == [] then selected
    else Fill(m, if discarded[0] in selected then selected else selected + [discarded[0]], discarded[1..])
  }

  /** The best `2 * m` of the pool. */
  function Shortlist(m: nat, pool: seq<Scored>): seq<Scored> {
    var s := SortStable(pool);
    s[..Min(2 * m, |s|)]
  }

  /** Accepted slots, topped up with discarded ones if those are kept. */
  function Picked(sim: Similarity, m: nat, keep: bool, s: seq<Scored>): seq<nat> {
    var c := Choose(sim, m, s, [], []);
    if keep then Fill(m, c.0, c.1) else c.0
  }

  /** `select_neighbors_heuristic`. */
  function Selected(sim: Similarity, base: nat, conns: nat -> seq<nat>, cands: seq<Scored>, m: nat, extend: bool,
                    keep: bool): seq<nat> {
    if |cands| <= m && !extend then Indices(cands)
    else Picked(sim, m, keep, Shortlist(m, Pool(sim, base, conns, cands, m, extend)))
  }

  ghost predicate AcceptedAfter(sim: Similarity, pool: seq<Scored>, i: nat, before: seq<nat>) {
    exists x :: x in pool && x.index == i && Diverse(sim, x, before)
  }

  ghost predicate DiscardedBy(sim: Similarity, pool: seq<Scored>, i: nat, accepted: seq<nat>) {
    exists x :: x in pool && x.index == i && !Diverse(sim, x, accepted)
  }

  ghost predicate Unused(pool: seq<Scored>, accepted: seq<nat>, discarded: seq<nat>) {
    forall x :: x in pool ==> x.index !in accepted && x.index !in discarded
  }

  ghost predicate Disjoint(a: seq<nat>, b: seq<nat>) { forall x :: x in a ==> x !in b }

  /** What the accept loop leaves: no slot twice, everything from the pool or from before, and, when
      fewer than `m` were accepted, as many as there were. */
  lemma {:induction false} ChooseFacts(sim: Similarity, m: nat, pool: seq<Scored>, accepted: seq<nat>,
                                       discarded: seq<nat>)
    requires OncePerSlot(pool) && Unused(pool, accepted, discarded)
    requires Distinct(accepted) && Distinct(discarded) && Disjoint(accepted, discarded)
    requires |accepted| < m || pool == []
    ensures var (a, d) := Choose(sim, m, pool, accepted, discarded);
      && Distinct(a) && Distinct(d) && Disjoint(a, d)
      && accepted <= a && discarded <= d && |a| <= Max(m, |accepted|)
      && (forall i :: i in a || i in d ==> i in accepted || i in discarded || Names(pool, i))
      && |a| + |d| <= |accepted| + |discarded| + |pool|
      && (|a| < m ==> |a| + |d| == |accepted| + |discarded| + |pool|)
    decreases |pool|
  {
    if pool != [] {
      var x := pool[0];
      assert x in pool;
      forall y | y in pool[1..] ensures y.index != x.index {
        var j :| 0 <= j < |pool[1..]| && pool[1..][j] == y;
        assert pool[j + 1] == y;
      }
      if !Diverse(sim, x, accepted) {
        ChooseFacts(sim, m, pool[1..], accepted, discarded + [x.index]);
      } else if |accepted| + 1 < m {
        ChooseFacts(sim, m, pool[1..], accepted + [x.index], discarded);
      }
    }
  }

  /** With fewer than `m` accepted, every pool slot is on one of the two lists. */
  lemma {:induction false} ChooseCovers(sim: Similarity, m: nat, pool: seq<Scored>, accepted: seq<nat>,
                                        discarded: seq<nat>)
    ensures var (a, d) := Choose(sim, m, pool, accepted, discarded);
      && accepted <= a && discarded <= d
      && (|a| < m ==> forall x :: x in pool ==> x.index in a || x.index in d)
    decreases |pool|
  {
    if pool != [] {
      var x := pool[0];
      var (a, d) := Choose(sim, m, pool, accepted, discarded);
      if !Diverse(sim, x, accepted) {
        ChooseCovers(sim, m, pool[1..], accepted, discarded + [x.index]);
        assert d[|discarded|] == x.index;
      } else if |accepted| + 1 < m {
        ChooseCovers(sim, m, pool[1..], accepted + [x.index], discarded);
        assert a[|accepted|] == x.index;
      }
    }
  }

  /** Why each was accepted or discarded: an accepted slot is closer to the base than to each of the
      first sixteen accepted before it, a discarded one is not. */
  ghost predicate Justified(sim: Similarity, pool: seq<Scored>, a: seq<nat>, d: seq<nat>) {
    && (forall i :: 0 <= i < |a| ==> AcceptedAfter(sim, pool, a[i], a[..i]))
    && (forall i :: 0 <= i < |d| ==> DiscardedBy(sim, pool, d[i], a))
  }

  lemma DiversePrefix(sim: Similarity, x: Scored, a: seq<nat>, b: seq<nat>)
    requires a <= b && Diverse(sim, x, b)
    ensures Diverse(sim, x, a)
  {
    assert forall j :: 0 <= j < |a| ==> a[j] == b[j];
  }

  lemma JustifiedAccept(sim: Similarity, all: seq<Scored>, a: seq<nat>, d: seq<nat>, x: Scored)
    requires Justified(sim, all, a, d) && x in all && Diverse(sim, x, a)
    ensures Justified(sim, all, a + [x.index], d)
  {
    var b := a + [x.index];
    forall i | 0 <= i < |b| ensures AcceptedAfter(sim, all, b[i], b[..i]) {
      assert b[..i] == if i < |a| then a[..i] else a;
    }
    forall i | 0 <= i < |d| ensures DiscardedBy(sim, all, d[i], b) {
      assert DiscardedBy(sim, all, d[i], a);
      var y :| y in all && y.index == d[i] && !Diverse(sim, y, a);
      if Diverse(sim, y, b) { DiversePrefix(sim, y, a, b); }
    }
  }

  lemma {:induction false} ChooseJustified(sim: Similarity, m: nat, all: seq<Scored>, pool: seq<Scored>,
                                           accepted: seq<nat>, discarded: seq<nat>)
    requires Justified(sim, all, accepted, discarded) && forall x :: x in pool ==> x in all
    ensures var (a, d) := Choose(sim, m, pool, accepted, discarded); Justified(sim, all, a, d)
    decreases |pool|
  {
    if pool != [] {
      var x := pool[0];
      if !Diverse(sim, x, accepted) {
        ChooseJustified(sim, m, all, pool[1..], accepted, discarded + [x.index]);
      } else {
        JustifiedAccept(sim, all, accepted, discarded, x);
        if |accepted| + 1 < m { ChooseJustified(sim, m, all, pool[1..], accepted + [x.index], discarded); }
      }
    }
  }

  lemma {:induction false} FillFacts(m: nat, a: seq<nat>, d: seq<nat>)
    requires Distinct(a) && Distinct(d) && Disjoint(a, d)
    ensures var r := Fill(m, a, d);
      && Distinct(r) && a <= r && (forall i :: i in r ==> i in a || i in d)
      && |r| == if |a| >= m then |a| else Min(m, |a| + |d|)
    decreases |d|
  {
    if |a| < m && d != [] {
      assert d[0] !in a;
      FillFacts(m, a + [d[0]], d[1..]);
    }
  }

  // ---- the whole selection ---------------------------------------------------------------------

  /** The shortlist is the front of the stably sorted pool. */
  lemma ShortlistFacts(m: nat, pool: seq<Scored>)
    requires OncePerSlot(pool)
    ensures var s := Shortlist(m, pool);
      && OncePerSlot(s) && |s| == Min(2 * m, |pool|) && Descending(s)
      && (forall x :: x in s ==> x in pool)
      && (forall x, y :: x in s && y in pool && y !in s ==> x.score >= y.score)
  {
    var all := SortStable(pool);
    SortStableFacts(pool);
    assert |all| == |multiset(all)| == |multiset(pool)| == |pool|;
    OncePerSlotPermutation(pool, all);
    FrontFacts(pool, all, Min(2 * m, |all|));
  }

  lemma FrontFacts(pool: seq<Scored>, all: seq<Scored>, n: nat)
    requires Descending(all) && multiset(all) == multiset(pool) && n <= |all|
    ensures var s := all[..n];
      && Descending(s)
      && (forall x :: x in s ==> x in pool)
      && (forall x, y :: x in s && y in pool && y !in s ==> x.score >= y.score)
  {
    var s := all[..n];
    assert forall k :: 0 <= k < n ==> all[k] in s;
    forall x | x in s ensures x in pool { assert x in multiset(all); }
    forall x, y | x in s && y in pool && y !in s ensures x.score >= y.score {
      assert y in multiset(all);
      var i, j :| 0 <= i < n && all[i] == x && 0 <= j < |all| && all[j] == y;
    }
  }

  lemma PoolFacts(sim: Similarity, base: nat, conns: nat -> seq<nat>, cands: seq<Scored>, m: nat, extend: bool)
    requires OncePerSlot(cands)
    ensures Grows(cands, Pool(sim, base, conns, cands, m, extend))
  {
    if extend { ExtendFacts(sim, base, conns, Indices(cands)[..Min(m, |cands|)], cands); }
  }

  /** The selected slots are distinct, come from the pool, and number at most `m`, exactly
      `min(m, |pool|)` when pruned connections are kept. */
  lemma SelectedFacts(sim: Similarity, base: nat, conns: nat -> seq<nat>, cands: seq<Scored>, m: nat, extend: bool,
                      keep: bool)
    requires OncePerSlot(cands)
    ensures var pool, r := Pool(sim, base, conns, cands, m, extend), Selected(sim, base, conns, cands, m, extend, keep);
      && Distinct(r) && |r| <= Min(m, |pool|)
      && (forall i :: i in r ==> Names(pool, i))
      && (keep ==> |r| == Min(m, |pool|))
  {
    var pool := Pool(sim, base, conns, cands, m, extend);
    PoolFacts(sim, base, conns, cands, m, extend);
    if |cands| <= m && !extend {
      forall i | i in Indices(cands) ensures Names(pool, i) {
        var j :| 0 <= j < |cands| && cands[j].index == i;
        assert cands[j] in pool;
      }
    } else {
      var s := Shortlist(m, pool);
      ShortlistFacts(m, pool);
      ChooseFacts(sim, m, s, [], []);
      var (a, d) := Choose(sim, m, s, [], []);
      FillFacts(m, a, d);
    }
  }

  /** How a selection is made up: first accepted slots, each closer to the base than to each of the
      first sixteen before it; then, only if pruned connections are kept, discarded ones, each at least
      as close to one of the first sixteen accepted as to the base. With fewer than `m` accepted, every
      slot of the shortlist was judged. */
  ghost predicate MadeUp(sim: Similarity, m: nat, keep: bool, s: seq<Scored>, r: seq<nat>, accepted: nat) {
    && accepted <= |r| && (!keep ==> accepted == |r|)
    && (forall i :: 0 <= i < accepted ==> AcceptedAfter(sim, s, r[i], r[..i]))
    && (forall i :: accepted <= i < |r| ==> DiscardedBy(sim, s, r[i], r[..accepted]))
    && (accepted < m ==> forall x :: x in s ==> x.index in r[..accepted] || DiscardedBy(sim, s, x.index, r[..accepted]))
  }

  lemma ChosenMadeUp(sim: Similarity, m: nat, keep: bool, s: seq<Scored>, a: seq<nat>, d: seq<nat>, r: seq<nat>)
    requires Justified(sim, s, a, d) && a <= r && (!keep ==> r == a)
    requires Distinct(r) && forall i :: i in r ==> i in a || i in d
    requires |a| < m ==> forall x :: x in s ==> x.index in a || x.index in d
    ensures MadeUp(sim, m, keep, s, r, |a|)
  {
    assert r[..|a|] == a;
    forall i | 0 <= i < |a| ensures AcceptedAfter(sim, s, r[i], r[..i]) { assert r[..i] == a[..i]; }
    forall i | i in d ensures DiscardedBy(sim, s, i, a) {
      var j :| 0 <= j < |d| && d[j] == i;
    }
    forall i | |a| <= i < |r| ensures r[i] in d { assert r[i] in r; }
  }

  lemma PickedMadeUp(sim: Similarity, m: nat, keep: bool, s: seq<Scored>)
    requires OncePerSlot(s) && (m > 0 || s == [])
    ensures exists accepted: nat :: MadeUp(sim, m, keep, s, Picked(sim, m, keep, s), accepted)
  {
    ChooseFacts(sim, m, s, [], []);
    ChooseCovers(sim, m, s, [], []);
    ChooseJustified(sim, m, s, s, [], []);
    var (a, d) := Choose(sim, m, s, [], []);
    FillFacts(m, a, d);
    ChosenMadeUp(sim, m, keep, s, a, d, Picked(sim, m, keep, s));
  }

  lemma SelectedIsDiverse(sim: Similarity, base: nat, conns: nat -> seq<nat>, cands: seq<Scored>, m: nat,
                          extend: bool, keep: bool)
    requires OncePerSlot(cands) && (|cands| > m || extend)
    ensures exists accepted: nat :: MadeUp(sim, m, keep, Shortlist(m, Pool(sim, base, conns, cands, m, extend)),
                                      Selected(sim, base, conns, cands, m, extend, keep), accepted)
  {
    var pool := Pool(sim, base, conns, cands, m, extend);
    PoolFacts(sim, base, conns, cands, m, extend);
    var s := Shortlist(m, pool);
    ShortlistFacts(m, pool);
    PickedMadeUp(sim, m, keep, s);
    var accepted: nat :| MadeUp(sim, m, keep, s, Picked(sim, m, keep, s), accepted);
    assert MadeUp(sim, m, keep, s, Selected(sim, base, conns, cands, m, extend, keep), accepted);
  }

  // ---- the greedy order ------------------------------------------------------------------------

  /** More similar to the base than to each of the first sixteen of `before`. */
  predicate Closer(sim: Similarity, x: Scored, before: seq<nat>) {
    forall j :: 0 <= j < |before| && j < 16 ==> sim(x.index, before[j]) < x.score
  }

  predicate Increasing(ps: seq<nat>) { forall i, j :: 0 <= i < j < |ps| ==> ps[i] < ps[j] }

  /** The shortlisted entry `q` was turned down for one accepted before it. */
  ghost predicate TurnedDown(sim: Similarity, s: seq<Scored>, a: seq<nat>, ps: seq<nat>, q: nat)
    requires q < |s| && |ps| == |a|
  {
    exists i :: 0 <= i <= |a| && (forall j :: 0 <= j < |ps| ==> (j < i <==> ps[j] < q)) && !Closer(sim, s[q], a[..i])
  }

  /** The first `k` of the shortlist judged in order: accepted the ones at `ps`, each diverse among those
      accepted before it; turned down the ones at `qs`. */
  ghost predicate Judged(sim: Similarity, s: seq<Scored>, k: nat, a: seq<nat>, d: seq<nat>, ps: seq<nat>, qs: seq<nat>)
    requires k <= |s|
  {
    && |ps| == |a| && |qs| == |d| && Increasing(ps) && Increasing(qs)
    && (forall i :: 0 <= i < |ps| ==> ps[i] < k && a[i] == s[ps[i]].index && Closer(sim, s[ps[i]], a[..i]))
    && (forall i :: 0 <= i < |qs| ==> qs[i] < k && d[i] == s[qs[i]].index && TurnedDown(sim, s, a, ps, qs[i]))
    && (forall p: nat :: p < k ==> p in ps || p in qs)
  }

  lemma JudgedAccept(sim: Similarity, s: seq<Scored>, k: nat, a: seq<nat>, d: seq<nat>, ps: seq<nat>, qs: seq<nat>)
    requires k < |s| && Judged(sim, s, k, a, d, ps, qs) && Closer(sim, s[k], a)
    ensures Judged(sim, s, k + 1, a + [s[k].index], d, ps + [k], qs)
  {
    var a', ps' := a + [s[k].index], ps + [k];
    forall i | 0 <= i < |ps'| ensures Closer(sim, s[ps'[i]], a'[..i]) {
      assert a'[..i] == if i < |a| then a[..i] else a;
    }
    forall i | 0 <= i < |qs| ensures TurnedDown(sim, s, a', ps', qs[i]) {
      assert TurnedDown(sim, s, a, ps, qs[i]);
      var n :| 0 <= n <= |a| && (forall j :: 0 <= j < |ps| ==> (j < n <==> ps[j] < qs[i]))
        && !Closer(sim, s[qs[i]], a[..n]);
      assert a'[..n] == a[..n];
    }
    forall p: nat | p < k + 1 ensures p in ps' || p in qs { if p == k { assert ps'[|ps|] == k; } }
  }

  lemma JudgedDecline(sim: Similarity, s: seq<Scored>, k: nat, a: seq<nat>, d: seq<nat>, ps: seq<nat>, qs: seq<nat>)
    requires k < |s| && Judged(sim, s, k, a, d, ps, qs) && !Closer(sim, s[k], a)
    ensures Judged(sim, s, k + 1, a, d + [s[k].index], ps, qs + [k])
  {
    var qs' := qs + [k];
    assert a[..|a|] == a;
    assert TurnedDown(sim, s, a, ps, k);
    forall p: nat | p < k + 1 ensures p in ps || p in qs' { if p == k { assert qs'[|qs|] == k; } }
  }

  /** The accept loop judges the shortlist in order, to its end unless `m` are accepted before. */
  lemma {:induction false} ChooseJudges(sim: Similarity, m: nat, s: seq<Scored>, k: nat, a: seq<nat>, d: seq<nat>,
                                        ps: seq<nat>, qs: seq<nat>)
      returns (k': nat, ps': seq<nat>, qs': seq<nat>)
    requires k <= |s| && Judged(sim, s, k, a, d, ps, qs) && (|a| < m || k == |s|)
    ensures k' <= |s| && var (a', d') := Choose(sim, m, s[k..], a, d);
      Judged(sim, s, k', a', d', ps', qs') && (|a'| < m ==> k' == |s|) && |a'| <= Max(m, |a|)
    decreases |s| - k
  {
    k', ps', qs' := k, ps, qs;
    if k < |s| {
      assert s[k..][0] == s[k] && s[k..][1..] == s[k + 1..];
      assert Diverse(sim, s[k], a) <==> Closer(sim, s[k], a);
      if !Closer(sim, s[k], a) {
        JudgedDecline(sim, s, k, a, d, ps, qs);
        k', ps', qs' := ChooseJudges(sim, m, s, k + 1, a, d + [s[k].index], ps, qs + [k]);
      } else {
        JudgedAccept(sim, s, k, a, d, ps, qs);
        if |a| + 1 >= m {
          k', ps', qs' := k + 1, ps + [k], qs;
        } else {
          k', ps', qs' := ChooseJudges(sim, m, s, k + 1, a + [s[k].index], d, ps + [k], qs);
        }
      }
    }
  }

  lemma {:induction false} FillIs(m: nat, a: seq<nat>, d: seq<nat>)
    requires Distinct(a) && Distinct(d) && Disjoint(a, d) && |a| <= m
    ensures Fill(m, a, d) == a + d[..Min(m - |a|, |d|)]
    decreases |d|
  {
    if |a| < m && d != [] {
      assert d[0] !in a;
      FillIs(m, a + [d[0]], d[1..]);
      var n := Min(m - |a|, |d|);
      assert d[..n] == [d[0]] + d[1..][..n - 1];
    }
  }

  /** The greedy choice of up to `m` from a shortlist, exactly: judged in order, the accepted ones first,
      then, if they are kept, the first ones turned down, as many as there is room for. */
  ghost predicate Greedy(sim: Similarity, m: nat, keep: bool, s: seq<Scored>, r: seq<nat>) {
    exists k: nat, a: seq<nat>, d: seq<nat>, ps: seq<nat>, qs: seq<nat> {:trigger Judged(sim, s, k, a, d, ps, qs)} ::
      && k <= |s| && Judged(sim, s, k, a, d, ps, qs) && |a| <= m && (|a| < m ==> k == |s|)
      && r == a + if keep then d[..Min(m - |a|, |d|)] else []
  }

  lemma ChosenJudged(sim: Similarity, m: nat, s: seq<Scored>, a: seq<nat>, d: seq<nat>)
      returns (k: nat, ps: seq<nat>, qs: seq<nat>)
    requires (m > 0 || s == []) && (a, d) == Choose(sim, m, s, [], [])
    ensures k <= |s| && Judged(sim, s, k, a, d, ps, qs) && (|a| < m ==> k == |s|) && |a| <= m
  {
    assert s[0..] == s;
    k, ps, qs := ChooseJudges(sim, m, s, 0, [], [], [], []);
  }

  lemma PickedIs(sim: Similarity, m: nat, keep: bool, s: seq<Scored>, a: seq<nat>, d: seq<nat>)
    requires OncePerSlot(s) && (m > 0 || s == []) && (a, d) == Choose(sim, m, s, [], []) && |a| <= m
    ensures Picked(sim, m, keep, s) == a + if keep then d[..Min(m - |a|, |d|)] else []
  {
    ChooseFacts(sim, m, s, [], []);
    FillIs(m, a, d);
  }

  lemma PickedIsGreedy(sim: Similarity, m: nat, keep: bool, s: seq<Scored>)
    requires OncePerSlot(s) && (m > 0 || s == [])
    ensures Greedy(sim, m, keep, s, Picked(sim, m, keep, s))
  {
    var (a, d) := Choose(sim, m, s, [], []);
    var k, ps, qs := ChosenJudged(sim, m, s, a, d);
    PickedIs(sim, m, keep, s, a, d);
    IsGreedy(sim, m, keep, s, k, a, d, ps, qs);
  }

  lemma IsGreedy(sim: Similarity, m: nat, keep: bool, s: seq<Scored>, k: nat, a: seq<nat>, d: seq<nat>, ps: seq<nat>,
                 qs: seq<nat>)
    requires k <= |s| && Judged(sim, s, k, a, d, ps, qs) && |a| <= m && (|a| < m ==> k == |s|)
    ensures Greedy(sim, m, keep, s, a + if keep then d[..Min(m - |a|, |d|)] else [])
  {
  }

  /** `select_neighbors_heuristic` makes the greedy choice from the best `2 m` of its pool. */
  lemma SelectedIsGreedy(sim: Similarity, base: nat, conns: nat -> seq<nat>, cands: seq<Scored>, m: nat,
                         extend: bool, keep: bool)
    requires OncePerSlot(cands) && (|cands| > m || extend)
    ensures Greedy(sim, m, keep, Shortlist(m, Pool(sim, base, conns, cands, m, extend)),
                   Selected(sim, base, conns, cands, m, extend, keep))
  {
    var pool := Pool(sim, base, conns, cands, m, extend);
    PoolFacts(sim, base, conns, cands, m, extend);
    ShortlistFacts(m, pool);
    PickedIsGreedy(sim, m, keep, Shortlist(m, pool));
  }

  // ---- the selection as it runs ----------------------------------------------------------------

  /** The pool is marked in a visited set, and slots are added as they are met. */
  method ExtendPool(sim: Similarity, base: nat, conns: nat -> seq<nat>, cands: seq<Scored>,
                    m: nat) returns (pool: seq<Scored>)
    ensures pool == Pool(sim, base, conns, cands, m, true)
  {
    var visited: set<nat> := {};
    for i := 0 to |cands|
      invariant forall n :: n in visited <==> Names(cands[..i], n)
    {
      NamesSnoc(cands[..i], cands[i]);
      assert cands[..i + 1] == cands[..i] + [cands[i]];
      visited := visited + {cands[i].index};
    }
    assert cands[..|cands|] == cands;
    ghost var from := Indices(cands)[..Min(m, |cands|)];
    pool := cands;
    for i := 0 to Min(m, |cands|)
      invariant forall n :: n in visited <==> Names(pool, n)
      invariant Extend(sim, base, conns, from[i..], pool) == Extend(sim, base, conns, from, cands)
    {
      assert from[i..][0] == cands[i].index && from[i..][1..] == from[i + 1..];
      pool, visited := AddConnections(sim, base, conns(cands[i].index), pool, visited);
    }
  }

  method AddConnections(sim: Similarity, base: nat, ns: seq<nat>, pool0: seq<Scored>, visited0: set<nat>)
      returns (pool: seq<Scored>, visited: set<nat>)
    requires forall n :: n in visited0 <==> Names(pool0, n)
    ensures pool == AddUnseen(sim, base, ns, pool0) && forall n :: n in visited <==> Names(pool, n)
  {
    pool, visited := pool0, visited0;
    for i := 0 to |ns|
      invariant forall n :: n in visited <==> Names(pool, n)
      invariant AddUnseen(sim, base, ns[i..], pool) == AddUnseen(sim, base, ns, pool0)
    {
      assert ns[i..][1..] == ns[i + 1..];
      if ns[i] !in visited {
        NamesSnoc(pool, Scored(ns[i], sim(base, ns[i])));
        visited := visited + {ns[i]};
        pool := pool + [Scored(ns[i], sim(base, ns[i]))];
      }
    }
  }

  lemma NamesSnoc(s: seq<Scored>, x: Scored)
    ensures forall n :: Names(s + [x], n) <==> Names(s, n) || n == x.index
  {
    assert x in s + [x];
    forall n | Names(s, n) ensures Names(s + [x], n) {
      var y :| y in s && y.index == n;
      assert y in s + [x];
    }
  }

  method IsDiverse(sim: Similarity, x: Scored, selected: seq<nat>) returns (diverse: bool)
    ensures diverse == Diverse(sim, x, selected)
  {
    for j := 0 to Min(COMPARED, |selected|)
      invariant forall i :: 0 <= i < j ==> sim(x.index, selected[i]) < x.score
    {
      if sim(x.index, selected[j]) >= x.score { return false; }
    }
    return true;
  }

  /** The accept loop and the fill loop over a shortlist. */
  method Pick(sim: Similarity, m: nat, keep: bool, s: seq<Scored>) returns (selected: seq<nat>)
    ensures selected == Picked(sim, m, keep, s)
  {
    selected := [];
    var discarded := [];
    ghost var d := [];
    var i := 0;
    while i < |s|
      invariant i <= |s| && (keep ==> discarded == d)
      invariant Choose(sim, m, s[i..], selected, d) == Choose(sim, m, s, [], [])
      decreases |s| - i
    {
      var x := s[i];
      assert s[i..][1..] == s[i + 1..];
      var diverse := IsDiverse(sim, x, selected);
      if diverse {
        selected := selected + [x.index];
        if |selected| >= m { break; }
      } else {
        if keep { discarded := discarded + [x.index]; }
        d := d + [x.index];
      }
      i := i + 1;
    }
    assert (selected, d) == Choose(sim, m, s, [], []);
    if keep && |selected| < m { selected := TopUp(m, selected, discarded); }
  }

  method TopUp(m: nat, selected0: seq<nat>, discarded: seq<nat>) returns (selected: seq<nat>)
    requires |selected0| < m
    ensures selected == Fill(m, selected0, discarded)
  {
    selected := selected0;
    for i := 0 to |discarded|
      invariant |selected| < m
      invariant Fill(m, selected, discarded[i..]) == Fill(m, selected0, discarded)
    {
      assert discarded[i..][1..] == discarded[i + 1..];
      if discarded[i] !in selected {
        selected := selected + [discarded[i]];
        if |selected| >= m { return; }
      }
    }
  }

  method SelectNeighbours(sim: Similarity, base: nat, conns: nat -> seq<nat>, cands: seq<Scored>, m: nat,
                          extend: bool, keep: bool)
      returns (selected: seq<nat>)
    ensures selected == Selected(sim, base, conns, cands, m, extend, keep)
  {
    if |cands| <= m && !extend { return Indices(cands); }
    var pool := cands;
    if extend { pool := ExtendPool(sim, base, conns, cands, m); }
    pool := SortStable(pool);
    assert pool[..|pool|] == pool;
    if |pool| > 2 * m { pool := pool[..2 * m]; }
    selected := Pick(sim, m, keep, pool);
  }
}
