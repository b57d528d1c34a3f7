/** The other half of a graph insertion: which neighbours link back to the new node, what a full list gives
    up for it, and that nothing else changes. */
module BackLinks {
  import opened Basics
  import opened Ranking
  import opened WitnessLists
  import opened Neighbours
  import opened Wiring

  // ---- what a full list keeps ------------------------------------------------------------------

  /** The best `cap` of `list` by similarity to `x`, best first. */
  ghost predicate KeepsBest(sim: Similarity, x: nat, cap: nat, list: seq<nat>, r: seq<nat>) {
    && |r| == cap && Distinct(r) && (forall y :: y in r ==> y in list)
    && (forall i, j :: 0 <= i < j < |r| ==> sim(x, r[i]) >= sim(x, r[j]))
    && (forall y, z :: y in r && z in list && z !in r ==> sim(x, y) >= sim(x, z))
  }

  /** `s` lists the slots of `list` with their similarity to `x`, most similar first. */
  ghost predicate Sorts(sim: Similarity, x: nat, list: seq<nat>, s: seq<Scored>) {
    && Descending(s) && OncePerSlot(s) && |s| == |list|
    && (forall y :: y in s ==> y.index in list && y.score == sim(x, y.index))
    && (forall i :: i in list ==> Names(s, i))
  }

  /** The greedy diverse part of `list`, judged in order of similarity to `x`; `cap` of it if those turned down
      are kept. */
  ghost predicate KeepsDiverse(sim: Similarity, x: nat, cap: nat, keep: bool, list: seq<nat>, r: seq<nat>) {
    && Distinct(r) && |r| <= cap && (forall y :: y in r ==> y in list) && (keep ==> |r| == cap)
    && (cap > 0 ==> exists s: seq<Scored> :: Sorts(sim, x, list, s) && Greedy(sim, cap, keep, s, r))
  }

  /** What became of the list `was` of `x` when `node` asked to be on it. With room it is appended; a full
      list is pruned, and without the diversity heuristic `node` gets on it exactly when it is more similar
      to `x` than one of them. */
  ghost predicate LinkedBack(c: Config, sim: Similarity, x: nat, level: nat, was: seq<nat>, node: nat, now: seq<nat>) {
    if |was| < Cap(c, level) then now == was + [node]
    else if c.heuristic && level == 0 then KeepsDiverse(sim, x, Cap(c, level), c.keep, was + [node], now)
    else
      && KeepsBest(sim, x, Cap(c, level), was + [node], now)
      && (node in now <==> exists y :: y in was && sim(x, y) < sim(x, node))
  }

  lemma MeasuredIs(sim: Similarity, x: nat, list: seq<nat>)
    requires Distinct(list)
    ensures Sorts(sim, x, list, SortStable(Measured(sim, x, list)))
  {
    var m := Measured(sim, x, list);
    var s := SortStable(m);
    MeasuredFacts(sim, x, list);
    SortStableFacts(m);
    OncePerSlotPermutation(m, s);
    assert |s| == |multiset(s)| == |multiset(m)| == |m|;
    forall y | y in s ensures y.index in list && y.score == sim(x, y.index) { assert y in multiset(m); }
    forall i | i in list ensures Names(s, i) {
      var j :| 0 <= j < |list| && list[j] == i;
      assert m[j] in multiset(s);
    }
  }

  lemma FrontKeepsBest(sim: Similarity, x: nat, cap: nat, list: seq<nat>, s: seq<Scored>)
    requires Sorts(sim, x, list, s) && cap <= |list|
    ensures KeepsBest(sim, x, cap, list, Front(s, cap))
  {
    var r := Front(s, cap);
    assert |r| == cap && forall i :: 0 <= i < cap ==> r[i] == s[i].index && s[i] in s;
    forall y, z | y in r && z in list && z !in r ensures sim(x, y) >= sim(x, z) {
      var i :| 0 <= i < cap && s[i].index == y;
      assert Names(s, z);
      var t :| t in s && t.index == z;
      var j :| 0 <= j < |s| && s[j] == t;
    }
  }

  // ---- the newcomer in a stable sort -----------------------------------------------------------

  lemma {:induction false} InsertBefore(x: Scored, a: seq<Scored>, b: seq<Scored>)
    requires b != [] && b[0].score <= x.score
    ensures InsertStable(x, a + b) == InsertStable(x, a) + b
  {
    if a == [] || a[0].score <= x.score {
      assert a == [] ==> a + b == b;
      assert [x] + (a + b) == ([x] + a) + b;
    } else {
      assert (a + b)[1..] == a[1..] + b;
      InsertBefore(x, a[1..], b);
      assert [a[0]] + (InsertStable(x, a[1..]) + b) == ([a[0]] + InsertStable(x, a[1..])) + b;
    }
  }

  lemma {:induction false} InsertAfter(x: Scored, a: seq<Scored>, b: seq<Scored>)
    requires forall y :: y in a ==> y.score > x.score
    ensures InsertStable(x, a + b) == a + InsertStable(x, b)
  {
    if a == [] {
      assert a + b == b && [] + InsertStable(x, b) == InsertStable(x, b);
    } else {
      assert (a + b)[1..] == a[1..] + b;
      assert a[0] in a;
      InsertAfter(x, a[1..], b);
      assert [a[0]] + (a[1..] + InsertStable(x, b)) == a + InsertStable(x, b);
    }
  }

  /** An entry appended last is sorted behind all that score at least as much. */
  lemma {:induction false} SortLast(s: seq<Scored>, x: Scored) returns (a: seq<Scored>, b: seq<Scored>)
    ensures SortStable(s + [x]) == a + [x] + b && multiset(a) + multiset(b) == multiset(s)
    ensures (forall y :: y in a ==> y.score >= x.score) && forall y :: y in b ==> y.score < x.score
    decreases |s|
  {
    if s == [] {
      a, b := [], [];
      assert s + [x] == [x] && [x][1..] == [];
    } else {
      var h, t := s[0], s[1..];
      assert (s + [x])[1..] == t + [x] && s == [h] + t;
      var a', b' := SortLast(t, x);
      if h.score >= x.score {
        a, b := InsertStable(h, a'), b';
        assert a' + [x] + b' == a' + ([x] + b') && a + [x] + b == a + ([x] + b);
        InsertBefore(h, a', [x] + b');
        InsertStablePermutes(h, a');
        forall y | y in a ensures y.score >= x.score { assert y in multiset(a); }
      } else {
        a, b := a', InsertStable(h, b');
        forall y | y in a' + [x] ensures y.score > h.score {}
        InsertAfter(h, a' + [x], b');
        InsertStablePermutes(h, b');
        forall y | y in b ensures y.score < x.score { assert y in multiset(b); }
      }
    }
  }

  lemma MeasuredSnoc(sim: Similarity, x: nat, was: seq<nat>, node: nat)
    ensures Measured(sim, x, was + [node]) == Measured(sim, x, was) + [Scored(node, sim(x, node))]
  {
  }

  /** The newcomer is among the first `|was|` exactly when it beats one of them. */
  lemma NewcomerKept(sim: Similarity, x: nat, was: seq<nat>, node: nat)
    requires Distinct(was + [node])
    ensures var r := Front(SortStable(Measured(sim, x, was + [node])), |was|);
      node in r <==> exists y :: y in was && sim(x, y) < sim(x, node)
  {
    var m, last := Measured(sim, x, was), Scored(node, sim(x, node));
    MeasuredSnoc(sim, x, was, node);
    var a, b := SortLast(m, last);
    assert |a| + |b| == |multiset(a) + multiset(b)| == |multiset(m)| == |was|;
    MeasuredIs(sim, x, was + [node]);
    NewcomerPlaced(a, b, last);
    if b != [] {
      assert b[0] in multiset(a) + multiset(b);
      assert b[0] in multiset(m);
      var j :| 0 <= j < |m| && m[j] == b[0];
      assert was[j] in was && sim(x, was[j]) < sim(x, node);
    } else {
      assert multiset(a) == multiset(m);
      forall y | y in was ensures sim(x, y) >= sim(x, node) {
        var j :| 0 <= j < |was| && was[j] == y;
        assert m[j] in multiset(m);
        assert m[j] in a;
      }
    }
  }

  lemma NewcomerPlaced(a: seq<Scored>, b: seq<Scored>, x: Scored)
    requires OncePerSlot(a + [x] + b)
    ensures x.index in Front(a + [x] + b, |a| + |b|) <==> b != []
  {
    var s := a + [x] + b;
    assert s[|a|] == x;
    if b != [] { assert Front(s, |a| + |b|)[|a|] == x.index; }
  }

  // ---- one edge --------------------------------------------------------------------------------

  lemma PrunedKeeps(c: Config, sim: Similarity, n: Net, x: nat, level: nat, was: seq<nat>, node: nat)
    requires Distinct(was + [node]) && |was| == Cap(c, level)
    ensures LinkedBack(c, sim, x, level, was, node, Pruned(c, sim, n, x, level, was + [node]))
  {
    var list, cap := was + [node], Cap(c, level);
    var cands := Measured(sim, x, list);
    MeasuredFacts(sim, x, list);
    MeasuredIs(sim, x, list);
    PrunedFine(c, sim, n, x, level, list);
    if c.heuristic && level == 0 {
      SelectedFacts(sim, x, LiveConns(n, level), cands, cap, false, c.keep);
      SelectedIsGreedy(sim, x, LiveConns(n, level), cands, cap, false, c.keep);
      var s := SortStable(cands);
      if cap > 0 { assert Shortlist(cap, cands) == s; }
    } else {
      FrontKeepsBest(sim, x, cap, list, SortStable(cands));
      NewcomerKept(sim, x, was, node);
    }
  }

  /** What wiring `xs` to `node` on one level does to a list of another slot. */
  ghost predicate Rewired(c: Config, sim: Similarity, n: Net, r: Net, node: nat, level: nat, xs: seq<nat>) {
    && |r.nodes| == |n.nodes| && r.live == n.live
    && (forall i: nat, l: nat :: Has(r, i, l) <==> Has(n, i, l))
    && forall i: nat, l: nat :: Has(n, i, l) && i != node ==>
         if l == level && i in xs && i in n.live then LinkedBack(c, sim, i, l, n.nodes[i][l], node, r.nodes[i][l])
         else r.nodes[i][l] == n.nodes[i][l]
  }

  /** One edge: a live neighbour links back, every other list stays. */
  lemma WireLinks(c: Config, sim: Similarity, n: Net, node: nat, level: nat, x: nat)
    requires Inv(c, n) && Has(n, node, level) && x < |n.nodes| && x != node && node !in Conns(n, x, level)
    ensures Rewired(c, sim, n, Wire(c, sim, n, node, level, x), node, level, [x])
  {
    var n1, r := AddConn(n, node, level, x), Wire(c, sim, n, node, level, x);
    if x in n.live && Has(n, x, level) {
      var was := n.nodes[x][level];
      assert Fine(c, |n.nodes|, level, was);
      assert Conns(n1, x, level) == was;
      var n2 := AddConn(n1, x, level, node);
      assert Conns(n2, x, level) == was + [node];
      if |was| == Cap(c, level) { PrunedKeeps(c, sim, n2, x, level, was, node); }
    }
  }

  // ---- a level and an insertion ----------------------------------------------------------------

  /** No list of a slot to be linked names `node` on the level. */
  ghost predicate Unnamed(n: Net, node: nat, level: nat) {
    forall i: nat :: Has(n, i, level) && i != node ==> node !in n.nodes[i][level]
  }

  lemma RewiredOnce(c: Config, sim: Similarity, n: Net, m: Net, r: Net, node: nat, level: nat, xs: seq<nat>)
    requires xs != [] && Distinct(xs)
    requires Rewired(c, sim, n, m, node, level, [xs[0]]) && Rewired(c, sim, m, r, node, level, xs[1..])
    ensures Rewired(c, sim, n, r, node, level, xs)
  {
    assert xs[0] !in xs[1..] && forall i :: i in xs <==> i == xs[0] || i in xs[1..];
    forall i: nat, l: nat | Has(n, i, l) && i != node
      ensures if l == level && i in xs && i in n.live then LinkedBack(c, sim, i, l, n.nodes[i][l], node, r.nodes[i][l])
              else r.nodes[i][l] == n.nodes[i][l]
    {
      assert Has(m, i, l);
    }
  }

  lemma StillUnnamed(c: Config, sim: Similarity, n: Net, m: Net, node: nat, level: nat, x: nat, y: nat)
    requires Rewired(c, sim, n, m, node, level, [x]) && x != y && y != node && node !in Conns(n, y, level)
    ensures node !in Conns(m, y, level)
  {
    assert Has(m, y, level) <==> Has(n, y, level);
  }

  /** Wiring a whole level: exactly the live ones of `xs` that have the level link back. */
  lemma {:induction false} LevelLinks(c: Config, sim: Similarity, n: Net, node: nat, level: nat, xs: seq<nat>)
    requires Inv(c, n) && Has(n, node, level) && Linkable(c, |n.nodes|, node, level, n.nodes[node][level] + xs)
    requires forall x :: x in xs ==> node !in Conns(n, x, level)
    ensures Rewired(c, sim, n, WireAll(c, sim, n, node, level, xs), node, level, xs)
    decreases |xs|
  {
    if xs != [] {
      var list, x := n.nodes[node][level], xs[0];
      var all := list + xs;
      assert all[|list|] == x && all[..|list|] == list && x in all && all[|list|..] == xs;
      assert Distinct(xs);
      var m := Wire(c, sim, n, node, level, x);
      assert x in xs;
      WireKeeps(c, sim, n, node, level, x);
      WireLinks(c, sim, n, node, level, x);
      assert (list + [x]) + xs[1..] == all;
      forall y | y in xs[1..] ensures node !in Conns(m, y, level) {
        assert y in all && y in xs && x !in xs[1..];
        StillUnnamed(c, sim, n, m, node, level, x, y);
      }
      LevelLinks(c, sim, m, node, level, xs[1..]);
      RewiredOnce(c, sim, n, m, WireAll(c, sim, m, node, level, xs[1..]), node, level, xs);
    }
  }

  /** What wiring the levels below `level` does to the lists of the other slots. */
  ghost predicate RewiredBelow(c: Config, sim: Similarity, n: Net, r: Net, node: nat, chosen: seq<seq<nat>>, level: nat)
    requires level <= |chosen|
  {
    && |r.nodes| == |n.nodes| && r.live == n.live
    && (forall i: nat, l: nat :: Has(r, i, l) <==> Has(n, i, l))
    && forall i: nat, l: nat :: Has(n, i, l) && i != node ==>
         if l < level && i in chosen[l] && i in n.live then
           LinkedBack(c, sim, i, l, n.nodes[i][l], node, r.nodes[i][l])
         else r.nodes[i][l] == n.nodes[i][l]
  }

  lemma RewiredNext(c: Config, sim: Similarity, n: Net, m: Net, r: Net, node: nat, chosen: seq<seq<nat>>, level: nat)
    requires level < |chosen|
    requires Rewired(c, sim, n, m, node, level, chosen[level]) && RewiredBelow(c, sim, m, r, node, chosen, level)
    ensures RewiredBelow(c, sim, n, r, node, chosen, level + 1)
  {
    forall i: nat, l: nat | Has(n, i, l) && i != node
      ensures if l < level + 1 && i in chosen[l] && i in n.live then
                LinkedBack(c, sim, i, l, n.nodes[i][l], node, r.nodes[i][l])
              else r.nodes[i][l] == n.nodes[i][l]
    {
      assert Has(m, i, l);
    }
  }

  lemma StillUnnamedBelow(c: Config, sim: Similarity, n: Net, m: Net, node: nat, level: nat, xs: seq<nat>, l: nat)
    requires Rewired(c, sim, n, m, node, level, xs) && l != level && Unnamed(n, node, l)
    ensures Unnamed(m, node, l)
  {
    forall i: nat | Has(m, i, l) && i != node ensures node !in m.nodes[i][l] { assert Has(n, i, l); }
  }

  lemma {:induction false} LevelsLink(c: Config, sim: Similarity, n: Net, node: nat, chosen: seq<seq<nat>>, level: nat)
    requires Inv(c, n) && node < |n.nodes| && level <= |chosen| && n.nodes[node] == Half(chosen, level)
    requires forall l :: 0 <= l < |chosen| ==> Linkable(c, |n.nodes|, node, l, chosen[l])
    requires forall l: nat :: l < level ==> Unnamed(n, node, l)
    ensures RewiredBelow(c, sim, n, WireLevels(c, sim, n, node, chosen, level), node, chosen, level)
    decreases level
  {
    if level > 0 {
      var l := level - 1;
      HalfStep(chosen, l);
      assert [] + chosen[l] == chosen[l];
      var m := WireAll(c, sim, n, node, l, chosen[l]);
      WireAllKeeps(c, sim, n, node, l, chosen[l]);
      assert Unnamed(n, node, l);
      forall x | x in chosen[l] ensures node !in Conns(n, x, l) { assert node !in chosen[l]; }
      LevelLinks(c, sim, n, node, l, chosen[l]);
      forall k: nat | k < l ensures Unnamed(m, node, k) { StillUnnamedBelow(c, sim, n, m, node, l, chosen[l], k); }
      LevelsLink(c, sim, m, node, chosen, l);
      RewiredNext(c, sim, n, m, WireLevels(c, sim, m, node, chosen, l), node, chosen, l);
    }
  }

  /** The other slots after an insertion: on every level exactly the live slots the new node has chosen there
      link back to it; all other lists are as they were. */
  lemma InsertedLinksBack(c: Config, sim: Similarity, n: Net, found: seq<seq<Scored>>)
    requires Inv(c, n) && forall l :: 0 <= l < |found| ==> Searched(n, found[l])
    ensures var r, node := Inserted(c, sim, n, found), |n.nodes|;
      && |r.nodes| == node + 1 && |r.nodes[node]| == |found|
      && (forall i: nat, l: nat :: i < node ==> (Has(r, i, l) <==> Has(n, i, l)))
      && forall i: nat, l: nat :: Has(n, i, l) ==>
           if l < |found| && i in r.nodes[node][l] && i in n.live then
             LinkedBack(c, sim, i, l, n.nodes[i][l], node, r.nodes[i][l])
           else r.nodes[i][l] == n.nodes[i][l]
  {
    var node, g := |n.nodes|, Grown(n, |found|);
    var chosen := AllChosen(c, sim, g, node, found);
    GrownKeeps(c, n, |found|);
    InsertedKeeps(c, sim, n, found);
    forall l | 0 <= l < |found| ensures Linkable(c, node + 1, node, l, chosen[l]) {
      ChosenLinkable(c, sim, n, |found|, l, found[l]);
    }
    assert g.nodes[node] == Half(chosen, |found|);
    forall l: nat, i: nat | Has(g, i, l) ensures node !in g.nodes[i][l] { assert node !in Conns(g, i, l); }
    LevelsLink(c, sim, g, node, chosen, |found|);
    var r := Inserted(c, sim, n, found);
    forall i: nat, l: nat | i < node ensures Has(r, i, l) <==> Has(n, i, l) {
      assert Has(r, i, l) <==> Has(g, i, l);
    }
    forall i: nat, l: nat | Has(n, i, l)
      ensures Has(r, i, l)
      ensures if l < |found| && i in r.nodes[node][l] && i in n.live then
                LinkedBack(c, sim, i, l, n.nodes[i][l], node, r.nodes[i][l])
              else r.nodes[i][l] == n.nodes[i][l]
    {
      assert Has(g, i, l) && g.nodes[i] == n.nodes[i];
    }
  }

  // ---- whom the new node chooses ---------------------------------------------------------------

  lemma {:induction false} WithoutRanked(s: seq<Scored>, node: nat)
    requires OncePerSlot(s) && Ranked(s)
    ensures Ranked(Without(s, node))
    decreases |s|
  {
    if s != [] {
      var t := Without(s[1..], node);
      WithoutRanked(s[1..], node);
      WithoutFacts(s[1..], node);
      forall j | 0 <= j < |t| ensures Ahead(s[0], t[j]) {
        assert t[j] in s[1..];
        var i :| 0 <= i < |s[1..]| && s[1..][i] == t[j];
        assert s[i + 1] == t[j];
      }
    }
  }

  lemma NamesCons(x: Scored, s: seq<Scored>, i: nat)
    ensures Names([x] + s, i) <==> x.index == i || Names(s, i)
  {
    assert x in [x] + s;
    if Names(s, i) {
      var y :| y in s && y.index == i;
      assert y in [x] + s;
    }
  }

  lemma {:induction false} WithoutSize(s: seq<Scored>, node: nat)
    requires OncePerSlot(s)
    ensures |Without(s, node)| == |s| - if Names(s, node) then 1 else 0
    decreases |s|
  {
    if s != [] {
      WithoutSize(s[1..], node);
      NamesCons(s[0], s[1..], node);
      assert s == [s[0]] + s[1..];
      if s[0].index == node {
        forall x | x in s[1..] ensures x.index != node {
          var j :| 0 <= j < |s[1..]| && s[1..][j] == x;
          assert s[j + 1] == x;
        }
      }
    }
  }

  /** The best of what was found, `node` left out, as many as `cap` admits, best first. */
  ghost predicate PlainlyChosen(node: nat, cap: nat, found: seq<Scored>, r: seq<nat>) {
    && Distinct(r) && |r| == Min(cap, |found| - if Names(found, node) then 1 else 0)
    && (forall i :: i in r ==> i != node && Names(found, i))
    && (forall x, y :: x in found && y in found && x.index in r && y.index !in r && y.index != node ==> Ahead(x, y))
    && (forall i, x, y :: 0 < i < |r| && x in found && y in found && x.index == r[i - 1] && y.index == r[i] ==>
          Ahead(x, y))
  }

  /** Without the heuristic the new node takes the best it found. */
  lemma PlainChoice(c: Config, sim: Similarity, n: Net, node: nat, level: nat, found: seq<Scored>)
    requires !c.heuristic && OncePerSlot(found) && Ranked(found)
    ensures PlainlyChosen(node, Cap(c, level), found, Chosen(c, sim, n, node, level, found))
  {
    var cands := Without(found, node);
    WithoutFacts(found, node);
    WithoutRanked(found, node);
    WithoutSize(found, node);
    FrontChosen(node, Cap(c, level), found, cands);
  }

  lemma FrontChosen(node: nat, cap: nat, found: seq<Scored>, cands: seq<Scored>)
    requires OncePerSlot(found) && Ranked(cands) && OncePerSlot(cands)
    requires |cands| == |found| - if Names(found, node) then 1 else 0
    requires forall x :: x in cands <==> x in found && x.index != node
    ensures PlainlyChosen(node, cap, found, Front(cands, cap))
  {
    var r := Front(cands, cap);
    FrontFine(cands, cap);
    forall i | i in r ensures i != node && Names(found, i) {
      var z :| z in cands && z.index == i;
      assert z in found;
    }
    forall x, y | x in found && y in found && x.index in r && y.index !in r && y.index != node ensures Ahead(x, y) {
      FrontAhead(cands, cap, found, x, y);
    }
    forall i, x, y | 0 < i < |r| && x in found && y in found && x.index == r[i - 1] && y.index == r[i]
      ensures Ahead(x, y)
    {
      FrontInOrder(cands, cap, found, i, x, y);
    }
  }

  lemma FrontAhead(cands: seq<Scored>, cap: nat, found: seq<Scored>, x: Scored, y: Scored)
    requires Ranked(cands) && OncePerSlot(found) && (forall z :: z in cands ==> z in found)
    requires x in found && y in cands && x.index in Front(cands, cap) && y.index !in Front(cands, cap)
    ensures Ahead(x, y)
  {
    var r := Front(cands, cap);
    var i :| 0 <= i < |r| && r[i] == x.index;
    assert cands[i] in cands;
    OneScorePerSlot(found, cands[i], x);
    var j :| 0 <= j < |cands| && cands[j] == y;
    assert forall l :: 0 <= l < |r| ==> r[l] == cands[l].index && r[l] in r;
  }

  lemma FrontInOrder(cands: seq<Scored>, cap: nat, found: seq<Scored>, i: nat, x: Scored, y: Scored)
    requires Ranked(cands) && OncePerSlot(found) && (forall z :: z in cands ==> z in found)
    requires 0 < i < |Front(cands, cap)| && x in found && y in found
    requires x.index == Front(cands, cap)[i - 1] && y.index == Front(cands, cap)[i]
    ensures Ahead(x, y)
  {
    assert cands[i - 1] in cands && cands[i] in cands;
    OneScorePerSlot(found, cands[i - 1], x);
    OneScorePerSlot(found, cands[i], y);
  }

  /** `pool` holds the candidates and, if it is extended, the connections of the first `m` of them, measured
      against `base`. */
  ghost predicate PoolOf(sim: Similarity, base: nat, conns: nat -> seq<nat>, cands: seq<Scored>, m: nat, extend: bool,
                         pool: seq<Scored>) {
    && OncePerSlot(pool) && (forall x :: x in cands ==> x in pool) && (!extend ==> pool == cands)
    && (forall x :: x in pool && x !in cands ==>
          && x.score == sim(base, x.index)
          && exists i :: 0 <= i < |cands| && i < m && x.index in conns(cands[i].index))
    && (extend ==> forall i, y :: 0 <= i < |cands| && i < m && y in conns(cands[i].index) ==> Names(pool, y))
  }

  lemma PoolIsPool(sim: Similarity, base: nat, conns: nat -> seq<nat>, cands: seq<Scored>, m: nat, extend: bool)
    requires OncePerSlot(cands)
    ensures PoolOf(sim, base, conns, cands, m, extend, Pool(sim, base, conns, cands, m, extend))
  {
    if extend {
      var from, pool := Indices(cands)[..Min(m, |cands|)], Pool(sim, base, conns, cands, m, true);
      ExtendFacts(sim, base, conns, from, cands);
      forall x | x in cands ensures x in pool {
        var i :| 0 <= i < |cands| && cands[i] == x;
        assert pool[i] == x;
      }
      forall x | x in pool && x !in cands
        ensures exists i :: 0 <= i < |cands| && i < m && x.index in conns(cands[i].index)
      {
        var f :| f in from && x.index in conns(f);
        var i :| 0 <= i < |from| && from[i] == f;
        assert cands[i].index == f;
      }
      forall i, y | 0 <= i < |cands| && i < m && y in conns(cands[i].index) ensures Names(pool, y) {
        assert from[i] == cands[i].index && from[i] in from;
      }
    }
  }

  /** `s` is the best `2 m` of `pool`, best first. */
  ghost predicate ShortlistOf(m: nat, pool: seq<Scored>, s: seq<Scored>) {
    && OncePerSlot(s) && |s| == Min(2 * m, |pool|) && Descending(s) && (forall x :: x in s ==> x in pool)
    && (forall x, y :: x in s && y in pool && y !in s ==> x.score >= y.score)
  }

  /** How a diverse choice from `cands` is made: all of them if they are few and the pool is not extended,
      otherwise greedily from the best of the pool. */
  ghost predicate ChosenFrom(sim: Similarity, base: nat, conns: nat -> seq<nat>, cands: seq<Scored>, m: nat,
                             extend: bool, keep: bool, r: seq<nat>) {
    if |cands| <= m && !extend then r == Indices(cands)
    else exists pool: seq<Scored>, s: seq<Scored> ::
      && PoolOf(sim, base, conns, cands, m, extend, pool) && ShortlistOf(m, pool, s) && Greedy(sim, m, keep, s, r)
      && |r| <= m && (keep ==> |r| == Min(m, |pool|))
  }

  /** A diverse choice from what was found, `node` left out; a pool is extended by connections of live slots
      of `n`. */
  ghost predicate DiverselyChosen(c: Config, sim: Similarity, n: Net, node: nat, level: nat, found: seq<Scored>,
                                  r: seq<nat>) {
    exists cands: seq<Scored> ::
      && OncePerSlot(cands) && (Ranked(found) ==> Ranked(cands))
      && (forall x :: x in cands <==> x in found && x.index != node)
      && ChosenFrom(sim, node, i => if i in n.live then Conns(n, i, level) else [], cands, Cap(c, level), c.extend,
           c.keep, r)
  }

  /** With the heuristic the new node makes a diverse choice from what it found, itself left out. */
  lemma DiverseChoice(c: Config, sim: Similarity, n: Net, node: nat, level: nat, found: seq<Scored>)
    requires c.heuristic && OncePerSlot(found)
    ensures DiverselyChosen(c, sim, n, node, level, found, Chosen(c, sim, n, node, level, found))
  {
    var cands, m, conns := Without(found, node), Cap(c, level), LiveConns(n, level);
    WithoutFacts(found, node);
    if Ranked(found) { WithoutRanked(found, node); }
    var r := Chosen(c, sim, n, node, level, found);
    if |cands| > m || c.extend {
      var pool := Pool(sim, node, conns, cands, m, c.extend);
      PoolIsPool(sim, node, conns, cands, m, c.extend);
      ShortlistFacts(m, pool);
      SelectedFacts(sim, node, conns, cands, m, c.extend, c.keep);
      SelectedIsGreedy(sim, node, conns, cands, m, c.extend, c.keep);
      assert ShortlistOf(m, pool, Shortlist(m, pool));
    }
    assert ChosenFrom(sim, node, conns, cands, m, c.extend, c.keep, r);
  }
}
