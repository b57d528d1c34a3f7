/** What a witness insertion and a removal achieve: who accepts the new node, which edges make way for it,
    and that nothing else is lost. */
module WitnessOutcomes {
  import opened Basics
  import opened Ranking
  import opened WitnessLists
  import opened WitnessGraph
  import WitnessSelection

  /** The entries of a list that are ahead of `x`. */
  ghost function Stronger(l: seq<Scored>, x: Scored): set<Scored> { set y | y in l && Ahead(y, x) }

  /** Why `u` no longer has the edge `y`: the new node took a stronger place at one of its ends. */
  ghost predicate MadeWay(live: set<nat>, n: nat, taken: seq<Scored>, u: nat, y: Scored) {
    || (exists s: real :: Scored(u, s) in taken && Ahead(Scored(n, s), y))
    || (y.index in live && exists s: real :: Scored(y.index, s) in taken && Ahead(Scored(n, s), Scored(u, y.score)))
  }

  /** What has become of the lists `was` of the live slots while the new node `n` was offered to `done`:
      nothing but `n` has been gained, what is lost has made way for it, and whoever refused it had `degree`
      stronger edges. */
  ghost predicate Progress(was: map<nat, seq<Scored>>, live: set<nat>, n: nat, degree: nat, s: Linking,
                           done: seq<Scored>)
    requires live <= was.Keys && live <= s.lists.Keys
  {
    && (forall u, y :: u in live && y in s.lists[u] ==> y in was[u] || y.index == n)
    && (forall u, y :: u in live && y in was[u] && y !in s.lists[u] ==> MadeWay(live, n, Kept(done, s.rejected), u, y))
    && (forall u, c :: u in live && Scored(u, c) in done && u in s.rejected ==>
          |Stronger(was[u], Scored(n, c))| >= degree)
  }

  /** The offers that were accepted. */
  ghost function Kept(done: seq<Scored>, rejected: set<nat>): seq<Scored> { Retain(done, rejected) }

  /** What is given up for `x` is behind it; who refuses `x` has `degree` stronger ones. */
  lemma OfferJudged(l: seq<Scored>, x: Scored, degree: nat)
    requires Tidy(l) && |l| <= degree && degree > 0 && forall y :: y in l ==> y.index != x.index
    ensures var r := InsertReciprocal(l, x, degree);
      && (r.retained && r.evicted.Some? ==> Ahead(x, r.evicted.value))
      && (!r.retained ==> |l| == degree && forall y :: y in l ==> Ahead(y, x))
  {
    var p, g := Position(l, x), Placed(l, x);
    InsertIs(l, x, degree);
    PlacedTidy(l, x);
    PlacedMembers(l, x);
    if p < degree && |g| > degree { assert Ahead(g[p], g[degree]); }
    if p >= degree {
      forall y | y in l ensures Ahead(y, x) { var i :| 0 <= i < |l| && l[i] == y; }
    }
  }

  lemma StillStronger(was: seq<Scored>, l: seq<Scored>, x: Scored, degree: nat)
    requires Tidy(l) && |l| == degree && forall y :: y in l ==> y in was && Ahead(y, x)
    ensures |Stronger(was, x)| >= degree
  {
    assert Distinct(l);
    ElemsSize(l);
    SubsetSize(Elems(l), Stronger(was, x));
  }

  lemma MoreMadeWay(live: set<nat>, n: nat, a: seq<Scored>, b: seq<Scored>, u: nat, y: Scored)
    requires MadeWay(live, n, a, u, y) && forall x :: x in a ==> x in b
    ensures MadeWay(live, n, b, u, y)
  {
    if c: real :| Scored(u, c) in a && Ahead(Scored(n, c), y) { assert Scored(u, c) in b; }
    if y.index in live {
      if c: real :| Scored(y.index, c) in a && Ahead(Scored(n, c), Scored(u, y.score)) {
        assert Scored(y.index, c) in b;
      }
    }
  }

  lemma KeptGrows(done: seq<Scored>, w: Scored, rejected: set<nat>, rejected': set<nat>)
    requires rejected <= rejected' <= rejected + {w.index} && forall x :: x in done ==> x.index != w.index
    ensures forall x :: x in Kept(done, rejected) ==> x in Kept(done + [w], rejected')
    ensures w.index !in rejected' ==> w in Kept(done + [w], rejected')
  {
  }

  lemma {:induction false} LossStep(was: map<nat, seq<Scored>>, live: set<nat>, n: nat, w: Scored, degree: nat,
                                    s: Linking, done: seq<Scored>, strict: bool, u: nat, y: Scored)
    requires live <= was.Keys && live <= s.lists.Keys && Progress(was, live, n, degree, s, done)
    requires Offerable(live, n, w, degree, s, done, strict)
    requires u in live && y in was[u] && y !in LinkOne(live, n, w, degree, s).lists[u]
    ensures MadeWay(live, n, Kept(done + [w], LinkOne(live, n, w, degree, s).rejected), u, y)
  {
    var t, x := LinkOne(live, n, w, degree, s), Scored(n, w.score);
    NotListedYet(s.lists, live, n, done, s.rejected, degree, strict, w.index);
    OfferOutcome(live, n, w, degree, s, done, strict);
    OfferJudged(s.lists[w.index], x, degree);
    LinkShape(live, n, w, degree, s, done, strict);
    KeptGrows(done, w, s.rejected, t.rejected);
    if y !in s.lists[u] {
      MoreMadeWay(live, n, Kept(done, s.rejected), Kept(done + [w], t.rejected), u, y);
    } else {
      var ins := InsertReciprocal(s.lists[w.index], x, degree);
      EdgeGivenUp(s.lists, live, w, x, ins, degree, n, u, y);
      assert w in Kept(done + [w], t.rejected) && w == Scored(w.index, w.score);
    }
  }

  /** An edge lost in this very step: the witness gave it up, and the other end with it. */
  lemma EdgeGivenUp(lists: map<nat, seq<Scored>>, live: set<nat>, w: Scored, x: Scored, ins: Insertion, degree: nat,
                    n: nat, u: nat, y: Scored)
    requires live <= lists.Keys && Mutual(lists, live) && w.index in live && u in live && y in lists[u]
    requires Bounded(lists, live, degree, n + 1) && x == Scored(n, w.score)
    requires ins.evicted.Some? ==> ins.evicted.value in lists[w.index] || ins.evicted.value == x
    requires ins.retained && ins.evicted.Some? ==> Ahead(x, ins.evicted.value)
    requires ins.evicted == Some(x) <==> !ins.retained
    requires forall z :: z in lists[w.index] ==> z.index != n
    requires if u == w.index then ins.evicted == Some(y)
             else ins.evicted.Some? && u == ins.evicted.value.index && y.index == w.index
    requires n !in live
    ensures ins.retained
    ensures u == w.index ==> Ahead(x, y)
    ensures u != w.index ==> y.index == w.index && Ahead(x, Scored(u, y.score))
  {
    if u != w.index {
      var e := ins.evicted.value;
      assert e == Scored(u, e.score) && e in lists[w.index];
      assert Scored(w.index, e.score) in lists[u];
      OneScorePerSlot(lists[u], y, Scored(w.index, e.score));
    }
  }

  lemma {:induction false} ProgressStep(was: map<nat, seq<Scored>>, live: set<nat>, n: nat, w: Scored, degree: nat,
                                        s: Linking, done: seq<Scored>, strict: bool)
    requires live <= was.Keys && live <= s.lists.Keys && Progress(was, live, n, degree, s, done)
    requires Offerable(live, n, w, degree, s, done, strict)
    ensures Progress(was, live, n, degree, LinkOne(live, n, w, degree, s), done + [w])
  {
    var t, x := LinkOne(live, n, w, degree, s), Scored(n, w.score);
    NotListedYet(s.lists, live, n, done, s.rejected, degree, strict, w.index);
    OfferJudged(s.lists[w.index], x, degree);
    LinkShape(live, n, w, degree, s, done, strict);
    forall u, y | u in live && y in was[u] && y !in t.lists[u]
      ensures MadeWay(live, n, Kept(done + [w], t.rejected), u, y)
    {
      LossStep(was, live, n, w, degree, s, done, strict, u, y);
    }
    forall u, c | u in live && Scored(u, c) in done + [w] && u in t.rejected
      ensures |Stronger(was[u], Scored(n, c))| >= degree
    {
      if Scored(u, c) !in done {
        assert Scored(u, c) == w;
        StillStronger(was[u], s.lists[u], x, degree);
      }
    }
  }

  lemma {:induction false} ProgressAll(was: map<nat, seq<Scored>>, live: set<nat>, n: nat, ws: seq<Scored>, degree: nat,
                                       s: Linking, done: seq<Scored>, strict: bool)
    requires live <= was.Keys && live <= s.lists.Keys && Progress(was, live, n, degree, s, done)
    requires Midway(s.lists, live, n, done, s.rejected, degree, strict) && n !in live && (ws != [] ==> degree > 0)
    requires OncePerSlot(done + ws) && (forall x :: x in ws ==> x.index in live) && s.rejected <= Slots(done)
    ensures Progress(was, live, n, degree, LinkAll(live, n, ws, degree, s), done + ws)
    decreases |ws|
  {
    if ws == [] {
      assert done + ws == done;
    } else {
      HeadIsNew(done, ws);
      assert ws[0] in ws && ws[0].index !in Slots(done);
      LinkOneKeeps(live, n, ws[0], degree, s, done, strict);
      ProgressStep(was, live, n, ws[0], degree, s, done, strict);
      ProgressAll(was, live, n, ws[1..], degree, LinkOne(live, n, ws[0], degree, s), done + [ws[0]], strict);
    }
  }

  ghost function LiveOf(proposals: seq<Scored>, live: set<nat>): set<Scored> {
    set x | x in proposals && x.index in live
  }

  /** The outcome for the chosen candidates `ws`: each of them with fewer than `degree` stronger edges accepts
      the new node `n`, whose list is those that did. Old lists gain nothing else, and an edge between old
      slots goes only where the new node took a stronger place at one of its ends. */
  ghost predicate Achieved(was: map<nat, seq<Scored>>, live: set<nat>, n: nat, degree: nat, ws: seq<Scored>,
                           now: map<nat, seq<Scored>>)
    requires live <= was.Keys && live <= now.Keys && n in now
  {
    && (forall x :: x in now[n] ==> x in ws)
    && (forall x :: x in ws && x !in now[n] ==>
          x.index in live && |Stronger(was[x.index], Scored(n, x.score))| >= degree)
    && (forall u, y :: u in live && y in now[u] ==>
          y in was[u] || (y.index == n && Scored(u, y.score) in now[n]))
    && (forall u, y :: u in live && y in was[u] && y !in now[u] ==> MadeWay(live, n, now[n], u, y))
  }

  lemma ProgressAchieves(was: map<nat, seq<Scored>>, live: set<nat>, n: nat, degree: nat, ws: seq<Scored>, t: Linking,
                         strict: bool)
    requires live <= was.Keys && live <= t.lists.Keys && Progress(was, live, n, degree, t, ws) && n !in live
    requires Midway(t.lists, live, n, ws, t.rejected, degree, strict) && forall x :: x in ws ==> x.index in live
    ensures Achieved(was, live, n, degree, ws, t.lists[n := Kept(ws, t.rejected)])
  {
    var now := t.lists[n := Kept(ws, t.rejected)];
    forall u, y | u in live && y in now[u]
      ensures y in was[u] || (y.index == n && Scored(u, y.score) in now[n])
    {
      assert now[u] == t.lists[u] && y == Scored(y.index, y.score);
    }
    forall x | x in ws && x !in now[n] ensures |Stronger(was[x.index], Scored(n, x.score))| >= degree {
      assert x == Scored(x.index, x.score);
    }
  }

  lemma AdoptionAchieves(g: Graph, ws: seq<Scored>, degree: nat, strict: bool)
    requires Inv(g, degree, strict) && Tidy(ws) && |ws| <= degree && forall x :: x in ws ==> x.index in g.live
    ensures var r := Adopted(g, ws, degree);
      && r.live == g.live + {g.next} && r.next == g.next + 1 && g.next in r.lists && g.live <= r.lists.Keys
      && Achieved(g.lists, g.live, g.next, degree, ws, r.lists)
  {
    var n, s := g.next, Linking(g.lists[g.next := ws], {});
    assert [] + ws == ws;
    StartsMidway(g, ws, degree, strict);
    ProgressAll(g.lists, g.live, n, ws, degree, s, [], strict);
    LinkAllKeeps(g.live, n, ws, degree, s, [], strict);
    ProgressAchieves(g.lists, g.live, n, degree, ws, LinkAll(g.live, n, ws, degree, s), strict);
  }

  /** What an insertion achieves: the new node is live, and proposed itself to the best live candidates. */
  lemma InsertionAchieves(g: Graph, proposals: seq<Scored>, degree: nat, strict: bool)
    requires Inv(g, degree, strict)
    ensures var r := Inserted(g, proposals, degree);
      && r.live == g.live + {g.next} && r.next == g.next + 1 && g.next in r.lists && g.live <= r.lists.Keys
      && exists ws: seq<Scored> ::
           WitnessSelection.Selects(LiveOf(proposals, g.live), degree, ws)
           && Achieved(g.lists, g.live, g.next, degree, ws, r.lists)
  {
    var cands := OnlyLive(proposals, g.live);
    var ws := SelectTop(cands, degree);
    SelectTopFacts(cands, degree);
    WitnessSelection.SelectTopSelects(cands, degree);
    assert Elems(cands) == LiveOf(proposals, g.live);
    AdoptionAchieves(g, ws, degree, strict);
  }

  /** A removal: the slot is no longer live, the others are; in strict mode a live list loses exactly its edge
      to the slot, otherwise nothing. */
  lemma RemovalAchieves(g: Graph, n: nat, degree: nat, strict: bool)
    requires Inv(g, degree, strict)
    ensures var r := Removed(g, n, degree, strict);
      && r.live == g.live - {n} && r.next == g.next && r.lists.Keys == g.lists.Keys
      && (n !in g.live ==> r == g)
      && (forall u, y :: u in r.live ==>
            (y in r.lists[u] <==> y in g.lists[u] && !(strict && n in g.live && y.index == n)))
  {
    if n in g.live {
      var live := g.live - {n};
      var ns := if strict then g.lists[n][..Min(degree, |g.lists[n]|)] else [];
      UnlinkFacts(g.lists, live, n, ns);
      if strict {
        assert ns == g.lists[n];
        forall u, y | u in live && y in g.lists[u] && y.index == n ensures Names(ns, u) {
          assert y == Scored(n, y.score);
          NamedBack(g, u, n, y.score);
        }
      }
    }
  }
}
