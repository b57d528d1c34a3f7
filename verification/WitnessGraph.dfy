/** The reciprocal witness graph: every insert links a new node into the lists of its witnesses and
    back, every eviction, rejection and strict-mode removal is undone on the other side. */
module WitnessGraph {
  import opened Basics
  import opened Ranking
  import opened WitnessLists
  import WitnessSelection

  /** Witness lists of all nodes ever written, the live ones among them, and the next free slot. */
  datatype Graph = Graph(lists: map<nat, seq<Scored>>, live: set<nat>, next: nat)

  const EmptyGraph: Graph := Graph(map[], {}, 0)

  // ---- insertion -------------------------------------------------------------------------------

  /** The state of `add_reciprocal_rivero_witnesses`: the lists and the witnesses that refused. */
  datatype Linking = Linking(lists: map<nat, seq<Scored>>, rejected: set<nat>)

  /** Offers node `n` to one witness and undoes the edge its list gave up for it. */
  function LinkOne(live: set<nat>, n: nat, w: Scored, degree: nat, s: Linking): (r: Linking)
    requires live <= s.lists.Keys
    ensures s.lists.Keys == r.lists.Keys
  {
    if w.index !in live then s.(rejected := s.rejected + {w.index})
    else
      var ins := InsertReciprocal(s.lists[w.index], Scored(n, w.score), degree);
      var lists := s.lists[w.index := ins.list];
      var rejected := if ins.retained then s.rejected else s.rejected + {w.index};
      if ins.evicted.Some? && ins.evicted.value.index != n && ins.evicted.value.index in live then
        var e := ins.evicted.value.index;
        Linking(lists[e := Retain(lists[e], {w.index})], rejected)
      else Linking(lists, rejected)
  }

  function LinkAll(live: set<nat>, n: nat, ws: seq<Scored>, degree: nat, s: Linking): (r: Linking)
    requires live <= s.lists.Keys
    ensures s.lists.Keys == r.lists.Keys
    decreases |ws|
  {
    if ws == [] then s else LinkAll(live, n, ws[1..], degree, LinkOne(live, n, ws[0], degree, s))
  }

  function OnlyLive(l: seq<Scored>, live: set<nat>): (r: seq<Scored>)
    ensures forall x :: x in r <==> x in l && x.index in live
  {
    if l == [] then [] else
      var n := |l| - 1;
      if l[n].index in live then OnlyLive(l[..n], live) + [l[n]] else OnlyLive(l[..n], live)
  }

  /** A node with witnesses `ws` joins: it is offered to each, and keeps those that keep it. */
  function Adopted(g: Graph, ws: seq<Scored>, degree: nat): Graph
    requires g.live <= g.lists.Keys
  {
    var n := g.next;
    var s := LinkAll(g.live, n, ws, degree, Linking(g.lists[n := ws], {}));
    Graph(s.lists[n := Retain(s.lists[n], s.rejected)], g.live + {n}, n + 1)
  }

  /** Insert a node whose routed, scored candidates are `proposals`. */
  function Inserted(g: Graph, proposals: seq<Scored>, degree: nat): Graph
    requires g.live <= g.lists.Keys
  {
    Adopted(g, SelectTop(OnlyLive(proposals, g.live), degree), degree)
  }

  // ---- removal ---------------------------------------------------------------------------------

  function Unlink(lists: map<nat, seq<Scored>>, live: set<nat>, n: nat, ns: seq<Scored>): (r: map<nat, seq<Scored>>)
    requires live <= lists.Keys
    ensures r.Keys == lists.Keys
    decreases |ns|
  {
    if ns == [] then lists
    else
      var m := ns[0].index;
      Unlink(if m in live then lists[m := Retain(lists[m], {n})] else lists, live, n, ns[1..])
  }

  /** Remove a node; strict mode also drops it from the lists of its own witnesses. */
  function Removed(g: Graph, n: nat, degree: nat, strict: bool): Graph
    requires g.live <= g.lists.Keys
  {
    if n !in g.live then g
    else
      var neighbours := if strict then g.lists[n][..Min(degree, |g.lists[n]|)] else [];
      Graph(Unlink(g.lists, g.live - {n}, n, neighbours), g.live - {n}, g.next)
  }

  // ---- what every operation keeps --------------------------------------------------------------

  /** Live lists are tidy, within the degree, never name their owner, and name only slots below `bound`. */
  ghost predicate Bounded(lists: map<nat, seq<Scored>>, live: set<nat>, degree: nat, bound: nat) {
    forall u :: u in live ==>
      && u in lists && Tidy(lists[u]) && |lists[u]| <= degree
      && forall x :: x in lists[u] ==> x.index != u && x.index < bound
  }

  /** The witness relation on live nodes is symmetric, scores included. */
  ghost predicate Mutual(lists: map<nat, seq<Scored>>, live: set<nat>)
    requires live <= lists.Keys
  {
    forall u, v, s :: u in live && v in live && Scored(v, s) in lists[u] ==> Scored(u, s) in lists[v]
  }

  /** No live node names a node outside `allowed`. */
  ghost predicate Within(lists: map<nat, seq<Scored>>, live: set<nat>, allowed: set<nat>)
    requires live <= lists.Keys
  {
    forall u, x :: u in live && x in lists[u] ==> x.index in allowed
  }

  ghost predicate Inv(g: Graph, degree: nat, strict: bool) {
    && g.live <= g.lists.Keys && (forall u :: u in g.lists ==> u < g.next)
    && Bounded(g.lists, g.live, degree, g.next)
    && Mutual(g.lists, g.live)
    && (strict ==> Within(g.lists, g.live, g.live))
  }

  /** Between two witnesses: the new node `n` stands exactly in the lists of the witnesses in `done`
      that did not reject it. */
  ghost predicate Midway(lists: map<nat, seq<Scored>>, live: set<nat>, n: nat, done: seq<Scored>, rejected: set<nat>,
                         degree: nat, strict: bool) {
    && live <= lists.Keys
    && Bounded(lists, live, degree, n + 1)
    && Mutual(lists, live)
    && (forall u, s :: u in live ==> (Scored(n, s) in lists[u] <==> Scored(u, s) in done && u !in rejected))
    && (strict ==> Within(lists, live, live + {n}))
  }

  /** `n` names nobody twice, so a witness not offered yet does not list it. */
  lemma NotListedYet(lists: map<nat, seq<Scored>>, live: set<nat>, n: nat, done: seq<Scored>, rejected: set<nat>,
                     degree: nat, strict: bool, u: nat)
    requires Midway(lists, live, n, done, rejected, degree, strict) && u in live
    requires forall x :: x in done ==> x.index != u
    ensures forall x :: x in lists[u] ==> x.index != n
  {
    forall x | x in lists[u] ensures x.index != n {
      assert x == Scored(x.index, x.score);
      assert Scored(n, x.score) in lists[u] <==> Scored(u, x.score) in done && u !in rejected;
    }
  }

  /** Who is in which live list after `u` was offered `x`: `u` gains `x` if it is retained, and `u` and
      the evicted node lose each other. */
  ghost predicate Shape(old': map<nat, seq<Scored>>, lists: map<nat, seq<Scored>>, live: set<nat>, u: nat, x: Scored,
                        evicted: Option<Scored>)
    requires live <= old'.Keys && live <= lists.Keys
  {
    forall v, y :: v in live ==>
      (y in lists[v] <==>
        if v == u then (y in old'[u] || y == x) && evicted != Some(y)
        else y in old'[v] && !(evicted.Some? && v == evicted.value.index && y.index == u))
  }

  /** The facts one offer starts from. */
  ghost predicate Offerable(live: set<nat>, n: nat, w: Scored, degree: nat, s: Linking, done: seq<Scored>,
                            strict: bool) {
    && Midway(s.lists, live, n, done, s.rejected, degree, strict) && degree > 0
    && w.index in live && n !in live && w.index !in s.rejected && forall x :: x in done ==> x.index != w.index
  }

  lemma LinkShape(live: set<nat>, n: nat, w: Scored, degree: nat, s: Linking, done: seq<Scored>, strict: bool)
    requires Offerable(live, n, w, degree, s, done, strict)
    ensures Shape(s.lists, LinkOne(live, n, w, degree, s).lists, live, w.index, Scored(n, w.score),
                  InsertReciprocal(s.lists[w.index], Scored(n, w.score), degree).evicted)
  {
    NotListedYet(s.lists, live, n, done, s.rejected, degree, strict, w.index);
    NewEdgeFacts(s.lists[w.index], Scored(n, w.score), degree);
  }

  /** The list of `v` after one offer: as before, or the insertion's, possibly without `w`. */
  lemma LinkOneAt(live: set<nat>, n: nat, w: Scored, degree: nat, s: Linking, v: nat)
    requires live <= s.lists.Keys && v in live && w.index in live
    ensures var l := LinkOne(live, n, w, degree, s).lists[v];
      var base := if v == w.index then InsertReciprocal(s.lists[v], Scored(n, w.score), degree).list else s.lists[v];
      l == base || l == Retain(base, {w.index})
  {
  }

  lemma LinkTidy(live: set<nat>, n: nat, w: Scored, degree: nat, s: Linking, done: seq<Scored>, strict: bool, v: nat)
    requires Offerable(live, n, w, degree, s, done, strict) && v in live
    ensures var l := LinkOne(live, n, w, degree, s).lists[v]; Tidy(l) && |l| <= degree
  {
    var u, x := w.index, Scored(n, w.score);
    var base := if v == u then InsertReciprocal(s.lists[v], x, degree).list else s.lists[v];
    assert Tidy(base) && |base| <= degree by {
      if v == u {
        NotListedYet(s.lists, live, n, done, s.rejected, degree, strict, u);
        NewEdgeFacts(s.lists[u], x, degree);
      }
    }
    LinkOneAt(live, n, w, degree, s, v);
    RetainTidy(base, {u});
  }

  lemma LinkBounded(live: set<nat>, n: nat, w: Scored, degree: nat, s: Linking, done: seq<Scored>, strict: bool)
    requires Offerable(live, n, w, degree, s, done, strict)
    ensures var t := LinkOne(live, n, w, degree, s);
      Bounded(t.lists, live, degree, n + 1) && (strict ==> Within(t.lists, live, live + {n}))
  {
    var t := LinkOne(live, n, w, degree, s);
    LinkShape(live, n, w, degree, s, done, strict);
    forall v | v in live
      ensures v in t.lists && Tidy(t.lists[v]) && |t.lists[v]| <= degree
      ensures forall y :: y in t.lists[v] ==> y in s.lists[v] || y.index == n
    {
      LinkTidy(live, n, w, degree, s, done, strict, v);
    }
  }

  /** An edge given up by `u` disappears on both sides, so the relation stays mutual. */
  lemma ShapeMutual(old': map<nat, seq<Scored>>, lists: map<nat, seq<Scored>>, live: set<nat>, u: nat, x: Scored,
                    evicted: Option<Scored>)
    requires live <= old'.Keys && live <= lists.Keys && u in live && x.index !in live
    requires Mutual(old', live) && Shape(old', lists, live, u, x, evicted)
    requires evicted.Some? ==> evicted.value.index != u && (evicted.value in old'[u] || evicted.value == x)
    requires forall v :: v in live ==> OncePerSlot(old'[v])
    ensures Mutual(lists, live)
  {
    forall a, b, s | a in live && b in live && Scored(b, s) in lists[a] ensures Scored(a, s) in lists[b] {
      assert Scored(b, s) in old'[a];
      assert Scored(a, s) in old'[b];
      if a == u && evicted.Some? { OneScorePerSlot(old'[u], Scored(b, s), evicted.value); }
    }
  }

  /** The new node stands in the lists of its acceptors and nowhere else. */
  lemma ShapeNew(old': map<nat, seq<Scored>>, lists: map<nat, seq<Scored>>, live: set<nat>, n: nat, w: Scored,
                 ins: Insertion, done: seq<Scored>, rejected: set<nat>)
    requires live <= old'.Keys && live <= lists.Keys && n !in live && w.index in live
    requires Shape(old', lists, live, w.index, Scored(n, w.score), ins.evicted)
    requires forall x :: x in done ==> x.index != w.index
    requires w.index !in rejected
    requires ins.evicted == Some(Scored(n, w.score)) <==> !ins.retained
    requires ins.evicted.Some? && ins.evicted.value.index == n ==> !ins.retained
    requires forall v, c :: v in live ==> (Scored(n, c) in old'[v] <==> Scored(v, c) in done && v !in rejected)
    ensures var rejected' := if ins.retained then rejected else rejected + {w.index};
      forall v, c :: v in live ==> (Scored(n, c) in lists[v] <==> Scored(v, c) in done + [w] && v !in rejected')
  {
    var rejected' := if ins.retained then rejected else rejected + {w.index};
    forall v, c | v in live
      ensures Scored(n, c) in lists[v] <==> Scored(v, c) in done + [w] && v !in rejected'
    {
      assert Scored(v, c) in done + [w] <==> Scored(v, c) in done || Scored(v, c) == w;
    }
  }

  /** What is given up for the offer: not the offered witness itself, and the new node only if refused. */
  lemma OfferOutcome(live: set<nat>, n: nat, w: Scored, degree: nat, s: Linking, done: seq<Scored>, strict: bool)
    requires Offerable(live, n, w, degree, s, done, strict)
    ensures var u, x := w.index, Scored(n, w.score);
      var ins := InsertReciprocal(s.lists[u], x, degree);
      && (ins.evicted.Some? ==>
          ins.evicted.value.index != u && (ins.evicted.value in s.lists[u] || ins.evicted.value == x))
      && (ins.evicted == Some(x) <==> !ins.retained)
      && (ins.evicted.Some? && ins.evicted.value.index == n ==> !ins.retained)
  {
    NotListedYet(s.lists, live, n, done, s.rejected, degree, strict, w.index);
    NewEdgeFacts(s.lists[w.index], Scored(n, w.score), degree);
  }

  /** One witness accepts or refuses. */
  lemma LinkOneKeeps(live: set<nat>, n: nat, w: Scored, degree: nat, s: Linking, done: seq<Scored>, strict: bool)
    requires Offerable(live, n, w, degree, s, done, strict)
    ensures var t := LinkOne(live, n, w, degree, s);
      && Midway(t.lists, live, n, done + [w], t.rejected, degree, strict)
      && (n in s.lists ==> t.lists[n] == s.lists[n])
      && t.rejected <= s.rejected + {w.index}
  {
    var u, x := w.index, Scored(n, w.score);
    OfferOutcome(live, n, w, degree, s, done, strict);
    var ins := InsertReciprocal(s.lists[u], x, degree);
    LinkShape(live, n, w, degree, s, done, strict);
    LinkBounded(live, n, w, degree, s, done, strict);
    var t := LinkOne(live, n, w, degree, s);
    ShapeMutual(s.lists, t.lists, live, u, x, ins.evicted);
    ShapeNew(s.lists, t.lists, live, n, w, ins, done, s.rejected);
  }

  // ---- whole operations ------------------------------------------------------------------------

  /** The slots a list names. */
  ghost function Slots(l: seq<Scored>): set<nat> { set x | x in l :: x.index }

  lemma HeadIsNew(done: seq<Scored>, ws: seq<Scored>)
    requires OncePerSlot(done + ws) && ws != []
    ensures forall x :: x in done ==> x.index != ws[0].index
    ensures (done + [ws[0]]) + ws[1..] == done + ws
    ensures Slots(done + [ws[0]]) == Slots(done) + {ws[0].index}
  {
    var all := done + ws;
    assert all[|done|] == ws[0];
    forall x | x in done ensures x.index != ws[0].index {
      var i :| 0 <= i < |done| && done[i] == x;
      assert all[i] == x;
    }
    assert ws[0] in done + [ws[0]] && forall x :: x in done + [ws[0]] <==> x in done || x == ws[0];
  }

  /** Offering the new node to all its witnesses. */
  lemma {:induction false} LinkAllKeeps(live: set<nat>, n: nat, ws: seq<Scored>, degree: nat, s: Linking,
                                        done: seq<Scored>, strict: bool)
    requires Midway(s.lists, live, n, done, s.rejected, degree, strict) && n !in live && (ws != [] ==> degree > 0)
    requires OncePerSlot(done + ws) && (forall x :: x in ws ==> x.index in live) && s.rejected <= Slots(done)
    ensures var t := LinkAll(live, n, ws, degree, s);
      && Midway(t.lists, live, n, done + ws, t.rejected, degree, strict)
      && (n in s.lists ==> t.lists[n] == s.lists[n])
    decreases |ws|
  {
    if ws == [] {
      assert done + ws == done;
    } else {
      HeadIsNew(done, ws);
      assert ws[0] in ws && ws[0].index !in Slots(done);
      LinkOneKeeps(live, n, ws[0], degree, s, done, strict);
      LinkAllKeeps(live, n, ws[1..], degree, LinkOne(live, n, ws[0], degree, s), done + [ws[0]], strict);
    }
  }

  /** The loop of `add_reciprocal_rivero_witnesses` after `i` witnesses. */
  ghost predicate Linked(live: set<nat>, n: nat, ws: seq<Scored>, i: nat, degree: nat, s: Linking, strict: bool)
    requires i <= |ws|
  {
    && Midway(s.lists, live, n, ws[..i], s.rejected, degree, strict) && s.rejected <= Slots(ws[..i])
    && n !in live && OncePerSlot(ws) && (forall x :: x in ws ==> x.index in live) && (ws != [] ==> degree > 0)
  }

  lemma LinkIteration(live: set<nat>, n: nat, ws: seq<Scored>, i: nat, degree: nat, s: Linking, strict: bool)
    requires i < |ws| && Linked(live, n, ws, i, degree, s, strict)
    ensures ws[i].index in live && live <= s.lists.Keys && Tidy(s.lists[ws[i].index])
    ensures Linked(live, n, ws, i + 1, degree, LinkOne(live, n, ws[i], degree, s), strict)
    ensures LinkAll(live, n, ws[i..], degree, s) ==
        LinkAll(live, n, ws[i + 1..], degree, LinkOne(live, n, ws[i], degree, s))
  {
    assert ws == ws[..i] + ws[i..] && ws[i..][1..] == ws[i + 1..] && ws[..i + 1] == ws[..i] + [ws[i]];
    assert ws[i] in ws;
    HeadIsNew(ws[..i], ws[i..]);
    LinkOneKeeps(live, n, ws[i], degree, s, ws[..i], strict);
  }

  /** Publishing: the new node keeps exactly the witnesses that keep it. */
  lemma PublishKeeps(lists: map<nat, seq<Scored>>, live: set<nat>, n: nat, ws: seq<Scored>, rejected: set<nat>,
                     degree: nat, strict: bool)
    requires Midway(lists, live, n, ws, rejected, degree, strict) && n !in live
    requires Tidy(ws) && |ws| <= degree && forall x :: x in ws ==> x.index in live && x.index < n
    ensures var lists' := lists[n := Retain(ws, rejected)];
      && Bounded(lists', live + {n}, degree, n + 1) && Mutual(lists', live + {n})
      && (strict ==> Within(lists', live + {n}, live + {n}))
  {
    RetainTidy(ws, rejected);
    var lists' := lists[n := Retain(ws, rejected)];
    forall u, v, s | u in live + {n} && v in live + {n} && Scored(v, s) in lists'[u] ensures Scored(u, s) in lists'[v] {
      if u == n {
        assert Scored(v, s) in ws;
        assert Scored(n, s) in lists[v];
      } else if v == n {
        assert Scored(u, s) in ws && u !in rejected;
      }
    }
  }

  /** Nobody lists a slot that has not been handed out yet. */
  lemma StartsMidway(g: Graph, ws: seq<Scored>, degree: nat, strict: bool)
    requires Inv(g, degree, strict)
    ensures Midway(g.lists[g.next := ws], g.live, g.next, [], {}, degree, strict) && g.next !in g.live
  {
    var n, lists := g.next, g.lists[g.next := ws];
    forall u, s | u in g.live ensures Scored(n, s) !in lists[u] {
      assert lists[u] == g.lists[u];
      assert forall x :: x in g.lists[u] ==> x.index < n;
    }
  }

  lemma InsertedKeeps(g: Graph, proposals: seq<Scored>, degree: nat, strict: bool)
    requires Inv(g, degree, strict)
    ensures Inv(Inserted(g, proposals, degree), degree, strict)
  {
    var n := g.next;
    var ws := SelectTop(OnlyLive(proposals, g.live), degree);
    SelectTopFacts(OnlyLive(proposals, g.live), degree);
    var s := Linking(g.lists[n := ws], {});
    assert [] + ws == ws;
    StartsMidway(g, ws, degree, strict);
    LinkAllKeeps(g.live, n, ws, degree, s, [], strict);
    var t := LinkAll(g.live, n, ws, degree, s);
    PublishKeeps(t.lists, g.live, n, ws, t.rejected, degree, strict);
  }

  lemma {:induction false} UnlinkFacts(lists: map<nat, seq<Scored>>, live: set<nat>, n: nat, ns: seq<Scored>)
    requires live <= lists.Keys && forall u :: u in live ==> Tidy(lists[u])
    ensures var r := Unlink(lists, live, n, ns);
      forall u :: u in live ==>
        && Tidy(r[u]) && |r[u]| <= |lists[u]|
        && forall y :: y in r[u] <==> y in lists[u] && !(y.index == n && Names(ns, u))
    decreases |ns|
  {
    if ns != [] {
      var m, tail := ns[0].index, ns[1..];
      var lists' := if m in live then lists[m := Retain(lists[m], {n})] else lists;
      if m in live { RetainTidy(lists[m], {n}); }
      UnlinkFacts(lists', live, n, tail);
      forall u ensures Names(ns, u) <==> u == m || Names(tail, u) {
        assert ns == [ns[0]] + tail;
        if u == m { assert ns[0] in ns; }
        if Names(tail, u) {
          var x :| x in tail && x.index == u;
          assert x in ns;
        }
      }
    }
  }

  lemma RemovedKeeps(g: Graph, n: nat, degree: nat, strict: bool)
    requires Inv(g, degree, strict)
    ensures Inv(Removed(g, n, degree, strict), degree, strict)
  {
    if n in g.live {
      var live := g.live - {n};
      var ns := if strict then g.lists[n][..Min(degree, |g.lists[n]|)] else [];
      UnlinkFacts(g.lists, live, n, ns);
      var lists := Unlink(g.lists, live, n, ns);
      if strict {
        assert ns == g.lists[n];
        forall u: nat, x: Scored | u in live && x in lists[u] ensures x.index in live {
          assert x == Scored(x.index, x.score) && x in g.lists[u];
          if x.index == n { NamedBack(g, u, n, x.score); }
        }
      }
    }
  }

  lemma NamedBack(g: Graph, u: nat, n: nat, s: real)
    requires g.live <= g.lists.Keys && Mutual(g.lists, g.live)
    requires u in g.live && n in g.live && Scored(n, s) in g.lists[u]
    ensures Names(g.lists[n], u)
  {
    assert Scored(u, s) in g.lists[n];
  }

  // ---- every run -------------------------------------------------------------------------------

  datatype Op = Insert(proposals: seq<Scored>) | Remove(slot: nat) | Clear

  function Apply(g: Graph, op: Op, degree: nat, strict: bool): Graph
    requires g.live <= g.lists.Keys
  {
    match op
    case Insert(proposals) => Inserted(g, proposals, degree)
    case Remove(slot) => Removed(g, slot, degree, strict)
    case Clear => EmptyGraph
  }

  lemma ApplyKeeps(g: Graph, op: Op, degree: nat, strict: bool)
    requires Inv(g, degree, strict)
    ensures Inv(Apply(g, op, degree, strict), degree, strict)
  {
    match op
    case Insert(proposals) => InsertedKeeps(g, proposals, degree, strict);
    case Remove(slot) => RemovedKeeps(g, slot, degree, strict);
    case Clear =>
  }

  /** The graph after a run of operations on an empty index. */
  function Run(ops: seq<Op>, degree: nat, strict: bool): (g: Graph)
    ensures Inv(g, degree, strict)
    decreases |ops|
  {
    if ops == [] then EmptyGraph
    else
      var g := Run(ops[..|ops| - 1], degree, strict);
      ApplyKeeps(g, ops[|ops| - 1], degree, strict);
      Apply(g, ops[|ops| - 1], degree, strict)
  }

  /** After every run of inserts, removals and clears, whatever candidates were routed: the witness
      relation on live nodes is symmetric, irreflexive and degree-bounded, each list ranked and free
      of repetitions; in strict mode no live node names a deleted one. */
  lemma WitnessesAlwaysMutual(ops: seq<Op>, degree: nat, strict: bool)
    ensures var g := Run(ops, degree, strict);
      && (forall u, v, s :: u in g.live && v in g.live ==> (Scored(v, s) in g.lists[u] <==> Scored(u, s) in g.lists[v]))
      && (forall u :: u in g.live ==> !Names(g.lists[u], u) && Tidy(g.lists[u]) && |g.lists[u]| <= degree)
      && (strict ==> forall u, x :: u in g.live && x in g.lists[u] ==> x.index in g.live)
  {
    var g := Run(ops, degree, strict);
    forall u, v, s | u in g.live && v in g.live ensures Scored(v, s) in g.lists[u] <==> Scored(u, s) in g.lists[v] {
      assert Mutual(g.lists, g.live);
    }
  }

  /** A removed node is forgotten by all live nodes exactly in strict mode, unless nobody named it. */
  lemma RemovedIsForgottenIff(g: Graph, n: nat, degree: nat, strict: bool)
    requires Inv(g, degree, strict) && n in g.live
    ensures var r := Removed(g, n, degree, strict);
      (forall u :: u in r.live ==> !Names(r.lists[u], n)) <==>
        strict || forall u :: u in r.live ==> !Names(g.lists[u], n)
  {
    var r := Removed(g, n, degree, strict);
    RemovedKeeps(g, n, degree, strict);
    if strict {
      forall u | u in r.live ensures !Names(r.lists[u], n) {
        assert forall x :: x in r.lists[u] ==> x.index in r.live;
      }
    }
  }

  /** The graph as the selection of witnesses sees it. */
  function Seen(g: Graph, sim: nat -> real): WitnessSelection.View {
    WitnessSelection.View(g.live, (i: nat) => if i in g.lists then g.lists[i] else [], sim)
  }

  lemma {:induction false} OnlyLiveAll(l: seq<Scored>, live: set<nat>)
    requires forall x :: x in l ==> x.index in live
    ensures OnlyLive(l, live) == l
    decreases |l|
  {
    if l != [] {
      OnlyLiveAll(l[..|l| - 1], live);
      assert l == l[..|l| - 1] + [l[|l| - 1]];
    }
  }

  /** Only live slots are proposed. */
  lemma AllLive(g: Graph, sim: nat -> real, cands: seq<nat>, finds: nat -> bool, degree: nat)
    requires WitnessSelection.Sound(finds, cands)
    ensures var p := WitnessSelection.Proposed(Seen(g, sim), cands, finds, degree); OnlyLive(p, g.live) == p
  {
    WitnessSelection.ProposedLive(Seen(g, sim), cands, finds, degree);
    OnlyLiveAll(WitnessSelection.Proposed(Seen(g, sim), cands, finds, degree), g.live);
  }

  lemma WitnessesChosen(g: Graph, sim: nat -> real, cands: seq<nat>, finds: nat -> bool, degree: nat)
    requires WitnessSelection.Sound(finds, cands)
    ensures var p := WitnessSelection.Proposed(Seen(g, sim), cands, finds, degree); var ws := SelectTop(p, degree);
      && ws == SelectTop(OnlyLive(p, g.live), degree) && OncePerSlot(ws) && (ws != [] ==> degree > 0)
      && forall x :: x in ws ==> x.index in g.live
  {
    AllLive(g, sim, cands, finds, degree);
    SelectTopFacts(WitnessSelection.Proposed(Seen(g, sim), cands, finds, degree), degree);
  }

  lemma {:induction false} RunStep(ops: seq<Op>, op: Op, degree: nat, strict: bool)
    ensures Run(ops + [op], degree, strict) == Apply(Run(ops, degree, strict), op, degree, strict)
  {
    assert (ops + [op])[..|ops|] == ops;
  }

  lemma SelectOne(x: Scored)
    ensures SelectTop([x], 1) == [x] && SelectTop([], 1) == []
  {
    assert [x][1..] == [] && Rank([x]) == [x];
    assert Select([x], 1, []) == Select([], 1, [x]);
  }

  lemma LinkFirst(x: Scored, y: Scored)
    requires x.index == 0 && y == Scored(1, x.score)
    ensures LinkAll({0}, 1, [x], 1, Linking(map[0 := [], 1 := [x]], {})) == Linking(map[0 := [y], 1 := [x]], {})
  {
    var s := Linking(map[0 := [], 1 := [x]], {});
    assert InsertReciprocal([], y, 1) == Insertion([y], true, None) by {
      assert Retain([], {1}) == [] && Placed([], y) == [y];
    }
    assert LinkOne({0}, 1, x, 1, s).lists == map[0 := [y], 1 := [x]];
    assert [x][1..] == [];
  }

  lemma InsertTwo(x: Scored, y: Scored)
    requires x.index == 0 && y == Scored(1, x.score)
    ensures Inserted(EmptyGraph, [], 1) == Graph(map[0 := []], {0}, 1)
    ensures Inserted(Graph(map[0 := []], {0}, 1), [x], 1) == Graph(map[0 := [y], 1 := [x]], {0, 1}, 2)
  {
    SelectOne(x);
    OnlyLiveAll([x], {0});
    LinkFirst(x, y);
    RetainAll([x], {});
  }

  /** Outside strict mode a live node goes on naming a removed one: two inserts, the first removed. */
  lemma {:induction false} RemovedStaysNamed(score: real)
    ensures var g := Run([] + [Insert([])] + [Insert([Scored(0, score)])] + [Remove(0)], 1, false);
      g.live == {1} && Scored(0, score) in g.lists[1]
  {
    var x := Scored(0, score);
    RunStep([], Insert([]), 1, false);
    RunStep([] + [Insert([])], Insert([x]), 1, false);
    RunStep([] + [Insert([])] + [Insert([x])], Remove(0), 1, false);
    InsertTwo(x, Scored(1, score));
  }

  // ---- the index's witness lists, updated in place ---------------------------------------------

  class WitnessIndex {
    const degree: nat
    const strict: bool
    var lists: map<nat, seq<Scored>>
    var live: set<nat>
    var next: nat

    ghost function View(): Graph
      reads this
    {
      Graph(lists, live, next)
    }

    ghost predicate Valid()
      reads this
    {
      degree <= MAX_DEGREE && Inv(View(), degree, strict)
    }

    constructor (requested: nat, strict: bool)
      ensures Valid() && View() == EmptyGraph && degree == BoundedDegree(requested) && this.strict == strict
    {
      degree := BoundedDegree(requested);
      this.strict := strict;
      lists, live, next := map[], {}, 0;
    }

    /** The witness part of `insert_internal`: route, score, expand and select, write the node, link
        back, publish. `finds` is the bisection of the route list. */
    method Insert(cands: seq<nat>, sim: nat -> real, finds: nat -> bool) returns (n: nat)
      requires Valid() && WitnessSelection.Sound(finds, cands)
      modifies this
      ensures Valid() && n == old(next)
      ensures var proposals := WitnessSelection.Proposed(Seen(old(View()), sim), cands, finds, degree);
        View() == Inserted(old(View()), proposals, degree)
    {
      ghost var g := View();
      WitnessesChosen(g, sim, cands, finds, degree);
      InsertedKeeps(g, WitnessSelection.Proposed(Seen(g, sim), cands, finds, degree), degree, strict);
      var ws, _ := WitnessSelection.SelectRivero(Seen(Graph(lists, live, next), sim), cands, finds, degree);
      n := Adopt(ws);
    }

    method Adopt(ws: seq<Scored>) returns (n: nat)
      requires Valid() && OncePerSlot(ws) && (ws != [] ==> degree > 0) && forall x :: x in ws ==> x.index in live
      modifies this
      ensures View() == Adopted(old(View()), ws, degree) && n == old(next)
    {
      n := next;
      StartsMidway(View(), ws, degree, strict);
      lists := lists[n := ws];
      var rejected := AddReciprocal(n, ws);
      lists := lists[n := Retain(lists[n], rejected)];
      live := live + {n};
      next := n + 1;
    }

    /** `add_reciprocal_rivero_witnesses` up to the final retain. */
    method AddReciprocal(n: nat, ws: seq<Scored>) returns (rejected: set<nat>)
      requires degree <= MAX_DEGREE && n !in live && (ws != [] ==> degree > 0)
      requires Midway(lists, live, n, [], {}, degree, strict)
      requires OncePerSlot(ws) && forall x :: x in ws ==> x.index in live
      modifies this`lists
      ensures lists.Keys == old(lists).Keys
      ensures Linking(lists, rejected) == LinkAll(live, n, ws, degree, Linking(old(lists), {}))
    {
      rejected := {};
      assert ws[..0] == [] && ws[0..] == ws;
      for i := 0 to |ws|
        invariant lists.Keys == old(lists).Keys
        invariant Linked(live, n, ws, i, degree, Linking(lists, rejected), strict)
        invariant LinkAll(live, n, ws[i..], degree, Linking(lists, rejected)) ==
            LinkAll(live, n, ws, degree, Linking(old(lists), {}))
      {
        LinkIteration(live, n, ws, i, degree, Linking(lists, rejected), strict);
        rejected := LinkWitness(n, ws[i], rejected);
      }
    }

    /** One witness: insert the edge, note a refusal, undo the evicted edge on the other side. */
    method LinkWitness(n: nat, w: Scored, rejected0: set<nat>) returns (rejected: set<nat>)
      requires degree <= MAX_DEGREE && live <= lists.Keys && (w.index in live ==> Tidy(lists[w.index]))
      modifies this`lists
      ensures Linking(lists, rejected) == LinkOne(live, n, w, degree, Linking(old(lists), rejected0))
    {
      rejected := rejected0;
      if w.index !in live { return rejected + {w.index}; }
      var outcome := InsertEdge(lists[w.index], Scored(n, w.score), degree);
      lists := lists[w.index := outcome.list];
      if !outcome.retained { rejected := rejected + {w.index}; }
      if outcome.evicted.Some? {
        var e := outcome.evicted.value.index;
        if e != n && e in live {
          lists := lists[e := Retain(lists[e], {w.index})];
        }
      }
    }

    /** The witness part of `remove`. */
    method Remove(n: nat)
      requires Valid()
      modifies this
      ensures Valid() && View() == Removed(old(View()), n, degree, strict)
    {
      RemovedKeeps(View(), n, degree, strict);
      if n !in live { return; }
      var neighbours := [];
      if strict { neighbours := lists[n][..Min(degree, |lists[n]|)]; }
      live := live - {n};
      ghost var all := Unlink(lists, live, n, neighbours);
      for i := 0 to |neighbours|
        invariant live == old(live) - {n} && next == old(next) && live <= lists.Keys
        invariant Unlink(lists, live, n, neighbours[i..]) == all
      {
        assert neighbours[i..][1..] == neighbours[i + 1..];
        var m := neighbours[i].index;
        if m in live {
          lists := lists[m := Retain(lists[m], {n})];
        }
      }
    }

    /** The witness part of `clear`. */
    method ClearAll()
      requires Valid()
      modifies this
      ensures Valid() && View() == EmptyGraph
    {
      lists, live, next := map[], {}, 0;
    }
  }
}
