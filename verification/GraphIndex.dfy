/** The graph as a whole: roots, descent, layer searches, neighbour selection and wiring together. Every
    run of insertions that search the very graph they extend keeps it sound. */
module GraphIndex {
  import opened Basics
  import opened Ranking
  import opened Neighbours
  import Wiring
  import Roots
  import Descent
  import BackLinks
  import WitnessLists

  datatype State = State(net: Wiring.Net, roots: Roots.State)

  const Empty := State(Wiring.Net([], {}), Roots.Empty)

  /** The net as a search walks it. */
  function SpaceOf(n: Wiring.Net): Descent.Space {
    Descent.Space(n.live, |n.nodes|, (l: nat) => seq(|n.nodes|, i requires 0 <= i < |n.nodes| => Wiring.Conns(n, i, l)))
  }

  lemma SpaceProper(c: Wiring.Config, n: Wiring.Net)
    requires Wiring.Inv(c, n)
    ensures Descent.Proper(SpaceOf(n))
  {
    var sp := SpaceOf(n);
    forall l: nat, i, j | 0 <= i < |n.nodes| && 0 <= j < |sp.adj(l)[i]| ensures sp.adj(l)[i][j] < |n.nodes| {
      var list := Wiring.Conns(n, i, l);
      assert Wiring.Has(n, i, l);
      assert Wiring.Fine(c, |n.nodes|, l, list);
      assert list[j] in list;
    }
  }

  function From(sim: Similarity, node: nat): nat -> real { (i: nat) => sim(node, i) }

  /** What the insertion of `node` finds on each of its levels, searching the net it has just joined. */
  ghost function Found(s: Descent.Searcher, sim: Similarity, g: Wiring.Net, node: nat, roots: Roots.State, levels: nat,
                       ef: nat): seq<seq<Scored>>
    requires Descent.Fit(s) && Descent.Proper(SpaceOf(g)) && roots.entries != [] && levels > 0
  {
    Descent.Insertion(s, SpaceOf(g), From(sim, node), roots.entries, roots.top, levels, ef)
  }

  /** The net after an insertion; the first node finds nothing. */
  ghost function NetAfter(c: Wiring.Config, st: State, s: Descent.Searcher, sim: Similarity, ef: nat,
                          level: nat): Wiring.Net
    requires Descent.Fit(s) && Wiring.Inv(c, st.net)
  {
    var g := Wiring.Grown(st.net, level + 1);
    Wiring.GrownKeeps(c, st.net, level + 1);
    SpaceProper(c, g);
    if st.roots.entries == [] || st.net.nodes == [] then g
    else Wiring.Inserted(c, sim, st.net, Found(s, sim, g, |st.net.nodes|, st.roots, level + 1, ef))
  }

  ghost function Inserted(c: Wiring.Config, ensemble: nat, st: State, s: Descent.Searcher, sim: Similarity, ef: nat,
                          level: nat): State
    requires Descent.Fit(s) && Wiring.Inv(c, st.net)
  {
    State(NetAfter(c, st, s, sim, ef, level), Roots.Inserted(ensemble, st.roots, level))
  }

  /** Both halves are sound and speak of the same nodes. */
  ghost predicate Inv(c: Wiring.Config, ensemble: nat, st: State) {
    && Wiring.Inv(c, st.net) && Roots.Inv(ensemble, st.roots)
    && st.net.live == st.roots.live && |st.net.nodes| == |st.roots.levels|
  }

  lemma SaneSearched(n: Wiring.Net, levels: nat, q: nat -> real, found: seq<Scored>)
    requires Descent.Sane(SpaceOf(Wiring.Grown(n, levels)), q, found)
    ensures Wiring.Searched(n, found)
  {
    forall x | x in found ensures x.index <= |n.nodes| {
      var i :| 0 <= i < |found| && found[i] == x;
      assert Descent.Placed(SpaceOf(Wiring.Grown(n, levels)), q, found[i]);
    }
    assert forall i :: 0 <= i < |found| ==> Indices(found)[i] == found[i].index;
  }

  /** The searches of an insertion hand over what the wiring needs. */
  lemma FoundSearched(c: Wiring.Config, ensemble: nat, st: State, s: Descent.Searcher, sim: Similarity, ef: nat,
                      level: nat)
    requires Inv(c, ensemble, st) && Descent.Fit(s) && st.roots.entries != []
    ensures var g := Wiring.Grown(st.net, level + 1);
      && Descent.Proper(SpaceOf(g))
      && var found := Found(s, sim, g, |st.net.nodes|, st.roots, level + 1, ef);
         |found| == level + 1 && forall l :: 0 <= l <= level ==> Wiring.Searched(st.net, found[l])
  {
    var g := Wiring.Grown(st.net, level + 1);
    Wiring.GrownKeeps(c, st.net, level + 1);
    SpaceProper(c, g);
    var sp, q := SpaceOf(g), From(sim, |st.net.nodes|);
    Descent.InsertionFinds(s, sp, q, st.roots.entries, st.roots.top, level + 1, ef);
    var found := Descent.Insertion(s, sp, q, st.roots.entries, st.roots.top, level + 1, ef);
    forall l | 0 <= l <= level ensures Wiring.Searched(st.net, found[l]) {
      SaneSearched(st.net, level + 1, q, found[l]);
    }
  }

  lemma InsertedKeeps(c: Wiring.Config, ensemble: nat, st: State, s: Descent.Searcher, sim: Similarity, ef: nat,
                      level: nat)
    requires Inv(c, ensemble, st) && Descent.Fit(s)
    ensures Inv(c, ensemble, Inserted(c, ensemble, st, s, sim, ef, level))
  {
    Roots.InsertedKeeps(ensemble, st.roots, level);
    Wiring.GrownKeeps(c, st.net, level + 1);
    if st.roots.entries != [] && st.net.nodes != [] {
      FoundSearched(c, ensemble, st, s, sim, ef, level);
      Wiring.InsertedKeeps(c, sim, st.net, Found(s, sim, Wiring.Grown(st.net, level + 1), |st.net.nodes|, st.roots,
          level + 1, ef));
    }
  }

  // ---- what an insertion achieves --------------------------------------------------------------

  /** The list of the new node on a level is a choice from what was found there. */
  ghost predicate ChosenWell(c: Wiring.Config, sim: Similarity, g: Wiring.Net, node: nat, level: nat,
                             found: seq<Scored>, list: seq<nat>) {
    if c.heuristic then BackLinks.DiverselyChosen(c, sim, g, node, level, found, list)
    else BackLinks.PlainlyChosen(node, Wiring.Cap(c, level), found, list)
  }

  /** The other lists: those of live slots the new node has chosen link back, the rest is as it was. */
  ghost predicate LinkedTo(c: Wiring.Config, sim: Similarity, n: Wiring.Net, r: Wiring.Net, node: nat) {
    && node < |r.nodes|
    && forall i: nat, l: nat :: Wiring.Has(n, i, l) ==>
         && Wiring.Has(r, i, l)
         && if l < |r.nodes[node]| && i in r.nodes[node][l] && i in n.live then
              BackLinks.LinkedBack(c, sim, i, l, n.nodes[i][l], node, r.nodes[i][l])
            else r.nodes[i][l] == n.nodes[i][l]
  }

  lemma ChosenFromFound(c: Wiring.Config, sim: Similarity, g: Wiring.Net, node: nat, level: nat, found: seq<Scored>)
    requires WitnessLists.OncePerSlot(found) && Ranked(found)
    ensures ChosenWell(c, sim, g, node, level, found, Wiring.Chosen(c, sim, g, node, level, found))
  {
    if c.heuristic {
      BackLinks.DiverseChoice(c, sim, g, node, level, found);
    } else {
      BackLinks.PlainChoice(c, sim, g, node, level, found);
    }
  }

  /** The lists are choices, level by level, from lists found by an ascending search entered at `at`. */
  ghost predicate ChosenAscending(c: Wiring.Config, sim: Similarity, g: Wiring.Net, node: nat, ef: nat, at: Scored,
                                  lists: seq<seq<nat>>)
    requires Descent.Proper(SpaceOf(g))
  {
    exists found: seq<seq<Scored>>, q: nat -> real ::
      && (forall i: nat :: q(i) == sim(node, i))
      && |found| == |lists| && Descent.AscendsThrough(SpaceOf(g), q, ef, at, found)
      && forall l: nat :: l < |lists| ==> ChosenWell(c, sim, g, node, l, found[l], lists[l])
  }

  lemma AllChosenWell(c: Wiring.Config, sim: Similarity, n: Wiring.Net, g: Wiring.Net, node: nat, ef: nat, at: Scored,
                      found: seq<seq<Scored>>)
    requires Descent.Proper(SpaceOf(g)) && Descent.AscendsThrough(SpaceOf(g), From(sim, node), ef, at, found)
    requires forall l :: 0 <= l < |found| ==> Wiring.Searched(n, found[l])
    ensures ChosenAscending(c, sim, g, node, ef, at, Wiring.AllChosen(c, sim, g, node, found))
  {
    var lists := Wiring.AllChosen(c, sim, g, node, found);
    forall l: nat | l < |found| ensures ChosenWell(c, sim, g, node, l, found[l], lists[l]) {
      Descent.RankedThroughout(SpaceOf(g), From(sim, node), ef, at, found, l);
      ChosenFromFound(c, sim, g, node, l, found[l]);
    }
  }

  lemma WiredTo(c: Wiring.Config, sim: Similarity, n: Wiring.Net, found: seq<seq<Scored>>)
    requires Wiring.Inv(c, n) && forall l :: 0 <= l < |found| ==> Wiring.Searched(n, found[l])
    ensures LinkedTo(c, sim, n, Wiring.Inserted(c, sim, n, found), |n.nodes|)
  {
    BackLinks.InsertedLinksBack(c, sim, n, found);
    var r := Wiring.Inserted(c, sim, n, found);
    forall i: nat, l: nat | Wiring.Has(n, i, l) ensures Wiring.Has(r, i, l) {}
  }

  /** An insertion into a graph with roots: on every level its search ends at a local optimum, entered no
      worse than above; the new node's lists are choices from what was found; the chosen live slots link
      back, and no other list changes. */
  lemma InsertionConnects(c: Wiring.Config, ensemble: nat, st: State, s: Descent.Searcher, sim: Similarity, ef: nat,
                          level: nat)
    requires Inv(c, ensemble, st) && Descent.Fit(s) && st.roots.entries != [] && ef > 0
    ensures var g, node, r := Wiring.Grown(st.net, level + 1), |st.net.nodes|, NetAfter(c, st, s, sim, ef, level);
      && Descent.Proper(SpaceOf(g)) && |r.nodes| == node + 1 && |r.nodes[node]| == level + 1
      && r.live == st.net.live + {node} && LinkedTo(c, sim, st.net, r, node)
      && ChosenAscending(c, sim, g, node, ef,
           Descent.Landing(s, SpaceOf(g), From(sim, node), st.roots.entries, st.roots.top, level), r.nodes[node])
  {
    FoundSearched(c, ensemble, st, s, sim, ef, level);
    FoundAscends(c, ensemble, st, s, sim, ef, level);
    var g, node := Wiring.Grown(st.net, level + 1), |st.net.nodes|;
    var found := Found(s, sim, g, node, st.roots, level + 1, ef);
    assert NetAfter(c, st, s, sim, ef, level) == Wiring.Inserted(c, sim, st.net, found) by {
      assert st.roots.entries[0] in st.roots.live;
    }
    FoundWired(c, sim, st.net, g, ef,
      Descent.Landing(s, SpaceOf(g), From(sim, node), st.roots.entries, st.roots.top, level), found);
  }

  lemma FoundAscends(c: Wiring.Config, ensemble: nat, st: State, s: Descent.Searcher, sim: Similarity, ef: nat,
                     level: nat)
    requires Inv(c, ensemble, st) && Descent.Fit(s) && st.roots.entries != [] && ef > 0
    ensures var g := Wiring.Grown(st.net, level + 1); var sp, q := SpaceOf(g), From(sim, |st.net.nodes|);
      && Descent.Proper(sp)
      && Descent.AscendsThrough(sp, q, ef, Descent.Landing(s, sp, q, st.roots.entries, st.roots.top, level),
           Found(s, sim, g, |st.net.nodes|, st.roots, level + 1, ef))
  {
    var g := Wiring.Grown(st.net, level + 1);
    FoundSearched(c, ensemble, st, s, sim, ef, level);
    Descent.InsertionAscends(s, SpaceOf(g), From(sim, |st.net.nodes|), st.roots.entries, st.roots.top, level + 1, ef);
  }

  lemma FoundWired(c: Wiring.Config, sim: Similarity, n: Wiring.Net, g: Wiring.Net, ef: nat, at: Scored,
                   found: seq<seq<Scored>>)
    requires Wiring.Inv(c, n) && g == Wiring.Grown(n, |found|) && Descent.Proper(SpaceOf(g))
    requires forall l :: 0 <= l < |found| ==> Wiring.Searched(n, found[l])
    requires Descent.AscendsThrough(SpaceOf(g), From(sim, |n.nodes|), ef, at, found)
    ensures var node, r := |n.nodes|, Wiring.Inserted(c, sim, n, found);
      && |r.nodes| == node + 1 && |r.nodes[node]| == |found| && r.live == n.live + {node}
      && LinkedTo(c, sim, n, r, node) && ChosenAscending(c, sim, g, node, ef, at, r.nodes[node])
  {
    Wiring.InsertedKeeps(c, sim, n, found);
    WiredTo(c, sim, n, found);
    AllChosenWell(c, sim, n, g, |n.nodes|, ef, at, found);
  }

  // ---- runs ------------------------------------------------------------------------------------

  /** Insertions may search and measure differently each time. */
  datatype Op = Insert(level: nat, s: Descent.Searcher, sim: Similarity, ef: nat) | Remove(slot: nat) | Clear

  ghost function After(c: Wiring.Config, ensemble: nat, st: State, op: Op): State
    requires Wiring.Inv(c, st.net) && (op.Insert? ==> Descent.Fit(op.s))
  {
    match op
    case Insert(level, s, sim, ef) => Inserted(c, ensemble, st, s, sim, ef, level)
    case Remove(i) => State(st.net.(live := st.net.live - {i}), Roots.Removed(st.roots, i))
    case Clear => Empty
  }

  /** The graph after a run; every run is sound: connection lists are distinct, within `m0` and `m`, among
      claimed slots; entry points exist exactly when live nodes do, are live, distinct and few; the top
      level bounds every live level. */
  ghost function Run(c: Wiring.Config, ensemble: nat, ops: seq<Op>): (st: State)
    requires forall i :: 0 <= i < |ops| && ops[i].Insert? ==> Descent.Fit(ops[i].s)
    ensures Inv(c, ensemble, st)
    decreases |ops|
  {
    if ops == [] then Empty
    else
      var st, op := Run(c, ensemble, ops[..|ops| - 1]), ops[|ops| - 1];
      AfterKeeps(c, ensemble, st, op);
      After(c, ensemble, st, op)
  }

  lemma AfterKeeps(c: Wiring.Config, ensemble: nat, st: State, op: Op)
    requires Inv(c, ensemble, st) && (op.Insert? ==> Descent.Fit(op.s))
    ensures Inv(c, ensemble, After(c, ensemble, st, op))
  {
    match op
    case Insert(level, s, sim, ef) => InsertedKeeps(c, ensemble, st, s, sim, ef, level);
    case Remove(i) => Roots.RemovedKeeps(ensemble, st.roots, i);
    case Clear =>
  }

  /** After every run a search of the graph is safe: the roots are slots of a well-formed graph, and it
      starts at least as close to the query as every live root. */
  lemma SearchAfterRun(c: Wiring.Config, ensemble: nat, ops: seq<Op>, s: Descent.Searcher, sim: nat -> real)
    requires Descent.Fit(s) && forall i :: 0 <= i < |ops| && ops[i].Insert? ==> Descent.Fit(ops[i].s)
    ensures var st := Run(c, ensemble, ops); var sp := SpaceOf(st.net);
      && Descent.Proper(sp) && Descent.RootsIn(sp, st.roots.entries)
      && (st.net.live != {} ==> st.roots.entries != [])
      && forall i :: i in st.roots.entries ==>
           i in st.net.live && sim(i) <= Descent.Landing(s, sp, sim, st.roots.entries, st.roots.top, 0).score
  {
    var st := Run(c, ensemble, ops);
    SpaceProper(c, st.net);
    if st.net.live != {} { Descent.LandingFacts(s, SpaceOf(st.net), sim, st.roots.entries, st.roots.top, 0); }
  }

  /** What that means: in every run, whatever the searches find, every connection list is distinct, within
      its limit and among claimed slots, and the entry points are sound. */
  lemma GraphAlwaysSound(c: Wiring.Config, ensemble: nat, ops: seq<Op>)
    requires forall i :: 0 <= i < |ops| && ops[i].Insert? ==> Descent.Fit(ops[i].s)
    ensures var st := Run(c, ensemble, ops);
      && (forall i: nat, l: nat :: Wiring.Has(st.net, i, l) ==>
            var list := st.net.nodes[i][l];
            && Distinct(list) && |list| <= (if l == 0 then c.m0 else c.m)
            && forall x :: x in list ==> x < |st.net.nodes|)
      && (st.roots.entries == [] <==> st.net.live == {})
      && (forall i :: i in st.roots.entries ==> i in st.net.live)
      && Distinct(st.roots.entries) && |st.roots.entries| <= Max(1, ensemble)
  {
    var st := Run(c, ensemble, ops);
    forall i: nat, l: nat | Wiring.Has(st.net, i, l) ensures Wiring.Fine(c, |st.net.nodes|, l, st.net.nodes[i][l]) {
    }
  }

  // ---- the index as it changes -----------------------------------------------------------------

  class Index {
    const graph: Wiring.Graph
    const roots: Roots.Ensemble

    ghost function Value(): State
      reads graph, roots
    {
      State(graph.Value(), roots.Value())
    }

    ghost predicate Valid()
      reads graph, roots
    {
      Inv(graph.config, roots.size, Value())
    }

    constructor (config: Wiring.Config, ensemble: nat)
      ensures Valid() && graph.config == config && roots.size == ensemble && Value() == Empty
      ensures fresh(graph) && fresh(roots)
    {
      var g := new Wiring.Graph(config);
      var r := new Roots.Ensemble(ensemble);
      graph, roots := g, r;
    }

    /** Join the graph, search it from the roots, connect, update the roots. */
    method Insert(level: nat, s: Descent.Searcher, sim: Similarity, ef: nat) returns (node: nat)
      requires Valid() && Descent.Fit(s)
      modifies graph, roots
      ensures Valid()
      ensures Value() == Inserted(graph.config, roots.size, old(Value()), s, sim, ef, level)
      ensures node == |old(graph.nodes)|
    {
      InsertedKeeps(graph.config, roots.size, Value(), s, sim, ef, level);
      node := Enter(level, s, sim, ef);
      var _ := roots.Insert(level);
    }

    /** The graph's part of it. */
    method Enter(level: nat, s: Descent.Searcher, sim: Similarity, ef: nat) returns (node: nat)
      requires Valid() && Descent.Fit(s)
      modifies graph
      ensures graph.Value() == NetAfter(graph.config, old(Value()), s, sim, ef, level) && node == |old(graph.nodes)|
    {
      ghost var st := Value();
      node := graph.Join(level + 1);
      if roots.entries != [] && node != 0 {
        FoundSearched(graph.config, roots.size, st, s, sim, ef, level);
        var found := Look(graph.Value(), node, level + 1, s, sim, ef);
        graph.Connect(sim, node, found);
      }
    }

    method Look(g: Wiring.Net, node: nat, levels: nat, s: Descent.Searcher, sim: Similarity, ef: nat)
        returns (found: seq<seq<Scored>>)
      requires Descent.Fit(s) && Descent.Proper(SpaceOf(g)) && levels > 0
      requires roots.entries != [] && Descent.RootsIn(SpaceOf(g), roots.entries)
      ensures found == Found(s, sim, g, node, roots.Value(), levels, ef) && |found| == levels
    {
      found := Descent.SearchLevels(s, SpaceOf(g), From(sim, node), roots.entries, roots.top, levels, ef);
    }

    method Remove(slot: nat)
      requires Valid()
      modifies graph`live, roots`live, roots`entries
      ensures Valid() && Value() == After(graph.config, roots.size, old(Value()), Op.Remove(slot))
    {
      AfterKeeps(graph.config, roots.size, Value(), Op.Remove(slot));
      graph.Remove(slot);
      var _ := roots.Remove(slot);
    }

    /** A graph search by roots, descent and base layer. */
    method Search(s: Descent.Searcher, sim: nat -> real, mask: Option<set<nat>>, ef: nat, k: nat)
        returns (hits: seq<Scored>)
      requires Valid() && Descent.Fit(s)
      ensures Descent.Proper(SpaceOf(graph.Value())) && Descent.RootsIn(SpaceOf(graph.Value()), roots.entries)
      ensures hits == Descent.GraphSearch(s, SpaceOf(graph.Value()), sim, mask, roots.entries, roots.top, ef, k)
    {
      SpaceProper(graph.config, graph.Value());
      hits := Descent.SearchGraph(s, SpaceOf(graph.Value()), sim, mask, roots.entries, roots.top, ef, k);
    }
  }
}
