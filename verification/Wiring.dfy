/** Edge wiring of a graph insertion: the new node links its selected neighbours at every level, each
    live neighbour links back, and a list that grows past its limit is pruned. */
module Wiring {
  import opened Basics
  import opened Ranking
  import opened WitnessLists
  import opened Neighbours

  datatype Config = Config(m0: nat, m: nat, heuristic: bool, extend: bool, keep: bool)

  function Cap(c: Config, level: nat): nat { if level == 0 then c.m0 else c.m }

  /** Per slot and level, the connection list; and the live slots. */
  datatype Net = Net(nodes: seq<seq<seq<nat>>>, live: set<nat>)

  predicate Has(n: Net, i: nat, level: nat) { i < |n.nodes| && level < |n.nodes[i]| }

  function Conns(n: Net, i: nat, level: nat): seq<nat> { if Has(n, i, level) then n.nodes[i][level] else [] }

  /** Levels a node does not have are ignored. */
  function SetConns(n: Net, i: nat, level: nat, list: seq<nat>): Net {
    if Has(n, i, level) then n.(nodes := n.nodes[i := n.nodes[i][level := list]]) else n
  }

  function AddConn(n: Net, i: nat, level: nat, x: nat): Net {
    if x in Conns(n, i, level) then n else SetConns(n, i, level, Conns(n, i, level) + [x])
  }

  function LiveConns(n: Net, level: nat): nat -> seq<nat> { (i: nat) => if i in n.live then Conns(n, i, level) else [] }

  function Measured(sim: Similarity, base: nat, list: seq<nat>): seq<Scored> {
    seq(|list|, i requires 0 <= i < |list| => Scored(list[i], sim(base, list[i])))
  }

  function Front(s: seq<Scored>, m: nat): seq<nat> { Indices(s)[..Min(m, |s|)] }

  /** An overfull list of `i`, cut to the limit. */
  function Pruned(c: Config, sim: Similarity, n: Net, i: nat, level: nat, list: seq<nat>): seq<nat> {
    var cands := Measured(sim, i, list);
    if c.heuristic && level == 0 then Selected(sim, i, LiveConns(n, level), cands, Cap(c, level), false, c.keep)
    else Front(SortStable(cands), Cap(c, level))
  }

  /** One edge: the new node to `x`, and back if `x` is live. */
  function Wire(c: Config, sim: Similarity, n: Net, node: nat, level: nat, x: nat): Net {
    var n1 := AddConn(n, node, level, x);
    if x !in n.live then n1
    else
      var n2 := AddConn(n1, x, level, node);
      var list := Conns(n2, x, level);
      if |list| > Cap(c, level) then SetConns(n2, x, level, Pruned(c, sim, n2, x, level, list)) else n2
  }

  function WireAll(c: Config, sim: Similarity, n: Net, node: nat, level: nat, xs: seq<nat>): Net
    decreases |xs|
  {
    if xs == [] then n else WireAll(c, sim, Wire(c, sim, n, node, level, xs[0]), node, level, xs[1..])
  }

  /** Levels `level - 1` down to 0. */
  function WireLevels(c: Config, sim: Similarity, n: Net, node: nat, chosen: seq<seq<nat>>, level: nat): Net
    requires level <= |chosen|
    decreases level
  {
    if level == 0 then n
    else WireLevels(c, sim, WireAll(c, sim, n, node, level - 1, chosen[level - 1]), node, chosen, level - 1)
  }

  function Without(s: seq<Scored>, node: nat): seq<Scored>
    decreases |s|
  {
    if s == [] then [] else (if s[0].index == node then [] else [s[0]]) + Without(s[1..], node)
  }

  /** The neighbours chosen at one level from what the layer search found there. */
  function Chosen(c: Config, sim: Similarity, n: Net, node: nat, level: nat, found: seq<Scored>): seq<nat> {
    var cands := Without(found, node);
    if c.heuristic then Selected(sim, node, LiveConns(n, level), cands, Cap(c, level), c.extend, c.keep)
    else Front(cands, Cap(c, level))
  }

  function AllChosen(c: Config, sim: Similarity, n: Net, node: nat, found: seq<seq<Scored>>): seq<seq<nat>> {
    seq(|found|, l requires 0 <= l < |found| => Chosen(c, sim, n, node, l, found[l]))
  }

  /** The new slot, live and without connections, with one level per entry of `found`. */
  function Grown(n: Net, levels: nat): Net {
    Net(n.nodes + [seq(levels, l => [])], n.live + {|n.nodes|})
  }

  /** A graph insertion; `found` has the layer search's result per level, all empty for the first node. */
  function Inserted(c: Config, sim: Similarity, n: Net, found: seq<seq<Scored>>): Net {
    var node, n' := |n.nodes|, Grown(n, |found|);
    WireLevels(c, sim, n', node, AllChosen(c, sim, n', node, found), |found|)
  }

  // ---- the invariant ---------------------------------------------------------------------------

  /** A connection list of a level: no slot twice, within the limit, only claimed slots. */
  ghost predicate Fine(c: Config, slots: nat, level: nat, list: seq<nat>) {
    Distinct(list) && |list| <= Cap(c, level) && forall x :: x in list ==> x < slots
  }

  ghost predicate Inv(c: Config, n: Net) {
    && (forall i :: i in n.live ==> i < |n.nodes|)
    && forall i: nat, l: nat :: Has(n, i, l) ==> Fine(c, |n.nodes|, l, n.nodes[i][l])
  }

  lemma SetKeeps(c: Config, n: Net, i: nat, level: nat, list: seq<nat>)
    requires Inv(c, n) && Fine(c, |n.nodes|, level, list)
    ensures var r := SetConns(n, i, level, list); Inv(c, r) && |r.nodes| == |n.nodes| && r.live == n.live
  {
    var r := SetConns(n, i, level, list);
    forall j: nat, l: nat | Has(r, j, l) ensures Fine(c, |r.nodes|, l, r.nodes[j][l]) { assert Has(n, j, l); }
  }

  lemma SetTwice(n: Net, i: nat, level: nat, a: seq<nat>, b: seq<nat>)
    ensures SetConns(SetConns(n, i, level, a), i, level, b) == SetConns(n, i, level, b)
  {
    if Has(n, i, level) {
      assert n.nodes[i][level := a][level := b] == n.nodes[i][level := b];
      assert n.nodes[i := n.nodes[i][level := a]][i := n.nodes[i][level := b]] == n.nodes[i := n.nodes[i][level := b]];
    }
  }

  lemma FrontFine(s: seq<Scored>, m: nat)
    requires OncePerSlot(s)
    ensures Distinct(Front(s, m)) && |Front(s, m)| <= m && forall i :: i in Front(s, m) ==> Names(s, i)
  {
    forall i | i in Front(s, m) ensures Names(s, i) {
      var j :| 0 <= j < Min(m, |s|) && Indices(s)[j] == i;
      assert s[j] in s;
    }
  }

  lemma MeasuredFacts(sim: Similarity, base: nat, list: seq<nat>)
    requires Distinct(list)
    ensures OncePerSlot(Measured(sim, base, list)) && forall i :: Names(Measured(sim, base, list), i) ==> i in list
  {
  }

  lemma SortedNames(s: seq<Scored>)
    requires OncePerSlot(s)
    ensures OncePerSlot(SortStable(s)) && forall i :: Names(SortStable(s), i) ==> Names(s, i)
  {
    SortStableFacts(s);
    OncePerSlotPermutation(s, SortStable(s));
    forall i | Names(SortStable(s), i) ensures Names(s, i) {
      var x :| x in SortStable(s) && x.index == i;
      assert x in multiset(SortStable(s));
    }
  }

  /** Pruning keeps a part of the list, within the limit. */
  lemma PrunedFine(c: Config, sim: Similarity, n: Net, i: nat, level: nat, list: seq<nat>)
    requires Distinct(list)
    ensures var r := Pruned(c, sim, n, i, level, list);
      Distinct(r) && |r| <= Cap(c, level) && forall x :: x in r ==> x in list
  {
    var cands := Measured(sim, i, list);
    MeasuredFacts(sim, i, list);
    if c.heuristic && level == 0 {
      SelectedFacts(sim, i, LiveConns(n, level), cands, Cap(c, level), false, c.keep);
    } else {
      SortedNames(cands);
      FrontFine(SortStable(cands), Cap(c, level));
    }
  }

  lemma AppendFine(c: Config, slots: nat, level: nat, list: seq<nat>, x: nat)
    requires Distinct(list) && x !in list && x < slots && forall y :: y in list ==> y < slots
    ensures Distinct(list + [x]) && forall y :: y in list + [x] ==> y < slots
  {
  }

  /** The way back: `x` links `node` and is pruned if need be; only the list of `x` changes. */
  lemma LinkBack(c: Config, sim: Similarity, n: Net, x: nat, level: nat, node: nat)
    requires Inv(c, n) && node < |n.nodes|
    ensures var n2 := AddConn(n, x, level, node); var list := Conns(n2, x, level);
      var r := if |list| > Cap(c, level) then SetConns(n2, x, level, Pruned(c, sim, n2, x, level, list)) else n2;
      && Inv(c, r) && |r.nodes| == |n.nodes| && r.live == n.live
      && forall j :: 0 <= j < |n.nodes| && j != x ==> r.nodes[j] == n.nodes[j]
  {
    var n2 := AddConn(n, x, level, node);
    var list := Conns(n2, x, level);
    if Has(n, x, level) && node !in n.nodes[x][level] {
      assert Fine(c, |n.nodes|, level, n.nodes[x][level]);
      AppendFine(c, |n.nodes|, level, n.nodes[x][level], node);
      assert list == n.nodes[x][level] + [node];
      if |list| > Cap(c, level) {
        var p := Pruned(c, sim, n2, x, level, list);
        PrunedFine(c, sim, n2, x, level, list);
        SetKeeps(c, n, x, level, p);
        SetTwice(n, x, level, list, p);
      } else {
        SetKeeps(c, n, x, level, list);
      }
    } else {
      assert Has(n, x, level) ==> Fine(c, |n.nodes|, level, n.nodes[x][level]);
    }
  }

  /** One edge: the new node's list grows by `x`, everything stays within its limits. */
  lemma WireKeeps(c: Config, sim: Similarity, n: Net, node: nat, level: nat, x: nat)
    requires Inv(c, n) && Has(n, node, level) && x < |n.nodes| && x != node
    requires x !in n.nodes[node][level] && |n.nodes[node][level]| < Cap(c, level)
    ensures var r := Wire(c, sim, n, node, level, x);
      && Inv(c, r) && |r.nodes| == |n.nodes| && r.live == n.live
      && r.nodes[node] == n.nodes[node][level := n.nodes[node][level] + [x]]
  {
    var list := n.nodes[node][level];
    assert Fine(c, |n.nodes|, level, list);
    AppendFine(c, |n.nodes|, level, list, x);
    SetKeeps(c, n, node, level, list + [x]);
    LinkBack(c, sim, SetConns(n, node, level, list + [x]), x, level, node);
  }

  /** What may be linked at a level: distinct claimed slots other than the node, within the limit. */
  ghost predicate Linkable(c: Config, slots: nat, node: nat, level: nat, xs: seq<nat>) {
    Fine(c, slots, level, xs) && node !in xs
  }

  lemma {:induction false} WireAllKeeps(c: Config, sim: Similarity, n: Net, node: nat, level: nat, xs: seq<nat>)
    requires Inv(c, n) && Has(n, node, level) && Linkable(c, |n.nodes|, node, level, n.nodes[node][level] + xs)
    ensures var r := WireAll(c, sim, n, node, level, xs);
      && Inv(c, r) && |r.nodes| == |n.nodes| && r.live == n.live
      && r.nodes[node] == n.nodes[node][level := n.nodes[node][level] + xs]
    decreases |xs|
  {
    var list := n.nodes[node][level];
    if xs == [] {
      assert list + xs == list;
    } else {
      var all := list + xs;
      assert all[|list|] == xs[0] && all[..|list|] == list;
      assert xs[0] in all;
      WireKeeps(c, sim, n, node, level, xs[0]);
      assert (list + [xs[0]]) + xs[1..] == all;
      WireAllKeeps(c, sim, Wire(c, sim, n, node, level, xs[0]), node, level, xs[1..]);
    }
  }

  /** The new node's lists once the levels from `level` up are wired. */
  function Half(chosen: seq<seq<nat>>, level: nat): seq<seq<nat>> {
    seq(|chosen|, l requires 0 <= l < |chosen| => if l < level then [] else chosen[l])
  }

  lemma HalfStep(chosen: seq<seq<nat>>, l: nat)
    requires l < |chosen|
    ensures Half(chosen, l + 1)[l] == [] && Half(chosen, l + 1)[l := chosen[l]] == Half(chosen, l)
  {
  }

  /** After all levels, the new node's lists are exactly the chosen neighbours. */
  lemma {:induction false} WireLevelsKeeps(c: Config, sim: Similarity, n: Net, node: nat, chosen: seq<seq<nat>>,
                                           level: nat)
    requires Inv(c, n) && node < |n.nodes| && level <= |chosen| && n.nodes[node] == Half(chosen, level)
    requires forall l :: 0 <= l < |chosen| ==> Linkable(c, |n.nodes|, node, l, chosen[l])
    ensures var r := WireLevels(c, sim, n, node, chosen, level);
      Inv(c, r) && |r.nodes| == |n.nodes| && r.live == n.live && r.nodes[node] == chosen
    decreases level
  {
    if level == 0 {
      assert Half(chosen, 0) == chosen;
    } else {
      var l := level - 1;
      HalfStep(chosen, l);
      assert [] + chosen[l] == chosen[l];
      WireAllKeeps(c, sim, n, node, l, chosen[l]);
      WireLevelsKeeps(c, sim, WireAll(c, sim, n, node, l, chosen[l]), node, chosen, l);
    }
  }

  /** What the layer search may hand over: no slot twice, only claimed slots. */
  ghost predicate Searched(n: Net, found: seq<Scored>) {
    OncePerSlot(found) && forall x :: x in found ==> x.index <= |n.nodes|
  }

  lemma {:induction false} WithoutFacts(s: seq<Scored>, node: nat)
    requires OncePerSlot(s)
    ensures var r := Without(s, node); OncePerSlot(r) && forall x :: x in r <==> x in s && x.index != node
    decreases |s|
  {
    if s != [] {
      var t := Without(s[1..], node);
      WithoutFacts(s[1..], node);
      assert s == [s[0]] + s[1..];
      assert forall x :: x in s[1..] ==> x.index != s[0].index by {
        assert forall j :: 0 <= j < |s[1..]| ==> s[1..][j] == s[j + 1];
      }
      assert forall j :: 0 <= j < |t| ==> t[j] in s[1..];
    }
  }

  ghost predicate Within(pool: seq<Scored>, slots: nat) { forall x :: x in pool ==> x.index < slots }

  lemma GrownKeeps(c: Config, n: Net, levels: nat)
    requires Inv(c, n)
    ensures Inv(c, Grown(n, levels))
    ensures forall i: nat, l: nat, y: nat :: y in Conns(Grown(n, levels), i, l) ==> y < |n.nodes|
  {
    var g := Grown(n, levels);
    forall i: nat, l: nat | Has(g, i, l)
      ensures Fine(c, |g.nodes|, l, g.nodes[i][l]) && forall y :: y in g.nodes[i][l] ==> y < |n.nodes|
    {
      if i < |n.nodes| { assert Has(n, i, l) && Fine(c, |n.nodes|, l, n.nodes[i][l]); }
    }
  }

  /** No list names the new slot yet, so an extended pool does not either. */
  lemma PoolWithin(c: Config, sim: Similarity, n: Net, levels: nat, level: nat, cands: seq<Scored>, m: nat,
                   extend: bool)
    requires Inv(c, n) && OncePerSlot(cands) && Within(cands, |n.nodes|)
    ensures Within(Pool(sim, |n.nodes|, LiveConns(Grown(n, levels), level), cands, m, extend), |n.nodes|)
  {
    GrownKeeps(c, n, levels);
    if extend {
      var conns := LiveConns(Grown(n, levels), level);
      ExtendFacts(sim, |n.nodes|, conns, Indices(cands)[..Min(m, |cands|)], cands);
    }
  }

  /** Whatever the search found, the neighbours chosen may be linked. */
  lemma ChosenLinkable(c: Config, sim: Similarity, n: Net, levels: nat, level: nat, found: seq<Scored>)
    requires Inv(c, n) && Searched(n, found)
    ensures Linkable(c, |n.nodes| + 1, |n.nodes|, level, Chosen(c, sim, Grown(n, levels), |n.nodes|, level, found))
  {
    var node, g := |n.nodes|, Grown(n, levels);
    var cands := Without(found, node);
    WithoutFacts(found, node);
    if c.heuristic {
      SelectedFacts(sim, node, LiveConns(g, level), cands, Cap(c, level), c.extend, c.keep);
      PoolWithin(c, sim, n, levels, level, cands, Cap(c, level), c.extend);
    } else {
      FrontFine(cands, Cap(c, level));
    }
  }

  /** A graph insertion keeps every connection list distinct and within its limit, and the new node's
      lists are exactly the neighbours chosen. */
  lemma InsertedKeeps(c: Config, sim: Similarity, n: Net, found: seq<seq<Scored>>)
    requires Inv(c, n) && forall l :: 0 <= l < |found| ==> Searched(n, found[l])
    ensures var r, node := Inserted(c, sim, n, found), |n.nodes|;
      && Inv(c, r) && |r.nodes| == node + 1 && r.live == n.live + {node}
      && r.nodes[node] == AllChosen(c, sim, Grown(n, |found|), node, found)
  {
    var node, g := |n.nodes|, Grown(n, |found|);
    var chosen := AllChosen(c, sim, g, node, found);
    GrownKeeps(c, n, |found|);
    forall l | 0 <= l < |found| ensures Linkable(c, node + 1, node, l, chosen[l]) {
      ChosenLinkable(c, sim, n, |found|, l, found[l]);
    }
    assert g.nodes[node] == Half(chosen, |found|);
    WireLevelsKeeps(c, sim, g, node, chosen, |found|);
  }

  // ---- runs ------------------------------------------------------------------------------------

  /** `sim` may differ from insertion to insertion; removals leave the lists alone. */
  datatype Op = Insert(sim: Similarity, found: seq<seq<Scored>>) | Remove(slot: nat) | Clear

  ghost function After(c: Config, n: Net, op: Op): Net {
    match op
    case Insert(sim, found) => Inserted(c, sim, n, found)
    case Remove(i) => n.(live := n.live - {i})
    case Clear => Net([], {})
  }

  ghost predicate Allowed(n: Net, op: Op) {
    op.Insert? ==> forall l :: 0 <= l < |op.found| ==> Searched(n, op.found[l])
  }

  ghost function Run(c: Config, ops: seq<Op>): Net
    decreases |ops|
  {
    if ops == [] then Net([], {}) else After(c, Run(c, ops[..|ops| - 1]), ops[|ops| - 1])
  }

  /** Every run keeps every connection list distinct, within `m0` on level 0 and `m` above, and among
      the claimed slots. */
  lemma {:induction false} ListsStayBounded(c: Config, ops: seq<Op>)
    requires forall i :: 0 <= i < |ops| ==> Allowed(Run(c, ops[..i]), ops[i])
    ensures Inv(c, Run(c, ops))
    ensures forall i: nat, l: nat :: Has(Run(c, ops), i, l) ==>
      |Run(c, ops).nodes[i][l]| <= if l == 0 then c.m0 else c.m
    decreases |ops|
  {
    if ops != [] {
      var k := |ops| - 1;
      assert forall i :: 0 <= i <= k ==> ops[..k][..i] == ops[..i];
      ListsStayBounded(c, ops[..k]);
      var n, op := Run(c, ops[..k]), ops[k];
      if op.Insert? { InsertedKeeps(c, op.sim, n, op.found); }
    }
    forall i: nat, l: nat | Has(Run(c, ops), i, l)
      ensures |Run(c, ops).nodes[i][l]| <= if l == 0 then c.m0 else c.m
    {
      assert Fine(c, |Run(c, ops).nodes|, l, Run(c, ops).nodes[i][l]);
    }
  }

  // ---- the graph as it changes -----------------------------------------------------------------

  class Graph {
    const config: Config
    var nodes: seq<seq<seq<nat>>>
    var live: set<nat>

    function Value(): Net
      reads this
    {
      Net(nodes, live)
    }

    constructor (config: Config)
      ensures this.config == config && Value() == Net([], {})
    {
      this.config, nodes, live := config, [], {};
    }

    method AddConnection(i: nat, level: nat, x: nat)
      modifies this`nodes
      ensures Value() == AddConn(old(Value()), i, level, x)
    {
      if i < |nodes| && level < |nodes[i]| && x !in nodes[i][level] {
        nodes := nodes[i := nodes[i][level := nodes[i][level] + [x]]];
      }
    }

    method SetConnections(i: nat, level: nat, list: seq<nat>)
      modifies this`nodes
      ensures Value() == SetConns(old(Value()), i, level, list)
    {
      if i < |nodes| && level < |nodes[i]| { nodes := nodes[i := nodes[i][level := list]]; }
    }

    method Prune(sim: Similarity, i: nat, level: nat, list: seq<nat>) returns (kept: seq<nat>)
      ensures kept == Pruned(config, sim, Value(), i, level, list)
    {
      var cands := Measured(sim, i, list);
      if config.heuristic && level == 0 {
        kept := SelectNeighbours(sim, i, LiveConns(Value(), level), cands, Cap(config, level), false, config.keep);
      } else {
        kept := Front(SortStable(cands), Cap(config, level));
      }
    }

    method WireEdge(sim: Similarity, node: nat, level: nat, x: nat)
      modifies this`nodes
      ensures Value() == Wire(config, sim, old(Value()), node, level, x)
    {
      AddConnection(node, level, x);
      if x in live {
        AddConnection(x, level, node);
        var list := Conns(Value(), x, level);
        if |list| > Cap(config, level) {
          var kept := Prune(sim, x, level, list);
          SetConnections(x, level, kept);
        }
      }
    }

    method WireLevel(sim: Similarity, node: nat, level: nat, xs: seq<nat>)
      modifies this`nodes
      ensures Value() == WireAll(config, sim, old(Value()), node, level, xs)
    {
      for i := 0 to |xs|
        invariant WireAll(config, sim, Value(), node, level, xs[i..]) ==
            WireAll(config, sim, old(Value()), node, level, xs)
      {
        assert xs[i..][1..] == xs[i + 1..];
        WireEdge(sim, node, level, xs[i]);
      }
    }

    method ChooseLevel(sim: Similarity, node: nat, level: nat, found: seq<Scored>) returns (xs: seq<nat>)
      ensures xs == Chosen(config, sim, Value(), node, level, found)
    {
      var cands := Without(found, node);
      if config.heuristic {
        xs := SelectNeighbours(sim, node, LiveConns(Value(), level), cands, Cap(config, level), config.extend,
            config.keep);
      } else {
        xs := Front(cands, Cap(config, level));
      }
    }

    /** A new node joins, live and without connections. */
    method Join(levels: nat) returns (node: nat)
      modifies this
      ensures Value() == Grown(old(Value()), levels) && node == |old(nodes)|
    {
      node := |nodes|;
      nodes, live := nodes + [seq(levels, l => [])], live + {node};
    }

    /** Selection on all levels comes first, from the top down, then the wiring. */
    method Connect(sim: Similarity, node: nat, found: seq<seq<Scored>>)
      modifies this`nodes
      ensures var chosen := AllChosen(config, sim, old(Value()), node, found);
        Value() == WireLevels(config, sim, old(Value()), node, chosen, |found|)
    {
      var levels := |found|;
      ghost var grown := Value();
      var chosen: seq<seq<nat>> := [];
      for l := levels downto 0
        invariant |chosen| == levels - l && Value() == grown
        invariant forall i :: l <= i < levels ==> chosen[i - l] == Chosen(config, sim, grown, node, i, found[i])
      {
        var xs := ChooseLevel(sim, node, l, found[l]);
        chosen := [xs] + chosen;
      }
      assert chosen == AllChosen(config, sim, grown, node, found);
      for l := levels downto 0
        invariant WireLevels(config, sim, Value(), node, chosen, l) ==
            WireLevels(config, sim, grown, node, chosen, levels)
      {
        WireLevel(sim, node, l, chosen[l]);
      }
    }

    /** A whole insertion, given what the searches found. */
    method Insert(sim: Similarity, found: seq<seq<Scored>>) returns (node: nat)
      modifies this
      ensures Value() == Inserted(config, sim, old(Value()), found) && node == |old(nodes)|
    {
      node := Join(|found|);
      Connect(sim, node, found);
    }

    method Remove(i: nat)
      modifies this`live
      ensures Value() == old(Value()).(live := old(live) - {i})
    {
      live := live - {i};
    }

    method ClearAll()
      modifies this
      ensures Value() == Net([], {})
    {
      nodes, live := [], {};
    }
  }
}
