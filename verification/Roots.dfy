/** The entry points of the graph: how insert, remove and clear maintain the multi-root ensemble and the
    top level. Runs are serial, in a mode that builds the graph. */
module Roots {
  import opened Basics

  /** `levels` has the level of each claimed slot, `layer0` the slots in the order they joined. */
  datatype State = State(levels: seq<nat>, live: set<nat>, layer0: seq<nat>, entries: seq<nat>, top: nat)

  datatype Op = Insert(level: nat) | Remove(slot: nat) | Clear

  const Empty := State([], {}, [], [], 0)

  function Inserted(ensemble: nat, s: State, level: nat): State {
    var node := |s.levels|;
    var s' := s.(levels := s.levels + [level], live := s.live + {node}, layer0 := s.layer0 + [node]);
    if s.entries == [] || node == 0 || level > s.top then s'.(entries := [node], top := level)
    else if level == s.top && |s.entries| < ensemble && node !in s.entries then s'.(entries := s.entries + [node])
    else s'
  }

  /** The first other live slot of layer 0, as a list of at most one. */
  function Replacement(layer0: seq<nat>, live: set<nat>, gone: nat): (r: seq<nat>)
    ensures |r| <= 1 && forall i :: i in r ==> i in layer0 && i in live && i != gone
    ensures r == [] <==> forall i :: i in layer0 && i in live ==> i == gone
    decreases |layer0|
  {
    if layer0 == [] then []
    else if layer0[0] != gone && layer0[0] in live then [layer0[0]]
    else Replacement(layer0[1..], live, gone)
  }

  /** `s` without its first `x`. */
  function WithoutFirst(s: seq<nat>, x: nat): seq<nat>
    decreases |s|
  {
    if s == [] then [] else if s[0] == x then s[1..] else [s[0]] + WithoutFirst(s[1..], x)
  }

  /** Removing a live slot. */
  function Removed(s: State, slot: nat): State {
    if slot !in s.live then s
    else
      var s' := s.(live := s.live - {slot});
      if slot !in s.entries then s'
      else
        var left := WithoutFirst(s.entries, slot);
        s'.(entries := if left == [] then Replacement(s.layer0, s'.live, slot) else left)
  }

  function After(ensemble: nat, s: State, op: Op): State {
    match op
    case Insert(level) => Inserted(ensemble, s, level)
    case Remove(slot) => Removed(s, slot)
    case Clear => Empty
  }

  function Run(ensemble: nat, ops: seq<Op>): State
    decreases |ops|
  {
    if ops == [] then Empty else After(ensemble, Run(ensemble, ops[..|ops| - 1]), ops[|ops| - 1])
  }

  // ---- the invariant ---------------------------------------------------------------------------

  ghost predicate Inv(ensemble: nat, s: State) {
    // an entry point exists exactly when a live node does
    && (s.entries == [] <==> s.live == {})
    // entry points are live, distinct and few
    && (forall i :: i in s.entries ==> i in s.live)
    && Distinct(s.entries) && |s.entries| <= Max(1, ensemble)
    // the top level bounds every live node's level
    && (forall i :: i in s.live ==> i < |s.levels| && s.levels[i] <= s.top)
    // layer 0 lists every live node
    && (forall i :: i in s.live ==> i in s.layer0)
  }

  lemma {:induction false} WithoutFirstFacts(s: seq<nat>, x: nat)
    requires Distinct(s) && x in s
    ensures var r := WithoutFirst(s, x); Distinct(r) && |r| == |s| - 1 && forall i :: i in r <==> i in s && i != x
    decreases |s|
  {
    if s[0] == x {
      forall i | i in s && i != x ensures i in s[1..] {}
    } else {
      var r := WithoutFirst(s[1..], x);
      WithoutFirstFacts(s[1..], x);
      assert s == [s[0]] + s[1..];
      assert s[0] !in s[1..];
    }
  }

  lemma InsertedKeeps(ensemble: nat, s: State, level: nat)
    requires Inv(ensemble, s)
    ensures Inv(ensemble, Inserted(ensemble, s, level))
  {
    var node, s' := |s.levels|, Inserted(ensemble, s, level);
    assert node in s'.live;
    assert s'.entries != [];
  }

  lemma RemovedKeeps(ensemble: nat, s: State, slot: nat)
    requires Inv(ensemble, s)
    ensures Inv(ensemble, Removed(s, slot))
  {
    if slot in s.live && slot in s.entries {
      WithoutFirstFacts(s.entries, slot);
      var s' := Removed(s, slot);
      if s'.live != {} {
        var i :| i in s'.live;
        assert i in s.layer0;
      }
      if s'.entries != [] { assert s'.entries[0] in s'.live; }
    } else if slot in s.live {
      assert s.entries[0] in s.live - {slot};
    }
  }

  /** What an insertion does to the roots: a node above the top level, or the first one, becomes the only
      entry point and sets the top level; one on the top level joins them while there is room; any other
      leaves them alone. */
  lemma InsertionRoots(ensemble: nat, s: State, level: nat)
    requires Inv(ensemble, s)
    ensures var r, node := Inserted(ensemble, s, level), |s.levels|;
      && r.levels == s.levels + [level] && r.live == s.live + {node} && r.layer0 == s.layer0 + [node]
      && (r.top != s.top ==> r.top == level && r.entries == [node])
      && (node in r.entries <==> s.live == {} || level > s.top || (level == s.top && |s.entries| < ensemble))
      && (s.live != {} && level <= s.top ==>
            r.top == s.top && (r.entries == s.entries || r.entries == s.entries + [node]))
      && (s.live == {} || level > s.top ==> r.entries == [node] && r.top == level)
  {
    var node := |s.levels|;
    assert node == 0 ==> s.live == {};
    if s.entries != [] { assert s.entries[0] in s.live; }
    forall i | i in s.entries ensures i != node { assert i in s.live; }
  }

  /** What a removal does to them: the slot goes, the others stay in order, and if none is left the first
      other live slot of layer 0 takes over, if there is one. */
  lemma RemovalRoots(ensemble: nat, s: State, slot: nat)
    requires Inv(ensemble, s)
    ensures var r := Removed(s, slot);
      && r.live == s.live - {slot} && r.levels == s.levels && r.top == s.top && r.layer0 == s.layer0
      && slot !in r.entries
      && (slot !in s.entries ==> r.entries == s.entries)
      && (slot in s.entries && |s.entries| > 1 ==>
            exists p :: 0 <= p < |s.entries| && s.entries[p] == slot
              && r.entries == s.entries[..p] + s.entries[p + 1..])
      && (s.entries == [slot] && r.live != {} ==>
            exists p :: 0 <= p < |s.layer0| && r.entries == [s.layer0[p]] && s.layer0[p] in r.live
              && forall i :: 0 <= i < p ==> s.layer0[i] !in r.live)
  {
    if slot in s.entries {
      assert slot in s.live;
      WithoutFirstFacts(s.entries, slot);
      var p := WithoutFirstIs(s.entries, slot);
      if s.entries == [slot] && s.live - {slot} != {} {
        var i :| i in s.live - {slot};
        assert i in s.layer0;
        ReplacementIs(s.layer0, s.live - {slot}, slot);
      }
    } else if slot !in s.live {
      assert s.live - {slot} == s.live;
    }
  }

  lemma {:induction false} WithoutFirstIs(s: seq<nat>, x: nat) returns (p: nat)
    requires x in s
    ensures p < |s| && s[p] == x && WithoutFirst(s, x) == s[..p] + s[p + 1..]
    decreases |s|
  {
    p := 0;
    if s[0] != x {
      var t := s[1..];
      var q := WithoutFirstIs(t, x);
      p := q + 1;
      assert s[..p] == [s[0]] + t[..q] && s[p + 1..] == t[q + 1..];
    }
  }

  lemma {:induction false} ReplacementIs(layer0: seq<nat>, live: set<nat>, gone: nat)
    requires gone !in live && exists i :: i in layer0 && i in live
    ensures exists p :: 0 <= p < |layer0| && Replacement(layer0, live, gone) == [layer0[p]] && layer0[p] in live
              && forall i :: 0 <= i < p ==> layer0[i] !in live
    decreases |layer0|
  {
    if layer0[0] !in live {
      var i :| i in layer0 && i in live;
      assert i in layer0[1..];
      ReplacementIs(layer0[1..], live, gone);
      var t := layer0[1..];
      var p :| 0 <= p < |t| && Replacement(t, live, gone) == [t[p]] && t[p] in live
        && forall i :: 0 <= i < p ==> t[i] !in live;
      assert layer0[p + 1] == t[p];
      forall i | 0 <= i < p + 1 ensures layer0[i] !in live { assert i > 0 ==> layer0[i] == t[i - 1]; }
    }
  }

  /** In every run an entry point exists exactly when a live node does, entry points are live, distinct
      and at most `max(1, ensemble)`, and the top level bounds every live node's level. */
  lemma {:induction false} EntryPointsSound(ensemble: nat, ops: seq<Op>)
    ensures Inv(ensemble, Run(ensemble, ops))
    decreases |ops|
  {
    if ops != [] {
      var n := |ops| - 1;
      EntryPointsSound(ensemble, ops[..n]);
      var s := Run(ensemble, ops[..n]);
      match ops[n]
      case Insert(level) => InsertedKeeps(ensemble, s, level);
      case Remove(slot) => RemovedKeeps(ensemble, s, slot);
      case Clear =>
    }
  }

  // ---- entry points on the top level -----------------------------------------------------------

  /** Every entry point is on the top level. */
  ghost predicate Topmost(s: State) { forall i :: i in s.entries ==> i < |s.levels| && s.levels[i] == s.top }

  /** The one operation that loses this: removing the last entry point when the first other live slot
      of layer 0 is on a lower level. The top level is not lowered then. */
  predicate Strands(s: State, op: Op) {
    && op.Remove? && s.entries == [op.slot]
    && var r := Replacement(s.layer0, s.live - {op.slot}, op.slot);
       r != [] && r[0] < |s.levels| && s.levels[r[0]] != s.top
  }

  lemma StaysTopmostIff(ensemble: nat, s: State, op: Op)
    requires Inv(ensemble, s) && Topmost(s)
    ensures Topmost(After(ensemble, s, op)) <==> !Strands(s, op)
  {
    if op.Remove? && op.slot in s.entries {
      WithoutFirstFacts(s.entries, op.slot);
      var r := Replacement(s.layer0, s.live - {op.slot}, op.slot);
      if |s.entries| == 1 {
        assert s.entries == [op.slot];
        assert r != [] ==> r[0] in r;
      }
    }
  }

  /** It does happen: a node on level 3, one on level 0, and the first removed. */
  lemma StrandedEntry()
    ensures var s := Run(1, [Insert(3), Insert(0), Remove(0)]); s.levels == [3, 0] && s.entries == [1] && s.top == 3
  {
    var ops := [Insert(3), Insert(0), Remove(0)];
    assert ops[..2] == [Insert(3), Insert(0)] && ops[..2][..1] == [Insert(3)] && ops[..1][..0] == [];
    assert Run(1, ops[..1]) == State([3], {0}, [0], [0], 3);
    assert Run(1, ops[..2]) == State([3, 0], {0, 1}, [0, 1], [0], 3);
    assert [0, 1][1..] == [1];
  }

  // ---- the roots as they change ----------------------------------------------------------------

  class Ensemble {
    const size: nat
    var levels: seq<nat>
    var live: set<nat>
    var layer0: seq<nat>
    var entries: seq<nat>
    var top: nat

    ghost function Value(): State
      reads this
    {
      State(levels, live, layer0, entries, top)
    }

    constructor (size: nat)
      ensures this.size == size && Value() == Empty
    {
      this.size, levels, live, layer0, entries, top := size, [], {}, [], [], 0;
    }

    method Insert(level: nat) returns (node: nat)
      modifies this
      ensures Value() == Inserted(size, old(Value()), level) && node == |old(levels)|
    {
      node := |levels|;
      levels, live, layer0 := levels + [level], live + {node}, layer0 + [node];
      if entries == [] || node == 0 {
        entries, top := [node], level;
        return;
      }
      if level > top {
        entries, top := [node], level;
      } else if level == top {
        if |entries| < size && node !in entries { entries := entries + [node]; }
      }
    }

    method Remove(slot: nat) returns (found: bool)
      modifies this`live, this`entries
      ensures Value() == Removed(old(Value()), slot) && found == (slot in old(live))
    {
      if slot !in live { return false; }
      live := live - {slot};
      found := true;
      var pos := Position(entries, slot);
      if pos < |entries| {
        ghost var before := entries;
        entries := entries[..pos] + entries[pos + 1..];
        WithoutAt(before, slot, pos);
        if entries == [] {
          var i := 0;
          while i < |layer0| && (layer0[i] == slot || layer0[i] !in live)
            invariant i <= |layer0| && live == old(live) - {slot} && entries == [] && layer0 == old(layer0)
            invariant Replacement(layer0[i..], live, slot) == Replacement(layer0, live, slot)
          {
            assert layer0[i..][1..] == layer0[i + 1..];
            i := i + 1;
          }
          if i < |layer0| { entries := [layer0[i]]; }
        }
      }
    }

    method ClearAll()
      modifies this
      ensures Value() == Empty
    {
      levels, live, layer0, entries, top := [], {}, [], [], 0;
    }
  }

  method Position(s: seq<nat>, x: nat) returns (pos: nat)
    ensures pos <= |s| && (pos < |s| ==> s[pos] == x) && forall i :: 0 <= i < pos ==> s[i] != x
  {
    pos := 0;
    while pos < |s| && s[pos] != x
      invariant pos <= |s| && forall i :: 0 <= i < pos ==> s[i] != x
    {
      pos := pos + 1;
    }
  }

  lemma {:induction false} WithoutAt(s: seq<nat>, x: nat, pos: nat)
    requires pos < |s| && s[pos] == x && forall i :: 0 <= i < pos ==> s[i] != x
    ensures WithoutFirst(s, x) == s[..pos] + s[pos + 1..]
    decreases |s|
  {
    if pos > 0 {
      WithoutAt(s[1..], x, pos - 1);
      assert [s[0]] + (s[1..][..pos - 1] + s[1..][pos..]) == s[..pos] + s[pos + 1..];
    } else {
      assert s[..0] + s[1..] == s[1..];
    }
  }
}
