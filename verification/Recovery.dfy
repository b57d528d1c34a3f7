/** Recovery from the journal as it runs: a recovery appends to the journal it replays, so what it leaves
    behind, what a second recovery makes of it, and what happens when the journal has several segments,
    all differ from a plain replay. */
module Recovery {
  import opened Basics
  import opened ComplexVectors
  import opened Journal

  type Index = (map<Id, Vector>, nat)

  const Fresh: Index := (map[], 0)

  // ---- what a recovery appends -----------------------------------------------------------------

  /** The deletion a recovery with `cap` slots appends for `r` after replaying `j`. */
  function Deleted(cap: nat, j: seq<Record>, r: Record): seq<Record> {
    if r.id in Replay(cap, j).0 then [Delete(r.id)] else []
  }

  function Repeated(r: Record): seq<Record> { if r.Upsert? then [r] else [] }

  /** What a recovery appends to the journal it replays: every upsert again, slot or no slot, and a
      deletion for every ID it finds live. */
  function Echo(cap: nat, j: seq<Record>): seq<Record> {
    if j == [] then [] else
      var r, k := j[|j| - 1], j[..|j| - 1];
      Echo(cap, k) + Deleted(cap, k, r) + Repeated(r)
  }

  lemma {:induction false} EchoUpserts(cap: nat, j: seq<Record>)
    ensures Upserts(Echo(cap, j)) == Upserts(j)
    decreases |j|
  {
    if j != [] {
      var r, k := j[|j| - 1], j[..|j| - 1];
      EchoUpserts(cap, k);
      UpsertsConcat(Echo(cap, k), Deleted(cap, k, r));
      UpsertsConcat(Echo(cap, k) + Deleted(cap, k, r), Repeated(r));
    }
  }

  /** A deletion before a record of the same ID changes nothing. */
  lemma DeleteFirst(cap: nat, t: Index, r: Record)
    ensures Replayed(cap, Replayed(cap, t, Delete(r.id)), r) == Replayed(cap, t, r)
  {
    assert (t.0 - {r.id}) - {r.id} == t.0 - {r.id};
    if r.Upsert? { assert (t.0 - {r.id})[r.id := r.vector] == t.0[r.id := r.vector]; }
  }

  /** Replaying, with `size` slots, the echo of the next record amounts to replaying the record, except
      that a deletion of an ID that was not live is missing. */
  lemma {:induction false} EchoStep(size: nat, s: Index, cap: nat, j: seq<Record>, n: nat)
    requires n < |j|
    ensures var t, r := ReplayFrom(size, s, Echo(cap, j[..n])), j[n];
      ReplayFrom(size, s, Echo(cap, j[..n + 1])) ==
        if r.Upsert? || r.id in Replay(cap, j[..n]).0 then Replayed(size, t, r) else t
  {
    var e, r := Echo(cap, j[..n]), j[n];
    assert j[..n + 1][..n] == j[..n];
    var d, u := Deleted(cap, j[..n], r), Repeated(r);
    assert Echo(cap, j[..n + 1]) == e + d + u;
    if d == [] { assert e + d == e; } else { ReplaySnoc(size, s, e, d[0]); }
    if u == [] { assert e + d + u == e + d; } else { ReplaySnoc(size, s, e + d, r); }
    DeleteFirst(size, ReplayFrom(size, s, e), r);
  }

  predicate Same(a: map<Id, Vector>, b: map<Id, Vector>, id: Id) {
    (id in a <==> id in b) && (id in a ==> a[id] == b[id])
  }

  lemma SameMaps(a: map<Id, Vector>, b: map<Id, Vector>)
    ensures a == b <==> forall id :: Same(a, b, id)
  {
    if forall id :: Same(a, b, id) {
      forall id ensures (id in a <==> id in b) && (id in a ==> a[id] == b[id]) { assert Same(a, b, id); }
    }
  }

  /** `id` is upserted at or after position `n`. */
  ghost predicate Upcoming(j: seq<Record>, n: nat, id: Id) { exists v: Vector :: Upsert(id, v) in j[Min(n, |j|)..] }

  lemma {:induction false} UpcomingStep(j: seq<Record>, n: nat, id: Id)
    requires n < |j| && Upcoming(j, n, id)
    ensures (j[n].Upsert? && j[n].id == id) || Upcoming(j, n + 1, id)
  {
    var v: Vector :| Upsert(id, v) in j[n..];
    assert j[n..] == [j[n]] + j[n + 1..];
  }

  lemma {:induction false} FoldedAreUpserted(j: seq<Record>, id: Id)
    requires id in Fold(j)
    ensures Upcoming(j, 0, id)
    decreases |j|
  {
    var n := |j| - 1;
    assert j[0..] == j;
    if j[n].id == id {
      assert j[n] == Upsert(id, j[n].vector);
    } else {
      FoldedAreUpserted(j[..n], id);
      var v: Vector :| Upsert(id, v) in j[..n][0..];
      assert Upsert(id, v) in j;
    }
  }

  // ---- recovering again ------------------------------------------------------------------------

  /** Slots a recovery of `j` leaves free. */
  function Left(cap: nat, j: seq<Record>): nat { Max(cap - Upserts(j), 0) }

  /** With `used` slots gone from the start, a replay never has an ID it would not have otherwise. */
  lemma {:induction false} ReplayWithin(cap: nat, used: nat, j: seq<Record>, id: Id)
    ensures Replay(cap, j).1 <= ReplayFrom(cap, (map[], used), j).1
    ensures id in ReplayFrom(cap, (map[], used), j).0 ==> id in Replay(cap, j).0
    decreases |j|
  {
    if j != [] { ReplayWithin(cap, used, j[..|j| - 1], id); }
  }

  lemma AgreeStep(cap: nat, a: Index, b: Index, r: Record, echoed: bool, id: Id, before: bool, after: bool)
    requires a.1 == b.1 && (Same(a.0, b.0, id) || before)
    requires before ==> (r.Upsert? && r.id == id) || after
    requires r.Upsert? || r.id in b.0 ==> echoed
    ensures var a', b' := if echoed then Replayed(cap, a, r) else a, Replayed(cap, b, r);
      a'.1 == b'.1 && (Same(a'.0, b'.0, id) || after)
  {
  }

  /** The two runs compared: the echo replayed over the journal's own result, and the journal replayed
      from nothing, both with `used` slots gone. */
  ghost function OverEcho(cap: nat, used: nat, j: seq<Record>, n: nat): Index
    requires n <= |j|
  {
    ReplayFrom(cap, (Replay(cap, j).0, used), Echo(cap, j[..n]))
  }

  ghost function FromNothing(cap: nat, used: nat, j: seq<Record>, n: nat): Index
    requires n <= |j|
  {
    ReplayFrom(cap, (map[], used), j[..n])
  }

  lemma {:induction false} OverEchoStep(cap: nat, used: nat, j: seq<Record>, n: nat)
    requires n < |j|
    ensures var a := OverEcho(cap, used, j, n);
      OverEcho(cap, used, j, n + 1) ==
        if j[n].Upsert? || j[n].id in Replay(cap, j[..n]).0 then Replayed(cap, a, j[n]) else a
  {
    EchoStep(cap, (Replay(cap, j).0, used), cap, j, n);
  }

  lemma {:induction false} FromNothingStep(cap: nat, used: nat, j: seq<Record>, n: nat)
    requires n < |j|
    ensures FromNothing(cap, used, j, n + 1) == Replayed(cap, FromNothing(cap, used, j, n), j[n])
    ensures j[n].id in FromNothing(cap, used, j, n).0 ==> j[n].id in Replay(cap, j[..n]).0
  {
    assert j[..n + 1] == j[..n] + [j[n]];
    ReplaySnoc(cap, (map[], used), j[..n], j[n]);
    ReplayWithin(cap, used, j[..n], j[n].id);
  }

  /** They agree on every ID not still to be upserted. */
  lemma {:induction false} EchoAgrees(cap: nat, used: nat, j: seq<Record>, n: nat, id: Id)
    requires n <= |j|
    ensures var a, b := OverEcho(cap, used, j, n), FromNothing(cap, used, j, n);
      a.1 == b.1 && (Same(a.0, b.0, id) || Upcoming(j, n, id))
    decreases n
  {
    if n == 0 {
      if id in Replay(cap, j).0 {
        ReplayedOf(j, cap, id);
        FoldedAreUpserted(j, id);
      }
    } else {
      var k := n - 1;
      EchoAgrees(cap, used, j, k, id);
      OverEchoStep(cap, used, j, k);
      FromNothingStep(cap, used, j, k);
      if Upcoming(j, k, id) { UpcomingStep(j, k, id); }
      AgreeStep(cap, OverEcho(cap, used, j, k), FromNothing(cap, used, j, k), j[k],
                j[k].Upsert? || j[k].id in Replay(cap, j[..k]).0, id, Upcoming(j, k, id), Upcoming(j, n, id));
    }
  }

  lemma {:induction false} UsedSlots(cap: nat, used: nat, j: seq<Record>)
    requires used <= cap
    ensures ReplayFrom(cap, (map[], used), j) == (Replay(cap - used, j).0, Replay(cap - used, j).1 + used)
    decreases |j|
  {
    if j != [] { UsedSlots(cap, used, j[..|j| - 1]); }
  }

  /** A journal followed by its echo replays like the journal alone into the slots that are left. */
  lemma {:induction false} EchoedReplay(cap: nat, j: seq<Record>)
    ensures Replay(cap, j + Echo(cap, j)).0 == Replay(Left(cap, j), j).0
  {
    var used := Min(Upserts(j), cap);
    ReplayedOf(j, cap, "");
    ReplayConcat(cap, Fresh, j, Echo(cap, j));
    UsedSlots(cap, used, j);
    var a, b := Replay(cap, j + Echo(cap, j)).0, Replay(Left(cap, j), j).0;
    assert j[..|j|] == j;
    forall id ensures Same(a, b, id) { EchoAgrees(cap, used, j, |j|, id); }
    SameMaps(a, b);
  }

  /** A second recovery restores what the first one did exactly when every ID the first one restored was
      last upserted within the slots the first one left free, for every journal and capacity. */
  lemma {:induction false} SecondRecoveryExactIff(j: seq<Record>, cap: nat)
    ensures Replay(cap, j + Echo(cap, j)).0 == Replay(cap, j).0
       <==> forall id :: id in Replay(cap, j).0 ==> !Late(j, Left(cap, j), id)
  {
    EchoedReplay(cap, j);
    var a, b := Replay(Left(cap, j), j).0, Replay(cap, j).0;
    SameMaps(a, b);
    forall id ensures Same(a, b, id) <==> (id in b ==> !Late(j, Left(cap, j), id)) {
      ReplayedOf(j, cap, id);
      ReplayedOf(j, Left(cap, j), id);
      LateEarlier(j, Left(cap, j), cap, id);
    }
  }

  lemma {:induction false} LateEarlier(j: seq<Record>, few: nat, many: nat, id: Id)
    requires few <= many
    ensures Late(j, many, id) ==> Late(j, few, id)
  {
  }

  lemma {:induction false} ReplayOne(cap: nat, r: Record)
    ensures Replay(cap, [r]) == Replayed(cap, Fresh, r)
    ensures Fresh.0 - {r.id} == map[]
  {
    ReplaySnoc(cap, Fresh, [], r);
    assert [] + [r] == [r];
    assert Fresh.0 - {r.id} == Fresh.0;
  }

  lemma {:induction false} ReplayTwo(cap: nat, r: Record, t: Record)
    ensures Replay(cap, [r, t]) == Replayed(cap, Replay(cap, [r]), t)
  {
    assert [r, t][..1] == [r];
  }

  /** Replay is not idempotent as documented: one vector in an index of one slot survives the first
      recovery and not the second. */
  lemma SecondRecoveryLoses(v: Vector)
    ensures var j := [Upsert("a", v)];
      Replay(1, j).0 == map["a" := v] && Replay(1, j + Echo(1, j)).0 == map[]
  {
    var j := [Upsert("a", v)];
    EnoughSlots(j, 1);
    EchoedReplay(1, j);
    assert j[..0] == [] && Left(1, j) == 0;
  }

  function TwoIntoOne(v: Vector): seq<Op> { [Insert("a", v, Written), Insert("b", v, Written)] }

  lemma {:induction false} TwoIntoOneRuns(v: Vector)
    ensures var l, ops := Limits(1, |v|), TwoIntoOne(v);
      && (forall i :: 0 <= i < |ops| ==> !Unrecoverable(l, Run(l, Empty, ops[..i]), ops[i]))
      && Run(l, Empty, ops) == State(map["a" := v], 1, [Upsert("a", v), Upsert("b", v)])
  {
    var l, ops := Limits(1, |v|), TwoIntoOne(v);
    assert ops[..1] == [ops[0]] && ops[..1][..0] == [] && ops[..0] == [];
    assert Run(l, Empty, ops[..1]) == State(map["a" := v], 1, [Upsert("a", v)]);
  }

  /** An insert into a full index is refused and recorded: the journal stands for more than is live. */
  lemma {:induction false} FullInsertLeavesPhantom(v: Vector)
    ensures var s := Run(Limits(1, |v|), Empty, TwoIntoOne(v));
      s.live == map["a" := v] && Fold(s.journal) == map["a" := v, "b" := v]
  {
    var r, t := Upsert("a", v), Upsert("b", v);
    TwoIntoOneRuns(v);
    SnocFacts([], r);
    SnocFacts([r], t);
    assert [] + [r] == [r] && [r] + [t] == [r, t];
  }

  /** The same after a run of recoverable operations only, with more upserts than slots. */
  lemma {:induction false} SecondRecoveryLosesFull(v: Vector)
    ensures var l, ops := Limits(1, |v|), TwoIntoOne(v); var j := Run(l, Empty, ops).journal;
      && (forall i :: 0 <= i < |ops| ==> !Unrecoverable(l, Run(l, Empty, ops[..i]), ops[i]))
      && Run(l, Empty, ops).live == Replay(1, j).0 == map["a" := v] && Replay(1, j + Echo(1, j)).0 == map[]
  {
    TwoIntoOneRuns(v);
    RunRebuilds(Limits(1, |v|), TwoIntoOne(v));
    TwoIntoOneReplays(Upsert("a", v), Upsert("b", v));
  }

  lemma {:induction false} TwoIntoOneReplays(r: Record, t: Record)
    requires r.Upsert? && t.Upsert?
    ensures Replay(1, [r, t] + Echo(1, [r, t])).0 == map[]
  {
    EchoedReplay(1, [r, t]);
    SnocFacts([], r);
    SnocFacts([r], t);
    assert [] + [r] == [r] && [r] + [t] == [r, t];
    ReplayOne(0, r);
    ReplayTwo(0, r, t);
    ReplayOne(0, t);
  }

  // ---- what the journal stands for afterwards --------------------------------------------------

  /** The last upsert of `id` finds every slot taken and is followed by a deletion of `id`. The recovery
      does not find `id` live then, and repeats the upsert without the deletion. */
  ghost predicate Revived(j: seq<Record>, cap: nat, id: Id) {
    exists k: nat {:trigger LastUpsertFor(j, k)} ::
      k < |j| && LastUpsertFor(j, k) && j[k].id == id && Upserts(j[..k]) >= cap && !LastFor(j, k)
  }

  ghost predicate LastUpsertFor(j: seq<Record>, k: nat)
    requires k < |j|
  {
    j[k].Upsert? && forall m :: k < m < |j| && j[m].id == j[k].id ==> j[m].Delete?
  }

  lemma {:induction false} RevivedSnoc(j: seq<Record>, r: Record, cap: nat, id: Id)
    ensures Revived(j + [r], cap, id) <==>
      if r.id == id then r.Delete? && (Late(j, cap, id) || Revived(j, cap, id)) else Revived(j, cap, id)
  {
    var t := j + [r];
    forall k: nat | k < |j|
      ensures t[k] == j[k] && t[..k] == j[..k]
      ensures LastUpsertFor(t, k) <==> LastUpsertFor(j, k) && (r.id == j[k].id ==> r.Delete?)
      ensures LastFor(t, k) <==> LastFor(j, k) && r.id != j[k].id
    {
      assert t[|j|] == r;
      assert forall m :: 0 <= m < |j| ==> t[m] == j[m];
    }
    assert LastFor(t, |j|);
    if Late(j, cap, id) {
      var k: nat :| k < |j| && LastFor(j, k) && j[k].Upsert? && j[k].id == id && Upserts(j[..k]) >= cap;
      assert LastUpsertFor(j, k);
    }
  }

  /** The echo read on as a plain journal, without slots. */
  ghost function FoldFrom(m: map<Id, Vector>, j: seq<Record>): map<Id, Vector> {
    if j == [] then m else Applied(FoldFrom(m, j[..|j| - 1]), j[|j| - 1])
  }

  lemma {:induction false} FoldConcat(a: seq<Record>, b: seq<Record>)
    ensures Fold(a + b) == FoldFrom(Fold(a), b)
    decreases |b|
  {
    if b == [] {
      assert a + b == a;
    } else {
      var n := |b| - 1;
      FoldConcat(a, b[..n]);
      assert a + b == (a + b[..n]) + [b[n]];
      SnocFacts(a + b[..n], b[n]);
    }
  }

  lemma {:induction false} FoldFromSnoc(m: map<Id, Vector>, j: seq<Record>, r: Record)
    ensures FoldFrom(m, j + [r]) == Applied(FoldFrom(m, j), r)
  {
    assert (j + [r])[..|j|] == j;
  }

  lemma DeleteThenApply(t: map<Id, Vector>, r: Record)
    ensures Applied(Applied(t, Delete(r.id)), r) == Applied(t, r)
  {
    if r.Upsert? { assert (t - {r.id})[r.id := r.vector] == t[r.id := r.vector]; }
  }

  lemma {:induction false} FoldEchoStep(m: map<Id, Vector>, cap: nat, p: seq<Record>, r: Record)
    ensures var t := FoldFrom(m, Echo(cap, p));
      FoldFrom(m, Echo(cap, p + [r])) == if r.Upsert? || r.id in Replay(cap, p).0 then Applied(t, r) else t
  {
    var e, d, u := Echo(cap, p), Deleted(cap, p, r), Repeated(r);
    assert (p + [r])[..|p|] == p;
    assert Echo(cap, p + [r]) == e + d + u;
    if d == [] { assert e + d == e; } else { FoldFromSnoc(m, e, d[0]); }
    if u == [] { assert e + d + u == e + d; } else { FoldFromSnoc(m, e + d, r); }
    DeleteThenApply(FoldFrom(m, e), r);
  }

  predicate TreatedAs(a: map<Id, Vector>, b: map<Id, Vector>, revived: bool, id: Id) {
    if revived then id in a && id !in b else Same(a, b, id)
  }

  lemma TreatOne(a: map<Id, Vector>, b: map<Id, Vector>, r: Record, held: bool, late: bool, revived: bool, id: Id)
    requires TreatedAs(a, b, revived, id) || (r.Upsert? && r.id == id)
    requires (revived ==> id !in b) && (late ==> id in b) && (r.id == id ==> (held <==> id in b && !late))
    ensures TreatedAs(if r.Upsert? || held then Applied(a, r) else a, Applied(b, r),
                      if r.id == id then r.Delete? && (late || revived) else revived, id)
  {
  }

  /** How the echo of `p`, read over `m`, has treated `id`. */
  ghost predicate Treated(m: map<Id, Vector>, cap: nat, p: seq<Record>, id: Id) {
    TreatedAs(FoldFrom(m, Echo(cap, p)), Fold(p), Revived(p, cap, id), id)
  }

  lemma {:induction false} TreatedStep(m: map<Id, Vector>, cap: nat, p: seq<Record>, r: Record, id: Id)
    requires Treated(m, cap, p, id) || (r.Upsert? && r.id == id)
    ensures Treated(m, cap, p + [r], id)
  {
    FoldEchoStep(m, cap, p, r);
    SnocFacts(p, r);
    RevivedSnoc(p, r, cap, id);
    ReplayedOf(p, cap, id);
    RevivedIsDead(p, cap, id);
    TreatOne(FoldFrom(m, Echo(cap, p)), Fold(p), r, r.id in Replay(cap, p).0, Late(p, cap, id),
             Revived(p, cap, id), id);
  }

  lemma {:induction false} RevivedIsDead(j: seq<Record>, cap: nat, id: Id)
    ensures Revived(j, cap, id) ==> id !in Fold(j)
    decreases |j|
  {
    if j != [] {
      var n := |j| - 1;
      RevivedIsDead(j[..n], cap, id);
      RevivedSnoc(j[..n], j[n], cap, id);
      assert j == j[..n] + [j[n]];
    }
  }

  lemma {:induction false} EchoTreats(cap: nat, j: seq<Record>, n: nat, id: Id)
    requires n <= |j|
    ensures Treated(Fold(j), cap, j[..n], id) || Upcoming(j, n, id)
    decreases n
  {
    if n == 0 {
      if id in Fold(j) { FoldedAreUpserted(j, id); }
    } else {
      EchoTreats(cap, j, n - 1, id);
      if Upcoming(j, n - 1, id) { UpcomingStep(j, n - 1, id); }
      assert j[..n] == j[..n - 1] + [j[n - 1]];
      if !Upcoming(j, n, id) { TreatedStep(Fold(j), cap, j[..n - 1], j[n - 1], id); }
    }
  }

  /** A recovery leaves a journal that stands for the same map exactly when no ID was last upserted
      without a slot and then deleted; in particular whenever the slots suffice. */
  lemma {:induction false} EchoMeansTheSameIff(cap: nat, j: seq<Record>)
    ensures Fold(j + Echo(cap, j)) == Fold(j) <==> forall id :: !Revived(j, cap, id)
  {
    FoldConcat(j, Echo(cap, j));
    assert j[..|j|] == j;
    SameMaps(Fold(j + Echo(cap, j)), Fold(j));
    forall id ensures Same(Fold(j + Echo(cap, j)), Fold(j), id) <==> !Revived(j, cap, id) {
      EchoTreats(cap, j, |j|, id);
    }
  }

  /** A deleted vector that a recovery without a slot for it writes back into the journal. */
  lemma EchoRevives(v: Vector)
    ensures var j := [Upsert("a", v), Delete("a")]; Fold(j) == map[] && Fold(j + Echo(0, j)) == map["a" := v]
  {
    var j := [Upsert("a", v), Delete("a")];
    assert j[..1] == [j[0]] && j[..1][..0] == [];
    ReplayOne(0, j[0]);
    assert Echo(0, j[..1]) == [j[0]] && Echo(0, j) == [j[0]];
    FoldConcat(j, [j[0]]);
    assert [j[0]][..0] == [];
    assert Fold(j[..1]) == map["a" := v] && Fold(j) == map[];
  }

  // ---- recovery as it runs ---------------------------------------------------------------------

  type Appends = nat -> (Append, Append)

  function RecoveredOne(l: Limits, s: State, r: Record, a: (Append, Append)): State {
    match r
    case Upsert(id, v) => Inserted(l, Removed(s, id, a.0), id, v, a.1)
    case Delete(id) => Removed(s, id, a.0)
  }

  /** `recover_from_wal` on the records `rs`; `appends` are the outcomes of its own journal writes. */
  function Recovered(l: Limits, s: State, rs: seq<Record>, appends: Appends): (r: State)
    ensures s.journal <= r.journal
    decreases |rs|
  {
    if rs == [] then s
    else RecoveredOne(l, Recovered(l, s, rs[..|rs| - 1], appends), rs[|rs| - 1], appends(|rs| - 1))
  }

  predicate Dimensioned(l: Limits, rs: seq<Record>) {
    forall i :: 0 <= i < |rs| && rs[i].Upsert? ==> |rs[i].vector| == l.dimension
  }

  /** What a record amounts to for the index: an upsert whose append is refused only removes. */
  function Effective(r: Record, a: (Append, Append)): Record {
    if r.Upsert? && !Accepted(a.1) then Delete(r.id) else r
  }

  function Effects(rs: seq<Record>, appends: Appends): (e: seq<Record>)
    ensures |e| == |rs|
  {
    seq(|rs|, i requires 0 <= i < |rs| => Effective(rs[i], appends(i)))
  }

  lemma EffectsSnoc(rs: seq<Record>, appends: Appends)
    requires rs != []
    ensures var n := |rs| - 1; Effects(rs, appends) == Effects(rs[..n], appends) + [Effective(rs[n], appends(n))]
  {
  }

  /** Whatever becomes of its own appends, recovery does to the index what replaying the effects of the
      records does. */
  lemma {:induction false} RecoveryReplays(l: Limits, s: State, rs: seq<Record>, appends: Appends)
    requires Dimensioned(l, rs)
    ensures var r := Recovered(l, s, rs, appends);
      (r.live, r.slots) == ReplayFrom(l.capacity, (s.live, s.slots), Effects(rs, appends))
    decreases |rs|
  {
    if rs != [] {
      var n := |rs| - 1;
      var m := Recovered(l, s, rs[..n], appends);
      RecoveryReplays(l, s, rs[..n], appends);
      EffectsSnoc(rs, appends);
      ReplaySnoc(l.capacity, (s.live, s.slots), Effects(rs[..n], appends), Effective(rs[n], appends(n)));
      RecoveredOneReplays(l, m, rs[n], appends(n));
    }
  }

  lemma RecoveredOneReplays(l: Limits, s: State, r: Record, a: (Append, Append))
    requires r.Upsert? ==> |r.vector| == l.dimension
    ensures var s' := RecoveredOne(l, s, r, a);
      (s'.live, s'.slots) == Replayed(l.capacity, (s.live, s.slots), Effective(r, a))
  {
    assert r.id !in s.live ==> s.live - {r.id} == s.live;
    if r.Upsert? { assert (s.live - {r.id})[r.id := r.vector] == s.live[r.id := r.vector]; }
  }

  ghost predicate AllAccepted(appends: Appends) { forall i: nat :: Accepted(appends(i).1) }

  lemma AcceptedEffects(rs: seq<Record>, appends: Appends)
    requires AllAccepted(appends)
    ensures Effects(rs, appends) == rs
  {
  }

  /** What replaying `r` appends to the journal when `live` is live. */
  function EchoOne(live: map<Id, Vector>, r: Record, a: (Append, Append)): seq<Record> {
    (if Recorded(a.0) && r.id in live then [Delete(r.id)] else []) + (if Recorded(a.1) then Repeated(r) else [])
  }

  /** What a recovery appends to the journal, given the outcomes of its appends. */
  function EchoOf(cap: nat, j: seq<Record>, appends: Appends): seq<Record> {
    if j == [] then [] else
      var n := |j| - 1;
      EchoOf(cap, j[..n], appends) + EchoOne(Replay(cap, Effects(j[..n], appends)).0, j[n], appends(n))
  }

  ghost predicate AllWritten(appends: Appends) { forall i: nat :: appends(i) == (Written, Written) }

  lemma {:induction false} WrittenEcho(cap: nat, j: seq<Record>, appends: Appends)
    requires AllWritten(appends)
    ensures EchoOf(cap, j, appends) == Echo(cap, j)
    decreases |j|
  {
    if j != [] {
      var r, k := j[|j| - 1], j[..|j| - 1];
      WrittenEcho(cap, k, appends);
      AcceptedEffects(k, appends);
      assert Echo(cap, k) + (Deleted(cap, k, r) + Repeated(r)) == Echo(cap, k) + Deleted(cap, k, r) + Repeated(r);
    }
  }

  /** A recovery into a fresh index, of any capacity and with any append outcomes, appends that echo to
      what was written before; if all its appends are written, it is the journal's own echo. */
  lemma {:induction false} RecoveryAppends(l: Limits, log: seq<Record>, j: seq<Record>, appends: Appends)
    requires Dimensioned(l, j)
    ensures var r := Replay(l.capacity, Effects(j, appends));
      Recovered(l, State(map[], 0, log), j, appends) == State(r.0, r.1, log + EchoOf(l.capacity, j, appends))
    ensures AllWritten(appends) ==> EchoOf(l.capacity, j, appends) == Echo(l.capacity, j)
  {
    RecoveryReplays(l, State(map[], 0, log), j, appends);
    RecoveryLogs(l, log, j, appends);
    if AllWritten(appends) { WrittenEcho(l.capacity, j, appends); }
  }

  lemma {:induction false} RecoveryLogs(l: Limits, log: seq<Record>, j: seq<Record>, appends: Appends)
    requires Dimensioned(l, j)
    ensures Recovered(l, State(map[], 0, log), j, appends).journal == log + EchoOf(l.capacity, j, appends)
    decreases |j|
  {
    if j == [] {
      assert log + [] == log;
    } else {
      var n := |j| - 1;
      RecoveryLogs(l, log, j[..n], appends);
      RecoveryReplays(l, State(map[], 0, log), j[..n], appends);
      RecoveredOneLogs(l, Recovered(l, State(map[], 0, log), j[..n], appends), j[n], appends(n));
      Regroup(log, EchoOf(l.capacity, j[..n], appends),
              EchoOne(Replay(l.capacity, Effects(j[..n], appends)).0, j[n], appends(n)));
    }
  }

  lemma Regroup(a: seq<Record>, b: seq<Record>, c: seq<Record>)
    ensures a + (b + c) == a + b + c
  {
  }

  lemma RecoveredOneLogs(l: Limits, s: State, r: Record, a: (Append, Append))
    requires r.Upsert? ==> |r.vector| == l.dimension
    ensures RecoveredOne(l, s, r, a).journal == s.journal + EchoOne(s.live, r, a)
  {
  }

  lemma {:induction false} RunDimensioned(l: Limits, ops: seq<Op>)
    ensures Dimensioned(l, Run(l, Empty, ops).journal)
    decreases |ops|
  {
    if ops != [] { RunDimensioned(l, ops[..|ops| - 1]); }
  }

  ghost predicate Recoverable(l: Limits, ops: seq<Op>) {
    forall i :: 0 <= i < |ops| ==> !Unrecoverable(l, Run(l, Empty, ops[..i]), ops[i])
  }

  /** Crash and recover from a journal of one segment: after every run without an unrecoverable
      operation, `recover_from_wal` on a fresh index of the same limits yields the live map and the
      slots the crashed index had. */
  lemma {:induction false} CrashRecovery(l: Limits, ops: seq<Op>, appends: Appends)
    requires Recoverable(l, ops) && AllAccepted(appends)
    ensures var s := Run(l, Empty, ops); var r := Recovered(l, State(map[], 0, s.journal), s.journal, appends);
      r.live == s.live && r.slots == s.slots
  {
    var j := Run(l, Empty, ops).journal;
    RunRebuilds(l, ops);
    RunDimensioned(l, ops);
    RecoveryReplays(l, State(map[], 0, j), j, appends);
    AcceptedEffects(j, appends);
  }

  // ---- several segments ------------------------------------------------------------------------

  function Shift(appends: Appends, n: nat): Appends { (i: nat) => appends(n + i) }

  /** The active segment as a recovery finds it after replaying the `closed` records of the closed ones:
      it already holds what that appended, at most `cut` records if the writer has moved on to a new
      segment meanwhile. */
  function ActiveFound(l: Limits, s: State, closed: nat, cut: nat, appends: Appends): seq<Record>
    requires closed <= |s.journal|
  {
    var j := Recovered(l, s, s.journal[..closed], appends).journal;
    j[closed..Min(|s.journal| + cut, |j|)]
  }

  /** Recovery from a journal whose first `closed` records are in closed segments. */
  function RecoveredSegments(l: Limits, s: State, closed: nat, cut: nat, appends: Appends): State
    requires closed <= |s.journal|
  {
    Recovered(l, Recovered(l, s, s.journal[..closed], appends), ActiveFound(l, s, closed, cut, appends),
              Shift(appends, closed))
  }

  /** The records of the closed segments that are replayed a second time. */
  function Reread(cap: nat, j: seq<Record>, closed: nat, cut: nat, appends: Appends): seq<Record>
    requires closed <= |j|
  {
    var e := EchoOf(cap, j[..closed], appends);
    e[..Min(cut, |e|)]
  }

  lemma {:induction false} EchoDimensioned(l: Limits, cap: nat, j: seq<Record>, appends: Appends)
    requires Dimensioned(l, j)
    ensures Dimensioned(l, EchoOf(cap, j, appends))
    decreases |j|
  {
    if j != [] { EchoDimensioned(l, cap, j[..|j| - 1], appends); }
  }

  /** A recovery replays the whole journal and then, again, what the closed segments made it append. */
  lemma {:induction false} SegmentsReplay(l: Limits, j: seq<Record>, closed: nat, cut: nat, appends: Appends)
    requires closed <= |j| && Dimensioned(l, j)
    ensures var r := RecoveredSegments(l, State(map[], 0, j), closed, cut, appends);
      (r.live, r.slots) == Replay(l.capacity, Effects(j + Reread(l.capacity, j, closed, cut, appends), appends))
  {
    var z := Reread(l.capacity, j, closed, cut, appends);
    ActiveFoundIs(l, j, closed, cut, appends);
    EchoDimensioned(l, l.capacity, j[..closed], appends);
    JoinDimensioned(l, j[closed..], z);
    var s := Recovered(l, State(map[], 0, j), j[..closed], appends);
    RecoveryReplays(l, s, j[closed..] + z, Shift(appends, closed));
    ReplayConcat(l.capacity, Fresh, Effects(j[..closed], appends), Effects(j[closed..] + z, Shift(appends, closed)));
    Rejoin(j, closed, z, appends);
  }

  lemma JoinDimensioned(l: Limits, a: seq<Record>, b: seq<Record>)
    requires Dimensioned(l, a) && Dimensioned(l, b)
    ensures Dimensioned(l, a + b)
  {
  }

  lemma Rejoin(j: seq<Record>, n: nat, z: seq<Record>, appends: Appends)
    requires n <= |j|
    ensures Effects(j[..n], appends) + Effects(j[n..] + z, Shift(appends, n)) == Effects(j + z, appends)
  {
  }

  lemma {:induction false} ActiveFoundIs(l: Limits, j: seq<Record>, closed: nat, cut: nat, appends: Appends)
    requires closed <= |j| && Dimensioned(l, j)
    ensures ActiveFound(l, State(map[], 0, j), closed, cut, appends)
         == j[closed..] + Reread(l.capacity, j, closed, cut, appends)
    ensures var s := Recovered(l, State(map[], 0, j), j[..closed], appends);
      (s.live, s.slots) == Replay(l.capacity, Effects(j[..closed], appends))
  {
    RecoveryAppends(l, j, j[..closed], appends);
    FoundIs(j, EchoOf(l.capacity, j[..closed], appends), closed, cut);
  }

  lemma FoundIs(j: seq<Record>, e: seq<Record>, closed: nat, cut: nat)
    requires closed <= |j|
    ensures (j + e)[closed..Min(|j| + cut, |j + e|)] == j[closed..] + e[..Min(cut, |e|)]
  {
  }

  function Lookup(m: map<Id, Vector>, id: Id): Option<Vector> { if id in m then Some(m[id]) else None }

  /** What a record leaves of its ID when `used` slots are gone at the start of `z`. */
  function Leaves(cap: nat, used: nat, z: seq<Record>, k: nat): Option<Vector>
    requires k < |z|
  {
    if z[k].Upsert? && used + Upserts(z[..k]) < cap then Some(z[k].vector) else None
  }

  /** After `z` on top of `s`, `id` is as it is in `m`: its last record in `z` leaves it so, or it has none
      and was so before. */
  ghost predicate Settled(cap: nat, s: Index, z: seq<Record>, m: map<Id, Vector>, id: Id) {
    && (forall k: nat {:trigger LastFor(z, k)} ::
          k < |z| && LastFor(z, k) && z[k].id == id ==> Lookup(m, id) == Leaves(cap, s.1, z, k))
    && ((forall k :: 0 <= k < |z| ==> z[k].id != id) ==> Lookup(m, id) == Lookup(s.0, id))
  }

  /** What a replay makes of one ID: what its last record leaves, or what it was. */
  lemma {:induction false} ReplayedOn(cap: nat, s: Index, z: seq<Record>, id: Id)
    requires s.1 <= cap
    ensures ReplayFrom(cap, s, z).1 == Min(s.1 + Upserts(z), cap)
    ensures forall k: nat {:trigger LastFor(z, k)} :: k < |z| && LastFor(z, k) && z[k].id == id ==>
      Lookup(ReplayFrom(cap, s, z).0, id) == Leaves(cap, s.1, z, k)
    ensures (forall k :: 0 <= k < |z| ==> z[k].id != id) ==>
      Lookup(ReplayFrom(cap, s, z).0, id) == Lookup(s.0, id)
    decreases |z|
  {
    if z != [] {
      var n := |z| - 1;
      ReplayedOn(cap, s, z[..n], id);
      forall k: nat | k < |z| && LastFor(z, k) && z[k].id == id
        ensures Lookup(ReplayFrom(cap, s, z).0, id) == Leaves(cap, s.1, z, k)
      {
        if k < n { EarlierLeaves(cap, s.1, z, k); }
      }
    }
  }

  lemma EarlierLeaves(cap: nat, used: nat, z: seq<Record>, k: nat)
    requires k < |z| - 1 && LastFor(z, k)
    ensures var y := z[..|z| - 1];
      z[|z| - 1].id != z[k].id && LastFor(y, k) && Leaves(cap, used, y, k) == Leaves(cap, used, z, k)
  {
    assert z[..|z| - 1][..k] == z[..k];
  }

  lemma {:induction false} LastExists(z: seq<Record>, id: Id)
    requires exists k :: 0 <= k < |z| && z[k].id == id
    ensures exists k: nat {:trigger LastFor(z, k)} :: k < |z| && LastFor(z, k) && z[k].id == id
    decreases |z|
  {
    var n := |z| - 1;
    if z[n].id == id {
      assert LastFor(z, n);
    } else {
      var j :| 0 <= j < |z| && z[j].id == id;
      assert z[..n][j].id == id;
      LastExists(z[..n], id);
      var k: nat :| k < n && LastFor(z[..n], k) && z[..n][k].id == id;
      assert LastFor(z, k);
    }
  }

  lemma {:induction false} SettledIff(cap: nat, s: Index, z: seq<Record>, m: map<Id, Vector>)
    requires s.1 <= cap
    ensures ReplayFrom(cap, s, z).0 == m <==> forall id :: Settled(cap, s, z, m, id)
  {
    var r := ReplayFrom(cap, s, z).0;
    SameMaps(r, m);
    forall id ensures Same(r, m, id) <==> Settled(cap, s, z, m, id) {
      ReplayedOn(cap, s, z, id);
      assert Same(r, m, id) <==> Lookup(r, id) == Lookup(m, id);
      if exists k :: 0 <= k < |z| && z[k].id == id { LastExists(z, id); }
    }
  }

  /** Crash and recover from a journal of several segments, after every run and with any append outcomes:
      the live map is restored exactly when every ID is settled by its last record among the journal and
      the records replayed twice. */
  lemma {:induction false} SegmentedRecoveryExactIff(l: Limits, ops: seq<Op>, closed: nat, cut: nat, appends: Appends)
    requires closed <= |Run(l, Empty, ops).journal|
    ensures var s := Run(l, Empty, ops); var z := Reread(l.capacity, s.journal, closed, cut, appends);
      RecoveredSegments(l, State(map[], 0, s.journal), closed, cut, appends).live == s.live
      <==> forall id :: Settled(l.capacity, Fresh, Effects(s.journal + z, appends), s.live, id)
  {
    var s := Run(l, Empty, ops);
    var z := Reread(l.capacity, s.journal, closed, cut, appends);
    RunDimensioned(l, ops);
    SegmentsReplay(l, s.journal, closed, cut, appends);
    SettledIff(l.capacity, Fresh, Effects(s.journal + z, appends), s.live);
  }

  /** After a recoverable run, and with its appends accepted, only the records replayed twice matter. */
  lemma {:induction false} RereadExactIff(l: Limits, ops: seq<Op>, closed: nat, cut: nat, appends: Appends)
    requires Recoverable(l, ops) && closed <= |Run(l, Empty, ops).journal| && AllAccepted(appends)
    ensures var s := Run(l, Empty, ops); var z := Reread(l.capacity, s.journal, closed, cut, appends);
      && RecoveredSegments(l, State(map[], 0, s.journal), closed, cut, appends).live
         == ReplayFrom(l.capacity, (s.live, s.slots), z).0
      && (RecoveredSegments(l, State(map[], 0, s.journal), closed, cut, appends).live == s.live
          <==> forall id :: Settled(l.capacity, (s.live, s.slots), z, s.live, id))
  {
    var s := Run(l, Empty, ops);
    var z, cap := Reread(l.capacity, s.journal, closed, cut, appends), l.capacity;
    RunRebuilds(l, ops);
    RunDimensioned(l, ops);
    SegmentsReplay(l, s.journal, closed, cut, appends);
    AcceptedEffects(s.journal + z, appends);
    ReplayConcat(cap, Fresh, s.journal, z);
    ReplayedOf(s.journal, cap, "");
    SettledIff(cap, (s.live, s.slots), z, s.live);
  }

  // ---- the condition on the journal itself -----------------------------------------------------

  /** With slots to spare a replay is a fold. */
  lemma {:induction false} ReplayIsFold(cap: nat, s: Index, z: seq<Record>)
    requires s.1 + Upserts(z) <= cap
    ensures ReplayFrom(cap, s, z) == (FoldFrom(s.0, z), s.1 + Upserts(z))
    decreases |z|
  {
    if z != [] { ReplayIsFold(cap, s, z[..|z| - 1]); }
  }

  lemma {:induction false} NeverRevived(j: seq<Record>, cap: nat, id: Id)
    requires Upserts(j) <= cap
    ensures !Revived(j, cap, id)
  {
    forall k: nat | k < |j| && j[k].Upsert? ensures Upserts(j[..k]) < cap { EarlierUpserts(j, k); }
  }

  lemma UpcomingSnoc(p: seq<Record>, r: Record, id: Id)
    ensures Upcoming(p + [r], 0, id) <==> Upcoming(p, 0, id) || (r.Upsert? && r.id == id)
  {
    assert p[0..] == p && (p + [r])[0..] == p + [r];
    if Upcoming(p, 0, id) {
      var v: Vector :| Upsert(id, v) in p[0..];
      assert Upsert(id, v) in (p + [r])[0..];
    }
    if r.Upsert? && r.id == id { assert Upsert(id, r.vector) in (p + [r])[0..]; }
    if Upcoming(p + [r], 0, id) {
      var v: Vector :| Upsert(id, v) in (p + [r])[0..];
      assert Upsert(id, v) in p + [r];
      assert r == Upsert(id, v) || Upsert(id, v) in p[0..];
    }
  }

  /** The echo of `p`, read over any `m`, treats the IDs upserted in `p` as `p` does and no others. */
  lemma {:induction false} EchoReaches(m: map<Id, Vector>, cap: nat, p: seq<Record>, id: Id)
    ensures if Upcoming(p, 0, id) then Treated(m, cap, p, id)
            else Lookup(FoldFrom(m, Echo(cap, p)), id) == Lookup(m, id)
    decreases |p|
  {
    if p == [] {
      assert !Upcoming(p, 0, id);
    } else {
      var n := |p| - 1;
      var k, r := p[..n], p[n];
      assert p == k + [r];
      EchoReaches(m, cap, k, id);
      UpcomingSnoc(k, r, id);
      if Upcoming(p, 0, id) {
        TreatedStep(m, cap, k, r, id);
      } else {
        FoldEchoStep(m, cap, k, r);
        ReplayedOf(k, cap, id);
        if id in Fold(k) { FoldedAreUpserted(k, id); }
      }
    }
  }

  /** Where slots are left for the closed segments a second time and nothing is cut, a recoverable run is
      restored exactly when every ID upserted in the closed segments is in the live map what the closed
      segments alone make of it. */
  lemma {:induction false} ClosedSegmentsDecide(l: Limits, ops: seq<Op>, closed: nat, cut: nat, appends: Appends)
    requires Recoverable(l, ops) && closed <= |Run(l, Empty, ops).journal| && AllWritten(appends)
    requires var s := Run(l, Empty, ops); var p := s.journal[..closed];
      s.slots + Upserts(p) <= l.capacity && |Echo(l.capacity, p)| <= cut
    ensures var s := Run(l, Empty, ops); var p := s.journal[..closed];
      RecoveredSegments(l, State(map[], 0, s.journal), closed, cut, appends).live == s.live
      <==> forall id :: Upcoming(p, 0, id) ==> Lookup(Fold(p), id) == Lookup(s.live, id)
  {
    var s, cap := Run(l, Empty, ops), l.capacity;
    var p := s.journal[..closed];
    var e := Echo(cap, p);
    WrittenEcho(cap, p, appends);
    RereadExactIff(l, ops, closed, cut, appends);
    assert Reread(cap, s.journal, closed, cut, appends) == e;
    EchoUpserts(cap, p);
    ReplayIsFold(cap, (s.live, s.slots), e);
    SameMaps(FoldFrom(s.live, e), s.live);
    forall id ensures Same(FoldFrom(s.live, e), s.live, id)
                 <==> (Upcoming(p, 0, id) ==> Lookup(Fold(p), id) == Lookup(s.live, id)) {
      EchoReaches(s.live, cap, p, id);
      NeverRevived(p, cap, id);
    }
  }

  function InsertAndRemove(v: Vector): seq<Op> { [Insert("a", v, Written), Remove("a", Written)] }

  lemma {:induction false} InsertAndRemoveRuns(v: Vector)
    ensures var l, ops := Limits(4, |v|), InsertAndRemove(v);
      Recoverable(l, ops) && Run(l, Empty, ops) == State(map[], 1, [Upsert("a", v), Delete("a")])
  {
    var l, ops := Limits(4, |v|), InsertAndRemove(v);
    var one := map["a" := v];
    assert ops[..1] == [ops[0]] && ops[..1][..0] == [] && ops[..0] == [];
    assert Run(l, Empty, ops[..1]) == State(one, 1, [Upsert("a", v)]);
    assert one - {"a"} == map[];
  }

  lemma {:induction false} InsertAndRemoveReplays(v: Vector)
    ensures var r, t := Upsert("a", v), Delete("a"); Replay(4, [r, t] + [r]).0 == map["a" := v]
  {
    var r, t := Upsert("a", v), Delete("a");
    ReplayOne(4, r);
    ReplayTwo(4, r, t);
    ReplaySnoc(4, Fresh, [r, t], r);
    assert map["a" := v] - {"a"} == map[];
  }

  /** It is not always restored: an insertion in a closed segment, its removal in the active one, and
      the recovery brings the removed vector back. */
  lemma {:induction false} SegmentsResurrect(v: Vector, appends: Appends)
    requires AllWritten(appends)
    ensures var l, ops := Limits(4, |v|), InsertAndRemove(v); var s := Run(l, Empty, ops);
      && Recoverable(l, ops) && |s.journal| == 2 && s.live == map[]
      && RecoveredSegments(l, State(map[], 0, s.journal), 1, 1, appends).live == map["a" := v]
  {
    var l, r, t := Limits(4, |v|), Upsert("a", v), Delete("a");
    InsertAndRemoveRuns(v);
    SegmentsReplay(l, [r, t], 1, 1, appends);
    RereadOne(r, t, appends);
    AcceptedEffects([r, t] + [r], appends);
    InsertAndRemoveReplays(v);
  }

  lemma {:induction false} RereadOne(r: Record, t: Record, appends: Appends)
    requires r.Upsert? && AllWritten(appends)
    ensures Reread(4, [r, t], 1, 1, appends) == [r]
  {
    assert [r, t][..1] == [r] && [r][..0] == [] && Replay(4, []) == Fresh;
    assert Echo(4, [r]) == [] + [] + [r] == [r];
    WrittenEcho(4, [r], appends);
  }

  // ---- the index as it changes -----------------------------------------------------------------

  datatype Result = Done | DimensionMismatch | NodeAlreadyExists | WalError | IndexFull

  function InsertResult(l: Limits, s: State, id: Id, v: Vector, a: Append): Result {
    if |v| != l.dimension then DimensionMismatch
    else if id in s.live then NodeAlreadyExists
    else if !Accepted(a) then WalError
    else if s.slots >= l.capacity then IndexFull
    else Done
  }

  /** What the result tells: it is done exactly when the ID is new and now live with its vector; every refusal
      leaves the index as it was, and says which test failed first. */
  lemma ResultTells(l: Limits, s: State, id: Id, v: Vector, a: Append)
    ensures var r, s' := InsertResult(l, s, id, v, a), Inserted(l, s, id, v, a);
      && (r == Done <==> id !in s.live && id in s'.live && s'.live[id] == v)
      && (r != Done ==> s'.live == s.live && s'.slots == s.slots)
      && (r == DimensionMismatch <==> |v| != l.dimension)
      && (r == NodeAlreadyExists <==> |v| == l.dimension && id in s.live)
      && (r == WalError ==> a.Lost? || a.Unsynced?)
      && (r == IndexFull ==> s.slots >= l.capacity && (a.Written? || a.Skipped?))
  {
  }

  ghost predicate Backed(ids: map<Id, Option<nat>>, vectors: seq<Vector>) {
    forall id :: id in ids ==> ids[id].Some? && ids[id].value < |vectors|
  }

  ghost function LiveOf(ids: map<Id, Option<nat>>, vectors: seq<Vector>): map<Id, Vector>
    requires Backed(ids, vectors)
  {
    map id | id in ids :: vectors[ids[id].value]
  }

  lemma LiveWith(ids: map<Id, Option<nat>>, vectors: seq<Vector>, id: Id, v: Vector)
    requires Backed(ids, vectors)
    ensures Backed(ids[id := Some(|vectors|)], vectors + [v])
    ensures LiveOf(ids[id := Some(|vectors|)], vectors + [v]) == LiveOf(ids, vectors)[id := v]
  {
  }

  /** The index as far as the journal is concerned: the ID map, whose entry is `None` while an insert is
      under way, and the arena. The first `closed` records of the journal are in closed segments. */
  class DurableIndex {
    const limits: Limits
    var ids: map<Id, Option<nat>>
    var vectors: seq<Vector>
    var journal: seq<Record>
    var closed: nat

    ghost predicate Valid()
      reads this
    {
      |vectors| <= limits.capacity && Backed(ids, vectors) && closed <= |journal|
    }

    ghost function Value(): State
      reads this
      requires Valid()
    {
      State(LiveOf(ids, vectors), |vectors|, journal)
    }

    constructor (limits: Limits, journal: seq<Record>, closed: nat)
      requires closed <= |journal|
      ensures Valid() && this.limits == limits && this.closed == closed && Value() == State(map[], 0, journal)
    {
      this.limits, this.journal, this.closed, ids, vectors := limits, journal, closed, map[], [];
    }

    /** The writer moves on to a new segment. */
    method Rotate()
      requires Valid()
      modifies this`closed
      ensures Valid() && Value() == old(Value()) && closed == |journal|
    {
      closed := |journal|;
    }

    method AppendRecord(r: Record, a: Append)
      modifies this`journal
      ensures journal == Logged(old(journal), r, a)
    {
      if Recorded(a) { journal := journal + [r]; }
    }

    method Insert(id: Id, v: Vector, a: Append) returns (r: Result)
      requires Valid()
      modifies this
      ensures Valid() && Value() == Inserted(limits, old(Value()), id, v, a)
      ensures r == InsertResult(limits, old(Value()), id, v, a) && closed == old(closed)
    {
      if |v| != limits.dimension { return DimensionMismatch; }
      if id in ids { return NodeAlreadyExists; }
      ghost var before := ids;
      ids := ids[id := None];
      AppendRecord(Upsert(id, v), a);
      if !Accepted(a) {
        ids := ids - {id};
        assert ids == before;
        return WalError;
      }
      if |vectors| == limits.capacity {
        ids := ids - {id};
        assert ids == before;
        return IndexFull;
      }
      LiveWith(before, vectors, id, v);
      var index := |vectors|;
      vectors := vectors + [v];
      ids := ids[id := Some(index)];
      assert ids == before[id := Some(index)];
      return Done;
    }

    method Remove(id: Id, a: Append) returns (found: bool)
      requires Valid()
      modifies this
      ensures Valid() && Value() == Removed(old(Value()), id, a)
      ensures (found <==> id in old(Value()).live) && closed == old(closed)
    {
      if id !in ids { return false; }
      ghost var before := Value();
      ids := ids - {id};
      AppendRecord(Delete(id), a);
      assert Value().live == before.live - {id};
      return true;
    }

    method ClearAll()
      requires Valid()
      modifies this
      ensures Valid() && Value() == Cleared(old(Value())) && closed == old(closed)
    {
      vectors, ids := [], map[];
    }

    /** Replays the closed segments, then the active one as it is found, appending all the while; `cut`
        of the appended records go to the active segment if the writer moves on meanwhile. */
    method Recover(cut: nat, appends: Appends) returns (count: nat)
      requires Valid()
      modifies this
      ensures Valid() && Value() == RecoveredSegments(limits, old(Value()), old(closed), cut, appends)
      ensures count == old(closed) + |ActiveFound(limits, old(Value()), old(closed), cut, appends)|
    {
      var was := |journal|;
      ghost var start := Value();
      Apply(journal[..closed], appends);
      assert Value() == Recovered(limits, start, start.journal[..closed], appends);
      var rest := journal[closed..Min(was + cut, |journal|)];
      assert rest == ActiveFound(limits, start, closed, cut, appends);
      Apply(rest, Shift(appends, closed));
      count := closed + |rest|;
    }

    method Apply(records: seq<Record>, appends: Appends)
      requires Valid()
      modifies this
      ensures Valid() && Value() == Recovered(limits, old(Value()), records, appends) && closed == old(closed)
    {
      for i := 0 to |records|
        invariant Valid() && closed == old(closed)
        invariant Value() == Recovered(limits, old(Value()), records[..i], appends)
      {
        assert records[..i + 1][..i] == records[..i];
        var a := appends(i);
        match records[i] {
          case Upsert(id, v) =>
            var _ := Remove(id, a.0);
            var _ := Insert(id, v, a.1);
          case Delete(id) =>
            var _ := Remove(id, a.0);
        }
      }
      assert records[..|records|] == records;
    }
  }
}
