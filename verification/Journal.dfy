/** The write-ahead journal: what `insert`, `remove` and `clear` append to it, what folding it means, and
    what `recover_from_wal` rebuilds from it. Runs are serial; append outcomes are given. */
module Journal {
  import opened Basics
  import opened ComplexVectors

  type Id = string

  datatype Record = Upsert(id: Id, vector: Vector) | Delete(id: Id)

  /** `WalManager::append`: written and synced; written but the sync failed; failed before writing;
      accepted without a record, which is what the Memory policy does. */
  datatype Append = Written | Unsynced | Lost | Skipped

  predicate Accepted(a: Append) { a.Written? || a.Skipped? }

  predicate Recorded(a: Append) { a.Written? || a.Unsynced? }

  /** Live vectors by external ID, slots claimed so far, and the journal. */
  datatype State = State(live: map<Id, Vector>, slots: nat, journal: seq<Record>)

  datatype Limits = Limits(capacity: nat, dimension: nat)

  datatype Op = Insert(id: Id, vector: Vector, append: Append) | Remove(id: Id, append: Append) | Clear

  function Logged(j: seq<Record>, r: Record, a: Append): seq<Record> { if Recorded(a) then j + [r] else j }

  /** `insert_internal`: the record is appended before a slot is claimed. */
  function Inserted(l: Limits, s: State, id: Id, v: Vector, a: Append): State {
    if |v| != l.dimension || id in s.live then s
    else
      var s' := s.(journal := Logged(s.journal, Upsert(id, v), a));
      if Accepted(a) && s.slots < l.capacity then s'.(live := s.live[id := v], slots := s.slots + 1) else s'
  }

  /** `remove`: the outcome of the append is ignored. */
  function Removed(s: State, id: Id, a: Append): State {
    if id !in s.live then s else s.(live := s.live - {id}, journal := Logged(s.journal, Delete(id), a))
  }

  function Cleared(s: State): State { s.(live := map[], slots := 0) }

  function After(l: Limits, s: State, op: Op): State {
    match op
    case Insert(id, v, a) => Inserted(l, s, id, v, a)
    case Remove(id, a) => Removed(s, id, a)
    case Clear => Cleared(s)
  }

  function Run(l: Limits, s: State, ops: seq<Op>): State
    decreases |ops|
  {
    if ops == [] then s else After(l, Run(l, s, ops[..|ops| - 1]), ops[|ops| - 1])
  }

  const Empty := State(map[], 0, [])

  // ---- what a journal means --------------------------------------------------------------------

  function Applied(m: map<Id, Vector>, r: Record): map<Id, Vector> {
    match r case Upsert(id, v) => m[id := v] case Delete(id) => m - {id}
  }

  /** The map a journal stands for: the last record of an ID decides. */
  function Fold(j: seq<Record>): map<Id, Vector> {
    if j == [] then map[] else Applied(Fold(j[..|j| - 1]), j[|j| - 1])
  }

  function Upserts(j: seq<Record>): nat {
    if j == [] then 0 else Upserts(j[..|j| - 1]) + if j[|j| - 1].Upsert? then 1 else 0
  }

  lemma {:induction false} SnocFacts(j: seq<Record>, r: Record)
    ensures Fold(j + [r]) == Applied(Fold(j), r)
    ensures Upserts(j + [r]) == Upserts(j) + if r.Upsert? then 1 else 0
  {
    assert (j + [r])[..|j|] == j;
  }

  /** What becomes of a fresh ID of the right dimension, by the outcome of the append: live if it was accepted
      and a slot is left, recorded if it was written; a failed sync leaves a record without a vector, the
      Memory policy a vector without a record. */
  lemma FreshInsert(l: Limits, s: State, id: Id, v: Vector, a: Append)
    requires |v| == l.dimension && id !in s.live
    ensures var r, room := Inserted(l, s, id, v, a), s.slots < l.capacity;
      match a
      case Written => (id in r.live <==> room) && r.journal == s.journal + [Upsert(id, v)]
      case Unsynced => r.live == s.live && r.journal == s.journal + [Upsert(id, v)]
      case Lost => r == s
      case Skipped => (id in r.live <==> room) && r.journal == s.journal
    ensures var r := Inserted(l, s, id, v, a);
      (r.live, r.slots) == if id in r.live then (s.live[id := v], s.slots + 1) else (s.live, s.slots)
  {
  }

  /** The operations after which the journal no longer stands for the live map: a record that is not
      followed by its insertion, a change that is not recorded, a clear of a non-empty index. */
  predicate Diverges(l: Limits, s: State, op: Op) {
    match op
    case Insert(id, v, a) =>
      && |v| == l.dimension && id !in s.live
      && (Recorded(a) != (Accepted(a) && s.slots < l.capacity))
    case Remove(id, a) => id in s.live && !Recorded(a)
    case Clear => s.live != map[]
  }

  /** One operation keeps `Fold(journal) == live` exactly when it is not one of those. */
  lemma {:induction false} StepAgreesIff(l: Limits, s: State, op: Op)
    requires Fold(s.journal) == s.live
    ensures var s' := After(l, s, op); Fold(s'.journal) == s'.live <==> !Diverges(l, s, op)
  {
    var s' := After(l, s, op);
    match op
    case Insert(id, v, a) =>
      SnocFacts(s.journal, Upsert(id, v));
      if |v| == l.dimension && id !in s.live {
        assert id in s.live[id := v];
      }
    case Remove(id, a) =>
      SnocFacts(s.journal, Delete(id));
      assert id !in s.live - {id};
    case Clear =>
  }

  ghost predicate Faithful(l: Limits, s: State, ops: seq<Op>) {
    forall i :: 0 <= i < |ops| ==> !Diverges(l, Run(l, s, ops[..i]), ops[i])
  }

  /** Every run without such an operation leaves the journal standing for the live map after every
      operation. */
  lemma {:induction false} JournalRefinesIndex(l: Limits, ops: seq<Op>)
    requires Faithful(l, Empty, ops)
    ensures Fold(Run(l, Empty, ops).journal) == Run(l, Empty, ops).live
    decreases |ops|
  {
    if ops != [] {
      var n := |ops| - 1;
      assert forall i :: 0 <= i <= n ==> ops[..n][..i] == ops[..i];
      JournalRefinesIndex(l, ops[..n]);
      StepAgreesIff(l, Run(l, Empty, ops[..n]), ops[n]);
    }
  }

  // ---- recovery --------------------------------------------------------------------------------

  /** What one replayed record does to a recovering index: an upsert removes, then inserts if a slot is
      left; a full index drops the insertion silently. */
  function Replayed(cap: nat, s: (map<Id, Vector>, nat), r: Record): (map<Id, Vector>, nat) {
    match r
    case Upsert(id, v) => if s.1 < cap then (s.0[id := v], s.1 + 1) else (s.0 - {id}, s.1)
    case Delete(id) => (s.0 - {id}, s.1)
  }

  function ReplayFrom(cap: nat, s: (map<Id, Vector>, nat), j: seq<Record>): (map<Id, Vector>, nat) {
    if j == [] then s else Replayed(cap, ReplayFrom(cap, s, j[..|j| - 1]), j[|j| - 1])
  }

  function Replay(cap: nat, j: seq<Record>): (map<Id, Vector>, nat) { ReplayFrom(cap, (map[], 0), j) }

  lemma {:induction false} ReplaySnoc(cap: nat, s: (map<Id, Vector>, nat), j: seq<Record>, r: Record)
    ensures ReplayFrom(cap, s, j + [r]) == Replayed(cap, ReplayFrom(cap, s, j), r)
  {
    assert (j + [r])[..|j|] == j;
  }

  /** The operations after which a recovery into an index of the same capacity no longer rebuilds the
      index. An insertion into a full index is not one of them: the replay finds no slot either. */
  predicate Unrecoverable(l: Limits, s: State, op: Op) {
    match op
    case Insert(id, v, a) => |v| == l.dimension && id !in s.live && s.slots < l.capacity && Recorded(a) != Accepted(a)
    case Remove(id, a) => id in s.live && !Recorded(a)
    case Clear => s.live != map[] || s.slots != 0
  }

  ghost predicate Rebuilds(l: Limits, s: State) { Replay(l.capacity, s.journal) == (s.live, s.slots) }

  /** Appending `r` keeps the replay in step with the index exactly when `r` does to it what the index
      has done. */
  lemma {:induction false} LoggedRebuildsIff(l: Limits, s: State, r: Record, a: Append, live: map<Id, Vector>,
                                             slots: nat)
    requires Rebuilds(l, s)
    ensures Rebuilds(l, State(live, slots, Logged(s.journal, r, a)))
       <==> (live, slots) == if Recorded(a) then Replayed(l.capacity, (s.live, s.slots), r) else (s.live, s.slots)
  {
    ReplaySnoc(l.capacity, (map[], 0), s.journal, r);
  }

  lemma {:induction false} StepRebuildsIff(l: Limits, s: State, op: Op)
    requires Rebuilds(l, s)
    ensures Rebuilds(l, After(l, s, op)) <==> !Unrecoverable(l, s, op)
  {
    var s' := After(l, s, op);
    match op
    case Insert(id, v, a) =>
      LoggedRebuildsIff(l, s, Upsert(id, v), a, s'.live, s'.slots);
      assert id !in s.live ==> s.live - {id} == s.live;
    case Remove(id, a) =>
      LoggedRebuildsIff(l, s, Delete(id), a, s'.live, s'.slots);
      assert id !in s.live - {id};
    case Clear =>
  }

  /** Every run without such an operation can be recovered after every operation: the same live map
      and the same slots claimed, with never a slot too few. */
  lemma {:induction false} RunRebuilds(l: Limits, ops: seq<Op>)
    requires forall i :: 0 <= i < |ops| ==> !Unrecoverable(l, Run(l, Empty, ops[..i]), ops[i])
    ensures Rebuilds(l, Run(l, Empty, ops))
    decreases |ops|
  {
    if ops != [] {
      var n := |ops| - 1;
      assert forall i :: 0 <= i <= n ==> ops[..n][..i] == ops[..i];
      RunRebuilds(l, ops[..n]);
      StepRebuildsIff(l, Run(l, Empty, ops[..n]), ops[n]);
    }
  }

  /** Position `k` holds the last record of its ID. */
  ghost predicate LastFor(j: seq<Record>, k: nat)
    requires k < |j|
  {
    forall m :: k < m < |j| ==> j[m].id != j[k].id
  }

  /** The last record of `id` is an upsert that finds every slot taken. */
  ghost predicate Late(j: seq<Record>, cap: nat, id: Id) {
    exists k: nat {:trigger LastFor(j, k)} ::
      k < |j| && LastFor(j, k) && j[k].Upsert? && j[k].id == id && Upserts(j[..k]) >= cap
  }

  /** Every ID the journal leaves live was last upserted while slots were left. */
  ghost predicate Fits(j: seq<Record>, cap: nat) { forall id :: !Late(j, cap, id) }

  lemma {:induction false} LateSnoc(j: seq<Record>, r: Record, cap: nat, id: Id)
    ensures Late(j + [r], cap, id) <==> if r.id == id then r.Upsert? && Upserts(j) >= cap else Late(j, cap, id)
  {
    var t := j + [r];
    assert t[..|j|] == j && LastFor(t, |j|);
    if r.id != id {
      if Late(j, cap, id) {
        var k: nat :| k < |j| && LastFor(j, k) && j[k].Upsert? && j[k].id == id && Upserts(j[..k]) >= cap;
        assert t[..k] == j[..k] && LastFor(t, k);
      }
      if Late(t, cap, id) {
        var k: nat :| k < |t| && LastFor(t, k) && t[k].Upsert? && t[k].id == id && Upserts(t[..k]) >= cap;
        assert t[..k] == j[..k];
        assert forall m :: k < m < |j| ==> j[m] == t[m];
        assert LastFor(j, k);
      }
    }
  }

  /** What a replay rebuilds of a journal's map: everything but the late IDs. */
  lemma {:induction false} ReplayedOf(j: seq<Record>, cap: nat, id: Id)
    ensures Replay(cap, j).1 == Min(Upserts(j), cap)
    ensures var m := Replay(cap, j).0;
      && (id in m <==> id in Fold(j) && !Late(j, cap, id))
      && (id in m ==> m[id] == Fold(j)[id])
      && (Late(j, cap, id) ==> id in Fold(j))
    decreases |j|
  {
    if j != [] {
      var n := |j| - 1;
      ReplayedOf(j[..n], cap, id);
      assert j == j[..n] + [j[n]];
      LateSnoc(j[..n], j[n], cap, id);
    }
  }

  /** Recovery of any journal into a fresh index rebuilds the journal's map exactly when no live ID is
      late. */
  lemma {:induction false} RecoveryExactIff(j: seq<Record>, cap: nat)
    ensures Replay(cap, j).0 == Fold(j) <==> Fits(j, cap)
  {
    forall id ensures Replay(cap, j).0 == Fold(j) ==> !Late(j, cap, id) { ReplayedOf(j, cap, id); }
    if Fits(j, cap) {
      forall id ensures id in Replay(cap, j).0 <==> id in Fold(j) { ReplayedOf(j, cap, id); }
      forall id | id in Fold(j) ensures Replay(cap, j).0[id] == Fold(j)[id] { ReplayedOf(j, cap, id); }
    }
  }

  /** In particular, capacity for as many slots as recorded insertions suffices. */
  lemma {:induction false} EnoughSlots(j: seq<Record>, cap: nat)
    requires Upserts(j) <= cap
    ensures Replay(cap, j) == (Fold(j), Upserts(j))
  {
    forall k: nat | k < |j| && j[k].Upsert? ensures Upserts(j[..k]) < cap { EarlierUpserts(j, k); }
    RecoveryExactIff(j, cap);
    ReplayedOf(j, cap, "");
  }

  lemma {:induction false} EarlierUpserts(j: seq<Record>, k: nat)
    requires k < |j|
    ensures Upserts(j[..k]) + (if j[k].Upsert? then 1 else 0) <= Upserts(j)
    decreases |j|
  {
    if k + 1 < |j| {
      EarlierUpserts(j[..|j| - 1], k);
      assert j[..|j| - 1][..k] == j[..k];
    }
  }

  lemma {:induction false} ReplayConcat(cap: nat, s: (map<Id, Vector>, nat), a: seq<Record>, b: seq<Record>)
    ensures ReplayFrom(cap, s, a + b) == ReplayFrom(cap, ReplayFrom(cap, s, a), b)
    decreases |b|
  {
    if b == [] {
      assert a + b == a;
    } else {
      var n := |b| - 1;
      ReplayConcat(cap, s, a, b[..n]);
      assert a + b == (a + b[..n]) + [b[n]];
      ReplaySnoc(cap, s, a + b[..n], b[n]);
    }
  }

  lemma {:induction false} UpsertsConcat(a: seq<Record>, b: seq<Record>)
    ensures Upserts(a + b) == Upserts(a) + Upserts(b)
    decreases |b|
  {
    if b == [] {
      assert a + b == a;
    } else {
      var n := |b| - 1;
      UpsertsConcat(a, b[..n]);
      assert a + b == (a + b[..n]) + [b[n]];
      SnocFacts(a + b[..n], b[n]);
    }
  }
}
