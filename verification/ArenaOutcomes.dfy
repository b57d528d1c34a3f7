/** What a completed operation of the arena protocol has done: the whole state after an insert, a remove or
    a clear has run to its end, refusals included. */
module ArenaOutcomes {
  import opened Basics
  import opened ComplexVectors
  import opened Arena
  import opened ArenaProofs

  // ---- runs from any state ---------------------------------------------------------------------

  function Next(s: State, a: Action): State { if Enabled(s, a) then Do(s, a) else s }

  function RunOn(s: State, acts: seq<Action>): State
    decreases |acts|
  {
    if acts == [] then s else RunOn(Next(s, acts[0]), acts[1..])
  }

  lemma {:induction false} RunSnoc(capacity: nat, dimension: nat, schedule: seq<Action>, a: Action)
    ensures Run(capacity, dimension, schedule + [a]) == Next(Run(capacity, dimension, schedule), a)
  {
    assert (schedule + [a])[..|schedule|] == schedule;
  }

  /** `on` goes on step by step where `run` has led. */
  ghost predicate GoesOn(run: seq<Action> -> State, on: (State, seq<Action>) -> State,
                         step: (State, Action) -> State) {
    && (forall q: seq<Action>, a: Action {:trigger run(q + [a])} :: run(q + [a]) == step(run(q), a))
    && (forall s: State :: on(s, []) == s)
    && (forall s: State, acts: seq<Action> {:trigger on(s, acts)} ::
          acts != [] ==> on(s, acts) == on(step(s, acts[0]), acts[1..]))
  }

  lemma {:induction false} Continued(run: seq<Action> -> State, on: (State, seq<Action>) -> State,
                                     step: (State, Action) -> State, schedule: seq<Action>, acts: seq<Action>)
    requires GoesOn(run, on, step)
    ensures run(schedule + acts) == on(run(schedule), acts)
    decreases |acts|
  {
    if acts == [] {
      assert schedule + acts == schedule;
    } else {
      assert run(schedule + [acts[0]]) == step(run(schedule), acts[0]);
      Continued(run, on, step, schedule + [acts[0]], acts[1..]);
      assert schedule + acts == (schedule + [acts[0]]) + acts[1..];
    }
  }

  lemma RunGoesOn(capacity: nat, dimension: nat)
    ensures GoesOn((q: seq<Action>) => Run(capacity, dimension, q), RunOn, Next)
  {
    forall q: seq<Action>, a: Action
      ensures Run(capacity, dimension, q + [a]) == Next(Run(capacity, dimension, q), a)
    {
      RunSnoc(capacity, dimension, q, a);
    }
  }

  /** A schedule goes on from where its first part has led. */
  lemma RunsOn(capacity: nat, dimension: nat, schedule: seq<Action>, acts: seq<Action>)
    ensures Run(capacity, dimension, schedule + acts) == RunOn(Run(capacity, dimension, schedule), acts)
  {
    RunGoesOn(capacity, dimension);
    Continued((q: seq<Action>) => Run(capacity, dimension, q), RunOn, Next, schedule, acts);
  }

  // ---- remove and clear ------------------------------------------------------------------------

  function StepsLeft(s: State): nat {
    match s.writer
    case NoWriter => 0
    case LeavingWrite => 1
    case Deleted(_) => 2
    case Unmapped(_) => 3
    case Removing(_) => 4
    case Wiped => 2
    case Wiping(_, i) => 3 + if i <= |s.slots| then |s.slots| - i else 0
    case LenReset(_) => 4 + |s.slots|
    case Clearing => 5 + |s.slots|
  }

  /** The holder of the gate as a writer runs to its end. */
  function WriteOut(s: State): State
    decreases StepsLeft(s)
  {
    if s.writer == NoWriter || !WriterInBounds(s) then s else WriteOut(WriteStep(s))
  }

  /** While it holds the gate, nothing else can happen. */
  lemma OnlyWrites(s: State, a: Action)
    requires s.readers == map[] && s.writer != NoWriter
    ensures Next(s, a) == s || (WriterInBounds(s) && Next(s, a) == WriteStep(s) && WriteStep(s).readers == map[])
  {
  }

  lemma RunCons(s: State, a: Action, acts: seq<Action>)
    ensures RunOn(s, [a] + acts) == RunOn(Next(s, a), acts)
  {
    assert ([a] + acts)[1..] == acts;
  }

  lemma WriteOutStep(s: State)
    requires s.writer != NoWriter && WriterInBounds(s)
    ensures WriteOut(s) == WriteOut(WriteStep(s))
  {
  }

  /** Whatever is scheduled, the writer's own steps are what happens until it is gone. */
  lemma {:induction false} WriterRunsOut(s: State, acts: seq<Action>)
    requires s.readers == map[] && RunsToEnd(s, acts)
    ensures RunOn(s, acts) == WriteOut(s)
    decreases |acts|
  {
    if acts != [] {
      var a, rest := acts[0], acts[1..];
      assert RunOn(s, acts[..0]) == s;
      assert acts == [a] + rest;
      RunCons(s, a, rest);
      forall n | 0 <= n < |rest| ensures RunOn(Next(s, a), rest[..n]).writer != NoWriter {
        assert acts[..n + 1] == [a] + rest[..n];
        RunCons(s, a, rest[..n]);
      }
      OnlyWrites(s, a);
      WriterRunsOut(Next(s, a), rest);
      if Next(s, a) != s { WriteOutStep(s); }
    }
  }

  /** `acts` takes the writer from `s` to its end. */
  ghost predicate RunsToEnd(s: State, acts: seq<Action>) {
    RunOn(s, acts).writer == NoWriter && forall n :: 0 <= n < |acts| ==> RunOn(s, acts[..n]).writer != NoWriter
  }

  lemma LeavesOut(s: State)
    requires s.writer == LeavingWrite
    ensures WriteOut(s) == s.(writer := NoWriter)
  {
    assert WriteStep(s) == s.(writer := NoWriter);
  }

  lemma DeletedOut(s: State)
    requires s.writer == Deleted(true)
    ensures WriteOut(s) == s.(liveCount := s.liveCount - 1, writer := NoWriter)
  {
    LeavesOut(WriteStep(s));
  }

  lemma UnmappedOut(s: State, i: nat)
    requires s.writer == Unmapped(At(i)) && i < |s.slots| && s.slots[i].state == LIVE
    ensures WriteOut(s) ==
      s.(slots := s.slots[i := s.slots[i].(state := DELETED)], liveCount := s.liveCount - 1, writer := NoWriter)
  {
    DeletedOut(WriteStep(s));
  }

  lemma RemovingOut(s: State, id: Id)
    requires s.writer == NoWriter
    requires id in s.ids ==> s.ids[id].At? && s.ids[id].slot < |s.slots| && s.slots[s.ids[id].slot].state == LIVE
    ensures var r := WriteOut(s.(writer := Removing(id)));
      if id !in s.ids then r == s
      else
        var i := s.ids[id].slot;
        r == s.(ids := s.ids - {id}, slots := s.slots[i := s.slots[i].(state := DELETED)], liveCount := s.liveCount - 1)
  {
    var s1 := WriteStep(s.(writer := Removing(id)));
    if id in s.ids {
      UnmappedOut(s1, s.ids[id].slot);
    } else {
      LeavesOut(s1);
    }
  }

  ghost predicate Quiet(s: State) { Inv(s) && s.readers == map[] && s.writer == NoWriter }

  /** A removal unmaps the ID, deletes its slot, lowers the count by one, and changes nothing else; an
      unknown ID changes nothing at all. */
  lemma RemoveCompletes(s: State, id: Id)
    requires Quiet(s)
    ensures var r := WriteOut(Next(s, StartRemove(id)));
      if id !in s.ids then r == s
      else
        && s.ids[id].At? && s.ids[id].slot < |s.slots| && s.slots[s.ids[id].slot].state == LIVE
        && var i := s.ids[id].slot;
           r == s.(ids := s.ids - {id}, slots := s.slots[i := s.slots[i].(state := DELETED)],
                   liveCount := s.liveCount - 1)
  {
    if id in s.ids { NoSentinel(s, id); }
    RemovingOut(s, id);
  }

  /** Slots `from` to `to` emptied. */
  function Wipe(slots: seq<Slot>, from: nat, to: nat): seq<Slot>
    requires from <= to <= |slots|
  {
    seq(|slots|, i requires 0 <= i < |slots| =>
      if from <= i < to then slots[i].(state := EMPTY, norm := 0.0, node := None) else slots[i])
  }

  lemma WipeStep(slots: seq<Slot>, from: nat, to: nat)
    requires from < to <= |slots|
    ensures Wipe(slots[from := slots[from].(state := EMPTY, norm := 0.0, node := None)], from + 1, to)
         == Wipe(slots, from, to)
  {
  }

  lemma WipedOut(s: State)
    requires s.writer == Wiped
    ensures WriteOut(s) == s.(ids := map[], writer := NoWriter)
  {
    LeavesOut(WriteStep(s));
  }

  lemma {:induction false} WipingOut(s: State, count: nat, i: nat)
    requires s.writer == Wiping(count, i) && i <= Min(count, |s.slots|)
    ensures WriteOut(s) == s.(slots := Wipe(s.slots, i, Min(count, |s.slots|)), ids := map[], writer := NoWriter)
    decreases |s.slots| - i
  {
    var n := Min(count, |s.slots|);
    if i < n {
      WipeStep(s.slots, i, n);
      WipingOut(WriteStep(s), count, i + 1);
    } else {
      assert Wipe(s.slots, i, i) == s.slots;
      WipedOut(WriteStep(s));
    }
  }

  lemma ClearingOut(s: State)
    requires s.writer == NoWriter
    ensures WriteOut(s.(writer := Clearing)) ==
      s.(len := 0, claims := [], liveCount := 0, slots := Wipe(s.slots, 0, Min(s.len, |s.slots|)), ids := map[])
  {
    var s1 := WriteStep(s.(writer := Clearing));
    var s2 := WriteStep(s1);
    WipingOut(s2, s.len, 0);
  }

  /** A clear leaves no ID, no LIVE slot, every claimed slot wiped and both counters at zero. */
  lemma ClearCompletes(s: State)
    requires Quiet(s)
    ensures var r := WriteOut(Next(s, StartClear));
      && r == s.(len := 0, claims := [], liveCount := 0, slots := r.slots, ids := map[]) && |r.slots| == |s.slots|
      && (forall i :: 0 <= i < |r.slots| ==> r.slots[i].state == EMPTY && r.slots[i].vector == s.slots[i].vector)
      && (forall i :: 0 <= i < |r.slots| && i < s.len ==> r.slots[i].norm == 0.0 && r.slots[i].node == None)
  {
    ClearingOut(s);
    UnclaimedAreEmpty(s);
  }

  lemma UnclaimedAreEmpty(s: State)
    requires Quiet(s)
    ensures forall i :: s.len <= i < |s.slots| ==> s.slots[i].state == EMPTY
  {
    assert Over(s.readers) == {};
    forall i: nat | s.len <= i < |s.slots| ensures s.slots[i].state == EMPTY { assert SlotOk(s, i); }
  }

  // ---- insert ----------------------------------------------------------------------------------

  function ReadsLeft(pc: Reader): nat {
    match pc
    case Leaving => 1
    case Published(_, _) => 2
    case Mapped(_, _, _) => 3
    case NodeWritten(_, _, _) => 4
    case VectorWritten(_, _, _) => 5
    case Copying(_, vec, _, done) => 6 + if done <= |vec| then |vec| - done else 0
    case Claimed(_, vec, _) => 7 + |vec|
    case Unreserving(_) => 2
    case Overflowed(_) => 3
    case Journaled(_, vec) => 8 + |vec|
    case Reserved(_, vec) => 9 + |vec|
    case Entered(_, vec) => 10 + |vec|
  }

  /** How the tests of an insert come out: the optimiser is idle or not, the append is accepted or not. */
  datatype Tests = Tests(idle: bool, logged: bool)

  function Test(pc: Reader, o: Tests): bool { if pc.Entered? then o.idle else o.logged }

  /** One step of insert `t`. */
  function Move(s: State, t: nat, o: Tests): State
    requires t in s.readers && ReaderInBounds(s, s.readers[t])
  {
    ReadStep(s, t, Test(s.readers[t], o))
  }

  lemma MovesOn(s: State, t: nat, o: Tests)
    requires t in s.readers && ReaderInBounds(s, s.readers[t])
    ensures var s' := Move(s, t, o); t in s'.readers ==> ReadsLeft(s'.readers[t]) < ReadsLeft(s.readers[t])
  {
  }

  /** The insert `t` runs to its end while the others stand still. */
  function ReadOut(s: State, t: nat, o: Tests): State
    decreases if t in s.readers then ReadsLeft(s.readers[t]) else 0
  {
    if t !in s.readers || !ReaderInBounds(s, s.readers[t]) then s
    else
      MovesOn(s, t, o);
      ReadOut(Move(s, t, o), t, o)
  }

  /** That is a run of its own steps. */
  lemma {:induction false} ReadsOut(s: State, t: nat, o: Tests) returns (acts: seq<Action>)
    ensures (forall a :: a in acts ==> a.Read? && a.t == t) && RunOn(s, acts) == ReadOut(s, t, o)
    decreases if t in s.readers then ReadsLeft(s.readers[t]) else 0
  {
    acts := [];
    if t in s.readers && ReaderInBounds(s, s.readers[t]) {
      var a := Read(t, Test(s.readers[t], o));
      MovesOn(s, t, o);
      var rest := ReadsOut(Move(s, t, o), t, o);
      acts := [a] + rest;
      assert acts[1..] == rest && acts[0] == a && Next(s, a) == Move(s, t, o);
    }
  }

  lemma LeavingOut(s: State, t: nat, o: Tests)
    requires t !in s.readers
    ensures ReadOut(To(s, t, Leaving), t, o) == s
  {
    assert s.readers[t := Leaving] - {t} == s.readers;
  }

  lemma UnreservingOut(s: State, t: nat, id: Id, o: Tests)
    requires t !in s.readers
    ensures ReadOut(To(s, t, Unreserving(id)), t, o) == s.(ids := s.ids - {id})
  {
    var s' := s.(ids := s.ids - {id});
    assert Move(To(s, t, Unreserving(id)), t, o) == To(s', t, Leaving);
    LeavingOut(s', t, o);
  }

  lemma OverflowedOut(s: State, t: nat, id: Id, o: Tests)
    requires t !in s.readers && s.len > 0
    ensures ReadOut(To(s, t, Overflowed(id)), t, o) == s.(ids := s.ids - {id}, len := s.len - 1)
  {
    var s' := s.(len := s.len - 1);
    assert Move(To(s, t, Overflowed(id)), t, o) == To(s', t, Unreserving(id));
    UnreservingOut(s', t, id, o);
  }

  lemma PublishedOut(s: State, t: nat, i: nat, o: Tests)
    requires t !in s.readers
    ensures ReadOut(To(s, t, Published(i, true)), t, o) == s.(liveCount := s.liveCount + 1)
  {
    var s' := s.(liveCount := s.liveCount + 1);
    assert Move(To(s, t, Published(i, true)), t, o) == To(s', t, Leaving);
    LeavingOut(s', t, o);
  }

  lemma MappedOut(s: State, t: nat, id: Id, vec: Vector, i: nat, o: Tests)
    requires t !in s.readers && i < |s.slots| && s.slots[i].state == WRITING
    ensures ReadOut(To(s, t, Mapped(id, vec, i)), t, o) ==
      s.(slots := s.slots[i := s.slots[i].(state := LIVE)], liveCount := s.liveCount + 1)
  {
    var s' := SetSlot(s, i, s.slots[i].(state := LIVE));
    assert Move(To(s, t, Mapped(id, vec, i)), t, o) == To(s', t, Published(i, true));
    PublishedOut(s', t, i, o);
  }

  lemma NodeWrittenOut(s: State, t: nat, id: Id, vec: Vector, i: nat, o: Tests)
    requires t !in s.readers && i < |s.slots| && s.slots[i].state == WRITING
    ensures ReadOut(To(s, t, NodeWritten(id, vec, i)), t, o) ==
      s.(slots := s.slots[i := s.slots[i].(state := LIVE)], liveCount := s.liveCount + 1, ids := s.ids[id := At(i)])
  {
    var s' := s.(ids := s.ids[id := At(i)]);
    assert Move(To(s, t, NodeWritten(id, vec, i)), t, o) == To(s', t, Mapped(id, vec, i));
    MappedOut(s', t, id, vec, i, o);
  }

  /** What the slot of a successful insert holds. */
  function Filled(id: Id, vec: Vector): Slot { Slot(LIVE, vec, NormSquared(vec), Some(id)) }

  /** The slot filled, the ID mapped to it, one more live. */
  function Finished(s: State, id: Id, vec: Vector, i: nat): State
    requires i < |s.slots|
  {
    s.(slots := s.slots[i := Filled(id, vec)], liveCount := s.liveCount + 1, ids := s.ids[id := At(i)])
  }

  lemma VectorWrittenOut(s: State, t: nat, id: Id, vec: Vector, i: nat, o: Tests)
    requires t !in s.readers && i < |s.slots| && s.slots[i].state == WRITING
    requires s.slots[i].vector == vec && s.slots[i].norm == NormSquared(vec)
    ensures ReadOut(To(s, t, VectorWritten(id, vec, i)), t, o) == Finished(s, id, vec, i)
  {
    var s' := SetSlot(s, i, s.slots[i].(node := Some(id)));
    assert Move(To(s, t, VectorWritten(id, vec, i)), t, o) == To(s', t, NodeWritten(id, vec, i));
    NodeWrittenOut(s', t, id, vec, i, o);
    assert s'.slots[i := s'.slots[i].(state := LIVE)] == s.slots[i := Filled(id, vec)];
  }

  lemma CopiedOut(s: State, t: nat, id: Id, vec: Vector, i: nat, o: Tests)
    requires t !in s.readers && i < |s.slots| && s.slots[i].state == WRITING && s.slots[i].vector == vec
    ensures ReadOut(To(s, t, Copying(id, vec, i, |vec|)), t, o) == Finished(s, id, vec, i)
  {
    var s' := SetSlot(s, i, s.slots[i].(norm := NormSquared(vec)));
    assert Move(To(s, t, Copying(id, vec, i, |vec|)), t, o) == To(s', t, VectorWritten(id, vec, i));
    VectorWrittenOut(s', t, id, vec, i, o);
    FinishedAlike(s, i, s'.slots[i], id, vec);
  }

  lemma FinishedAlike(s: State, i: nat, slot: Slot, id: Id, vec: Vector)
    requires i < |s.slots|
    ensures Finished(SetSlot(s, i, slot), id, vec, i) == Finished(s, id, vec, i)
  {
    assert s.slots[i := slot][i := Filled(id, vec)] == s.slots[i := Filled(id, vec)];
  }

  lemma {:induction false} CopyingOut(s: State, t: nat, id: Id, vec: Vector, i: nat, done: nat, o: Tests)
    requires t !in s.readers && i < |s.slots| && s.slots[i].state == WRITING && done <= |vec|
    requires |s.slots[i].vector| == |vec| && s.slots[i].vector[..done] == vec[..done]
    ensures ReadOut(To(s, t, Copying(id, vec, i, done)), t, o) == Finished(s, id, vec, i)
    decreases |vec| - done
  {
    if done == |vec| {
      assert s.slots[i].vector == vec;
      CopiedOut(s, t, id, vec, i, o);
    } else {
      var v := s.slots[i].vector[done := vec[done]];
      var s' := SetSlot(s, i, s.slots[i].(vector := v));
      assert Move(To(s, t, Copying(id, vec, i, done)), t, o) == To(s', t, Copying(id, vec, i, done + 1));
      assert v[..done + 1] == vec[..done + 1] by { assert v[..done] == vec[..done]; }
      CopyingOut(s', t, id, vec, i, done + 1, o);
      FinishedAlike(s, i, s'.slots[i], id, vec);
    }
  }

  lemma ClaimedOut(s: State, t: nat, id: Id, vec: Vector, i: nat, o: Tests)
    requires t !in s.readers && i < |s.slots| && |s.slots[i].vector| == |vec|
    ensures ReadOut(To(s, t, Claimed(id, vec, i)), t, o) == Finished(s, id, vec, i)
  {
    var s' := SetSlot(s, i, s.slots[i].(state := WRITING));
    assert Move(To(s, t, Claimed(id, vec, i)), t, o) == To(s', t, Copying(id, vec, i, 0));
    CopyingOut(s', t, id, vec, i, 0, o);
    FinishedAlike(s, i, s'.slots[i], id, vec);
  }

  /** The state after a successful insert: the next slot claimed and filled, the ID mapped to it, one more
      live; nothing else has changed. */
  function Inserted(s: State, t: nat, id: Id, vec: Vector): State
    requires s.len < |s.slots|
  {
    s.(len := s.len + 1, claims := s.claims + [Claim(id, vec, t)], slots := s.slots[s.len := Filled(id, vec)],
       ids := s.ids[id := At(s.len)], liveCount := s.liveCount + 1)
  }

  lemma JournaledOut(s: State, t: nat, id: Id, vec: Vector, o: Tests)
    requires t !in s.readers && s.capacity == |s.slots|
    requires s.len < s.capacity ==> |s.slots[s.len].vector| == |vec|
    ensures ReadOut(To(s, t, Journaled(id, vec)), t, o) ==
      if s.len < s.capacity then Inserted(s, t, id, vec) else s.(ids := s.ids - {id})
  {
    var s0 := To(s, t, Journaled(id, vec));
    if s.len < s.capacity {
      var s' := s.(len := s.len + 1, claims := s.claims + [Claim(id, vec, t)]);
      assert Move(s0, t, o) == To(s', t, Claimed(id, vec, s.len));
      ClaimedOut(s', t, id, vec, s.len, o);
    } else {
      var s' := s.(len := s.len + 1);
      assert Move(s0, t, o) == To(s', t, Overflowed(id));
      OverflowedOut(s', t, id, o);
    }
  }

  lemma ReservedOut(s: State, t: nat, id: Id, vec: Vector, o: Tests)
    requires t !in s.readers && s.capacity == |s.slots|
    requires s.len < s.capacity ==> |s.slots[s.len].vector| == |vec|
    ensures ReadOut(To(s, t, Reserved(id, vec)), t, o) ==
      if o.logged && s.len < s.capacity then Inserted(s, t, id, vec) else s.(ids := s.ids - {id})
  {
    var s0 := To(s, t, Reserved(id, vec));
    if o.logged {
      assert Move(s0, t, o) == To(s, t, Journaled(id, vec));
      JournaledOut(s, t, id, vec, o);
    } else {
      assert Move(s0, t, o) == To(s, t, Unreserving(id));
      UnreservingOut(s, t, id, o);
    }
  }

  lemma EnteredOut(s: State, t: nat, id: Id, vec: Vector, o: Tests)
    requires t !in s.readers && s.capacity == |s.slots|
    requires s.len < s.capacity ==> |s.slots[s.len].vector| == s.dimension
    ensures ReadOut(To(s, t, Entered(id, vec)), t, o) ==
      if |vec| == s.dimension && o.idle && id !in s.ids && o.logged && s.len < s.capacity then Inserted(s, t, id, vec)
      else s
  {
    var s0 := To(s, t, Entered(id, vec));
    if |vec| != s.dimension || !o.idle || id in s.ids {
      assert Move(s0, t, o) == To(s, t, Leaving);
      LeavingOut(s, t, o);
    } else {
      var s' := s.(ids := s.ids[id := Sentinel(t)]);
      assert Move(s0, t, o) == To(s', t, Reserved(id, vec));
      ReservedOut(s', t, id, vec, o);
      assert s'.ids - {id} == s.ids && s'.ids[id := At(s.len)] == s.ids[id := At(s.len)];
    }
  }

  /** A vector of the wrong dimension, a busy optimiser, a known ID, a refused append or a full arena leave
      everything as it was; otherwise the insert ends with the ID mapped to a LIVE slot that holds the
      vector, its norm and its ID. Other inserts may be under way. */
  lemma InsertCompletes(s: State, t: nat, id: Id, vec: Vector, o: Tests)
    requires Inv(s) && t !in s.readers && s.writer == NoWriter
    ensures var r := ReadOut(Next(s, StartInsert(t, id, vec)), t, o);
      if |vec| == s.dimension && o.idle && id !in s.ids && o.logged && s.len < s.capacity then
        s.len < |s.slots| && r == Inserted(s, t, id, vec)
      else r == s
  {
    EnteredOut(s, t, id, vec, o);
  }

  // ---- inserts under any interleaving ----------------------------------------------------------

  /** What an insert has published is its own claim and still LIVE. */
  ghost predicate PublishedOk(s: State) {
    forall t :: t in s.readers && s.readers[t].Published? ==>
      var i := s.readers[t].slot;
      i < |s.claims| && i < |s.slots| && s.claims[i].claimer == t && s.slots[i].state == LIVE
  }

  lemma StepKeepsPublished(s: State, a: Action)
    requires Inv(s) && PublishedOk(s) && Enabled(s, a)
    ensures PublishedOk(Do(s, a))
  {
    var s' := Do(s, a);
    if a.Read? { assert ReaderOk(s, a.t, s.readers[a.t]); }
    forall u | u in s'.readers && s'.readers[u].Published?
      ensures var i := s'.readers[u].slot;
        i < |s'.claims| && i < |s'.slots| && s'.claims[i].claimer == u && s'.slots[i].state == LIVE
    {
      if !(a.Read? && a.t == u) { assert s.readers[u] == s'.readers[u]; }
    }
  }

  lemma {:induction false} RunKeepsPublished(capacity: nat, dimension: nat, schedule: seq<Action>)
    ensures PublishedOk(Run(capacity, dimension, schedule))
    decreases |schedule|
  {
    if schedule != [] {
      var s, a := Run(capacity, dimension, schedule[..|schedule| - 1]), schedule[|schedule| - 1];
      RunKeepsPublished(capacity, dimension, schedule[..|schedule| - 1]);
      if Enabled(s, a) { StepKeepsPublished(s, a); }
    }
  }

  /** Under any interleaving, an insert that has published and not yet left finds its slot LIVE, holding
      what it claimed it for, and its ID mapped to it. */
  lemma PublishedIsThere(capacity: nat, dimension: nat, schedule: seq<Action>, t: nat)
    requires var s := Run(capacity, dimension, schedule); t in s.readers && s.readers[t].Published?
    ensures var s := Run(capacity, dimension, schedule); var i := s.readers[t].slot;
      && i < |s.claims| && i < |s.slots| && s.claims[i].claimer == t
      && s.slots[i] == Filled(s.claims[i].id, s.claims[i].vec)
      && s.claims[i].id in s.ids && s.ids[s.claims[i].id] == At(i)
  {
    var s := Run(capacity, dimension, schedule);
    RunKeepsPublished(capacity, dimension, schedule);
    assert SlotOk(s, s.readers[t].slot);
  }

  // ---- on schedules ----------------------------------------------------------------------------

  /** After any schedule that leaves the gate free, a removal scheduled next has, whatever else is tried
      meanwhile, done exactly this by the time it is gone. */
  lemma RemovedOnSchedule(capacity: nat, dimension: nat, schedule: seq<Action>, id: Id, acts: seq<Action>, s: State)
    requires Run(capacity, dimension, schedule) == s && Quiet(s) && id in s.ids
    requires RunsToEnd(Next(s, StartRemove(id)), acts)
    ensures var r := Run(capacity, dimension, schedule + ([StartRemove(id)] + acts));
      && s.ids[id].At? && s.ids[id].slot < |s.slots|
      && var i := s.ids[id].slot;
         r == s.(ids := s.ids - {id}, slots := s.slots[i := s.slots[i].(state := DELETED)],
                 liveCount := s.liveCount - 1)
  {
    RunsOn(capacity, dimension, schedule, [StartRemove(id)] + acts);
    RunCons(s, StartRemove(id), acts);
    WriterRunsOut(Next(s, StartRemove(id)), acts);
    RemoveCompletes(s, id);
  }

  /** The same of a clear. */
  lemma ClearedOnSchedule(capacity: nat, dimension: nat, schedule: seq<Action>, acts: seq<Action>, s: State)
    requires Run(capacity, dimension, schedule) == s && Quiet(s) && RunsToEnd(Next(s, StartClear), acts)
    ensures var r := Run(capacity, dimension, schedule + ([StartClear] + acts));
      r.ids == map[] && r.len == 0 && r.liveCount == 0 && LiveSlots(r.slots) == {} && Quiet(r)
  {
    RunsOn(capacity, dimension, schedule, [StartClear] + acts);
    RunCons(s, StartClear, acts);
    WriterRunsOut(Next(s, StartClear), acts);
    ClearCompletes(s);
  }

  /** An insert scheduled next, and run by its own steps, ends so, whoever else is under way. */
  lemma InsertedOnSchedule(capacity: nat, dimension: nat, schedule: seq<Action>, t: nat, id: Id, vec: Vector, s: State)
      returns (acts: seq<Action>)
    requires Run(capacity, dimension, schedule) == s && t !in s.readers && s.writer == NoWriter
    requires |vec| == dimension && id !in s.ids && s.len < capacity
    ensures (forall a :: a in acts ==> a.Read? && a.t == t) && s.len < |s.slots|
    ensures Run(capacity, dimension, schedule + ([StartInsert(t, id, vec)] + acts)) == Inserted(s, t, id, vec)
  {
    var a := StartInsert(t, id, vec);
    acts := ReadsOut(Next(s, a), t, Tests(true, true));
    RunsOn(capacity, dimension, schedule, [a] + acts);
    RunCons(s, a, acts);
    InsertCompletes(s, t, id, vec, Tests(true, true));
  }
}
