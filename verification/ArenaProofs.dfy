/** Every atomic step of the arena protocol keeps the invariant. */
module ArenaProofs {
  import opened Basics
  import opened ComplexVectors
  import opened Arena

  // ---- counting --------------------------------------------------------------------------------

  /** Two sets that differ at most in `t`. */
  lemma DifferInOne(a: set<nat>, b: set<nat>, t: nat)
    requires forall x :: x != t ==> (x in a <==> x in b)
    ensures |b| == |a| - (if t in a then 1 else 0) + (if t in b then 1 else 0)
  {
    var rest := a - {t};
    assert rest == b - {t};
    if t in a { assert a == rest + {t}; } else { assert a == rest; }
    if t in b { assert b == rest + {t}; } else { assert b == rest; }
  }

  /** One thread moving on changes each tally by its own share. */
  lemma Tally(readers: map<nat, Reader>, t: nat, pc: Reader)
    requires t in readers
    ensures |Over(readers[t := pc])| ==
      |Over(readers)| - (if readers[t].Overflowed? then 1 else 0) + (if pc.Overflowed? then 1 else 0)
    ensures |Publishing(readers[t := pc])| == |Publishing(readers)|
      - (if readers[t].Published? && readers[t].counts then 1 else 0) + (if pc.Published? && pc.counts then 1 else 0)
  {
    DifferInOne(Over(readers), Over(readers[t := pc]), t);
    DifferInOne(Publishing(readers), Publishing(readers[t := pc]), t);
  }

  /** A thread taking or releasing the gate changes no tally. */
  lemma TallyGate(readers: map<nat, Reader>, t: nat, pc: Reader)
    requires !pc.Overflowed? && !pc.Published?
    ensures t !in readers ==>
        Over(readers[t := pc]) == Over(readers) && Publishing(readers[t := pc]) == Publishing(readers)
    ensures t in readers && readers[t] == pc ==>
        Over(readers - {t}) == Over(readers) && Publishing(readers - {t}) == Publishing(readers)
  {
  }

  /** Changing one slot's state changes the number of LIVE slots by its own share. */
  lemma TallySlot(slots: seq<Slot>, i: nat, slot: Slot)
    requires i < |slots|
    ensures |LiveSlots(slots[i := slot])| ==
      |LiveSlots(slots)| - (if slots[i].state == LIVE then 1 else 0) + (if slot.state == LIVE then 1 else 0)
  {
    DifferInOne(LiveSlots(slots), LiveSlots(slots[i := slot]), i);
  }

  lemma NoTally(slots: seq<Slot>)
    requires forall i :: 0 <= i < |slots| ==> slots[i].state == EMPTY
    ensures LiveSlots(slots) == {}
  {
  }

  // ---- one step of an insert -------------------------------------------------------------------

  /** The steps that write into a claimed slot or map it. */
  predicate Fill(pc: Reader) { pc.Claimed? || pc.Copying? || pc.VectorWritten? || pc.NodeWritten? || pc.Mapped? }

  /** What a step of insert `t` may rely on, without quantifying over threads, slots or IDs. */
  ghost predicate CanRead(s: State, t: nat) {
    && t in s.readers && ReaderInBounds(s, s.readers[t]) && ReaderOk(s, t, s.readers[t])
    && s.writer == NoWriter && |s.slots| == s.capacity
    && |s.claims| <= s.capacity && (s.len < s.capacity ==> s.len == |s.claims|)
  }

  /** While an insert runs there is no writer. */
  lemma InvCanRead(s: State, t: nat)
    requires Inv(s) && t in s.readers
    ensures CanRead(s, t)
  {
    assert ReaderOk(s, t, s.readers[t]);
  }

  lemma BookKeepsCounts(s: State, t: nat, ok: bool)
    requires CanRead(s, t) && !Fill(s.readers[t]) && Shape(s) && Accounted(s) && CountOk(s)
    ensures var s' := ReadStep(s, t, ok); Shape(s') && Accounted(s') && CountOk(s') && s'.writer == NoWriter
  {
    if s.readers[t].Leaving? {
      TallyGate(s.readers, t, Leaving);
    } else {
      Tally(s.readers, t, ReadStep(s, t, ok).readers[t]);
    }
  }

  lemma FillKeepsCounts(s: State, t: nat, ok: bool)
    requires CanRead(s, t) && Fill(s.readers[t]) && Shape(s) && Accounted(s) && CountOk(s)
    ensures var s' := ReadStep(s, t, ok); Shape(s') && Accounted(s') && CountOk(s') && s'.writer == NoWriter
  {
    var s', i := ReadStep(s, t, ok), s.readers[t].slot;
    Tally(s.readers, t, s'.readers[t]);
    TallySlot(s.slots, i, s'.slots[i]);
    assert s'.slots == s.slots[i := s'.slots[i]];
  }

  /** The acting thread stands where it claims to stand. */
  lemma BookKeepsSelf(s: State, t: nat, ok: bool)
    requires CanRead(s, t) && !Fill(s.readers[t]) && !s.readers[t].Leaving?
    requires s.len < |s.slots| ==> SlotOk(s, s.len)
    ensures var s' := ReadStep(s, t, ok); ReaderOk(s', t, s'.readers[t])
  {
  }

  lemma FillKeepsSelf(s: State, t: nat, ok: bool)
    requires CanRead(s, t) && Fill(s.readers[t]) && Shape(s)
    ensures var s' := ReadStep(s, t, ok); ReaderOk(s', t, s'.readers[t])
  {
    var pc := s.readers[t];
    if pc.Copying? {
      var v := s.slots[pc.slot].vector;
      if pc.done < |pc.vec| {
        assert v[pc.done := pc.vec[pc.done]][..pc.done + 1] == v[..pc.done] + [pc.vec[pc.done]];
      } else {
        assert v[..pc.done] == v && pc.vec[..pc.done] == pc.vec;
      }
    }
  }

  /** Every other thread stands where it stood. */
  lemma BookKeepsOthers(s: State, t: nat, ok: bool, u: nat)
    requires t in s.readers && ReaderInBounds(s, s.readers[t]) && ReaderOk(s, t, s.readers[t]) && !Fill(s.readers[t])
    requires u in s.readers && u != t && ReaderOk(s, u, s.readers[u])
    ensures var s' := ReadStep(s, t, ok); u in s'.readers && ReaderOk(s', u, s'.readers[u])
  {
  }

  lemma FillKeepsOthers(s: State, t: nat, ok: bool, u: nat)
    requires t in s.readers && ReaderInBounds(s, s.readers[t]) && ReaderOk(s, t, s.readers[t]) && Fill(s.readers[t])
    requires u in s.readers && u != t && ReaderOk(s, u, s.readers[u])
    ensures var s' := ReadStep(s, t, ok); u in s'.readers && ReaderOk(s', u, s'.readers[u])
  {
  }

  lemma BookKeepsSlot(s: State, t: nat, ok: bool, i: nat)
    requires CanRead(s, t) && !Fill(s.readers[t]) && i < |s.slots| && SlotOk(s, i)
    ensures SlotOk(ReadStep(s, t, ok), i)
  {
  }

  lemma FillKeepsSlot(s: State, t: nat, ok: bool, i: nat)
    requires CanRead(s, t) && Fill(s.readers[t]) && i < |s.slots| && SlotOk(s, i)
    ensures SlotOk(ReadStep(s, t, ok), i)
  {
  }

  lemma BookKeepsId(s: State, t: nat, ok: bool, id: Id)
    requires CanRead(s, t) && !Fill(s.readers[t]) && id in ReadStep(s, t, ok).ids && (id in s.ids ==> IdOk(s, id))
    ensures IdOk(ReadStep(s, t, ok), id)
  {
  }

  lemma FillKeepsId(s: State, t: nat, ok: bool, id: Id)
    requires CanRead(s, t) && Fill(s.readers[t]) && id in ReadStep(s, t, ok).ids && (id in s.ids ==> IdOk(s, id))
    ensures IdOk(ReadStep(s, t, ok), id)
  {
  }

  lemma BookKeepsReaders(s: State, t: nat, ok: bool)
    requires CanRead(s, t) && !Fill(s.readers[t]) && ReadersOk(s) && (s.len < |s.slots| ==> SlotOk(s, s.len))
    ensures ReadersOk(ReadStep(s, t, ok))
  {
    var s' := ReadStep(s, t, ok);
    forall u | u in s'.readers ensures ReaderOk(s', u, s'.readers[u]) {
      if u == t { BookKeepsSelf(s, t, ok); } else { BookKeepsOthers(s, t, ok, u); }
    }
  }

  lemma BookKeepsSlots(s: State, t: nat, ok: bool)
    requires CanRead(s, t) && !Fill(s.readers[t]) && SlotsOk(s)
    ensures SlotsOk(ReadStep(s, t, ok))
  {
    var s' := ReadStep(s, t, ok);
    forall i: nat | i < |s'.slots| ensures SlotOk(s', i) { BookKeepsSlot(s, t, ok, i); }
  }

  lemma BookKeepsIds(s: State, t: nat, ok: bool)
    requires CanRead(s, t) && !Fill(s.readers[t]) && IdsOk(s)
    ensures IdsOk(ReadStep(s, t, ok))
  {
    var s' := ReadStep(s, t, ok);
    forall id | id in s'.ids ensures IdOk(s', id) { BookKeepsId(s, t, ok, id); }
  }

  lemma BookKeepsInv(s: State, t: nat, ok: bool)
    requires Inv(s) && CanRead(s, t) && !Fill(s.readers[t])
    ensures Inv(ReadStep(s, t, ok))
  {
    BookKeepsCounts(s, t, ok);
    BookKeepsReaders(s, t, ok);
    BookKeepsSlots(s, t, ok);
    BookKeepsIds(s, t, ok);
    Conclude(ReadStep(s, t, ok));
  }

  lemma Conclude(s: State)
    requires Shape(s) && Accounted(s) && ReadersOk(s) && SlotsOk(s) && IdsOk(s) && CountOk(s) && s.writer == NoWriter
    ensures Inv(s)
  {
  }

  lemma FillKeepsInv(s: State, t: nat, ok: bool)
    requires Inv(s) && CanRead(s, t) && Fill(s.readers[t])
    ensures Inv(ReadStep(s, t, ok))
  {
    var s' := ReadStep(s, t, ok);
    FillKeepsCounts(s, t, ok);
    forall u | u in s'.readers ensures ReaderOk(s', u, s'.readers[u]) {
      if u == t { FillKeepsSelf(s, t, ok); } else { FillKeepsOthers(s, t, ok, u); }
    }
    forall i: nat | i < |s'.slots| ensures SlotOk(s', i) { FillKeepsSlot(s, t, ok, i); }
    forall id | id in s'.ids ensures IdOk(s', id) { FillKeepsId(s, t, ok, id); }
  }

  // ---- one step of a remove or clear -----------------------------------------------------------

  /** With no insert in flight, every ID entry names a LIVE slot: the sentinel is never seen. */
  lemma NoSentinel(s: State, id: Id)
    requires Inv(s) && s.readers == map[] && !IsWiping(s) && s.writer != Wiped && id in s.ids
    ensures s.ids[id].At? && s.ids[id].slot < |s.slots| && s.ids[id].slot < |s.claims|
    ensures s.slots[s.ids[id].slot].state == LIVE && s.claims[s.ids[id].slot].id == id
  {
    assert IdOk(s, id);
  }

  lemma KeepRemoving(s: State)
    requires Inv(s) && s.writer.Removing?
    ensures Inv(WriteStep(s))
  {
    var s', id := WriteStep(s), s.writer.id;
    if id in s.ids { NoSentinel(s, id); }
    forall i: nat | i < |s'.slots| ensures SlotOk(s', i) { assert SlotOk(s, i); }
    forall k | k in s'.ids ensures IdOk(s', k) { assert IdOk(s, k); }
  }

  lemma DeleteKeepsSlot(s: State, j: nat)
    requires s.writer.Unmapped? && WriterInBounds(s) && WriterOk(s) && s.readers == map[]
    requires j < |s.slots| && SlotOk(s, j)
    ensures SlotOk(WriteStep(s), j)
  {
  }

  lemma DeleteKeepsId(s: State, id: Id)
    requires s.writer.Unmapped? && WriterInBounds(s) && WriterOk(s) && s.readers == map[] && id in s.ids && IdOk(s, id)
    ensures IdOk(WriteStep(s), id)
  {
  }

  lemma KeepUnmapped(s: State)
    requires Inv(s) && s.writer.Unmapped? && WriterInBounds(s)
    ensures Inv(WriteStep(s))
  {
    var s', i := WriteStep(s), s.writer.found.slot;
    TallySlot(s.slots, i, s'.slots[i]);
    forall j: nat | j < |s'.slots| ensures SlotOk(s', j) { DeleteKeepsSlot(s, j); }
    forall k | k in s'.ids ensures IdOk(s', k) { DeleteKeepsId(s, k); }
  }

  lemma KeepDeleted(s: State)
    requires Inv(s) && s.writer.Deleted?
    ensures Inv(WriteStep(s))
  {
    var s' := WriteStep(s);
    forall i: nat | i < |s'.slots| ensures SlotOk(s', i) { assert SlotOk(s, i); }
    forall k | k in s'.ids ensures IdOk(s', k) { assert IdOk(s, k); }
  }

  /** Resetting `len` hides every slot at once; what lies beyond the old length is EMPTY already. */
  lemma KeepClearing(s: State)
    requires Inv(s) && s.writer.Clearing?
    ensures Inv(WriteStep(s))
  {
    forall i: nat | s.len <= i < |s.slots| ensures s.slots[i].state == EMPTY { assert SlotOk(s, i); }
    assert Over(s.readers) == {};
  }

  lemma KeepLenReset(s: State)
    requires Inv(s) && s.writer.LenReset?
    ensures Inv(WriteStep(s))
  {
  }

  lemma KeepWiping(s: State)
    requires Inv(s) && s.writer.Wiping? && WriterInBounds(s)
    ensures Inv(WriteStep(s))
  {
    var s' := WriteStep(s);
    if s'.writer == Wiped {
      NoTally(s.slots);
      assert Publishing(s.readers) == {};
      forall i: nat | i < |s'.slots| ensures SlotOk(s', i) {}
    }
  }

  lemma KeepWiped(s: State)
    requires Inv(s) && s.writer.Wiped?
    ensures Inv(WriteStep(s))
  {
    var s' := WriteStep(s);
    forall i: nat | i < |s'.slots| ensures SlotOk(s', i) { assert SlotOk(s, i); }
  }

  lemma KeepLeavingWrite(s: State)
    requires Inv(s) && s.writer.LeavingWrite?
    ensures Inv(WriteStep(s))
  {
    var s' := WriteStep(s);
    forall i: nat | i < |s'.slots| ensures SlotOk(s', i) { assert SlotOk(s, i); }
    forall k | k in s'.ids ensures IdOk(s', k) { assert IdOk(s, k); }
  }

  // ---- taking the gate -------------------------------------------------------------------------

  lemma KeepStartInsert(s: State, t: nat, id: Id, vec: Vector)
    requires Inv(s) && t !in s.readers && s.writer == NoWriter
    ensures Inv(To(s, t, Entered(id, vec)))
  {
    var s' := To(s, t, Entered(id, vec));
    TallyGate(s.readers, t, Entered(id, vec));
    forall u | u in s'.readers ensures ReaderOk(s', u, s'.readers[u]) {
      assert u != t ==> ReaderOk(s, u, s.readers[u]);
    }
    forall i: nat | i < |s'.slots| ensures SlotOk(s', i) { assert SlotOk(s, i); }
    forall k | k in s'.ids ensures IdOk(s', k) { assert IdOk(s, k); }
  }

  lemma KeepStartWrite(s: State, w: Writer)
    requires Inv(s) && s.readers == map[] && s.writer == NoWriter && (w.Removing? || w.Clearing?)
    ensures Inv(s.(writer := w))
  {
    var s' := s.(writer := w);
    forall i: nat | i < |s'.slots| ensures SlotOk(s', i) { assert SlotOk(s, i); }
    forall k | k in s'.ids ensures IdOk(s', k) { assert IdOk(s, k); }
  }

  /** Every atomic step of every operation keeps the invariant. */
  lemma StepKeepsInv(s: State, a: Action)
    requires Inv(s) && Enabled(s, a)
    ensures Inv(Do(s, a))
  {
    match a
    case StartInsert(t, id, vec) => KeepStartInsert(s, t, id, vec);
    case StartRemove(id) => KeepStartWrite(s, Removing(id));
    case StartClear => KeepStartWrite(s, Clearing);
    case Read(t, ok) =>
      InvCanRead(s, t);
      if Fill(s.readers[t]) { FillKeepsInv(s, t, ok); } else { BookKeepsInv(s, t, ok); }
    case Write =>
      match s.writer
      case Removing(_) => KeepRemoving(s);
      case Unmapped(_) => KeepUnmapped(s);
      case Deleted(_) => KeepDeleted(s);
      case Clearing => KeepClearing(s);
      case LenReset(_) => KeepLenReset(s);
      case Wiping(_, _) => KeepWiping(s);
      case Wiped => KeepWiped(s);
      case LeavingWrite => KeepLeavingWrite(s);
  }

  /** No step a thread is about to make can leave the arena's bounds. */
  lemma StepsInBounds(s: State)
    requires Inv(s)
    ensures forall t :: t in s.readers ==> ReaderInBounds(s, s.readers[t])
    ensures WriterInBounds(s)
  {
    forall t | t in s.readers ensures ReaderInBounds(s, s.readers[t]) { assert ReaderOk(s, t, s.readers[t]); }
  }

  // ---- every run -------------------------------------------------------------------------------

  /** The state after a schedule; actions that are not enabled are skipped. */
  function Run(capacity: nat, dimension: nat, schedule: seq<Action>): (s: State)
    ensures Inv(s) && s.capacity == capacity && s.dimension == dimension
    decreases |schedule|
  {
    if schedule == [] then InitHolds(capacity, dimension); Init(capacity, dimension)
    else
      var s := Run(capacity, dimension, schedule[..|schedule| - 1]);
      var a := schedule[|schedule| - 1];
      if Enabled(s, a) then StepKeepsInv(s, a); Do(s, a) else s
  }

  lemma InitHolds(capacity: nat, dimension: nat)
    ensures Inv(Init(capacity, dimension))
  {
    var s := Init(capacity, dimension);
    NoTally(s.slots);
    forall i: nat | i < |s.slots| ensures SlotOk(s, i) {}
  }

  /** Under any interleaving at most `capacity` slots are claimed; below capacity `len`, the next index
      `fetch_add` hands out, is their number, at capacity it exceeds it by the claimers between
      `fetch_add` and `fetch_sub`. */
  lemma ClaimAccounting(capacity: nat, dimension: nat, schedule: seq<Action>)
    ensures var s := Run(capacity, dimension, schedule);
      && |s.claims| <= capacity && (s.len < capacity ==> s.len == |s.claims|)
      && (|s.claims| < capacity ==> s.len == |s.claims|)
      && (|s.claims| == capacity ==> s.len == capacity + |Over(s.readers)|)
  {
  }

  lemma FillerIsClaimer(s: State, t: nat, i: nat)
    requires t in s.readers && ReaderOk(s, t, s.readers[t]) && Fills(s.readers[t], i)
    ensures i < |s.claims| && s.claims[i].claimer == t
  {
  }

  /** No two inserts work on the same slot at the same time. */
  lemma FillersAreDistinct(capacity: nat, dimension: nat, schedule: seq<Action>, t: nat, u: nat, i: nat)
    requires var s := Run(capacity, dimension, schedule);
      t in s.readers && u in s.readers && Fills(s.readers[t], i) && Fills(s.readers[u], i)
    ensures t == u
  {
    var s := Run(capacity, dimension, schedule);
    FillerIsClaimer(s, t, i);
    FillerIsClaimer(s, u, i);
  }

  /** The step of a `clear` that forgets all claims. */
  predicate Forgets(s: State, a: Action) { a.Write? && s.writer.Clearing? }

  /** The step that hands a slot to an insert. */
  predicate Hands(s: State, a: Action) {
    a.Read? && a.t in s.readers && s.readers[a.t].Journaled? && s.len < s.capacity
  }

  /** The slot it hands out is recorded with its claimer, and the claims before it stay. */
  lemma ClaimsGrow(s: State, a: Action)
    requires Enabled(s, a) && !Forgets(s, a)
    ensures s.claims <= Do(s, a).claims
    ensures Hands(s, a) ==> |Do(s, a).claims| == |s.claims| + 1
    ensures Hands(s, a) ==> Do(s, a).readers[a.t] == Claimed(s.readers[a.t].id, s.readers[a.t].vec, s.len)
  {
  }

  lemma {:induction false} ClaimsStay(capacity: nat, dimension: nat, schedule: seq<Action>, i: nat)
    requires i < |schedule| && !Forgets(Run(capacity, dimension, schedule[..i]), schedule[i])
    ensures Run(capacity, dimension, schedule[..i]).claims <= Run(capacity, dimension, schedule[..i + 1]).claims
  {
    var s := Run(capacity, dimension, schedule[..i]);
    assert schedule[..i + 1][..i] == schedule[..i];
    if Enabled(s, schedule[i]) { ClaimsGrow(s, schedule[i]); }
  }

  lemma {:induction false} PrefixChain<T>(f: nat -> seq<T>, m: nat, n: nat)
    requires m <= n && forall i: nat :: m <= i < n ==> f(i) <= f(i + 1)
    ensures f(m) <= f(n)
    decreases n
  {
    if m < n { PrefixChain(f, m, n - 1); }
  }

  ghost function ClaimsAt(capacity: nat, dimension: nat, schedule: seq<Action>): nat -> seq<Claim> {
    (i: nat) => if i <= |schedule| then Run(capacity, dimension, schedule[..i]).claims else []
  }

  lemma {:induction false} ClaimsAtStep(capacity: nat, dimension: nat, schedule: seq<Action>, i: nat)
    requires i < |schedule| && !Forgets(Run(capacity, dimension, schedule[..i]), schedule[i])
    ensures var f := ClaimsAt(capacity, dimension, schedule); f(i) <= f(i + 1)
  {
    ClaimsStay(capacity, dimension, schedule, i);
  }

  /** Between two clears no claim is ever dropped or changed. */
  lemma {:induction false} ClaimsPersist(capacity: nat, dimension: nat, schedule: seq<Action>, m: nat, n: nat)
    requires m <= n <= |schedule|
    requires forall i :: m <= i < n ==> !Forgets(Run(capacity, dimension, schedule[..i]), schedule[i])
    ensures var f := ClaimsAt(capacity, dimension, schedule); f(m) <= f(n)
  {
    forall i: nat | m <= i < n
      ensures ClaimsAt(capacity, dimension, schedule)(i) <= ClaimsAt(capacity, dimension, schedule)(i + 1)
    {
      ClaimsAtStep(capacity, dimension, schedule, i);
    }
    PrefixChain(ClaimsAt(capacity, dimension, schedule), m, n);
  }

  /** The slot handed out is the number of claims before it; it is one more afterwards, and being filled. */
  lemma {:induction false} Handed(capacity: nat, dimension: nat, schedule: seq<Action>, n: nat)
    requires n < |schedule| && Hands(Run(capacity, dimension, schedule[..n]), schedule[n])
    ensures var s, f := Run(capacity, dimension, schedule[..n]), ClaimsAt(capacity, dimension, schedule);
      s.len == |f(n)| && |f(n + 1)| == |f(n)| + 1
    ensures var s := Run(capacity, dimension, schedule[..n + 1]);
      schedule[n].t in s.readers && Fills(s.readers[schedule[n].t], Run(capacity, dimension, schedule[..n]).len)
  {
    var s, a := Run(capacity, dimension, schedule[..n]), schedule[n];
    ClaimAccounting(capacity, dimension, schedule[..n]);
    assert schedule[..n + 1][..n] == schedule[..n];
    StepsInBounds(s);
    assert Enabled(s, a);
    ClaimsGrow(s, a);
  }

  /** No two claims of a run, with no clear between them, get the same slot, whether or not the earlier
      insert has finished: the later one gets a higher slot. */
  lemma ClaimsAreDistinct(capacity: nat, dimension: nat, schedule: seq<Action>, m: nat, n: nat)
    requires m < n < |schedule|
    requires Hands(Run(capacity, dimension, schedule[..m]), schedule[m])
    requires Hands(Run(capacity, dimension, schedule[..n]), schedule[n])
    requires forall i :: m <= i < n ==> !Forgets(Run(capacity, dimension, schedule[..i]), schedule[i])
    ensures Run(capacity, dimension, schedule[..m]).len < Run(capacity, dimension, schedule[..n]).len
    ensures var s := Run(capacity, dimension, schedule[..m + 1]);
      schedule[m].t in s.readers && Fills(s.readers[schedule[m].t], Run(capacity, dimension, schedule[..m]).len)
  {
    Handed(capacity, dimension, schedule, m);
    Handed(capacity, dimension, schedule, n);
    ClaimsPersist(capacity, dimension, schedule, m + 1, n);
  }

  /** `len`, which scans use as an exclusive upper bound on slots, stays within the arena exactly
      while no claimer stands between its overflowing `fetch_add` and the `fetch_sub` undoing it. */
  lemma LenWithinArenaIff(capacity: nat, dimension: nat, schedule: seq<Action>)
    ensures var s := Run(capacity, dimension, schedule);
      s.len <= capacity <==> forall t :: t in s.readers ==> !s.readers[t].Overflowed?
  {
    var s := Run(capacity, dimension, schedule);
    if forall t :: t in s.readers ==> !s.readers[t].Overflowed? {
      assert Over(s.readers) == {};
    } else {
      var t :| t in s.readers && s.readers[t].Overflowed?;
      assert t in Over(s.readers);
    }
  }

  /** A scan beside the inserts asks `is_live` for a slot that does not exist exactly for the positions from
      `capacity` up to `len`: never while no claimer is overflowed, and otherwise the first of them is
      `capacity` itself. */
  lemma ScansInBoundsIff(capacity: nat, dimension: nat, schedule: seq<Action>)
    ensures var s := Run(capacity, dimension, schedule);
      && (forall i: nat :: SeenLive(s, i) == None <==> capacity <= i < s.len)
      && ((forall i: nat :: SeenLive(s, i) != None) <==> forall t :: t in s.readers ==> !s.readers[t].Overflowed?)
      && ((exists t :: t in s.readers && s.readers[t].Overflowed?) ==> SeenLive(s, capacity) == None)
  {
    LenWithinArenaIff(capacity, dimension, schedule);
    var s := Run(capacity, dimension, schedule);
    if s.len > capacity { assert SeenLive(s, capacity) == None; }
  }

  lemma {:induction false} RunStep(capacity: nat, dimension: nat, schedule: seq<Action>, a: Action, s: State)
    requires Run(capacity, dimension, schedule) == s && Enabled(s, a)
    ensures Run(capacity, dimension, schedule + [a]) == Do(s, a)
  {
    assert (schedule + [a])[..|schedule|] == schedule;
  }

  /** `len` does leave it: one insert into an arena without slots, seen before it rolls back. A scan then
      asks for slot 0. */
  lemma {:induction false} LenExceedsArena(id: Id, vec: Vector)
    ensures var s := Run(0, |vec|, [StartInsert(0, id, vec)] + [Read(0, true)] + [Read(0, true)] + [Read(0, true)]);
      s.len == 1 && SeenLive(s, 0) == None
  {
    var a, b, d := StartInsert(0, id, vec), Read(0, true), |vec|;
    var s := Init(0, d);
    var s1 := s.(readers := map[0 := Entered(id, vec)]);
    var s2 := s1.(ids := map[id := Sentinel(0)], readers := map[0 := Reserved(id, vec)]);
    var s3 := s2.(readers := map[0 := Journaled(id, vec)]);
    assert [] + [a] == [a];
    RunStep(0, d, [], a, s);
    assert Do(s, a) == s1;
    RunStep(0, d, [a], b, s1);
    assert Do(s1, b) == s2;
    RunStep(0, d, [a] + [b], b, s2);
    assert Do(s2, b) == s3;
    RunStep(0, d, [a] + [b] + [b], b, s3);
  }

  /** Whenever a slot is seen live, its vector, norm and node are the claimed ones, completely
      written; and its ID maps to it, unless a `remove` that holds the gate alone is deleting it. */
  lemma LiveMeansComplete(capacity: nat, dimension: nat, schedule: seq<Action>, i: nat)
    requires IsLive(Run(capacity, dimension, schedule), i)
    ensures var s := Run(capacity, dimension, schedule);
      && Complete(s, i)
      && (s.writer == NoWriter ==> s.claims[i].id in s.ids && s.ids[s.claims[i].id] == At(i))
  {
    var s := Run(capacity, dimension, schedule);
    assert Over(s.readers) == {} || s.writer == NoWriter;
    assert SlotOk(s, i);
  }

  /** At most one live slot per external ID, at every moment of every run. */
  lemma OneLiveSlotPerId(capacity: nat, dimension: nat, schedule: seq<Action>, i: nat, j: nat)
    requires var s := Run(capacity, dimension, schedule);
      IsLive(s, i) && IsLive(s, j) && s.slots[i].node == s.slots[j].node
    ensures i == j
  {
    var s := Run(capacity, dimension, schedule);
    LiveMeansComplete(capacity, dimension, schedule, i);
    LiveMeansComplete(capacity, dimension, schedule, j);
    assert SlotOk(s, i) && SlotOk(s, j);
  }

  /** `remove` never finds the reservation sentinel in the ID table. */
  lemma RemoveNeverSeesSentinel(capacity: nat, dimension: nat, schedule: seq<Action>)
    ensures var s := Run(capacity, dimension, schedule);
      s.writer.Removing? && s.writer.id in s.ids ==> s.ids[s.writer.id].At? && IsLive(s, s.ids[s.writer.id].slot)
  {
    var s := Run(capacity, dimension, schedule);
    if s.writer.Removing? && s.writer.id in s.ids { NoSentinel(s, s.writer.id); }
  }

  /** With nobody at the gate the ID table is a bijection onto the LIVE slots, `live_count` is their
      number, and every claimed slot is LIVE or DELETED: none is leaked half-written. */
  lemma Quiescent(capacity: nat, dimension: nat, schedule: seq<Action>)
    requires var s := Run(capacity, dimension, schedule); s.readers == map[] && s.writer == NoWriter
    ensures var s := Run(capacity, dimension, schedule);
      && (forall id :: id in s.ids ==>
          s.ids[id].At? && s.ids[id].slot in LiveSlots(s.slots) && s.slots[s.ids[id].slot].node == Some(id))
      && (forall i :: i in LiveSlots(s.slots) ==>
          s.slots[i].node.Some? && s.slots[i].node.value in s.ids && s.ids[s.slots[i].node.value] == At(i))
      && s.liveCount == |LiveSlots(s.slots)|
      && s.len == |s.claims|
      && (forall i :: 0 <= i < |s.claims| ==> s.slots[i].state == LIVE || s.slots[i].state == DELETED)
  {
    var s := Run(capacity, dimension, schedule);
    assert Over(s.readers) == {} && Publishing(s.readers) == {};
    forall id | id in s.ids
      ensures s.ids[id].At? && s.ids[id].slot in LiveSlots(s.slots) && s.slots[s.ids[id].slot].node == Some(id)
    {
      NoSentinel(s, id);
      assert SlotOk(s, s.ids[id].slot);
    }
    forall i | i in LiveSlots(s.slots)
      ensures s.slots[i].node.Some? && s.slots[i].node.value in s.ids && s.ids[s.slots[i].node.value] == At(i)
    {
      assert SlotOk(s, i);
    }
    forall i: nat | i < |s.claims| ensures s.slots[i].state == LIVE || s.slots[i].state == DELETED {
      assert SlotOk(s, i);
    }
  }
}
