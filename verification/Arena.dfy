/** The insert/remove/clear protocol on the concurrent arena as a state machine over its atomic steps:
    inserts interleave freely as readers of the lifecycle gate, `remove` and `clear` hold it alone. */
module Arena {
  import opened Basics
  import opened ComplexVectors

  datatype Id = Id(name: string)

  datatype SlotState = EMPTY | WRITING | LIVE | DELETED

  datatype Slot = Slot(state: SlotState, vector: Vector, norm: real, node: Option<Id>)

  /** A value of `id_to_index`: the reservation sentinel `NodeIndex::MAX` (with its holder, which the
      program does not store), or a slot. */
  datatype Ref = Sentinel(holder: nat) | At(slot: nat)

  /** History: which thread claimed a slot, and for what. */
  datatype Claim = Claim(id: Id, vec: Vector, claimer: nat)

  /** Where an insert that holds the gate as a reader stands. */
  datatype Reader =
    | Entered(id: Id, vec: Vector)
    | Reserved(id: Id, vec: Vector)
    | Journaled(id: Id, vec: Vector)
    | Overflowed(id: Id)                              // between fetch_add and fetch_sub
    | Unreserving(id: Id)
    | Claimed(id: Id, vec: Vector, slot: nat)         // slot handed out, still EMPTY
    | Copying(id: Id, vec: Vector, slot: nat, done: nat)
    | VectorWritten(id: Id, vec: Vector, slot: nat)
    | NodeWritten(id: Id, vec: Vector, slot: nat)
    | Mapped(id: Id, vec: Vector, slot: nat)
    | Published(slot: nat, counts: bool)              // LIVE, live_count not yet raised
    | Leaving

  /** Where the holder of the gate as a writer stands, if there is one. */
  datatype Writer =
    | NoWriter
    | Removing(id: Id)
    | Unmapped(found: Ref)                            // ID gone, slot still LIVE
    | Deleted(counts: bool)                           // DELETED, live_count not yet lowered
    | Clearing
    | LenReset(count: nat)
    | Wiping(count: nat, i: nat)
    | Wiped
    | LeavingWrite

  datatype State = State(
    capacity: nat, dimension: nat,
    len: nat, liveCount: int, slots: seq<Slot>, ids: map<Id, Ref>,
    readers: map<nat, Reader>, writer: Writer,
    claims: seq<Claim>)

  function EmptySlot(dimension: nat): Slot { Slot(EMPTY, seq(dimension, i => Zero), 0.0, None) }

  function Init(capacity: nat, dimension: nat): State {
    State(capacity, dimension, 0, 0, seq(capacity, i => EmptySlot(dimension)), map[], map[], NoWriter, [])
  }

  // ---- steps -----------------------------------------------------------------------------------

  function To(s: State, t: nat, pc: Reader): State { s.(readers := s.readers[t := pc]) }

  function SetSlot(s: State, i: nat, slot: Slot): State
    requires i < |s.slots|
  {
    s.(slots := s.slots[i := slot])
  }

  /** Every slot a reader writes is inside the arena. */
  predicate ReaderInBounds(s: State, pc: Reader) {
    match pc
    case Claimed(_, _, i) => i < |s.slots|
    case Copying(_, vec, i, done) => i < |s.slots| && done <= |vec| && |s.slots[i].vector| == |vec|
    case VectorWritten(_, _, i) => i < |s.slots|
    case NodeWritten(_, _, i) => i < |s.slots|
    case Mapped(_, _, i) => i < |s.slots|
    case _ => true
  }

  predicate WriterInBounds(s: State) {
    match s.writer
    case Unmapped(found) => found.At? && found.slot < |s.slots|
    case Wiping(count, i) => i <= Min(count, |s.slots|)
    case _ => true
  }

  /** The next atomic step of insert `t`. `ok` is the outcome of the step's test: the optimizer is
      idle, or the journal append succeeded. */
  function ReadStep(s: State, t: nat, ok: bool): State
    requires t in s.readers && ReaderInBounds(s, s.readers[t])
  {
    match s.readers[t]
    case Entered(id, vec) =>
      if |vec| != s.dimension || !ok || id in s.ids then To(s, t, Leaving)
      else To(s.(ids := s.ids[id := Sentinel(t)]), t, Reserved(id, vec))
    case Reserved(id, vec) =>
      if ok then To(s, t, Journaled(id, vec)) else To(s, t, Unreserving(id))
    case Journaled(id, vec) =>
      var index := s.len;
      if index >= s.capacity then To(s.(len := index + 1), t, Overflowed(id))
      else To(s.(len := index + 1, claims := s.claims + [Claim(id, vec, t)]), t, Claimed(id, vec, index))
    case Overflowed(id) => To(s.(len := if s.len > 0 then s.len - 1 else 0), t, Unreserving(id))
    case Unreserving(id) => To(s.(ids := s.ids - {id}), t, Leaving)
    case Claimed(id, vec, i) => To(SetSlot(s, i, s.slots[i].(state := WRITING)), t, Copying(id, vec, i, 0))
    case Copying(id, vec, i, done) =>
      if done < |vec| then
        To(SetSlot(s, i, s.slots[i].(vector := s.slots[i].vector[done := vec[done]])), t, Copying(id, vec, i, done + 1))
      else To(SetSlot(s, i, s.slots[i].(norm := NormSquared(vec))), t, VectorWritten(id, vec, i))
    case VectorWritten(id, vec, i) => To(SetSlot(s, i, s.slots[i].(node := Some(id))), t, NodeWritten(id, vec, i))
    case NodeWritten(id, vec, i) => To(s.(ids := s.ids[id := At(i)]), t, Mapped(id, vec, i))
    case Mapped(_, _, i) => To(SetSlot(s, i, s.slots[i].(state := LIVE)), t, Published(i, s.slots[i].state != LIVE))
    case Published(_, counts) => To(s.(liveCount := if counts then s.liveCount + 1 else s.liveCount), t, Leaving)
    case Leaving => s.(readers := s.readers - {t})
  }

  /** The next atomic step of the remove or clear that holds the gate. */
  function WriteStep(s: State): State
    requires s.writer != NoWriter && WriterInBounds(s)
  {
    match s.writer
    case Removing(id) =>
      if id !in s.ids then s.(writer := LeavingWrite)
      else s.(ids := s.ids - {id}, writer := Unmapped(s.ids[id]))
    case Unmapped(found) =>
      var slot := s.slots[found.slot];
      SetSlot(s, found.slot, slot.(state := DELETED)).(writer := Deleted(slot.state == LIVE))
    case Deleted(counts) => s.(liveCount := if counts then s.liveCount - 1 else s.liveCount, writer := LeavingWrite)
    case Clearing => s.(len := 0, claims := [], writer := LenReset(s.len))
    case LenReset(count) => s.(liveCount := 0, writer := Wiping(count, 0))
    case Wiping(count, i) =>
      if i < Min(count, |s.slots|) then
        SetSlot(s, i, s.slots[i].(state := EMPTY, norm := 0.0, node := None)).(writer := Wiping(count, i + 1))
      else s.(writer := Wiped)
    case Wiped => s.(ids := map[], writer := LeavingWrite)
    case LeavingWrite => s.(writer := NoWriter)
  }

  /** What a scheduler may do next. */
  datatype Action =
    | StartInsert(t: nat, id: Id, vec: Vector)
    | StartRemove(id: Id)
    | StartClear
    | Read(t: nat, ok: bool)
    | Write

  predicate Enabled(s: State, a: Action) {
    match a
    case StartInsert(t, _, _) => t !in s.readers && s.writer == NoWriter
    case StartRemove(_) => s.readers == map[] && s.writer == NoWriter
    case StartClear => s.readers == map[] && s.writer == NoWriter
    case Read(t, _) => t in s.readers && ReaderInBounds(s, s.readers[t])
    case Write => s.writer != NoWriter && WriterInBounds(s)
  }

  function Do(s: State, a: Action): State
    requires Enabled(s, a)
  {
    match a
    case StartInsert(t, id, vec) => To(s, t, Entered(id, vec))
    case StartRemove(id) => s.(writer := Removing(id))
    case StartClear => s.(writer := Clearing)
    case Read(t, ok) => ReadStep(s, t, ok)
    case Write => WriteStep(s)
  }

  // ---- views of a state ------------------------------------------------------------------------

  function Over(readers: map<nat, Reader>): set<nat> { set t | t in readers && readers[t].Overflowed? }

  function Publishing(readers: map<nat, Reader>): set<nat> {
    set t | t in readers && readers[t].Published? && readers[t].counts
  }

  function Undeleted(w: Writer): nat { if w.Deleted? && w.counts then 1 else 0 }

  function LiveSlots(slots: seq<Slot>): set<nat> { set i | i in UpTo(|slots|) && slots[i].state == LIVE }

  /** `is_live`: below `len` and in state LIVE; `None` where the slot asked for does not exist, which only
      the bounds check on the slot states notices. */
  function SeenLive(s: State, i: nat): Option<bool> {
    if i >= s.len then Some(false)
    else if i < |s.slots| then Some(s.slots[i].state == LIVE)
    else None
  }

  predicate IsLive(s: State, i: nat) { SeenLive(s, i) == Some(true) }

  predicate IsWiping(s: State) { s.writer.LenReset? || s.writer.Wiping? }

  /** Slot `i` holds everything its claim was for. */
  predicate Complete(s: State, i: nat) {
    && i < |s.claims| && i < |s.slots|
    && s.slots[i].vector == s.claims[i].vec && |s.claims[i].vec| == s.dimension
    && s.slots[i].norm == NormSquared(s.claims[i].vec)
    && s.slots[i].node == Some(s.claims[i].id)
  }

  // ---- the invariant ---------------------------------------------------------------------------

  ghost predicate Shape(s: State) {
    && |s.slots| == s.capacity
    && (forall i :: 0 <= i < |s.slots| ==> |s.slots[i].vector| == s.dimension)
    && (s.writer != NoWriter ==> s.readers == map[])
  }

  /** `len` is the number of claims plus the claimers that overflowed and have not rolled back. */
  ghost predicate Accounted(s: State) {
    && s.len == |s.claims| + |Over(s.readers)|
    && |s.claims| <= s.capacity
    && (Over(s.readers) != {} ==> |s.claims| == s.capacity)
  }

  ghost predicate Holds(s: State, t: nat, id: Id, vec: Vector, i: nat) {
    i < |s.claims| && i < |s.slots| && s.claims[i] == Claim(id, vec, t) && |vec| == s.dimension
  }

  ghost predicate Reserves(s: State, t: nat, id: Id) { id in s.ids && s.ids[id] == Sentinel(t) }

  ghost predicate ReaderOk(s: State, t: nat, pc: Reader) {
    match pc
    case Reserved(id, vec) => Reserves(s, t, id) && |vec| == s.dimension
    case Journaled(id, vec) => Reserves(s, t, id) && |vec| == s.dimension
    case Overflowed(id) => Reserves(s, t, id)
    case Unreserving(id) => Reserves(s, t, id)
    case Claimed(id, vec, i) => Reserves(s, t, id) && Holds(s, t, id, vec, i) && s.slots[i].state == EMPTY
    case Copying(id, vec, i, done) =>
      && Reserves(s, t, id) && Holds(s, t, id, vec, i) && s.slots[i].state == WRITING
      && done <= |vec| && |s.slots[i].vector| == |vec| && s.slots[i].vector[..done] == vec[..done]
    case VectorWritten(id, vec, i) =>
      && Reserves(s, t, id) && Holds(s, t, id, vec, i) && s.slots[i].state == WRITING
      && s.slots[i].vector == vec && s.slots[i].norm == NormSquared(vec)
    case NodeWritten(id, vec, i) =>
      Reserves(s, t, id) && Holds(s, t, id, vec, i) && s.slots[i].state == WRITING && Complete(s, i)
    case Mapped(id, vec, i) =>
      Holds(s, t, id, vec, i) && s.slots[i].state == WRITING && Complete(s, i) && id in s.ids && s.ids[id] == At(i)
    case _ => true
  }

  ghost predicate ReadersOk(s: State) {
    forall t :: t in s.readers ==> ReaderOk(s, t, s.readers[t])
  }

  ghost predicate WriterOk(s: State) {
    match s.writer
    case Unmapped(found) =>
      && found.At? && found.slot < |s.claims| && found.slot < |s.slots| && s.slots[found.slot].state == LIVE
      && s.claims[found.slot].id !in s.ids
    case LenReset(count) => s.claims == [] && forall i :: count <= i < |s.slots| ==> s.slots[i].state == EMPTY
    case Wiping(count, n) =>
      && s.claims == [] && s.liveCount == 0 && n <= Min(count, |s.slots|)
      && forall i :: 0 <= i < |s.slots| && (i < n || count <= i) ==> s.slots[i].state == EMPTY
    case Wiped => s.claims == [] && forall i :: 0 <= i < |s.slots| ==> s.slots[i].state == EMPTY
    case _ => true
  }

  /** Unclaimed slots are EMPTY; LIVE slots are complete, and mapped unless they are being removed;
      a claimed slot that is neither LIVE nor DELETED is still in the hands of its claimer. */
  ghost predicate SlotOk(s: State, i: nat)
    requires i < |s.slots|
  {
    && (i >= |s.claims| ==> s.slots[i].state == EMPTY)
    && (s.slots[i].state == LIVE ==>
         Complete(s, i) && (s.writer == Unmapped(At(i)) || (s.claims[i].id in s.ids && s.ids[s.claims[i].id] == At(i))))
    && (i < |s.claims| && (s.slots[i].state == EMPTY || s.slots[i].state == WRITING) ==>
         s.claims[i].claimer in s.readers && Fills(s.readers[s.claims[i].claimer], i))
  }

  /** The insert has claimed slot `i` and not yet published it. */
  predicate Fills(pc: Reader, i: nat) {
    (pc.Claimed? || pc.Copying? || pc.VectorWritten? || pc.NodeWritten? || pc.Mapped?) && pc.slot == i
  }

  predicate Reserving(pc: Reader, id: Id) {
    (pc.Reserved? || pc.Journaled? || pc.Overflowed? || pc.Unreserving? || pc.Claimed? || pc.Copying?
     || pc.VectorWritten? || pc.NodeWritten?)
    && pc.id == id
  }

  ghost predicate SlotsOk(s: State) {
    !IsWiping(s) ==> forall i: nat {:trigger s.slots[i]} :: i < |s.slots| ==> SlotOk(s, i)
  }

  /** An ID entry is a reservation somebody holds, or names a slot that is LIVE or about to be. */
  ghost predicate IdOk(s: State, id: Id)
    requires id in s.ids
  {
    match s.ids[id]
    case Sentinel(t) => t in s.readers && Reserving(s.readers[t], id)
    case At(i) =>
      && i < |s.claims| && i < |s.slots| && s.claims[i].id == id
      && (s.slots[i].state == LIVE
          || (s.claims[i].claimer in s.readers && s.readers[s.claims[i].claimer].Mapped?
              && s.readers[s.claims[i].claimer].slot == i))
  }

  ghost predicate IdsOk(s: State) {
    !IsWiping(s) && s.writer != Wiped ==> forall id :: id in s.ids ==> IdOk(s, id)
  }

  /** `live_count` is exact up to the swaps whose counter update is still pending. */
  ghost predicate CountOk(s: State) {
    !IsWiping(s) ==> s.liveCount == |LiveSlots(s.slots)| - |Publishing(s.readers)| + Undeleted(s.writer)
  }

  ghost predicate Inv(s: State) {
    Shape(s) && Accounted(s) && ReadersOk(s) && WriterOk(s) && SlotsOk(s) && IdsOk(s) && CountOk(s)
  }
}
