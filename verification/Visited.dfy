/** The epoch-tagged visited pool: a vector of `u32` tags that is emptied by advancing the epoch and
    rewritten only when the epoch wraps around. It refines a finite set. */
module Visited {
  import opened Basics

  const MODULUS: nat := 0x1_0000_0000

  /** A snapshot of the pool. */
  datatype Pool = Pool(tags: seq<nat>, epoch: nat)

  /** Epochs start at 1 and no tag is ahead of the current epoch; tag 0 means never visited. */
  ghost predicate ValidPool(p: Pool) {
    1 <= p.epoch < MODULUS && forall i :: 0 <= i < |p.tags| ==> p.tags[i] <= p.epoch
  }

  predicate TaggedWith(p: Pool, i: nat, epoch: nat) {
    i < |p.tags| && p.tags[i] == epoch
  }

  /** The slots visited in the current epoch. */
  ghost function View(p: Pool): (s: set<nat>)
    ensures forall i: nat :: i in s <==> TaggedWith(p, i, p.epoch)
  {
    set i | i in UpTo(|p.tags|) && TaggedWith(p, i, p.epoch)
  }

  /** `Vec::resize(n, 0)` to a larger length. */
  function Grown(tags: seq<nat>, n: nat): (r: seq<nat>)
    requires n >= |tags|
    ensures |r| == n
    ensures forall i :: 0 <= i < n ==> r[i] == if i < |tags| then tags[i] else 0
  {
    tags + seq(n - |tags|, i => 0)
  }

  function NextEpoch(p: Pool, capacity: nat): Pool {
    var tags := if |p.tags| < capacity then Grown(p.tags, Max(capacity, |p.tags| * 2)) else p.tags;
    var epoch := (p.epoch + 1) % MODULUS;
    if epoch == 0 then Pool(seq(|tags|, i => 0), 1) else Pool(tags, epoch)
  }

  function Mark(p: Pool, i: nat, epoch: nat): Pool {
    var tags := if i >= |p.tags| then Grown(p.tags, Max(i + 1, |p.tags| * 2)) else p.tags;
    Pool(tags[i := epoch], p.epoch)
  }

  /** A new epoch starts with nothing visited, also across wrap-around and resizing; the tags then cover
      `capacity` slots, and a pool that covers them already keeps its size. */
  lemma NextEpochEmpties(p: Pool, capacity: nat)
    requires ValidPool(p)
    ensures var q := NextEpoch(p, capacity); ValidPool(q) && View(q) == {}
    ensures var q := NextEpoch(p, capacity); |q.tags| >= capacity && (capacity <= |p.tags| ==> |q.tags| == |p.tags|)
  {
    var q := NextEpoch(p, capacity);
    assert q.epoch == if p.epoch + 1 == MODULUS then 1 else p.epoch + 1;
    assert forall i: nat :: !TaggedWith(q, i, q.epoch);
  }

  /** Marking under the current epoch adds exactly one slot. */
  lemma MarkAddsOne(p: Pool, i: nat)
    requires ValidPool(p)
    ensures var q := Mark(p, i, p.epoch); ValidPool(q) && q.epoch == p.epoch && View(q) == View(p) + {i}
  {
    var q := Mark(p, i, p.epoch);
    assert forall j: nat :: TaggedWith(q, j, q.epoch) <==> j == i || TaggedWith(p, j, p.epoch);
  }

  // ---- whole runs ------------------------------------------------------------------------------

  datatype Op = Advance(capacity: nat) | Visit(i: nat) | Ask(i: nat)

  /** The answers to the queries of a run on the pool, every call using the current epoch. */
  function Answers(p: Pool, ops: seq<Op>): seq<bool>
    decreases |ops|
  {
    if ops == [] then [] else
    match ops[0]
    case Advance(capacity) => Answers(NextEpoch(p, capacity), ops[1..])
    case Visit(i) => Answers(Mark(p, i, p.epoch), ops[1..])
    case Ask(i) => [TaggedWith(p, i, p.epoch)] + Answers(p, ops[1..])
  }

  /** The same run on a plain set. */
  function SetAnswers(s: set<nat>, ops: seq<Op>): seq<bool>
    decreases |ops|
  {
    if ops == [] then [] else
    match ops[0]
    case Advance(_) => SetAnswers({}, ops[1..])
    case Visit(i) => SetAnswers(s + {i}, ops[1..])
    case Ask(i) => [i in s] + SetAnswers(s, ops[1..])
  }

  /** No run of any length, wrap-arounds included, tells the pool from a set. */
  lemma {:induction false} PoolRefinesSet(p: Pool, ops: seq<Op>)
    requires ValidPool(p)
    ensures Answers(p, ops) == SetAnswers(View(p), ops)
    decreases |ops|
  {
    if ops != [] {
      match ops[0]
      case Advance(capacity) =>
        NextEpochEmpties(p, capacity);
        PoolRefinesSet(NextEpoch(p, capacity), ops[1..]);
      case Visit(i) =>
        MarkAddsOne(p, i);
        PoolRefinesSet(Mark(p, i, p.epoch), ops[1..]);
      case Ask(i) =>
        PoolRefinesSet(p, ops[1..]);
    }
  }

  /** The pool as the searches hold it. */
  class VisitedPool {
    var tags: seq<nat>
    var epoch: nat

    ghost function Snapshot(): Pool
      reads this
    {
      Pool(tags, epoch)
    }

    constructor (capacity: nat)
      ensures ValidPool(Snapshot()) && View(Snapshot()) == {} && |tags| == capacity
    {
      tags := seq(capacity, i => 0);
      epoch := 1;
      new;
      assert forall i: nat :: !TaggedWith(Snapshot(), i, epoch);
    }

    method AdvanceEpoch(capacityNeeded: nat) returns (r: nat)
      requires ValidPool(Snapshot())
      modifies this
      ensures Snapshot() == NextEpoch(old(Snapshot()), capacityNeeded) && r == epoch
      ensures ValidPool(Snapshot()) && View(Snapshot()) == {} && |tags| >= capacityNeeded
    {
      NextEpochEmpties(Snapshot(), capacityNeeded);
      if |tags| < capacityNeeded {
        tags := Grown(tags, Max(capacityNeeded, |tags| * 2));
      }
      epoch := (epoch + 1) % MODULUS;
      if epoch == 0 {
        tags := seq(|tags|, i => 0);
        epoch := 1;
      }
      r := epoch;
    }

    method IsVisited(index: nat, at: nat) returns (r: bool)
      ensures r == TaggedWith(Snapshot(), index, at)
      ensures at == epoch ==> r == (index in View(Snapshot()))
    {
      r := if index < |tags| then tags[index] == at else false;
    }

    method MarkVisited(index: nat, at: nat)
      requires ValidPool(Snapshot())
      modifies this`tags
      ensures Snapshot() == Mark(old(Snapshot()), index, at)
      ensures at == epoch ==> ValidPool(Snapshot()) && View(Snapshot()) == old(View(Snapshot())) + {index}
    {
      MarkAddsOne(Snapshot(), index);
      if index >= |tags| {
        tags := Grown(tags, Max(index + 1, |tags| * 2));
      }
      tags := tags[index := at];
    }
  }
}
