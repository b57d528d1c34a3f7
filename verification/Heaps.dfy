/** The binary heaps the layer searches run on. `BinaryHeap` leaves the order of equal scores to its
    internal layout, which is fixed by the operations performed so far. A heap is therefore its
    operation log together with its content, and the entry on top is any function of that: the search
    theorems hold for every such function, hence for every deterministic way of breaking ties. */
module Heaps {
  import opened Ranking

  datatype Op = Pushed(c: Scored) | Removed

  datatype Heap = Heap(log: seq<Op>, items: multiset<Scored>)

  const Empty: Heap := Heap([], multiset{})

  /** A heap implementation: which entry is on top, and in which order `drain` lists the content. */
  datatype Impl = Impl(top: Heap -> Scored, drain: Heap -> seq<Scored>)

  /** `a` may be the top of a max-heap (or min-heap) holding `b`. */
  predicate Tops(max: bool, a: Scored, b: Scored) {
    if max then a.score >= b.score else a.score <= b.score
  }

  ghost predicate IsTop(max: bool, a: Scored, m: multiset<Scored>) {
    a in m && forall c :: c in m ==> Tops(max, a, c)
  }

  ghost predicate Lawful(impl: Impl, max: bool) {
    && (forall h: Heap {:trigger impl.top(h)} :: |h.items| > 0 ==> IsTop(max, impl.top(h), h.items))
    && (forall h: Heap {:trigger impl.drain(h)} :: multiset(impl.drain(h)) == h.items)
  }

  function Push(h: Heap, c: Scored): Heap { Heap(h.log + [Pushed(c)], h.items + multiset{c}) }

  /** One occurrence less. */
  function Less(m: multiset<Scored>, x: Scored): multiset<Scored> { if x in m then m[x := m[x] - 1] else m }

  function Pop(impl: Impl, h: Heap): Heap { Heap(h.log + [Removed], Less(h.items, impl.top(h))) }

  lemma PopItems(impl: Impl, max: bool, h: Heap)
    requires Lawful(impl, max) && |h.items| > 0
    ensures Pop(impl, h).items + multiset{impl.top(h)} == h.items
    ensures |Pop(impl, h).items| == |h.items| - 1
  {
    assert impl.top(h) in h.items;
  }

  // ---- lawful implementations exist ------------------------------------------------------------

  lemma {:induction false} SomeTop(max: bool, m: multiset<Scored>)
    requires |m| > 0
    ensures exists a :: IsTop(max, a, m)
    decreases |m|
  {
    var x :| x in m;
    var rest := m - multiset{x};
    if |rest| == 0 {
      assert forall c :: c in m ==> c == x || c in rest;
      assert IsTop(max, x, m);
    } else {
      SomeTop(max, rest);
      var a :| IsTop(max, a, rest);
      assert forall c :: c in m ==> c == x || c in rest;
      assert IsTop(max, if Tops(max, x, a) then x else a, m);
    }
  }

  ghost function Choose(max: bool, m: multiset<Scored>): Scored {
    if |m| == 0 then Scored(0, 0.0) else
      SomeTop(max, m);
      var a :| IsTop(max, a, m);
      a
  }

  ghost function Listing(m: multiset<Scored>): (s: seq<Scored>)
    ensures multiset(s) == m
    decreases |m|
  {
    if |m| == 0 then [] else
      var x :| x in m;
      [x] + Listing(m - multiset{x})
  }

  lemma LawfulExists(max: bool)
    ensures exists impl :: Lawful(impl, max)
  {
    var impl := Impl((h: Heap) => Choose(max, h.items), (h: Heap) => Listing(h.items));
    assert Lawful(impl, max);
  }
}
