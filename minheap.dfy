/**
 * The priority queue of day 16 (`io.PriorityQueueAsc` driven through `container/heap`). Its
 * library source is not part of this model, so the queue is modelled by what it promises: a
 * bag of prioritised items, where a pop removes one item of least priority. Which of several
 * equally cheap items comes out first is left open, as the library does not promise any order
 * among ties.
 */
module MinHeap {

  /** `io.PQItem`: a value and the priority it was pushed with. */
  datatype Item<T> = Item(value: T, priority: int)

  /** No item of the bag has a smaller priority than it. */
  predicate IsLeast<T(==)>(it: Item<T>, items: multiset<Item<T>>)
  {
    forall o :: o in items ==> it.priority <= o.priority
  }

  /** Every non-empty bag holds an item of least priority. */
  lemma {:induction false} LeastExists<T>(items: multiset<Item<T>>)
    requires |items| > 0
    ensures exists it :: it in items && IsLeast(it, items)
    decreases |items|
  {
    var x :| x in items;
    var rest := items - multiset{x};
    assert items == rest + multiset{x};
    if |rest| == 0 {
      assert IsLeast(x, items);
    } else {
      LeastExists(rest);
      var y :| y in rest && IsLeast(y, rest);
      if x.priority <= y.priority {
        assert IsLeast(x, items);
      } else {
        assert IsLeast(y, items);
      }
    }
  }

  /** A min-first priority queue; `items` is everything pushed and not yet popped. */
  class PriorityQueueAsc<T(==)> {
    var items: multiset<Item<T>>

    constructor ()
      ensures items == multiset{}
    {
      items := multiset{};
    }

    /** heap.Push: the item joins the bag. */
    method Push(it: Item<T>)
      modifies this
      ensures items == old(items) + multiset{it}
    {
      items := items + multiset{it};
    }

    /** heap.Pop on a non-empty queue: removes and returns an item of least priority. */
    method Pop() returns (it: Item<T>)
      requires |items| > 0
      modifies this
      ensures it in old(items) && IsLeast(it, old(items))
      ensures items == old(items) - multiset{it}
    {
      LeastExists(items);
      it :| it in items && IsLeast(it, items);
      items := items - multiset{it};
    }
  }
}
