/** The closable FIFO of util/ConcurrentQueue.h.  A Queue value remembers, beside the two fields,
    everything that was ever pushed and taken. */
module ConcurrentQueue {
  import opened Basics

  datatype Queue<T> = Queue(items: seq<T>, closed: bool, pushed: seq<T>, taken: seq<T>)

  function EmptyQueue<T>(): Queue<T> {
    Queue([], false, [], [])
  }

  /** push: a closed queue throws and keeps nothing. */
  function Push<T>(q: Queue<T>, item: T): Queue<T> {
    if q.closed then q else q.(items := q.items + [item], pushed := q.pushed + [item])
  }

  /** tryPop, and waitPop once its wait is over. */
  function Pop<T>(q: Queue<T>): (Queue<T>, Option<T>) {
    if q.items == [] then (q, None)
    else (q.(items := q.items[1..], taken := q.taken + [q.items[0]]), Some(q.items[0]))
  }

  function Close<T>(q: Queue<T>): Queue<T> {
    q.(closed := true)
  }

  /** What was pushed is, in order, what was taken followed by what is still queued. */
  ghost predicate Fifo<T>(q: Queue<T>) {
    q.pushed == q.taken + q.items
  }

  lemma FifoKept<T>(q: Queue<T>, item: T)
    requires Fifo(q)
    ensures Fifo(Push(q, item)) && Fifo(Pop(q).0) && Fifo(Close(q))
    ensures Pop(q).1.Some? ==> |q.taken| < |q.pushed| && Pop(q).1.value == q.pushed[|q.taken|]
    ensures q.closed ==> Push(q, item).pushed == q.pushed
  {
    if q.items != [] {
      assert q.items == [q.items[0]] + q.items[1..];
    }
  }

  class ConcurrentQueue<T> {
    var items: seq<T>
    var closed: bool
    ghost var pushed: seq<T>
    ghost var taken: seq<T>

    ghost function View(): Queue<T>
      reads this
    {
      Queue(items, closed, pushed, taken)
    }

    constructor ()
      ensures View() == EmptyQueue()
    {
      items, closed, pushed, taken := [], false, [], [];
    }

    method PushItem(item: T) returns (kept: bool)
      modifies this
      ensures View() == Push(old(View()), item)
      ensures kept == !old(closed) && closed == old(closed)
      ensures items == if kept then old(items) + [item] else old(items)
    {
      if closed {
        return false;
      }
      items, pushed := items + [item], pushed + [item];
      return true;
    }

    method TryPop() returns (item: Option<T>)
      modifies this
      ensures (View(), item) == Pop(old(View()))
      ensures old(items) == match item case Some(i) => [i] + items case None => items
      ensures (item == None <==> old(items) == []) && closed == old(closed)
    {
      if items == [] {
        return None;
      }
      item := Some(items[0]);
      taken := taken + [items[0]];
      items := items[1..];
    }

    method CloseQueue()
      modifies this
      ensures View() == Close(old(View()))
      ensures closed && items == old(items)
    {
      closed := true;
    }
  }
}
