/**
 * The generic FIFO queue of the email service: a private JavaScript array
 * that `enqueue` grows at the back (`push`) and `dequeue` shrinks at the
 * front (`shift`).
 */
module Queues {
  import opened Wrappers

  class Queue<T> {
    // public view: the items waiting, front first
    ghost var Contents: seq<T>

    // private implementation: the JavaScript array `items`
    var items: seq<T>

    ghost predicate Valid()
      reads this
    {
      items == Contents
    }

    /** `new Queue<T>()`: the array starts empty. */
    constructor ()
      ensures Valid() && Contents == []
    {
      items := [];
      Contents := [];
    }

    /** `push`: the item goes to the back and every earlier item stays where it was. */
    method Enqueue(item: T)
      requires Valid()
      modifies this
      ensures Valid()
      ensures Contents == old(Contents) + [item]
      ensures |Contents| == |old(Contents)| + 1
      ensures forall i :: 0 <= i < |old(Contents)| ==> Contents[i] == old(Contents)[i]
    {
      items := items + [item];
      Contents := Contents + [item];
    }

    /**
     * `shift`: on a non-empty queue, the front item is returned and the rest
     * keep their order; on an empty queue, `undefined` comes back and the
     * queue stays empty.
     */
    method Dequeue() returns (front: Option<T>)
      requires Valid()
      modifies this
      ensures Valid()
      ensures old(Contents) == [] ==> front == None && Contents == []
      ensures old(Contents) != [] ==> front == Some(old(Contents)[0]) && Contents == old(Contents)[1..]
      ensures front.Some? ==> [front.value] + Contents == old(Contents)
    {
      if items == [] {
        front := None;
      } else {
        front := Some(items[0]);
        items := items[1..];
        Contents := Contents[1..];
      }
    }

    /** `items.length` */
    method Size() returns (n: nat)
      requires Valid()
      ensures n == |Contents|
    {
      n := |items|;
    }

    /** `items.length === 0`: holds exactly when nothing is waiting. */
    method IsEmpty() returns (empty: bool)
      requires Valid()
      ensures empty <==> Contents == []
      ensures empty <==> |Contents| == 0
    {
      empty := |items| == 0;
    }
  }
}
