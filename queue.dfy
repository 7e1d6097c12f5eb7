/** The FreeRTOS queue of samples between the acquisition task and the
    upload task, as its three uses in the firmware need it: a send with
    timeout 0, a receive that may time out, and xQueueReset. Blocking is not
    modelled; a receive on an empty queue is the timeout. */
module SampleQueue {
  import opened Esp
  import opened Types

  /** xQueueCreate(200, sizeof(max30102Sample)) in setup(). */
  const QUEUE_LENGTH: nat := 200

  class Queue {
    const capacity: nat
    var items: seq<Sample>

    ghost predicate Valid()
      reads this
    {
      |items| <= capacity
    }

    constructor (capacity: nat)
      ensures this.capacity == capacity && items == [] && Valid()
    {
      this.capacity := capacity;
      items := [];
    }

    /** xQueueSend(q, &x, 0): appends when there is room, otherwise fails
      at once and leaves the queue as it was. */
    method Send(x: Sample) returns (ok: bool)
      requires Valid()
      modifies this
      ensures Valid()
      ensures ok <==> |old(items)| < capacity
      ensures items == if ok then old(items) + [x] else old(items)
    {
      if |items| < capacity {
        items := items + [x];
        return true;
      }
      return false;
    }

    /** xQueueReceive: the oldest sample, or None when the queue is empty
      (the receive times out). */
    method Receive() returns (r: Option<Sample>)
      requires Valid()
      modifies this
      ensures Valid()
      ensures old(items) == [] ==> r == None && items == []
      ensures old(items) != [] ==> r == Some(old(items)[0]) && items == old(items)[1..]
    {
      if items == [] {
        return None;
      }
      r := Some(items[0]);
      items := items[1..];
    }

    /** xQueueReset: empties the queue. */
    method Reset()
      modifies this
      ensures Valid() && items == []
    {
      items := [];
    }
  }
}
