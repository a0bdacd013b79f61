/** The queue as the object that the source updates in place, shown to compute the functions of the module Queue. */
module BackpressureQueue {
  import opened Wrappers
  import opened Events
  import Q = Queue

  class BackpressureQueue {
    const capacity: int
    var dropped: nat
    var items: seq<Envelope>

    constructor (capacity: int)
      ensures this.capacity == capacity && Content() == Q.State(capacity, 0, [])
    {
      this.capacity := capacity;
      dropped, items := 0, [];
    }

    ghost function Content(): Q.State
      reads this
    {
      Q.State(capacity, dropped, items)
    }

    method Put(e: Envelope) returns (accepted: Result<bool, Q.QueueError>)
      modifies this
      ensures match Q.Put(old(Content()), e)
              case Err(error) => accepted == Err(error) && Content() == old(Content())
              case Ok((next, taken)) => accepted == Ok(taken) && Content() == next
    {
      if IsToken(e) {
        if |items| >= capacity {
          if |items| == 0 {
            return Err(Q.IndexError);
          }
          items := items[1..];
          dropped := dropped + 1;
        }
        items := items + [e];
        return Ok(true);
      }
      if |items| >= capacity {
        var i := OldestToken();
        Q.FirstTokenIsFirst(items);
        if i == |items| {
          return Ok(false);
        }
        items := items[..i] + items[i + 1..];
        dropped := dropped + 1;
      }
      items := items + [e];
      accepted := Ok(true);
    }

    method OldestToken() returns (i: nat)
      ensures i == Q.FirstToken(items)
    {
      i := 0;
      while i < |items| && !IsToken(items[i])
        invariant i <= |items|
        invariant Q.FirstToken(items) == i + Q.FirstToken(items[i..])
      {
        assert items[i..][1..] == items[i + 1..];
        i := i + 1;
      }
    }

    method Get() returns (out: Option<Envelope>)
      modifies this
      ensures (Content(), out) == Q.Get(old(Content()))
    {
      if items == [] {
        return None;
      }
      out := Some(items[0]);
      items := items[1..];
    }
  }
}
