// InputEventCircularReader of libsensors/InputEventReader.cpp: a buffer of twice the
// capacity that behaves as a bounded queue of input events.
module Rings {
  import opened Wrappers

  const EINVAL: int := 22

  /** What one read() on the event device gives: an error number, whole events, or whole
      events followed by part of one more, which overwrites a slot. */
  datatype ReadResult<E> =
    | Failed(errno: int)
    | Whole(events: seq<E>)
    | Torn(events: seq<E>, slot: E)

  /** What fill() gives back for a read that failed or tore. */
  function ErrorOf<E>(result: ReadResult<E>): int {
    if result.Failed? then -result.errno else -EINVAL
  }

  lemma {:induction false} Grows(n: nat, p: int, q: int)
    requires p <= q
    ensures n * p <= n * q
    decreases q - p
  {
    if p < q {
      Grows(n, p, q - 1);
      assert n * q == n * (q - 1) + n;
    }
  }

  lemma OneRound(q: int, r: int, n: nat)
    requires 0 <= r < n && n <= n * q + r < 2 * n
    ensures q == 1
  {
    if q <= 0 {
      Grows(n, q, 0);
    } else if q >= 2 {
      Grows(n, 2, q);
    }
  }

  lemma DivMod(x: nat, n: nat)
    requires n > 0
    ensures x == n * (x / n) + x % n && 0 <= x % n < n
  {
  }

  lemma AroundOnce(x: nat, n: nat)
    requires x < 2 * n
    ensures x % n == if x < n then x else x - n
  {
    DivMod(x, n);
    if x >= n {
      OneRound(x / n, x % n, n);
      assert n * 1 == n;
    }
  }

  class InputEventCircularReader<E(0)> {
    const capacity: nat
    const buffer: array<E>
    var head: nat       // mHead - mBuffer
    var curr: nat       // mCurr - mBuffer
    var freeSpace: nat

    ghost function Used(): nat
      reads this
    {
      if freeSpace <= capacity then capacity - freeSpace else 0
    }

    ghost predicate Valid()
      reads this
    {
      && buffer.Length == 2 * capacity
      && freeSpace <= capacity && head <= capacity && curr <= capacity
      && (capacity > 0 ==> curr < capacity)
      && (|| head == curr + Used()
          || head + capacity == curr + Used()
          || (head == capacity && curr == 0 && Used() == 0))
    }

    /** Where the event that is `i` places from being read sits. */
    ghost function Slot(i: nat): (k: nat)
      requires Valid() && i < Used()
      reads this
      ensures k < capacity
    {
      if curr + i < capacity then curr + i else curr + i - capacity
    }

    /** Slots are counted around the ring. */
    lemma SlotIsModulo(i: nat)
      requires Valid() && i < Used()
      ensures Slot(i) == (curr + i) % capacity
    {
      AroundOnce(curr + i, capacity);
    }

    /** The unread events, oldest first. */
    ghost function Queue(): (q: seq<E>)
      requires Valid()
      reads this, buffer
      ensures |q| == Used() <= capacity
      ensures forall i :: 0 <= i < |q| ==> q[i] == buffer[Slot(i)]
    {
      seq(Used(), i requires 0 <= i < Used() && Valid() reads this, buffer => buffer[Slot(i)])
    }

    constructor (capacity: nat)
      ensures Valid() && this.capacity == capacity && Queue() == []
      ensures freeSpace == capacity && fresh(buffer)
    {
      this.capacity := capacity;
      buffer := new E[2 * capacity];
      head, curr, freeSpace := 0, 0, capacity;
    }

    /** What read() does to the buffer: no unread event is overwritten, no slot outside the
        buffer is written. */
    method Store(events: seq<E>)
      requires Valid() && |events| <= freeSpace
      modifies buffer
      ensures Queue() == old(Queue())
      ensures head + |events| <= buffer.Length
      ensures buffer[head..head + |events|] == events
    {
      forall i | 0 <= i < |events| {
        buffer[head + i] := events[i];
      }
    }

    /** Moves what went past the end of the ring to its start. */
    method Wrap()
      requires buffer.Length == 2 * capacity && head <= buffer.Length
      modifies this`head, buffer
      ensures head == if old(head) > capacity then old(head) - capacity else old(head)
      ensures old(head) > capacity ==> forall i :: 0 <= i < head ==> buffer[i] == old(buffer[capacity + i])
      ensures forall i :: (if old(head) > capacity then head else 0) <= i < buffer.Length ==> buffer[i] == old(buffer[i])
    {
      if head > capacity {
        var s := head - capacity;
        forall i | 0 <= i < s {
          buffer[i] := buffer[capacity + i];
        }
        head := s;
      }
    }

    /** Takes `n` stored events into the queue; what went past the end of the ring is
        moved to its start. */
    method Advance(n: nat)
      requires Valid() && n <= freeSpace
      modifies this`head, this`freeSpace, buffer
      ensures Valid() && freeSpace == old(freeSpace) - n
      ensures Queue() == old(Queue()) + old(buffer[head..head + n])
    {
      ghost var q, events, h := Queue(), buffer[head..head + n], head;
      head := head + n;
      freeSpace := freeSpace - n;
      Wrap();
      forall i | 0 <= i < |q| + n
        ensures Queue()[i] == (q + events)[i]
      {
        if i < |q| {
          assert Queue()[i] == buffer[Slot(i)];
        } else {
          assert events[i - |q|] == old(buffer[head + i - |q|]);
        }
      }
    }

    method Accept(events: seq<E>)
      requires Valid() && |events| <= freeSpace
      modifies this`head, this`freeSpace, buffer
      ensures Valid()
      ensures Queue() == old(Queue()) + events
    {
      Store(events);
      if |events| != 0 {
        Advance(|events|);
      }
    }

    /** Appends what is read, as far as there is room; a failed or torn read leaves the
        queue as it was. read() gives no more bytes than it is asked for. */
    method Fill(result: ReadResult<E>) returns (n: int)
      requires Valid()
      requires match result
        case Failed(errno) => errno > 0
        case Whole(events) => |events| <= freeSpace
        case Torn(events, _) => freeSpace > 0 ==> |events| < freeSpace
      modifies this`head, this`freeSpace, buffer
      ensures Valid()
      ensures old(freeSpace) == 0 ==> n == 0 && Queue() == old(Queue())
      ensures old(freeSpace) > 0 && result.Failed? ==> n == -result.errno && Queue() == old(Queue())
      ensures old(freeSpace) > 0 && result.Torn? ==> n == -EINVAL && Queue() == old(Queue())
      ensures old(freeSpace) > 0 && result.Whole? ==> n == |result.events| && Queue() == old(Queue()) + result.events
    {
      n := 0;
      if freeSpace != 0 {
        match result {
          case Failed(errno) => return -errno;
          case Torn(events, slot) =>
            Store(events + [slot]);
            return -EINVAL;
          case Whole(events) =>
            Accept(events);
            n := |events|;
        }
      }
    }

    /** The oldest unread event, if there is one. */
    method ReadEvent() returns (event: Option<E>)
      requires Valid()
      ensures event == if Queue() == [] then None else Some(Queue()[0])
    {
      if capacity - freeSpace != 0 {
        assert Slot(0) == curr;
        event := Some(buffer[curr]);
      } else {
        event := None;
      }
    }

    /** Drops the oldest unread event; callers have just seen one. */
    method Next()
      requires Valid() && Queue() != []
      modifies this`curr, this`freeSpace
      ensures Valid() && Queue() == old(Queue())[1..]
    {
      curr := curr + 1;
      freeSpace := freeSpace + 1;
      if curr >= capacity {
        curr := 0;
      }
    }
  }
}
