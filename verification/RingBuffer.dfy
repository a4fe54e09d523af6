/** The overwriting circular buffer for performance metrics; its methods run under the buffer's mutex. */
module RingBuffer {
  import opened Options
  import opened Circular

  /** The n newest elements of s. */
  function Newest<T>(s: seq<T>, n: nat): (r: seq<T>)
    ensures |r| == if |s| <= n then |s| else n
  {
    if |s| <= n then s else s[|s| - n..]
  }

  /** The slot i places after slot head in a ring of n slots. */
  function Slot(head: nat, i: nat, n: nat): (slot: nat)
    requires head < n && i <= n
    ensures slot < n
  {
    if head + i < n then head + i else head + i - n
  }

  /** Stepping with the modulus is moving one place on. */
  lemma StepSlot(slot: nat, n: nat)
    requires slot < n
    ensures (slot + 1) % n == Slot(slot, 1, n)
  {
    if slot + 1 < n {
      Unique(slot + 1, 0, slot + 1, n);
    } else {
      Unique(slot + 1, 1, 0, n);
    }
  }

  /** The size elements stored from slot head on, wrapping around. */
  ghost function Window<T>(buffer: seq<T>, head: nat, size: nat): (r: seq<T>)
    requires size == 0 || (head < |buffer| && size <= |buffer|)
    ensures |r| == size
  {
    seq(size, i requires 0 <= i < size => buffer[Slot(head, i, |buffer|)])
  }

  /** Writing one past a window that leaves a slot free extends the window. */
  lemma {:induction false} WindowGrows<T>(buffer: seq<T>, head: nat, size: nat, item: T)
    requires size < |buffer| && head < |buffer|
    ensures Window(buffer[Slot(head, size, |buffer|) := item], head, size + 1)
            == Window(buffer, head, size) + [item]
  {
  }

  /** Dropping the oldest element of a window. */
  lemma {:induction false} WindowShrinks<T>(buffer: seq<T>, head: nat, size: nat)
    requires 0 < size <= |buffer| && head < |buffer|
    ensures Window(buffer, Slot(head, 1, |buffer|), size - 1) == Window(buffer, head, size)[1..]
  {
  }

  /** One push, on a ring that keeps one slot free: the window moves on when it is full and grows otherwise. */
  lemma {:induction false} PushStep<T>(buffer: seq<T>, head: nat, size: nat, item: T)
    requires head < |buffer| && size < |buffer|
    ensures var n, next := |buffer|, buffer[Slot(head, size, |buffer|) := item];
            Newest(Window(buffer, head, size) + [item], n - 1)
            == if size == n - 1 then Window(next, Slot(head, 1, n), size) else Window(next, head, size + 1)
  {
    WindowGrows(buffer, head, size, item);
    if size == |buffer| - 1 {
      WindowShrinks(buffer[Slot(head, size, |buffer|) := item], head, size + 1);
    }
  }

  datatype Op<T> = Push(item: T) | Pop

  /** The abstract queue after one operation. */
  function ApplyOp<T>(queue: seq<T>, room: nat, op: Op<T>): seq<T> {
    match op
    case Push(item) => Newest(queue + [item], room)
    case Pop => if |queue| == 0 then [] else queue[1..]
  }

  function ApplyAll<T>(room: nat, ops: seq<Op<T>>): seq<T> {
    if |ops| == 0 then [] else ApplyOp(ApplyAll(room, ops[..|ops| - 1]), room, ops[|ops| - 1])
  }

  /** Without pops, the buffer holds exactly the newest items pushed. */
  lemma {:induction false} PushesKeepNewest<T>(room: nat, ops: seq<Op<T>>, items: seq<T>)
    requires |ops| == |items| && forall i :: 0 <= i < |ops| ==> ops[i] == Push(items[i])
    ensures ApplyAll(room, ops) == Newest(items, room)
  {
    if |ops| == 0 {
      assert items == [];
    } else {
      var m := |ops| - 1;
      PushesKeepNewest(room, ops[..m], items[..m]);
      hide Newest;
      NewestAgain(items[..m], items[m], room);
      assert items == items[..m] + [items[m]];
    }
  }

  lemma NewestAgain<T>(items: seq<T>, item: T, room: nat)
    ensures Newest(Newest(items, room) + [item], room) == Newest(items + [item], room)
  {
  }

  /** Whatever the mix of pushes and pops, what the buffer holds is a run of consecutive pushed items. */
  lemma {:induction false} HoldsConsecutivePushes<T>(room: nat, ops: seq<Op<T>>)
    ensures exists lo: nat :: lo <= |Pushed(ops)| && ApplyAll(room, ops) == Pushed(ops)[lo..]
    ensures |ApplyAll(room, ops)| <= room
  {
    if |ops| == 0 {
      assert [] == Pushed(ops)[0..];
    } else {
      var m := |ops| - 1;
      HoldsConsecutivePushes(room, ops[..m]);
      var before, pushed := ApplyAll(room, ops[..m]), Pushed(ops[..m]);
      var lo: nat :| lo <= |pushed| && before == pushed[lo..];
      var lo' := if ops[m].Pop? then (if |before| == 0 then lo else lo + 1)
                 else if |before| + 1 <= room then lo else |pushed| + 1 - room;
      StillConsecutive(pushed, lo, lo', room, ops[m]);
      assert Pushed(ops) == pushed + (if ops[m].Push? then [ops[m].item] else []);
      assert ApplyAll(room, ops) == Pushed(ops)[lo'..];
    }
  }

  lemma {:induction false} StillConsecutive<T>(pushed: seq<T>, lo: nat, lo': nat, room: nat, op: Op<T>)
    requires lo <= |pushed| && |pushed| - lo <= room
    requires lo' == if op.Pop? then (if |pushed| == lo then lo else lo + 1)
                    else if |pushed| - lo + 1 <= room then lo else |pushed| + 1 - room
    ensures var pushed' := pushed + (if op.Push? then [op.item] else []);
            lo' <= |pushed'| && ApplyOp(pushed[lo..], room, op) == pushed'[lo'..]
  {
  }

  /** Everything pushed, in order. */
  function Pushed<T>(ops: seq<Op<T>>): seq<T> {
    if |ops| == 0 then []
    else Pushed(ops[..|ops| - 1]) + (match ops[|ops| - 1] case Push(item) => [item] case Pop => [])
  }

  class CircularBuffer<T> {
    const buffer: array<T>
    const capacity: nat
    var head: nat
    var tail: nat
    var size: nat

    /** size is the circular distance from head to tail, and one slot always stays free. */
    ghost predicate Valid()
      reads this, buffer
    {
      && buffer.Length == capacity
      && (capacity == 0 ==> head == tail == size == 0)
      && (capacity > 0 ==>
            head < capacity && tail < capacity && size <= capacity - 1 && tail == Slot(head, size, capacity))
    }

    ghost function Contents(): (r: seq<T>)
      requires Valid()
      reads this, buffer
      ensures |r| == size
    {
      Window(buffer[..], head, size)
    }

    constructor (capacity: nat, zero: T)
      ensures Valid() && this.capacity == capacity && Contents() == [] && fresh(buffer)
    {
      this.capacity := capacity;
      buffer := new T[capacity](_ => zero);
      head, tail, size := 0, 0, 0;
    }

    /** Pushing on a full buffer overwrites exactly the oldest item. */
    method Push(item: T) returns (ok: bool)
      requires Valid() && capacity > 0
      modifies this, buffer
      ensures Valid() && ok
      ensures Contents() == Newest(old(Contents()) + [item], capacity - 1)
    {
      hide Window, Newest;
      var nextTail := (tail + 1) % capacity;
      StepSlot(tail, capacity);
      StepSlot(head, capacity);
      ghost var before := buffer[..];
      PushStep(before, head, size, item);
      if nextTail == head {
        head := (head + 1) % capacity;
      } else {
        size := size + 1;
      }
      buffer[tail] := item;
      assert buffer[..] == before[tail := item];
      tail := nextTail;
      return true;
    }

    /** Pop hands out the oldest item. */
    method Pop() returns (item: Option<T>)
      requires Valid()
      modifies this
      ensures Valid()
      ensures item == if old(Contents()) == [] then None else Some(old(Contents())[0])
      ensures Contents() == if old(Contents()) == [] then [] else old(Contents())[1..]
    {
      if size == 0 {
        return None;
      }
      WindowShrinks(buffer[..], head, size);
      StepSlot(head, capacity);
      item := Some(buffer[head]);
      head := (head + 1) % capacity;
      size := size - 1;
    }

    method GetAll() returns (result: seq<T>)
      requires Valid()
      ensures result == Contents()
    {
      result := [];
      var current := head;
      for i := 0 to size
        invariant result == Window(buffer[..], head, i)
        invariant capacity > 0 ==> current == Slot(head, i, capacity)
      {
        result := result + [buffer[current]];
        StepSlot(current, capacity);
        current := (current + 1) % capacity;
      }
    }

    /** Any sequence of operations leaves what the abstract queue holds. */
    method Execute(ops: seq<Op<T>>)
      requires Valid() && capacity > 0 && Contents() == []
      modifies this, buffer
      ensures Valid() && Contents() == ApplyAll(capacity - 1, ops)
    {
      for i := 0 to |ops|
        invariant Valid() && Contents() == ApplyAll(capacity - 1, ops[..i])
      {
        assert ops[..i + 1][..i] == ops[..i];
        match ops[i]
        case Push(item) => var _ := Push(item);
        case Pop => var _ := Pop();
      }
      assert ops[..|ops|] == ops;
    }

    predicate Full()
      reads this
    {
      size == capacity
    }
  }

  /** The size counter is the circular distance from head to tail. */
  lemma {:induction false} SizeIsDistance<T>(b: CircularBuffer<T>)
    requires b.Valid() && b.capacity > 0
    ensures b.size == (b.tail - b.head + b.capacity) % b.capacity
  {
    var n := b.capacity;
    if b.head + b.size < n {
      Unique(b.tail - b.head + n, 1, b.size, n);
    } else {
      Unique(b.tail - b.head + n, 0, b.size, n);
    }
  }

  /** full() compares the size with the capacity, but one slot always stays free: it answers true exactly for
      a buffer without slots, and so never announces that the next push will overwrite. */
  lemma {:induction false} FullOnlyWithoutSlots<T>(b: CircularBuffer<T>)
    requires b.Valid()
    ensures b.Full() <==> b.capacity == 0
  {
  }
}
