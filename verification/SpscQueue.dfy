/** The single-producer single-consumer queue, as interleaved atomic steps of its two threads. */
module SpscQueue {
  import opened Options
  import opened Circular

  /** An allocated item: its value, and whether it has not been deleted yet. */
  datatype Node<T> = Node(value: T, live: bool)

  /** Where the producer is inside enqueue, with its local variables. */
  datatype Producer<T> =
    | ProducerIdle
    | TailLoaded(item: T, tail: nat)
    | RoomFound(item: T, tail: nat, nextTail: nat)
    | ItemStored(item: T, nextTail: nat)

  /** Where the consumer is inside dequeue, with its local variables. */
  datatype Consumer<T> =
    | ConsumerIdle
    | HeadLoaded(head: nat)
    | ItemExpected(head: nat)
    | ItemLoaded(head: nat, item: nat)
    | ItemFreed(head: nat, result: T)
    | SlotCleared(head: nat, result: T)

  /** The shared memory, the two threads, and the history: what enqueue published and dequeue took.
      fault records a use of a deleted item, fellThrough the null-item fallback of dequeue. */
  datatype State<T> = State(
    buffer: seq<Option<nat>>, head: nat, tail: nat, heap: seq<Node<T>>,
    producer: Producer<T>, consumer: Consumer<T>,
    sent: seq<T>, received: seq<T>, fault: bool, fellThrough: bool)

  datatype Event<T> = CallEnqueue(item: T) | ProducerStep | CallDequeue | ConsumerStep

  function Initial<T>(n: nat): State<T> {
    State(seq(n, _ => None), 0, 0, [], ProducerIdle, ConsumerIdle, [], [], false, false)
  }

  /** One atomic step; a call event for a busy thread, or a step of an idle one, changes nothing. */
  function Step<T>(n: nat, s: State<T>, e: Event<T>): State<T>
    requires n > 0 && |s.buffer| == n && InBounds(n, s)
  {
    match e
    case CallEnqueue(item) => if s.producer.ProducerIdle? then s.(producer := TailLoaded(item, s.tail)) else s
    case ProducerStep => StepProducer(n, s)
    case CallDequeue => if s.consumer.ConsumerIdle? then s.(consumer := HeadLoaded(s.head)) else s
    case ConsumerStep => StepConsumer(n, s)
  }

  /** Local indices point into the buffer and the heap. */
  predicate InBounds<T>(n: nat, s: State<T>) {
    && (s.producer.RoomFound? ==> s.producer.tail < n)
    && (s.consumer.ItemExpected? || s.consumer.ItemLoaded? || s.consumer.ItemFreed? ==> s.consumer.head < n)
    && (s.consumer.ItemLoaded? ==> s.consumer.item < |s.heap|)
  }

  function StepProducer<T>(n: nat, s: State<T>): State<T>
    requires n > 0 && |s.buffer| == n && InBounds(n, s)
  {
    match s.producer
    case ProducerIdle => s
    case TailLoaded(item, tail) =>
      var next := (tail + 1) % n;
      if next == s.head then s.(producer := ProducerIdle) else s.(producer := RoomFound(item, tail, next))
    case RoomFound(item, tail, next) =>
      s.(heap := s.heap + [Node(item, true)], buffer := s.buffer[tail := Some(|s.heap|)],
         producer := ItemStored(item, next))
    case ItemStored(item, next) =>
      s.(tail := next, sent := s.sent + [item], producer := ProducerIdle)
  }

  function StepConsumer<T>(n: nat, s: State<T>): State<T>
    requires n > 0 && |s.buffer| == n && InBounds(n, s)
  {
    match s.consumer
    case ConsumerIdle => s
    case HeadLoaded(head) =>
      if head == s.tail then s.(consumer := ConsumerIdle) else s.(consumer := ItemExpected(head))
    case ItemExpected(head) =>
      (match s.buffer[head]
       case None => s.(consumer := ConsumerIdle, fellThrough := true)
       case Some(item) => if item < |s.heap| then s.(consumer := ItemLoaded(head, item)) else s.(fault := true))
    case ItemLoaded(head, item) =>
      var node := s.heap[item];
      s.(heap := s.heap[item := node.(live := false)], fault := s.fault || !node.live,
         consumer := ItemFreed(head, node.value))
    case ItemFreed(head, result) =>
      s.(buffer := s.buffer[head := None], consumer := SlotCleared(head, result))
    case SlotCleared(head, result) =>
      s.(head := (head + 1) % n, received := s.received + [result], consumer := ConsumerIdle)
  }

  /** The abstract queue: what has been published and not yet taken. */
  function Content<T>(s: State<T>): seq<T>
    requires |s.received| <= |s.sent|
  {
    s.sent[|s.received|..]
  }

  /** Items stored in the buffer, including one the producer has not published yet. */
  function Stored<T>(s: State<T>): nat {
    if s.producer.ItemStored? then |s.sent| + 1 else |s.sent|
  }

  ghost predicate Inv<T>(n: nat, s: State<T>) {
    && n > 0 && |s.buffer| == n && !s.fault && !s.fellThrough
    && s.received <= s.sent && |s.sent| - |s.received| <= n - 1
    && s.head == |s.received| % n && s.tail == |s.sent| % n
    && ProducerOk(n, s) && ConsumerOk(n, s) && HeapOk(s) && BufferOk(n, s)
  }

  ghost predicate ProducerOk<T>(n: nat, s: State<T>)
    requires n > 0
  {
    match s.producer
    case ProducerIdle => true
    case TailLoaded(_, tail) => tail == |s.sent| % n
    case RoomFound(_, tail, next) =>
      tail == |s.sent| % n && next == (|s.sent| + 1) % n && |s.sent| - |s.received| <= n - 2
    case ItemStored(_, next) =>
      next == (|s.sent| + 1) % n && |s.sent| - |s.received| <= n - 2
  }

  ghost predicate ConsumerOk<T>(n: nat, s: State<T>)
    requires n > 0 && s.received <= s.sent
  {
    var h := |s.received|;
    match s.consumer
    case ConsumerIdle => true
    case HeadLoaded(head) => head == h % n
    case ItemExpected(head) => head == h % n && h < |s.sent|
    case ItemLoaded(head, item) => head == h % n && h < |s.sent| && item == h
    case ItemFreed(head, result) => head == h % n && h < |s.sent| && result == s.sent[h]
    case SlotCleared(head, result) => head == h % n && h < |s.sent| && result == s.sent[h]
  }

  /** Node k holds the k-th item ever enqueued, and is live until the consumer has taken it. */
  ghost predicate HeapOk<T>(s: State<T>) {
    && |s.heap| == Stored(s)
    && (forall k {:trigger s.heap[k]} :: 0 <= k < |s.sent| ==> s.heap[k].value == s.sent[k])
    && (s.producer.ItemStored? ==> s.heap[|s.sent|].value == s.producer.item)
    && (forall k {:trigger s.heap[k]} :: 0 <= k < |s.heap| ==>
          (s.heap[k].live <==> k >= |s.received| && !(k == |s.received| && Freed(s))))
  }

  predicate Freed<T>(s: State<T>) {
    s.consumer.ItemFreed? || s.consumer.SlotCleared?
  }

  /** Slot k % n holds node k for every stored, untaken k; every other slot is null. */
  ghost predicate BufferOk<T>(n: nat, s: State<T>)
    requires n > 0 && |s.buffer| == n
  {
    && (forall k: nat {:trigger InSlot(n, s, k)} :: First(s) <= k < Stored(s) ==> InSlot(n, s, k))
    && (forall j {:trigger s.buffer[j]} :: 0 <= j < n && s.buffer[j].Some? ==>
          First(s) <= s.buffer[j].value < Stored(s) && s.buffer[j].value % n == j)
  }

  function First<T>(s: State<T>): nat {
    if s.consumer.SlotCleared? then |s.received| + 1 else |s.received|
  }

  predicate InSlot<T>(n: nat, s: State<T>, k: nat)
    requires n > 0 && |s.buffer| == n
  {
    s.buffer[k % n] == Some(k)
  }

  lemma {:induction false} InitialInv<T>(n: nat)
    requires n > 0
    ensures Inv<T>(n, Initial(n))
  {
  }

  /** A step that leaves the slots and the range of stored items alone keeps the buffer part. */
  lemma {:induction false} SameSlots<T>(n: nat, s: State<T>, s': State<T>)
    requires n > 0 && |s.buffer| == n && s'.buffer == s.buffer && BufferOk(n, s)
    requires First(s') == First(s) && Stored(s') == Stored(s)
    ensures BufferOk(n, s')
  {
    forall k: nat | First(s') <= k < Stored(s') ensures InSlot(n, s', k) {
      assert InSlot(n, s, k);
    }
  }

  lemma {:induction false} ProducerKeepsInv<T>(n: nat, s: State<T>)
    requires Inv(n, s)
    ensures Inv(n, StepProducer(n, s))
  {
    match s.producer
    case ProducerIdle =>
    case TailLoaded(_, _) => CheckRoom(n, s);
    case RoomFound(_, _, _) => StoreItem(n, s);
    case ItemStored(_, _) => Publish(n, s);
  }

  /** Comparing the next tail with the head finds the queue full exactly when it holds n - 1 items. */
  lemma {:induction false} CheckRoom<T>(n: nat, s: State<T>)
    requires Inv(n, s) && s.producer.TailLoaded?
    ensures Inv(n, StepProducer(n, s))
    ensures StepProducer(n, s).producer.ProducerIdle? <==> |Content(s)| == n - 1
  {
    var t, h := |s.sent|, |s.received|;
    Advance(t, n);
    if t - h == n - 1 {
      NextLap(h, n);
    } else if (t + 1) % n == h % n {
      SameSlot(h, t + 1, n);
    }
    SameSlots(n, s, StepProducer(n, s));
  }

  lemma {:induction false} StoreItem<T>(n: nat, s: State<T>)
    requires Inv(n, s) && s.producer.RoomFound?
    ensures Inv(n, StepProducer(n, s))
  {
    assert BufferOk(n, StepProducer(n, s)) by {
      StoreKeepsBuffer(n, s);
    }
  }

  lemma {:induction false} Publish<T>(n: nat, s: State<T>)
    requires Inv(n, s) && s.producer.ItemStored?
    ensures Inv(n, StepProducer(n, s))
    ensures Content(StepProducer(n, s)) == Content(s) + [s.producer.item]
  {
    assert BufferOk(n, StepProducer(n, s)) by {
      SameSlots(n, s, StepProducer(n, s));
    }
  }

  lemma {:induction false} StoreKeepsBuffer<T>(n: nat, s: State<T>)
    requires Inv(n, s) && s.producer.RoomFound?
    ensures BufferOk(n, StepProducer(n, s))
  {
    var s', t := StepProducer(n, s), |s.sent|;
    forall k: nat | First(s') <= k < Stored(s') ensures InSlot(n, s', k) {
      if k < t {
        assert InSlot(n, s, k);
        if k % n == t % n {
          SameSlot(k, t, n);
        }
      }
    }
  }

  lemma {:induction false} ConsumerKeepsInv<T>(n: nat, s: State<T>)
    requires Inv(n, s)
    ensures Inv(n, StepConsumer(n, s))
  {
    match s.consumer
    case ConsumerIdle =>
    case HeadLoaded(_) => CheckItems(n, s);
    case ItemExpected(_) => LoadItem(n, s);
    case ItemLoaded(_, _) => FreeItem(n, s);
    case ItemFreed(_, _) => ClearSlot(n, s);
    case SlotCleared(_, _) => Retire(n, s);
  }

  /** Comparing the head with the tail finds the queue empty exactly when it holds nothing. */
  lemma {:induction false} CheckItems<T>(n: nat, s: State<T>)
    requires Inv(n, s) && s.consumer.HeadLoaded?
    ensures Inv(n, StepConsumer(n, s))
    ensures StepConsumer(n, s).consumer.ConsumerIdle? <==> Content(s) == []
  {
    var t, h := |s.sent|, |s.received|;
    if h % n == t % n {
      SameSlot(h, t, n);
    }
    assert BufferOk(n, StepConsumer(n, s)) by {
      SameSlots(n, s, StepConsumer(n, s));
    }
  }

  lemma {:induction false} LoadItem<T>(n: nat, s: State<T>)
    requires Inv(n, s) && s.consumer.ItemExpected?
    ensures Inv(n, StepConsumer(n, s))
  {
    assert InSlot(n, s, |s.received|);
    assert BufferOk(n, StepConsumer(n, s)) by {
      SameSlots(n, s, StepConsumer(n, s));
    }
  }

  lemma {:induction false} FreeItem<T>(n: nat, s: State<T>)
    requires Inv(n, s) && s.consumer.ItemLoaded?
    ensures Inv(n, StepConsumer(n, s))
  {
    assert BufferOk(n, StepConsumer(n, s)) by {
      SameSlots(n, s, StepConsumer(n, s));
    }
  }

  lemma {:induction false} ClearSlot<T>(n: nat, s: State<T>)
    requires Inv(n, s) && s.consumer.ItemFreed?
    ensures Inv(n, StepConsumer(n, s))
  {
    assert BufferOk(n, StepConsumer(n, s)) by {
      ClearKeepsBuffer(n, s);
    }
  }

  lemma {:induction false} Retire<T>(n: nat, s: State<T>)
    requires Inv(n, s) && s.consumer.SlotCleared?
    ensures Inv(n, StepConsumer(n, s))
    ensures Content(s) != [] && s.consumer.result == Content(s)[0]
    ensures Content(StepConsumer(n, s)) == Content(s)[1..]
  {
    var s', h := StepConsumer(n, s), |s.received|;
    Advance(h, n);
    assert s'.received == s.sent[..h + 1];
    assert BufferOk(n, s') by {
      SameSlots(n, s, s');
    }
  }

  lemma {:induction false} ClearKeepsBuffer<T>(n: nat, s: State<T>)
    requires Inv(n, s) && s.consumer.ItemFreed?
    ensures BufferOk(n, StepConsumer(n, s))
  {
    var s', h := StepConsumer(n, s), |s.received|;
    forall k: nat | First(s') <= k < Stored(s') ensures InSlot(n, s', k) {
      assert InSlot(n, s, k);
      if k % n == h % n {
        SameSlot(h, k, n);
      }
    }
    forall j | 0 <= j < n && s'.buffer[j].Some?
      ensures First(s') <= s'.buffer[j].value < Stored(s') && s'.buffer[j].value % n == j
    {
      assert s.buffer[j] == s'.buffer[j];
    }
  }

  lemma {:induction false} StepKeepsInv<T>(n: nat, s: State<T>, e: Event<T>)
    requires Inv(n, s)
    ensures Inv(n, Step(n, s, e))
  {
    match e
    case CallEnqueue(item) => SameSlots(n, s, Step(n, s, e));
    case ProducerStep => ProducerKeepsInv(n, s);
    case CallDequeue => SameSlots(n, s, Step(n, s, e));
    case ConsumerStep => ConsumerKeepsInv(n, s);
  }

  /** Headline, one step: every step either is the abstract bounded FIFO's enqueue (the publishing store) or
      its dequeue (the head store), or leaves the abstract queue alone; and enqueue and dequeue give up
      only while the abstract queue is full or empty. */
  lemma {:induction false} StepRefinesFifo<T>(n: nat, s: State<T>, e: Event<T>)
    requires Inv(n, s)
    ensures var s' := Step(n, s, e);
            && s'.received <= s'.sent
            && Content(s') == (if e.ProducerStep? && s.producer.ItemStored? then Content(s) + [s.producer.item]
                               else if e.ConsumerStep? && s.consumer.SlotCleared? then Content(s)[1..]
                               else Content(s))
    ensures e.ProducerStep? && s.producer.ItemStored? ==> |Content(s)| < n - 1
    ensures e.ConsumerStep? && s.consumer.SlotCleared? ==> Content(s) != [] && s.consumer.result == Content(s)[0]
    ensures e.ProducerStep? && s.producer.TailLoaded? ==>
              (Step(n, s, e).producer.ProducerIdle? <==> |Content(s)| == n - 1)
    ensures e.ConsumerStep? && s.consumer.HeadLoaded? ==>
              (Step(n, s, e).consumer.ConsumerIdle? <==> Content(s) == [])
  {
    if e.ProducerStep? && s.producer.ItemStored? {
      Publish(n, s);
    } else if e.ConsumerStep? && s.consumer.SlotCleared? {
      Retire(n, s);
    } else if e.ProducerStep? && s.producer.TailLoaded? {
      CheckRoom(n, s);
    } else if e.ConsumerStep? && s.consumer.HeadLoaded? {
      CheckItems(n, s);
    }
  }

  /** The state after some more events of the two threads, in any interleaving. */
  ghost function RunFrom<T>(n: nat, s: State<T>, schedule: seq<Event<T>>): (s': State<T>)
    requires Inv(n, s)
    ensures Inv(n, s')
  {
    if |schedule| == 0 then s
    else
      var before := RunFrom(n, s, schedule[..|schedule| - 1]);
      StepKeepsInv(n, before, schedule[|schedule| - 1]);
      Step(n, before, schedule[|schedule| - 1])
  }

  /** The state after an arbitrary interleaving from the start. */
  ghost function Run<T>(n: nat, schedule: seq<Event<T>>): (s: State<T>)
    requires n > 0
    ensures Inv(n, s)
  {
    InitialInv<T>(n);
    RunFrom(n, Initial(n), schedule)
  }

  predicate OfProducer<T>(e: Event<T>) {
    e.CallEnqueue? || e.ProducerStep?
  }

  lemma {:induction false} StepGrows<T>(n: nat, s: State<T>, e: Event<T>)
    requires Inv(n, s)
    ensures var s' := Step(n, s, e);
      && s.sent <= s'.sent && s.received <= s'.received
      && if OfProducer(e) then s'.received == s.received else s'.sent == s.sent
  {
  }

  /** Only the producer sends, and only the consumer receives. */
  lemma {:induction false} RunGrows<T>(n: nat, s: State<T>, schedule: seq<Event<T>>)
    requires Inv(n, s)
    ensures var s' := RunFrom(n, s, schedule);
      && s.sent <= s'.sent && s.received <= s'.received
      && ((forall i :: 0 <= i < |schedule| ==> OfProducer(schedule[i])) ==> s'.received == s.received)
      && ((forall i :: 0 <= i < |schedule| ==> !OfProducer(schedule[i])) ==> s'.sent == s.sent)
  {
    if |schedule| == 0 {
    } else {
      var before := schedule[..|schedule| - 1];
      RunGrows(n, s, before);
      StepGrows(n, RunFrom(n, s, before), schedule[|schedule| - 1]);
      hide Inv, Step;
      assert forall i :: 0 <= i < |before| ==> before[i] == schedule[i];
    }
  }

  /** A head loaded now and a tail loaded later are equal exactly when the items sent until then exceed those
      received until now by a multiple of the size; for loads by the producer or by the consumer itself that means
      that the queue is empty at the load that the other thread can race with. */
  lemma {:induction false} LoadsMeet<T>(n: nat, s: State<T>, between: seq<Event<T>>)
    requires Inv(n, s)
    ensures var s' := RunFrom(n, s, between);
      && |s'.sent| >= |s.received|
      && (s.head == s'.tail <==> (|s'.sent| - |s.received|) % n == 0)
      && ((forall i :: 0 <= i < |between| ==> OfProducer(between[i])) ==> (s.head == s'.tail <==> Content(s') == []))
      && ((forall i :: 0 <= i < |between| ==> !OfProducer(between[i])) ==> (s.head == s'.tail <==> Content(s) == []))
  {
    hide RunFrom, BufferOk, HeapOk, ProducerOk, ConsumerOk, OfProducer;
    var s' := RunFrom(n, s, between);
    RunGrows(n, s, between);
    PositionsMeet(|s.received|, |s'.sent|, n);
  }

  lemma PositionsMeet(k: nat, m: nat, n: nat)
    requires n > 0 && k <= m
    ensures k % n == m % n <==> (m - k) % n == 0
    ensures m - k < n ==> (k % n == m % n <==> k == m)
  {
    SlotsMeet(k, m, n);
    if m - k < n {
      Unique(m - k, 0, m - k, n);
    }
  }

  /** Headline, whole runs: whatever the interleaving, what was dequeued is a prefix of what was enqueued, at
      most n - 1 items are queued, no item is used or deleted after its deletion, the null-item fallback is
      never taken, and a slot is null unless it holds a queued item or the one being published. */
  lemma {:induction false} EveryRunIsSafe<T>(n: nat, schedule: seq<Event<T>>)
    requires n > 0
    ensures var s := Run(n, schedule);
            && s.received <= s.sent && |Content(s)| <= n - 1
            && !s.fault && !s.fellThrough
    ensures var s := Run(n, schedule);
            forall j :: 0 <= j < n && s.buffer[j].Some? ==>
              exists k: nat :: k % n == j && |s.received| <= k < Stored(s) && s.heap[k].value == Queued(s, k)
    ensures var s := Run(n, schedule);
            forall k :: 0 <= k < |s.received| ==> k < |s.heap| && !s.heap[k].live
  {
    var s := Run(n, schedule);
    forall j | 0 <= j < n && s.buffer[j].Some?
      ensures exists k: nat :: k % n == j && |s.received| <= k < Stored(s) && s.heap[k].value == Queued(s, k)
    {
      var k := s.buffer[j].value;
      assert s.heap[k].value == Queued(s, k);
    }
  }

  /** The k-th item to go into the queue, counting the one being published. */
  ghost function Queued<T>(s: State<T>, k: nat): T
    requires k < Stored(s)
  {
    if k < |s.sent| then s.sent[k] else s.producer.item
  }

  class LockFreeQueue<T> {
    const size: nat
    const buffer: array<Option<nat>>
    var head: nat
    var tail: nat
    var heap: seq<Node<T>>
    var producer: Producer<T>
    var consumer: Consumer<T>
    ghost var sent: seq<T>
    ghost var received: seq<T>
    var fault: bool
    var fellThrough: bool

    ghost function Snapshot(): State<T>
      reads this, buffer
    {
      State(buffer[..], head, tail, heap, producer, consumer, sent, received, fault, fellThrough)
    }

    ghost predicate Valid()
      reads this, buffer
    {
      buffer.Length == size && Inv(size, Snapshot())
    }

    ghost function Items(): seq<T>
      requires Valid()
      reads this, buffer
    {
      Content(Snapshot())
    }

    constructor (n: nat)
      requires n > 0
      ensures Valid() && size == n && Snapshot() == Initial(n) && fresh(buffer)
    {
      size := n;
      buffer := new Option<nat>[n](_ => None);
      head, tail, heap := 0, 0, [];
      producer, consumer := ProducerIdle, ConsumerIdle;
      sent, received := [], [];
      fault, fellThrough := false, false;
      new;
      assert buffer[..] == seq(n, _ => None);
      InitialInv<T>(n);
    }

    /** One atomic step of the producer, in place. */
    method StepOfProducer()
      requires Valid()
      modifies this, buffer
      ensures Valid() && Snapshot() == StepProducer(size, old(Snapshot()))
    {
      ProducerKeepsInv(size, Snapshot());
      match producer
      case ProducerIdle =>
      case TailLoaded(item, t) =>
        var next := (t + 1) % size;
        producer := if next == head then ProducerIdle else RoomFound(item, t, next);
      case RoomFound(item, t, next) =>
        buffer[t] := Some(|heap|);
        heap := heap + [Node(item, true)];
        producer := ItemStored(item, next);
      case ItemStored(item, next) =>
        tail := next;
        sent := sent + [item];
        producer := ProducerIdle;
    }

    /** One atomic step of the consumer, in place. */
    method StepOfConsumer()
      requires Valid()
      modifies this, buffer
      ensures Valid() && Snapshot() == StepConsumer(size, old(Snapshot()))
    {
      ConsumerKeepsInv(size, Snapshot());
      match consumer
      case ConsumerIdle =>
      case HeadLoaded(h) =>
        consumer := if h == tail then ConsumerIdle else ItemExpected(h);
      case ItemExpected(h) =>
        assert InSlot(size, Snapshot(), |received|);
        var item := buffer[h];
        consumer := if item.Some? then ItemLoaded(h, item.value) else ConsumerIdle;
        fellThrough := fellThrough || item.None?;
      case ItemLoaded(h, item) =>
        var node := heap[item];
        fault := fault || !node.live;
        heap := heap[item := node.(live := false)];
        consumer := ItemFreed(h, node.value);
      case ItemFreed(h, result) =>
        buffer[h] := None;
        consumer := SlotCleared(h, result);
      case SlotCleared(h, result) =>
        head := (h + 1) % size;
        received := received + [result];
        consumer := ConsumerIdle;
    }

    /** enqueue, run to its end while the consumer pauses at any point of its own call. */
    method Enqueue(item: T) returns (ok: bool)
      requires Valid() && producer.ProducerIdle?
      modifies this, buffer
      ensures Valid() && producer.ProducerIdle? && consumer == old(consumer)
      ensures ok <==> |old(Items())| < size - 1
      ensures Items() == if ok then old(Items()) + [item] else old(Items())
    {
      hide HeapOk, BufferOk, ConsumerOk;
      StepKeepsInv(size, Snapshot(), CallEnqueue(item));
      producer := TailLoaded(item, tail);
      StepRefinesFifo(size, Snapshot(), ProducerStep);
      StepOfProducer();
      if producer.ProducerIdle? {
        return false;
      }
      StepOfProducer();
      StepRefinesFifo(size, Snapshot(), ProducerStep);
      StepOfProducer();
      return true;
    }

    /** dequeue, run to its end while the producer pauses at any point of its own call. */
    method Dequeue() returns (result: Option<T>)
      requires Valid() && consumer.ConsumerIdle?
      modifies this, buffer
      ensures Valid() && consumer.ConsumerIdle? && producer == old(producer)
      ensures result == if old(Items()) == [] then None else Some(old(Items())[0])
      ensures Items() == if old(Items()) == [] then [] else old(Items())[1..]
    {
      StepKeepsInv(size, Snapshot(), CallDequeue);
      consumer := HeadLoaded(head);
      StepRefinesFifo(size, Snapshot(), ConsumerStep);
      StepOfConsumer();
      if consumer.ConsumerIdle? {
        return None;
      }
      TakeItem();
      StepRefinesFifo(size, Snapshot(), ConsumerStep);
      result := Some(consumer.result);
      StepOfConsumer();
    }

    /** empty: the head is loaded first, and the events in between happen before the tail is. */
    method Empty(between: seq<Event<T>>) returns (empty: bool)
      requires Valid()
      modifies this, buffer
      ensures Valid() && Snapshot() == RunFrom(size, old(Snapshot()), between)
      ensures |sent| >= |old(received)| && (empty <==> (|sent| - |old(received)|) % size == 0)
      ensures (forall i :: 0 <= i < |between| ==> OfProducer(between[i])) ==> (empty <==> Items() == [])
      ensures (forall i :: 0 <= i < |between| ==> !OfProducer(between[i])) ==> (empty <==> old(Items()) == [])
    {
      ghost var before := Snapshot();
      var h := head;
      TakeAll(between);
      LoadsMeet(size, before, between);
      hide RunFrom, Inv, Content;
      empty := h == tail;
    }

    /** The middle of dequeue: load the item, move it out and delete it, clear the slot. */
    method TakeItem()
      requires Valid() && consumer.ItemExpected?
      modifies this, buffer
      ensures Valid() && consumer.SlotCleared? && producer == old(producer) && Items() == old(Items())
    {
      StepOfConsumer();
      StepOfConsumer();
      StepOfConsumer();
    }

    /** One event of an interleaving, in place. */
    method Take(e: Event<T>)
      requires Valid()
      modifies this, buffer
      ensures Valid() && Snapshot() == Step(size, old(Snapshot()), e)
    {
      StepKeepsInv(size, Snapshot(), e);
      match e
      case CallEnqueue(item) =>
        if producer.ProducerIdle? {
          producer := TailLoaded(item, tail);
        }
      case ProducerStep => StepOfProducer();
      case CallDequeue =>
        if consumer.ConsumerIdle? {
          consumer := HeadLoaded(head);
        }
      case ConsumerStep => StepOfConsumer();
    }

    method TakeAll(schedule: seq<Event<T>>)
      requires Valid()
      modifies this, buffer
      ensures Valid() && Snapshot() == RunFrom(size, old(Snapshot()), schedule)
    {
      ghost var before := Snapshot();
      for i := 0 to |schedule|
        invariant Valid() && Snapshot() == RunFrom(size, before, schedule[..i])
      {
        assert schedule[..i + 1][..i] == schedule[..i];
        Take(schedule[i]);
      }
      assert schedule[..|schedule|] == schedule;
    }

    /** Any interleaving, executed in place, reaches the state the step relation predicts. */
    method Execute(schedule: seq<Event<T>>)
      requires Valid() && Snapshot() == Initial(size)
      modifies this, buffer
      ensures Valid() && Snapshot() == Run(size, schedule)
    {
      TakeAll(schedule);
    }
  }
}
