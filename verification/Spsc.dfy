/**
 The single-producer single-consumer queue as a state machine.  Each load and store of `head_` and
 `tail_` is a step; copying a value into or out of the buffer takes two, so that a copy can be caught
 half way.
 */
module Spsc {
  import opened Rings

  /** A buffer slot: a whole value, or one that is being overwritten. */
  datatype Cell<T> = Whole(value: T) | Torn

  datatype Producer<T> =
    | PIdle
    | PHead(value: T, head: nat)
    | PTail(value: T, head: nat, tail: nat)
    | PWriting(value: T, head: nat)
    | PWritten(value: T, head: nat)

  datatype Consumer<T> =
    | CIdle
    | CTail(tail: nat)
    | CHead(tail: nat, head: nat)
    | CCopying(tail: nat, out: Cell<T>)
    | CCopied(tail: nat, out: Cell<T>)

  /** `pushed` and `popped` are history: what try_push has put in, and what try_pop has given out. */
  datatype Queue<T> = Queue(buffer: seq<Cell<T>>, head: nat, tail: nat, producer: Producer<T>, consumer: Consumer<T>,
                            pushed: seq<T>, popped: seq<Cell<T>>)

  datatype Action<T> = Push(value: T) | ProducerStep | ConsumerStep

  function Init<T>(capacity: nat): Queue<T> {
    Queue(seq(capacity, _ => Torn), 0, 0, PIdle, CIdle, [], [])
  }

  function Next<T(==)>(q: Queue<T>, a: Action<T>): (q': Queue<T>)
    requires q.buffer != []
    ensures |q'.buffer| == |q.buffer|
  {
    match a
    case Push(value) => if q.producer.PIdle? then q.(producer := PHead(value, q.head)) else q
    case ProducerStep => Produced(q)
    case ConsumerStep => Consumed(q)
  }

  function Produced<T>(q: Queue<T>): (q': Queue<T>)
    requires q.buffer != []
    ensures |q'.buffer| == |q.buffer|
  {
    match q.producer
    case PIdle => q
    case PHead(value, head) => q.(producer := PTail(value, head, q.tail))
    case PTail(value, head, tail) =>
      if head >= tail + |q.buffer| then q.(producer := PIdle)
      else q.(producer := PWriting(value, head), buffer := q.buffer[Slot(head, |q.buffer|) := Torn])
    case PWriting(value, head) =>
      q.(producer := PWritten(value, head), buffer := q.buffer[Slot(head, |q.buffer|) := Whole(value)])
    case PWritten(value, head) => q.(producer := PIdle, head := head + 1, pushed := q.pushed + [value])
  }

  function Consumed<T(==)>(q: Queue<T>): (q': Queue<T>)
    requires q.buffer != []
    ensures |q'.buffer| == |q.buffer|
  {
    match q.consumer
    case CIdle => q.(consumer := CTail(q.tail))
    case CTail(tail) => q.(consumer := CHead(tail, q.head))
    case CHead(tail, head) =>
      if tail >= head then q.(consumer := CIdle)
      else q.(consumer := CCopying(tail, q.buffer[Slot(tail, |q.buffer|)]))
    case CCopying(tail, out) =>
      q.(consumer := CCopied(tail, if q.buffer[Slot(tail, |q.buffer|)] == out then out else Torn))
    case CCopied(tail, out) => q.(consumer := CIdle, tail := tail + 1, popped := q.popped + [out])
  }

  function Run<T(==)>(q: Queue<T>, actions: seq<Action<T>>): (q': Queue<T>)
    requires q.buffer != []
    ensures |q'.buffer| == |q.buffer|
  {
    if actions == [] then q else Next(Run(q, actions[..|actions| - 1]), actions[|actions| - 1])
  }

  // ---------- What holds in every state ----------

  function Contents<T>(q: Queue<T>): seq<T>
    requires q.tail <= |q.pushed|
  {
    q.pushed[q.tail..]
  }

  ghost predicate BufferHolds<T>(q: Queue<T>) {
    && q.head == |q.pushed| && q.tail <= q.head <= q.tail + |q.buffer|
    && q.buffer != [] && forall t: nat :: q.tail <= t < q.head ==> q.buffer[Slot(t, |q.buffer|)] == Whole(q.pushed[t])
  }

  /** The producer's copy of `tail_` is never ahead, so it finds no more room than there is. */
  ghost predicate ProducerHolds<T>(q: Queue<T>)
    requires q.buffer != []
  {
    match q.producer
    case PIdle => true
    case PHead(_, head) => head == q.head
    case PTail(_, head, tail) => head == q.head && tail <= q.tail
    case PWriting(_, head) => head == q.head < q.tail + |q.buffer|
    case PWritten(value, head) =>
      head == q.head < q.tail + |q.buffer| && q.buffer[Slot(head, |q.buffer|)] == Whole(value)
  }

  /** The consumer's copy of `head_` is never ahead, so it finds no more values than there are. */
  ghost predicate ConsumerHolds<T>(q: Queue<T>) {
    && |q.popped| == q.tail <= |q.pushed|
    && (forall i :: 0 <= i < q.tail ==> q.popped[i] == Whole(q.pushed[i]))
    && match q.consumer
       case CIdle => true
       case CTail(tail) => tail == q.tail
       case CHead(tail, head) => tail == q.tail && head <= q.head
       case CCopying(tail, out) => tail == q.tail < q.head == |q.pushed| && out == Whole(q.pushed[tail])
       case CCopied(tail, out) => tail == q.tail < q.head == |q.pushed| && out == Whole(q.pushed[tail])
  }

  ghost predicate Inv<T>(q: Queue<T>) {
    PowerOfTwo(|q.buffer|) && BufferHolds(q) && ProducerHolds(q) && ConsumerHolds(q)
  }

  /** Writing the slot of `head_` leaves the values in the queue alone. */
  lemma WriteAtHead<T>(q: Queue<T>, c: Cell<T>)
    requires PowerOfTwo(|q.buffer|) && BufferHolds(q) && q.head < q.tail + |q.buffer|
    ensures forall t: nat :: q.tail <= t < q.head ==>
      q.buffer[Slot(q.head, |q.buffer|) := c][Slot(t, |q.buffer|)] == Whole(q.pushed[t])
  {
    forall t: nat | q.tail <= t < q.head
      ensures q.buffer[Slot(q.head, |q.buffer|) := c][Slot(t, |q.buffer|)] == Whole(q.pushed[t])
    {
      SlotsApart(t, q.head, |q.buffer|);
    }
  }

  lemma ProducedKeeps<T>(q: Queue<T>)
    requires Inv(q)
    ensures Inv(Produced(q))
  {
    if q.producer.PTail? && q.producer.head < q.producer.tail + |q.buffer| { WriteAtHead(q, Torn); }
    if q.producer.PWriting? { WriteAtHead(q, Whole(q.producer.value)); }
  }

  lemma NextKeeps<T>(q: Queue<T>, a: Action<T>)
    requires Inv(q)
    ensures Inv(Next(q, a))
  {
    match a
    case Push(_) =>
    case ProducerStep => ProducedKeeps(q);
    case ConsumerStep =>
  }

  /** What has been popped, all of it whole, and then what is in the queue, is what has been pushed; the
      queue never holds more than its capacity; and the slot being written is not the slot being read. */
  lemma {:induction false} QueueIsFifo<T>(capacity: nat, actions: seq<Action<T>>)
    requires PowerOfTwo(capacity)
    ensures var q: Queue<T> := Run(Init(capacity), actions);
      && Inv(q)
      && q.tail <= q.head <= q.tail + capacity && q.head == |q.pushed|
      && (forall i :: 0 <= i < |q.popped| ==> q.popped[i].Whole?)
      && Values(q.popped) + Contents(q) == q.pushed
      && (q.producer.PWriting? && q.consumer.CCopying? ==>
            Slot(q.producer.head, capacity) != Slot(q.consumer.tail, capacity))
  {
    if actions != [] {
      QueueIsFifo(capacity, actions[..|actions| - 1]);
      NextKeeps(Run(Init(capacity), actions[..|actions| - 1]), actions[|actions| - 1]);
    }
    var q: Queue<T> := Run(Init(capacity), actions);
    ValuesAre(q.popped, q.pushed);
    if q.producer.PWriting? && q.consumer.CCopying? {
      SlotsApart(q.producer.head, q.consumer.tail, capacity);
    }
  }

  function Values<T>(cells: seq<Cell<T>>): seq<T> {
    if cells == [] then []
    else (if cells[0].Whole? then [cells[0].value] else []) + Values(cells[1..])
  }

  lemma {:induction false} ValuesAre<T>(cells: seq<Cell<T>>, values: seq<T>)
    requires |cells| <= |values| && forall i :: 0 <= i < |cells| ==> cells[i] == Whole(values[i])
    ensures Values(cells) + values[|cells|..] == values
  {
    if cells == [] {
      assert values[0..] == values;
    } else {
      ValuesAre(cells[1..], values[1..]);
      var front, back := Values(cells[1..]), values[|cells|..];
      assert Values(cells) == [values[0]] + front;
      hide Values;
      assert values[1..][|cells[1..]|..] == back;
      assert [values[0]] + front + back == [values[0]] + (front + back);
      assert values == [values[0]] + values[1..];
    }
  }

  /** With nothing in between, a push is refused if and only if the queue is full when it looks at `tail_`, and
      a pop finds nothing if and only if the queue is empty when it looks at `head_`. */
  lemma RefusalsAreHonest<T>(q: Queue<T>)
    requires Inv(q)
    ensures q.producer.PHead? ==>
      (var p := Produced(q).producer; (p.head >= p.tail + |q.buffer|) <==> q.head - q.tail == |q.buffer|)
    ensures q.producer.PHead? ==> (Produced(Produced(q)).producer.PIdle? <==> |Contents(q)| == |q.buffer|)
    ensures q.consumer.CTail? ==>
      (var c := Consumed(q).consumer; (c.tail >= c.head) <==> Contents(q) == [])
    ensures q.consumer.CTail? ==> (Consumed(Consumed(q)).consumer.CIdle? <==> Contents(q) == [])
  {
    if q.producer.PHead? {
      Loads(q);
      Decides(Produced(q));
    }
    if q.consumer.CTail? {
      Looks(q);
      Turns(Consumed(q));
    }
  }

  // ---------- What a whole call does, among any steps of the other side ----------

  predicate OnlyConsumer<T(==)>(actions: seq<Action<T>>) {
    forall i :: 0 <= i < |actions| ==> actions[i] == ConsumerStep
  }

  predicate NoConsumer<T(==)>(actions: seq<Action<T>>) {
    forall i :: 0 <= i < |actions| ==> actions[i] != ConsumerStep
  }

  /** The consumer's steps leave the producer where it is, and can only make room. */
  lemma {:induction false} ConsumerMeanwhile<T>(q: Queue<T>, actions: seq<Action<T>>)
    requires Inv(q) && OnlyConsumer(actions)
    ensures var r := Run(q, actions);
      && Inv(r) && r.producer == q.producer && r.buffer == q.buffer && r.pushed == q.pushed && r.tail >= q.tail
  {
    if actions != [] {
      var before := Run(q, actions[..|actions| - 1]);
      ConsumerMeanwhile(q, actions[..|actions| - 1]);
      NextKeeps(before, ConsumerStep);
    }
  }

  /** And the producer's steps leave the consumer where it is, and can only add values. */
  lemma {:induction false} ProducerMeanwhile<T>(q: Queue<T>, actions: seq<Action<T>>)
    requires Inv(q) && NoConsumer(actions)
    ensures var r := Run(q, actions);
      && Inv(r) && r.consumer == q.consumer && r.popped == q.popped && r.tail == q.tail && q.pushed <= r.pushed
  {
    if actions != [] {
      var before, a := Run(q, actions[..|actions| - 1]), actions[|actions| - 1];
      ProducerMeanwhile(q, actions[..|actions| - 1]);
      NextKeeps(before, a);
    }
  }

  predicate Full<T>(q: Queue<T>)
    requires q.tail <= |q.pushed|
  {
    |Contents(q)| == |q.buffer|
  }

  /** try_push, with the consumer doing anything between its steps: it is refused exactly if the queue was full
      when it loaded `tail_`, and then nothing has been pushed; otherwise the value has been. */
  lemma {:induction false} PushOutcome<T>(q: Queue<T>, value: T, w: seq<Action<T>>, x: seq<Action<T>>,
                                          y: seq<Action<T>>, z: seq<Action<T>>)
    requires Inv(q) && q.producer.PIdle?
    requires OnlyConsumer(w) && OnlyConsumer(x) && OnlyConsumer(y) && OnlyConsumer(z)
    ensures var atLoad := Run(Next(q, Push(value)), w);
      var decided := Produced(Run(Produced(atLoad), x));
      && atLoad.tail <= |atLoad.pushed|
      && if Full(atLoad) then decided.producer.PIdle? && decided.pushed == q.pushed
         else
           var done := Produced(Run(Produced(Run(decided, y)), z));
           Inv(done) && done.producer.PIdle? && done.pushed == q.pushed + [value]
  {
    assert q.buffer != [];
    hide Run, OnlyConsumer, Inv, Produced;
    var asked := Next(q, Push(value));
    NextKeeps(q, Push(value));
    ConsumerMeanwhile(asked, w);
    var atLoad := Run(asked, w);
    Loads(atLoad);
    ConsumerMeanwhile(Produced(atLoad), x);
    var loaded := Run(Produced(atLoad), x);
    Decides(loaded);
    if !Full(atLoad) {
      ConsumerMeanwhile(Produced(loaded), y);
      Writes(Run(Produced(loaded), y));
      ConsumerMeanwhile(Produced(Run(Produced(loaded), y)), z);
      Finishes(Run(Produced(Run(Produced(loaded), y)), z));
    }
  }

  lemma Loads<T>(q: Queue<T>)
    requires Inv(q) && q.producer.PHead?
    ensures var p, p' := q.producer, Produced(q).producer;
      && Inv(Produced(q)) && Produced(q).pushed == q.pushed && Produced(q).buffer == q.buffer
      && p'.PTail? && p'.value == p.value && q.tail <= |q.pushed|
      && (p'.head >= p'.tail + |q.buffer| <==> Full(q))
  {
    ProducedKeeps(q);
  }

  lemma Decides<T>(q: Queue<T>)
    requires Inv(q) && q.producer.PTail?
    ensures var p := q.producer;
      && Inv(Produced(q)) && Produced(q).pushed == q.pushed
      && Produced(q).producer == if p.head >= p.tail + |q.buffer| then PIdle else PWriting(p.value, p.head)
  {
    ProducedKeeps(q);
  }

  lemma Writes<T>(q: Queue<T>)
    requires Inv(q) && q.producer.PWriting?
    ensures Inv(Produced(q)) && Produced(q).pushed == q.pushed
    ensures Produced(q).producer == PWritten(q.producer.value, q.producer.head)
  {
    ProducedKeeps(q);
  }

  lemma Finishes<T>(q: Queue<T>)
    requires Inv(q) && q.producer.PWritten?
    ensures Inv(Produced(q)) && Produced(q).pushed == q.pushed + [q.producer.value] && Produced(q).producer.PIdle?
  {
    ProducedKeeps(q);
  }

  /** try_pop, with the producer doing anything between its steps: it finds nothing exactly if the queue was
      empty when it loaded `head_`; otherwise it gives out, whole, the value that was then the oldest. */
  lemma {:induction false} PopOutcome<T>(q: Queue<T>, w: seq<Action<T>>, x: seq<Action<T>>, y: seq<Action<T>>,
                                         z: seq<Action<T>>)
    requires Inv(q) && q.consumer.CIdle?
    requires NoConsumer(w) && NoConsumer(x) && NoConsumer(y) && NoConsumer(z)
    ensures var atLoad := Run(Consumed(q), w);
      var decided := Consumed(Run(Consumed(atLoad), x));
      && atLoad.tail <= |atLoad.pushed|
      && if Contents(atLoad) == [] then decided.consumer.CIdle? && decided.popped == q.popped && decided.tail == q.tail
         else
           var done := Consumed(Run(Consumed(Run(decided, y)), z));
           && Inv(done) && done.consumer.CIdle? && done.tail == q.tail + 1
           && done.popped == q.popped + [Whole(Contents(atLoad)[0])]
  {
    assert q.buffer != [];
    hide Run, NoConsumer, Inv, Consumed;
    Asks(q);
    ProducerMeanwhile(Consumed(q), w);
    var atLoad := Run(Consumed(q), w);
    Looks(atLoad);
    ProducerMeanwhile(Consumed(atLoad), x);
    var looked := Run(Consumed(atLoad), x);
    Turns(looked);
    if Contents(atLoad) != [] {
      ProducerMeanwhile(Consumed(looked), y);
      var copying := Run(Consumed(looked), y);
      Copies(copying);
      ProducerMeanwhile(Consumed(copying), z);
      GivesOut(Run(Consumed(copying), z));
    }
  }

  lemma Asks<T>(q: Queue<T>)
    requires Inv(q) && q.consumer.CIdle?
    ensures Inv(Consumed(q)) && Consumed(q) == q.(consumer := CTail(q.tail))
  {
    NextKeeps(q, ConsumerStep);
  }

  lemma Looks<T>(q: Queue<T>)
    requires Inv(q) && q.consumer.CTail?
    ensures Inv(Consumed(q)) && q.tail <= |q.pushed| && Consumed(q) == q.(consumer := CHead(q.tail, |q.pushed|))
    ensures q.tail >= |q.pushed| <==> Contents(q) == []
  {
    NextKeeps(q, ConsumerStep);
  }

  lemma Turns<T>(q: Queue<T>)
    requires Inv(q) && q.consumer.CHead?
    ensures Inv(Consumed(q)) && q.tail == q.consumer.tail
    ensures if q.consumer.tail >= q.consumer.head then Consumed(q) == q.(consumer := CIdle)
      else q.tail < |q.pushed| && Consumed(q) == q.(consumer := CCopying(q.tail, Whole(q.pushed[q.tail])))
  {
    NextKeeps(q, ConsumerStep);
  }

  lemma Copies<T>(q: Queue<T>)
    requires Inv(q) && q.consumer.CCopying?
    ensures Inv(Consumed(q)) && Consumed(q) == q.(consumer := CCopied(q.tail, q.consumer.out))
  {
    NextKeeps(q, ConsumerStep);
  }

  lemma GivesOut<T>(q: Queue<T>)
    requires Inv(q) && q.consumer.CCopied?
    ensures Inv(Consumed(q))
    ensures Consumed(q) == q.(consumer := CIdle, tail := q.tail + 1, popped := q.popped + [q.consumer.out])
  {
    NextKeeps(q, ConsumerStep);
  }

  // ---------- The same queue between one caller and the other, call by call ----------

  /** What try_push and try_pop do when they do not overlap. */
  class SpscQueue<T(0)> {
    const capacity: nat
    const buffer: array<T>
    var head: nat
    var tail: nat
    ghost var pushed: seq<T>

    ghost predicate Valid()
      reads this, buffer
    {
      && PowerOfTwo(capacity) && buffer.Length == capacity
      && tail <= head <= tail + capacity && head == |pushed|
      && forall t: nat :: tail <= t < head ==> buffer[Slot(t, capacity)] == pushed[t]
    }

    /** The queued values, oldest first. */
    ghost function Queued(): seq<T>
      requires Valid()
      reads this, buffer
    {
      pushed[tail..]
    }

    constructor (capacity: nat)
      requires PowerOfTwo(capacity)
      ensures Valid() && fresh(buffer) && this.capacity == capacity && Queued() == []
    {
      this.capacity := capacity;
      buffer := new T[capacity];
      head, tail, pushed := 0, 0, [];
    }

    method TryPush(value: T) returns (ok: bool)
      requires Valid()
      modifies `head, `pushed, buffer
      ensures Valid() && (ok <==> |old(Queued())| < capacity)
      ensures Queued() == if ok then old(Queued()) + [value] else old(Queued())
    {
      if head - tail >= capacity {
        return false;
      }
      forall t: nat | tail <= t < head ensures Slot(t, capacity) != Slot(head, capacity) {
        SlotsApart(t, head, capacity);
      }
      buffer[Slot(head, capacity)] := value;
      head, pushed := head + 1, pushed + [value];
      ok := true;
    }

    /** `out` keeps its value when there is nothing to pop. */
    method TryPop(before: T) returns (ok: bool, out: T)
      requires Valid()
      modifies `tail
      ensures Valid() && (ok <==> old(Queued()) != [])
      ensures if ok then old(Queued()) == [out] + Queued() else out == before && Queued() == old(Queued())
    {
      if tail >= head {
        return false, before;
      }
      out := buffer[Slot(tail, capacity)];
      tail := tail + 1;
      ok := true;
    }
  }
}
