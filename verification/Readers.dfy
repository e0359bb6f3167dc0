/** The thread that drains one gateway into a queue and counts what it has to drop. */
module Readers {
  import opened Rings
  import opened Spsc

  /** What the reader is doing with the ack it last read: nothing any more, about to push it, or in the
      middle of try_push. */
  datatype Hand<T> = Empty | Fetched(ack: T) | Pushing(ack: T)

  /** `read` is history: every ack the gateway has given to the reader. */
  datatype Reader<T> = Reader(queue: Queue<T>, hand: Hand<T>, dropped: nat, read: seq<T>)

  datatype Turn<T> = Receive(ack: T) | Work | Consume

  function Start<T>(capacity: nat): Reader<T> {
    Reader(Init(capacity), Empty, 0, [])
  }

  function Next<T(==)>(r: Reader<T>, t: Turn<T>): (r': Reader<T>)
    requires r.queue.buffer != []
    ensures |r'.queue.buffer| == |r.queue.buffer|
  {
    match t
    case Receive(ack) => if r.hand.Empty? then r.(hand := Fetched(ack), read := r.read + [ack]) else r
    case Consume => r.(queue := Consumed(r.queue))
    case Work =>
      match r.hand
      case Empty => r
      case Fetched(ack) => r.(queue := Spsc.Next(r.queue, Push(ack)), hand := Pushing(ack))
      case Pushing(ack) =>
        var q := Produced(r.queue);
        if !q.producer.PIdle? then r.(queue := q)
        else if r.queue.producer.PWritten? then r.(queue := q, hand := Empty)
        else r.(queue := q, hand := Empty, dropped := r.dropped + 1)
  }

  function Run<T(==)>(r: Reader<T>, turns: seq<Turn<T>>): (r': Reader<T>)
    requires r.queue.buffer != []
    ensures |r'.queue.buffer| == |r.queue.buffer|
  {
    if turns == [] then r else Next(Run(r, turns[..|turns| - 1]), turns[|turns| - 1])
  }

  /** `s` is `t` with some elements left out. */
  ghost predicate Subsequence<T>(s: seq<T>, t: seq<T>) {
    if s == [] then true
    else if t == [] then false
    else if s[|s| - 1] == t[|t| - 1] && Subsequence(s[..|s| - 1], t[..|t| - 1]) then true
    else Subsequence(s, t[..|t| - 1])
  }

  lemma {:induction false} SubsequenceGrows<T>(s: seq<T>, t: seq<T>, x: T)
    requires Subsequence(s, t)
    ensures Subsequence(s, t + [x]) && Subsequence(s + [x], t + [x])
  {
    assert (t + [x])[..|t|] == t;
    assert (s + [x])[..|s|] == s;
  }

  /** The acks that have been read and are no longer in hand. */
  function Settled<T>(r: Reader<T>): seq<T> {
    if r.hand.Empty? || r.read == [] then r.read else r.read[..|r.read| - 1]
  }

  /** try_push is under way exactly for the ack in hand. */
  ghost predicate HandHolds<T>(r: Reader<T>) {
    && (!r.hand.Empty? ==> r.read != [] && r.read[|r.read| - 1] == r.hand.ack)
    && match r.queue.producer
       case PIdle => !r.hand.Pushing?
       case PHead(v, _) => r.hand == Pushing(v)
       case PTail(v, _, _) => r.hand == Pushing(v)
       case PWriting(v, _) => r.hand == Pushing(v)
       case PWritten(v, _) => r.hand == Pushing(v)
  }

  /** Settled acks are in the queue or beyond it, or counted as dropped. */
  ghost predicate Accounts<T>(r: Reader<T>) {
    |Settled(r)| == |r.queue.pushed| + r.dropped && Subsequence(r.queue.pushed, Settled(r))
  }

  lemma HandKept<T>(r: Reader<T>, t: Turn<T>)
    requires Inv(r.queue) && HandHolds(r)
    ensures Inv(Next(r, t).queue) && HandHolds(Next(r, t))
  {
    match t
    case Receive(_) =>
    case Consume => NextKeeps(r.queue, ConsumerStep);
    case Work =>
      match r.hand {
        case Empty =>
        case Fetched(ack) => NextKeeps(r.queue, Push(ack));
        case Pushing(ack) => NextKeeps(r.queue, ProducerStep);
      }
  }

  lemma NextAccounts<T>(r: Reader<T>, t: Turn<T>)
    requires r.queue.buffer != [] && HandHolds(r) && Accounts(r)
    ensures Accounts(Next(r, t))
  {
    var r' := Next(r, t);
    if r'.hand.Empty? && !r.hand.Empty? {
      assert r'.read == Settled(r) + [r.hand.ack];
      SubsequenceGrows(r.queue.pushed, Settled(r), r.hand.ack);
    } else {
      assert Settled(r') == Settled(r) && r'.queue.pushed == r.queue.pushed;
    }
  }

  lemma {:induction false} RunAccounts<T>(capacity: nat, turns: seq<Turn<T>>)
    requires PowerOfTwo(capacity)
    ensures var r: Reader<T> := Run(Start(capacity), turns); Inv(r.queue) && HandHolds(r) && Accounts(r)
  {
    if turns != [] {
      var before: Reader<T> := Run(Start(capacity), turns[..|turns| - 1]);
      RunAccounts(capacity, turns[..|turns| - 1]);
      HandKept(before, turns[|turns| - 1]);
      NextAccounts(before, turns[|turns| - 1]);
    }
  }

  /** However reader and consumer interleave: every ack read is in the queue or beyond it, or counted as
      dropped, or the one still in hand; and what has been popped, followed by what is queued, is what was
      read, in its order, with the dropped acks left out. */
  lemma {:induction false} NothingIsLostUncounted<T>(capacity: nat, turns: seq<Turn<T>>)
    requires PowerOfTwo(capacity)
    ensures var r: Reader<T> := Run(Start(capacity), turns);
      && |r.read| == |r.queue.pushed| + r.dropped + (if r.hand.Empty? then 0 else 1)
      && r.queue.tail <= |r.queue.pushed|
      && Values(r.queue.popped) + Contents(r.queue) == r.queue.pushed
      && Subsequence(Values(r.queue.popped) + Contents(r.queue), r.read)
  {
    var r: Reader<T> := Run(Start(capacity), turns);
    RunAccounts(capacity, turns);
    ValuesAre(r.queue.popped, r.queue.pushed);
    PushedWasRead(r);
  }

  lemma PushedWasRead<T>(r: Reader<T>)
    requires HandHolds(r) && Accounts(r)
    ensures |r.read| == |r.queue.pushed| + r.dropped + (if r.hand.Empty? then 0 else 1)
    ensures Subsequence(r.queue.pushed, r.read)
  {
    if !r.hand.Empty? {
      assert r.read == Settled(r) + [r.hand.ack];
      SubsequenceGrows(r.queue.pushed, Settled(r), r.hand.ack);
    }
  }

  // ---------- When an ack is dropped ----------

  lemma {:induction false} StateHolds<T>(capacity: nat, turns: seq<Turn<T>>)
    requires PowerOfTwo(capacity)
    ensures var r: Reader<T> := Run(Start(capacity), turns); Inv(r.queue) && HandHolds(r)
    ensures |Run(Start(capacity), turns).queue.buffer| == capacity
  {
    RunAccounts(capacity, turns);
  }

  /** A push that has loaded `tail_` did so at some turn, and what it loaded is what was there. */
  lemma {:induction false} LoadedAt<T>(capacity: nat, turns: seq<Turn<T>>) returns (m: nat)
    requires PowerOfTwo(capacity) && Run(Start(capacity), turns).queue.producer.PTail?
    ensures m < |turns| && turns[m].Work?
    ensures var (q, p) := (Run(Start(capacity), turns[..m]).queue, Run(Start(capacity), turns).queue.producer);
      q.producer == PHead(p.value, p.head) && q.tail == p.tail
  {
    var n := |turns| - 1;
    var before: Reader<T> := Run(Start(capacity), turns[..n]);
    StateHolds(capacity, turns[..n]);
    if before.queue.producer.PTail? {
      m := LoadedAt(capacity, turns[..n]);
      assert turns[..n][..m] == turns[..m];
      StaysLoaded(before, turns[n]);
    } else {
      m := n;
      JustLoaded(before, turns[n]);
    }
  }

  lemma StaysLoaded<T>(r: Reader<T>, t: Turn<T>)
    requires Inv(r.queue) && HandHolds(r) && r.queue.producer.PTail? && Next(r, t).queue.producer.PTail?
    ensures Next(r, t).queue.producer == r.queue.producer
  {
  }

  lemma JustLoaded<T>(r: Reader<T>, t: Turn<T>)
    requires Inv(r.queue) && HandHolds(r) && !r.queue.producer.PTail? && Next(r, t).queue.producer.PTail?
    ensures t.Work? && r.queue.producer.PHead? && Next(r, t).queue.producer ==
      PTail(r.queue.producer.value, r.queue.producer.head, r.queue.tail)
  {
  }

  /** An ack is dropped only when its push has loaded `tail_`, and then if and only if the queue was full at the
      turn of that load; otherwise it goes on to be written.  All this in every run. */
  lemma {:induction false} DropsIffFull<T>(capacity: nat, turns: seq<Turn<T>>, t: Turn<T>) returns (m: nat)
    requires PowerOfTwo(capacity)
    ensures var (r, r') := (Run(Start(capacity), turns), Next(Run(Start(capacity), turns), t));
      var deciding := t.Work? && r.queue.producer.PTail?;
      && (!deciding ==> r'.dropped == r.dropped)
      && (deciding ==>
            && m < |turns| && turns[m].Work?
            && var q := Run(Start(capacity), turns[..m]).queue;
               && q.producer.PHead? && q.producer.value == r.queue.producer.value && q.tail <= |q.pushed|
               && (Full(q) ==> r'.dropped == r.dropped + 1 && r'.hand.Empty?)
               && (!Full(q) ==> r'.dropped == r.dropped && r'.hand == r.hand && r'.queue.producer.PWriting?))
  {
    m := 0;
    StateHolds(capacity, turns);
    var r: Reader<T> := Run(Start(capacity), turns);
    if t.Work? && r.queue.producer.PTail? {
      m := LoadedAt(capacity, turns);
      StateHolds(capacity, turns[..m]);
    }
  }

  // ---------- That the reader gets its hands free ----------

  /** `n` steps of the reader's own. */
  function Works<T(==)>(r: Reader<T>, n: nat): (r': Reader<T>)
    requires r.queue.buffer != []
    ensures |r'.queue.buffer| == |r.queue.buffer|
    decreases n
  {
    if n == 0 then r else Works(Next(r, Turn<T>.Work), n - 1)
  }

  function Consumes<T(==)>(r: Reader<T>, n: nat): (r': Reader<T>)
    requires r.queue.buffer != []
    ensures |r'.queue.buffer| == |r.queue.buffer|
    decreases n
  {
    if n == 0 then r else Consumes(Next(r, Turn<T>.Consume), n - 1)
  }

  /** The ack in hand finds, or will find if nothing is popped meanwhile, the queue full. */
  predicate WillDrop<T>(r: Reader<T>)
    requires r.queue.tail <= |r.queue.pushed|
  {
    match r.queue.producer
    case PIdle => r.hand.Fetched? && Full(r.queue)
    case PHead(_, _) => Full(r.queue)
    case PTail(_, head, tail) => head >= tail + |r.queue.buffer|
    case _ => false
  }

  function Toil<T>(r: Reader<T>): nat {
    match r.queue.producer
    case PIdle => if r.hand.Empty? then 0 else 5
    case PHead(_, _) => 4
    case PTail(_, _, _) => 3
    case PWriting(_, _) => 2
    case PWritten(_, _) => 1
  }

  lemma WorkGoesOn<T>(r: Reader<T>)
    requires Inv(r.queue) && HandHolds(r) && !r.hand.Empty?
    ensures var r' := Next(r, Turn<T>.Work);
      && Inv(r'.queue) && HandHolds(r') && Toil(r') < Toil(r)
      && r'.read == r.read && r'.queue.consumer == r.queue.consumer && r'.queue.tail == r.queue.tail
      && r'.queue.popped == r.queue.popped
      && (r'.hand == Empty || r'.hand.ack == r.hand.ack)
  {
    HandKept(r, Turn<T>.Work);
  }

  lemma WorkTells<T>(r: Reader<T>)
    requires Inv(r.queue) && HandHolds(r) && !r.hand.Empty?
    ensures var (r', q, q') := (Next(r, Turn<T>.Work), r.queue, Next(r, Turn<T>.Work).queue);
      && q.tail <= |q.pushed| && q'.tail <= |q'.pushed|
      && if r'.hand.Empty? then
           r'.dropped == r.dropped + (if WillDrop(r) then 1 else 0)
           && q'.pushed == if WillDrop(r) then q.pushed else q.pushed + [r.hand.ack]
         else r'.dropped == r.dropped && q'.pushed == q.pushed && (WillDrop(r') <==> WillDrop(r))
  {
  }

  /** Working on, the reader is rid of the ack in hand: dropped if the queue was full, and pushed otherwise. */
  lemma {:induction false} HandsFree<T>(r: Reader<T>) returns (n: nat)
    requires Inv(r.queue) && HandHolds(r)
    ensures var (r', q, q') := (Works(r, n), r.queue, Works(r, n).queue);
      && Inv(q') && HandHolds(r') && r'.hand.Empty? && r'.read == r.read
      && q'.consumer == q.consumer && q'.tail == q.tail && q'.popped == q.popped
      && q.tail <= |q.pushed|
      && var drops, pushes := !r.hand.Empty? && WillDrop(r), !r.hand.Empty? && !WillDrop(r);
         && r'.dropped == r.dropped + (if drops then 1 else 0)
         && q'.pushed == if pushes then q.pushed + [r.hand.ack] else q.pushed
    decreases Toil(r)
  {
    if r.hand.Empty? {
      n := 0;
    } else {
      WorkGoesOn(r);
      WorkTells(r);
      hide Next, Inv, HandHolds, Toil, WillDrop;
      var m := HandsFree(Next(r, Turn<T>.Work));
      n := m + 1;
    }
  }

  // ---------- That the consumer can empty the queue ----------

  /** How far the consumer is from having popped the next value, or from finding none. */
  function Effort<T>(q: Queue<T>): nat {
    match q.consumer
    case CIdle => 5
    case CTail(tail) => if tail < |q.pushed| then 4 else 7
    case CHead(tail, head) => if tail < head then 3 else 6
    case CCopying(_, _) => 2
    case CCopied(_, _) => 1
  }

  predicate Emptied<T>(q: Queue<T>) {
    q.tail == |q.pushed| && q.consumer.CIdle?
  }

  lemma ConsumeGoesOn<T>(r: Reader<T>)
    requires Inv(r.queue) && HandHolds(r) && !Emptied(r.queue)
    ensures var (r', q, q') := (Next(r, Turn<T>.Consume), r.queue, Next(r, Turn<T>.Consume).queue);
      && Inv(q') && HandHolds(r') && r' == r.(queue := q') && q'.producer == q.producer && q'.pushed == q.pushed
      && q'.tail <= |q.pushed|
      && (q'.tail == q.tail + 1 || (q'.tail == q.tail && Effort(q') < Effort(q)))
  {
    HandKept(r, Turn<T>.Consume);
  }

  /** Consuming on, the consumer gets all there is in the queue. */
  lemma {:induction false} Empties<T>(r: Reader<T>) returns (n: nat)
    requires Inv(r.queue) && HandHolds(r)
    ensures var (r', q') := (Consumes(r, n), Consumes(r, n).queue);
      && Inv(q') && HandHolds(r') && r' == r.(queue := q') && q'.producer == r.queue.producer
      && q'.pushed == r.queue.pushed && Emptied(q')
    decreases |r.queue.pushed| - r.queue.tail, Effort(r.queue)
  {
    if Emptied(r.queue) {
      n := 0;
    } else {
      ConsumeGoesOn(r);
      hide Next, Inv, HandHolds, Effort, Emptied;
      var m := Empties(Next(r, Turn<T>.Consume));
      n := m + 1;
    }
  }
}
