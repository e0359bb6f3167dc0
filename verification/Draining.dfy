/**
 The pipeline with a draining thread at one of its gateways, and a consumer behind the thread's queue: what
 the consumer gets, against what the sequential book owes.
 */
module Draining {
  import opened Rings
  import opened Spsc
  import Book
  import In = Inbound
  import P = Pipeline
  import Out = Outbound
  import Over = Overruns
  import R = Readers

  /** The thread of gateway `g` reads acks from the outbound ring and pushes them into its queue. */
  datatype Drained = Drained(sys: P.State, g: nat, reader: R.Reader<Out.Ack>)

  /** `Pipe` is a step of anyone but the thread; the thread reads the ring or works on its push, one thing at
      a time; `Consume` is a step of the consumer. */
  datatype Turn = Pipe(act: P.Action) | ReadRing | Work | Consume

  function Start(size: nat, producers: nat, outSizes: seq<nat>, g: nat, capacity: nat): (d: Drained)
    requires size > 0 && (forall i :: 0 <= i < |outSizes| ==> outSizes[i] > 0) && g < |outSizes| && capacity > 0
    ensures Shaped(d)
  {
    Drained(P.Init(size, producers, outSizes), g, R.Start(capacity))
  }

  ghost predicate Shaped(d: Drained) {
    P.Shaped(d.sys) && d.g < |d.sys.outs| && d.reader.queue.buffer != []
  }

  function Next(d: Drained, t: Turn): (d': Drained)
    requires Shaped(d)
    ensures Shaped(d') && d'.g == d.g
  {
    match t
    case Pipe(act) => if act == P.Reader(d.g) then d else d.(sys := P.Step(d.sys, act))
    case ReadRing =>
      // read_from_ring_buffer is not called again before the last ack has been dealt with
      if !d.reader.hand.Empty? then d
      else
        var sys := P.Step(d.sys, P.Reader(d.g));
        var before, after := d.sys.outs[d.g].delivered, sys.outs[d.g].delivered;
        if |after| == |before| + 1 then Drained(sys, d.g, R.Next(d.reader, R.Receive(after[|before|])))
        else d.(sys := sys)
    case Work => d.(reader := R.Next(d.reader, R.Work))
    case Consume => d.(reader := R.Next(d.reader, R.Consume))
  }

  function Turns(d: Drained, turns: seq<Turn>): (d': Drained)
    requires Shaped(d)
    ensures Shaped(d') && d'.g == d.g
  {
    if turns == [] then d else Next(Turns(d, turns[..|turns| - 1]), turns[|turns| - 1])
  }

  ghost predicate Fair(d: Drained, t: Turn) {
    t.Pipe? ==> P.Allowed(d.sys, t.act)
  }

  ghost predicate AllFair(d: Drained, turns: seq<Turn>)
    requires Shaped(d)
  {
    turns != [] ==> AllFair(d, turns[..|turns| - 1]) && Fair(Turns(d, turns[..|turns| - 1]), turns[|turns| - 1])
  }

  /** The thread has been given just what the ring has delivered. */
  ghost predicate Inv(d: Drained)
    requires Shaped(d)
  {
    && P.Inv(d.sys) && Spsc.Inv(d.reader.queue) && R.HandHolds(d.reader) && R.Accounts(d.reader)
    && d.reader.read == d.sys.outs[d.g].delivered
  }

  /** A step of the pipeline is at most one move of ring `g`, and a reading one only if it is its reader's. */
  lemma MovesOne(s: P.State, act: P.Action, g: nat) returns (m: Out.Move)
    requires P.Shaped(s) && g < |s.outs|
    ensures P.Step(s, act).outs[g] == s.outs[g] || P.Step(s, act).outs[g] == Out.Moved(s.outs[g], m)
    ensures m.Read? <==> act == P.Reader(g)
  {
    hide P.AckOf, Out.Moved, In.Step, Book.Apply;
    if act == P.Reader(g) {
      m := Out.Read;
    } else {
      var slot := In.Held(s.ring, s.ring.rp);
      m := match s.engine
        case Stamping => Out.Stamp(slot.op)
        case Applying => Out.Begin(P.AckOf(In.Decode(slot).event.req, Book.Apply(s.book, In.Decode(slot).event).1))
        case Acking => Out.Write
        case Publishing => Out.PublishAck
        case _ => Out.AdvanceOut;
    }
  }

  lemma DeliversOne(s: P.State, act: P.Action, g: nat)
    requires P.Shaped(s) && g < |s.outs|
    ensures var d, d' := s.outs[g].delivered, P.Step(s, act).outs[g].delivered;
      d' == d || (act == P.Reader(g) && |d'| == |d| + 1 && d' == d + [d'[|d|]])
  {
    var m := MovesOne(s, act, g);
    hide P.Step, Out.Moved;
    Out.DeliversOne(s.outs[g], m);
  }

  lemma NextKeeps(d: Drained, t: Turn)
    requires Shaped(d) && Inv(d) && Fair(d, t)
    ensures Inv(Next(d, t))
  {
    match t
    case Pipe(act) =>
      if act != P.Reader(d.g) {
        P.StepKeeps(d.sys, act);
        DeliversOne(d.sys, act, d.g);
      }
    case ReadRing =>
      if d.reader.hand.Empty? {
        P.StepKeeps(d.sys, P.Reader(d.g));
        DeliversOne(d.sys, P.Reader(d.g), d.g);
        var before, after := d.sys.outs[d.g].delivered, P.Step(d.sys, P.Reader(d.g)).outs[d.g].delivered;
        if |after| == |before| + 1 {
          R.HandKept(d.reader, R.Receive(after[|before|]));
          R.NextAccounts(d.reader, R.Receive(after[|before|]));
        }
      }
    case Work =>
      R.HandKept(d.reader, R.Work);
      R.NextAccounts(d.reader, R.Work);
    case Consume =>
      R.HandKept(d.reader, R.Consume);
      R.NextAccounts(d.reader, R.Consume);
  }

  lemma {:induction false} TurnsKeep(size: nat, producers: nat, outSizes: seq<nat>, g: nat, capacity: nat,
                                     turns: seq<Turn>)
    requires PowerOfTwo(size) && (forall i :: 0 <= i < |outSizes| ==> outSizes[i] > 0 && PowerOfTwo(outSizes[i]))
    requires g < |outSizes| && PowerOfTwo(capacity) && AllFair(Start(size, producers, outSizes, g, capacity), turns)
    ensures Inv(Turns(Start(size, producers, outSizes, g, capacity), turns))
  {
    var d := Start(size, producers, outSizes, g, capacity);
    if turns == [] {
      P.InitHolds(size, producers, outSizes);
    } else {
      TurnsKeep(size, producers, outSizes, g, capacity, turns[..|turns| - 1]);
      NextKeeps(Turns(d, turns[..|turns| - 1]), turns[|turns| - 1]);
    }
  }

  lemma {:induction false} SubsequenceOfLonger<T>(s: seq<T>, t: seq<T>, u: seq<T>)
    requires R.Subsequence(s, t) && t <= u
    ensures R.Subsequence(s, u)
  {
    if |t| < |u| {
      SubsequenceOfLonger(s, t, u[..|u| - 1]);
    } else {
      assert t == u;
    }
  }

  /** From submission to consumer: in every run without lapping, what the consumer has popped, followed by
      what is queued for it, is the sequential book's acks for the gateway with some left out, in their order;
      and each ack read is among these, counted as dropped, or the one in hand. */
  lemma {:induction false} ConsumerGetsSequentialAcks(size: nat, producers: nat, outSizes: seq<nat>, g: nat,
                                                      capacity: nat, turns: seq<Turn>)
    requires PowerOfTwo(size) && (forall i :: 0 <= i < |outSizes| ==> outSizes[i] > 0 && PowerOfTwo(outSizes[i]))
    requires g < |outSizes| && PowerOfTwo(capacity) && AllFair(Start(size, producers, outSizes, g, capacity), turns)
    ensures var d := Turns(Start(size, producers, outSizes, g, capacity), turns);
      var (q, ring) := (d.reader.queue, d.sys.ring);
      && q.tail <= |q.pushed| && ring.released <= |ring.log|
      && R.Subsequence(Values(q.popped) + Contents(q), P.AcksFor(ring.log[..ring.released], g))
      && |d.sys.outs[g].delivered| ==
           |Values(q.popped) + Contents(q)| + d.reader.dropped + (if d.reader.hand.Empty? then 0 else 1)
  {
    var d := Turns(Start(size, producers, outSizes, g, capacity), turns);
    TurnsKeep(size, producers, outSizes, g, capacity, turns);
    R.PushedWasRead(d.reader);
    ValuesAre(d.reader.queue.popped, d.reader.queue.pushed);
    P.DeliveredIsPrefix(P.WorkOf(d.sys), g, d.sys.outs[g]);
    SubsequenceOfLonger(d.reader.queue.pushed, d.reader.read, P.AcksFor(d.sys.ring.log[..d.sys.ring.released], g));
  }

  // ---------- That no ack need be lost ----------

  ghost predicate Leads(d: Drained, turns: seq<Turn>, d': Drained) {
    Shaped(d) && Inv(d) && AllFair(d, turns) && d' == Turns(d, turns) && Inv(d')
  }

  lemma {:induction false} InTwoParts(d: Drained, first: seq<Turn>, rest: seq<Turn>)
    requires Shaped(d)
    ensures Turns(d, first + rest) == Turns(Turns(d, first), rest)
    ensures AllFair(d, first + rest) <==> AllFair(d, first) && AllFair(Turns(d, first), rest)
  {
    hide Next, Fair;
    if rest == [] {
      assert first + rest == first;
    } else {
      var front, all := rest[..|rest| - 1], first + rest;
      InTwoParts(d, first, front);
      assert all[..|all| - 1] == first + front && all[|all| - 1] == rest[|rest| - 1];
    }
  }

  lemma Stays(d: Drained)
    requires Shaped(d) && Inv(d)
    ensures Leads(d, [], d)
  {
  }

  lemma {:induction false} OneTurn(d: Drained, t: Turn)
    requires Shaped(d) && Inv(d) && Fair(d, t)
    ensures Leads(d, [t], Next(d, t))
  {
    hide Next, Inv, Fair;
    NextKeeps(d, t);
    assert [t][..0] == [] && Turns(d, []) == d && AllFair(d, []);
  }

  lemma Then(d: Drained, first: seq<Turn>, mid: Drained, rest: seq<Turn>, d': Drained)
    requires Leads(d, first, mid) && Leads(mid, rest, d')
    ensures Leads(d, first + rest, d')
  {
    hide Turns, AllFair, Inv;
    InTwoParts(d, first, rest);
  }

  lemma {:induction false} WorksOn(d: Drained, n: nat) returns (turns: seq<Turn>)
    requires Shaped(d) && Inv(d)
    ensures Leads(d, turns, d.(reader := R.Works(d.reader, n)))
    decreases n
  {
    hide Inv, Turns, AllFair;
    if n == 0 {
      Stays(d);
      turns := [];
    } else {
      OneTurn(d, Work);
      var rest := WorksOn(Next(d, Work), n - 1);
      Then(d, [Work], Next(d, Work), rest, d.(reader := R.Works(d.reader, n)));
      turns := [Work] + rest;
    }
  }

  lemma {:induction false} ConsumesOn(d: Drained, n: nat) returns (turns: seq<Turn>)
    requires Shaped(d) && Inv(d)
    ensures Leads(d, turns, d.(reader := R.Consumes(d.reader, n)))
    decreases n
  {
    hide Inv, Turns, AllFair;
    if n == 0 {
      Stays(d);
      turns := [];
    } else {
      OneTurn(d, Consume);
      var rest := ConsumesOn(Next(d, Consume), n - 1);
      Then(d, [Consume], Next(d, Consume), rest, d.(reader := R.Consumes(d.reader, n)));
      turns := [Consume] + rest;
    }
  }

  /** Nothing in the thread's hand and nothing in its queue. */
  predicate Clear(d: Drained) {
    d.reader.hand.Empty? && R.Emptied(d.reader.queue)
  }

  /** Thread and consumer deal with what has been read; the ack in hand is dropped only if it met a full queue. */
  lemma Clears(d: Drained) returns (turns: seq<Turn>, d': Drained)
    requires Shaped(d) && Inv(d)
    ensures Leads(d, turns, d') && d' == d.(reader := d'.reader) && Clear(d')
    ensures d'.reader.read == d.reader.read && d.reader.queue.tail <= |d.reader.queue.pushed|
    ensures d'.reader.dropped == d.reader.dropped + if !d.reader.hand.Empty? && R.WillDrop(d.reader) then 1 else 0
  {
    var n := R.HandsFree(d.reader);
    var mid := d.(reader := R.Works(d.reader, n));
    var m := R.Empties(mid.reader);
    hide Inv, Turns, AllFair, R.WillDrop, R.Emptied;
    var first := WorksOn(d, n);
    var rest := ConsumesOn(mid, m);
    d' := mid.(reader := R.Consumes(mid.reader, m));
    turns := first + rest;
    Then(d, first, mid, rest, d');
  }

  /** One more move of the reader of the ring. */
  lemma ReadsOnce(d: Drained)
    requires Shaped(d) && Inv(d) && Clear(d) && !Over.Waiting(d.sys.outs[d.g])
    ensures var d' := Next(d, ReadRing);
      var (r, r') := (d.sys.outs[d.g], d'.sys.outs[d.g]);
      && Inv(d') && r' == Out.ReaderMoved(r) && d'.sys == d.sys.(outs := d.sys.outs[d.g := r'])
      && d'.reader.dropped == d.reader.dropped && d'.reader.queue == d.reader.queue
      && ((r'.released == r.released && Over.Rank(r'.reader) < Over.Rank(r.reader))
          || r'.released == r.released + 1 <= |r.sent|)
      && d'.reader.queue.tail <= |d'.reader.queue.pushed| && !R.WillDrop(d'.reader)
  {
    NextKeeps(d, ReadRing);
    var r := d.sys.outs[d.g];
    assert P.OutHolds(P.WorkOf(d.sys), d.g, r);
    Over.ReadingGoesOn(r);
    Out.ReadIs(r);
    hide P.Inv, P.Step, Out.ReaderMoved, Over.Rank;
    StepIsMove(d.sys, d.g);
  }

  lemma StepIsMove(s: P.State, g: nat)
    requires P.Shaped(s) && g < |s.outs|
    ensures P.Step(s, P.Reader(g)) == s.(outs := s.outs[g := Out.ReaderMoved(s.outs[g])])
  {
    Out.ReadIs(s.outs[g]);
  }

  /** One move of the ring's reader, and if it has got an ack, all the way to the consumer with it. */
  lemma ReadsAndClears(d: Drained) returns (turns: seq<Turn>, d': Drained)
    requires Shaped(d) && Inv(d) && Clear(d) && !Over.Waiting(d.sys.outs[d.g])
    ensures Leads(d, turns, d') && Clear(d') && d'.reader.dropped == d.reader.dropped
    ensures d'.g == d.g && d'.sys == d.sys.(outs := d.sys.outs[d.g := Out.ReaderMoved(d.sys.outs[d.g])])
    ensures var (r, r') := (d.sys.outs[d.g], d'.sys.outs[d.g]);
      || (r'.released == r.released && Over.Rank(r'.reader) < Over.Rank(r.reader))
      || r'.released == r.released + 1 <= |r.sent|
  {
    ReadsOnce(d);
    hide Inv, Turns, AllFair, Next, Clear, R.WillDrop, Over.Waiting, Over.Rank, Out.ReaderMoved;
    var read := Next(d, ReadRing);
    OneTurn(d, ReadRing);
    var clearing;
    clearing, d' := Clears(read);
    Then(d, [ReadRing], read, clearing, d');
    turns := [ReadRing] + clearing;
  }

  /** With its consumer keeping up, the thread reads all that the engine has sent, and drops nothing. */
  lemma {:induction false} ReadsAll(d: Drained) returns (turns: seq<Turn>, d': Drained)
    requires Shaped(d) && Inv(d) && Clear(d)
    ensures Leads(d, turns, d') && Clear(d') && d'.reader.dropped == d.reader.dropped
    ensures d'.g == d.g && d'.sys == d.sys.(outs := d.sys.outs[d.g := d'.sys.outs[d.g]])
    ensures Over.Waiting(d'.sys.outs[d.g]) && d'.sys.outs[d.g].sent == d.sys.outs[d.g].sent
    decreases |d.sys.outs[d.g].sent| - d.sys.outs[d.g].released, Over.Rank(d.sys.outs[d.g].reader)
  {
    hide Inv, Turns, AllFair, Next, Clear, Over.Waiting, Over.Rank, Out.ReaderMoved;
    if Over.Waiting(d.sys.outs[d.g]) {
      Stays(d);
      turns, d' := [], d;
    } else {
      var first, mid := ReadsAndClears(d);
      var rest;
      rest, d' := ReadsAll(mid);
      Then(d, first, mid, rest, d');
      turns := first + rest;
    }
  }

  /** From every state of every run without lapping, ring, thread and consumer can go on until the consumer has
      popped everything that the engine has sent and that has not been dropped; and of what is still to come
      out of the ring nothing is dropped. */
  lemma {:induction false} NoAckNeedBeLost(size: nat, producers: nat, outSizes: seq<nat>, g: nat, capacity: nat,
                                           turns: seq<Turn>) returns (more: seq<Turn>)
    requires PowerOfTwo(size) && (forall i :: 0 <= i < |outSizes| ==> outSizes[i] > 0 && PowerOfTwo(outSizes[i]))
    requires g < |outSizes| && PowerOfTwo(capacity) && AllFair(Start(size, producers, outSizes, g, capacity), turns)
    ensures var start := Start(size, producers, outSizes, g, capacity);
      var (d, d') := (Turns(start, turns), Turns(start, turns + more));
      var r := d.reader;
      && AllFair(start, turns + more) && Clear(d') && r.queue.tail <= |r.queue.pushed|
      && d'.sys.ring == d.sys.ring && d'.sys.outs[g].sent == d.sys.outs[g].sent
      && d'.sys.outs[g].delivered == d'.sys.outs[g].sent
      && d'.reader.dropped == r.dropped + (if !r.hand.Empty? && R.WillDrop(r) then 1 else 0)
      && |Values(d'.reader.queue.popped)| + d'.reader.dropped == |d.sys.outs[g].sent|
  {
    var start := Start(size, producers, outSizes, g, capacity);
    TurnsKeep(size, producers, outSizes, g, capacity, turns);
    var d := Turns(start, turns);
    var a, mid := Clears(d);
    var b, d' := ReadsAll(mid);
    more := a + b;
    hide Turns, AllFair, Inv, Over.Waiting;
    Then(d, a, mid, b, d');
    InTwoParts(start, turns, more);
    AllAreAccountedFor(d');
  }

  lemma AllAreAccountedFor(d: Drained)
    requires Shaped(d) && Inv(d) && Clear(d) && Over.Waiting(d.sys.outs[d.g])
    ensures var (r, sent) := (d.reader, d.sys.outs[d.g].sent);
      d.sys.outs[d.g].delivered == sent && |Values(r.queue.popped)| + r.dropped == |sent|
  {
    var r := d.sys.outs[d.g];
    assert P.OutHolds(P.WorkOf(d.sys), d.g, r);
    assert r.delivered == r.sent[..|r.sent|];
    R.PushedWasRead(d.reader);
    ValuesAre(d.reader.queue.popped, d.reader.queue.pushed);
  }
}
