/** What the acks say, against what has become of the book; and which acks a gateway is owed. */
module Answers {
  import opened Book
  import opened Rings
  import opened Invariants
  import opened Outcomes
  import opened Pipeline
  import In = Inbound
  import Out = Outbound

  /** The ack tells what the event has led to: from book `b` to book `b'`. */
  ghost predicate Tells(b: Book, e: Event, b': Book, ack: Out.Ack) {
    match e.req
    case New(price, volume, sell, id) =>
      exists r :: Placement(b, price, volume, sell, e.time, id, b', r)
        && ack == Out.Ack(In.NEW, id, r.fulfilled, r.remainingQty, r.trades[..Min(|r.trades|, 16)])
    case CancelReq(id) =>
      Cancellation(b, id, b', ack.fulfilled) && ack == Out.Ack(In.CANCEL, id, ack.fulfilled, 0, [])
    case ModifyReq(id, size) =>
      Modification(b, id, size, b', ack.fulfilled) && ack == Out.Ack(In.MODIFY, id, ack.fulfilled, 0, [])
  }

  /** The ack of an event tells what it has led to. */
  lemma AckTells(b: Book, e: Event)
    requires Wf(b)
    ensures var (b', resp) := Apply(b, e); Tells(b, e, b', AckOf(e.req, resp))
  {
    hide Placement, Cancellation, Modification, Place, Cancel, Modify;
    match e.req
    case New(price, volume, sell, id) =>
      PlaceIsPlacement(b, price, volume, sell, e.time, id);
      var (b', r) := Place(b, price, volume, sell, e.time, id);
      ReportsItsId(b, price, volume, sell, e.time, id, b', r);
    case CancelReq(id) => CancelIsCancellation(b, id);
    case ModifyReq(id, size) => ModifyIsModification(b, id, size);
  }

  lemma ReportsItsId(b: Book, price: int, volume: int, sell: bool, time: int, id: int, b': Book, r: OrderResult)
    requires Placement(b, price, volume, sell, time, id, b', r)
    ensures r.orderID == id
  {
  }

  /** On every book, a cancel is acked as done exactly for an id that is indexed. */
  lemma CancelAck(b: Book, id: int, time: int)
    ensures AckOf(CancelReq(id), Apply(b, Event(CancelReq(id), time)).1) ==
      Out.Ack(In.CANCEL, id, id in b.index, 0, [])
  {
  }

  /** And a modify exactly for an indexed id and a positive size below that of the order found. */
  lemma ModifyAck(b: Book, id: int, size: int, time: int)
    ensures AckOf(ModifyReq(id, size), Apply(b, Event(ModifyReq(id, size), time)).1) ==
      Out.Ack(In.MODIFY, id, id in b.index && 0 < size < VolumeOf(b.bids + b.asks, b.index[id]), 0, [])
  {
  }

  // ---------- Which acks a gateway is owed ----------

  predicate WantsAck(s: Submission, g: nat) {
    s.gid == g && !s.silent
  }

  /** `at` are the tickets below `n` of gateway `g` that want acks, in order. */
  ghost predicate TicketsOf(log: seq<Submission>, n: nat, g: nat, at: seq<nat>) {
    && n <= |log|
    && (forall k :: 0 <= k < |at| ==> at[k] < n && WantsAck(log[at[k]], g))
    && (forall k, l :: 0 <= k < l < |at| ==> at[k] < at[l])
    && (forall t: nat :: t < n && WantsAck(log[t], g) ==> t in at)
  }

  lemma OneMoreTicket(log: seq<Submission>, n: nat, g: nat, before: seq<nat>)
    requires n < |log| && TicketsOf(log, n, g, before)
    ensures TicketsOf(log, n + 1, g, if WantsAck(log[n], g) then before + [n] else before)
  {
    hide WantsAck;
    var at := if WantsAck(log[n], g) then before + [n] else before;
    forall t: nat | t < n + 1 && WantsAck(log[t], g) ensures t in at {
      if t == n { assert at[|before|] == n; }
    }
  }

  /** The acks are those for the tickets. */
  ghost predicate AcksAt(log: seq<Submission>, at: seq<nat>, acks: seq<Out.Ack>) {
    |at| == |acks| && forall k :: 0 <= k < |at| ==> at[k] < |log| && acks[k] == AckAt(log, at[k])
  }

  lemma OneMoreAck(log: seq<Submission>, at: seq<nat>, acks: seq<Out.Ack>, t: nat)
    requires AcksAt(log, at, acks) && t < |log|
    ensures AcksAt(log, at + [t], acks + [AckAt(log, t)])
  {
    hide AckAt;
  }

  lemma {:induction false} AcksAreFor(log: seq<Submission>, n: nat, g: nat) returns (at: seq<nat>)
    requires n <= |log|
    ensures TicketsOf(log, n, g, at) && AcksAt(log, at, AcksFor(log[..n], g))
  {
    hide AcksFor, AckAt, TicketsOf, AcksAt, BookAfter, Apply;
    if n == 0 {
      at := [];
      NoAcks(log, g);
    } else {
      var before := AcksAreFor(log, n - 1, g);
      OneMoreTicket(log, n - 1, g, before);
      OneMoreAck(log, before, AcksFor(log[..n - 1], g), n - 1);
      AcksGrow(log, n - 1, g);
      at := if WantsAck(log[n - 1], g) then before + [n - 1] else before;
      assert AcksFor(log[..n - 1], g) + [] == AcksFor(log[..n - 1], g);
    }
  }

  lemma {:induction false} NoAcks(log: seq<Submission>, g: nat)
    ensures TicketsOf(log, 0, g, []) && AcksAt(log, [], AcksFor(log[..0], g))
  {
    assert log[..0] == [];
  }

  /** Every step of the sequential run does to the book what its ack tells. */
  lemma {:induction false} EachStepTells(log: seq<Submission>, t: nat)
    requires t < |log|
    ensures BookAfter([]) == EMPTY
    ensures Tells(BookAfter(log[..t]), log[t].event, BookAfter(log[..t + 1]), AckAt(log, t))
  {
    RunKeepsWf(EMPTY, Events(log[..t]));
    AckTells(BookAfter(log[..t]), log[t].event);
    AcksGrow(log, t, 0);
  }

  /** From the reader's end: in every run without lapping, the acks that a gateway has read are one for each of
      its submissions that want one, in ticket order and as far as it has read; and each tells what its
      submission did to the book. */
  lemma {:induction false} ReadersAreToldTheTruth(size: nat, producers: nat, outSizes: seq<nat>, actions: seq<Action>,
                                                  g: nat) returns (at: seq<nat>)
    requires PowerOfTwo(size) && forall h :: 0 <= h < |outSizes| ==> outSizes[h] > 0 && PowerOfTwo(outSizes[h])
    requires AllAllowed(Init(size, producers, outSizes), actions) && g < |outSizes|
    ensures var s := Pipeline.Run(Init(size, producers, outSizes), actions);
      var log, acks := s.ring.log, s.outs[g].delivered;
      && s.ring.released <= |log| && TicketsOf(log, s.ring.released, g, at) && |acks| <= |at|
      && forall k :: 0 <= k < |acks| ==>
           && at[k] < |log|
           && Tells(BookAfter(log[..at[k]]), log[at[k]].event, BookAfter(log[..at[k] + 1]), acks[k])
  {
    hide AcksFor, AckAt, BookAfter, Tells, TicketsOf, AllAllowed, Wf;
    Linearised(size, producers, outSizes, actions);
    var s := Pipeline.Run(Init(size, producers, outSizes), actions);
    var log, acks := s.ring.log, s.outs[g].delivered;
    at := AcksAreFor(log, s.ring.released, g);
    forall k | 0 <= k < |acks|
      ensures Tells(BookAfter(log[..at[k]]), log[at[k]].event, BookAfter(log[..at[k] + 1]), acks[k])
    {
      EachStepTells(log, at[k]);
    }
  }
}
