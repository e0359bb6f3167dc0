/** What becomes of an outbound ring when the engine starts an ack, with and without a free slot for it. */
module Overruns {
  import opened Rings
  import opened Inbound
  import opened Outbound

  // ---------- Sending ----------

  /** All the engine does for an ack, looking at nothing. */
  function SendMoves(a: Ack): seq<Move> {
    [Stamp(a.op), Begin(a)] + seq(5 + |a.fills|, _ => Write) + [PublishAck, AdvanceOut]
  }

  /** From `q` the engine has made `k` stores of the ack since its stamp. */
  ghost predicate IsSending(r: Ring, q: Ring, a: Ack, k: nat) {
    && |r.slots| == |q.slots| > 0 && |a.fills| <= MAX_FILLS && r == q.(writer := Writing(a, k), slots := r.slots)
    && WrittenTo(AckIn(r.slots, q.wp), a, q.gid, k)
    && r.slots == PutIn(q.slots, q.wp, AckIn(r.slots, q.wp))
  }

  /** From `q` the engine has sent the ack: it is in the slot, and the other slots are as they were. */
  ghost predicate HasSent(r: Ring, q: Ring, a: Ack) {
    && |r.slots| == |q.slots| > 0
    && var e := AckIn(r.slots, q.wp);
       && r == q.(wp := q.wp + 1, sent := q.sent + [a], slots := PutIn(q.slots, q.wp, e))
       && Sized(e) && e.ready && View(e) == a
  }

  lemma {:induction false} StartsSending(r: Ring, moves: seq<Move>, q: Ring, a: Ack)
    requires r.slots != [] && MovedAll(r, moves) == q && q.writer.Resting? && Sized(AckIn(q.slots, q.wp))
    requires |a.fills| <= MAX_FILLS
    ensures var longer := moves + [Stamp(a.op)] + [Begin(a)];
      && IsSending(MovedAll(r, longer), q, a, 0)
      && (NoOverruns(r, longer) <==> NoOverruns(r, moves) && NoOverrun(q, Stamp(a.op)))
  {
    MovedOne(r, moves, Stamp(a.op));
    var q1 := MovedAll(r, moves + [Stamp(a.op)]);
    assert q1 == q.(slots := PutIn(q.slots, q.wp, AckIn(q.slots, q.wp).(op := a.op)), writer := Stamped(a.op));
    MovedOne(r, moves + [Stamp(a.op)], Begin(a));
  }

  lemma {:induction false} GoesOnSending(r: Ring, moves: seq<Move>, q: Ring, a: Ack, k: nat)
    requires r.slots != [] && k < 5 + |a.fills| && IsSending(MovedAll(r, moves), q, a, k)
    ensures IsSending(MovedAll(r, moves + [Write]), q, a, k + 1)
    ensures NoOverruns(r, moves + [Write]) <==> NoOverruns(r, moves)
  {
    MovedOne(r, moves, Write);
    WriteExtends(AckIn(MovedAll(r, moves).slots, q.wp), a, q.gid, k);
  }

  lemma {:induction false} EndsSending(r: Ring, moves: seq<Move>, q: Ring, a: Ack)
    requires r.slots != [] && q.writer.Resting? && IsSending(MovedAll(r, moves), q, a, 5 + |a.fills|)
    ensures HasSent(MovedAll(r, moves + [PublishAck] + [AdvanceOut]), q, a)
    ensures NoOverruns(r, moves + [PublishAck] + [AdvanceOut]) <==> NoOverruns(r, moves)
  {
    var q' := MovedAll(r, moves);
    var e := AckIn(q'.slots, q.wp).(ready := true);
    WrittenShows(e, a, q.gid);
    MovedOne(r, moves, PublishAck);
    assert MovedAll(r, moves + [PublishAck]) ==
      q.(slots := PutIn(q.slots, q.wp, e), writer := Published, sent := q.sent + [a]);
    MovedOne(r, moves + [PublishAck], AdvanceOut);
  }

  lemma {:induction false} Sends(r: Ring, moves: seq<Move>, q: Ring, a: Ack)
    requires r.slots != [] && MovedAll(r, moves) == q && q.writer.Resting? && Sized(AckIn(q.slots, q.wp))
    requires |a.fills| <= MAX_FILLS
    ensures HasSent(MovedAll(r, moves + SendMoves(a)), q, a)
    ensures NoOverruns(r, moves + SendMoves(a)) <==> NoOverruns(r, moves) && NoOverrun(q, Stamp(a.op))
  {
    hide MovedAll, NoOverruns, IsSending, HasSent;
    StartsSending(r, moves, q, a);
    var start := moves + [Stamp(a.op)] + [Begin(a)];
    var m, k := start, 0;
    while k < 5 + |a.fills|
      invariant k <= 5 + |a.fills| && m == start + seq(k, _ => Write) && IsSending(MovedAll(r, m), q, a, k)
      invariant NoOverruns(r, m) <==> NoOverruns(r, moves) && NoOverrun(q, Stamp(a.op))
    {
      GoesOnSending(r, m, q, a, k);
      m, k := m + [Write], k + 1;
    }
    EndsSending(r, m, q, a);
    assert m + [PublishAck] + [AdvanceOut] == moves + SendMoves(a);
  }

  function Sent(r: Ring, a: Ack): (r': Ring)
    requires r.slots != []
    ensures |r'.slots| == |r.slots|
  {
    MovedAll(r, SendMoves(a))
  }

  /** Sending onto a free slot keeps the invariant. */
  lemma SentIs(r: Ring, a: Ack)
    requires RingInv(r) && r.writer.Resting? && |a.fills| <= MAX_FILLS
    ensures HasSent(Sent(r, a), r, a)
    ensures NoOverrun(r, Stamp(a.op)) ==> RingInv(Sent(r, a))
  {
    assert MovedAll(r, []) == r && NoOverruns(r, []);
    Sends(r, [], r, a);
    assert [] + SendMoves(a) == SendMoves(a);
    if NoOverrun(r, Stamp(a.op)) { MovesKeep(r, SendMoves(a)); }
  }

  // ---------- Reading ----------

  /** The ring after `n` moves of its reader. */
  function Reads(r: Ring, n: nat): (r': Ring)
    requires r.slots != []
    ensures |r'.slots| == |r.slots| && r'.sent == r.sent && r'.wp == r.wp && r'.writer == r.writer
    decreases n
  {
    if n == 0 then r else Reads(ReaderMoved(r), n - 1)
  }

  lemma {:induction false} ReadsKeep(r: Ring, n: nat)
    requires RingInv(r)
    ensures RingInv(Reads(r, n))
    decreases n
  {
    assert r.slots != [];
    hide RingInv, ReaderMoved, Moved;
    if n > 0 {
      ReadIs(r);
      MoveKeeps(r, Read);
      ReadsKeep(ReaderMoved(r), n - 1);
    }
  }

  /** How far the reader is from the end of its round. */
  function Rank(p: Reader): nat {
    match p
    case AtBump => 40
    case AtPoll => 39
    case AtFill(i) => if i <= MAX_FILLS then 38 - i else 21
    case AtField(k) => if k <= 5 then 20 - k else 2
    case AtRelease => 1
  }

  /** The reader has found nothing to read. */
  predicate Waiting(r: Ring)
    requires r.slots != []
  {
    r.reader.AtPoll? && !AckIn(r.slots, r.rp).ready
  }

  /** A reader that goes on reading comes to wait, and has then read all that was sent. */
  lemma {:induction false} Drains(r: Ring) returns (n: nat)
    requires RingInv(r)
    ensures RingInv(Reads(r, n)) && Waiting(Reads(r, n)) && Reads(r, n).delivered == r.sent
    decreases |r.sent| - r.released, Rank(r.reader)
  {
    if Waiting(r) {
      n := 0;
      assert r.delivered == r.sent[..|r.sent|];
    } else {
      hide RingInv, ReaderMoved, Moved;
      ReadIs(r);
      MoveKeeps(r, Read);
      ReadingGoesOn(r);
      var m := Drains(ReaderMoved(r));
      n := m + 1;
    }
  }

  lemma ReadingGoesOn(r: Ring)
    requires RingInv(r) && !Waiting(r)
    ensures var r' := ReaderMoved(r);
      (r'.released == r.released && Rank(r'.reader) < Rank(r.reader)) || r'.released == r.released + 1 <= |r.sent|
  {
    if r.reader.AtFill? { assert View(AckIn(r.slots, r.rp)) == r.sent[r.rp]; }
  }

  // ---------- When the slot is free ----------

  /** What has been read is what was sent, as far as it goes; and a reader that waits has read everything. */
  ghost predicate Faithful(r: Ring)
    requires r.slots != []
  {
    r.delivered <= r.sent && (Waiting(r) && r.writer.Resting? ==> r.delivered == r.sent)
  }

  lemma InvIsFaithful(r: Ring)
    requires RingInv(r)
    ensures Faithful(r)
  {
    if Waiting(r) {
      assert r.delivered == r.sent[..|r.sent|];
    }
  }

  /** No ack but the first is started. */
  predicate NoStamps(moves: seq<Move>) {
    forall i :: 0 <= i < |moves| ==> !moves[i].Stamp?
  }

  /** The ring after the engine has started an ack and then goes on, in any mix with its reader. */
  function AfterStart(r: Ring, op: Op, moves: seq<Move>): Ring
    requires r.slots != []
  {
    MovedAll(r, [Stamp(op)] + moves)
  }

  lemma {:induction false} OnlyTheStartCounts(r: Ring, op: Op, moves: seq<Move>)
    requires r.slots != [] && NoStamps(moves)
    ensures NoOverruns(r, [Stamp(op)] + moves) <==> NoOverrun(r, Stamp(op))
  {
    hide Moved;
    if moves == [] {
      assert NoOverruns(r, []) && MovedAll(r, []) == r && [] + [Stamp(op)] == [Stamp(op)] + moves;
      MovedOne(r, [], Stamp(op));
    } else {
      var front, last := moves[..|moves| - 1], moves[|moves| - 1];
      OnlyTheStartCounts(r, op, front);
      MovedOne(r, [Stamp(op)] + front, last);
      assert [Stamp(op)] + front + [last] == [Stamp(op)] + moves;
    }
  }

  lemma FreeIsHarmless(r: Ring, op: Op, moves: seq<Move>)
    requires RingInv(r) && NoOverrun(r, Stamp(op)) && NoStamps(moves)
    ensures Faithful(AfterStart(r, op, moves))
  {
    OnlyTheStartCounts(r, op, moves);
    MovesKeep(r, [Stamp(op)] + moves);
    InvIsFaithful(AfterStart(r, op, moves));
  }

  // ---------- When it is not ----------

  /** The reader has not yet copied the op of the oldest ack that it has not released. */
  predicate BeforeOp(p: Reader) {
    p.AtBump? || p.AtPoll? || (p.AtFill? && p.i <= MAX_FILLS) || (p.AtField? && p.k <= 4)
  }

  /** The reader is on its way to deliver an ack with this op, taken from the slot it is at. */
  ghost predicate Fooled(r: Ring, op: Op) {
    && r.slots != [] && Sized(r.got)
    && var e := AckIn(r.slots, if r.reader.AtBump? then r.rp + 1 else r.rp);
       && Sized(e) && e.ready && e.op == op
       && (BeforeOp(r.reader) || (r.got.op == op && (r.reader == AtField(5) || r.reader.AtRelease?)))
  }

  lemma {:induction false} FooledDelivers(r: Ring, op: Op) returns (n: nat, v: Ack)
    requires Fooled(r, op)
    ensures v.op == op && Reads(r, n).delivered == r.delivered + [v]
    decreases Rank(r.reader)
  {
    var r' := ReaderMoved(r);
    if r.reader.AtRelease? {
      n, v := 1, View(r.got);
      assert Reads(r, 1) == Reads(r', 0);
    } else {
      FooledGoesOn(r, op);
      var m;
      m, v := FooledDelivers(r', op);
      n := m + 1;
    }
  }

  lemma FooledGoesOn(r: Ring, op: Op)
    requires Fooled(r, op) && !r.reader.AtRelease?
    ensures var r' := ReaderMoved(r); Fooled(r', op) && Rank(r'.reader) < Rank(r.reader) && r'.delivered == r.delivered
  {
  }

  /** An ack with another op than the oldest unread one, written over it before its op is copied, is at least
      in part delivered in its place. */
  lemma EarlyOverrun(r: Ring, a: Ack) returns (n: nat)
    requires RingInv(r) && r.writer.Resting? && r.wp == r.released + |r.slots| && BeforeOp(r.reader)
    requires a.fills == [] && a.op != r.sent[r.released].op
    ensures var r' := Reads(Sent(r, a), n); !(r'.delivered <= r'.sent)
  {
    SentIs(r, a);
    SlotWraps(r.released, |r.slots|);
    var v;
    n, v := FooledDelivers(Sent(r, a), a.op);
    var r' := Reads(Sent(r, a), n);
    assert r'.delivered[r.released] == v && r'.sent[r.released] == r.sent[r.released];
  }

  /** The reader does not look at how much has been sent. */
  lemma {:induction false} ReadsIgnoreSent(r: Ring, sent: seq<Ack>, wp: nat, n: nat)
    requires r.slots != []
    ensures Reads(r.(sent := sent, wp := wp), n) == Reads(r, n).(sent := sent, wp := wp)
    decreases n
  {
    if n > 0 {
      assert ReaderMoved(r.(sent := sent, wp := wp)) == ReaderMoved(r).(sent := sent, wp := wp);
      ReadsIgnoreSent(ReaderMoved(r), sent, wp, n - 1);
    }
  }

  /** The reader has its ack and is about to release the slot, which the engine has written meanwhile: the
      release takes the new ack away, as if it had never been sent. */
  lemma ReleaseTakesAway(r: Ring, r': Ring, a: Ack)
    requires RingInv(r) && r.writer.Resting? && r.wp == r.released + |r.slots| && r.reader.AtRelease?
    requires HasSent(r', r, a)
    ensures var x := ReaderMoved(r'); x.sent == r.sent + [a] && RingInv(x.(sent := r.sent, wp := r.wp))
  {
    var size := |r.slots|;
    SlotWraps(r.released, size);
    var x := ReaderMoved(r');
    var e := AckIn(x.slots, r.wp);
    hide Moved;
    assert x.slots == PutIn(r.slots, r.wp, e) && !e.ready && Sized(e);
    PutAckInWindow(r.slots, r.released + 1, r.wp, e);
    assert r.sent[..r.released + 1] == r.sent[..r.released] + [r.sent[r.released]];
    assert View(r.got) == r.sent[r.released];
  }

  lemma LateOverrun(r: Ring, r': Ring, a: Ack) returns (n: nat)
    requires RingInv(r) && r.writer.Resting? && r.wp == r.released + |r.slots| && r.reader.AtRelease?
    requires HasSent(r', r, a)
    ensures !Faithful(Reads(r', n))
  {
    hide RingInv, ReaderMoved;
    ReleaseTakesAway(r, r', a);
    var x := ReaderMoved(r');
    var m := Drains(x.(sent := r.sent, wp := r.wp));
    ReadsIgnoreSent(x, r.sent, r.wp, m);
    n := m + 1;
    assert |Reads(r', n).delivered| < |Reads(r', n).sent|;
  }

  lemma LastFieldOverrun(r: Ring, r': Ring, a: Ack) returns (n: nat)
    requires RingInv(r) && r.writer.Resting? && r.wp == r.released + |r.slots| && r.reader == AtField(5)
    requires HasSent(r', r, a)
    ensures !Faithful(Reads(r', n))
  {
    var q := r.(reader := AtRelease);
    ReadIs(r);
    MoveKeeps(r, Read);
    assert ReaderMoved(r) == q;
    var m := LateOverrun(q, ReaderMoved(r'), a);
    n := m + 1;
  }

  /** An ack with nothing in it. */
  function Plain(op: Op): Ack {
    Ack(op, 0, false, 0, [])
  }

  /** Wherever the reader is, an ack sent over an unread one can be noticed: the reader gets something that was
      never sent, or waits with an ack missing. */
  lemma OverrunHarms(r: Ring) returns (a: Ack, n: nat)
    requires RingInv(r) && r.writer.Resting? && r.wp == r.released + |r.slots|
    ensures a == Plain(a.op) && !Faithful(Reads(Sent(r, a), n))
  {
    var old_op := r.sent[r.released].op;
    a := Plain(if old_op == NEW then CANCEL else NEW);
    if BeforeOp(r.reader) {
      n := EarlyOverrun(r, a);
    } else {
      SentIs(r, a);
      if r.reader.AtRelease? {
        n := LateOverrun(r, Sent(r, a), a);
      } else {
        n := LastFieldOverrun(r, Sent(r, a), a);
      }
    }
  }

  lemma {:induction false} ThenReads(r: Ring, moves: seq<Move>, n: nat)
    requires r.slots != []
    ensures MovedAll(r, moves + seq(n, _ => Read)) == Reads(MovedAll(r, moves), n)
    decreases n
  {
    if n == 0 {
      assert moves + seq(0, _ => Read) == moves;
    } else {
      MovedOne(r, moves, Read);
      ReadIs(MovedAll(r, moves));
      ThenReads(r, moves + [Read], n - 1);
      assert moves + [Read] + seq(n - 1, _ => Read) == moves + seq(n, _ => Read);
    }
  }

  lemma OverrunIsARun(r: Ring) returns (op: Op, moves: seq<Move>)
    requires RingInv(r) && r.writer.Resting? && r.wp == r.released + |r.slots|
    ensures NoStamps(moves) && !Faithful(AfterStart(r, op, moves))
  {
    var a, n := OverrunHarms(r);
    op := a.op;
    ThenReads(r, SendMoves(a), n);
    moves := SendMoves(a)[1..] + seq(n, _ => Read);
    assert [Stamp(op)] + moves == SendMoves(a) + seq(n, _ => Read);
  }

  /** The hypothesis is the exact condition, wherever the reader is: an ack may be started with nothing lost,
      torn or repeated, however the engine and the reader go on, if and only if its slot is free. */
  lemma {:induction false} SendingIsSafeIff(r: Ring)
    requires RingInv(r) && r.writer.Resting?
    ensures (forall op, moves :: NoStamps(moves) ==> Faithful(AfterStart(r, op, moves)))
      <==> !AckIn(r.slots, r.wp).ready
  {
    NoOverrunIffFree(r, CANCEL);
    if AckIn(r.slots, r.wp).ready {
      var op, moves := OverrunIsARun(r);
      assert !Faithful(AfterStart(r, op, moves));
    } else {
      forall op, moves | NoStamps(moves) ensures Faithful(AfterStart(r, op, moves)) {
        FreeIsHarmless(r, op, moves);
      }
    }
  }

  /** The engine fills a new ring while nobody reads. */
  lemma FillsUp(gid: nat, size: nat) returns (moves: seq<Move>)
    requires PowerOfTwo(size)
    ensures var q := MovedAll(NewRing(gid, size), moves);
      RingInv(q) && q.writer.Resting? && q.reader.AtPoll? && q.released == 0 && q.wp == |q.slots|
  {
    var r := NewRing(gid, size);
    NewRingHolds(gid, size);
    moves := [];
    assert MovedAll(r, []) == r && NoOverruns(r, []);
    var a, k := Plain(NEW), 0;
    while k < size
      invariant k <= size && NoOverruns(r, moves) && RingInv(MovedAll(r, moves))
      invariant var q := MovedAll(r, moves);
        q.writer.Resting? && q.reader.AtPoll? && q.released == 0 && q.wp == k && |q.slots| == size
    {
      Sends(r, moves, MovedAll(r, moves), a);
      moves, k := moves + SendMoves(a), k + 1;
      MovesKeep(r, moves);
    }
  }

  /** Whatever the size of the ring, the engine can lose acks by not looking: there is a run after which the
      acks read are no prefix of the acks sent. */
  lemma EveryRingCanLoseAcks(gid: nat, size: nat) returns (moves: seq<Move>)
    requires PowerOfTwo(size)
    ensures !NoOverruns(NewRing(gid, size), moves)
    ensures var r := MovedAll(NewRing(gid, size), moves); !(r.delivered <= r.sent)
  {
    var r := NewRing(gid, size);
    var filling := FillsUp(gid, size);
    var q := MovedAll(r, filling);
    var a := Plain(if q.sent[0].op == NEW then CANCEL else NEW);
    var n := EarlyOverrun(q, a);
    ThenReads(q, SendMoves(a), n);
    moves := filling + (SendMoves(a) + seq(n, _ => Read));
    InTwoParts(r, filling, SendMoves(a) + seq(n, _ => Read));
    if NoOverruns(r, moves) {
      DeliveryIsExact(gid, size, moves);
    }
  }

  lemma {:induction false} InTwoParts(r: Ring, first: seq<Move>, rest: seq<Move>)
    requires r.slots != []
    ensures MovedAll(r, first + rest) == MovedAll(MovedAll(r, first), rest)
  {
    hide Moved, NoOverruns, NoOverrun;
    if rest == [] {
      assert first + rest == first;
    } else {
      var front := rest[..|rest| - 1];
      InTwoParts(r, first, front);
      MovedOne(r, first + front, rest[|rest| - 1]);
      assert first + front + [rest[|rest| - 1]] == first + rest;
    }
  }
}
