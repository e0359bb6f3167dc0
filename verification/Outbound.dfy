/**
 One outbound ring as a state machine: the engine writes acks into it field by field, and the gateway's
 only reader polls, copies them out field by field and releases the slots.  The engine never looks
 whether a slot is free.
 */
module Outbound {
  import opened Book
  import opened Rings
  import opened Inbound

  const MAX_FILLS := 16

  /** An ack as the reader gets it. */
  datatype Ack = Ack(op: Op, order_id: int, fulfilled: bool, remaining_qty: int, fills: seq<Fill>)

  /** A slot, or the reader's own variables; `fills` beyond `fill_count` is left over from earlier acks. */
  datatype AckEntry = AckEntry(op: Op, order_id: int, gateway_id: nat, fulfilled: bool, remaining_qty: int,
                               fills: seq<Fill>, fill_count: nat, ready: bool)

  const BLANK_ACK :=
    AckEntry(NEW, 0, 0, false, 0, seq(MAX_FILLS, _ => Fill(0, 0, 0)), 0, false)

  ghost predicate Sized(e: AckEntry) {
    |e.fills| == MAX_FILLS && e.fill_count <= MAX_FILLS
  }

  function View(e: AckEntry): Ack
    requires e.fill_count <= |e.fills|
  {
    Ack(e.op, e.order_id, e.fulfilled, e.remaining_qty, e.fills[..e.fill_count])
  }

  /** After the op has been stamped: five fields, then the fills one by one. */
  function WriteField(e: AckEntry, a: Ack, gid: nat, k: nat): AckEntry
    requires k < 5 + |a.fills| && |a.fills| <= |e.fills|
  {
    match k
    case 0 => e.(order_id := a.order_id)
    case 1 => e.(gateway_id := gid)
    case 2 => e.(fulfilled := a.fulfilled)
    case 3 => e.(remaining_qty := a.remaining_qty)
    case 4 => e.(fill_count := |a.fills|)
    case _ => e.(fills := e.fills[k - 5 := a.fills[k - 5]])
  }

  ghost predicate WrittenTo(e: AckEntry, a: Ack, gid: nat, k: nat) {
    && Sized(e) && |a.fills| <= MAX_FILLS && k <= 5 + |a.fills| && e.op == a.op
    && (k > 0 ==> e.order_id == a.order_id) && (k > 1 ==> e.gateway_id == gid)
    && (k > 2 ==> e.fulfilled == a.fulfilled) && (k > 3 ==> e.remaining_qty == a.remaining_qty)
    && (k > 4 ==> e.fill_count == |a.fills|)
    && forall i :: 0 <= i < k - 5 ==> e.fills[i] == a.fills[i]
  }

  lemma WriteExtends(e: AckEntry, a: Ack, gid: nat, k: nat)
    requires WrittenTo(e, a, gid, k) && k < 5 + |a.fills|
    ensures WrittenTo(WriteField(e, a, gid, k), a, gid, k + 1) && WriteField(e, a, gid, k).ready == e.ready
  {
  }

  lemma WrittenShows(e: AckEntry, a: Ack, gid: nat)
    requires WrittenTo(e, a, gid, 5 + |a.fills|)
    ensures View(e) == a && e.gateway_id == gid
  {
  }

  /** The reader copies the fills, then fill count, order id, fulfilled, remaining quantity and op. */
  function ReadField(got: AckEntry, e: AckEntry, k: nat): AckEntry {
    match k
    case 0 => got.(fill_count := e.fill_count)
    case 1 => got.(order_id := e.order_id)
    case 2 => got.(fulfilled := e.fulfilled)
    case 3 => got.(remaining_qty := e.remaining_qty)
    case _ => got.(op := e.op)
  }

  ghost predicate ReadTo(got: AckEntry, a: Ack, k: nat) {
    && k <= 5 && Sized(got) && |a.fills| <= MAX_FILLS && got.fills[..|a.fills|] == a.fills
    && (k > 0 ==> got.fill_count == |a.fills|) && (k > 1 ==> got.order_id == a.order_id)
    && (k > 2 ==> got.fulfilled == a.fulfilled) && (k > 3 ==> got.remaining_qty == a.remaining_qty)
    && (k > 4 ==> got.op == a.op)
  }

  datatype Writer =
    | Resting
    | Stamped(op: Op)
    | Writing(ack: Ack, written: nat)
    | Published

  datatype Reader = AtPoll | AtFill(i: nat) | AtField(k: nat) | AtRelease | AtBump

  /** `sent`, `released` and `delivered` are history: the acks published, how many slots the reader has
      released, and the acks it has read. */
  datatype Ring = Ring(gid: nat, slots: seq<AckEntry>, wp: nat, writer: Writer, rp: nat, reader: Reader, got: AckEntry,
                       sent: seq<Ack>, released: nat, delivered: seq<Ack>)

  function NewRing(gid: nat, size: nat): Ring {
    Ring(gid, seq(size, _ => BLANK_ACK), 0, Resting, 0, AtPoll, BLANK_ACK, [], 0, [])
  }

  datatype Move = Stamp(op: Op) | Begin(ack: Ack) | Write | PublishAck | AdvanceOut | Read

  function AckIn(slots: seq<AckEntry>, t: nat): AckEntry
    requires slots != []
  {
    slots[Slot(t, |slots|)]
  }

  function PutIn(slots: seq<AckEntry>, t: nat, e: AckEntry): seq<AckEntry>
    requires slots != []
  {
    slots[Slot(t, |slots|) := e]
  }

  function Moved(r: Ring, m: Move): (r': Ring)
    requires r.slots != []
    ensures |r'.slots| == |r.slots| && r'.gid == r.gid
  {
    match (r.writer, m)
    case (Resting, Stamp(op)) =>
      r.(slots := PutIn(r.slots, r.wp, AckIn(r.slots, r.wp).(op := op)), writer := Stamped(op))
    case (Stamped(op), Begin(ack)) =>
      if ack.op == op && |ack.fills| <= MAX_FILLS then r.(writer := Writing(ack, 0)) else r
    case (Writing(ack, k), Write) =>
      if k < 5 + |ack.fills| && |ack.fills| <= |AckIn(r.slots, r.wp).fills| then
        r.(slots := PutIn(r.slots, r.wp, WriteField(AckIn(r.slots, r.wp), ack, r.gid, k)),
           writer := Writing(ack, k + 1))
      else r
    case (Writing(ack, k), PublishAck) =>
      if k == 5 + |ack.fills| then
        r.(slots := PutIn(r.slots, r.wp, AckIn(r.slots, r.wp).(ready := true)),
           writer := Published, sent := r.sent + [ack])
      else r
    case (Published, AdvanceOut) => r.(writer := Resting, wp := r.wp + 1)
    case (_, Read) => ReaderMoved(r)
    case _ => r
  }

  function ReaderMoved(r: Ring): (r': Ring)
    requires r.slots != []
    ensures |r'.slots| == |r.slots| && r'.gid == r.gid
    ensures r'.writer == r.writer && r'.wp == r.wp && r'.sent == r.sent
  {
    var e := AckIn(r.slots, r.rp);
    match r.reader
    case AtPoll => if e.ready then r.(reader := AtFill(0)) else r
    case AtFill(i) =>
      if i < e.fill_count && i < |e.fills| && i < |r.got.fills| then
        r.(got := r.got.(fills := r.got.fills[i := e.fills[i]]), reader := AtFill(i + 1))
      else
        r.(reader := AtField(0))
    case AtField(k) =>
      if k < 5 then r.(got := ReadField(r.got, e, k), reader := AtField(k + 1)) else r.(reader := AtRelease)
    case AtRelease =>
      r.(slots := PutIn(r.slots, r.rp, e.(ready := false)), reader := AtBump, released := r.released + 1,
          delivered := r.delivered + if r.got.fill_count <= |r.got.fills| then [View(r.got)] else [])
    case AtBump => r.(reader := AtPoll, rp := r.rp + 1)
  }

  lemma ReadIs(r: Ring)
    requires r.slots != []
    ensures Moved(r, Read) == ReaderMoved(r)
  {
  }

  /** Only the reader adds to what has been delivered, one ack at a time. */
  lemma DeliversOne(r: Ring, m: Move)
    requires r.slots != []
    ensures var d, d' := r.delivered, Moved(r, m).delivered;
      d' == d || (m.Read? && |d'| == |d| + 1 && d' == d + [d'[|d|]])
  {
  }

  // ---------- What holds in every state ----------

  ghost predicate AcksCounted(r: Ring) {
    && r.released <= |r.sent| <= r.released + |r.slots|
    && |r.sent| == (if r.writer.Published? then r.wp + 1 else r.wp)
    && (r.writer.Stamped? || r.writer.Writing? ==> r.wp < r.released + |r.slots|)
  }

  ghost predicate AcksHold(r: Ring)
    requires r.slots != []
  {
    && (forall i :: 0 <= i < |r.slots| ==> Sized(r.slots[i]))
    && (forall q: nat :: r.released <= q < r.released + |r.slots| ==> (AckIn(r.slots, q).ready <==> q < |r.sent|))
    && (forall q: nat :: r.released <= q < |r.sent| ==>
          View(AckIn(r.slots, q)) == r.sent[q] && AckIn(r.slots, q).gateway_id == r.gid)
  }

  ghost predicate WriterHolds(r: Ring)
    requires r.slots != []
  {
    match r.writer
    case Stamped(op) => AckIn(r.slots, r.wp).op == op
    case Writing(ack, k) => WrittenTo(AckIn(r.slots, r.wp), ack, r.gid, k)
    case _ => true
  }

  ghost predicate ReaderHolds(r: Ring) {
    && Sized(r.got) && r.released <= |r.sent| && r.delivered == r.sent[..r.released]
    && r.rp + (if r.reader.AtBump? then 1 else 0) == r.released
    && (r.reader.AtFill? || r.reader.AtField? || r.reader.AtRelease? ==> r.rp < |r.sent|)
    && match r.reader
       case AtFill(i) => i <= |r.sent[r.rp].fills| <= MAX_FILLS && r.got.fills[..i] == r.sent[r.rp].fills[..i]
       case AtField(k) => ReadTo(r.got, r.sent[r.rp], k)
       case AtRelease => ReadTo(r.got, r.sent[r.rp], 5)
       case _ => true
  }

  ghost predicate RingInv(r: Ring) {
    PowerOfTwo(|r.slots|) && AcksCounted(r) && AcksHold(r) && WriterHolds(r) && ReaderHolds(r)
  }

  /** The no-lap hypothesis: the engine starts an ack only when the ack one lap before has been released. */
  ghost predicate NoOverrun(r: Ring, m: Move) {
    m.Stamp? && r.writer.Resting? ==> r.wp < r.released + |r.slots|
  }

  lemma {:induction false} NewRingHolds(gid: nat, size: nat)
    requires PowerOfTwo(size)
    ensures RingInv(NewRing(gid, size))
  {
  }

  lemma {:induction false} PutAckInWindow(slots: seq<AckEntry>, from: nat, t: nat, e: AckEntry)
    requires slots != [] && PowerOfTwo(|slots|) && from <= t < from + |slots|
    ensures forall q: nat :: from <= q < from + |slots| ==>
      AckIn(PutIn(slots, t, e), q) == if q == t then e else AckIn(slots, q)
  {
    forall q: nat | from <= q < from + |slots|
      ensures AckIn(PutIn(slots, t, e), q) == if q == t then e else AckIn(slots, q)
    {
      SlotsApart(t, q, |slots|);
    }
  }

  lemma StampKeeps(r: Ring, op: Op)
    requires RingInv(r) && r.writer.Resting? && NoOverrun(r, Stamp(op))
    ensures RingInv(Moved(r, Stamp(op)))
  {
    PutAckInWindow(r.slots, r.released, r.wp, AckIn(r.slots, r.wp).(op := op));
  }

  lemma WriteKeeps(r: Ring)
    requires RingInv(r) && r.writer.Writing? && r.writer.written < 5 + |r.writer.ack.fills|
    ensures RingInv(Moved(r, Write))
  {
    var a, k := r.writer.ack, r.writer.written;
    WriteExtends(AckIn(r.slots, r.wp), a, r.gid, k);
    PutAckInWindow(r.slots, r.released, r.wp, WriteField(AckIn(r.slots, r.wp), a, r.gid, k));
  }

  lemma PublishAckKeeps(r: Ring)
    requires RingInv(r) && r.writer.Writing? && r.writer.written == 5 + |r.writer.ack.fills|
    ensures RingInv(Moved(r, PublishAck))
    ensures Moved(r, PublishAck).sent == r.sent + [r.writer.ack] && Moved(r, PublishAck).writer == Published
  {
    var a, e := r.writer.ack, AckIn(r.slots, r.wp).(ready := true);
    WrittenShows(e, a, r.gid);
    PutAckInWindow(r.slots, r.released, r.wp, e);
    var r' := Moved(r, PublishAck);
    assert r'.sent[..r.released] == r.sent[..r.released];
    assert r.rp < |r.sent| ==> r'.sent[r.rp] == r.sent[r.rp];
  }

  /** A slot that the reader is copying cannot change under it. */
  lemma CopyKeeps(r: Ring)
    requires RingInv(r) && (r.reader.AtPoll? || r.reader.AtFill? || r.reader.AtField?)
    ensures RingInv(ReaderMoved(r))
  {
    var r' := ReaderMoved(r);
    if !r.reader.AtPoll? {
      assert View(AckIn(r.slots, r.rp)) == r.sent[r.rp];
    }
    if r.reader.AtFill? && r.reader.i < |r.sent[r.rp].fills| {
      var i := r.reader.i;
      assert r'.got.fills[..i + 1] == r.got.fills[..i] + [r.sent[r.rp].fills[i]];
      assert r.sent[r.rp].fills[..i + 1] == r.sent[r.rp].fills[..i] + [r.sent[r.rp].fills[i]];
    }
    if r.reader.AtFill? && r.reader.i == |r.sent[r.rp].fills| {
      assert r.sent[r.rp].fills[..r.reader.i] == r.sent[r.rp].fills;
    }
  }

  lemma AckReleaseKeeps(r: Ring)
    requires RingInv(r) && r.reader.AtRelease?
    ensures RingInv(ReaderMoved(r))
  {
    var t, size := r.released, |r.slots|;
    PutAckInWindow(r.slots, t, t, AckIn(r.slots, t).(ready := false));
    SlotWraps(t, size);
    assert View(r.got) == r.sent[t];
    assert r.sent[..t + 1] == r.sent[..t] + [r.sent[t]];
  }

  lemma MoveKeeps(r: Ring, m: Move)
    requires RingInv(r) && NoOverrun(r, m)
    ensures RingInv(Moved(r, m))
  {
    if m.Read? {
      if r.reader.AtRelease? { AckReleaseKeeps(r); }
      else if !r.reader.AtBump? { CopyKeeps(r); }
    } else if m.Stamp? && r.writer.Resting? {
      StampKeeps(r, m.op);
    } else if m.Write? && r.writer.Writing? && r.writer.written < 5 + |r.writer.ack.fills| {
      WriteKeeps(r);
    } else if m.PublishAck? && r.writer.Writing? && r.writer.written == 5 + |r.writer.ack.fills| {
      PublishAckKeeps(r);
    }
  }

  lemma DeliveredWasSent(r: Ring)
    requires RingInv(r)
    ensures r.delivered <= r.sent
  {
  }

  // ---------- Whole runs of one ring ----------

  function MovedAll(r: Ring, moves: seq<Move>): (r': Ring)
    requires r.slots != []
    ensures |r'.slots| == |r.slots|
  {
    if moves == [] then r else Moved(MovedAll(r, moves[..|moves| - 1]), moves[|moves| - 1])
  }

  ghost predicate NoOverruns(r: Ring, moves: seq<Move>)
    requires r.slots != []
  {
    moves != [] ==>
      && NoOverruns(r, moves[..|moves| - 1])
      && NoOverrun(MovedAll(r, moves[..|moves| - 1]), moves[|moves| - 1])
  }

  /** Every ack is read once, in order and whole, however the writer's stores and the reader's loads mix. */
  lemma {:induction false} DeliveryIsExact(gid: nat, size: nat, moves: seq<Move>)
    requires PowerOfTwo(size) && NoOverruns(NewRing(gid, size), moves)
    ensures var r := MovedAll(NewRing(gid, size), moves);
      RingInv(r) && r.released <= |r.sent| && r.delivered == r.sent[..r.released] && r.delivered <= r.sent
  {
    if moves == [] {
      NewRingHolds(gid, size);
    } else {
      DeliveryIsExact(gid, size, moves[..|moves| - 1]);
      MoveKeeps(MovedAll(NewRing(gid, size), moves[..|moves| - 1]), moves[|moves| - 1]);
    }
  }

  // ---------- Exactly when the engine may start an ack ----------

  /** The hypothesis in terms the engine could look at: the slot it is about to write is not ready. */
  lemma NoOverrunIffFree(r: Ring, op: Op)
    requires RingInv(r) && r.writer.Resting?
    ensures NoOverrun(r, Stamp(op)) <==> !AckIn(r.slots, r.wp).ready
  {
    SlotWraps(r.released, |r.slots|);
    assert AckIn(r.slots, r.released).ready <==> r.released < |r.sent|;
    assert r.wp < r.released + |r.slots| ==> !AckIn(r.slots, r.wp).ready;
  }

  lemma {:induction false} MovedOne(r: Ring, moves: seq<Move>, m: Move)
    requires r.slots != []
    ensures MovedAll(r, moves + [m]) == Moved(MovedAll(r, moves), m)
    ensures NoOverruns(r, moves + [m]) <==> NoOverruns(r, moves) && NoOverrun(MovedAll(r, moves), m)
  {
    assert (moves + [m])[..|moves|] == moves;
  }

  lemma {:induction false} MovesKeep(r: Ring, moves: seq<Move>)
    requires RingInv(r) && NoOverruns(r, moves)
    ensures RingInv(MovedAll(r, moves))
  {
    if moves != [] {
      MovesKeep(r, moves[..|moves| - 1]);
      MoveKeeps(MovedAll(r, moves[..|moves| - 1]), moves[|moves| - 1]);
    }
  }
}
