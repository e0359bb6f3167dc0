/**
 A gateway call by call: it turns orders, cancels and modifies into filled and published slots, and reads
 acks back.  A slot is filled in place, over whatever is left in it.
 */
module Gateways {
  import opened Book
  import opened Rings
  import opened Inbound
  import opened Outbound

  class RingBufferInbound {
    const buffer: array<Entry>
    var write_pointer: nat

    constructor (size: nat)
      requires size > 0
      ensures fresh(buffer) && buffer.Length == size && write_pointer == 0
      ensures forall i :: 0 <= i < size ==> !buffer[i].ready
    {
      buffer := new Entry[size](_ => BLANK);
      write_pointer := 0;
    }

    /** The slot of the next ticket. */
    function Head(): nat
      requires buffer.Length > 0
      reads this
    {
      Slot(write_pointer, buffer.Length)
    }

    /** Claims the next ticket, once its slot has become free. */
    method Claim() returns (ticket: nat)
      requires buffer.Length > 0 && !buffer[Head()].ready
      modifies `write_pointer
      ensures ticket == old(write_pointer) && write_pointer == ticket + 1
    {
      ticket := write_pointer;
      write_pointer := write_pointer + 1;
    }

    method Publish(ticket: nat)
      requires buffer.Length > 0
      modifies buffer
      ensures var k := Slot(ticket, buffer.Length);
        buffer[..] == old(buffer[..])[k := old(buffer[k]).(ready := true)]
    {
      var k := Slot(ticket, buffer.Length);
      buffer[k] := buffer[k].(ready := true);
    }
  }

  /** What a caller may say about silence: nothing, or yes or no. */
  datatype SilentOverride = Default | Override(silent: bool)

  class Gateway {
    const ring: RingBufferInbound
    const outbound: array<AckEntry>
    const gateway_id: nat
    const live: bool
    const silent: bool
    var internal_id_counter: nat
    var outbound_read_p: nat

    /** REPLAY gateways are silent and LIVE ones are not, unless the caller says otherwise. */
    constructor (ring: RingBufferInbound, outbound: array<AckEntry>, id: nat, live: bool, choice: SilentOverride)
      ensures this.ring == ring && this.outbound == outbound && gateway_id == id && this.live == live
      ensures silent <==> choice == Override(true) || (choice.Default? && !live)
      ensures internal_id_counter == 0 && outbound_read_p == 0
    {
      this.ring, this.outbound, gateway_id, this.live := ring, outbound, id, live;
      silent := match choice case Default => !live case Override(s) => s;
      internal_id_counter, outbound_read_p := 0, 0;
    }

    /** The next slot may be claimed. */
    ghost predicate Free()
      reads ring, ring.buffer
    {
      ring.buffer.Length > 0 && !ring.buffer[ring.Head()].ready
    }

    /** A ticket has been published that stands for `s`, and no other slot has changed. */
    twostate predicate Submitted(s: Submission)
      requires ring.buffer.Length > 0
      reads ring, ring.buffer
    {
      && ring.write_pointer == old(ring.write_pointer) + 1
      && ring.buffer[old(ring.Head())].ready && Decode(ring.buffer[old(ring.Head())]) == s
      && forall i :: 0 <= i < ring.buffer.Length && i != old(ring.Head()) ==> ring.buffer[i] == old(ring.buffer[i])
    }

    /** `now` is the wall clock; a LIVE gateway ignores the external id and time. */
    method PlaceOrder(price: int, volume: int, side: bool, now: int, external_id: int, external_ts: int)
      returns (order_id: int)
      requires Free() && (!live ==> external_id >= 0 && external_ts >= 0)
      modifies `internal_id_counter, ring, ring.buffer
      ensures order_id == (if live then old(internal_id_counter) else external_id)
      ensures internal_id_counter == old(internal_id_counter) + if live then 1 else 0
      ensures Submitted(Submission(Event(New(price, volume, side, order_id), if live then now else external_ts),
                                   gateway_id, silent))
    {
      var arrival := external_ts;
      order_id := external_id;
      if live {
        order_id, arrival := internal_id_counter, now;
        internal_id_counter := internal_id_counter + 1;
      }
      var ticket := ring.Claim();
      var b, k := ring.buffer, Slot(ticket, ring.buffer.Length);
      b[k] := b[k].(op := NEW);
      b[k] := b[k].(id := order_id);
      b[k] := b[k].(price := price);
      b[k] := b[k].(volume := volume);
      b[k] := b[k].(time := arrival);
      b[k] := b[k].(side := side);
      b[k] := b[k].(gid := gateway_id);
      b[k] := b[k].(silent := silent);
      ring.Publish(ticket);
    }

    method CancelOrder(order_id: int, now: int, external_ts: int)
      requires Free() && (!live ==> external_ts >= 0)
      modifies ring, ring.buffer
      ensures Submitted(Submission(Event(CancelReq(order_id), if live then now else external_ts), gateway_id, silent))
    {
      var ts := if live then now else external_ts;
      var ticket := ring.Claim();
      var b, k := ring.buffer, Slot(ticket, ring.buffer.Length);
      b[k] := b[k].(op := CANCEL);
      b[k] := b[k].(id := order_id);
      b[k] := b[k].(gid := gateway_id);
      b[k] := b[k].(time := ts);
      b[k] := b[k].(silent := silent);
      ring.Publish(ticket);
    }

    method ModifyOrder(order_id: int, new_size: int, now: int, external_ts: int)
      requires Free() && (!live ==> external_ts >= 0)
      modifies ring, ring.buffer
      ensures Submitted(Submission(Event(ModifyReq(order_id, new_size), if live then now else external_ts),
                                   gateway_id, silent))
    {
      var ts := if live then now else external_ts;
      var ticket := ring.Claim();
      var b, k := ring.buffer, Slot(ticket, ring.buffer.Length);
      b[k] := b[k].(op := MODIFY);
      b[k] := b[k].(id := order_id);
      b[k] := b[k].(volume := new_size);
      b[k] := b[k].(gid := gateway_id);
      b[k] := b[k].(time := ts);
      b[k] := b[k].(silent := silent);
      ring.Publish(ticket);
    }

    /** The slot the next ack will be in. */
    function NextAck(): AckEntry
      requires outbound.Length > 0
      reads this, outbound
    {
      outbound[Slot(outbound_read_p, outbound.Length)]
    }

    /** Reads an ack if there is one: its fills go to the front of `fills`, and its slot is released. */
    method Read(fills: array<Fill>) returns (got: bool, ack: Ack)
      requires outbound.Length > 0 && Sized(NextAck()) && fills.Length >= MAX_FILLS
      modifies `outbound_read_p, outbound, fills
      ensures got == old(NextAck()).ready
      ensures !got ==>
        outbound_read_p == old(outbound_read_p) && outbound[..] == old(outbound[..]) && fills[..] == old(fills[..])
      ensures got ==>
        && ack == View(old(NextAck()))
        && fills[..|ack.fills|] == ack.fills && fills[|ack.fills|..] == old(fills[..])[|ack.fills|..]
        && outbound_read_p == old(outbound_read_p) + 1
        && outbound[..] ==
             old(outbound[..])[Slot(old(outbound_read_p), outbound.Length) := old(NextAck()).(ready := false)]
    {
      var k := Slot(outbound_read_p, outbound.Length);
      var order := outbound[k];
      ack := View(order);
      if !order.ready {
        return false, ack;
      }
      var i := 0;
      while i < order.fill_count
        invariant 0 <= i <= order.fill_count
        invariant outbound_read_p == old(outbound_read_p) && outbound[..] == old(outbound[..])
        invariant fills[..i] == order.fills[..i] && fills[i..] == old(fills[..])[i..]
      {
        fills[i] := order.fills[i];
        assert fills[..i + 1] == fills[..i] + [order.fills[i]] == order.fills[..i + 1];
        i := i + 1;
      }
      outbound[k] := outbound[k].(ready := false);
      outbound_read_p := outbound_read_p + 1;
      got := true;
    }
  }
}
