/**
 The engine's loop body on the structures it works on: the pointer order book, the inbound slots and one
 array of outbound slots for each gateway.  Nothing else runs meanwhile; what interleaving adds is the
 matter of module Pipeline, whose sequential reading this refines.
 */
module Engines {
  import opened Book
  import opened Rings
  import opened Inbound
  import opened Outbound
  import opened Orderbooks
  import P = Pipeline
  import Answers

  lemma PrefixGrows<T>(s: seq<T>, t: seq<T>, i: nat)
    requires i < |s| && i < |t| && s[..i] == t[..i]
    ensures s[i := t[i]][..i + 1] == t[..i + 1]
  {
    assert forall j :: 0 <= j < i ==> s[j] == s[..i][j] == t[..i][j] == t[j];
  }

  class MatchingEngine {
    const orderbook: Orderbook
    const ring_buffer_inbound: array<Entry>
    const ring_buffer_outbound: seq<array<AckEntry>>
    var read_p: nat
    var write_p_outbound: seq<nat>

    ghost predicate Valid()
      reads this, orderbook, orderbook.limits, orderbook.orders, ring_buffer_outbound
    {
      && orderbook.Valid() && ring_buffer_inbound.Length > 0 && |write_p_outbound| == |ring_buffer_outbound|
      && forall g :: 0 <= g < |ring_buffer_outbound| ==> OutboundHolds(ring_buffer_outbound[g])
    }

    static ghost predicate OutboundHolds(a: array<AckEntry>)
      reads a
    {
      a.Length > 0 && forall i :: 0 <= i < a.Length ==> Sized(a[i])
    }

    constructor (inbound: array<Entry>, outbound: seq<array<AckEntry>>)
      requires inbound.Length > 0 && forall g :: 0 <= g < |outbound| ==> OutboundHolds(outbound[g])
      ensures Valid() && fresh(orderbook) && orderbook.book == EMPTY
      ensures ring_buffer_inbound == inbound && ring_buffer_outbound == outbound
      ensures read_p == 0 && forall g :: 0 <= g < |outbound| ==> write_p_outbound[g] == 0
    {
      orderbook := new Orderbook();
      ring_buffer_inbound, ring_buffer_outbound := inbound, outbound;
      read_p, write_p_outbound := 0, seq(|outbound|, _ => 0);
    }

    /** Runs the request of a slot on the order book. */
    method Execute(event: Entry) returns (resp: Response)
      requires orderbook.Valid()
      modifies orderbook, orderbook.limits, orderbook.orders
      ensures orderbook.Valid() && (orderbook.book, resp) == Apply(old(orderbook.book), Decode(event).event)
      ensures fresh(orderbook.limits - old(orderbook.limits)) && fresh(orderbook.orders - old(orderbook.orders))
    {
      match event.op
      case NEW =>
        var res, gid := orderbook.PlaceOrder(event.price, event.volume, event.side, event.time, event.id, event.gid);
        resp := Placed(res);
      case CANCEL =>
        var ok := orderbook.Cancel(event.id);
        resp := Cancelled(ok);
      case MODIFY =>
        var ok := orderbook.Modify(event.id, event.volume);
        resp := Modified(ok);
    }

    /** Copies as many trades as fit into the slot, one by one. */
    static method CopyFills(out: array<AckEntry>, k: nat, trades: seq<Fill>)
      requires k < out.Length && Sized(out[k])
      modifies out
      ensures Sized(out[k]) && out[k].fill_count == P.Min(|trades|, MAX_FILLS)
      ensures out[k].fills[..out[k].fill_count] == trades[..out[k].fill_count]
      ensures out[k] == old(out[k]).(fills := out[k].fills, fill_count := out[k].fill_count)
      ensures forall i :: 0 <= i < out.Length && i != k ==> out[i] == old(out[i])
    {
      out[k] := out[k].(fill_count := if |trades| < MAX_FILLS then |trades| else MAX_FILLS);
      var i := 0;
      while i < out[k].fill_count
        invariant 0 <= i <= out[k].fill_count == P.Min(|trades|, MAX_FILLS) && Sized(out[k])
        invariant out[k].fills[..i] == trades[..i]
        invariant out[k] == old(out[k]).(fills := out[k].fills, fill_count := out[k].fill_count)
        invariant forall j :: 0 <= j < out.Length && j != k ==> out[j] == old(out[j])
      {
        PrefixGrows(out[k].fills, trades, i);
        out[k] := out[k].(fills := out[k].fills[i := trades[i]]);
        i := i + 1;
      }
    }

    /** Fills in the ack for a request that has been run. */
    static method WriteAck(out: array<AckEntry>, k: nat, event: Entry, resp: Response)
      requires k < out.Length && Sized(out[k])
      requires match event.op case NEW => resp.Placed? case CANCEL => resp.Cancelled? case MODIFY => resp.Modified?
      modifies out
      ensures Sized(out[k]) && View(out[k]) == P.AckOf(Decode(event).event.req, resp)
      ensures out[k].gateway_id == event.gid && out[k].ready == old(out[k]).ready
      ensures forall i :: 0 <= i < out.Length && i != k ==> out[i] == old(out[i])
    {
      out[k] := out[k].(op := event.op);
      match resp
      case Placed(res) =>
        out[k] := out[k].(order_id := res.orderID);
        out[k] := out[k].(gateway_id := event.gid);
        out[k] := out[k].(fulfilled := res.fulfilled);
        out[k] := out[k].(remaining_qty := res.remainingQty);
        CopyFills(out, k, res.trades);
      case Cancelled(ok) => WriteAnswer(out, k, event, ok);
      case Modified(ok) => WriteAnswer(out, k, event, ok);
    }

    static method WriteAnswer(out: array<AckEntry>, k: nat, event: Entry, ok: bool)
      requires k < out.Length && Sized(out[k])
      modifies out
      ensures Sized(out[k]) && View(out[k]) == Ack(old(out[k]).op, event.id, ok, 0, [])
      ensures out[k].gateway_id == event.gid && out[k].ready == old(out[k]).ready
      ensures forall i :: 0 <= i < out.Length && i != k ==> out[i] == old(out[i])
    {
      out[k] := out[k].(order_id := event.id);
      out[k] := out[k].(gateway_id := event.gid);
      out[k] := out[k].(fulfilled := ok);
      out[k] := out[k].(remaining_qty := 0);
      out[k] := out[k].(fill_count := 0);
    }

    /** The slot the engine looks at next. */
    function Event(): Entry
      requires ring_buffer_inbound.Length > 0
      reads this, ring_buffer_inbound
    {
      ring_buffer_inbound[Slot(read_p, ring_buffer_inbound.Length)]
    }

    /** The slot that the next ack for gateway `g` goes to. */
    function AckSlot(g: nat): nat
      requires g < |ring_buffer_outbound| == |write_p_outbound| && ring_buffer_outbound[g].Length > 0
      reads this, ring_buffer_outbound
    {
      Slot(write_p_outbound[g], ring_buffer_outbound[g].Length)
    }

    /** Frees the inbound slot and moves on. */
    method Release()
      requires ring_buffer_inbound.Length > 0
      modifies `read_p, ring_buffer_inbound
      ensures read_p == old(read_p) + 1
      ensures ring_buffer_inbound[..] ==
        old(ring_buffer_inbound[..])[Slot(old(read_p), ring_buffer_inbound.Length) := old(Event()).(ready := false)]
    {
      var slot := Slot(read_p, ring_buffer_inbound.Length);
      ring_buffer_inbound[slot] := ring_buffer_inbound[slot].(ready := false);
      read_p := read_p + 1;
    }

    /** Once round the loop for an event that wants no ack. */
    method RunSilent()
      requires Valid() && Event().ready && Event().silent
      modifies `read_p, ring_buffer_inbound, orderbook, orderbook.limits, orderbook.orders
      ensures Valid() && read_p == old(read_p) + 1
      ensures orderbook.book == Apply(old(orderbook.book), Decode(old(Event())).event).0
      ensures ring_buffer_inbound[..] ==
        old(ring_buffer_inbound[..])[Slot(old(read_p), ring_buffer_inbound.Length) := old(Event()).(ready := false)]
    {
      var resp := Execute(Event());
      Release();
    }

    /** Runs an event and writes its ack, without publishing it. */
    method Answer(event: Entry, out: array<AckEntry>, k: nat)
      requires orderbook.Valid() && OutboundHolds(out) && k < out.Length
      modifies out, orderbook, orderbook.limits, orderbook.orders
      ensures orderbook.Valid() && orderbook.book == Apply(old(orderbook.book), Decode(event).event).0
      ensures OutboundHolds(out) && out[k].gateway_id == event.gid
      ensures View(out[k]) == P.AckOf(Decode(event).event.req, Apply(old(orderbook.book), Decode(event).event).1)
      ensures Answers.Tells(old(orderbook.book), Decode(event).event, orderbook.book, View(out[k]))
      ensures forall i :: 0 <= i < out.Length && i != k ==> out[i] == old(out[i])
    {
      hide Answers.Tells;
      Answers.AckTells(orderbook.book, Decode(event).event);
      var resp := Execute(event);
      WriteAck(out, k, event, resp);
    }

    /** Makes the ack visible to the reader and moves on to the next slot of its gateway. */
    method PublishAck(g: nat)
      requires g < |ring_buffer_outbound| == |write_p_outbound| && OutboundHolds(ring_buffer_outbound[g])
      modifies `write_p_outbound, ring_buffer_outbound[g]
      ensures OutboundHolds(ring_buffer_outbound[g])
      ensures write_p_outbound == old(write_p_outbound)[g := old(write_p_outbound)[g] + 1]
      ensures ring_buffer_outbound[g][..] ==
        old(ring_buffer_outbound[g][..])[old(AckSlot(g)) := old(ring_buffer_outbound[g][AckSlot(g)]).(ready := true)]
    {
      var out, k := ring_buffer_outbound[g], AckSlot(g);
      out[k] := out[k].(ready := true);
      write_p_outbound := write_p_outbound[g := write_p_outbound[g] + 1];
    }

    /** Once round the loop for an event that wants an ack: the ack says what the book answered. */
    method RunAcked()
      requires Valid() && Event().ready && !Event().silent && Event().gid < |ring_buffer_outbound|
      modifies this, ring_buffer_inbound, ring_buffer_outbound[Event().gid]
      modifies orderbook, orderbook.limits, orderbook.orders
      ensures Valid() && read_p == old(read_p) + 1
      ensures orderbook.book == Apply(old(orderbook.book), Decode(old(Event())).event).0
      ensures ring_buffer_inbound[..] ==
        old(ring_buffer_inbound[..])[Slot(old(read_p), ring_buffer_inbound.Length) := old(Event()).(ready := false)]
      ensures var g, k := old(Event()).gid, old(AckSlot(Event().gid)); var out := ring_buffer_outbound[g];
        && write_p_outbound == old(write_p_outbound)[g := old(write_p_outbound)[g] + 1]
        && out[k].ready && out[k].gateway_id == g
        && View(out[k]) == P.AckOf(Decode(old(Event())).event.req,
                                   Apply(old(orderbook.book), Decode(old(Event())).event).1)
        && Answers.Tells(old(orderbook.book), Decode(old(Event())).event, orderbook.book, View(out[k]))
        && forall i :: 0 <= i < out.Length && i != k ==> out[i] == old(ring_buffer_outbound[Event().gid][i])
    {
      hide Apply, P.AckOf, Decode, Answers.Tells;
      var event := Event();
      Answer(event, ring_buffer_outbound[event.gid], AckSlot(event.gid));
      Release();
      PublishAck(event.gid);
    }

    /** Once round the loop.  If the next slot is not ready nothing changes; otherwise the event is applied
        to the book and its slot freed, and if it wants an ack, the ack of the book's answer is published in
        the next slot of its gateway. */
    method RunOnce() returns (busy: bool)
      requires Valid()
      requires Event().ready && !Event().silent ==> Event().gid < |ring_buffer_outbound|
      modifies this, ring_buffer_inbound, ring_buffer_outbound, orderbook, orderbook.limits, orderbook.orders
      ensures Valid() && (busy <==> old(Event()).ready)
      ensures !busy ==> unchanged(this) && unchanged(ring_buffer_inbound) && unchanged(orderbook)
      ensures busy ==>
        orderbook.book == Apply(old(orderbook.book), Decode(old(Event())).event).0 && read_p == old(read_p) + 1
      ensures busy ==>
        ring_buffer_inbound[..] ==
          old(ring_buffer_inbound[..])[Slot(old(read_p), ring_buffer_inbound.Length) := old(Event()).(ready := false)]
      ensures !busy || old(Event()).silent ==>
        && write_p_outbound == old(write_p_outbound)
        && forall g :: 0 <= g < |ring_buffer_outbound| ==> unchanged(ring_buffer_outbound[g])
      ensures busy && !old(Event()).silent ==>
        var g, k := old(Event()).gid, old(AckSlot(Event().gid)); var out := ring_buffer_outbound[g];
        && write_p_outbound == old(write_p_outbound)[g := old(write_p_outbound)[g] + 1]
        && out[k].ready && out[k].gateway_id == g
        && View(out[k]) == P.AckOf(Decode(old(Event())).event.req,
                                   Apply(old(orderbook.book), Decode(old(Event())).event).1)
        && Answers.Tells(old(orderbook.book), Decode(old(Event())).event, orderbook.book, View(out[k]))
        && (forall i :: 0 <= i < out.Length && i != k ==> out[i] == old(ring_buffer_outbound[Event().gid][i]))
        && forall h :: 0 <= h < |ring_buffer_outbound| && ring_buffer_outbound[h] != out ==>
             unchanged(ring_buffer_outbound[h])
    {
      hide Answers.Tells;
      if !Event().ready {
        return false;
      }
      if Event().silent {
        RunSilent();
      } else {
        RunAcked();
      }
      busy := true;
    }
  }
}
