/**
 What placing, cancelling and modifying come to, said without the walk through the queue: for every order how
 much it gives up, by its position; what is reported; and which orders and index entries there are afterwards.
 */
module Outcomes {
  import opened Book
  import opened Sweeps
  import opened Invariants
  import opened Levels
  import opened Execution
  import opened Resizing

  // ---------- Placing ----------

  /** What the order at position `i` gives up: what is left of the volume once all before it have given theirs. */
  function Due(q: seq<Order>, sell: bool, limit: int, volume: int, i: nat): int
    requires i < |q|
  {
    var open := volume - SumVolume(q[..i]);
    if !Crosses(sell, limit, q[i].price) || open <= 0 then 0
    else if open < q[i].volume then open
    else q[i].volume
  }

  /** `q'` is `q` after each order has given up its due: orders with nothing left are gone, from the front. */
  ghost predicate GaveUp(q: seq<Order>, q': seq<Order>, sell: bool, limit: int, volume: int) {
    var gone := |q| - |q'|;
    && gone >= 0
    && (forall i :: 0 <= i < gone ==> Due(q, sell, limit, volume, i) == q[i].volume)
    && (forall i :: gone <= i < |q| ==> Due(q, sell, limit, volume, i) < q[i].volume)
    && (forall j :: 0 <= j < |q'| ==>
          q'[j] == q[gone + j].(volume := q[gone + j].volume - Due(q, sell, limit, volume, gone + j)))
  }

  /** One fill for each order that gives something up: its price, what it gives up, and the taker's time. */
  ghost predicate FillsAreDue(q: seq<Order>, fills: seq<Fill>, sell: bool, limit: int, volume: int, time: int) {
    && |fills| <= |q|
    && (forall i :: 0 <= i < |q| ==> (i < |fills| <==> Due(q, sell, limit, volume, i) > 0))
    && (forall i :: 0 <= i < |fills| ==> fills[i] == Fill(q[i].price, Due(q, sell, limit, volume, i), time))
  }

  /** `o` has joined at position `k`: behind all whose price is not worse. */
  ghost predicate JoinedAt(ask: bool, q: seq<Order>, q': seq<Order>, o: Order, k: nat) {
    && k <= |q| && q' == q[..k] + [o] + q[k..]
    && forall i :: 0 <= i < |q| ==> (Better(ask, o.price, q[i].price) <==> k <= i)
  }

  ghost predicate Joined(ask: bool, q: seq<Order>, q': seq<Order>, o: Order) {
    exists k: nat :: JoinedAt(ask, q, q', o, k)
  }

  /** The id belongs to an order that gives up all it has. */
  ghost predicate UsedUp(q: seq<Order>, sell: bool, limit: int, volume: int, id: int) {
    exists i :: 0 <= i < |q| && q[i].id == id && Due(q, sell, limit, volume, i) == q[i].volume
  }

  /** Ids of used-up orders are gone from the index, and a new resting order is entered under its own. */
  ghost predicate Reindexed(b: Book, index: map<int, nat>, price: int, volume: int, sell: bool, id: int, rests: bool) {
    forall x :: if rests && x == id then x in index && index[x] == b.clock else
      && (x in index <==> x in b.index && !UsedUp(Opposite(b, sell), sell, price, volume, x))
      && (x in index ==> index[x] == b.index[x])
  }

  /** What the taker is told: its fills, and the volume that is left over. */
  ghost predicate Reported(q: seq<Order>, price: int, volume: int, sell: bool, time: int, id: int, r: OrderResult) {
    && r.orderID == id && FillsAreDue(q, r.trades, sell, price, volume, time)
    && r.remainingQty == volume - Filled(r.trades) && (r.fulfilled <==> r.remainingQty <= 0)
  }

  /** All there is to say about a placement that led from `b` to `b'` and was answered by `r`. */
  ghost predicate Placement(b: Book, price: int, volume: int, sell: bool, time: int, id: int,
                            b': Book, r: OrderResult) {
    var left := r.remainingQty;
    && Reported(Opposite(b, sell), price, volume, sell, time, id, r)
    && GaveUp(Opposite(b, sell), Opposite(b', sell), sell, price, volume)
    && (if left > 0 then Joined(sell, Own(b, sell), Own(b', sell), Order(id, price, left, b.clock))
        else Own(b', sell) == Own(b, sell))
    && Reindexed(b, b'.index, price, volume, sell, id, left > 0)
    && b'.clock == b.clock + 1
  }

  lemma {:induction false} SumOneMore(q: seq<Order>, i: nat)
    requires i < |q|
    ensures SumVolume(q[..i + 1]) == SumVolume(q[..i]) + q[i].volume
  {
    SumConcat(q[..i], [q[i]]);
    assert q[..i + 1] == q[..i] + [q[i]];
  }

  lemma {:induction false} SumsGrow(q: seq<Order>, i: nat, j: nat)
    requires Positive(q) && i <= j <= |q|
    ensures SumVolume(q[..i]) <= SumVolume(q[..j])
  {
    if i < j {
      SumsGrow(q, i, j - 1);
      SumOneMore(q, j - 1);
    }
  }

  /** The orders taken whole, the one taken in part, and the rest. */
  lemma {:induction false} DueIs(q: seq<Order>, sell: bool, limit: int, volume: int, i: nat)
    requires Sorted(!sell, q) && Positive(q) && i < |q|
    ensures var (k, s) := (Depth(q, sell, limit, volume), Sweep(q, sell, limit, volume));
      && k <= |s.trades| <= k + 1 && |s.trades| <= |q|
      && Due(q, sell, limit, volume, i) == if i < |s.trades| then s.trades[i].volume else 0
  {
    hide Sweep, Depth;
    SweepTakesPrefix(q, sell, limit, volume);
    var k := Depth(q, sell, limit, volume);
    if i < k {
      SumsGrow(q, i + 1, k);
      SumOneMore(q, i);
    } else if k < i {
      SumOneMore(q, k);
      SumsGrow(q, k + 1, i);
      assert Before(!sell, q[k], q[i]);
    }
  }

  lemma {:induction false} DuesAre(q: seq<Order>, sell: bool, limit: int, volume: int)
    requires Sorted(!sell, q) && Positive(q)
    ensures var (k, s) := (Depth(q, sell, limit, volume), Sweep(q, sell, limit, volume));
      && k <= |s.trades| <= k + 1 && |s.trades| <= |q|
      && forall i :: 0 <= i < |q| ==>
           Due(q, sell, limit, volume, i) == if i < |s.trades| then s.trades[i].volume else 0
  {
    hide Sweep, Depth, Due;
    SweepTakesPrefix(q, sell, limit, volume);
    var s := Sweep(q, sell, limit, volume);
    forall i | 0 <= i < |q|
      ensures Due(q, sell, limit, volume, i) == if i < |s.trades| then s.trades[i].volume else 0
    {
      DueIs(q, sell, limit, volume, i);
    }
  }

  lemma {:induction false} RestIs(q: seq<Order>, sell: bool, limit: int, volume: int, j: nat)
    requires Sorted(!sell, q) && Positive(q)
    requires j < |Sweep(q, sell, limit, volume).rest| == |q| - Depth(q, sell, limit, volume)
    ensures var (i, rest) := (Depth(q, sell, limit, volume) + j, Sweep(q, sell, limit, volume).rest);
      && Due(q, sell, limit, volume, i) < q[i].volume
      && rest[j] == q[i].(volume := q[i].volume - Due(q, sell, limit, volume, i))
  {
    hide Sweep, Depth, Due, Sorted;
    SweepTakesPrefix(q, sell, limit, volume);
    DuesAre(q, sell, limit, volume);
  }

  lemma {:induction false} SweepGaveUp(q: seq<Order>, sell: bool, limit: int, volume: int)
    requires Sorted(!sell, q) && Positive(q)
    ensures GaveUp(q, Sweep(q, sell, limit, volume).rest, sell, limit, volume)
    ensures |q| - |Sweep(q, sell, limit, volume).rest| == Depth(q, sell, limit, volume)
  {
    hide Sweep, Depth, Due, Sorted, TakesPrefix;
    SweepLeaves(q, sell, limit, volume);
    var k, rest := Depth(q, sell, limit, volume), Sweep(q, sell, limit, volume).rest;
    forall j | 0 <= j < |rest|
      ensures rest[j] == q[k + j].(volume := q[k + j].volume - Due(q, sell, limit, volume, k + j))
    {
      RestIs(q, sell, limit, volume, j);
    }
    forall i | k <= i < |q| ensures Due(q, sell, limit, volume, i) < q[i].volume {
      RestIs(q, sell, limit, volume, i - k);
    }
    WholeAreDue(q, sell, limit, volume);
  }

  lemma {:induction false} WholeAreDue(q: seq<Order>, sell: bool, limit: int, volume: int)
    requires Sorted(!sell, q) && Positive(q)
    ensures forall i :: 0 <= i < Depth(q, sell, limit, volume) && i < |q| ==>
      Due(q, sell, limit, volume, i) == q[i].volume
  {
    hide Sweep, Depth, Due, Sorted;
    SweepTakesPrefix(q, sell, limit, volume);
    DuesAre(q, sell, limit, volume);
  }

  lemma {:induction false} SweepFillsAreDue(q: seq<Order>, sell: bool, limit: int, volume: int, time: int)
    requires Sorted(!sell, q) && Positive(q)
    ensures FillsAreDue(q, Fills(Sweep(q, sell, limit, volume).trades, time), sell, limit, volume, time)
  {
    hide Sweep, Depth, Due;
    SweepTakesPrefix(q, sell, limit, volume);
    DuesAre(q, sell, limit, volume);
    FillAt(Sweep(q, sell, limit, volume).trades, time);
  }

  lemma {:induction false} SweepIsReported(q: seq<Order>, sell: bool, price: int, volume: int, time: int, id: int)
    requires Sorted(!sell, q) && Positive(q)
    ensures var s := Sweep(q, sell, price, volume);
      Reported(q, price, volume, sell, time, id, OrderResult(id, s.left <= 0, s.left, Fills(s.trades, time)))
  {
    SweepFillsAreDue(q, sell, price, volume, time);
    TradesAllThatCrosses(q, sell, price, volume);
    FilledIsTraded(Sweep(q, sell, price, volume).trades, time);
  }

  lemma PlaceReindexes(b: Book, price: int, volume: int, sell: bool, time: int, id: int)
    requires Wf(b)
    ensures var (b', r) := Place(b, price, volume, sell, time, id);
      Reindexed(b, b'.index, price, volume, sell, id, r.remainingQty > 0)
  {
    var q := Opposite(b, sell);
    var index := EraseFilled(b.index, Sweep(q, sell, price, volume).trades);
    WfBySide(b, sell);
    forall x
      ensures x in index <==> x in b.index && !UsedUp(q, sell, price, volume, x)
      ensures x in index ==> index[x] == b.index[x]
    {
      SweepErases(b.index, q, sell, price, volume, x);
      SweepGaveUp(q, sell, price, volume);
    }
  }

  lemma {:induction false} InsertJoins(ask: bool, q: seq<Order>, o: Order)
    requires Sorted(ask, q)
    ensures Joined(ask, q, Insert(ask, q, o), o)
  {
    var k := InsertShape(ask, q, o);
    assert JoinedAt(ask, q, Insert(ask, q, o), o, k);
  }

  lemma {:induction false} PlaceIsPlacement(b: Book, price: int, volume: int, sell: bool, time: int, id: int)
    requires Wf(b)
    ensures var (b', r) := Place(b, price, volume, sell, time, id);
      Placement(b, price, volume, sell, time, id, b', r)
  {
    var q := Opposite(b, sell);
    WfBySide(b, sell);
    SweepGaveUp(q, sell, price, volume);
    SweepIsReported(q, sell, price, volume, time, id);
    PlaceReindexes(b, price, volume, sell, time, id);
    var s := Sweep(q, sell, price, volume);
    InsertJoins(sell, Own(b, sell), Order(id, price, s.left, b.clock));
    hide Sweep, Fills, Insert, EraseFilled, GaveUp, Reported, Reindexed, Joined;
  }

  // ---------- There is only one such outcome ----------

  lemma SameCount(n: nat, k: nat, l: nat, p: nat -> bool)
    requires k <= n && l <= n
    requires forall i: nat :: i < n ==> (p(i) <==> i < k)
    requires forall i: nat :: i < n ==> (p(i) <==> i < l)
    ensures k == l
  {
    assert k < l ==> p(k);
    assert l < k ==> p(l);
  }

  lemma SameAfterGivingUp(q: seq<Order>, x: seq<Order>, y: seq<Order>, sell: bool, limit: int, volume: int)
    requires GaveUp(q, x, sell, limit, volume) && GaveUp(q, y, sell, limit, volume)
    ensures x == y
  {
    var k, l := |q| - |x|, |q| - |y|;
    SameCount(|q|, k, l, (i: nat) => i < |q| && Due(q, sell, limit, volume, i) == q[i].volume);
  }

  lemma SameFills(q: seq<Order>, x: seq<Fill>, y: seq<Fill>, sell: bool, limit: int, volume: int, time: int)
    requires FillsAreDue(q, x, sell, limit, volume, time) && FillsAreDue(q, y, sell, limit, volume, time)
    ensures x == y
  {
    SameCount(|q|, |x|, |y|, (i: nat) => i < |q| && Due(q, sell, limit, volume, i) > 0);
  }

  lemma SameAfterJoining(ask: bool, q: seq<Order>, x: seq<Order>, y: seq<Order>, o: Order)
    requires Joined(ask, q, x, o) && Joined(ask, q, y, o)
    ensures x == y
  {
    var k: nat :| JoinedAt(ask, q, x, o, k);
    var l: nat :| JoinedAt(ask, q, y, o, l);
    SameCount(|q|, k, l, (i: nat) => i < |q| && !Better(ask, o.price, q[i].price));
  }

  lemma SameIndex(b: Book, x: map<int, nat>, y: map<int, nat>, price: int, volume: int, sell: bool, id: int,
                  rests: bool)
    requires Reindexed(b, x, price, volume, sell, id, rests) && Reindexed(b, y, price, volume, sell, id, rests)
    ensures x == y
  {
    hide UsedUp;
    assert forall i :: i in x <==> i in y;
    assert forall i :: i in x ==> x[i] == y[i];
  }

  lemma PlacementIsUnique(b: Book, price: int, volume: int, sell: bool, time: int, id: int,
                          x: Book, r: OrderResult, y: Book, s: OrderResult)
    requires Placement(b, price, volume, sell, time, id, x, r) && Placement(b, price, volume, sell, time, id, y, s)
    ensures x == y && r == s
  {
    hide FillsAreDue, GaveUp, Joined, Reindexed;
    SameFills(Opposite(b, sell), r.trades, s.trades, sell, price, volume, time);
    SameAfterGivingUp(Opposite(b, sell), Opposite(x, sell), Opposite(y, sell), sell, price, volume);
    var left := r.remainingQty;
    if left > 0 {
      SameAfterJoining(sell, Own(b, sell), Own(x, sell), Own(y, sell), Order(id, price, left, b.clock));
    }
    SameIndex(b, x.index, y.index, price, volume, sell, id, left > 0);
  }

  /** A placement has this outcome and no other. */
  lemma PlaceOutcome(b: Book, price: int, volume: int, sell: bool, time: int, id: int, b': Book, r: OrderResult)
    requires Wf(b)
    ensures (b', r) == Place(b, price, volume, sell, time, id) <==> Placement(b, price, volume, sell, time, id, b', r)
  {
    PlaceIsPlacement(b, price, volume, sell, time, id);
    hide Placement, Place;
    if Placement(b, price, volume, sell, time, id, b', r) {
      var (x, s) := Place(b, price, volume, sell, time, id);
      PlacementIsUnique(b, price, volume, sell, time, id, b', r, x, s);
    }
  }

  /** The volume reported for a fill is what its maker has lost, and the orders behind the fills have lost
      nothing. */
  lemma FillsAreLosses(b: Book, price: int, volume: int, sell: bool, time: int, id: int, i: nat)
    requires Wf(b) && i < |Opposite(b, sell)|
    ensures var (b', r) := Place(b, price, volume, sell, time, id);
      var o := Opposite(b, sell)[i];
      o.volume - VolumeOf(Opposite(b', sell), o.stamp) == if i < |r.trades| then r.trades[i].volume else 0
  {
    var q := Opposite(b, sell);
    var (b', r) := Place(b, price, volume, sell, time, id);
    var q' := Opposite(b', sell);
    PlaceIsPlacement(b, price, volume, sell, time, id);
    WfBySide(b, sell);
    hide Place;
    var n := StampShape(q', q[i].stamp);
    var gone := |q| - |q'|;
    assert n < |q'| ==> q'[n] == q[n + gone].(volume := q'[n].volume);
    assert i >= gone ==> q'[i - gone].stamp == q[i].stamp;
  }

  /** What the fills of a result cost a buyer, or bring a seller. */
  function Paid(fills: seq<Fill>): int {
    if fills == [] then 0 else fills[0].volume * fills[0].price + Paid(fills[1..])
  }

  lemma {:induction false} PaidIsNotional(trades: seq<Trade>, time: int)
    ensures Paid(Fills(trades, time)) == Notional(trades)
  {
    if trades != [] {
      PaidIsNotional(trades[1..], time);
      assert Fills(trades, time)[1..] == Fills(trades[1..], time);
    }
  }

  /** Best execution, in what the caller is told: no other way of taking the reported quantity from the resting
      orders is cheaper for a buyer or dearer for a seller than the reported fills. */
  lemma {:induction false} BestFills(b: Book, price: int, volume: int, sell: bool, time: int, id: int, take: seq<int>)
    requires Wf(b) && Allocation(Opposite(b, sell), take)
    requires Total(take) == Filled(Place(b, price, volume, sell, time, id).1.trades)
    ensures var paid := Paid(Place(b, price, volume, sell, time, id).1.trades);
      if sell then paid >= Cost(Opposite(b, sell), take) else paid <= Cost(Opposite(b, sell), take)
  {
    WfBySide(b, sell);
    var trades := Sweep(Opposite(b, sell), sell, price, volume).trades;
    FilledIsTraded(trades, time);
    PaidIsNotional(trades, time);
    BestExecution(Opposite(b, sell), sell, price, volume, take);
  }

  // ---------- Cancelling and modifying ----------

  /** The order that the id finds rests at position `i` of the side. */
  ghost predicate FindsAt(b: Book, id: int, sell: bool, i: nat) {
    id in b.index && i < |Own(b, sell)| && Own(b, sell)[i].stamp == b.index[id] && Own(b, sell)[i].id == id
  }

  ghost predicate SameBut(b: Book, sell: bool, own: seq<Order>, index: map<int, nat>, b': Book) {
    Own(b', sell) == own && Opposite(b', sell) == Opposite(b, sell) && b'.index == index && b'.clock == b.clock
  }

  /** The order found there is out of its queue and out of the index. */
  ghost predicate TakenOut(b: Book, id: int, sell: bool, i: nat, b': Book) {
    var own := Own(b, sell);
    FindsAt(b, id, sell, i) && SameBut(b, sell, own[..i] + own[i + 1..], b.index - {id}, b')
  }

  /** The order found there has the new size, in its old place. */
  ghost predicate Resized(b: Book, id: int, size: int, sell: bool, i: nat, b': Book) {
    var own := Own(b, sell);
    && FindsAt(b, id, sell, i) && 0 < size < own[i].volume
    && SameBut(b, sell, own[i := own[i].(volume := size)], b.index, b')
  }

  /** All there is to say about a cancel: an unknown id does nothing; a known one takes out the order it finds
      and its own entry, and nothing else. */
  ghost predicate Cancellation(b: Book, id: int, b': Book, ok: bool) {
    (ok <==> id in b.index) && if ok then exists sell, i: nat :: TakenOut(b, id, sell, i, b') else b' == b
  }

  /** The id finds an order of more than this size, and the size is positive. */
  ghost predicate Reducible(b: Book, id: int, size: int) {
    exists sell, i: nat :: FindsAt(b, id, sell, i) && 0 < size < Own(b, sell)[i].volume
  }

  /** All there is to say about a modify: it succeeds exactly for a smaller positive size. */
  ghost predicate Modification(b: Book, id: int, size: int, b': Book, ok: bool) {
    (ok <==> Reducible(b, id, size)) && if ok then exists sell, i: nat :: Resized(b, id, size, sell, i, b') else b' == b
  }

  lemma FindsSomewhere(b: Book, id: int) returns (sell: bool, i: nat)
    requires Wf(b) && id in b.index
    ensures FindsAt(b, id, sell, i)
  {
    assert Has(b.bids, b.index[id], id) || Has(b.asks, b.index[id], id);
    sell := !Has(b.bids, b.index[id], id);
    i :| 0 <= i < |Own(b, sell)| && Own(b, sell)[i].stamp == b.index[id] && Own(b, sell)[i].id == id;
  }

  lemma FindsOnce(b: Book, id: int, sell: bool, i: nat, other: bool, j: nat)
    requires Wf(b) && FindsAt(b, id, sell, i) && FindsAt(b, id, other, j)
    ensures sell == other && i == j
  {
    WfBySide(b, sell);
    assert Own(b, !sell) == Opposite(b, sell);
  }

  lemma CancelTakesOut(b: Book, id: int, sell: bool, i: nat, b': Book)
    requires Wf(b) && FindsAt(b, id, sell, i)
    ensures Cancel(b, id).1
    ensures b' == Cancel(b, id).0 <==> TakenOut(b, id, sell, i, b')
  {
    CancelIs(b, sell, i);
    hide Cancel;
  }

  lemma ModifyResizes(b: Book, id: int, size: int, sell: bool, i: nat, b': Book)
    requires Wf(b) && FindsAt(b, id, sell, i)
    ensures Modify(b, id, size).1 <==> 0 < size < Own(b, sell)[i].volume
    ensures !Modify(b, id, size).1 ==> Modify(b, id, size).0 == b
    ensures Modify(b, id, size).1 ==> (b' == Modify(b, id, size).0 <==> Resized(b, id, size, sell, i, b'))
  {
    ModifyIs(b, sell, i, size);
    hide Modify;
  }

  /** A cancel has this outcome and no other. */
  lemma CancelOutcome(b: Book, id: int, b': Book, ok: bool)
    requires Wf(b)
    ensures (b', ok) == Cancel(b, id) <==> Cancellation(b, id, b', ok)
  {
    if id in b.index {
      var sell, i := FindsSomewhere(b, id);
      CancelTakesOut(b, id, sell, i, b');
      hide Cancel, FindsAt, Wf, SameBut;
      if other, j: nat :| TakenOut(b, id, other, j, b') {
        FindsOnce(b, id, sell, i, other, j);
      }
    }
  }

  /** A modify has this outcome and no other. */
  lemma ModifyOutcome(b: Book, id: int, size: int, b': Book, ok: bool)
    requires Wf(b)
    ensures (b', ok) == Modify(b, id, size) <==> Modification(b, id, size, b', ok)
  {
    if id in b.index {
      var sell, i := FindsSomewhere(b, id);
      ModifyResizes(b, id, size, sell, i, b');
      ReducibleIs(b, id, size, sell, i);
      hide Modify, FindsAt, Wf, SameBut, Reducible;
      if other, j: nat :| Resized(b, id, size, other, j, b') {
        FindsOnce(b, id, sell, i, other, j);
      }
    }
  }

  lemma CancelIsCancellation(b: Book, id: int)
    requires Wf(b)
    ensures var (b', ok) := Cancel(b, id); Cancellation(b, id, b', ok)
  {
    var (b', ok) := Cancel(b, id);
    CancelOutcome(b, id, b', ok);
  }

  lemma ModifyIsModification(b: Book, id: int, size: int)
    requires Wf(b)
    ensures var (b', ok) := Modify(b, id, size); Modification(b, id, size, b', ok)
  {
    var (b', ok) := Modify(b, id, size);
    ModifyOutcome(b, id, size, b', ok);
  }

  lemma ReducibleIs(b: Book, id: int, size: int, sell: bool, i: nat)
    requires Wf(b) && FindsAt(b, id, sell, i)
    ensures Reducible(b, id, size) <==> 0 < size < Own(b, sell)[i].volume
  {
    if other, j: nat :| FindsAt(b, id, other, j) && 0 < size < Own(b, other)[j].volume {
      FindsOnce(b, id, sell, i, other, j);
    }
  }
}
