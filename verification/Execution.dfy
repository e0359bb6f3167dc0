/** How an incoming order is executed: how much, at which prices, against whom, and how well. */
module Execution {
  import opened Book
  import opened Sweeps
  import opened Levels
  import opened Invariants

  /** Total resting volume that a limit price accepts. */
  function CrossingVolume(q: seq<Order>, sell: bool, limit: int): int {
    if q == [] then 0
    else (if Crosses(sell, limit, q[0].price) then q[0].volume else 0) + CrossingVolume(q[1..], sell, limit)
  }

  function Traded(trades: seq<Trade>): int {
    if trades == [] then 0 else trades[0].volume + Traded(trades[1..])
  }

  lemma {:induction false} NothingCrossesBehind(q: seq<Order>, sell: bool, limit: int)
    requires Sorted(!sell, q)
    requires q != [] ==> !Crosses(sell, limit, q[0].price)
    ensures CrossingVolume(q, sell, limit) == 0
  {
    if q != [] {
      SortedTail(!sell, q);
      NothingCrossesBehind(q[1..], sell, limit);
    }
  }

  /** An incoming order trades all the volume it can: its own, or all that crosses if that is less. */
  lemma {:induction false} TradesAllThatCrosses(q: seq<Order>, sell: bool, limit: int, volume: int)
    requires Sorted(!sell, q) && Positive(q)
    ensures var s := Sweep(q, sell, limit, volume); var c := CrossingVolume(q, sell, limit);
      && c >= 0
      && Traded(s.trades) == (if volume <= 0 then 0 else if volume <= c then volume else c)
      && Traded(s.trades) + s.left == volume
      && SumVolume(s.rest) + Traded(s.trades) == SumVolume(q)
  {
    if q == [] {
    } else {
      SortedTail(!sell, q);
      if !Crosses(sell, limit, q[0].price) {
        NothingCrossesBehind(q, sell, limit);
      } else {
        TradesAllThatCrosses(q[1..], sell, limit, volume - q[0].volume);
        var s := Sweep(q, sell, limit, volume);
        if volume > 0 && q[0].volume > volume {
          assert s.rest[1..] == q[1..];
        } else if volume > 0 {
          assert s.trades[1..] == Sweep(q[1..], sell, limit, volume - q[0].volume).trades;
        }
      }
    }
  }

  // ---------- Price-time priority ----------

  lemma {:induction false} StampGone(ask: bool, q: seq<Order>, rest: seq<Order>, k: nat, i: nat)
    requires Sorted(ask, q) && Leaves(q, k, rest) && i < |q|
    ensures VolumeOf(rest, q[i].stamp) == if i < k then 0 else rest[i - k].volume
  {
    var n := StampShape(rest, q[i].stamp);
    if i >= k {
      assert rest[i - k].stamp == q[i].stamp;
    }
  }

  /** What a sweep leaves of each resting order, by queue position. */
  lemma {:induction false} LeftOf(q: seq<Order>, sell: bool, limit: int, volume: int, i: nat)
    requires Sorted(!sell, q) && Positive(q) && i < |q|
    ensures var k := Depth(q, sell, limit, volume);
      var left := VolumeOf(Sweep(q, sell, limit, volume).rest, q[i].stamp);
      && (i < k ==> left == 0) && (i == k ==> 0 < left <= q[i].volume) && (i > k ==> left == q[i].volume)
  {
    hide Sweep, Depth, VolumeOf;
    SweepLeaves(q, sell, limit, volume);
    StampGone(!sell, q, Sweep(q, sell, limit, volume).rest, Depth(q, sell, limit, volume), i);
  }

  /** If any volume of `y` is taken, every order at a better price, or earlier at the same price,
      was used up completely. */
  lemma {:induction false} PriceTimePriority(q: seq<Order>, sell: bool, limit: int, volume: int, x: Order, y: Order)
    requires Sorted(!sell, q) && Positive(q) && x in q && y in q
    requires Before(!sell, x, y)
    ensures var rest := Sweep(q, sell, limit, volume).rest;
      VolumeOf(rest, y.stamp) < y.volume ==> VolumeOf(rest, x.stamp) == 0
  {
    var i :| 0 <= i < |q| && q[i] == x;
    var j :| 0 <= j < |q| && q[j] == y;
    LeftOf(q, sell, limit, volume, i);
    LeftOf(q, sell, limit, volume, j);
  }

  /** At most one resting order survives a sweep with less volume than before. */
  lemma {:induction false} OnePartialFill(q: seq<Order>, sell: bool, limit: int, volume: int, x: Order, y: Order)
    requires Sorted(!sell, q) && Positive(q) && x in q && y in q
    requires var rest := Sweep(q, sell, limit, volume).rest;
      0 < VolumeOf(rest, x.stamp) < x.volume && 0 < VolumeOf(rest, y.stamp) < y.volume
    ensures x == y
  {
    var i :| 0 <= i < |q| && q[i] == x;
    var j :| 0 <= j < |q| && q[j] == y;
    LeftOf(q, sell, limit, volume, i);
    LeftOf(q, sell, limit, volume, j);
  }

  // ---------- Fill prices ----------

  lemma {:induction false} FillAt(trades: seq<Trade>, time: int)
    ensures |Fills(trades, time)| == |trades|
    ensures forall i :: 0 <= i < |trades| ==>
      Fills(trades, time)[i] == Fill(trades[i].maker.price, trades[i].volume, time)
  {
    if trades != [] {
      FillAt(trades[1..], time);
      assert trades == [trades[0]] + trades[1..];
    }
  }

  /** A trade is for what its maker loses. */
  lemma {:induction false} TradeIsLoss(q: seq<Order>, sell: bool, limit: int, volume: int, i: nat)
    requires Sorted(!sell, q) && Positive(q) && i < |q| && i < |Sweep(q, sell, limit, volume).trades|
    ensures var s := Sweep(q, sell, limit, volume); s.trades[i].volume == q[i].volume - VolumeOf(s.rest, q[i].stamp)
  {
    hide Sweep, Depth, VolumeOf;
    SweepTakesPrefix(q, sell, limit, volume);
    SweepLeaves(q, sell, limit, volume);
    StampGone(!sell, q, Sweep(q, sell, limit, volume).rest, Depth(q, sell, limit, volume), i);
  }

  lemma FillVolumes(b: Book, price: int, volume: int, sell: bool, time: int, id: int)
    requires Wf(b)
    ensures var (b', r) := Place(b, price, volume, sell, time, id);
      forall i :: 0 <= i < |r.trades| && i < |Opposite(b, sell)| ==>
        var o := Opposite(b, sell)[i]; r.trades[i].volume == o.volume - VolumeOf(Opposite(b', sell), o.stamp)
  {
    var q := Opposite(b, sell);
    var s := Sweep(q, sell, price, volume);
    WfBySide(b, sell);
    FillAt(s.trades, time);
    forall i | 0 <= i < |s.trades| && i < |q|
      ensures s.trades[i].volume == q[i].volume - VolumeOf(s.rest, q[i].stamp)
    {
      TradeIsLoss(q, sell, price, volume, i);
    }
  }

  /** The fills of a sweep, maker by maker. */
  lemma {:induction false} FillsOfSweep(q: seq<Order>, sell: bool, price: int, volume: int, time: int)
    requires Sorted(!sell, q) && Positive(q)
    ensures var fills := Fills(Sweep(q, sell, price, volume).trades, time);
      && |fills| <= |q|
      && (forall i :: 0 <= i < |fills| ==>
            && fills[i].price == q[i].price && fills[i].volume > 0 && fills[i].timestamp == time
            && Crosses(sell, price, fills[i].price))
      && forall i, j :: 0 <= i < j < |fills| ==> !Better(!sell, fills[j].price, fills[i].price)
  {
    hide Sweep, Fills, Depth;
    SweepTakesPrefix(q, sell, price, volume);
    var s := Sweep(q, sell, price, volume);
    FillAt(s.trades, time);
    var fills := Fills(s.trades, time);
    assert forall i :: 0 <= i < |fills| ==> fills[i].price == q[i].price;
    forall i, j | 0 <= i < j < |fills| ensures !Better(!sell, fills[j].price, fills[i].price) {
      assert Before(!sell, q[i], q[j]);
    }
  }

  /** Fills are at resting prices within the taker's limit, for the positive volumes that the makers lose, and
      never get better for the taker as the sweep goes on. */
  lemma FillPrices(b: Book, price: int, volume: int, sell: bool, time: int, id: int)
    requires Wf(b)
    ensures var fills := Place(b, price, volume, sell, time, id).1.trades;
      && |fills| <= |Opposite(b, sell)|
      && (forall i :: 0 <= i < |fills| ==>
            && fills[i].price == Opposite(b, sell)[i].price && fills[i].volume > 0 && fills[i].timestamp == time
            && Crosses(sell, price, fills[i].price))
      && forall i, j :: 0 <= i < j < |fills| ==> !Better(!sell, fills[j].price, fills[i].price)
    ensures var (b', r) := Place(b, price, volume, sell, time, id);
      forall i :: 0 <= i < |r.trades| && i < |Opposite(b, sell)| ==>
        var o := Opposite(b, sell)[i]; r.trades[i].volume == o.volume - VolumeOf(Opposite(b', sell), o.stamp)
  {
    WfBySide(b, sell);
    FillVolumes(b, price, volume, sell, time, id);
    FillsOfSweep(Opposite(b, sell), sell, price, volume, time);
    assert Place(b, price, volume, sell, time, id).1.trades
      == Fills(Sweep(Opposite(b, sell), sell, price, volume).trades, time);
    hide Place, Sweep, Fills, Sorted, Positive, Better, Crosses;
  }

  function Filled(fills: seq<Fill>): int {
    if fills == [] then 0 else fills[0].volume + Filled(fills[1..])
  }

  lemma {:induction false} FilledIsTraded(trades: seq<Trade>, time: int)
    ensures Filled(Fills(trades, time)) == Traded(trades)
  {
    if trades != [] {
      FilledIsTraded(trades[1..], time);
      assert Fills(trades, time)[1..] == Fills(trades[1..], time);
    }
  }

  /** The result accounts for the whole order; a negative or zero volume is reported as fulfilled. */
  lemma {:induction false} ResultAccounts(b: Book, price: int, volume: int, sell: bool, time: int, id: int)
    requires Wf(b)
    ensures var r := Place(b, price, volume, sell, time, id).1;
      && r.orderID == id
      && Filled(r.trades) + r.remainingQty == volume
      && (r.fulfilled <==> r.remainingQty <= 0)
      && (volume >= 0 ==> r.remainingQty >= 0 && (r.fulfilled <==> r.remainingQty == 0))
      && (volume > 0 ==> (r.fulfilled <==> volume <= CrossingVolume(Opposite(b, sell), sell, price)))
  {
    var q := Opposite(b, sell);
    WfBySide(b, sell);
    TradesAllThatCrosses(q, sell, price, volume);
    FilledIsTraded(Sweep(q, sell, price, volume).trades, time);
  }

  // ---------- Best execution ----------

  /** A way of taking volume from the orders of a queue. */
  ghost predicate Allocation(q: seq<Order>, take: seq<int>) {
    |take| == |q| && forall i :: 0 <= i < |q| ==> 0 <= take[i] <= q[i].volume
  }

  function Total(take: seq<int>): int {
    if take == [] then 0 else take[0] + Total(take[1..])
  }

  function Cost(q: seq<Order>, take: seq<int>): int
    requires |q| == |take|
  {
    if q == [] then 0 else take[0] * q[0].price + Cost(q[1..], take[1..])
  }

  /** Money that changes hands in a sequence of trades. */
  function Notional(trades: seq<Trade>): int {
    if trades == [] then 0 else trades[0].volume * trades[0].maker.price + Notional(trades[1..])
  }

  /** The trades of a sweep as an allocation over the whole queue. */
  function TakenBy(trades: seq<Trade>, n: nat): seq<int>
    requires |trades| <= n
  {
    seq(n, i requires 0 <= i < n => if i < |trades| then trades[i].volume else 0)
  }

  lemma {:induction false} TakenByZero(q: seq<Order>, take: seq<int>)
    requires |take| == |q| && forall i :: 0 <= i < |q| ==> take[i] == 0
    ensures Total(take) == 0 && Cost(q, take) == 0
  {
    if q != [] { TakenByZero(q[1..], take[1..]); }
  }

  lemma {:induction false} TakenByCosts(q: seq<Order>, trades: seq<Trade>)
    requires |trades| <= |q| && forall i :: 0 <= i < |trades| ==> trades[i].maker == q[i]
    ensures Total(TakenBy(trades, |q|)) == Traded(trades)
    ensures Cost(q, TakenBy(trades, |q|)) == Notional(trades)
  {
    var take := TakenBy(trades, |q|);
    if trades == [] {
      TakenByZero(q, take);
    } else {
      TakenByCosts(q[1..], trades[1..]);
      assert take[1..] == TakenBy(trades[1..], |q| - 1);
    }
  }

  /** Where `x` takes more than `y` the price is no better than the pivot, where less no worse. */
  ghost predicate Favours(sign: int, x: int, y: int, price: int, pivot: int) {
    sign * ((x - y) * (price - pivot)) >= 0
  }

  /** If `x` differs from `y` only by moving volume away from prices better than the pivot towards worse
      ones, then at the pivot price as a reference `x` costs no less (`sign` is 1) or earns no more (-1). */
  lemma {:induction false} Exchange(q: seq<Order>, x: seq<int>, y: seq<int>, pivot: int, sign: int)
    requires |x| == |q| && |y| == |q|
    requires forall i :: 0 <= i < |q| ==> Favours(sign, x[i], y[i], q[i].price, pivot)
    ensures sign * ((Cost(q, x) - pivot * Total(x)) - (Cost(q, y) - pivot * Total(y))) >= 0
  {
    if q != [] {
      Exchange(q[1..], x[1..], y[1..], pivot, sign);
      var cx, cy, tx, ty := Cost(q[1..], x[1..]), Cost(q[1..], y[1..]), Total(x[1..]), Total(y[1..]);
      var p := q[0].price;
      assert (x[0] * p + cx - pivot * (x[0] + tx)) - (y[0] * p + cy - pivot * (y[0] + ty))
          == (x[0] - y[0]) * (p - pivot) + ((cx - pivot * tx) - (cy - pivot * ty));
      Distribute(sign, (x[0] - y[0]) * (p - pivot), (cx - pivot * tx) - (cy - pivot * ty));
    }
  }

  lemma {:induction false} ExchangeEqual(q: seq<Order>, x: seq<int>, y: seq<int>, pivot: int, sign: int)
    requires |x| == |q| && |y| == |q| && Total(x) == Total(y)
    requires forall i :: 0 <= i < |q| ==> Favours(sign, x[i], y[i], q[i].price, pivot)
    ensures sign * (Cost(q, x) - Cost(q, y)) >= 0
  {
    Exchange(q, x, y, pivot, sign);
    assert pivot * Total(x) == pivot * Total(y);
  }

  lemma Distribute(s: int, a: int, b: int)
    ensures s * (a + b) == s * a + s * b
  {
  }

  lemma SameSign(sign: int, d: int, e: int)
    requires sign == 1 || sign == -1
    requires (d <= 0 && sign * e <= 0) || (d >= 0 && sign * e >= 0) || e == 0
    ensures sign * (d * e) >= 0
  {
  }

  /** The sweep takes everything better than its last maker and nothing worse. */
  lemma PivotTerm(q: seq<Order>, sell: bool, trades: seq<Trade>, take: seq<int>, i: nat)
    requires Sorted(!sell, q) && Allocation(q, take) && i < |q| && 0 < |trades| <= |q|
    requires forall j :: 0 <= j < |trades| - 1 ==> trades[j].volume == q[j].volume
    ensures Favours(if sell then -1 else 1, take[i], TakenBy(trades, |q|)[i], q[i].price, q[|trades| - 1].price)
  {
    var sign, last, greedy := if sell then -1 else 1, |trades| - 1, TakenBy(trades, |q|);
    if i < last {
      assert Before(!sell, q[i], q[last]);
      assert greedy[i] == q[i].volume;
    } else if i > last {
      assert Before(!sell, q[last], q[i]);
      assert greedy[i] == 0;
    }
    SameSign(sign, take[i] - greedy[i], q[i].price - q[last].price);
  }

  lemma {:induction false} GreedyIsBest(q: seq<Order>, sell: bool, trades: seq<Trade>, take: seq<int>)
    requires Sorted(!sell, q) && Allocation(q, take) && 0 < |trades| <= |q|
    requires forall i :: 0 <= i < |trades| ==> trades[i].maker == q[i]
    requires forall i :: 0 <= i < |trades| - 1 ==> trades[i].volume == q[i].volume
    requires Total(take) == Traded(trades)
    ensures if sell then Notional(trades) >= Cost(q, take) else Notional(trades) <= Cost(q, take)
  {
    var sign, pivot, greedy := if sell then -1 else 1, q[|trades| - 1].price, TakenBy(trades, |q|);
    TakenByCosts(q, trades);
    forall i | 0 <= i < |q| ensures Favours(sign, take[i], greedy[i], q[i].price, pivot) {
      PivotTerm(q, sell, trades, take, i);
    }
    ExchangeEqual(q, take, greedy, pivot, sign);
  }

  /** Best execution: among all ways of taking the traded quantity from the resting orders, with or
      without regard to the limit price, the sweep is cheapest for a buyer and dearest for a seller. */
  lemma {:induction false} BestExecution(q: seq<Order>, sell: bool, limit: int, volume: int, take: seq<int>)
    requires Sorted(!sell, q) && Positive(q) && Allocation(q, take)
    requires Total(take) == Traded(Sweep(q, sell, limit, volume).trades)
    ensures var n := Notional(Sweep(q, sell, limit, volume).trades);
      if sell then n >= Cost(q, take) else n <= Cost(q, take)
  {
    SweepTakesPrefix(q, sell, limit, volume);
    if Sweep(q, sell, limit, volume).trades == [] {
      AllZero(q, take);
    } else {
      GreedyIsBest(q, sell, Sweep(q, sell, limit, volume).trades, take);
    }
  }

  lemma {:induction false} AllZero(q: seq<Order>, take: seq<int>)
    requires Allocation(q, take) && Total(take) == 0
    ensures Cost(q, take) == 0
  {
    if q != [] {
      NonNegative(q[1..], take[1..]);
      AllZero(q[1..], take[1..]);
    }
  }

  lemma {:induction false} NonNegative(q: seq<Order>, take: seq<int>)
    requires Allocation(q, take)
    ensures Total(take) >= 0
  {
    if q != [] { NonNegative(q[1..], take[1..]); }
  }
}
