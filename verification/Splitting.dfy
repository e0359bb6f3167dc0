/** Splitting an order into two placements makes no difference to anyone else. */
module Splitting {
  import opened Book
  import opened Sweeps
  import opened Levels
  import opened Invariants
  import opened Execution

  /** Volume traded against the resting order with the given stamp. */
  function TradedFrom(trades: seq<Trade>, stamp: nat): int {
    if trades == [] then 0
    else (if trades[0].maker.stamp == stamp then trades[0].volume else 0) + TradedFrom(trades[1..], stamp)
  }

  lemma {:induction false} HeadIsAlone(q: seq<Order>, sell: bool, limit: int, volume: int)
    requires q != [] && Sorted(!sell, q) && Positive(q)
    ensures VolumeOf(q[1..], q[0].stamp) == VolumeOf(Sweep(q[1..], sell, limit, volume).rest, q[0].stamp) == 0
  {
    hide Sweep, Depth;
    SweepLeaves(q[1..], sell, limit, volume);
    RemoveAbsent(q[1..], q[0].stamp, 0);
    RemoveAbsent(Sweep(q[1..], sell, limit, volume).rest, q[0].stamp, 0);
  }

  /** Each maker loses from its resting volume exactly what was traded against it. */
  lemma {:induction false} SweepTakesFrom(q: seq<Order>, sell: bool, limit: int, volume: int, stamp: nat)
    requires Sorted(!sell, q) && Positive(q)
    ensures var s := Sweep(q, sell, limit, volume);
      TradedFrom(s.trades, stamp) == VolumeOf(q, stamp) - VolumeOf(s.rest, stamp)
  {
    if q == [] || !Crosses(sell, limit, q[0].price) || volume <= 0 {
    } else if q[0].volume > volume {
      assert Sweep(q, sell, limit, volume).rest[1..] == q[1..];
    } else {
      SortedTail(!sell, q);
      HeadIsAlone(q, sell, limit, volume - q[0].volume);
      SweepTakesFrom(q[1..], sell, limit, volume - q[0].volume, stamp);
      var s, r := Sweep(q, sell, limit, volume), Sweep(q[1..], sell, limit, volume - q[0].volume);
      assert s.trades == [Trade(q[0], q[0].volume)] + r.trades && s.rest == r.rest && s.trades[1..] == r.trades;
      hide Sweep, Sorted, Positive;
    }
  }

  /** The first part ends within the front order. */
  lemma {:induction false} SplitInFront(q: seq<Order>, sell: bool, limit: int, x: int, y: int)
    requires q != [] && Crosses(sell, limit, q[0].price) && 0 < x < q[0].volume && y >= 0
    ensures var first := Sweep(q, sell, limit, x);
      var second, both := Sweep(first.rest, sell, limit, y), Sweep(q, sell, limit, x + y);
      second.rest == both.rest && first.left + second.left == both.left
  {
    var rest := [q[0].(volume := q[0].volume - x)] + q[1..];
    assert Sweep(q, sell, limit, x) == Swept(rest, [Trade(q[0], x)], 0) && rest[1..] == q[1..];
    if y < q[0].volume - x {
      assert Sweep(rest, sell, limit, y).rest == Sweep(q, sell, limit, x + y).rest;
    }
  }

  /** Sweeping twice at one limit is sweeping once for the sum. */
  lemma {:induction false} SweepSplit(q: seq<Order>, sell: bool, limit: int, x: int, y: int)
    requires Positive(q) && x >= 0 && y >= 0
    ensures var first := Sweep(q, sell, limit, x);
      var second, both := Sweep(first.rest, sell, limit, y), Sweep(q, sell, limit, x + y);
      second.rest == both.rest && first.left + second.left == both.left
  {
    if q == [] || !Crosses(sell, limit, q[0].price) || x == 0 {
    } else if q[0].volume > x {
      SplitInFront(q, sell, limit, x, y);
    } else {
      SweepSplit(q[1..], sell, limit, x - q[0].volume, y);
      var first := Sweep(q, sell, limit, x);
      assert first.rest == Sweep(q[1..], sell, limit, x - q[0].volume).rest;
      assert Sweep(q, sell, limit, x + y).rest == Sweep(q[1..], sell, limit, x + y - q[0].volume).rest;
    }
  }

  /** Total volume resting at a price once `left` has been added there, if there is any left. */
  lemma {:induction false} RestedVolume(b: Book, price: int, volume: int, sell: bool, time: int, id: int, p: int)
    requires Wf(b)
    ensures var (b', r) := Place(b, price, volume, sell, time, id);
      SumVolume(Level(Own(b', sell), p)) == SumVolume(Level(Own(b, sell), p))
        + if p == price && r.remainingQty > 0 then r.remainingQty else 0
  {
    WfBySide(b, sell);
    var s := Sweep(Opposite(b, sell), sell, price, volume);
    if s.left > 0 {
      var o := Order(id, price, s.left, b.clock);
      LevelInsert(sell, Own(b, sell), o, p);
      SumConcat(Level(Own(b, sell), p), if p == price then [o] else []);
    }
  }

  /** Placing x and then y at one price and side leaves the opposite book, the unfilled quantity, the
      traded quantity and the own-side volume at every price as placing x + y once does. */
  lemma PlaceSplit(b: Book, price: int, x: int, y: int, sell: bool, time: int, ids: (int, int, int), p: int)
    requires Wf(b) && x >= 0 && y >= 0
    ensures var (b1, r1) := Place(b, price, x, sell, time, ids.0);
      var (b2, r2) := Place(b1, price, y, sell, time, ids.1);
      var (c, r) := Place(b, price, x + y, sell, time, ids.2);
      && Opposite(b2, sell) == Opposite(c, sell)
      && SumVolume(Level(Own(b2, sell), p)) == SumVolume(Level(Own(c, sell), p))
      && r1.remainingQty + r2.remainingQty == r.remainingQty
      && Filled(r1.trades) + Filled(r2.trades) == Filled(r.trades)
  {
    hide Place, Sweep, Wf, Positive, Level, SumVolume, Filled, Opposite, Own;
    OppositePositive(b, sell);
    SweepSplit(Opposite(b, sell), sell, price, x, y);
    PlaceKeepsWf(b, price, x, sell, time, ids.0);
    PlaceParts(b, price, x, sell, time, ids.0, p);
    PlaceParts(Place(b, price, x, sell, time, ids.0).0, price, y, sell, time, ids.1, p);
    PlaceParts(b, price, x + y, sell, time, ids.2, p);
  }

  lemma OppositePositive(b: Book, sell: bool)
    requires Wf(b)
    ensures Positive(Opposite(b, sell))
  {
  }

  /** The parts of a placement that a splitter can see. */
  lemma {:induction false} PlaceParts(b: Book, price: int, volume: int, sell: bool, time: int, id: int, p: int)
    requires Wf(b) && volume >= 0
    ensures var (b', r) := Place(b, price, volume, sell, time, id);
      var s := Sweep(Opposite(b, sell), sell, price, volume);
      && Opposite(b', sell) == s.rest && r.remainingQty == s.left >= 0 && Filled(r.trades) == volume - s.left
      && SumVolume(Level(Own(b', sell), p)) ==
           SumVolume(Level(Own(b, sell), p)) + if p == price then r.remainingQty else 0
  {
    ResultAccounts(b, price, volume, sell, time, id);
    RestedVolume(b, price, volume, sell, time, id, p);
  }

  /** Each maker gives the same volume to the two parts together as it would give to the whole. */
  lemma SplitTakesFromEach(q: seq<Order>, sell: bool, limit: int, x: int, y: int, stamp: nat)
    requires Sorted(!sell, q) && Positive(q) && x >= 0 && y >= 0
    ensures var first := Sweep(q, sell, limit, x);
      TradedFrom(first.trades, stamp) + TradedFrom(Sweep(first.rest, sell, limit, y).trades, stamp)
        == TradedFrom(Sweep(q, sell, limit, x + y).trades, stamp)
  {
    SweepSplit(q, sell, limit, x, y);
    SweepTakesFrom(q, sell, limit, x, stamp);
    SweepTakesFrom(q, sell, limit, x + y, stamp);
    var first := Sweep(q, sell, limit, x);
    var clock := ClockAbove(q);
    SweepLeaves(q, sell, limit, x);
    LeavesQueue(!sell, q, Depth(q, sell, limit, x), first.rest, clock);
    SweepTakesFrom(first.rest, sell, limit, y, stamp);
  }

  function ClockAbove(q: seq<Order>): (clock: nat)
    ensures StampsBelow(q, clock)
  {
    if q == [] then 0
    else
      var c := ClockAbove(q[1..]);
      assert q == [q[0]] + q[1..];
      if q[0].stamp < c then c else q[0].stamp + 1
  }
}
