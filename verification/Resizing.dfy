/** Modify against its naive replacement, cancel and place again. */
module Resizing {
  import opened Book
  import opened Levels
  import opened Invariants
  import opened Identity

  /** What can be seen of an order from outside: not its stamp. */
  datatype Visible = Visible(id: int, price: int, volume: int)

  function Shape(q: seq<Order>): seq<Visible> {
    seq(|q|, i requires 0 <= i < |q| => Visible(q[i].id, q[i].price, q[i].volume))
  }

  /** The order at position `i` of its side, found under its own id. */
  ghost predicate IndexedAt(b: Book, sell: bool, i: nat) {
    && i < |Own(b, sell)| && Own(b, sell)[i].id in b.index
    && b.index[Own(b, sell)[i].id] == Own(b, sell)[i].stamp
  }

  lemma ModifyIs(b: Book, sell: bool, i: nat, size: int)
    requires Wf(b) && IndexedAt(b, sell, i)
    ensures var (own, o) := (Own(b, sell), Own(b, sell)[i]);
      Modify(b, o.id, size) ==
        if 0 < size < o.volume then (WithSides(b, sell, Opposite(b, sell), own[i := o.(volume := size)]), true)
        else (b, false)
  {
    var own, opp, o := Own(b, sell), Opposite(b, sell), Own(b, sell)[i];
    WfBySide(b, sell);
    StampIsAt(sell, own, i, size);
    RemoveAbsent(opp, o.stamp, size);
    VolumeOfConcat(b.bids, b.asks, o.stamp);
  }

  lemma CancelIs(b: Book, sell: bool, i: nat)
    requires Wf(b) && IndexedAt(b, sell, i)
    ensures var (own, o) := (Own(b, sell), Own(b, sell)[i]);
      Cancel(b, o.id) ==
        (WithSides(b, sell, Opposite(b, sell), own[..i] + own[i + 1..]).(index := b.index - {o.id}), true)
  {
    WfBySide(b, sell);
    StampIsAt(sell, Own(b, sell), i, 0);
    RemoveAbsent(Opposite(b, sell), Own(b, sell)[i].stamp, 0);
  }

  /** Re-placing a cancelled order at its old price meets nothing that crosses. */
  lemma {:induction false} ReplaceNeverTrades(b: Book, sell: bool, i: nat, size: int, time: int)
    requires Wf(b) && IndexedAt(b, sell, i) && size > 0
    ensures var o := Own(b, sell)[i];
      var c := Cancel(b, o.id).0;
      var (p, r) := Place(c, o.price, size, sell, time, o.id);
      && r == OrderResult(o.id, false, size, [])
      && Opposite(p, sell) == Opposite(b, sell)
      && Own(p, sell) == Insert(sell, Remove(Own(b, sell), o.stamp), Order(o.id, o.price, size, b.clock))
  {
    var o := Own(b, sell)[i];
    WfBySide(b, sell);
    CancelIs(b, sell, i);
    StampIsAt(sell, Own(b, sell), i, 0);
    var opp := Opposite(b, sell);
    assert opp != [] ==> !Crosses(sell, o.price, opp[0].price);
    assert Sweep(opp, sell, o.price, size) == Swept(opp, [], size);
  }

  /** Resizing an order in place and moving it to the back of its level give equal totals everywhere. */
  lemma {:induction false} EqualTotals(sell: bool, own: seq<Order>, o: Order, size: int, again: Order, price: int)
    requires Sorted(sell, own) && o in own && again.price == o.price && again.volume == size
    ensures var x := Level(Resize(own, o.stamp, size), price);
      var y := Level(Insert(sell, Remove(own, o.stamp), again), price);
      |x| == |y| && SumVolume(x) == SumVolume(y)
  {
    var k := RemoveKeepsQueue(sell, own, o.stamp);
    LevelOfStamp(sell, own, o.stamp, size, price);
    LevelInsert(sell, Remove(own, o.stamp), again, price);
    var lv := Level(own, price);
    SumConcat(Remove(lv, o.stamp), if price == o.price then [again] else []);
    SumOfStamp(lv, o.stamp, size);
    LevelMembers(own, price, o);
    if price == o.price {
      assert o in lv;
    } else {
      forall j | 0 <= j < |lv| ensures lv[j].stamp != o.stamp {
        LevelMembers(own, price, lv[j]);
      }
      RemoveAbsent(lv, o.stamp, size);
    }
  }

  /** At every price, modify leaves the same number of orders and the same total volume as cancelling the
      order and placing it again with the new size. */
  lemma {:induction false} ModifyMatchesReplace(b: Book, sell: bool, i: nat, size: int, time: int, price: int)
    requires Wf(b) && IndexedAt(b, sell, i) && 0 < size < Own(b, sell)[i].volume
    ensures var o := Own(b, sell)[i];
      var (m, accepted) := Modify(b, o.id, size);
      var p := Place(Cancel(b, o.id).0, o.price, size, sell, time, o.id).0;
      && accepted && Opposite(m, sell) == Opposite(p, sell) == Opposite(b, sell)
      && |Level(Own(m, sell), price)| == |Level(Own(p, sell), price)|
      && SumVolume(Level(Own(m, sell), price)) == SumVolume(Level(Own(p, sell), price))
  {
    var own, o := Own(b, sell), Own(b, sell)[i];
    assert Sorted(sell, own) by { WfBySide(b, sell); }
    ModifyIs(b, sell, i, size);
    ReplaceNeverTrades(b, sell, i, size, time);
    StampIsAt(sell, own, i, size);
    EqualTotals(sell, own, o, size, Order(o.id, o.price, size, b.clock), price);
  }

  /** Within one level: resizing in place looks like removing and appending exactly at the back. */
  lemma ShapeAtBack(lv: seq<Order>, j: nat, o: Order, again: Order)
    requires j < |lv| && lv[j].id == o.id
    requires o.id == again.id && o.price == again.price && o.volume == again.volume
    requires forall i :: 0 <= i < |lv| && i != j ==> lv[i].id != o.id
    ensures Shape(lv[j := o]) == Shape(lv[..j] + lv[j + 1..] + [again]) <==> j == |lv| - 1
  {
    var x, y := Shape(lv[j := o]), Shape(lv[..j] + lv[j + 1..] + [again]);
    if j == |lv| - 1 {
      assert x == y;
    } else {
      assert y[j].id == lv[j + 1].id && x[j].id == o.id;
    }
  }

  lemma PositionInLevel(sell: bool, q: seq<Order>, o: Order) returns (j: nat)
    requires Sorted(sell, q) && o in q
    ensures j < |Level(q, o.price)| && Level(q, o.price)[j] == o
    ensures Sorted(sell, Level(q, o.price))
  {
    LevelMembers(q, o.price, o);
    LevelIsSorted(sell, q, o.price);
    j :| 0 <= j < |Level(q, o.price)| && Level(q, o.price)[j] == o;
  }

  lemma {:induction false} LevelIdsDiffer(b: Book, sell: bool, p: int)
    requires Wf(b) && IndexComplete(b)
    ensures var lv := Level(Own(b, sell), p); forall i, j :: 0 <= i < j < |lv| ==> lv[i].id != lv[j].id
  {
    var own, lv := Own(b, sell), Level(Own(b, sell), p);
    WfBySide(b, sell);
    CompleteBySide(b, sell);
    LevelIsFifo(sell, own, p);
    forall i, j | 0 <= i < j < |lv| ensures lv[i].id != lv[j].id {
      LevelMembers(own, p, lv[i]);
      LevelMembers(own, p, lv[j]);
    }
  }

  ghost predicate LastAtLevel(q: seq<Order>, o: Order) {
    Level(q, o.price) != [] && Level(q, o.price)[|Level(q, o.price)| - 1] == o
  }

  ghost predicate SameShapes(q: seq<Order>, r: seq<Order>) {
    forall price :: Shape(Level(q, price)) == Shape(Level(r, price))
  }

  lemma {:induction false} SameShapesIffLast(sell: bool, own: seq<Order>, o: Order, size: int, again: Order)
    requires Sorted(sell, own) && o in own && again == Order(o.id, o.price, size, again.stamp)
    requires var lv := Level(own, o.price); forall i, j :: 0 <= i < j < |lv| ==> lv[i].id != lv[j].id
    ensures SameShapes(Resize(own, o.stamp, size), Insert(sell, Remove(own, o.stamp), again)) <==> LastAtLevel(own, o)
  {
    var q, r := Resize(own, o.stamp, size), Insert(sell, Remove(own, o.stamp), again);
    var k := RemoveKeepsQueue(sell, own, o.stamp);
    var lv := Level(own, o.price);
    var j := PositionInLevel(sell, own, o);
    StampIsAt(sell, lv, j, size);
    LevelOfStamp(sell, own, o.stamp, size, o.price);
    LevelInsert(sell, Remove(own, o.stamp), again, o.price);
    ShapeAtBack(lv, j, o.(volume := size), again);
    assert Shape(Level(q, o.price)) == Shape(Level(r, o.price)) <==> j == |lv| - 1;
    forall price | price != o.price ensures Level(q, price) == Level(r, price) {
      OtherLevelsAgree(sell, own, o, size, again, price);
    }
    assert LastAtLevel(own, o) <==> j == |lv| - 1;
  }

  /** The two ways leave identical queues if and only if the order was last at its level. */
  lemma ModifyKeepsPriority(b: Book, sell: bool, i: nat, size: int, time: int)
    requires Wf(b) && IndexComplete(b) && i < |Own(b, sell)| && 0 < size < Own(b, sell)[i].volume
    ensures var o := Own(b, sell)[i];
      var m, p := Modify(b, o.id, size).0, Place(Cancel(b, o.id).0, o.price, size, sell, time, o.id).0;
      SameShapes(Own(m, sell), Own(p, sell)) <==> LastAtLevel(Own(b, sell), o)
  {
    var own, o := Own(b, sell), Own(b, sell)[i];
    assert IndexedAt(b, sell, i) by { CompleteBySide(b, sell); }
    assert Sorted(sell, own) by { WfBySide(b, sell); }
    ModifyIs(b, sell, i, size);
    ReplaceNeverTrades(b, sell, i, size, time);
    StampIsAt(sell, own, i, size);
    LevelIdsDiffer(b, sell, o.price);
    SameShapesIffLast(sell, own, o, size, Order(o.id, o.price, size, b.clock));
  }

  lemma {:induction false} OtherLevelsAgree(sell: bool, own: seq<Order>, o: Order, size: int, again: Order, price: int)
    requires Sorted(sell, own) && o in own && price != o.price == again.price
    ensures Level(Resize(own, o.stamp, size), price) == Level(Insert(sell, Remove(own, o.stamp), again), price)
  {
    var lv := Level(own, price);
    var k := RemoveKeepsQueue(sell, own, o.stamp);
    LevelOfStamp(sell, own, o.stamp, size, price);
    LevelInsert(sell, Remove(own, o.stamp), again, price);
    forall j | 0 <= j < |lv| ensures lv[j].stamp != o.stamp {
      LevelMembers(own, price, lv[j]);
    }
    RemoveAbsent(lv, o.stamp, size);
  }
}
