/**
 What every operation on the book keeps: sorted queues with strictly increasing stamps inside a level,
 positive volumes, an uncrossed book, and an index that is sound for all inputs and complete exactly
 as long as no id collides with a resting one.
 */
module Invariants {
  import opened Book
  import opened Sweeps

  // ---------- The two sides, seen from an incoming order ----------

  ghost predicate NoCross(sell: bool, opp: seq<Order>, own: seq<Order>) {
    forall i, j :: 0 <= i < |opp| && 0 <= j < |own| ==> !Crosses(sell, own[j].price, opp[i].price)
  }

  ghost predicate WfQueue(ask: bool, q: seq<Order>, clock: nat) {
    Sorted(ask, q) && Positive(q) && StampsBelow(q, clock)
  }

  ghost predicate WfSides(sell: bool, opp: seq<Order>, own: seq<Order>, clock: nat) {
    WfQueue(!sell, opp, clock) && WfQueue(sell, own, clock) && StampsDisjoint(opp, own)
  }

  lemma WfBySide(b: Book, sell: bool)
    ensures WfQueues(b) <==> WfSides(sell, Opposite(b, sell), Own(b, sell), b.clock)
    ensures Uncrossed(b) <==> NoCross(sell, Opposite(b, sell), Own(b, sell))
  {
    if sell {
    } else {
      assert StampsDisjoint(b.asks, b.bids) <==> StampsDisjoint(b.bids, b.asks);
      if NoCross(sell, b.asks, b.bids) {
        forall i, j | 0 <= i < |b.bids| && 0 <= j < |b.asks| ensures b.bids[i].price < b.asks[j].price {
          assert !Crosses(sell, b.bids[i].price, b.asks[j].price);
        }
      }
    }
  }

  lemma LeavesQueue(ask: bool, q: seq<Order>, k: nat, rest: seq<Order>, clock: nat)
    requires WfQueue(ask, q, clock) && Leaves(q, k, rest)
    ensures WfQueue(ask, rest, clock)
  {
    forall i, j | 0 <= i < j < |rest| ensures Before(ask, rest[i], rest[j]) && rest[i].stamp != rest[j].stamp {
      assert Before(ask, q[i + k], q[j + k]);
    }
  }

  /** If a sweep leaves volume over, it has consumed exactly the orders that cross. */
  lemma {:induction false} LeftoverCrossesNothing(q: seq<Order>, sell: bool, limit: int, volume: int)
    requires Sorted(!sell, q) && Positive(q)
    requires Sweep(q, sell, limit, volume).left > 0
    ensures var k := Depth(q, sell, limit, volume);
      k <= |q| && Sweep(q, sell, limit, volume).rest == q[k..]
      && forall i :: 0 <= i < |q| ==> (Crosses(sell, limit, q[i].price) <==> i < k)
  {
    SweepTakesPrefix(q, sell, limit, volume);
    var k := Depth(q, sell, limit, volume);
    forall i | 0 <= i < |q| ensures Crosses(sell, limit, q[i].price) <==> i < k {
      if k < i { assert Before(!sell, q[k], q[i]); }
    }
  }

  /** Inserting adds one order and keeps the others. */
  lemma {:induction false} InsertMembers(ask: bool, q: seq<Order>, o: Order)
    requires Sorted(ask, q)
    ensures |Insert(ask, q, o)| == |q| + 1
    ensures forall i :: 0 <= i < |q| + 1 ==> Insert(ask, q, o)[i] == o || Insert(ask, q, o)[i] in q
    ensures o in Insert(ask, q, o) && forall x :: x in q ==> x in Insert(ask, q, o)
  {
    var k := InsertShape(ask, q, o);
  }

  lemma {:induction false} InsertKeepsQueue(ask: bool, q: seq<Order>, o: Order)
    requires WfQueue(ask, q, o.stamp) && o.volume > 0
    ensures WfQueue(ask, Insert(ask, q, o), o.stamp + 1)
  {
    InsertKeepsSorted(ask, q, o);
    InsertMembers(ask, q, o);
  }

  lemma {:induction false} InsertKeepsSorted(ask: bool, q: seq<Order>, o: Order)
    requires Sorted(ask, q) && StampsBelow(q, o.stamp)
    ensures Sorted(ask, Insert(ask, q, o))
  {
    var k := InsertShape(ask, q, o);
    PutKeepsSorted(ask, q, k, o);
  }

  lemma PutKeepsSorted(ask: bool, q: seq<Order>, k: nat, o: Order)
    requires k <= |q| && Sorted(ask, q) && StampsBelow(q, o.stamp)
    requires forall i :: 0 <= i < |q| ==> (Better(ask, o.price, q[i].price) <==> k <= i)
    ensures Sorted(ask, q[..k] + [o] + q[k..])
  {
    var r := q[..k] + [o] + q[k..];
    forall i, j | 0 <= i < j < |r| ensures Before(ask, r[i], r[j]) && r[i].stamp != r[j].stamp {
      if i != k && j != k {
        assert r[i] == q[if i < k then i else i - 1] && r[j] == q[if j < k then j else j - 1];
      }
    }
  }

  // ---------- Place ----------

  lemma LeavesApart(q: seq<Order>, k: nat, rest: seq<Order>, sell: bool, other: seq<Order>)
    requires Leaves(q, k, rest)
    requires StampsDisjoint(q, other) && NoCross(sell, q, other)
    ensures StampsDisjoint(rest, other) && NoCross(sell, rest, other)
  {
  }

  lemma {:induction false} InsertKeepsOthersApart(opp: seq<Order>, sell: bool, own: seq<Order>, o: Order)
    requires Sorted(sell, own) && StampsDisjoint(opp, own) && StampsBelow(opp, o.stamp)
    ensures StampsDisjoint(opp, Insert(sell, own, o))
    ensures NoCross(sell, opp, own) && (forall i :: 0 <= i < |opp| ==> !Crosses(sell, o.price, opp[i].price))
      ==> NoCross(sell, opp, Insert(sell, own, o))
  {
    InsertMembers(sell, own, o);
  }

  /** Resting an order that meets nothing it crosses keeps both sides in order. */
  lemma {:induction false} RestKeepsSides(sell: bool, opp: seq<Order>, own: seq<Order>, o: Order)
    requires WfSides(sell, opp, own, o.stamp) && NoCross(sell, opp, own) && o.volume > 0
    requires forall i :: 0 <= i < |opp| ==> !Crosses(sell, o.price, opp[i].price)
    ensures WfSides(sell, opp, Insert(sell, own, o), o.stamp + 1) && NoCross(sell, opp, Insert(sell, own, o))
  {
    InsertKeepsQueue(sell, own, o);
    InsertKeepsOthersApart(opp, sell, own, o);
  }

  /** So does a sweep of the opposite side. */
  lemma {:induction false} SweepKeepsSides(sell: bool, opp: seq<Order>, own: seq<Order>, limit: int, volume: int,
                                           clock: nat)
    requires WfSides(sell, opp, own, clock) && NoCross(sell, opp, own)
    ensures var rest := Sweep(opp, sell, limit, volume).rest;
      WfSides(sell, rest, own, clock) && NoCross(sell, rest, own)
  {
    SweepLeaves(opp, sell, limit, volume);
    var d, rest := Depth(opp, sell, limit, volume), Sweep(opp, sell, limit, volume).rest;
    LeavesQueue(!sell, opp, d, rest, clock);
    LeavesApart(opp, d, rest, sell, own);
  }

  lemma SidesAfterPlace(sell: bool, opp: seq<Order>, own: seq<Order>, limit: int, volume: int, id: int, clock: nat)
    requires WfSides(sell, opp, own, clock) && NoCross(sell, opp, own)
    ensures var s := Sweep(opp, sell, limit, volume);
      var own' := if s.left > 0 then Insert(sell, own, Order(id, limit, s.left, clock)) else own;
      WfSides(sell, s.rest, own', clock + 1) && NoCross(sell, s.rest, own')
  {
    SweepKeepsSides(sell, opp, own, limit, volume, clock);
    var s := Sweep(opp, sell, limit, volume);
    if s.left > 0 {
      LeftoverCrossesNothing(opp, sell, limit, volume);
      RestKeepsSides(sell, s.rest, own, Order(id, limit, s.left, clock));
    }
  }

  lemma PlaceKeepsQueues(b: Book, price: int, volume: int, sell: bool, time: int, id: int)
    requires Wf(b)
    ensures WfQueues(Place(b, price, volume, sell, time, id).0)
    ensures Uncrossed(Place(b, price, volume, sell, time, id).0)
  {
    WfBySide(b, sell);
    WfBySide(Place(b, price, volume, sell, time, id).0, sell);
    SidesAfterPlace(sell, Opposite(b, sell), Own(b, sell), price, volume, id, b.clock);
  }

  lemma {:induction false} HasAfterInsert(ask: bool, q: seq<Order>, o: Order, stamp: nat, id: int)
    requires Sorted(ask, q)
    ensures Has(Insert(ask, q, o), stamp, id) <==> Has(q, stamp, id) || (o.stamp == stamp && o.id == id)
  {
    InsertMembers(ask, q, o);
    var q' := Insert(ask, q, o);
    if Has(q, stamp, id) {
      var i :| 0 <= i < |q| && q[i].stamp == stamp && q[i].id == id;
      assert q[i] in q';
    }
    assert o in q';
  }

  lemma HasAfterLeaves(q: seq<Order>, k: nat, rest: seq<Order>, stamp: nat, id: int)
    requires Leaves(q, k, rest) && Has(q, stamp, id)
    requires forall i :: 0 <= i < k ==> q[i].id != id
    ensures Has(rest, stamp, id)
  {
    var i :| 0 <= i < |q| && q[i].stamp == stamp && q[i].id == id;
    assert rest[i - k].stamp == stamp && rest[i - k].id == id;
  }

  ghost predicate Found(b: Book, stamp: nat, id: int) {
    Has(b.bids, stamp, id) || Has(b.asks, stamp, id)
  }

  /** What an id finds after a placement: the new order, or what it found before. */
  lemma FoundAfterPlace(b: Book, price: int, volume: int, sell: bool, time: int, id: int, x: int)
    requires Wf(b) && x in Place(b, price, volume, sell, time, id).0.index
    ensures var b' := Place(b, price, volume, sell, time, id).0;
      Has(Opposite(b', sell), b'.index[x], x) || Has(Own(b', sell), b'.index[x], x)
  {
    var opp, own := Opposite(b, sell), Own(b, sell);
    WfBySide(b, sell);
    hide Sweep, Depth, EraseFilled, Insert, Leaves, Has, Before, Better, Crosses;
    var s := Sweep(opp, sell, price, volume);
    var o, stamp := Order(id, price, s.left, b.clock), Place(b, price, volume, sell, time, id).0.index[x];
    SweepLeaves(opp, sell, price, volume);
    SweepErases(b.index, opp, sell, price, volume, x);
    assert s.left > 0 && x == id ==> stamp == o.stamp;
    if s.left > 0 { HasAfterInsert(sell, own, o, stamp, x); }
    if !(s.left > 0 && x == id) {
      assert Has(opp, stamp, x) || Has(own, stamp, x);
      if Has(opp, stamp, x) { HasAfterLeaves(opp, Depth(opp, sell, price, volume), s.rest, stamp, x); }
    }
  }

  lemma PlaceKeepsIndexSound(b: Book, price: int, volume: int, sell: bool, time: int, id: int)
    requires Wf(b)
    ensures IndexSound(Place(b, price, volume, sell, time, id).0)
  {
    var b' := Place(b, price, volume, sell, time, id).0;
    forall x | x in b'.index ensures Found(b', b'.index[x], x) {
      FoundAfterPlace(b, price, volume, sell, time, id, x);
      hide Place, Wf, Has;
    }
  }

  lemma PlaceKeepsWf(b: Book, price: int, volume: int, sell: bool, time: int, id: int)
    requires Wf(b)
    ensures Wf(Place(b, price, volume, sell, time, id).0)
  {
    PlaceKeepsQueues(b, price, volume, sell, time, id);
    PlaceKeepsIndexSound(b, price, volume, sell, time, id);
  }

  // ---------- Cancel and modify ----------

  /** Removing one order leaves every other order, in the same relative order. */
  lemma RemoveKeepsQueue(ask: bool, q: seq<Order>, stamp: nat) returns (k: nat)
    requires Sorted(ask, q)
    ensures Sorted(ask, Remove(q, stamp))
    ensures k <= |q| && (k < |q| ==> q[k].stamp == stamp)
    ensures forall i :: 0 <= i < |q| && i != k ==> q[i].stamp != stamp
    ensures |Remove(q, stamp)| == if k < |q| then |q| - 1 else |q|
    ensures forall i :: 0 <= i < |Remove(q, stamp)| ==> Remove(q, stamp)[i] == q[if i < k then i else i + 1]
  {
    k := StampShape(q, stamp);
    var q' := Remove(q, stamp);
    forall i, j | 0 <= i < j < |q'| ensures Before(ask, q'[i], q'[j]) && q'[i].stamp != q'[j].stamp {
      assert Before(ask, q[if i < k then i else i + 1], q[if j < k then j else j + 1]);
    }
  }

  lemma {:induction false} HasAfterRemove(ask: bool, q: seq<Order>, stamp: nat, s: nat, id: int)
    requires Sorted(ask, q)
    ensures Has(Remove(q, stamp), s, id) <==> Has(q, s, id) && s != stamp
  {
    var k := RemoveKeepsQueue(ask, q, stamp);
    if Has(q, s, id) && s != stamp {
      var i :| 0 <= i < |q| && q[i].stamp == s && q[i].id == id;
      assert Remove(q, stamp)[if i < k then i else i - 1] == q[i];
    }
  }

  lemma {:induction false} RemoveKeepsWfQueue(ask: bool, q: seq<Order>, stamp: nat, clock: nat)
    requires WfQueue(ask, q, clock)
    ensures WfQueue(ask, Remove(q, stamp), clock)
  {
    var k := RemoveKeepsQueue(ask, q, stamp);
  }

  lemma {:induction false} RemoveKeepsApart(r: seq<Order>, ask: bool, q: seq<Order>, stamp: nat)
    requires Sorted(ask, q) && StampsDisjoint(r, q)
    ensures StampsDisjoint(r, Remove(q, stamp))
  {
    var k := RemoveKeepsQueue(ask, q, stamp);
  }

  /** Two ids never lead to the same order. */
  lemma StampHasOneId(b: Book, x: int, y: int)
    requires Wf(b) && x in b.index && y in b.index && b.index[x] == b.index[y]
    ensures x == y
  {
    var s := b.index[x];
    assert Found(b, s, x) && Found(b, s, y);
    if Has(b.bids, s, x) && Has(b.bids, s, y) {
      var i :| 0 <= i < |b.bids| && b.bids[i].stamp == s && b.bids[i].id == x;
      var j :| 0 <= j < |b.bids| && b.bids[j].stamp == s && b.bids[j].id == y;
      assert i == j;
    } else if Has(b.asks, s, x) && Has(b.asks, s, y) {
      var i :| 0 <= i < |b.asks| && b.asks[i].stamp == s && b.asks[i].id == x;
      var j :| 0 <= j < |b.asks| && b.asks[j].stamp == s && b.asks[j].id == y;
      assert i == j;
    }
  }

  lemma CancelKeepsWf(b: Book, id: int)
    requires Wf(b)
    ensures Wf(Cancel(b, id).0)
  {
    if id in b.index {
      var stamp := b.index[id];
      var b' := Cancel(b, id).0;
      RemoveKeepsWfQueue(false, b.bids, stamp, b.clock);
      RemoveKeepsWfQueue(true, b.asks, stamp, b.clock);
      var k := RemoveKeepsQueue(false, b.bids, stamp);
      var l := RemoveKeepsQueue(true, b.asks, stamp);
      forall x | x in b'.index ensures Found(b', b'.index[x], x) {
        if b.index[x] == stamp { StampHasOneId(b, id, x); }
        assert Found(b, b.index[x], x);
        HasAfterRemove(false, b.bids, stamp, b.index[x], x);
        HasAfterRemove(true, b.asks, stamp, b.index[x], x);
      }
    }
  }

  lemma {:induction false} ResizeShape(ask: bool, q: seq<Order>, stamp: nat, size: int)
    requires Sorted(ask, q)
    ensures |Resize(q, stamp, size)| == |q|
    ensures forall i :: 0 <= i < |q| ==>
      Resize(q, stamp, size)[i] == if q[i].stamp == stamp then q[i].(volume := size) else q[i]
  {
    var k := StampShape(q, stamp);
    ResizedAt(q, stamp, size, k);
  }

  lemma {:induction false} ResizeKeepsWfQueue(ask: bool, q: seq<Order>, stamp: nat, size: int, clock: nat)
    requires WfQueue(ask, q, clock) && size > 0
    ensures WfQueue(ask, Resize(q, stamp, size), clock)
    ensures forall s, id :: Has(q, s, id) ==> Has(Resize(q, stamp, size), s, id)
  {
    ResizeShape(ask, q, stamp, size);
    var q' := Resize(q, stamp, size);
    forall s, id | Has(q, s, id) ensures Has(q', s, id) {
      var i :| 0 <= i < |q| && q[i].stamp == s && q[i].id == id;
      assert q'[i].stamp == s && q'[i].id == id;
    }
    forall i, j | 0 <= i < j < |q'| ensures Before(ask, q'[i], q'[j]) && q'[i].stamp != q'[j].stamp {
      assert Before(ask, q[i], q[j]);
    }
  }

  lemma ModifyKeepsWf(b: Book, id: int, size: int)
    requires Wf(b)
    ensures Wf(Modify(b, id, size).0)
  {
    if Modify(b, id, size).1 {
      var stamp := b.index[id];
      ResizeKeepsWfQueue(false, b.bids, stamp, size, b.clock);
      ResizeKeepsWfQueue(true, b.asks, stamp, size, b.clock);
      ResizeShape(false, b.bids, stamp, size);
      ResizeShape(true, b.asks, stamp, size);
      var b' := Modify(b, id, size).0;
      forall x | x in b'.index ensures Found(b', b'.index[x], x) {
        assert Found(b, b.index[x], x);
      }
    }
  }

  // ---------- Whole runs ----------

  lemma ApplyKeepsWf(b: Book, e: Event)
    requires Wf(b)
    ensures Wf(Apply(b, e).0)
  {
    match e.req
    case New(price, volume, sell, id) => PlaceKeepsWf(b, price, volume, sell, e.time, id);
    case CancelReq(id) => CancelKeepsWf(b, id);
    case ModifyReq(id, size) => ModifyKeepsWf(b, id, size);
  }

  /** Every reachable book is well formed, whatever the volumes, prices and ids of the requests. */
  lemma {:induction false} RunKeepsWf(b: Book, events: seq<Event>)
    requires Wf(b)
    ensures Wf(Run(b, events))
  {
    if events != [] {
      var n := |events| - 1;
      RunKeepsWf(b, events[..n]);
      ApplyKeepsWf(Run(b, events[..n]), events[n]);
    }
  }
}
