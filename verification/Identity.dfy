/** When an id finds the order it was given to. */
module Identity {
  import opened Book
  import opened Sweeps
  import opened Invariants
  import opened Execution

  ghost predicate CarriesId(q: seq<Order>, id: int) {
    exists i :: 0 <= i < |q| && q[i].id == id
  }

  /** The new order will rest, and an order with the same id will be resting beside it: on its own side,
      or on the other side at a price the new order does not accept. */
  ghost predicate Collides(b: Book, price: int, volume: int, sell: bool, id: int) {
    && volume > 0 && volume > CrossingVolume(Opposite(b, sell), sell, price)
    && (CarriesId(Own(b, sell), id)
        || exists i :: 0 <= i < |Opposite(b, sell)| && Opposite(b, sell)[i].id == id
                       && !Crosses(sell, price, Opposite(b, sell)[i].price))
  }

  ghost predicate Listed(index: map<int, nat>, q: seq<Order>) {
    forall i :: 0 <= i < |q| ==> q[i].id in index && index[q[i].id] == q[i].stamp
  }

  lemma CompleteBySide(b: Book, sell: bool)
    ensures IndexComplete(b) <==> Listed(b.index, Opposite(b, sell)) && Listed(b.index, Own(b, sell))
  {
  }

  lemma ListedAfterLeaves(index: map<int, nat>, index': map<int, nat>, q: seq<Order>, k: nat, rest: seq<Order>)
    requires Listed(index, q) && Leaves(q, k, rest)
    requires forall i :: k <= i < |q| ==> q[i].id in index' && index'[q[i].id] == index[q[i].id]
    ensures Listed(index', rest)
  {
  }

  lemma ListedIdsDiffer(ask: bool, index: map<int, nat>, q: seq<Order>, other: seq<Order>)
    requires Listed(index, q) && Listed(index, other) && Sorted(ask, q) && StampsDisjoint(q, other)
    ensures forall i, j :: 0 <= i < |q| && 0 <= j < |q| && i != j ==> q[i].id != q[j].id
    ensures forall i, j :: 0 <= i < |q| && 0 <= j < |other| ==> q[i].id != other[j].id
  {
    forall i, j | 0 <= i < |q| && 0 <= j < |q| && i != j ensures q[i].id != q[j].id {
      assert q[i].stamp != q[j].stamp;
    }
  }

  /** The ids of a sweep's makers are not those of any other listed order, so erasing them hurts no one. */
  lemma {:induction false} SweptListed(index: map<int, nat>, opp: seq<Order>, own: seq<Order>,
                                       sell: bool, price: int, volume: int)
    requires Listed(index, opp) && Listed(index, own)
    requires Sorted(!sell, opp) && Positive(opp) && StampsDisjoint(opp, own)
    ensures var s := Sweep(opp, sell, price, volume);
      Listed(EraseFilled(index, s.trades), s.rest) && Listed(EraseFilled(index, s.trades), own)
  {
    var k, rest := Depth(opp, sell, price, volume), Sweep(opp, sell, price, volume).rest;
    var index' := EraseFilled(index, Sweep(opp, sell, price, volume).trades);
    SweepLeaves(opp, sell, price, volume);
    ListedIdsDiffer(!sell, index, opp, own);
    forall i | k <= i < |opp| ensures opp[i].id in index' && index'[opp[i].id] == index[opp[i].id] {
      SweepErases(index, opp, sell, price, volume, opp[i].id);
    }
    ListedAfterLeaves(index, index', opp, k, rest);
    forall i | 0 <= i < |own| ensures own[i].id in index' && index'[own[i].id] == own[i].stamp {
      SweepErases(index, opp, sell, price, volume, own[i].id);
    }
  }

  lemma {:induction false} CarriedAfterInsert(ask: bool, q: seq<Order>, o: Order, id: int)
    requires Sorted(ask, q)
    ensures CarriesId(Insert(ask, q, o), id) <==> CarriesId(q, id) || id == o.id
  {
    var k := InsertShape(ask, q, o);
    var q' := Insert(ask, q, o);
    assert q' == q[..k] + [o] + q[k..];
    if CarriesId(q', id) {
      var i :| 0 <= i < |q'| && q'[i].id == id;
      if i != k { assert q'[i] == q[if i < k then i else i - 1]; }
    }
    if CarriesId(q, id) {
      var i :| 0 <= i < |q| && q[i].id == id;
      assert q'[if i < k then i else i + 1] == q[i];
    }
    assert q'[k] == o;
  }

  lemma ListedBesideNew(index: map<int, nat>, q: seq<Order>, o: Order)
    requires Listed(index, q) && StampsBelow(q, o.stamp)
    ensures Listed(index[o.id := o.stamp], q) <==> !CarriesId(q, o.id)
  {
    if CarriesId(q, o.id) {
      var i :| 0 <= i < |q| && q[i].id == o.id;
      assert index[o.id := o.stamp][q[i].id] != q[i].stamp;
    }
  }

  lemma ListedConcat(index: map<int, nat>, q: seq<Order>, r: seq<Order>)
    ensures Listed(index, q + r) <==> Listed(index, q) && Listed(index, r)
  {
    if Listed(index, q + r) {
      forall i | 0 <= i < |q| ensures q[i].id in index && index[q[i].id] == q[i].stamp {
        assert (q + r)[i] == q[i];
      }
      forall i | 0 <= i < |r| ensures r[i].id in index && index[r[i].id] == r[i].stamp {
        assert (q + r)[|q| + i] == r[i];
      }
    }
  }

  lemma {:induction false} ListedWithNew(ask: bool, index: map<int, nat>, q: seq<Order>, o: Order)
    requires Sorted(ask, q) && Listed(index, q) && StampsBelow(q, o.stamp)
    ensures Listed(index[o.id := o.stamp], Insert(ask, q, o)) <==> !CarriesId(q, o.id)
  {
    var k := InsertShape(ask, q, o);
    var index' := index[o.id := o.stamp];
    ListedConcat(index', q[..k] + [o], q[k..]);
    ListedConcat(index', q[..k], [o]);
    ListedConcat(index', q[..k], q[k..]);
    assert q == q[..k] + q[k..];
    ListedBesideNew(index, q, o);
  }

  /** After a sweep that leaves volume over, the orders left opposite are those that do not cross. */
  lemma {:induction false} LeftoverCarries(q: seq<Order>, sell: bool, limit: int, volume: int, id: int)
    requires Sorted(!sell, q) && Positive(q) && Sweep(q, sell, limit, volume).left > 0
    ensures CarriesId(Sweep(q, sell, limit, volume).rest, id) <==>
      exists i :: 0 <= i < |q| && q[i].id == id && !Crosses(sell, limit, q[i].price)
  {
    LeftoverCrossesNothing(q, sell, limit, volume);
    var k, rest := Depth(q, sell, limit, volume), Sweep(q, sell, limit, volume).rest;
    if CarriesId(rest, id) {
      var i :| 0 <= i < |rest| && rest[i].id == id;
      assert q[i + k].id == id && !Crosses(sell, limit, q[i + k].price);
    }
    if i :| 0 <= i < |q| && q[i].id == id && !Crosses(sell, limit, q[i].price) {
      assert rest[i - k].id == id;
    }
  }

  /** The index stays complete under a placement exactly when the id does not collide. */
  lemma PlaceKeepsComplete(b: Book, price: int, volume: int, sell: bool, time: int, id: int)
    requires Wf(b) && IndexComplete(b)
    ensures IndexComplete(Place(b, price, volume, sell, time, id).0) <==> !Collides(b, price, volume, sell, id)
  {
    var opp, own := Opposite(b, sell), Own(b, sell);
    WfBySide(b, sell);
    CompleteBySide(b, sell);
    CompleteBySide(Place(b, price, volume, sell, time, id).0, sell);
    TradesAllThatCrosses(opp, sell, price, volume);
    SweptListed(b.index, opp, own, sell, price, volume);
    var s := Sweep(opp, sell, price, volume);
    if s.left > 0 {
      var o := Order(id, price, s.left, b.clock);
      ListedWithNew(sell, EraseFilled(b.index, s.trades), own, o);
      LeftoverCarries(opp, sell, price, volume, id);
      SweepLeaves(opp, sell, price, volume);
      LeavesQueue(!sell, opp, Depth(opp, sell, price, volume), s.rest, b.clock);
      ListedBesideNew(EraseFilled(b.index, s.trades), s.rest, o);
    }
  }

  lemma CancelKeepsComplete(b: Book, id: int)
    requires Wf(b) && IndexComplete(b)
    ensures IndexComplete(Cancel(b, id).0)
  {
    if id in b.index {
      var k := RemoveKeepsQueue(false, b.bids, b.index[id]);
      var l := RemoveKeepsQueue(true, b.asks, b.index[id]);
    }
  }

  lemma ModifyKeepsComplete(b: Book, id: int, size: int)
    requires Wf(b) && IndexComplete(b)
    ensures IndexComplete(Modify(b, id, size).0)
  {
    if Modify(b, id, size).1 {
      ResizeShape(false, b.bids, b.index[id], size);
      ResizeShape(true, b.asks, b.index[id], size);
    }
  }

  // ---------- Whole runs ----------

  /** No two New requests carry the same id. */
  ghost predicate FreshIds(events: seq<Event>) {
    forall i, j :: 0 <= i < j < |events| && events[i].req.New? && events[j].req.New? ==>
      events[i].req.id != events[j].req.id
  }

  ghost predicate Announced(events: seq<Event>, id: int) {
    exists i :: 0 <= i < |events| && events[i].req.New? && events[i].req.id == id
  }

  /** Ids on the book all come from New requests. */
  ghost predicate IdsFrom(b: Book, events: seq<Event>) {
    forall id :: CarriesId(b.bids, id) || CarriesId(b.asks, id) ==> Announced(events, id)
  }

  lemma CarriedAfterLeaves(q: seq<Order>, k: nat, rest: seq<Order>, id: int)
    requires Leaves(q, k, rest) && CarriesId(rest, id)
    ensures CarriesId(q, id)
  {
    var i :| 0 <= i < |rest| && rest[i].id == id;
    assert q[i + k].id == id;
  }

  /** Operations bring no id onto the book but that of a New request. */
  lemma ApplyBringsId(b: Book, e: Event, id: int)
    requires Wf(b)
    requires CarriesId(Apply(b, e).0.bids, id) || CarriesId(Apply(b, e).0.asks, id)
    ensures CarriesId(b.bids, id) || CarriesId(b.asks, id) || (e.req.New? && e.req.id == id)
  {
    match e.req
    case New(price, volume, sell, oid) =>
      var opp, own := Opposite(b, sell), Own(b, sell);
      WfBySide(b, sell);
      SweepLeaves(opp, sell, price, volume);
      var s := Sweep(opp, sell, price, volume);
      if CarriesId(s.rest, id) {
        CarriedAfterLeaves(opp, Depth(opp, sell, price, volume), s.rest, id);
      } else if s.left > 0 {
        CarriedAfterInsert(sell, own, Order(oid, price, s.left, b.clock), id);
      }
    case CancelReq(oid) =>
      if oid in b.index {
        var k := RemoveKeepsQueue(false, b.bids, b.index[oid]);
        var l := RemoveKeepsQueue(true, b.asks, b.index[oid]);
      }
    case ModifyReq(oid, size) =>
      if Modify(b, oid, size).1 {
        ResizeShape(false, b.bids, b.index[oid], size);
        ResizeShape(true, b.asks, b.index[oid], size);
      }
  }

  /** With fresh ids every resting order is found under its own id, after any run. */
  lemma {:induction false} FreshRunIsComplete(events: seq<Event>)
    requires FreshIds(events)
    ensures Wf(Run(EMPTY, events)) && IndexComplete(Run(EMPTY, events)) && IdsFrom(Run(EMPTY, events), events)
  {
    if events != [] {
      var n := |events| - 1;
      var before, e := events[..n], events[n];
      var b := Run(EMPTY, before);
      FreshRunIsComplete(before);
      ApplyKeepsWf(b, e);
      match e.req {
        case New(price, volume, sell, id) =>
          assert !Announced(before, id);
          PlaceKeepsComplete(b, price, volume, sell, e.time, id);
        case CancelReq(id) => CancelKeepsComplete(b, id);
        case ModifyReq(id, size) => ModifyKeepsComplete(b, id, size);
      }
      forall id | CarriesId(Run(EMPTY, events).bids, id) || CarriesId(Run(EMPTY, events).asks, id)
        ensures Announced(events, id)
      {
        ApplyBringsId(b, e, id);
        if Announced(before, id) {
          var i :| 0 <= i < |before| && before[i].req.New? && before[i].req.id == id;
          assert events[i] == before[i];
        } else {
          assert events[n].req.id == id;
        }
      }
    }
  }

  /** Two LIVE gateways both mint id 0.  The second order takes over the index entry: cancelling id 0
      removes the second gateway's order, and the first one can then be neither cancelled nor modified. */
  lemma TwoCountersCollide()
    ensures var first, second := Event(New(100, 5, true, 0), 1), Event(New(101, 7, true, 0), 2);
      var b := Run(EMPTY, [first, second]);
      && !IndexComplete(b)
      && b.asks == [Order(0, 100, 5, 0), Order(0, 101, 7, 1)]
      && Cancel(b, 0).1 && Cancel(b, 0).0.asks == [Order(0, 100, 5, 0)]
      && !Cancel(Cancel(b, 0).0, 0).1
      && forall size: int :: !Modify(Cancel(b, 0).0, 0, size).1
  {
    var first, second := Event(New(100, 5, true, 0), 1), Event(New(101, 7, true, 0), 2);
    var x, y := Order(0, 100, 5, 0), Order(0, 101, 7, 1);
    assert [first, second][..1] == [first] && [first][..0] == [];
    var b1, b2 := Book([], [x], map[0 := 0], 1), Book([], [x, y], map[0 := 1], 2);
    assert Run(EMPTY, [first]) == Apply(Run(EMPTY, []), first).0 == b1;
    assert Insert(true, [x], y) == [x] + Insert(true, [], y) == [x, y];
    assert Run(EMPTY, [first, second]) == Apply(b1, second).0 == b2;
    assert b2.asks[0].id in b2.index && b2.index[b2.asks[0].id] != b2.asks[0].stamp;
    assert [x, y][1..] == [y] && [y][1..] == [];
    assert Remove([x, y], 1) == [x] + Remove([y], 1) == [x];
    assert 0 !in Cancel(b2, 0).0.index;
  }
}
