/** Where volume goes, over whole runs. */
module Conservation {
  import opened Book
  import opened Sweeps
  import opened Levels
  import opened Invariants
  import opened Execution

  /** What has happened to the volume of one side. */
  datatype Ledger = Ledger(placed: int, traded: int, cancelled: int, reduced: int)

  function Plus(x: Ledger, y: Ledger): Ledger {
    Ledger(x.placed + y.placed, x.traded + y.traded, x.cancelled + y.cancelled, x.reduced + y.reduced)
  }

  /** Entries an event makes for a side, read off what callers see: the taker's side from its remaining
      quantity, the makers' side from the fills. */
  function Entries(b: Book, e: Event, sell: bool): Ledger {
    match e.req
    case New(price, volume, taker, id) =>
      var r := Place(b, price, volume, taker, e.time, id).1;
      if taker == sell then
        if volume > 0 then Ledger(volume, volume - r.remainingQty, 0, 0) else Ledger(0, 0, 0, 0)
      else Ledger(0, Filled(r.trades), 0, 0)
    case CancelReq(id) =>
      Ledger(0, 0, if Cancel(b, id).1 then VolumeOf(Own(b, sell), b.index[id]) else 0, 0)
    case ModifyReq(id, size) =>
      var there := id in b.index && VolumeOf(Own(b, sell), b.index[id]) > 0;
      Ledger(0, 0, 0, if Modify(b, id, size).1 && there then VolumeOf(Own(b, sell), b.index[id]) - size else 0)
  }

  function RunEntries(events: seq<Event>, sell: bool): Ledger {
    if events == [] then Ledger(0, 0, 0, 0)
    else
      var before := events[..|events| - 1];
      Plus(RunEntries(before, sell), Entries(Run(EMPTY, before), events[|events| - 1], sell))
  }

  lemma {:induction false} SomeVolume(q: seq<Order>, stamp: nat)
    requires Positive(q)
    ensures VolumeOf(q, stamp) >= 0
    ensures VolumeOf(q, stamp) > 0 <==> exists i :: 0 <= i < |q| && q[i].stamp == stamp
  {
    var k := StampShape(q, stamp);
  }

  lemma PlaceBalances(b: Book, price: int, volume: int, taker: bool, time: int, id: int)
    requires Wf(b)
    ensures var (b', r) := Place(b, price, volume, taker, time, id);
      && SumVolume(Opposite(b', taker)) == SumVolume(Opposite(b, taker)) - Filled(r.trades)
      && SumVolume(Own(b', taker)) == SumVolume(Own(b, taker)) + (if volume > 0 then r.remainingQty else 0)
      && Filled(r.trades) == if volume > 0 then volume - r.remainingQty else 0
  {
    WfBySide(b, taker);
    ResultAccounts(b, price, volume, taker, time, id);
    var s := Sweep(Opposite(b, taker), taker, price, volume);
    TradesAllThatCrosses(Opposite(b, taker), taker, price, volume);
    FilledIsTraded(s.trades, time);
    if s.left > 0 { SumInsert(taker, Own(b, taker), Order(id, price, s.left, b.clock)); }
  }

  lemma {:induction false} ModifyBalances(q: seq<Order>, stamp: nat, size: int)
    requires Positive(q)
    ensures SumVolume(Resize(q, stamp, size)) ==
      SumVolume(q) - if VolumeOf(q, stamp) > 0 then VolumeOf(q, stamp) - size else 0
  {
    SomeVolume(q, stamp);
    SumOfStamp(q, stamp, size);
    var k := StampShape(q, stamp);
    ResizedAt(q, stamp, size, k);
  }

  lemma EventBalances(b: Book, e: Event, sell: bool)
    requires Wf(b)
    ensures var l := Entries(b, e, sell);
      SumVolume(Own(Apply(b, e).0, sell)) == SumVolume(Own(b, sell)) + l.placed - l.traded - l.cancelled - l.reduced
    ensures Entries(b, e, true).traded == Entries(b, e, false).traded
  {
    match e.req
    case New(price, volume, taker, id) => PlaceBalances(b, price, volume, taker, e.time, id);
    case CancelReq(id) =>
      if id in b.index { SumOfStamp(Own(b, sell), b.index[id], 0); }
    case ModifyReq(id, size) =>
      if Modify(b, id, size).1 { ModifyBalances(Own(b, sell), b.index[id], size); }
  }

  /** On each side, over any run: volume placed is volume resting plus traded plus cancelled plus removed
      by modify; and the two sides have traded the same volume. */
  lemma {:induction false} VolumeIsConserved(events: seq<Event>, sell: bool)
    ensures var l := RunEntries(events, sell);
      l.placed == SumVolume(Own(Run(EMPTY, events), sell)) + l.traded + l.cancelled + l.reduced
    ensures RunEntries(events, true).traded == RunEntries(events, false).traded
  {
    if events != [] {
      var before, e := events[..|events| - 1], events[|events| - 1];
      VolumeIsConserved(before, sell);
      RunKeepsWf(EMPTY, before);
      EventBalances(Run(EMPTY, before), e, sell);
    }
  }

  /** No entry is ever negative: nothing is conserved by cancelling against a negative amount. */
  lemma EntriesNonNegative(b: Book, e: Event, sell: bool)
    requires Wf(b)
    ensures var l := Entries(b, e, sell); l.placed >= 0 && l.traded >= 0 && l.cancelled >= 0 && l.reduced >= 0
  {
    match e.req
    case New(price, volume, taker, id) =>
      PlaceBalances(b, price, volume, taker, e.time, id);
      WfBySide(b, taker);
      TradesAllThatCrosses(Opposite(b, taker), taker, price, volume);
      FilledIsTraded(Sweep(Opposite(b, taker), taker, price, volume).trades, e.time);
    case CancelReq(id) =>
      if id in b.index { SomeVolume(Own(b, sell), b.index[id]); }
    case ModifyReq(id, size) =>
      if Modify(b, id, size).1 {
        var stamp := b.index[id];
        VolumeOfConcat(b.bids, b.asks, stamp);
        SomeVolume(b.bids, stamp);
        SomeVolume(b.asks, stamp);
        var k := StampShape(b.bids, stamp);
        var l := StampShape(b.asks, stamp);
      }
  }
}
