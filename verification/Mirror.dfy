/** Buying and selling are one algorithm: negating every price and swapping the sides commutes with
    every operation on the book. */
module Mirror {
  import opened Book
  import opened Sweeps
  import opened Levels
  import opened Invariants

  function Flip(o: Order): Order {
    o.(price := -o.price)
  }

  function FlipQueue(q: seq<Order>): seq<Order> {
    if q == [] then [] else [Flip(q[0])] + FlipQueue(q[1..])
  }

  function FlipTrades(t: seq<Trade>): seq<Trade> {
    if t == [] then [] else [Trade(Flip(t[0].maker), t[0].volume)] + FlipTrades(t[1..])
  }

  function FlipFills(f: seq<Fill>): seq<Fill> {
    if f == [] then [] else [f[0].(price := -f[0].price)] + FlipFills(f[1..])
  }

  function FlipBook(b: Book): Book {
    Book(FlipQueue(b.asks), FlipQueue(b.bids), b.index, b.clock)
  }

  function FlipEvent(e: Event): Event {
    match e.req
    case New(price, volume, sell, id) => e.(req := New(-price, volume, !sell, id))
    case _ => e
  }

  function FlipEvents(es: seq<Event>): seq<Event> {
    seq(|es|, i requires 0 <= i < |es| => FlipEvent(es[i]))
  }

  function FlipResponse(r: Response): Response {
    match r
    case Placed(x) => Placed(x.(trades := FlipFills(x.trades)))
    case _ => r
  }

  lemma {:induction false} FlipCons(o: Order, q: seq<Order>)
    ensures FlipQueue([o] + q) == [Flip(o)] + FlipQueue(q)
  {
    assert ([o] + q)[1..] == q;
  }

  lemma {:induction false} FlipHead(q: seq<Order>)
    requires q != []
    ensures FlipQueue(q) != [] && FlipQueue(q)[0] == Flip(q[0]) && FlipQueue(q)[1..] == FlipQueue(q[1..])
  {
  }

  lemma {:induction false} FlipTradesCons(t: Trade, ts: seq<Trade>)
    ensures FlipTrades([t] + ts) == [Trade(Flip(t.maker), t.volume)] + FlipTrades(ts)
  {
    assert ([t] + ts)[1..] == ts;
  }

  lemma {:induction false} FlipSweep(q: seq<Order>, sell: bool, limit: int, volume: int)
    ensures var s := Sweep(q, sell, limit, volume);
      Sweep(FlipQueue(q), !sell, -limit, volume) == Swept(FlipQueue(s.rest), FlipTrades(s.trades), s.left)
  {
    if q != [] { FlipHead(q); }
    if q == [] || !Crosses(sell, limit, q[0].price) || volume <= 0 {
    } else if q[0].volume > volume {
      FlipCons(q[0].(volume := q[0].volume - volume), q[1..]);
      FlipTradesCons(Trade(q[0], volume), []);
      assert [Trade(q[0], volume)] + [] == [Trade(q[0], volume)];
    } else {
      FlipSweep(q[1..], sell, limit, volume - q[0].volume);
      FlipTradesCons(Trade(q[0], q[0].volume), Sweep(q[1..], sell, limit, volume - q[0].volume).trades);
    }
  }

  lemma {:induction false} FlipInsert(ask: bool, q: seq<Order>, o: Order)
    ensures Insert(!ask, FlipQueue(q), Flip(o)) == FlipQueue(Insert(ask, q, o))
  {
    if q == [] || Better(ask, o.price, q[0].price) {
      FlipCons(o, q);
    } else {
      FlipInsert(ask, q[1..], o);
      assert FlipQueue(q)[1..] == FlipQueue(q[1..]);
      FlipCons(q[0], Insert(ask, q[1..], o));
    }
  }

  lemma {:induction false} FlipStamp(q: seq<Order>, stamp: nat, size: int)
    ensures Remove(FlipQueue(q), stamp) == FlipQueue(Remove(q, stamp))
    ensures Resize(FlipQueue(q), stamp, size) == FlipQueue(Resize(q, stamp, size))
    ensures VolumeOf(FlipQueue(q), stamp) == VolumeOf(q, stamp)
  {
    if q != [] {
      assert FlipQueue(q)[1..] == FlipQueue(q[1..]);
      if q[0].stamp == stamp {
        FlipCons(q[0].(volume := size), q[1..]);
      } else {
        FlipStamp(q[1..], stamp, size);
        FlipCons(q[0], Remove(q[1..], stamp));
        FlipCons(q[0], Resize(q[1..], stamp, size));
      }
    }
  }

  lemma {:induction false} FlipOfTrades(t: seq<Trade>, index: map<int, nat>, time: int)
    ensures Fills(FlipTrades(t), time) == FlipFills(Fills(t, time))
    ensures EraseFilled(index, FlipTrades(t)) == EraseFilled(index, t)
  {
    if t != [] {
      var index' := if t[0].volume == t[0].maker.volume then index - {t[0].maker.id} else index;
      FlipOfTrades(t[1..], index', time);
      assert FlipTrades(t)[1..] == FlipTrades(t[1..]);
      assert Fills(t, time)[1..] == Fills(t[1..], time);
    }
  }

  lemma FlipPlace(b: Book, price: int, volume: int, sell: bool, time: int, id: int)
    ensures var (b', r) := Place(b, price, volume, sell, time, id);
      Place(FlipBook(b), -price, volume, !sell, time, id) == (FlipBook(b'), r.(trades := FlipFills(r.trades)))
  {
    var opp := Opposite(b, sell);
    FlipSweep(opp, sell, price, volume);
    var s := Sweep(opp, sell, price, volume);
    FlipOfTrades(s.trades, b.index, time);
    if s.left > 0 { FlipInsert(sell, Own(b, sell), Order(id, price, s.left, b.clock)); }
  }

  lemma {:induction false} VolumeOfEither(q: seq<Order>, r: seq<Order>, stamp: nat)
    requires StampsDisjoint(q, r)
    ensures VolumeOf(q + r, stamp) == VolumeOf(q, stamp) + VolumeOf(r, stamp)
  {
    VolumeOfConcat(q, r, stamp);
    var k := StampShape(q, stamp);
    var l := StampShape(r, stamp);
  }

  lemma {:induction false} FlipAt(q: seq<Order>)
    ensures |FlipQueue(q)| == |q| && forall i :: 0 <= i < |q| ==> FlipQueue(q)[i] == Flip(q[i])
  {
    if q != [] { FlipAt(q[1..]); }
  }

  lemma {:induction false} FlipRestingVolume(b: Book, stamp: nat)
    requires Wf(b)
    ensures VolumeOf(Resting(FlipBook(b)), stamp) == VolumeOf(Resting(b), stamp)
  {
    FlipStamp(b.bids, stamp, 0);
    FlipStamp(b.asks, stamp, 0);
    FlipAt(b.bids);
    FlipAt(b.asks);
    VolumeOfEither(b.bids, b.asks, stamp);
    VolumeOfEither(FlipQueue(b.asks), FlipQueue(b.bids), stamp);
  }

  /** Resting orders are looked up on the bid side first; that this is immaterial needs disjoint stamps. */
  lemma FlipModify(b: Book, id: int, size: int)
    requires Wf(b)
    ensures var (b', ok) := Modify(b, id, size); Modify(FlipBook(b), id, size) == (FlipBook(b'), ok)
  {
    if id in b.index {
      FlipStamp(b.bids, b.index[id], size);
      FlipStamp(b.asks, b.index[id], size);
      FlipRestingVolume(b, b.index[id]);
    }
  }

  lemma FlipCancel(b: Book, id: int)
    ensures var (b', ok) := Cancel(b, id); Cancel(FlipBook(b), id) == (FlipBook(b'), ok)
  {
    if id in b.index {
      FlipStamp(b.bids, b.index[id], 0);
      FlipStamp(b.asks, b.index[id], 0);
    }
  }

  /** One event on the mirrored book: the mirrored book, and the same answer with negated fill prices. */
  lemma FlipApply(b: Book, e: Event)
    requires Wf(b)
    ensures var (b', r) := Apply(b, e); Apply(FlipBook(b), FlipEvent(e)) == (FlipBook(b'), FlipResponse(r))
  {
    match e.req
    case New(price, volume, sell, id) => FlipPlace(b, price, volume, sell, e.time, id);
    case CancelReq(id) => FlipCancel(b, id);
    case ModifyReq(id, size) => FlipModify(b, id, size);
  }

  /** The answers to a sequence of events, oldest first. */
  function Responses(events: seq<Event>): seq<Response> {
    if events == [] then []
    else
      var before := events[..|events| - 1];
      Responses(before) + [Apply(Run(EMPTY, before), events[|events| - 1]).1]
  }

  /** The mirrored run reaches the mirrored book, and every answer along it is the mirrored answer. */
  lemma {:induction false} FlipRun(events: seq<Event>)
    ensures Run(EMPTY, FlipEvents(events)) == FlipBook(Run(EMPTY, events))
    ensures |Responses(FlipEvents(events))| == |Responses(events)| == |events|
    ensures forall i :: 0 <= i < |events| ==> Responses(FlipEvents(events))[i] == FlipResponse(Responses(events)[i])
  {
    hide Apply, FlipEvent, FlipResponse;
    if events != [] {
      var n := |events| - 1;
      FlipRun(events[..n]);
      assert FlipEvents(events)[..n] == FlipEvents(events[..n]);
      RunKeepsWf(EMPTY, events[..n]);
      FlipApply(Run(EMPTY, events[..n]), events[n]);
    }
  }

  /** Mirroring twice is the identity. */
  lemma {:induction false} FlipTwice(q: seq<Order>)
    ensures FlipQueue(FlipQueue(q)) == q
  {
    if q != [] {
      FlipTwice(q[1..]);
      FlipCons(Flip(q[0]), FlipQueue(q[1..]));
    }
  }

  /** So a book can be reached if and only if its mirror image can. */
  lemma FlipReachable(b: Book)
    ensures (exists events :: Run(EMPTY, events) == b) <==> (exists events :: Run(EMPTY, events) == FlipBook(b))
  {
    FlipTwice(b.bids);
    FlipTwice(b.asks);
    assert FlipBook(FlipBook(b)) == b;
    if events :| Run(EMPTY, events) == b {
      FlipRun(events);
      assert Run(EMPTY, FlipEvents(events)) == FlipBook(b);
    }
    if events :| Run(EMPTY, events) == FlipBook(b) {
      FlipRun(events);
      assert Run(EMPTY, FlipEvents(events)) == b;
    }
  }
}
