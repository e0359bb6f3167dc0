/**
 The limit order book as a value.

 Each side of the book is one queue of resting orders in price-time priority: best price first,
 oldest first within a price.  This is the simple form that the pointer structures of
 `Orderbook` (price trees, intrusive lists, id index) are proved to refine.

 A side is a boolean as in the C++ code: `true` is the sell (ask) side, `false` the buy (bid) side.
 */
module Book {

  /** A resting order.  `stamp` is its arrival number; it gives every order an identity of its own,
      because ids are chosen by callers and may collide. */
  datatype Order = Order(id: int, price: int, volume: int, stamp: nat)

  /** One execution of an incoming order against the resting order `maker` (as it stood before). */
  datatype Trade = Trade(maker: Order, volume: int)

  datatype Fill = Fill(price: int, volume: int, timestamp: int)

  datatype OrderResult = OrderResult(orderID: int, fulfilled: bool, remainingQty: int, trades: seq<Fill>)

  /** `index` maps an id to the stamp of the order that cancel and modify will find under that id. */
  datatype Book = Book(bids: seq<Order>, asks: seq<Order>, index: map<int, nat>, clock: nat)

  const EMPTY := Book([], [], map[], 0)

  // ---------- Priority ----------

  /** Price `p` is strictly better than `q` among resting orders of the given side. */
  predicate Better(ask: bool, p: int, q: int) {
    if ask then p < q else p > q
  }

  predicate Before(ask: bool, x: Order, y: Order) {
    Better(ask, x.price, y.price) || (x.price == y.price && x.stamp < y.stamp)
  }

  /** Price-time priority, with no stamp carried twice. */
  ghost predicate Sorted(ask: bool, q: seq<Order>) {
    forall i, j :: 0 <= i < j < |q| ==> Before(ask, q[i], q[j]) && q[i].stamp != q[j].stamp
  }

  ghost predicate Positive(q: seq<Order>) {
    forall i :: 0 <= i < |q| ==> q[i].volume > 0
  }

  /** An incoming order of side `sell` with limit price `limit` accepts a resting order at price `p`. */
  predicate Crosses(sell: bool, limit: int, p: int) {
    if sell then p >= limit else p <= limit
  }

  // ---------- Queue operations ----------

  /** The queue at one price level. */
  function Level(q: seq<Order>, p: int): seq<Order> {
    if q == [] then []
    else if q[0].price == p then [q[0]] + Level(q[1..], p)
    else Level(q[1..], p)
  }

  function Insert(ask: bool, q: seq<Order>, o: Order): seq<Order> {
    if q == [] || Better(ask, o.price, q[0].price) then [o] + q
    else [q[0]] + Insert(ask, q[1..], o)
  }

  function Remove(q: seq<Order>, stamp: nat): seq<Order> {
    if q == [] then []
    else if q[0].stamp == stamp then q[1..]
    else [q[0]] + Remove(q[1..], stamp)
  }

  function Resize(q: seq<Order>, stamp: nat, size: int): seq<Order> {
    if q == [] then []
    else if q[0].stamp == stamp then [q[0].(volume := size)] + q[1..]
    else [q[0]] + Resize(q[1..], stamp, size)
  }

  /** Volume of the order with the given stamp; 0 when no such order rests. */
  function VolumeOf(q: seq<Order>, stamp: nat): int {
    if q == [] then 0
    else if q[0].stamp == stamp then q[0].volume
    else VolumeOf(q[1..], stamp)
  }

  function SumVolume(q: seq<Order>): int {
    if q == [] then 0 else q[0].volume + SumVolume(q[1..])
  }

  // ---------- Matching ----------

  datatype Swept = Swept(rest: seq<Order>, trades: seq<Trade>, left: int)

  /** Walks the opposite queue from the front until the volume is used up or the price no longer crosses. */
  function Sweep(q: seq<Order>, sell: bool, limit: int, volume: int): Swept {
    if q == [] || !Crosses(sell, limit, q[0].price) || volume <= 0 then
      Swept(q, [], volume)
    else if q[0].volume > volume then
      Swept([q[0].(volume := q[0].volume - volume)] + q[1..], [Trade(q[0], volume)], 0)
    else
      var r := Sweep(q[1..], sell, limit, volume - q[0].volume);
      Swept(r.rest, [Trade(q[0], q[0].volume)] + r.trades, r.left)
  }

  function Fills(trades: seq<Trade>, time: int): seq<Fill> {
    if trades == [] then []
    else [Fill(trades[0].maker.price, trades[0].volume, time)] + Fills(trades[1..], time)
  }

  /** Index after the makers that were used up have been erased from it by id. */
  function EraseFilled(index: map<int, nat>, trades: seq<Trade>): map<int, nat> {
    if trades == [] then index
    else if trades[0].volume == trades[0].maker.volume then
      EraseFilled(index - {trades[0].maker.id}, trades[1..])
    else EraseFilled(index, trades[1..])
  }

  function Opposite(b: Book, sell: bool): seq<Order> {
    if sell then b.bids else b.asks
  }

  function Own(b: Book, sell: bool): seq<Order> {
    if sell then b.asks else b.bids
  }

  function WithSides(b: Book, sell: bool, opposite: seq<Order>, own: seq<Order>): Book {
    if sell then b.(bids := opposite, asks := own) else b.(asks := opposite, bids := own)
  }

  function Place(b: Book, price: int, volume: int, sell: bool, time: int, id: int): (Book, OrderResult) {
    var s := Sweep(Opposite(b, sell), sell, price, volume);
    var index := EraseFilled(b.index, s.trades);
    var result := OrderResult(id, s.left <= 0, s.left, Fills(s.trades, time));
    if s.left > 0 then
      var own := Insert(sell, Own(b, sell), Order(id, price, s.left, b.clock));
      (WithSides(b, sell, s.rest, own).(index := index[id := b.clock], clock := b.clock + 1), result)
    else
      (WithSides(b, sell, s.rest, Own(b, sell)).(index := index, clock := b.clock + 1), result)
  }

  function Cancel(b: Book, id: int): (Book, bool) {
    if id !in b.index then (b, false)
    else
      var stamp := b.index[id];
      (b.(bids := Remove(b.bids, stamp), asks := Remove(b.asks, stamp), index := b.index - {id}), true)
  }

  function Resting(b: Book): seq<Order> {
    b.bids + b.asks
  }

  function Modify(b: Book, id: int, size: int): (Book, bool) {
    if id !in b.index then (b, false)
    else
      var stamp := b.index[id];
      if size <= 0 || size >= VolumeOf(Resting(b), stamp) then (b, false)
      else (b.(bids := Resize(b.bids, stamp, size), asks := Resize(b.asks, stamp, size)), true)
  }

  // ---------- Requests ----------

  datatype Request =
    | New(price: int, volume: int, sell: bool, id: int)
    | CancelReq(id: int)
    | ModifyReq(id: int, size: int)

  /** A request as it enters the book: `time` stamps the fills of a New request. */
  datatype Event = Event(req: Request, time: int)

  datatype Response = Placed(result: OrderResult) | Cancelled(ok: bool) | Modified(ok: bool)

  function Apply(b: Book, e: Event): (Book, Response) {
    match e.req
    case New(price, volume, sell, id) =>
      var (b', r) := Place(b, price, volume, sell, e.time, id); (b', Placed(r))
    case CancelReq(id) => var (b', ok) := Cancel(b, id); (b', Cancelled(ok))
    case ModifyReq(id, size) => var (b', ok) := Modify(b, id, size); (b', Modified(ok))
  }

  /** The book after a sequence of events, oldest first. */
  function Run(b: Book, events: seq<Event>): Book {
    if events == [] then b
    else Apply(Run(b, events[..|events| - 1]), events[|events| - 1]).0
  }

  // ---------- Well-formed books ----------

  /** Some order with this stamp and id rests in `q`. */
  ghost predicate Has(q: seq<Order>, stamp: nat, id: int) {
    exists i :: 0 <= i < |q| && q[i].stamp == stamp && q[i].id == id
  }

  ghost predicate Uncrossed(b: Book) {
    forall i, j :: 0 <= i < |b.bids| && 0 <= j < |b.asks| ==> b.bids[i].price < b.asks[j].price
  }

  ghost predicate StampsBelow(q: seq<Order>, clock: nat) {
    forall i :: 0 <= i < |q| ==> q[i].stamp < clock
  }

  ghost predicate StampsDisjoint(q: seq<Order>, r: seq<Order>) {
    forall i, j :: 0 <= i < |q| && 0 <= j < |r| ==> q[i].stamp != r[j].stamp
  }

  /** What an id finds is a resting order that carries this id. */
  ghost predicate IndexSound(b: Book) {
    forall id :: id in b.index ==> Has(b.bids, b.index[id], id) || Has(b.asks, b.index[id], id)
  }

  /** Every resting order is found under its own id. */
  ghost predicate IndexComplete(b: Book) {
    && (forall i :: 0 <= i < |b.bids| ==> b.bids[i].id in b.index && b.index[b.bids[i].id] == b.bids[i].stamp)
    && (forall i :: 0 <= i < |b.asks| ==> b.asks[i].id in b.index && b.index[b.asks[i].id] == b.asks[i].stamp)
  }

  ghost predicate WfQueues(b: Book) {
    && Sorted(false, b.bids) && Sorted(true, b.asks)
    && Positive(b.bids) && Positive(b.asks)
    && StampsBelow(b.bids, b.clock) && StampsBelow(b.asks, b.clock)
    && StampsDisjoint(b.bids, b.asks)
  }

  ghost predicate Wf(b: Book) {
    WfQueues(b) && Uncrossed(b) && IndexSound(b)
  }
}
