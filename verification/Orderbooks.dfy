/**
 The order book as it is built: two maps from prices to levels, intrusive lists inside the levels, and
 a map from ids to nodes.  Every method is proved to do to the ghost field `book` what the function of
 the same name in module `Book` does, and to return what that function returns.

 The two maps are only asked for their best key; how they keep their keys sorted is not modelled.
 `limits` and `orders` are the objects allocated so far.  Freeing is not modelled: what the program frees
 stays in these sets, and no tree, list or index leads to it any more.
 */
module Orderbooks {
  import opened Book
  import Values = Book
  import opened Sweeps
  import opened Invariants
  import opened Levels
  import opened Limits
  import Outcomes

  class Orderbook {
    var global_map: map<int, OrderNode>
    var bids: map<int, Limit>
    var asks: map<int, Limit>
    ghost var book: Book
    ghost var limits: set<Limit>
    ghost var orders: set<OrderNode>

    function Tree(ask: bool): map<int, Limit>
      reads this
    {
      if ask then asks else bids
    }

    /** Each price with resting orders has its level, holding just the orders at that price. */
    ghost predicate TreeHolds(ask: bool, q: seq<Order>)
      reads this, limits, orders
    {
      && (forall p :: p in Tree(ask) <==> Level(q, p) != [])
      && (forall p :: p in Tree(ask) ==> LevelHolds(ask, p, Level(q, p)))
    }

    ghost predicate LevelHolds(ask: bool, p: int, lv: seq<Order>)
      requires p in Tree(ask)
      reads this, limits, orders
    {
      var l := Tree(ask)[p];
      && l in limits && (forall i :: 0 <= i < |l.nodes| ==> l.nodes[i] in orders)
      && l.ask == ask && l.price == p && l.Linked() && l.contents == lv
    }

    /** A node in use stands in the list of its level, and the level stands in the tree. */
    ghost predicate Placed(n: OrderNode)
      requires n in orders
      reads this, limits, orders
    {
      && n.price in Tree(n.side) && n.parentlimit == Tree(n.side)[n.price]
      && n.parentlimit in limits && n in n.parentlimit.nodes
    }

    ghost predicate IndexHolds()
      reads this, limits, orders
    {
      && global_map.Keys == book.index.Keys
      && forall id :: id in global_map ==>
           && global_map[id] in orders && Placed(global_map[id])
           && global_map[id].orderID == id && global_map[id].stamp == book.index[id]
    }

    /** The three structures agree with each other and with `book`. */
    ghost predicate Coupled()
      reads this, limits, orders
    {
      match book case Book(bs, ss, _, _) =>
        WfQueues(book) && TreeHolds(false, bs) && TreeHolds(true, ss) && IndexHolds()
    }

    ghost predicate Valid()
      reads this, limits, orders
    {
      Coupled() && Wf(book)
    }

    constructor ()
      ensures Valid() && book == EMPTY && limits == {} && orders == {}
    {
      global_map, bids, asks := map[], map[], map[];
      book, limits, orders := EMPTY, {}, {};
    }

    // ---------- Steps that touch one level ----------

    /** Since the old state, of the objects there were only `limit` has changed, and links and volumes of
        the nodes in `touched`. */
    twostate predicate OnlyIn(new limit: Limit, touched: seq<OrderNode>)
      reads this, limits, orders
    {
      && old(limits) <= limits && old(orders) <= orders
      && (forall l :: l in old(limits) && l != limit ==> unchanged(l))
      && (forall n :: n in old(orders) ==>
            && n.price == old(n.price) && n.side == old(n.side) && n.orderID == old(n.orderID)
            && n.stamp == old(n.stamp) && n.parentlimit == old(n.parentlimit))
      && (forall n :: n in old(orders) && n !in touched ==> unchanged(n))
    }

    /** Both trees are as before except for the entry at `best`. */
    twostate predicate TreesOnlyAt(new ask: bool, new best: int)
      reads this
    {
      && Tree(!ask) == old(Tree(!ask))
      && (forall p :: p != best ==> (p in Tree(ask) <==> p in old(Tree(ask))))
      && (forall p :: p != best && p in Tree(ask) ==> Tree(ask)[p] == old(Tree(ask))[p])
    }

    /** `limit` is the level at `best` and `touched` its nodes, or there was no level and it is new. */
    twostate predicate WasAt(new ask: bool, new best: int, new limit: Limit, touched: seq<OrderNode>)
      reads this
    {
      if best in old(Tree(ask)) then
        limit == old(Tree(ask))[best] && touched == old(Tree(ask)[best].nodes)
      else
        limit !in old(limits) && touched == []
    }

    twostate predicate StepAt(new ask: bool, new best: int, new limit: Limit, touched: seq<OrderNode>)
      reads this, limits, orders
    {
      old(Coupled()) && OnlyIn(limit, touched) && TreesOnlyAt(ask, best) && WasAt(ask, best, limit, touched)
    }

    twostate lemma {:induction false} LevelKept(new ask: bool, new best: int, new limit: Limit, touched: seq<OrderNode>,
                                                  new a: bool, new p: int)
      requires StepAt(ask, best, limit, touched)
      requires (a != ask || p != best) && p in old(Tree(a))
      ensures LevelHolds(a, p, Level(old(Own(book, a)), p))
    {
      var l := old(Tree(a))[p];
      assert old(LevelHolds(a, p, Level(Own(book, a), p)));
      if best in old(Tree(ask)) {
        assert old(LevelHolds(ask, best, Tree(ask)[best].contents));
        forall i | 0 <= i < |old(l.nodes)| ensures old(l.nodes)[i] !in touched {
          assert old(l.nodes[i].parentlimit) == l;
          assert forall j :: 0 <= j < |touched| ==> old(touched[j].parentlimit) == limit;
        }
      }
    }

    /** The side that was not touched still holds its queue. */
    twostate lemma OtherTreeKept(new ask: bool, new best: int, new limit: Limit, touched: seq<OrderNode>,
                                 new q: seq<Order>)
      requires StepAt(ask, best, limit, touched)
      requires q == old(Own(book, !ask))
      ensures TreeHolds(!ask, q)
    {
      forall p | p in Tree(!ask) ensures LevelHolds(!ask, p, Level(q, p)) {
        LevelKept(ask, best, limit, touched, !ask, p);
      }
    }

    /** The side that was touched holds the new queue, if that differs from the old one at `best` only. */
    twostate lemma {:induction false} OwnTreeKept(new ask: bool, new best: int, new limit: Limit,
                                                    touched: seq<OrderNode>, new q: seq<Order>)
      requires StepAt(ask, best, limit, touched)
      requires forall p :: p != best ==> Level(q, p) == Level(old(Own(book, ask)), p)
      requires best in Tree(ask) <==> Level(q, best) != []
      requires forall p :: p == best && p in Tree(ask) ==> LevelHolds(ask, p, Level(q, p))
      ensures TreeHolds(ask, q)
    {
      forall p | p in Tree(ask) ensures LevelHolds(ask, p, Level(q, p)) {
        if p != best { LevelKept(ask, best, limit, touched, ask, p); }
      }
    }

    /** Index entries that were there before and do not name a node taken out of the list stay good. */
    twostate lemma EntryKept(new ask: bool, new best: int, new limit: Limit, touched: seq<OrderNode>, new id: int)
      requires StepAt(ask, best, limit, touched)
      requires id in old(global_map)
      requires old(global_map)[id] in touched ==>
        old(global_map)[id] in limit.nodes && best in Tree(ask) && Tree(ask)[best] == limit && limit in limits
      ensures var n := old(global_map)[id];
        n in orders && Placed(n) && n.orderID == id && n.stamp == old(book.index)[id]
    {
      var n := old(global_map)[id];
      assert old(n in orders && Placed(n));
      var a, p := n.side, n.price;
      if a == ask && p == best {
        assert n.parentlimit == limit;
      } else {
        assert Tree(a)[p] == old(Tree(a))[p];
        var l := n.parentlimit;
        assert old(LevelHolds(a, p, l.contents));
        if best in old(Tree(ask)) { assert old(LevelHolds(ask, best, Tree(ask)[best].contents)); }
        assert l != limit;
        assert unchanged(l);
      }
    }

    /** The index still leads to nodes that stand where they should: no entry is new, and entries into
        the touched level name nodes that are still in it. */
    twostate predicate IndexShrinks(new ask: bool, new best: int, new limit: Limit, touched: seq<OrderNode>)
      reads this, limit
    {
      && global_map.Keys == book.index.Keys
      && (forall id :: id in global_map ==>
            && id in old(global_map) && global_map[id] == old(global_map)[id]
            && id in old(book.index) && book.index[id] == old(book.index)[id])
      && (forall id :: id in global_map && global_map[id] in touched ==>
            global_map[id] in limit.nodes && best in Tree(ask))
    }

    twostate lemma IndexKept(new ask: bool, new best: int, new limit: Limit, touched: seq<OrderNode>)
      requires StepAt(ask, best, limit, touched)
      requires best in Tree(ask) ==> Tree(ask)[best] == limit && limit in limits
      requires IndexShrinks(ask, best, limit, touched)
      ensures IndexHolds()
    {
      forall id | id in global_map
        ensures global_map[id] in orders && Placed(global_map[id])
        ensures global_map[id].orderID == id && global_map[id].stamp == book.index[id]
      {
        EntryKept(ask, best, limit, touched, id);
      }
    }

    /** A step at one level keeps everything coupled if the level and the index follow the new book. */
    twostate lemma {:induction false} Recoupled(new ask: bool, new best: int, new limit: Limit, touched: seq<OrderNode>)
      requires StepAt(ask, best, limit, touched)
      requires WfQueues(book) && Own(book, !ask) == old(Own(book, !ask))
      requires forall p :: p != best ==> Level(Own(book, ask), p) == Level(old(Own(book, ask)), p)
      requires best in Tree(ask) <==> Level(Own(book, ask), best) != []
      requires best in Tree(ask) ==> Tree(ask)[best] == limit
      requires forall p :: p == best && p in Tree(ask) ==> LevelHolds(ask, p, Level(Own(book, ask), p))
      requires IndexShrinks(ask, best, limit, touched)
      ensures Coupled()
    {
      OtherTreeKept(ask, best, limit, touched, Own(book, !ask));
      OwnTreeKept(ask, best, limit, touched, Own(book, ask));
      IndexKept(ask, best, limit, touched);
    }

    // ---------- Steps of a sweep ----------

    /** Erases the entry of an emptied level. */
    method EraseLevel(ask: bool, price: int)
      modifies this`bids, this`asks
      ensures TreesOnlyAt(ask, price) && price !in Tree(ask)
    {
      if ask { asks := asks - {price}; } else { bids := bids - {price}; }
    }

    /** Erases the entry of a level if the level is empty. */
    method EraseIfEmpty(ask: bool, price: int, limit: Limit) returns (emptied: bool)
      requires limit.count == |limit.nodes| && price in Tree(ask)
      modifies this`bids, this`asks
      ensures TreesOnlyAt(ask, price) && (emptied <==> limit.nodes == []) && (emptied <==> price !in Tree(ask))
      ensures !emptied ==> Tree(ask) == old(Tree(ask))
    {
      emptied := limit.count == 0;
      if emptied {
        EraseLevel(ask, price);
      }
    }

    /** Takes the oldest order off a level and records the book `b` this leads to; an emptied level is
        erased. */
    method TakeHead(ask: bool, best: int, limit: Limit, ghost b: Book) returns (emptied: bool)
      requires limit.Linked() && limit.nodes != []
      requires best in Tree(ask) && Tree(ask)[best] == limit
      modifies this`global_map, this`bids, this`asks, this`book, limit, limit.nodes`prev
      ensures OnlyIn(limit, old(limit.nodes)) && TreesOnlyAt(ask, best) && book == b
      ensures limit.Linked() && limit.nodes == old(limit.nodes)[1..] && limit.contents == old(limit.contents)[1..]
      ensures global_map == old(global_map) - {old(limit.contents[0].id)}
      ensures emptied <==> limit.nodes == []
      ensures emptied <==> best !in Tree(ask)
      ensures !emptied ==> Tree(ask) == old(Tree(ask))
    {
      hide SumVolume, Chained, Distinct;
      var current := limit.head;
      limit.PopHead();
      global_map := global_map - {current.orderID};
      emptied := EraseIfEmpty(ask, best, limit);
      book := b;
    }

    /** Uses up the oldest order of the best level of a side. */
    method ConsumeHead(ask: bool, best: int, limit: Limit) returns (emptied: bool)
      requires Coupled() && best in Tree(ask) && limit == Tree(ask)[best]
      requires Own(book, ask) != [] && Own(book, ask)[0].price == best
      modifies this`global_map, this`bids, this`asks, this`book, limit, limit.nodes`prev
      ensures Coupled()
      ensures book == AfterHead(old(book), ask)
      ensures emptied <==> best !in Tree(ask)
      ensures !emptied ==> Tree(ask) == old(Tree(ask))
    {
      hide SumVolume, Chained, Distinct;
      assert LevelHolds(ask, best, Level(Own(book, ask), best));
      HeadOfLevel(ask, Own(book, ask));
      AfterHeadWf(book, ask);
      emptied := TakeHead(ask, best, limit, AfterHead(book, ask));
      Recoupled(ask, best, limit, old(limit.nodes));
    }

    /** Gives the order at position `k` of a level a new volume, and records the book `b`. */
    method SetVolumeIn(limit: Limit, node: OrderNode, size: int, ghost k: nat, ghost b: Book)
      requires limit.Linked() && k < |limit.nodes| && limit.nodes[k] == node
      modifies this`book, limit, node`volume
      ensures OnlyIn(limit, old(limit.nodes)) && book == b
      ensures limit.Linked() && limit.nodes == old(limit.nodes)
      ensures limit.contents == old(limit.contents)[k := old(limit.contents)[k].(volume := size)]
    {
      assert node in limit.nodes;
      limit.SetVolume(node, size, k);
      book := b;
    }

    /** Resizes a resting order where it stands. */
    method ResizeNode(ask: bool, price: int, limit: Limit, node: OrderNode, size: int, ghost k: nat)
      requires Coupled() && price in Tree(ask) && limit == Tree(ask)[price] && size > 0
      requires k < |limit.nodes| && limit.nodes[k] == node
      modifies this`book, limit, node`volume
      ensures Coupled() && book == AfterResize(old(book), ask, node.stamp, size)
    {
      hide SumVolume, Chained, Distinct, Resize, Level;
      ghost var q := Own(book, ask);
      assert LevelHolds(ask, price, Level(q, price));
      assert node.stamp == Level(q, price)[k].stamp;
      StampInLevel(ask, q, price, k, size);
      AfterResizeWf(book, ask, node.stamp, size);
      SetVolumeIn(limit, node, size, k, AfterResize(book, ask, node.stamp, size));
      Recoupled(ask, price, limit, limit.nodes);
    }

    /** Splices a node out of its level and its entry out of the index; an emptied level is erased. */
    method TakeNode(ask: bool, price: int, limit: Limit, node: OrderNode, id: int, ghost k: nat, ghost b: Book)
      requires limit.Linked() && k < |limit.nodes| && limit.nodes[k] == node
      requires price in Tree(ask) && Tree(ask)[price] == limit
      modifies this`global_map, this`bids, this`asks, this`book, limit, limit.nodes`next, limit.nodes`prev
      ensures OnlyIn(limit, old(limit.nodes)) && TreesOnlyAt(ask, price) && book == b
      ensures limit.Linked() && limit.contents == old(limit.contents)[..k] + old(limit.contents)[k + 1..]
      ensures forall i :: 0 <= i < |limit.nodes| ==> limit.nodes[i] in old(limit.nodes)
      ensures forall n :: n in old(limit.nodes) && n != node ==> n in limit.nodes
      ensures global_map == old(global_map) - {id}
      ensures price !in Tree(ask) <==> limit.nodes == []
      ensures price in Tree(ask) ==> Tree(ask) == old(Tree(ask))
    {
      hide SumVolume, Chained, Distinct;
      limit.CutOut(node, k);
      global_map := global_map - {id};
      var emptied := EraseIfEmpty(ask, price, limit);
      book := b;
    }

    twostate lemma IndexAfterRemoval(new ask: bool, new price: int, limit: Limit, new node: OrderNode, new id: int)
      requires old(IndexHolds()) && id in old(global_map) && old(global_map)[id] == node
      requires global_map == old(global_map) - {id} && book.index == old(book.index) - {id}
      requires forall n :: n in old(limit.nodes) && n != node ==> n in limit.nodes
      requires limit.nodes != [] ==> price in Tree(ask)
      ensures IndexShrinks(ask, price, limit, old(limit.nodes))
    {
    }

    /** Takes a resting order off the book. */
    method RemoveNode(ask: bool, price: int, limit: Limit, node: OrderNode, id: int, ghost k: nat)
      requires Coupled() && price in Tree(ask) && limit == Tree(ask)[price]
      requires k < |limit.nodes| && limit.nodes[k] == node
      requires id in global_map && global_map[id] == node
      modifies this`global_map, this`bids, this`asks, this`book, limit, limit.nodes`next, limit.nodes`prev
      ensures Coupled()
      ensures book == AfterRemove(old(book), ask, node.stamp, id)
    {
      ghost var q, nodes := Own(book, ask), limit.nodes;
      assert LevelHolds(ask, price, Level(q, price));
      assert node.stamp == Level(q, price)[k].stamp;
      ghost var b := RemovedAt(book, ask, price, k, id);
      TakeNode(ask, price, limit, node, id, k, b);
      IndexAfterRemoval(ask, price, limit, node, id);
      Recoupled(ask, price, limit, nodes);
    }

    // ---------- Resting ----------

    /** Puts a new order behind the others of a level, and records the book `b`. */
    method PutBehind(limit: Limit, volume: int, orderID: int, ask: bool, price: int, ghost o: Order, ghost b: Book)
      returns (node: OrderNode)
      requires limit.Linked() && limit.nodes != [] && limit.ask == ask && limit.price == price
      requires o == Order(orderID, price, volume, o.stamp)
      requires forall i :: 0 <= i < |limit.nodes| ==> limit.nodes[i] in orders
      modifies this`global_map, this`orders, this`book, limit, limit.nodes`next
      ensures fresh(node) && node.Value() == o && node.side == limit.ask
      ensures OnlyIn(limit, old(limit.nodes)) && orders == old(orders) + {node} && book == b
      ensures limit.Linked() && limit.nodes == old(limit.nodes) + [node]
      ensures limit.contents == old(limit.contents) + [o]
      ensures node.parentlimit == limit && global_map == old(global_map)[orderID := node]
    {
      node := limit.AppendNew(price, volume, orderID, ask, o.stamp);
      global_map := global_map[orderID := node];
      orders, book := orders + {node}, b;
    }

    method AddLevel(ask: bool, price: int, limit: Limit)
      modifies this`bids, this`asks
      ensures TreesOnlyAt(ask, price) && price in Tree(ask) && Tree(ask)[price] == limit
    {
      if ask { asks := asks[price := limit]; } else { bids := bids[price := limit]; }
    }

    /** A new order with a level of its own. */
    method NewLevel(ask: bool, price: int, volume: int, orderID: int, ghost stamp: nat)
      returns (limit: Limit, node: OrderNode)
      ensures fresh(limit) && fresh(node) && node.Value() == Order(orderID, price, volume, stamp) && node.side == ask
      ensures limit.ask == ask && limit.price == price && limit.Linked() && limit.nodes == [node]
      ensures limit.contents == [node.Value()] && node.parentlimit == limit
    {
      node := new OrderNode(price, volume, orderID, ask, stamp);
      limit := new Limit(node);
    }

    /** Gives a new order a level of its own, and records the book `b`. */
    method PutFirst(ask: bool, price: int, volume: int, orderID: int, ghost o: Order, ghost b: Book)
      returns (limit: Limit, node: OrderNode)
      requires price !in Tree(ask) && o == Order(orderID, price, volume, o.stamp)
      modifies this
      ensures fresh(limit) && fresh(node) && node.Value() == o && node.side == ask
      ensures OnlyIn(limit, []) && TreesOnlyAt(ask, price) && book == b
      ensures limits == old(limits) + {limit} && orders == old(orders) + {node}
      ensures price in Tree(ask) && Tree(ask)[price] == limit && limit.ask == ask && limit.price == price
      ensures limit.Linked() && limit.nodes == [node] && limit.contents == [o]
      ensures node.parentlimit == limit && global_map == old(global_map)[orderID := node]
    {
      limit, node := NewLevel(ask, price, volume, orderID, o.stamp);
      AddLevel(ask, price, limit);
      global_map := global_map[orderID := node];
      limits, orders, book := limits + {limit}, orders + {node}, b;
    }

    /** A new node at its level, with its index entry, keeps everything coupled. */
    twostate lemma {:induction false} Rested(new ask: bool, new price: int, new limit: Limit,
                                               touched: seq<OrderNode>, new node: OrderNode)
      requires StepAt(ask, price, limit, touched)
      requires WfQueues(book) && Own(book, !ask) == old(Own(book, !ask))
      requires forall p :: p != price ==> Level(Own(book, ask), p) == Level(old(Own(book, ask)), p)
      requires price in Tree(ask) && Tree(ask)[price] == limit && Level(Own(book, ask), price) != []
      requires forall p :: p == price ==> LevelHolds(ask, p, Level(Own(book, ask), p))
      requires forall n :: n in touched ==> n in limit.nodes
      requires node in orders && node in limit.nodes
      requires global_map == old(global_map)[node.orderID := node]
      requires book.index == old(book.index)[node.orderID := node.stamp]
      ensures Coupled()
    {
      OtherTreeKept(ask, price, limit, touched, Own(book, !ask));
      OwnTreeKept(ask, price, limit, touched, Own(book, ask));
      assert LevelHolds(ask, price, Level(Own(book, ask), price));
      forall id | id in global_map
        ensures global_map[id] in orders && Placed(global_map[id])
        ensures global_map[id].orderID == id && global_map[id].stamp == book.index[id]
      {
        if id != node.orderID { EntryKept(ask, price, limit, touched, id); }
      }
    }

    /** Drawing an arrival number, or allocating elsewhere, disturbs nothing. */
    twostate lemma CoupledKept()
      requires old(Coupled()) && unchanged(`global_map) && unchanged(`bids) && unchanged(`asks)
      requires unchanged(`limits) && unchanged(`orders)
      requires forall l :: l in limits ==> unchanged(l)
      requires forall n :: n in orders ==> unchanged(n)
      requires book == old(book).(clock := book.clock) && book.clock >= old(book.clock)
      ensures Coupled()
    {
      forall a, p | p in Tree(a) ensures LevelHolds(a, p, Level(Own(book, a), p)) {
        assert old(LevelHolds(a, p, Level(Own(book, a), p)));
      }
      forall id | id in global_map ensures global_map[id] in orders && Placed(global_map[id]) {
        assert old(Placed(global_map[id]));
      }
    }

    /** An arrival number has been drawn that is above all resting ones. */
    ghost predicate Drawn()
      reads this
    {
      ClockDrawn(book)
    }

    method RestBehind(ask: bool, price: int, volume: int, orderID: int, limit: Limit, ghost o: Order, ghost b: Book)
      requires Coupled() && price in Tree(ask) && limit == Tree(ask)[price]
      requires o == Order(orderID, price, volume, o.stamp) && ShowsNew(book, b, ask, o)
      modifies this`global_map, this`orders, this`book, limit, limit.nodes`next
      ensures Coupled() && book == b && fresh(orders - old(orders))
    {
      assert LevelHolds(ask, price, Level(Own(book, ask), price));
      ghost var touched := limit.nodes;
      var node := PutBehind(limit, volume, orderID, ask, price, o, b);
      Rested(ask, price, limit, touched, node);
    }

    method RestFirst(ask: bool, price: int, volume: int, orderID: int, ghost o: Order, ghost b: Book)
      requires Coupled() && price !in Tree(ask)
      requires o == Order(orderID, price, volume, o.stamp) && ShowsNew(book, b, ask, o)
      modifies this
      ensures Coupled() && book == b && fresh(limits - old(limits)) && fresh(orders - old(orders))
    {
      var limit, node := PutFirst(ask, price, volume, orderID, o, b);
      Rested(ask, price, limit, [], node);
    }

    /** Rests a sell order: behind the others at its price, or in a new level. */
    method RestAmongAsks(price: int, volume: int, orderID: int)
      requires Coupled() && Drawn() && volume > 0
      modifies this, limits, orders
      ensures Coupled() && book == AfterRest(old(book), true, Order(orderID, price, volume, old(book.clock) - 1))
      ensures fresh(limits - old(limits)) && fresh(orders - old(orders))
    {
      ghost var o := Order(orderID, price, volume, book.clock - 1);
      ghost var b := RestedAt(book, true, o);
      if price in asks {
        var limit := asks[price];
        assert LevelHolds(true, price, limit.contents);
        RestBehind(true, price, volume, orderID, limit, o, b);
      } else {
        RestFirst(true, price, volume, orderID, o, b);
      }
    }

    /** Rests a buy order: behind the others at its price, or in a new level. */
    method RestAmongBids(price: int, volume: int, orderID: int)
      requires Coupled() && Drawn() && volume > 0
      modifies this, limits, orders
      ensures Coupled() && book == AfterRest(old(book), false, Order(orderID, price, volume, old(book.clock) - 1))
      ensures fresh(limits - old(limits)) && fresh(orders - old(orders))
    {
      ghost var o := Order(orderID, price, volume, book.clock - 1);
      ghost var b := RestedAt(book, false, o);
      if price in bids {
        var limit := bids[price];
        assert LevelHolds(false, price, limit.contents);
        RestBehind(false, price, volume, orderID, limit, o, b);
      } else {
        RestFirst(false, price, volume, orderID, o, b);
      }
    }

    // ---------- Matching ----------

    /** The best key of a side leads to the front of its queue. */
    lemma BestIsFront(ask: bool, best: int)
      requires Coupled() && best in Tree(ask)
      requires forall p :: p in Tree(ask) && p != best ==> Better(ask, best, p)
      ensures var q := Own(book, ask); var l := Tree(ask)[best];
        && q != [] && q[0].price == best && l in limits && l.Linked() && l.nodes != []
        && l.head == l.nodes[0] && l.head in orders && l.head.Value() == q[0]
        && forall i :: 0 <= i < |l.nodes| ==> l.nodes[i] in orders
    {
      var q := Own(book, ask);
      assert LevelHolds(ask, best, Level(q, best));
      if q == [] { LevelEmpty(q, best); }
      HeadOfLevel(ask, q);
    }

    /** No volume left, an empty side, or a best price that does not cross: the sweep is over. */
    lemma SweepOver(ask: bool, price: int, left: int)
      requires Coupled()
      requires left > 0 && Tree(ask) != map[] ==>
        exists best :: best in Tree(ask) && !Crosses(!ask, price, best)
                       && (forall p :: p in Tree(ask) && p != best ==> Better(ask, best, p))
      ensures left <= 0 || Own(book, ask) == [] || !Crosses(!ask, price, Own(book, ask)[0].price)
    {
      if left > 0 && Own(book, ask) != [] { HeadOfLevel(ask, Own(book, ask)); }
    }

    /** `limit` is the level with the best price of its side. */
    ghost predicate AtBest(ask: bool, best: int, limit: Limit)
      reads this
    {
      best in Tree(ask) && Tree(ask)[best] == limit && forall p :: p in Tree(ask) && p != best ==> Better(ask, best, p)
    }

    /** A part of the front order is taken; this ends the sweep. */
    method TradePart(sell: bool, price: int, best: int, limit: Limit, left: int, time: int,
                     ghost b0: Book, ghost volume: int, ghost done: seq<Trade>)
      returns (fill: Fill, ghost t: Trade)
      requires Coupled() && HalfWay(b0, book, sell, price, volume, left, done)
      requires AtBest(!sell, best, limit) && Crosses(sell, price, best) && left > 0
      requires limit.head != null && limit.head.volume > left
      modifies this`book, limits, orders`volume
      ensures Coupled() && book == SweptBook(b0, sell, price, volume)
      ensures SweepEnds(b0, sell, price, volume, 0, done + [t])
      ensures fill == Fill(t.maker.price, t.volume, time)
    {
      BestIsFront(!sell, best);
      var current := limit.head;
      fill, t := Fill(current.price, left, time), Trade(current.Value(), left);
      HalfWayReduces(b0, book, sell, price, volume, left, done);
      ResizeNode(!sell, best, limit, current, current.volume - left, 0);
    }

    /** The front order is taken as a whole. */
    method TradeWhole(sell: bool, price: int, best: int, limit: Limit, left: int, time: int,
                      ghost b0: Book, ghost volume: int, ghost done: seq<Trade>)
      returns (taken: int, fill: Fill, emptied: bool, ghost t: Trade)
      requires Coupled() && HalfWay(b0, book, sell, price, volume, left, done)
      requires AtBest(!sell, best, limit) && Crosses(sell, price, best) && left > 0
      requires limit.head != null && limit.head.volume <= left
      modifies this`global_map, this`bids, this`asks, this`book, limits, orders`prev
      ensures Coupled() && HalfWay(b0, book, sell, price, volume, left - taken, done + [t])
      ensures fill == Fill(t.maker.price, t.volume, time)
      ensures |Own(book, !sell)| < |old(Own(book, !sell))|
      ensures !emptied ==> AtBest(!sell, best, limit)
    {
      BestIsFront(!sell, best);
      var current := limit.head;
      taken, t := current.volume, Trade(current.Value(), current.volume);
      fill := Fill(current.price, taken, time);
      HalfWayConsumes(b0, book, sell, price, volume, left, done);
      emptied := ConsumeHead(!sell, best, limit);
    }

    /** A sell order goes through the queue of the highest bid level until it is empty or the volume is used
        up; `over` when an order of the level was taken in part. */
    method SweepBidLevel(price: int, best: int, limit: Limit, volume: int, fills: seq<Fill>, time: int,
                  ghost b0: Book, ghost volume0: int, ghost done0: seq<Trade>)
      returns (left: int, trades: seq<Fill>, over: bool, ghost done: seq<Trade>)
      requires Coupled() && HalfWay(b0, book, true, price, volume0, volume, done0) && fills == Fills(done0, time)
      requires AtBest(false, best, limit) && Crosses(true, price, best) && volume > 0
      modifies this`global_map, this`bids, this`asks, this`book, limits, orders
      ensures Coupled()
      ensures over ==> book == SweptBook(b0, true, price, volume0) && SweepEnds(b0, true, price, volume0, 0, done)
      ensures !over ==> HalfWay(b0, book, true, price, volume0, left, done)
      ensures !over ==> |Own(book, false)| < |old(Own(book, false))|
      ensures trades == Fills(done, time)
    {
      hide Coupled, Sweep, Fills, SweptBook, SweepEnds, HalfWay, Level, Better, Crosses;
      left, trades, over, done := volume, fills, false, done0;
      BestIsFront(false, best);
      while limit.count > 0 && left > 0
        invariant Coupled() && HalfWay(b0, book, true, price, volume0, left, done) && AtBest(false, best, limit)
        invariant trades == Fills(done, time) && !over
        invariant |Own(book, false)| < |old(Own(book, false))| ||
                  (|Own(book, false)| == |old(Own(book, false))| && limit.count > 0 && left > 0)
        decreases |Own(book, false)|
      {
        BestIsFront(false, best);
        var taken, fill, emptied;
        ghost var t;
        if limit.head.volume > left {
          fill, t := TradePart(true, price, best, limit, left, time, b0, volume0, done);
          FillsAppend(done, t, time);
          trades, done, over := trades + [fill], done + [t], true;
          return;
        }
        taken, fill, emptied, t := TradeWhole(true, price, best, limit, left, time, b0, volume0, done);
        FillsAppend(done, t, time);
        left, trades, done := left - taken, trades + [fill], done + [t];
        if emptied {
          break;
        }
      }
    }

    /** A buy order does the same with the lowest ask level. */
    method SweepAskLevel(price: int, best: int, limit: Limit, volume: int, fills: seq<Fill>, time: int,
                  ghost b0: Book, ghost volume0: int, ghost done0: seq<Trade>)
      returns (left: int, trades: seq<Fill>, over: bool, ghost done: seq<Trade>)
      requires Coupled() && HalfWay(b0, book, false, price, volume0, volume, done0) && fills == Fills(done0, time)
      requires AtBest(true, best, limit) && Crosses(false, price, best) && volume > 0
      modifies this`global_map, this`bids, this`asks, this`book, limits, orders
      ensures Coupled()
      ensures over ==> book == SweptBook(b0, false, price, volume0) && SweepEnds(b0, false, price, volume0, 0, done)
      ensures !over ==> HalfWay(b0, book, false, price, volume0, left, done)
      ensures !over ==> |Own(book, true)| < |old(Own(book, true))|
      ensures trades == Fills(done, time)
    {
      hide Coupled, Sweep, Fills, SweptBook, SweepEnds, HalfWay, Level, Better, Crosses;
      left, trades, over, done := volume, fills, false, done0;
      BestIsFront(true, best);
      while limit.count > 0 && left > 0
        invariant Coupled() && HalfWay(b0, book, false, price, volume0, left, done) && AtBest(true, best, limit)
        invariant trades == Fills(done, time) && !over
        invariant |Own(book, true)| < |old(Own(book, true))| ||
                  (|Own(book, true)| == |old(Own(book, true))| && limit.count > 0 && left > 0)
        decreases |Own(book, true)|
      {
        BestIsFront(true, best);
        var taken, fill, emptied;
        ghost var t;
        if limit.head.volume > left {
          fill, t := TradePart(false, price, best, limit, left, time, b0, volume0, done);
          FillsAppend(done, t, time);
          trades, done, over := trades + [fill], done + [t], true;
          return;
        }
        taken, fill, emptied, t := TradeWhole(false, price, best, limit, left, time, b0, volume0, done);
        FillsAppend(done, t, time);
        left, trades, done := left - taken, trades + [fill], done + [t];
        if emptied {
          break;
        }
      }
    }

    /** A sell order walks the bids from the highest price down. */
    method SweepBids(price: int, volume: int, time: int) returns (left: int, trades: seq<Fill>, ghost done: seq<Trade>)
      requires Coupled()
      modifies this`global_map, this`bids, this`asks, this`book, limits, orders
      ensures Coupled() && book == SweptBook(old(book), true, price, volume)
      ensures SweepEnds(old(book), true, price, volume, left, done) && trades == Fills(done, time)
    {
      ghost var b0 := book;
      var over := false;
      left, trades, done := volume, [], [];
      HalfWayStarts(book, true, price, volume);
      while bids != map[] && Crosses(true, price, Highest(bids.Keys)) && left > 0
        invariant Coupled() && HalfWay(b0, book, true, price, volume, left, done) && trades == Fills(done, time)
        decreases |book.bids|
      {
        var best := Highest(bids.Keys);
        left, trades, over, done := SweepBidLevel(price, best, bids[best], left, trades, time, b0, volume, done);
        if over {
          left := 0;
          return;
        }
      }
      SweepOver(false, price, left);
      HalfWayEnds(b0, book, true, price, volume, left, done);
    }

    /** A buy order walks the asks from the lowest price up. */
    method SweepAsks(price: int, volume: int, time: int) returns (left: int, trades: seq<Fill>, ghost done: seq<Trade>)
      requires Coupled()
      modifies this`global_map, this`bids, this`asks, this`book, limits, orders
      ensures Coupled() && book == SweptBook(old(book), false, price, volume)
      ensures SweepEnds(old(book), false, price, volume, left, done) && trades == Fills(done, time)
    {
      ghost var b0 := book;
      var over := false;
      left, trades, done := volume, [], [];
      HalfWayStarts(book, false, price, volume);
      while asks != map[] && Crosses(false, price, Lowest(asks.Keys)) && left > 0
        invariant Coupled() && HalfWay(b0, book, false, price, volume, left, done) && trades == Fills(done, time)
        decreases |book.asks|
      {
        var best := Lowest(asks.Keys);
        left, trades, over, done := SweepAskLevel(price, best, asks[best], left, trades, time, b0, volume, done);
        if over {
          left := 0;
          return;
        }
      }
      SweepOver(true, price, left);
      HalfWayEnds(b0, book, false, price, volume, left, done);
    }

    /** Trades a sell order against the bids and rests what is left of it among the asks. */
    method MatchSell(price: int, volume: int, time: int, orderID: int) returns (res: OrderResult)
      requires Coupled() && Drawn()
      modifies this, limits, orders
      ensures Coupled() && book == Settled(old(book), true, price, volume, orderID)
      ensures res == ResultOf(old(book), true, price, volume, time, orderID)
      ensures Outcomes.Reported(Opposite(old(book), true), price, volume, true, time, orderID, res)
      ensures fresh(limits - old(limits)) && fresh(orders - old(orders))
    {
      hide Outcomes.Reported;
      ResultIsReported(book, true, price, volume, time, orderID);
      var left, trades;
      ghost var done;
      left, trades, done := SweepBids(price, volume, time);
      res := OrderResult(orderID, left <= 0, left, trades);
      DrawnAfterSweep(old(book), true, price, volume);
      if left > 0 {
        RestAmongAsks(price, left, orderID);
      }
    }

    /** Trades a buy order against the asks and rests what is left of it among the bids. */
    method MatchBuy(price: int, volume: int, time: int, orderID: int) returns (res: OrderResult)
      requires Coupled() && Drawn()
      modifies this, limits, orders
      ensures Coupled() && book == Settled(old(book), false, price, volume, orderID)
      ensures res == ResultOf(old(book), false, price, volume, time, orderID)
      ensures Outcomes.Reported(Opposite(old(book), false), price, volume, false, time, orderID, res)
      ensures fresh(limits - old(limits)) && fresh(orders - old(orders))
    {
      hide Outcomes.Reported;
      ResultIsReported(book, false, price, volume, time, orderID);
      var left, trades;
      ghost var done;
      left, trades, done := SweepAsks(price, volume, time);
      res := OrderResult(orderID, left <= 0, left, trades);
      DrawnAfterSweep(old(book), false, price, volume);
      if left > 0 {
        RestAmongBids(price, left, orderID);
      }
    }

    method Match(price: int, volume: int, side: bool, time: int, orderID: int) returns (res: OrderResult)
      requires Coupled() && Drawn()
      modifies this, limits, orders
      ensures Coupled() && book == Settled(old(book), side, price, volume, orderID)
      ensures res == ResultOf(old(book), side, price, volume, time, orderID)
      ensures Outcomes.Reported(Opposite(old(book), side), price, volume, side, time, orderID, res)
      ensures fresh(limits - old(limits)) && fresh(orders - old(orders))
    {
      if side {
        res := MatchSell(price, volume, time, orderID);
      } else {
        res := MatchBuy(price, volume, time, orderID);
      }
    }

    /** The arrival number is drawn first; it is ghost, like the stamps it goes into. */
    method PlaceOrder(price: int, volume: int, side: bool, time: int, order_id: int, gateway_id: int)
      returns (res: OrderResult, gid: int)
      requires Valid()
      modifies this, limits, orders
      ensures Valid() && (book, res) == Place(old(book), price, volume, side, time, order_id) && gid == gateway_id
      ensures Outcomes.Placement(old(book), price, volume, side, time, order_id, book, res)
      ensures fresh(limits - old(limits)) && fresh(orders - old(orders))
    {
      hide Outcomes.Placement;
      Outcomes.PlaceIsPlacement(book, price, volume, side, time, order_id);
      book := book.(clock := book.clock + 1);
      CoupledKept();
      res := Match(price, volume, side, time, order_id);
      gid := gateway_id;
      SettledIsPlace(old(book), price, volume, side, time, order_id);
    }

    /** Where the index leads: to a node at some position of its level. */
    lemma Reached(id: int) returns (k: nat)
      requires Coupled() && id in global_map
      ensures var n := global_map[id]; var q := Own(book, n.side); var lv := Level(q, n.price);
        && n in orders && n.price in Tree(n.side)
        && n.parentlimit == Tree(n.side)[n.price] && n.parentlimit in limits
        && (forall i :: 0 <= i < |n.parentlimit.nodes| ==> n.parentlimit.nodes[i] in orders)
        && k < |n.parentlimit.nodes| == |lv| && n.parentlimit.nodes[k] == n
        && lv[k].stamp == n.stamp && lv[k].volume == n.volume
        && id in book.index && book.index[id] == n.stamp
    {
      var n := global_map[id];
      assert Placed(n);
      assert LevelHolds(n.side, n.price, Level(Own(book, n.side), n.price));
      k :| 0 <= k < |n.parentlimit.nodes| && n.parentlimit.nodes[k] == n;
    }

    method Cancel(orderID: int) returns (ok: bool)
      requires Valid()
      modifies this, limits, orders
      ensures Valid() && (book, ok) == Values.Cancel(old(book), orderID)
      ensures Outcomes.Cancellation(old(book), orderID, book, ok)
      ensures unchanged(`limits) && unchanged(`orders)
    {
      hide Outcomes.Cancellation;
      Outcomes.CancelIsCancellation(book, orderID);
      if orderID !in global_map {
        return false;
      }
      var order := global_map[orderID];
      ghost var k := Reached(orderID);
      OnItsSide(book, order.side, order.price, k, orderID, 0);
      CancelKeepsWf(book, orderID);
      RemoveNode(order.side, order.price, order.parentlimit, order, orderID, k);
      ok := true;
    }

    method Modify(order_id: int, new_size: int) returns (ok: bool)
      requires Valid()
      modifies this, limits, orders
      ensures Valid() && (book, ok) == Values.Modify(old(book), order_id, new_size)
      ensures Outcomes.Modification(old(book), order_id, new_size, book, ok)
      ensures unchanged(`limits) && unchanged(`orders)
    {
      hide Outcomes.Modification;
      Outcomes.ModifyIsModification(book, order_id, new_size);
      if order_id !in global_map {
        return false;
      }
      var order := global_map[order_id];
      ghost var k := Reached(order_id);
      OnItsSide(book, order.side, order.price, k, order_id, new_size);
      if new_size <= 0 {
        return false;
      }
      if new_size >= order.volume {
        return false;
      }
      ModifyKeepsWf(book, order_id, new_size);
      ResizeNode(order.side, order.price, order.parentlimit, order, new_size, k);
      ok := true;
    }
  }

  /** An indexed order is removed or resized on its own side, and the other side does not notice. */
  lemma {:induction false} OnItsSide(b: Book, ask: bool, p: int, k: nat, id: int, size: int)
    requires WfQueues(b) && k < |Level(Own(b, ask), p)|
    requires id in b.index && b.index[id] == Level(Own(b, ask), p)[k].stamp
    ensures var o := Level(Own(b, ask), p)[k];
      && Values.Cancel(b, id) == (AfterRemove(b, ask, o.stamp, id), true)
      && Values.Modify(b, id, size) ==
           if 0 < size < o.volume then (AfterResize(b, ask, o.stamp, size), true) else (b, false)
  {
    var q := Own(b, ask);
    var o := Level(q, p)[k];
    LevelMembers(q, p, o);
    var i :| 0 <= i < |q| && q[i] == o;
    WfBySide(b, ask);
    StampIsAt(ask, q, i, size);
    RemoveAbsent(Opposite(b, ask), o.stamp, size);
    VolumeOfConcat(b.bids, b.asks, o.stamp);
  }

  // ---------- Best keys ----------

  ghost function AnyOf<T>(s: set<T>): (x: T)
    requires s != {}
    ensures x in s
  {
    var x :| x in s; x
  }

  function Highest(keys: set<int>): (best: int)
    requires keys != {}
    ensures best in keys && forall p :: p in keys && p != best ==> Better(false, best, p)
  {
    HighestExists(keys);
    var best :| best in keys && forall p :: p in keys ==> p <= best;
    best
  }

  lemma {:induction false} HighestExists(keys: set<int>)
    requires keys != {}
    ensures exists best :: best in keys && forall p :: p in keys ==> p <= best
  {
    var k := AnyOf(keys);
    if keys == {k} {
    } else {
      assert keys - {k} != {};
      var rest := keys - {k};
      HighestExists(rest);
      var m :| m in rest && forall p :: p in rest ==> p <= m;
      var best := if k > m then k else m;
      forall p | p in keys ensures p <= best {
        if p != k { assert p in rest; }
      }
    }
  }

  function Lowest(keys: set<int>): (best: int)
    requires keys != {}
    ensures best in keys && forall p :: p in keys && p != best ==> Better(true, best, p)
  {
    LowestExists(keys);
    var best :| best in keys && forall p :: p in keys ==> best <= p;
    best
  }

  lemma {:induction false} LowestExists(keys: set<int>)
    requires keys != {}
    ensures exists best :: best in keys && forall p :: p in keys ==> best <= p
  {
    var k := AnyOf(keys);
    if keys == {k} {
    } else {
      assert keys - {k} != {};
      var rest := keys - {k};
      LowestExists(rest);
      var m :| m in rest && forall p :: p in rest ==> m <= p;
      var best := if k < m then k else m;
      forall p | p in keys ensures best <= p {
        if p != k { assert p in rest; }
      }
    }
  }

  // ---------- Placement with the arrival number already drawn ----------

  ghost predicate ClockDrawn(b: Book) {
    b.clock > 0 && StampsBelow(b.bids, b.clock - 1) && StampsBelow(b.asks, b.clock - 1)
  }

  lemma DrawnAfterSweep(b: Book, sell: bool, price: int, volume: int)
    requires WfQueues(b) && ClockDrawn(b)
    ensures ClockDrawn(SweptBook(b, sell, price, volume))
  {
    SweepLeaves(Opposite(b, sell), sell, price, volume);
  }

  function Settled(b: Book, sell: bool, price: int, volume: int, id: int): Book
    requires b.clock > 0
  {
    var left := Sweep(Opposite(b, sell), sell, price, volume).left;
    var swept := SweptBook(b, sell, price, volume);
    if left > 0 then AfterRest(swept, sell, Order(id, price, left, b.clock - 1)) else swept
  }

  function ResultOf(b: Book, sell: bool, price: int, volume: int, time: int, id: int): OrderResult {
    var s := Sweep(Opposite(b, sell), sell, price, volume);
    OrderResult(id, s.left <= 0, s.left, Fills(s.trades, time))
  }

  lemma ResultIsReported(b: Book, sell: bool, price: int, volume: int, time: int, id: int)
    requires WfQueues(b)
    ensures Outcomes.Reported(Opposite(b, sell), price, volume, sell, time, id,
                              ResultOf(b, sell, price, volume, time, id))
  {
    Outcomes.SweepIsReported(Opposite(b, sell), sell, price, volume, time, id);
  }

  /** Drawing the arrival number first makes no difference to a placement. */
  lemma SettledIsPlace(b: Book, price: int, volume: int, sell: bool, time: int, id: int)
    requires Wf(b)
    ensures var b1 := b.(clock := b.clock + 1);
      && Place(b, price, volume, sell, time, id) ==
           (Settled(b1, sell, price, volume, id), ResultOf(b1, sell, price, volume, time, id))
      && Wf(Settled(b1, sell, price, volume, id))
  {
    PlaceKeepsWf(b, price, volume, sell, time, id);
  }

  /** The book without the front order of a side, and with that order's id erased from the index. */
  function AfterHead(b: Book, ask: bool): Book
    requires Own(b, ask) != []
  {
    WithSides(b, ask, Opposite(b, ask), Own(b, ask)[1..]).(index := b.index - {Own(b, ask)[0].id})
  }

  lemma AfterHeadWf(b: Book, ask: bool)
    requires WfQueues(b) && Own(b, ask) != []
    ensures WfQueues(AfterHead(b, ask))
  {
  }

  /** The book after the order with the given stamp on the given side has a new volume. */
  function AfterResize(b: Book, ask: bool, stamp: nat, size: int): Book {
    WithSides(b, ask, Opposite(b, ask), Resize(Own(b, ask), stamp, size))
  }

  lemma AfterResizeWf(b: Book, ask: bool, stamp: nat, size: int)
    requires WfQueues(b) && size > 0
    ensures WfQueues(AfterResize(b, ask, stamp, size))
  {
    WfBySide(b, ask);
    WfBySide(AfterResize(b, ask, stamp, size), ask);
    ResizeKeepsWfQueue(ask, Own(b, ask), stamp, size, b.clock);
    ResizeShape(ask, Own(b, ask), stamp, size);
  }

  /** The book after the order with the given stamp has left the given side. */
  function AfterRemove(b: Book, ask: bool, stamp: nat, id: int): Book {
    WithSides(b, ask, Opposite(b, ask), Remove(Own(b, ask), stamp)).(index := b.index - {id})
  }

  lemma AfterRemoveWf(b: Book, ask: bool, stamp: nat, id: int)
    requires WfQueues(b)
    ensures WfQueues(AfterRemove(b, ask, stamp, id))
  {
    WfBySide(b, ask);
    WfBySide(AfterRemove(b, ask, stamp, id), ask);
    RemoveKeepsWfQueue(ask, Own(b, ask), stamp, b.clock);
    RemoveKeepsApart(Opposite(b, ask), ask, Own(b, ask), stamp);
  }

  /** The book after a removal, as its levels show it. */
  lemma RemovedAt(b: Book, ask: bool, price: int, k: nat, id: int) returns (b': Book)
    requires WfQueues(b) && k < |Level(Own(b, ask), price)|
    ensures b' == AfterRemove(b, ask, Level(Own(b, ask), price)[k].stamp, id)
    ensures WfQueues(b') && Own(b', !ask) == Own(b, !ask) && b'.index == b.index - {id}
    ensures var lv := Level(Own(b, ask), price); Level(Own(b', ask), price) == lv[..k] + lv[k + 1..]
    ensures forall p :: p != price ==> Level(Own(b', ask), p) == Level(Own(b, ask), p)
  {
    b' := AfterRemove(b, ask, Level(Own(b, ask), price)[k].stamp, id);
    AfterRemoveWf(b, ask, Level(Own(b, ask), price)[k].stamp, id);
    WfBySide(b, ask);
    StampInLevel(ask, Own(b, ask), price, k, 0);
  }

  /** The book with a new order on the given side. */
  function AfterRest(b: Book, ask: bool, o: Order): Book {
    WithSides(b, ask, Opposite(b, ask), Insert(ask, Own(b, ask), o)).(index := b.index[o.id := o.stamp])
  }

  /** `b'` is `b` with the new order `o` behind the others at its price. */
  ghost predicate ShowsNew(b: Book, b': Book, ask: bool, o: Order) {
    && WfQueues(b') && Own(b', !ask) == Own(b, !ask) && b'.index == b.index[o.id := o.stamp]
    && Level(Own(b', ask), o.price) == Level(Own(b, ask), o.price) + [o]
    && forall p :: p != o.price ==> Level(Own(b', ask), p) == Level(Own(b, ask), p)
  }

  lemma RestedAt(b: Book, ask: bool, o: Order) returns (b': Book)
    requires WfQueues(b) && o.volume > 0
    requires StampsBelow(b.bids, o.stamp) && StampsBelow(b.asks, o.stamp) && o.stamp + 1 == b.clock
    ensures b' == AfterRest(b, ask, o) && ShowsNew(b, b', ask, o)
  {
    b' := AfterRest(b, ask, o);
    WfBySide(b, ask);
    WfBySide(b', ask);
    InsertKeepsQueue(ask, Own(b, ask), o);
    InsertKeepsOthersApart(Opposite(b, ask), ask, Own(b, ask), o);
    LevelInsert(ask, Own(b, ask), o, o.price);
    forall p | p != o.price ensures Level(Own(b', ask), p) == Level(Own(b, ask), p) {
      LevelInsert(ask, Own(b, ask), o, p);
    }
  }

  // ---------- Sweeps, seen half way ----------

  /** The book `b` and `remaining` are what a sweep that began with `b0` and `volume` has come to after
      the trades `done`. */
  ghost predicate HalfWay(b0: Book, b: Book, sell: bool, price: int, volume: int, remaining: int, done: seq<Trade>) {
    var s, s0 := Sweep(Opposite(b, sell), sell, price, remaining), Sweep(Opposite(b0, sell), sell, price, volume);
    && s0 == Swept(s.rest, done + s.trades, s.left)
    && b == WithSides(b0, sell, Opposite(b, sell), Own(b0, sell)).(index := EraseFilled(b0.index, done))
  }

  /** The book that a sweep leads to. */
  function SweptBook(b: Book, sell: bool, price: int, volume: int): Book {
    var s := Sweep(Opposite(b, sell), sell, price, volume);
    WithSides(b, sell, s.rest, Own(b, sell)).(index := EraseFilled(b.index, s.trades))
  }

  ghost predicate SweepEnds(b: Book, sell: bool, price: int, volume: int, left: int, trades: seq<Trade>) {
    var s := Sweep(Opposite(b, sell), sell, price, volume);
    s.trades == trades && s.left == left
  }

  lemma HalfWayStarts(b: Book, sell: bool, price: int, volume: int)
    ensures HalfWay(b, b, sell, price, volume, volume, [])
  {
    var trades := Sweep(Opposite(b, sell), sell, price, volume).trades;
    assert [] + trades == trades;
  }

  lemma {:induction false} EraseFilledAppend(index: map<int, nat>, done: seq<Trade>, t: Trade)
    ensures EraseFilled(index, done + [t]) == EraseFilled(EraseFilled(index, done), [t])
  {
    if done != [] {
      var index' := if done[0].volume == done[0].maker.volume then index - {done[0].maker.id} else index;
      EraseFilledAppend(index', done[1..], t);
      assert (done + [t])[1..] == done[1..] + [t];
    }
  }

  lemma {:induction false} FillsAppend(done: seq<Trade>, t: Trade, time: int)
    ensures Fills(done + [t], time) == Fills(done, time) + [Fill(t.maker.price, t.volume, time)]
  {
    if done != [] {
      FillsAppend(done[1..], t, time);
      assert (done + [t])[1..] == done[1..] + [t];
    }
  }

  lemma HalfWayConsumes(b0: Book, b: Book, sell: bool, price: int, volume: int, remaining: int, done: seq<Trade>)
    requires HalfWay(b0, b, sell, price, volume, remaining, done) && remaining > 0
    requires Opposite(b, sell) != []
    requires var o := Opposite(b, sell)[0]; Crosses(sell, price, o.price) && o.volume <= remaining
    ensures var o := Opposite(b, sell)[0];
      HalfWay(b0, AfterHead(b, !sell), sell, price, volume, remaining - o.volume, done + [Trade(o, o.volume)])
  {
    var q := Opposite(b, sell);
    var t := Trade(q[0], q[0].volume);
    EraseFilledAppend(b0.index, done, t);
    var r := Sweep(q[1..], sell, price, remaining - q[0].volume);
    assert done + ([t] + r.trades) == (done + [t]) + r.trades;
  }

  /** A part of the front order is taken: the sweep is over. */
  lemma HalfWayReduces(b0: Book, b: Book, sell: bool, price: int, volume: int, remaining: int, done: seq<Trade>)
    requires HalfWay(b0, b, sell, price, volume, remaining, done) && remaining > 0
    requires Opposite(b, sell) != []
    requires var o := Opposite(b, sell)[0]; Crosses(sell, price, o.price) && o.volume > remaining
    ensures var o := Opposite(b, sell)[0]; var t := Trade(o, remaining);
      && SweepEnds(b0, sell, price, volume, 0, done + [t])
      && AfterResize(b, !sell, o.stamp, o.volume - remaining) == SweptBook(b0, sell, price, volume)
  {
    EraseFilledAppend(b0.index, done, Trade(Opposite(b, sell)[0], remaining));
  }

  /** Nothing crosses any more, or nothing is left to trade: the sweep is over. */
  lemma HalfWayEnds(b0: Book, b: Book, sell: bool, price: int, volume: int, remaining: int, done: seq<Trade>)
    requires HalfWay(b0, b, sell, price, volume, remaining, done)
    requires remaining <= 0 || Opposite(b, sell) == [] || !Crosses(sell, price, Opposite(b, sell)[0].price)
    ensures b == SweptBook(b0, sell, price, volume) && SweepEnds(b0, sell, price, volume, remaining, done)
  {
    assert done + [] == done;
  }

  /** The front of a sorted queue is the front of its best level. */
  lemma {:induction false} HeadOfLevel(ask: bool, q: seq<Order>)
    requires Sorted(ask, q) && q != []
    ensures Level(q, q[0].price) != [] && Level(q, q[0].price)[0] == q[0]
    ensures forall p :: Level(q, p) != [] ==> p == q[0].price || Better(ask, q[0].price, p)
    ensures forall p :: Level(q[1..], p) == if p == q[0].price then Level(q, p)[1..] else Level(q, p)
  {
    forall p | Level(q, p) != [] ensures p == q[0].price || Better(ask, q[0].price, p) {
      LevelEmpty(q, p);
      var i :| 0 <= i < |q| && q[i].price == p;
      if i > 0 { assert Before(ask, q[0], q[i]); }
    }
  }
}
