/**
 One price level: an intrusive doubly linked list of orders with cached totals.

 The methods are the list manipulations that the matching, cancelling and modifying code performs in
 line on `Limit` and `Order`.  The ghost fields give the list as a sequence of nodes and as the queue
 of orders it stands for.
 */
module Limits {
  import opened Book

  class OrderNode {
    var price: int
    var volume: int
    var orderID: int
    var side: bool
    var next: OrderNode?
    var prev: OrderNode?
    var parentlimit: Limit?
    ghost var stamp: nat

    constructor (price: int, volume: int, orderID: int, side: bool, ghost stamp: nat)
      ensures this.price == price && this.volume == volume && this.orderID == orderID && this.side == side
      ensures this.stamp == stamp && next == null && prev == null && parentlimit == null
    {
      this.price, this.volume, this.orderID, this.side := price, volume, orderID, side;
      next, prev, parentlimit := null, null, null;
      this.stamp := stamp;
    }

    ghost function Value(): Order
      reads this
    {
      Order(orderID, price, volume, stamp)
    }
  }

  ghost predicate Distinct(ns: seq<OrderNode>) {
    forall i, j :: 0 <= i < j < |ns| ==> ns[i] != ns[j]
  }

  /** `next` and `prev` run through the nodes in both directions and end in null. */
  ghost predicate Chained(ns: seq<OrderNode>)
    reads ns
  {
    && (ns != [] ==> ns[0].prev == null && ns[|ns| - 1].next == null)
    && (forall i {:trigger ns[i].next} :: 0 <= i < |ns| - 1 ==> ns[i].next == ns[i + 1])
    && (forall i {:trigger ns[i].prev} :: 0 < i < |ns| ==> ns[i].prev == ns[i - 1])
  }

  /** The links of `ns` after its node at `k` has been bypassed. */
  ghost predicate ChainedWithout(ns: seq<OrderNode>, k: nat)
    requires k < |ns|
    reads ns
  {
    && (forall i {:trigger ns[i].next} :: 0 <= i < |ns| - 1 && i != k && i + 1 != k ==> ns[i].next == ns[i + 1])
    && (forall i {:trigger ns[i].prev} :: 0 < i < |ns| && i != k && i - 1 != k ==> ns[i].prev == ns[i - 1])
    && (k > 0 ==> ns[0].prev == null && ns[k - 1].next == if k + 1 < |ns| then ns[k + 1] else null)
    && (k < |ns| - 1 ==> ns[|ns| - 1].next == null && ns[k + 1].prev == if k > 0 then ns[k - 1] else null)
  }

  /** The sequence without its element at `k`. */
  ghost predicate IsWithout<T>(s: seq<T>, k: nat, r: seq<T>) {
    && k < |s| == |r| + 1
    && forall i :: 0 <= i < |r| ==> r[i] == s[if i < k then i else i + 1]
  }

  lemma WithoutSlices<T>(s: seq<T>, k: nat, r: seq<T>)
    requires IsWithout(s, k, r)
    ensures r == s[..k] + s[k + 1..]
  {
  }

  lemma NodesKept(nodes: seq<OrderNode>, k: nat, nodes': seq<OrderNode>)
    requires IsWithout(nodes, k, nodes')
    ensures forall n :: n in nodes && n != nodes[k] ==> n in nodes'
    ensures forall i :: 0 <= i < |nodes'| ==> nodes'[i] in nodes
  {
    forall n | n in nodes && n != nodes[k] ensures n in nodes' {
      var i :| 0 <= i < |nodes| && nodes[i] == n;
      assert nodes'[if i < k then i else i - 1] == n;
    }
  }

  lemma WithoutIsChained(ns: seq<OrderNode>, k: nat, ns': seq<OrderNode>)
    requires IsWithout(ns, k, ns') && Distinct(ns) && ChainedWithout(ns, k)
    ensures Distinct(ns') && Chained(ns')
  {
  }

  lemma WithoutRepresents(l: Limit, ns: seq<OrderNode>, q: seq<Order>, k: nat, ns': seq<OrderNode>, q': seq<Order>)
    requires IsWithout(ns, k, ns') && IsWithout(q, k, q') && l.Represents(ns, q)
    ensures l.Represents(ns', q') && ns[k].volume == q[k].volume
  {
  }

  /** What a list stands for once its node at `k` is bypassed. */
  lemma Spliced(l: Limit, ns: seq<OrderNode>, q: seq<Order>, k: nat) returns (ns': seq<OrderNode>, q': seq<Order>)
    requires k < |ns| && Distinct(ns) && ChainedWithout(ns, k) && l.Represents(ns, q)
    ensures Distinct(ns') && Chained(ns') && l.Represents(ns', q')
    ensures IsWithout(ns, k, ns') && IsWithout(q, k, q')
    ensures SumVolume(q') == SumVolume(q) - ns[k].volume
  {
    ns', q' := ns[..k] + ns[k + 1..], q[..k] + q[k + 1..];
    SumWithout(q, k);
    WithoutIsChained(ns, k, ns');
    WithoutRepresents(l, ns, q, k, ns', q');
  }

  lemma AppendRepresents(l: Limit, ns: seq<OrderNode>, q: seq<Order>, n: OrderNode)
    requires Distinct(ns) && n !in ns && l.Represents(ns, q) && l.Represents([n], [n.Value()])
    ensures Distinct(ns + [n]) && l.Represents(ns + [n], q + [n.Value()])
  {
  }

  class Limit {
    var head: OrderNode?
    var tail: OrderNode?
    var count: int
    var totalVolume: int
    ghost var nodes: seq<OrderNode>
    ghost var contents: seq<Order>
    ghost const ask: bool
    ghost const price: int

    /** The list is acyclic, its links are inverse to each other, the nodes point back here, and the
        cached totals are exact.  An emptied level keeps a stale tail, as after matching. */
    ghost predicate Linked()
      reads this, nodes
    {
      && Distinct(nodes) && Chained(nodes) && Represents(nodes, contents)
      && count == |nodes|
      && head == (if nodes == [] then null else nodes[0])
      && (nodes != [] ==> tail == nodes[|nodes| - 1])
      && totalVolume == SumVolume(contents)
    }

    /** The nodes belong here and hold the given orders. */
    ghost predicate Represents(ns: seq<OrderNode>, q: seq<Order>)
      reads ns
    {
      && |ns| == |q|
      && (forall i {:trigger ns[i].parentlimit} :: 0 <= i < |ns| ==> ns[i].parentlimit == this)
      && (forall i {:trigger ns[i].side} :: 0 <= i < |ns| ==> ns[i].side == ask)
      && (forall i {:trigger ns[i].price} :: 0 <= i < |ns| ==> ns[i].price == price)
      && (forall i {:trigger ns[i].volume} :: 0 <= i < |ns| ==> ns[i].volume == q[i].volume)
      && (forall i {:trigger ns[i].orderID} :: 0 <= i < |ns| ==> ns[i].orderID == q[i].id)
      && (forall i {:trigger ns[i].stamp} :: 0 <= i < |ns| ==> ns[i].stamp == q[i].stamp)
      && (forall i {:trigger q[i].price} :: 0 <= i < |ns| ==> q[i].price == price)
    }

    /** A level with a single order in it. */
    constructor (order: OrderNode)
      requires order.next == null && order.prev == null
      modifies order`parentlimit
      ensures Linked() && nodes == [order] && contents == [old(order.Value())]
      ensures ask == order.side && price == order.price
      ensures order.parentlimit == this
    {
      head, tail, count, totalVolume := order, order, 1, order.volume;
      nodes, contents := [order], [order.Value()];
      ask, price := order.side, order.price;
      new;
      order.parentlimit := this;
    }

    /** Links a new node behind the tail. */
    method Attach(order: OrderNode)
      requires Distinct(nodes) && Chained(nodes) && Represents(nodes, contents)
      requires nodes != [] && tail == nodes[|nodes| - 1] && order !in nodes
      requires order.next == null && order.side == ask && order.price == price
      modifies order`prev, order`parentlimit, nodes`next
      ensures Chained(nodes + [order]) && order.parentlimit == this
      ensures Represents(nodes, contents)
    {
      tail.next := order;
      order.prev := tail;
      order.parentlimit := this;
    }

    /** Updates the level once a node is linked behind its tail. */
    method Adopt(order: OrderNode)
      requires nodes != [] && order !in nodes && Distinct(nodes) && Chained(nodes + [order])
      requires Represents(nodes, contents) && Represents([order], [order.Value()])
      requires head == nodes[0] && count == |nodes| && totalVolume == SumVolume(contents)
      modifies this
      ensures Linked()
      ensures nodes == old(nodes) + [order] && contents == old(contents) + [order.Value()]
    {
      AppendRepresents(this, nodes, contents, order);
      SumAppend(contents, order.Value());
      count := count + 1;
      tail := order;
      totalVolume := totalVolume + order.volume;
      nodes, contents := nodes + [order], contents + [order.Value()];
    }

    /** Appends a new order behind all others. */
    method Append(order: OrderNode)
      requires Linked() && nodes != [] && order !in nodes
      requires order.next == null && order.side == ask && order.price == price
      modifies this, order`prev, order`parentlimit, nodes`next
      ensures Linked()
      ensures nodes == old(nodes) + [order] && contents == old(contents) + [old(order.Value())]
    {
      Attach(order);
      Adopt(order);
    }

    /** Allocates a new order and appends it. */
    method AppendNew(price: int, volume: int, orderID: int, side: bool, ghost stamp: nat) returns (order: OrderNode)
      requires Linked() && nodes != [] && side == ask && price == this.price
      modifies this, nodes`next
      ensures fresh(order) && order.side == ask && order.parentlimit == this
      ensures order.Value() == Order(orderID, price, volume, stamp)
      ensures Linked()
      ensures nodes == old(nodes) + [order] && contents == old(contents) + [order.Value()]
    {
      order := new OrderNode(price, volume, orderID, side, stamp);
      Append(order);
    }

    /** Takes the oldest order out of the list. */
    method PopHead()
      requires Linked() && nodes != []
      modifies this, nodes`prev
      ensures Linked()
      ensures nodes == old(nodes)[1..] && contents == old(contents)[1..]
    {
      ghost var before, was := nodes, contents;
      assert head == nodes[0] && nodes[0].volume == contents[0].volume;
      assert |nodes| > 1 ==> head.next == nodes[1] && nodes[1] == nodes[1..][0];
      count := count - 1;
      totalVolume := totalVolume - head.volume;
      head := head.next;
      if head != null {
        head.prev := null;
      }
      nodes, contents := nodes[1..], contents[1..];
      assert forall i :: 0 <= i < |nodes| ==> nodes[i] == before[i + 1] && contents[i] == was[i + 1];
    }

    /** Gives the order at position `k` a new volume, in place. */
    method SetVolume(order: OrderNode, volume: int, ghost k: nat)
      requires Linked() && k < |nodes| && nodes[k] == order
      modifies this, order`volume
      ensures Linked()
      ensures nodes == old(nodes) && contents == old(contents)[k := old(contents)[k].(volume := volume)]
    {
      SumUpdate(contents, k, volume);
      assert order.volume == contents[k].volume;
      totalVolume := totalVolume - (order.volume - volume);
      order.volume := volume;
      contents := contents[k := contents[k].(volume := volume)];
    }

    /** Makes the neighbours of the node at position `k` point past it. */
    method Bypass(order: OrderNode, ghost k: nat)
      requires Distinct(nodes) && Chained(nodes) && Represents(nodes, contents)
      requires k < |nodes| && nodes[k] == order
      modifies nodes`next, nodes`prev
      ensures ChainedWithout(nodes, k) && Represents(nodes, contents)
      ensures order.prev == if k > 0 then nodes[k - 1] else null
      ensures order.next == if k + 1 < |nodes| then nodes[k + 1] else null
    {
      assert order.prev == if k > 0 then nodes[k - 1] else null;
      assert order.next == if k + 1 < |nodes| then nodes[k + 1] else null;
      if order.prev != null {
        order.prev.next := order.next;
      }
      if order.next != null {
        order.next.prev := order.prev;
      }
    }

    /** Updates the level once the node at position `k` is bypassed. */
    method Forget(order: OrderNode, ghost k: nat)
      requires k < |nodes| && nodes[k] == order
      requires Distinct(nodes) && ChainedWithout(nodes, k) && Represents(nodes, contents)
      requires head == nodes[0] && tail == nodes[|nodes| - 1]
      requires count == |nodes| && totalVolume == SumVolume(contents)
      requires order.prev == if k > 0 then nodes[k - 1] else null
      requires order.next == if k + 1 < |nodes| then nodes[k + 1] else null
      modifies this
      ensures Linked()
      ensures IsWithout(old(nodes), k, nodes) && IsWithout(old(contents), k, contents)
    {
      ghost var ns, q := Spliced(this, nodes, contents, k);
      if head == order {
        head := order.next;
      }
      if tail == order {
        tail := order.prev;
      }
      count := count - 1;
      totalVolume := totalVolume - order.volume;
      nodes, contents := ns, q;
    }

    /** Splices the order at position `k` out, wherever it stands. */
    method Unlink(order: OrderNode, ghost k: nat)
      requires Linked() && k < |nodes| && nodes[k] == order
      modifies this, nodes`next, nodes`prev
      ensures Linked()
      ensures IsWithout(old(nodes), k, nodes) && IsWithout(old(contents), k, contents)
    {
      Bypass(order, k);
      Forget(order, k);
    }

    /** The same, for readers who think of the level as a queue and a set of nodes. */
    method CutOut(order: OrderNode, ghost k: nat)
      requires Linked() && k < |nodes| && nodes[k] == order
      modifies this, nodes`next, nodes`prev
      ensures Linked() && contents == old(contents)[..k] + old(contents)[k + 1..]
      ensures forall i :: 0 <= i < |nodes| ==> nodes[i] in old(nodes)
      ensures forall n :: n in old(nodes) && n != order ==> n in nodes
    {
      Unlink(order, k);
      WithoutSlices(old(contents), k, contents);
      NodesKept(old(nodes), k, nodes);
    }
  }

  lemma {:induction false} SumAppend(q: seq<Order>, o: Order)
    ensures SumVolume(q + [o]) == SumVolume(q) + o.volume
  {
    if q != [] {
      SumAppend(q[1..], o);
      assert (q + [o])[1..] == q[1..] + [o];
    }
  }

  lemma {:induction false} SumUpdate(q: seq<Order>, k: nat, volume: int)
    requires k < |q|
    ensures SumVolume(q[k := q[k].(volume := volume)]) == SumVolume(q) - q[k].volume + volume
  {
    var q' := q[k := q[k].(volume := volume)];
    if k == 0 {
      assert q'[1..] == q[1..];
    } else {
      SumUpdate(q[1..], k - 1, volume);
      assert q'[1..] == q[1..][k - 1 := q[1..][k - 1].(volume := volume)];
    }
  }

  lemma {:induction false} SumWithout(q: seq<Order>, k: nat)
    requires k < |q|
    ensures SumVolume(q[..k] + q[k + 1..]) == SumVolume(q) - q[k].volume
  {
    var q' := q[..k] + q[k + 1..];
    if k == 0 {
      assert q' == q[1..];
    } else {
      SumWithout(q[1..], k - 1);
      assert q'[1..] == q[1..][..k - 1] + q[1..][k..];
    }
  }
}
