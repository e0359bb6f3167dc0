/** What a sweep of the opposite queue does, in closed form. */
module Sweeps {
  import opened Book

  /** How many resting orders a sweep uses up completely. */
  function Depth(q: seq<Order>, sell: bool, limit: int, volume: int): nat {
    if q == [] || !Crosses(sell, limit, q[0].price) || volume <= 0 || q[0].volume > volume then 0
    else 1 + Depth(q[1..], sell, limit, volume - q[0].volume)
  }

  /** `r` takes the first `k` orders of `q` whole, possibly a part of the next one, and nothing else;
      it stops early only because the next order does not cross. */
  ghost predicate TakesPrefix(q: seq<Order>, sell: bool, limit: int, volume: int, k: nat, r: Swept) {
    && k <= |q|
    && k <= |r.trades| <= k + 1
    && (forall i :: 0 <= i < k ==> r.trades[i] == Trade(q[i], q[i].volume))
    && (forall i :: 0 <= i < |r.trades| && i < |q| ==> Crosses(sell, limit, q[i].price))
    && (|r.trades| == k ==>
          && r.rest == q[k..] && r.left == volume - SumVolume(q[..k])
          && (r.left <= 0 || k == |q| || !Crosses(sell, limit, q[k].price)))
    && (|r.trades| == k + 1 ==>
          && k < |q| && r.left == 0
          && 0 < volume - SumVolume(q[..k]) < q[k].volume
          && r.trades[k] == Trade(q[k], volume - SumVolume(q[..k]))
          && r.rest == [q[k].(volume := q[k].volume - (volume - SumVolume(q[..k])))] + q[k + 1..])
    && (volume > 0 ==> r.left >= 0)
    && (volume <= 0 ==> r.trades == [] && r.left == volume)
  }

  lemma PrefixExtends(q: seq<Order>, sell: bool, limit: int, volume: int, k: nat, r: Swept)
    requires q != [] && q[0].volume > 0 && Crosses(sell, limit, q[0].price) && 0 < q[0].volume <= volume
    requires TakesPrefix(q[1..], sell, limit, volume - q[0].volume, k, r)
    ensures TakesPrefix(q, sell, limit, volume, k + 1, Swept(r.rest, [Trade(q[0], q[0].volume)] + r.trades, r.left))
  {
    var t := q[1..];
    var R := Swept(r.rest, [Trade(q[0], q[0].volume)] + r.trades, r.left);
    assert q[..k + 1] == [q[0]] + t[..k];
    assert SumVolume(q[..k + 1]) == q[0].volume + SumVolume(t[..k]);
    assert q[k + 1..] == t[k..];
    forall i | 0 <= i < k + 1 ensures R.trades[i] == Trade(q[i], q[i].volume) {
      if i > 0 { assert r.trades[i - 1] == Trade(t[i - 1], t[i - 1].volume); }
    }
    forall i | 0 <= i < |R.trades| && i < |q| ensures Crosses(sell, limit, q[i].price) {
      if i > 0 { assert Crosses(sell, limit, t[i - 1].price); }
    }
    if |r.trades| == k + 1 { assert q[k + 2..] == t[k + 1..]; }
  }

  lemma {:induction false} PrefixStops(q: seq<Order>, sell: bool, limit: int, volume: int)
    requires Positive(q)
    requires q == [] || !Crosses(sell, limit, q[0].price) || volume <= 0 || q[0].volume > volume
    ensures TakesPrefix(q, sell, limit, volume, 0, Sweep(q, sell, limit, volume))
  {
    assert q[..0] == [];
    assert q[0..] == q;
  }

  lemma {:induction false} SweepTakesPrefix(q: seq<Order>, sell: bool, limit: int, volume: int)
    requires Positive(q)
    ensures TakesPrefix(q, sell, limit, volume, Depth(q, sell, limit, volume), Sweep(q, sell, limit, volume))
  {
    if q == [] || !Crosses(sell, limit, q[0].price) || volume <= 0 || q[0].volume > volume {
      PrefixStops(q, sell, limit, volume);
    } else {
      var v := volume - q[0].volume;
      SweepTakesPrefix(q[1..], sell, limit, v);
      PrefixExtends(q, sell, limit, volume, Depth(q[1..], sell, limit, v), Sweep(q[1..], sell, limit, v));
    }
  }

  /** `rest` is `q` without its first `k` orders, the first one left possibly reduced. */
  ghost predicate Leaves(q: seq<Order>, k: nat, rest: seq<Order>) {
    && k + |rest| == |q|
    && (forall i :: 0 <= i < |rest| ==>
          && rest[i].id == q[i + k].id && rest[i].price == q[i + k].price && rest[i].stamp == q[i + k].stamp
          && 0 < rest[i].volume <= q[i + k].volume)
    && (forall i :: 0 < i < |rest| ==> rest[i] == q[i + k])
  }

  lemma {:induction false} SweepLeaves(q: seq<Order>, sell: bool, limit: int, volume: int)
    requires Positive(q)
    ensures Leaves(q, Depth(q, sell, limit, volume), Sweep(q, sell, limit, volume).rest)
  {
    SweepTakesPrefix(q, sell, limit, volume);
  }

  /** Erasing used-up makers removes exactly their ids from the index. */
  lemma {:induction false} EraseFilledIs(index: map<int, nat>, trades: seq<Trade>, id: int)
    ensures id in EraseFilled(index, trades) <==>
              id in index && forall i :: 0 <= i < |trades| ==>
                trades[i].maker.id != id || trades[i].volume != trades[i].maker.volume
    ensures id in EraseFilled(index, trades) ==> EraseFilled(index, trades)[id] == index[id]
  {
    if trades != [] {
      var index' := if trades[0].volume == trades[0].maker.volume then index - {trades[0].maker.id} else index;
      EraseFilledIs(index', trades[1..], id);
      assert trades == [trades[0]] + trades[1..];
    }
  }

  /** The same, for the trades of a sweep: the first `Depth` makers are the used-up ones. */
  lemma {:induction false} SweepErases(index: map<int, nat>, q: seq<Order>, sell: bool, limit: int, volume: int,
                                       id: int)
    requires Positive(q)
    ensures Depth(q, sell, limit, volume) <= |q|
    ensures id in EraseFilled(index, Sweep(q, sell, limit, volume).trades) <==>
              id in index && forall i :: 0 <= i < Depth(q, sell, limit, volume) ==> q[i].id != id
    ensures id in EraseFilled(index, Sweep(q, sell, limit, volume).trades) ==>
              EraseFilled(index, Sweep(q, sell, limit, volume).trades)[id] == index[id]
  {
    hide Sweep, Depth, EraseFilled;
    SweepTakesPrefix(q, sell, limit, volume);
    var k, r := Depth(q, sell, limit, volume), Sweep(q, sell, limit, volume);
    EraseFilledIs(index, r.trades, id);
    if id in EraseFilled(index, r.trades) {
      forall i | 0 <= i < k ensures q[i].id != id {
        assert r.trades[i] == Trade(q[i], q[i].volume);
      }
    } else if id in index {
      var i :| 0 <= i < |r.trades| && r.trades[i].maker.id == id && r.trades[i].volume == r.trades[i].maker.volume;
      assert i < k;
      assert q[i].id == id;
    }
  }

  /** A new order goes behind every order whose price is not worse. */
  lemma {:induction false} InsertShape(ask: bool, q: seq<Order>, o: Order) returns (k: nat)
    requires Sorted(ask, q)
    ensures k <= |q| && Insert(ask, q, o) == q[..k] + [o] + q[k..]
    ensures forall i :: 0 <= i < |q| ==> (Better(ask, o.price, q[i].price) <==> k <= i)
  {
    if q == [] {
      k := 0;
    } else if Better(ask, o.price, q[0].price) {
      k := 0;
      forall i | 0 <= i < |q| ensures Better(ask, o.price, q[i].price) {
        assert i > 0 ==> Before(ask, q[0], q[i]);
      }
    } else {
      var t := q[1..];
      var k' := InsertShape(ask, t, o);
      k := k' + 1;
      hide Sorted, Before;
      assert q[..k] == [q[0]] + t[..k'] && q[k..] == t[k'..];
      forall i | 0 <= i < |q| ensures Better(ask, o.price, q[i].price) <==> k <= i {
        assert i > 0 ==> q[i] == t[i - 1];
      }
    }
  }

  /** Removing and looking up act on the first order that carries the stamp. */
  lemma {:induction false} StampShape(q: seq<Order>, stamp: nat) returns (k: nat)
    ensures k <= |q| && (forall i :: 0 <= i < k ==> q[i].stamp != stamp)
    ensures k < |q| ==> q[k].stamp == stamp && Remove(q, stamp) == q[..k] + q[k + 1..]
    ensures k == |q| ==> Remove(q, stamp) == q
    ensures VolumeOf(q, stamp) == if k < |q| then q[k].volume else 0
  {
    if q == [] || q[0].stamp == stamp {
      k := 0;
    } else {
      var t := q[1..];
      var k' := StampShape(t, stamp);
      k := k' + 1;
      forall i | 0 <= i < k ensures q[i].stamp != stamp {
        assert i > 0 ==> q[i] == t[i - 1];
      }
      assert q == [q[0]] + t;
      if k < |q| {
        assert q[..k] == [q[0]] + t[..k'] && q[k + 1..] == t[k' + 1..];
      }
    }
  }

  /** And so does resizing. */
  lemma {:induction false} ResizedAt(q: seq<Order>, stamp: nat, size: int, k: nat)
    requires k <= |q| && (forall i :: 0 <= i < k ==> q[i].stamp != stamp)
    requires k < |q| ==> q[k].stamp == stamp
    ensures Resize(q, stamp, size) == if k < |q| then q[k := q[k].(volume := size)] else q
  {
    if k == 0 {
    } else {
      var t := q[1..];
      ResizedAt(t, stamp, size, k - 1);
      assert q == [q[0]] + t;
      assert k < |q| ==> q[k := q[k].(volume := size)] == [q[0]] + t[k - 1 := t[k - 1].(volume := size)];
    }
  }
}
