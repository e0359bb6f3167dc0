/** The queue of one price level, as a part of the whole queue of its side. */
module Levels {
  import opened Book
  import opened Sweeps

  lemma {:induction false} LevelCons(o: Order, q: seq<Order>, p: int)
    ensures Level([o] + q, p) == (if o.price == p then [o] else []) + Level(q, p)
  {
    assert ([o] + q)[1..] == q;
  }

  lemma {:induction false} LevelMembers(q: seq<Order>, p: int, o: Order)
    ensures o in Level(q, p) <==> o in q && o.price == p
  {
    if q != [] {
      LevelMembers(q[1..], p, o);
      assert q == [q[0]] + q[1..];
    }
  }

  lemma {:induction false} LevelEmpty(q: seq<Order>, p: int)
    ensures Level(q, p) == [] <==> forall i :: 0 <= i < |q| ==> q[i].price != p
  {
    forall i | 0 <= i < |q| && q[i].price == p ensures Level(q, p) != [] {
      LevelMembers(q, p, q[i]);
    }
    if Level(q, p) != [] {
      LevelMembers(q, p, Level(q, p)[0]);
    }
  }

  lemma SortedTail(ask: bool, q: seq<Order>)
    requires Sorted(ask, q) && q != []
    ensures Sorted(ask, q[1..])
    ensures forall i :: 0 <= i < |q| - 1 ==> Before(ask, q[0], q[1..][i]) && q[1..][i].stamp != q[0].stamp
  {
  }

  /** A new order joins the back of its own level and touches no other level. */
  lemma {:induction false} LevelInsert(ask: bool, q: seq<Order>, o: Order, p: int)
    requires Sorted(ask, q)
    ensures Level(Insert(ask, q, o), p) == Level(q, p) + if p == o.price then [o] else []
  {
    if q == [] {
    } else if Better(ask, o.price, q[0].price) {
      assert ([o] + q)[1..] == q;
      if p == o.price {
        LevelEmpty(q, p);
        assert forall i :: 0 < i < |q| ==> Before(ask, q[0], q[i]);
      }
    } else {
      SortedTail(ask, q);
      LevelInsert(ask, q[1..], o, p);
      assert Insert(ask, q, o)[1..] == Insert(ask, q[1..], o);
    }
  }

  lemma {:induction false} RemoveAbsent(q: seq<Order>, stamp: nat, size: int)
    requires forall i :: 0 <= i < |q| ==> q[i].stamp != stamp
    ensures Remove(q, stamp) == q && Resize(q, stamp, size) == q && VolumeOf(q, stamp) == 0
  {
    if q != [] { RemoveAbsent(q[1..], stamp, size); }
  }

  /** Removing or resizing an order acts on its own level only, and there at its own place. */
  lemma {:induction false} LevelOfStamp(ask: bool, q: seq<Order>, stamp: nat, size: int, p: int)
    requires Sorted(ask, q)
    ensures Level(Remove(q, stamp), p) == Remove(Level(q, p), stamp)
    ensures Level(Resize(q, stamp, size), p) == Resize(Level(q, p), stamp, size)
  {
    if q == [] {
    } else {
      SortedTail(ask, q);
      LevelOfStamp(ask, q[1..], stamp, size, p);
      var t := Level(q[1..], p);
      if q[0].stamp == stamp {
        forall i | 0 <= i < |t| ensures t[i].stamp != stamp {
          LevelMembers(q[1..], p, t[i]);
        }
        RemoveAbsent(t, stamp, size);
        LevelCons(q[0].(volume := size), q[1..], p);
        assert q[0].price == p ==> Level(q, p)[1..] == t;
      } else {
        LevelCons(q[0], Remove(q[1..], stamp), p);
        LevelCons(q[0], Resize(q[1..], stamp, size), p);
        if q[0].price == p { assert Level(q, p) == [q[0]] + t && Level(q, p)[1..] == t; }
      }
    }
  }

  /** Each level is in arrival order: stamps strictly increase from front to back. */
  lemma {:induction false} LevelIsFifo(ask: bool, q: seq<Order>, p: int)
    requires Sorted(ask, q)
    ensures forall i, j :: 0 <= i < j < |Level(q, p)| ==> Level(q, p)[i].stamp < Level(q, p)[j].stamp
  {
    if q != [] {
      SortedTail(ask, q);
      var t := Level(q[1..], p);
      LevelIsFifo(ask, q[1..], p);
      forall i | 0 <= i < |t| && q[0].price == p ensures q[0].stamp < t[i].stamp {
        LevelMembers(q[1..], p, t[i]);
      }
    }
  }

  lemma {:induction false} LevelIsSorted(ask: bool, q: seq<Order>, p: int)
    requires Sorted(ask, q)
    ensures Sorted(ask, Level(q, p))
  {
    var lv := Level(q, p);
    LevelIsFifo(ask, q, p);
    forall i, j | 0 <= i < j < |lv| ensures Before(ask, lv[i], lv[j]) && lv[i].stamp != lv[j].stamp {
      LevelMembers(q, p, lv[i]);
      LevelMembers(q, p, lv[j]);
    }
  }

  lemma {:induction false} VolumeOfConcat(q: seq<Order>, r: seq<Order>, stamp: nat)
    ensures VolumeOf(q + r, stamp) ==
      if exists i :: 0 <= i < |q| && q[i].stamp == stamp then VolumeOf(q, stamp) else VolumeOf(r, stamp)
  {
    if q == [] {
      assert q + r == r;
    } else {
      VolumeOfConcat(q[1..], r, stamp);
      assert (q + r)[1..] == q[1..] + r;
      assert q == [q[0]] + q[1..];
    }
  }

  lemma {:induction false} StampIsAt(ask: bool, q: seq<Order>, i: nat, size: int)
    requires Sorted(ask, q) && i < |q|
    ensures VolumeOf(q, q[i].stamp) == q[i].volume
    ensures Remove(q, q[i].stamp) == q[..i] + q[i + 1..]
    ensures Resize(q, q[i].stamp, size) == q[i := q[i].(volume := size)]
  {
    var k := StampShape(q, q[i].stamp);
    ResizedAt(q, q[i].stamp, size, k);
    assert k == i;
  }

  /** Removing or resizing the order at position `k` of a level, seen from all levels. */
  lemma {:induction false} StampInLevel(ask: bool, q: seq<Order>, p: int, k: nat, size: int)
    requires Sorted(ask, q) && k < |Level(q, p)|
    ensures var lv := Level(q, p); var s := lv[k].stamp;
      && Level(Remove(q, s), p) == lv[..k] + lv[k + 1..]
      && Level(Resize(q, s, size), p) == lv[k := lv[k].(volume := size)]
      && forall p' :: p' != p ==> Level(Remove(q, s), p') == Level(q, p') == Level(Resize(q, s, size), p')
  {
    var lv := Level(q, p);
    var s := lv[k].stamp;
    LevelIsSorted(ask, q, p);
    StampIsAt(ask, lv, k, size);
    LevelOfStamp(ask, q, s, size, p);
    LevelMembers(q, p, lv[k]);
    forall p' | p' != p ensures Level(Remove(q, s), p') == Level(q, p') == Level(Resize(q, s, size), p') {
      LevelOfStamp(ask, q, s, size, p');
      var other := Level(q, p');
      forall i | 0 <= i < |other| ensures other[i].stamp != s {
        LevelMembers(q, p', other[i]);
      }
      RemoveAbsent(other, s, size);
    }
  }

  /** A sorted queue is determined by its levels: the flat queue says no more than the map from
      prices to levels does. */
  lemma {:induction false} LevelsDetermineQueue(ask: bool, q: seq<Order>, r: seq<Order>)
    requires Sorted(ask, q) && Sorted(ask, r)
    requires forall p :: Level(q, p) == Level(r, p)
    ensures q == r
  {
    if q == [] {
      if r != [] { LevelEmpty(r, r[0].price); LevelEmpty(q, r[0].price); }
    } else if r == [] {
      LevelEmpty(q, q[0].price); LevelEmpty(r, q[0].price);
    } else {
      HeadIsBest(ask, q, r);
      HeadIsBest(ask, r, q);
      var p0 := q[0].price;
      assert r[0].price == p0;
      assert Level(q, p0)[0] == q[0] && Level(r, p0)[0] == r[0];
      SortedTail(ask, q);
      SortedTail(ask, r);
      forall p ensures Level(q[1..], p) == Level(r[1..], p) {
        assert Level(q, p) == Level(r, p);
        if p0 == p {
          assert Level(q, p) == [q[0]] + Level(q[1..], p) && Level(r, p) == [r[0]] + Level(r[1..], p);
          assert Level(q[1..], p) == Level(q, p)[1..];
          assert Level(r[1..], p) == Level(r, p)[1..];
        }
      }
      LevelsDetermineQueue(ask, q[1..], r[1..]);
      assert q == [q[0]] + q[1..] && r == [r[0]] + r[1..];
    }
  }

  lemma {:induction false} HeadIsBest(ask: bool, q: seq<Order>, r: seq<Order>)
    requires Sorted(ask, q) && q != [] && r != []
    requires forall p :: Level(q, p) == Level(r, p)
    ensures q[0].price == r[0].price || Better(ask, q[0].price, r[0].price)
  {
    LevelEmpty(r, r[0].price);
    LevelEmpty(q, r[0].price);
    var i :| 0 <= i < |q| && q[i].price == r[0].price;
    if i > 0 { assert Before(ask, q[0], q[i]); }
  }

  lemma {:induction false} SumConcat(q: seq<Order>, r: seq<Order>)
    ensures SumVolume(q + r) == SumVolume(q) + SumVolume(r)
  {
    if q == [] {
      assert q + r == r;
    } else {
      SumConcat(q[1..], r);
      assert (q + r)[1..] == q[1..] + r;
    }
  }

  lemma {:induction false} SumInsert(ask: bool, q: seq<Order>, o: Order)
    ensures SumVolume(Insert(ask, q, o)) == SumVolume(q) + o.volume
  {
    if q == [] || Better(ask, o.price, q[0].price) {
      assert ([o] + q)[1..] == q;
    } else {
      SumInsert(ask, q[1..], o);
      assert Insert(ask, q, o)[1..] == Insert(ask, q[1..], o);
    }
  }

  lemma {:induction false} SumOfStamp(q: seq<Order>, stamp: nat, size: int)
    ensures SumVolume(Remove(q, stamp)) == SumVolume(q) - VolumeOf(q, stamp)
    ensures (exists i :: 0 <= i < |q| && q[i].stamp == stamp) ==>
      SumVolume(Resize(q, stamp, size)) == SumVolume(q) - VolumeOf(q, stamp) + size
    ensures |Resize(q, stamp, size)| == |q|
    ensures |Remove(q, stamp)| == if exists i :: 0 <= i < |q| && q[i].stamp == stamp then |q| - 1 else |q|
  {
    if q == [] {
    } else if q[0].stamp == stamp {
      assert Resize(q, stamp, size)[1..] == q[1..];
    } else {
      SumOfStamp(q[1..], stamp, size);
      assert Remove(q, stamp)[1..] == Remove(q[1..], stamp);
      assert Resize(q, stamp, size)[1..] == Resize(q[1..], stamp, size);
      if i :| 0 <= i < |q| && q[i].stamp == stamp {
        assert q[1..][i - 1].stamp == stamp;
      }
    }
  }
}
