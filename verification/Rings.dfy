/** Slot numbers: what `ticket & mask` does when mask is size - 1. */
module Rings {

  /** Bitwise and of two non-negative numbers. */
  function BitAnd(x: nat, y: nat): (r: nat)
    ensures r <= y
  {
    if x == 0 || y == 0 then 0
    else (if x % 2 == 1 && y % 2 == 1 then 1 else 0) + 2 * BitAnd(x / 2, y / 2)
  }

  predicate PowerOfTwo(n: nat) {
    n == 1 || (n > 1 && n % 2 == 0 && PowerOfTwo(n / 2))
  }

  predicate AllOnes(m: nat) {
    m == 0 || (m % 2 == 1 && AllOnes(m / 2))
  }

  lemma {:induction false} MaskIsAllOnes(n: nat)
    requires n > 0
    ensures PowerOfTwo(n) <==> AllOnes(n - 1)
  {
    if n > 1 && n % 2 == 0 {
      MaskIsAllOnes(n / 2);
      assert (n - 1) / 2 == n / 2 - 1;
    }
  }

  lemma {:induction false} AndWithOnes(t: nat, m: nat)
    requires AllOnes(m)
    ensures BitAnd(t, m) == t % (m + 1)
  {
    if m > 0 {
      var h, b, n := t / 2, t % 2, m / 2 + 1;
      AndWithOnes(h, m / 2);
      DoubleMod(h, b, n);
      assert m + 1 == 2 * n && t == 2 * h + b;
      if t > 0 { assert BitAnd(t, m) == b + 2 * BitAnd(h, m / 2); }
    }
  }

  lemma DoubleMod(h: nat, b: nat, n: nat)
    requires n > 0 && b < 2
    ensures (2 * h + b) % (2 * n) == 2 * (h % n) + b
  {
    var q, r := h / n, h % n;
    assert h == q * n + r;
    ModIs(2 * h + b, 2 * n, q, 2 * r + b) by {
      assert q * (2 * n) == 2 * (q * n);
    }
  }

  lemma MultipleIsFar(d: int, n: nat)
    ensures d > 0 ==> d * n >= n
    ensures d < 0 ==> d * n + n <= 0
  {
  }

  lemma ModIs(x: nat, n: nat, q: nat, r: nat)
    requires n > 0 && r < n && x == q * n + r
    ensures x % n == r
  {
    var d := x / n - q;
    assert x % n == x - (x / n) * n;
    assert (x / n) * n == q * n + d * n by { assert x / n == q + d; }
    MultipleIsFar(d, n);
  }

  /** A mask with a hole sends some positive number not above it to slot 0. */
  lemma {:induction false} HoleInMask(m: nat) returns (t: nat)
    requires !AllOnes(m)
    ensures 0 < t <= m && BitAnd(t, m) == 0
  {
    if m % 2 == 0 {
      t := 1;
      assert BitAnd(0, m / 2) == 0;
    } else {
      var h := HoleInMask(m / 2);
      t := 2 * h;
      assert t / 2 == h && t % 2 == 0;
    }
  }

  function Slot(ticket: nat, size: nat): (slot: nat)
    requires size > 0
    ensures slot < size
  {
    BitAnd(ticket, size - 1)
  }

  /** No two of any `size` consecutive tickets share a slot. */
  ghost predicate WindowsAreExclusive(size: nat)
    requires size > 0
  {
    forall t, u :: 0 <= t < u < t + size ==> Slot(t, size) != Slot(u, size)
  }

  lemma {:induction false} SlotIsMod(ticket: nat, size: nat)
    requires PowerOfTwo(size)
    ensures Slot(ticket, size) == ticket % size < size
  {
    MaskIsAllOnes(size);
    AndWithOnes(ticket, size - 1);
  }

  lemma ModInjective(t: nat, u: nat, n: nat)
    requires t <= u < t + n
    ensures t % n == u % n ==> t == u
  {
    if t % n == u % n {
      var d := u / n - t / n;
      assert u - t == d * n;
      MultipleIsFar(d, n);
    }
  }

  lemma {:induction false} SlotsApart(t: nat, u: nat, size: nat)
    requires PowerOfTwo(size) && t < u + size && u < t + size
    ensures Slot(t, size) == Slot(u, size) ==> t == u
  {
    SlotIsMod(t, size);
    SlotIsMod(u, size);
    if t <= u { ModInjective(t, u, size); } else { ModInjective(u, t, size); }
  }

  lemma ModWraps(t: nat, n: nat)
    requires n > 0
    ensures (t + n) % n == t % n
  {
    var q, r := t / n, t % n;
    assert t == q * n + r;
    assert (q + 1) * n == q * n + n;
    ModIs(t + n, n, q + 1, r);
  }

  lemma {:induction false} SlotWraps(t: nat, size: nat)
    requires PowerOfTwo(size)
    ensures Slot(t + size, size) == Slot(t, size)
  {
    SlotIsMod(t, size);
    SlotIsMod(t + size, size);
    ModWraps(t, size);
  }

  /** Masking gives a window of tickets slots of their own exactly when the size is a power of two. */
  lemma {:induction false} MaskingNeedsPowerOfTwo(size: nat)
    requires size > 0
    ensures WindowsAreExclusive(size) <==> PowerOfTwo(size)
  {
    if PowerOfTwo(size) {
      forall t, u | 0 <= t < u < t + size ensures Slot(t, size) != Slot(u, size) {
        SlotIsMod(t, size);
        SlotIsMod(u, size);
        ModInjective(t, u, size);
      }
    } else {
      MaskIsAllOnes(size);
      var t := HoleInMask(size - 1);
      assert Slot(0, size) == 0 == Slot(t, size);
    }
  }
}
