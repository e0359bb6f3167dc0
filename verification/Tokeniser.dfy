/** The price tokeniser: an offset from the best price, in ticks, becomes one of 61 buckets - exact near the
    best price, logarithmic further away. */
module Tokeniser {

  const TICK := 100
  const PRICE_BASE := 9
  const PRICE_LINEAR_RANGE := 20
  const PRICE_LOG_RANGE := 10
  const PRICE_LOG_FAR_EDGE: seq<nat> := [21, 30, 45, 70, 100, 150, 220, 320, 480, 700]

  /** The far edges and a top edge for the last bucket. */
  const EDGES: seq<nat> := PRICE_LOG_FAR_EDGE + [1400]

  function Clip(x: int, low: int, high: int): int {
    if x < low then low else if x > high then high else x
  }

  /** How many of the increasing `edges` are not above `x`: searchsorted with side = 'right'. */
  function CountUpTo(edges: seq<nat>, x: int): (n: nat)
    ensures n <= |edges|
  {
    if edges == [] || x < edges[0] then 0 else 1 + CountUpTo(edges[1..], x)
  }

  function Abs(x: int): nat {
    if x < 0 then -x else x
  }

  function LogBucket(mag: nat): (b: nat)
    ensures b < PRICE_LOG_RANGE
  {
    Clip(CountUpTo(PRICE_LOG_FAR_EDGE, mag) - 1, 0, PRICE_LOG_RANGE - 1)
  }

  function TokenOfOffset(offset: int): int {
    var mag := Abs(offset);
    if mag == 0 then PRICE_BASE + 30
    else if mag <= PRICE_LINEAR_RANGE then PRICE_BASE + offset + 30
    else if offset < 0 then PRICE_BASE + 9 - LogBucket(mag)
    else PRICE_BASE + 51 + LogBucket(mag)
  }

  /** Offset of a price from the best one, counted in whole ticks rounded down, and signed by direction. */
  function Offset(price: int, best: int, direction: int): int {
    ((best - price) / TICK) * direction
  }

  function PriceToToken(price: int, best: int, direction: int): int {
    TokenOfOffset(Offset(price, best, direction))
  }

  predicate IsFloorSqrt(n: nat, r: nat) {
    r * r <= n < (r + 1) * (r + 1)
  }

  /** There is one square root, rounded down, and only one. */
  lemma {:induction false} SqrtIsUnique(n: nat)
    ensures exists r: nat :: IsFloorSqrt(n, r)
    ensures forall r: nat, s: nat :: IsFloorSqrt(n, r) && IsFloorSqrt(n, s) ==> r == s
  {
    if n == 0 {
      assert IsFloorSqrt(0, 0);
    } else {
      SqrtIsUnique(n - 1);
      var r: nat :| IsFloorSqrt(n - 1, r);
      assert if n < (r + 1) * (r + 1) then IsFloorSqrt(n, r) else IsFloorSqrt(n, r + 1);
    }
    forall r: nat, s: nat | IsFloorSqrt(n, r) && IsFloorSqrt(n, s) ensures r == s {
      NotBelow(n, r, s);
      NotBelow(n, s, r);
    }
  }

  lemma NotBelow(n: nat, r: nat, s: nat)
    requires IsFloorSqrt(n, r) && IsFloorSqrt(n, s)
    ensures s <= r
  {
    if r + 1 <= s { ProductGrows(r + 1, r + 1, s, s); }
  }

  /** The square root, rounded down. */
  function FloorSqrt(n: nat): (r: nat)
    ensures IsFloorSqrt(n, r)
  {
    SqrtIsUnique(n);
    var r: nat :| IsFloorSqrt(n, r); r
  }

  /** The middle of a far bucket. */
  function FarMagnitude(bucket: int): nat {
    var i := Clip(bucket, 0, PRICE_LOG_RANGE - 1);
    FloorSqrt(EDGES[i] * EDGES[i + 1])
  }

  function OffsetOfToken(token: int): int {
    var bucket := token - PRICE_BASE;
    if 10 <= bucket <= 50 then bucket - 30
    else if bucket <= 9 then -(FarMagnitude(9 - bucket) as int)
    else FarMagnitude(bucket - 51)
  }

  function TokenToPrice(token: int, best: int, direction: int): int {
    best - direction * OffsetOfToken(token) * TICK
  }

  // ---------- Properties ----------

  ghost predicate IsDirection(d: int) {
    d == 1 || d == -1
  }

  lemma ProductGrows(x: nat, y: nat, u: nat, v: nat)
    requires x <= u && y <= v
    ensures x * y <= u * v
  {
    assert x * y <= u * y;
    assert u * y <= u * v;
  }

  /** The geometric mean of two numbers, rounded down, is not below the smaller and below the larger. */
  lemma SqrtBetween(a: nat, b: nat, r: nat)
    requires a < b && IsFloorSqrt(a * b, r)
    ensures a <= r < b
  {
    ProductGrows(a, b, b - 1, b);
    assert (b - 1) * b == b * b - b;
    if r < a { ProductGrows(r + 1, r + 1, a, b); }
    if r >= b { ProductGrows(b, b, r, r); }
  }

  ghost predicate Increasing(edges: seq<nat>) {
    forall i, j :: 0 <= i < j < |edges| ==> edges[i] < edges[j]
  }

  lemma {:induction false} CountIs(edges: seq<nat>, x: int)
    requires Increasing(edges)
    ensures var n := CountUpTo(edges, x);
      (forall i :: 0 <= i < n ==> edges[i] <= x) && (forall i :: n <= i < |edges| ==> x < edges[i])
  {
    if edges != [] && edges[0] <= x {
      CountIs(edges[1..], x);
      assert edges == [edges[0]] + edges[1..];
    }
  }

  /** A magnitude belongs to the bucket between whose edges it lies; the last bucket is open above. */
  lemma BucketIs(mag: nat, b: nat)
    requires mag > PRICE_LINEAR_RANGE && b < PRICE_LOG_RANGE
    ensures LogBucket(mag) == b <==> EDGES[b] <= mag && (b < PRICE_LOG_RANGE - 1 ==> mag < EDGES[b + 1])
  {
    CountIs(PRICE_LOG_FAR_EDGE, mag);
  }

  /** Decoding a far bucket gives a magnitude of that bucket. */
  lemma FarStaysInBucket(b: nat)
    requires b < PRICE_LOG_RANGE
    ensures EDGES[b] <= FarMagnitude(b) < EDGES[b + 1] && LogBucket(FarMagnitude(b)) == b
  {
    SqrtBetween(EDGES[b], EDGES[b + 1], FloorSqrt(EDGES[b] * EDGES[b + 1]));
    BucketIs(FarMagnitude(b), b);
  }

  lemma TokenInRange(offset: int)
    ensures PRICE_BASE <= TokenOfOffset(offset) <= PRICE_BASE + 60
  {
  }

  /** Decoding a token gives an offset that encodes to it, for the tokens there are; and no others. */
  lemma OffsetRoundTrip(token: int)
    ensures TokenOfOffset(OffsetOfToken(token)) == token <==> PRICE_BASE <= token <= PRICE_BASE + 60
  {
    var bucket := token - PRICE_BASE;
    TokenInRange(OffsetOfToken(token));
    if 0 <= bucket <= 9 { FarStaysInBucket(9 - bucket); }
    if 51 <= bucket <= 60 { FarStaysInBucket(bucket - 51); }
  }

  lemma OffsetOfDecoded(offset: int, best: int, direction: int)
    requires IsDirection(direction)
    ensures Offset(best - direction * offset * TICK, best, direction) == offset
  {
    assert best - (best - direction * offset * TICK) == direction * offset * TICK;
  }

  /** A token survives decoding and encoding exactly when it is a price token. */
  lemma TokenRoundTrip(token: int, best: int, direction: int)
    requires IsDirection(direction)
    ensures PriceToToken(TokenToPrice(token, best, direction), best, direction) == token
      <==> PRICE_BASE <= token <= PRICE_BASE + 60
  {
    OffsetOfDecoded(OffsetOfToken(token), best, direction);
    OffsetRoundTrip(token);
  }

  /** Encoding always gives a price token, so quantising a second time changes nothing. */
  lemma QuantisedOnce(price: int, best: int, direction: int)
    requires IsDirection(direction)
    ensures var token := PriceToToken(price, best, direction);
      && PRICE_BASE <= token <= PRICE_BASE + 60
      && PriceToToken(TokenToPrice(token, best, direction), best, direction) == token
  {
    TokenInRange(Offset(price, best, direction));
    TokenRoundTrip(PriceToToken(price, best, direction), best, direction);
  }

  /** Near the best price nothing is lost but the part of a tick: decoding gives the price rounded up to
      a whole number of ticks from the best. */
  lemma NearIsWithinATick(price: int, best: int, direction: int)
    requires IsDirection(direction) && Abs(Offset(price, best, direction)) <= PRICE_LINEAR_RANGE
    ensures 0 <= TokenToPrice(PriceToToken(price, best, direction), best, direction) - price < TICK
  {
    var f := (best - price) / TICK;
    assert direction * (f * direction) == f;
  }

  /** Further away the decoded offset lies in the same bucket, on the same side. */
  lemma FarIsWithinItsBucket(price: int, best: int, direction: int)
    requires IsDirection(direction) && Abs(Offset(price, best, direction)) > PRICE_LINEAR_RANGE
    ensures var offset := Offset(price, best, direction);
      var decoded := Offset(TokenToPrice(PriceToToken(price, best, direction), best, direction), best, direction);
      && (decoded < 0 <==> offset < 0) && Abs(decoded) > PRICE_LINEAR_RANGE
      && LogBucket(Abs(decoded)) == LogBucket(Abs(offset))
  {
    var offset := Offset(price, best, direction);
    var token := TokenOfOffset(offset);
    FarStaysInBucket(LogBucket(Abs(offset)));
    OffsetOfDecoded(OffsetOfToken(token), best, direction);
  }

  /** A larger offset never has a smaller token. */
  lemma TokensAreMonotone(offset: int, larger: int)
    requires offset <= larger
    ensures TokenOfOffset(offset) <= TokenOfOffset(larger)
  {
    BucketsAreMonotone(Abs(offset), Abs(larger));
    BucketsAreMonotone(Abs(larger), Abs(offset));
  }

  lemma BucketsAreMonotone(mag: nat, larger: nat)
    ensures mag <= larger ==> LogBucket(mag) <= LogBucket(larger)
  {
    if mag <= larger { CountsAreMonotone(PRICE_LOG_FAR_EDGE, mag, larger); }
  }

  lemma {:induction false} CountsAreMonotone(edges: seq<nat>, x: int, y: int)
    requires x <= y
    ensures CountUpTo(edges, x) <= CountUpTo(edges, y)
  {
    if edges != [] && edges[0] <= x { CountsAreMonotone(edges[1..], x, y); }
  }

  // ---------- The tokens, number by number ----------

  /** Where the ten far buckets begin, and the middles they decode to, in ticks. */
  const FROM: seq<int> := [21, 30, 45, 70, 100, 150, 220, 320, 480, 700]
  const MIDDLE: seq<int> := [25, 36, 56, 83, 122, 181, 265, 391, 579, 989]

  /** An offset counts the whole ticks: it is the one whose price is less than a tick above. */
  lemma OffsetIff(price: int, best: int, direction: int, offset: int)
    requires IsDirection(direction)
    ensures Offset(price, best, direction) == offset <==> 0 <= best - direction * offset * 100 - price < 100
  {
    var f := (best - price) / TICK;
    assert direction * (f * direction) == f;
    if 0 <= best - direction * offset * 100 - price < 100 {
      assert f == direction * offset;
      assert f * direction == offset;
    }
  }

  /** Tokens 19 to 59 are the offsets from -20 to 20 themselves. */
  lemma NearTokens(offset: int, k: int)
    requires -20 <= k <= 20
    ensures TokenOfOffset(offset) == 39 + k <==> offset == k
    ensures OffsetOfToken(39 + k) == k
  {
  }

  /** Tokens 60 to 69 are the far buckets on the passive side, 18 down to 9 those on the aggressive one. */
  lemma FarTokens(offset: int, b: nat)
    requires b < 10
    ensures TokenOfOffset(offset) == 60 + b <==> FROM[b] <= offset && (b < 9 ==> offset < FROM[b + 1])
    ensures TokenOfOffset(offset) == 18 - b <==> FROM[b] <= -offset && (b < 9 ==> -offset < FROM[b + 1])
  {
    if Abs(offset) > PRICE_LINEAR_RANGE { BucketIs(Abs(offset), b); }
  }

  /** A far token decodes to the geometric mean of its bucket's edges, rounded down, on its own side. */
  lemma FarTokenIsMean(b: nat)
    requires b < PRICE_LOG_RANGE
    ensures OffsetOfToken(60 + b) > 0 && OffsetOfToken(18 - b) == -OffsetOfToken(60 + b)
    ensures IsFloorSqrt(EDGES[b] * EDGES[b + 1], OffsetOfToken(60 + b))
  {
    FarStaysInBucket(b);
  }

  lemma MiddlesAreMeans(b: nat)
    requires b < 10
    ensures MIDDLE[b] >= 0 && IsFloorSqrt(EDGES[b] * EDGES[b + 1], MIDDLE[b])
  {
  }

  /** Every price token, and the price it decodes to. */
  lemma DecodedPrices(best: int, direction: int)
    ensures forall k :: -20 <= k <= 20 ==> TokenToPrice(39 + k, best, direction) == best - direction * k * 100
    ensures forall b :: 0 <= b < 10 ==> TokenToPrice(60 + b, best, direction) == best - direction * MIDDLE[b] * 100
    ensures forall b :: 0 <= b < 10 ==> TokenToPrice(18 - b, best, direction) == best + direction * MIDDLE[b] * 100
  {
    forall b | 0 <= b < 10
      ensures TokenToPrice(60 + b, best, direction) == best - direction * MIDDLE[b] * 100
      ensures TokenToPrice(18 - b, best, direction) == best + direction * MIDDLE[b] * 100
    {
      FarTokenIsMean(b);
      MiddlesAreMeans(b);
      SqrtIsUnique(EDGES[b] * EDGES[b + 1]);
      assert OffsetOfToken(60 + b) == MIDDLE[b];
      assert direction * -MIDDLE[b] * 100 == -(direction * MIDDLE[b] * 100);
    }
  }
}
