/** `_align_price_to_tick` of src/exchange/upbit.py: rounding a price up to the Upbit KRW price grid. */
module TickAlign {
  import opened Reals

  function Tick(price: real): (t: real)
    ensures t > 0.0
  {
    if price < 10.0 then 0.01
    else if price < 100.0 then 0.1
    else if price < 1000.0 then 1.0
    else if price < 5000.0 then 5.0
    else if price < 10000.0 then 10.0
    else if price < 50000.0 then 50.0
    else if price < 100000.0 then 100.0
    else if price < 500000.0 then 500.0
    else 1000.0
  }

  /** `math.ceil` */
  function Ceil(x: real): (c: int)
    ensures c as real - 1.0 < x <= c as real
  {
    -((-x).Floor)
  }

  /** `int(x)`: towards zero. */
  function Truncate(x: real): int {
    if x >= 0.0 then x.Floor else Ceil(x)
  }

  /** `round(x, 2)`: to the nearest hundredth, halves to the even one. */
  function RoundCents(x: real): real {
    var low := (x * 100.0).Floor;
    var above := x * 100.0 - low as real;
    var cents := if above < 0.5 || (above == 0.5 && low % 2 == 0) then low else low + 1;
    cents as real / 100.0
  }

  function Aligned(price: real): real {
    Ceil(price / Tick(price)) as real * Tick(price)
  }

  /** `_align_price_to_tick` */
  function Align(price: real): real {
    if Tick(price) >= 1.0 then Truncate(Aligned(price)) as real else RoundCents(Aligned(price))
  }

  ghost predicate Multiple(x: real, tick: real) {
    exists k: int :: IsTimes(x, k, tick)
  }

  predicate IsTimes(x: real, k: int, tick: real) {
    x == k as real * tick
  }

  /** A price on the grid: a multiple of the tick of its own band. */
  ghost predicate OnGrid(price: real) {
    Multiple(price, Tick(price))
  }

  // ---------------------------------------------------------------- the final conversions change nothing

  lemma CentsExact(x: real, k: int)
    requires x * 100.0 == k as real
    ensures RoundCents(x) == x
  {
    assert (x * 100.0).Floor == k;
  }

  lemma WholeExact(x: real, k: int)
    requires x == k as real
    ensures Truncate(x) as real == x
  {
    assert x.Floor == k;
    assert (-x) == (-k) as real;
    assert (-x).Floor == -k;
  }

  lemma AlignIsAligned(price: real)
    ensures Align(price) == Aligned(price)
  {
    var k := Ceil(price / Tick(price));
    hide Ceil, RoundCents, Truncate;
    if price < 10.0 {
      CentsExact(Aligned(price), k);
    } else if price < 100.0 {
      CentsExact(Aligned(price), 10 * k);
    } else {
      WholeAligned(price);
    }
  }

  lemma WholeAligned(price: real)
    requires price >= 100.0
    ensures Truncate(Aligned(price)) as real == Aligned(price)
  {
    var k := Ceil(price / Tick(price));
    var tick :=
      if price < 1000.0 then 1 else if price < 5000.0 then 5 else if price < 10000.0 then 10
      else if price < 50000.0 then 50 else if price < 100000.0 then 100 else if price < 500000.0 then 500 else 1000;
    assert tick as real == Tick(price);
    hide Ceil, Truncate;
    ProductExact(k, tick);
    WholeExact(Aligned(price), k * tick);
  }

  lemma ProductExact(a: int, b: int)
    ensures (a * b) as real == a as real * b as real
  {
  }

  // ---------------------------------------------------------------- the grid

  /** Never below the price, never a whole tick above it, and a multiple of the input's tick. */
  lemma AlignBounds(price: real)
    ensures price <= Align(price) < price + Tick(price)
    ensures Multiple(Align(price), Tick(price))
  {
    hide Tick, Align, Ceil;
    AlignIsAligned(price);
    CeilBounds(price, Tick(price));
    assert IsTimes(Align(price), Ceil(price / Tick(price)), Tick(price));
  }

  lemma CeilBounds(price: real, tick: real)
    requires tick > 0.0
    ensures price <= Ceil(price / tick) as real * tick < price + tick
  {
    hide Ceil;
    var c := Ceil(price / tick) as real;
    DivMul(price, tick);
    MulOrder(price / tick, c, tick);
    MulStrict(c - 1.0, price / tick, tick);
    Distribute(c, 1.0, tick);
    assert c - 1.0 < price / tick <= c;
    assert (c - 1.0) * tick < price;
    assert (c - 1.0) * tick == c * tick - tick;
    assert price <= c * tick;
  }

  lemma MulStrict(a: real, b: real, c: real)
    requires a < b && c > 0.0
    ensures a * c < b * c
  {
    MulPositive(b - a, c);
    assert b * c - a * c == (b - a) * c;
  }

  /** Rounding up within a band cannot pass a multiple of the band's tick. */
  lemma CeilBelow(price: real, tick: real, k: int)
    requires tick > 0.0 && price <= k as real * tick
    ensures Ceil(price / tick) as real * tick <= k as real * tick
  {
    var c := Ceil(price / tick);
    hide Ceil;
    DivOrder(price, k as real * tick, tick);
    DivUnique(k as real * tick, tick, k as real);
    assert price / tick <= k as real;
    assert c <= k;
    MulOrder(c as real, k as real, tick);
  }

  /** Rounding up stays inside the band or lands on its upper edge, where the next band's tick divides it. */
  lemma AlignBand(price: real)
    ensures Tick(Align(price)) == Tick(price) || OnGrid(Align(price))
    ensures forall q :: q >= price && Tick(q) != Tick(price) ==> Align(price) <= q
  {
    AlignIsAligned(price);
    AlignBounds(price);
    hide Align, Ceil, Aligned;
    if price < 10.0 {
      Edge(price, 0.01, 1000, 10.0, 100);
    } else if price < 100.0 {
      Edge(price, 0.1, 1000, 100.0, 100);
    } else if price < 1000.0 {
      Edge(price, 1.0, 1000, 1000.0, 200);
    } else if price < 5000.0 {
      Edge(price, 5.0, 1000, 5000.0, 500);
    } else if price < 10000.0 {
      Edge(price, 10.0, 1000, 10000.0, 200);
    } else if price < 50000.0 {
      Edge(price, 50.0, 1000, 50000.0, 500);
    } else if price < 100000.0 {
      Edge(price, 100.0, 1000, 100000.0, 200);
    } else if price < 500000.0 {
      Edge(price, 500.0, 1000, 500000.0, 500);
    }
  }

  lemma Edge(price: real, tick: real, k: int, edge: real, above: int)
    requires tick == Tick(price) && tick > 0.0 && edge == k as real * tick && price < edge
    requires edge == above as real * Tick(edge)
    ensures Aligned(price) <= edge && OnGrid(edge)
  {
    CeilBelow(price, tick, k);
    hide Tick;
    assert IsTimes(edge, above, Tick(edge));
  }

  /** The result is always on the grid, even when rounding up crosses into the next band. */
  lemma AlignOnGrid(price: real)
    ensures OnGrid(Align(price))
  {
    AlignBounds(price);
    AlignBand(price);
  }

  /** A price is left alone exactly when it is on the grid. */
  lemma FixedExactlyOnGrid(price: real)
    ensures Align(price) == price <==> OnGrid(price)
  {
    AlignBounds(price);
    AlignIsAligned(price);
    hide Tick, Align, Ceil;
    if OnGrid(price) {
      var k :| IsTimes(price, k, Tick(price));
      CeilBelow(price, Tick(price), k);
    }
  }

  /** Aligning twice changes nothing. */
  lemma Idempotent(price: real)
    ensures Align(Align(price)) == Align(price)
  {
    AlignOnGrid(price);
    FixedExactlyOnGrid(Align(price));
  }

  lemma MonotoneInBand(low: real, high: real)
    requires low <= high && Tick(low) == Tick(high)
    ensures Align(low) <= Align(high)
  {
    hide Tick, Align, Ceil;
    AlignIsAligned(low);
    AlignIsAligned(high);
    CeilBounds(high, Tick(high));
    CeilBelow(low, Tick(low), Ceil(high / Tick(high)));
  }

  lemma Monotone(low: real, high: real)
    requires low <= high
    ensures Align(low) <= Align(high)
  {
    hide *;
    AlignBounds(high);
    AlignBand(low);
    if Tick(low) == Tick(high) {
      MonotoneInBand(low, high);
    }
  }

  /** The result is the least price on the grid that is not below the input. */
  lemma LeastOnGrid(price: real, other: real)
    requires OnGrid(other) && other >= price
    ensures Align(price) <= other
  {
    FixedExactlyOnGrid(other);
    Monotone(price, other);
  }

  /** The band that starts at `from` and ends before `to` has this tick. */
  ghost predicate Band(from: real, to: real, tick: real) {
    forall price :: from <= price < to ==> Tick(price) == tick
  }

  /** The nine bands of the KRW market. */
  lemma Bands(price: real)
    ensures Band(10.0, 100.0, 0.1) && Band(100.0, 1000.0, 1.0) && Band(1000.0, 5000.0, 5.0) && Band(5000.0, 10000.0, 10.0)
    ensures Band(10000.0, 50000.0, 50.0) && Band(50000.0, 100000.0, 100.0) && Band(100000.0, 500000.0, 500.0)
    ensures price < 10.0 ==> Tick(price) == 0.01
    ensures price >= 500000.0 ==> Tick(price) == 1000.0
  {
  }

  /** From a price of 1 on, aligning moves it by less than 1%. */
  lemma AlignWithinOnePercent(price: real)
    requires price >= 1.0
    ensures price <= Align(price) < 1.01 * price
  {
    hide Align, Aligned;
    AlignBounds(price);
    assert Tick(price) <= 0.01 * price;
  }
}
