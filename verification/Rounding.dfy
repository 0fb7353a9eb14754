/**
 The two roundings the trading code uses: Python's `round(x, k)` (half to even on
 the decimal grid) and the snapping of option prices onto the 0.05 rupee tick grid.
 All arithmetic is exact.
 */
module Rounding {
  import opened Common

  const TICK: real := 0.05

  function Floor(x: real): int { x.Floor }

  function Ceil(x: real): int { -((-x).Floor) }

  /** Round half to even on the integers. */
  function HalfEven(x: real): (n: int)
    ensures x - 0.5 <= n as real <= x + 0.5
  {
    var f := x.Floor;
    var d := x - f as real;
    if d < 0.5 then f
    else if d > 0.5 then f + 1
    else if f % 2 == 0 then f
    else f + 1
  }

  /** Python's `round(x, k)` with `scale == 10^k`. */
  function Round(x: real, scale: int): real
    requires scale > 0
  {
    HalfEven(x * scale as real) as real / scale as real
  }

  lemma RoundError6(x: real)
    ensures Abs(Round(x, 1_000_000) - x) <= 0.0000005
  {}

  lemma RoundError4(x: real)
    ensures Abs(Round(x, 10_000) - x) <= 0.00005
  {}

  /** Halfway between two integers the even one is taken. */
  lemma HalfEvenTies(x: real)
    ensures x - HalfEven(x) as real == 0.5 || HalfEven(x) as real - x == 0.5 ==> HalfEven(x) % 2 == 0
  {}

  /** A value already on the grid stays, and rounded values are on the grid and in order. */
  lemma RoundIsGrid(n: int, x: real, y: real, scale: int)
    requires scale > 0
    ensures Round(n as real / scale as real, scale) == n as real / scale as real
    ensures (Round(x, scale) * scale as real).Floor as real == Round(x, scale) * scale as real
    ensures x <= y ==> Round(x, scale) <= Round(y, scale)
  {
    GridStays(n, n as real / scale as real, scale);
    WholeFloor(HalfEven(x * scale as real), Round(x, scale) * scale as real);
    if x <= y {
      assert x * scale as real <= y * scale as real;
      HalfEvenMonotone(x * scale as real, y * scale as real);
      assert (HalfEven(y * scale as real) - HalfEven(x * scale as real)) as real / scale as real >= 0.0;
    }
  }

  lemma GridStays(n: int, x: real, scale: int)
    requires scale > 0 && x == n as real / scale as real
    ensures Round(x, scale) == x
  {
    RoundAt(x, scale, n as real);
    WholeFloor(n, n as real);
    hide Round, HalfEven;
  }

  lemma RoundAt(x: real, scale: int, y: real)
    requires scale > 0 && x * scale as real == y
    ensures Round(x, scale) == HalfEven(y) as real / scale as real
  {}

  lemma HalfEvenMonotone(x: real, y: real)
    requires x <= y
    ensures HalfEven(x) <= HalfEven(y)
  {}

  /** True when `x` is a whole number of ticks. */
  predicate OnTick(x: real) { x / TICK == (x / TICK).Floor as real }

  /** The highest tick at or below `x`, as `round(floor(x / tick) * tick, 2)`. */
  function FloorTick(x: real): (r: real)
    ensures OnTick(r) && x - TICK < r <= x
    ensures x >= 0.0 ==> r >= 0.0
  {
    TicksAreCents(Floor(x / TICK));
    Round(Floor(x / TICK) as real * TICK, 100)
  }

  /** The lowest tick at or above `x`, as `round(ceil(x / tick) * tick, 2)`. */
  function CeilTick(x: real): (r: real)
    ensures OnTick(r) && x <= r < x + TICK
  {
    TicksAreCents(Ceil(x / TICK));
    Round(Ceil(x / TICK) as real * TICK, 100)
  }

  /** A whole number of ticks is already on the two-decimal grid. */
  lemma TicksAreCents(n: int)
    ensures Round(n as real * TICK, 100) == n as real * TICK
    ensures OnTick(n as real * TICK)
  {
    var x := n as real * TICK;
    WholeFloor(5 * n, x * 100.0);
    WholeFloor(n, x / TICK);
  }

  lemma WholeFloor(n: int, x: real)
    requires x == n as real
    ensures x.Floor == n && HalfEven(x) == n
  {}

  lemma CeilTickMonotone(x: real, y: real)
    requires x <= y
    ensures CeilTick(x) <= CeilTick(y)
  {
    TicksAreCents(Ceil(x / TICK));
    TicksAreCents(Ceil(y / TICK));
    CeilMonotone(x / TICK, y / TICK);
    hide Round, Ceil;
  }

  lemma CeilMonotone(x: real, y: real)
    requires x <= y
    ensures Ceil(x) <= Ceil(y)
  {}

  /** No tick at or above `x` lies below `CeilTick(x)`. */
  lemma CeilTickLeast(x: real, t: real)
    requires OnTick(t)
    ensures CeilTick(x) <= t <==> x <= t
  {
    if x <= t {
      CeilTickMonotone(x, t);
      var n := Floor(t / TICK);
      assert t == n as real * TICK;
      WholeFloor(-n, -(t / TICK));
      TicksAreCents(n);
    }
    hide Round;
  }

  lemma FloorTickMonotone(x: real, y: real)
    requires x <= y
    ensures FloorTick(x) <= FloorTick(y)
  {
    TicksAreCents(Floor(x / TICK));
    TicksAreCents(Floor(y / TICK));
    assert Floor(x / TICK) <= Floor(y / TICK);
    hide Round;
  }

  /** Half to even takes minus one half to zero, so amounts down to minus half a unit do not round below it. */
  lemma RoundNonNegative(x: real)
    ensures Round(x, 10_000) >= 0.0 <==> x >= -0.00005
  {
    HalfEvenNonNegative(x * 10_000 as real);
    hide HalfEven;
  }

  lemma HalfEvenNonNegative(x: real)
    ensures HalfEven(x) >= 0 <==> x >= -0.5
  {}
}
