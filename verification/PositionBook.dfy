/**
 Average-cost accounting of signed positions, as the book keeps it: one record per
 instrument (average rounded to 6 decimals, realized profit to 4) and one unrounded
 session total, both mirrored to the store after every fill.
 */
module PositionBook {
  import opened Common
  import opened Rounding
  import opened PaperExecution

  datatype Position = Position(qty: int, avg: real, realized: real)

  const FLAT := Position(0, 0.0, 0.0)

  function AbsInt(n: int): int { if n >= 0 then n else -n }

  function Signed(f: Fill): int { if f.side == B then f.qty else -f.qty }

  predicate SameDirection(p: Position, f: Fill) {
    p.qty == 0 || (p.qty > 0 && Signed(f) > 0) || (p.qty < 0 && Signed(f) < 0)
  }

  /** `n` units at price `x`. */
  function Value(n: int, x: real): real { n as real * x }

  /** Profit realized by a fill, fees included. */
  function DeltaRealized(p: Position, f: Fill): real {
    var closing := Min(AbsInt(p.qty), f.qty);
    var gain := if SameDirection(p, f) then 0.0
                else if p.qty > 0 then Value(closing, f.price - p.avg)
                else Value(closing, p.avg - f.price);
    gain - f.fees
  }

  function Min(a: int, b: int): int { if a <= b then a else b }

  function NewQty(p: Position, f: Fill): int {
    if SameDirection(p, f) || f.qty <= AbsInt(p.qty) then p.qty + Signed(f)
    else if f.side == B then f.qty - AbsInt(p.qty)
    else -(f.qty - AbsInt(p.qty))
  }

  /** Average price of `n` units at `a` together with `m` units at `b`. */
  function Blend(a: real, n: int, b: real, m: int): real
    requires n >= 0 && m > 0
  {
    (Value(n, a) + Value(m, b)) / (n + m) as real
  }

  function NewAvg(p: Position, f: Fill): real
    requires f.qty > 0
  {
    if SameDirection(p, f) then Blend(p.avg, AbsInt(p.qty), f.price, f.qty)
    else if f.qty > AbsInt(p.qty) then f.price
    else if NewQty(p, f) != 0 then p.avg
    else 0.0
  }

  /** One fill without the two roundings. */
  function ApplyExact(p: Position, f: Fill): Position
    requires f.qty > 0
  {
    Position(NewQty(p, f), NewAvg(p, f), p.realized + DeltaRealized(p, f))
  }

  /** One fill as the book stores it. */
  function Apply(p: Position, f: Fill): Position
    requires f.qty > 0
  {
    Position(NewQty(p, f), Round(NewAvg(p, f), 1_000_000),
             Round(p.realized + DeltaRealized(p, f), 10_000))
  }

  // ---- conservation for one instrument ----

  type Fills = fs: seq<Fill> | forall i :: 0 <= i < |fs| ==> fs[i].qty > 0

  /** What a fill brings in: a sale's proceeds or minus a purchase's cost, less fees. */
  function CashOf(f: Fill): real { -Value(Signed(f), f.price) - f.fees }

  /** Sales minus purchases minus fees. */
  function Cash(fs: Fills): real {
    if fs == [] then 0.0 else Cash(fs[..|fs| - 1]) + CashOf(fs[|fs| - 1])
  }

  /** Realized profit less the inventory at its average cost: the net cash a position accounts for. */
  function NetCash(p: Position): real { p.realized - Value(p.qty, p.avg) }

  function NetQty(fs: Fills): int {
    if fs == [] then 0 else NetQty(fs[..|fs| - 1]) + Signed(fs[|fs| - 1])
  }

  function Run(fs: Fills): Position {
    if fs == [] then FLAT else Apply(Run(fs[..|fs| - 1]), fs[|fs| - 1])
  }

  function RunExact(p: Position, fs: Fills): Position {
    if fs == [] then p else ApplyExact(RunExact(p, fs[..|fs| - 1]), fs[|fs| - 1])
  }

  /** The most that rounding can have moved the books after these fills. */
  function RoundingSlack(fs: Fills): real {
    if fs == [] then 0.0
    else RoundingSlack(fs[..|fs| - 1]) + StepSlack(NetQty(fs))
  }

  function StepSlack(newQty: int): real { Value(AbsInt(newQty), 0.0000005) + 0.00005 }

  /** `qty` is always the plain signed sum, through adds, partial closes and flips. */
  lemma QtyStep(p: Position, f: Fill)
    requires f.qty > 0
    ensures NewQty(p, f) == p.qty + Signed(f)
  {}

  /** One exact fill changes the accounted cash by exactly the cash that moved. */
  lemma ExactStepConserves(p: Position, f: Fill)
    requires f.qty > 0
    ensures NetCash(ApplyExact(p, f)) == NetCash(p) + CashOf(f)
  {
    hide Value, Blend;
    var closing := Min(AbsInt(p.qty), f.qty);
    if SameDirection(p, f) {
      BlendCost(p.avg, AbsInt(p.qty), f.price, f.qty);
      ValueSign(AbsInt(p.qty), p.avg); ValueSign(f.qty, f.price); ValueSign(AbsInt(NewQty(p, f)), NewAvg(p, f));
    } else {
      ValueSign(closing, f.price); ValueSign(closing, p.avg);
      ValueDiff(closing, f.price, p.avg); ValueDiff(closing, p.avg, f.price);
      ValueSplit(p.qty, Signed(f), f.price); ValueSplit(p.qty, Signed(f), p.avg);
      ValueZero(p.avg); ValueZero(0.0);
    }
  }

  lemma ValueSign(n: int, x: real)
    ensures Value(-n, x) == -Value(n, x)
  {}

  lemma ValueZero(x: real)
    ensures Value(0, x) == 0.0
  {}

  lemma ValueDiff(n: int, x: real, y: real)
    ensures Value(n, x - y) == Value(n, x) - Value(n, y)
  {}

  lemma ValueSplit(n: int, m: int, x: real)
    ensures Value(n + m, x) == Value(n, x) + Value(m, x)
  {}

  /** The stored fill misses the exact one by at most the two roundings. */
  lemma RoundedStepConserves(p: Position, f: Fill)
    requires f.qty > 0
    ensures Abs(NetCash(Apply(p, f)) - NetCash(p) - CashOf(f)) <= StepSlack(p.qty + Signed(f))
  {
    QtyStep(p, f);
    ExactStepConserves(p, f);
    hide NewQty, NewAvg, DeltaRealized, CashOf, NetCash, Round, StepSlack;
    RoundError4(ApplyExact(p, f).realized);
    RoundError6(ApplyExact(p, f).avg);
    RoundingMovesCash(ApplyExact(p, f), Apply(p, f));
  }

  lemma RoundingMovesCash(exact: Position, stored: Position)
    requires exact.qty == stored.qty
    requires Abs(stored.realized - exact.realized) <= 0.00005 && Abs(stored.avg - exact.avg) <= 0.0000005
    ensures Abs(NetCash(stored) - NetCash(exact)) <= StepSlack(exact.qty)
  {
    ScaledError(exact.qty, stored.avg, exact.avg, 0.0000005);
    hide Value;
  }

  lemma ScaledError(q: int, a: real, b: real, e: real)
    requires Abs(a - b) <= e
    ensures Abs(Value(q, a) - Value(q, b)) <= Value(AbsInt(q), e)
  {
    ValueDiff(q, a, b);
    ValueSign(q, a - b);
    ValueMonotone(AbsInt(q), a - b, e);
    ValueMonotone(AbsInt(q), b - a, e);
    ValueDiff(q, b, a);
  }

  lemma ValueMonotone(n: int, x: real, y: real)
    requires n >= 0 && x <= y
    ensures Value(n, x) <= Value(n, y)
  {}

  lemma FlatCash()
    ensures NetCash(FLAT) == 0.0
  {}

  lemma AppliedQty(p: Position, f: Fill)
    requires f.qty > 0
    ensures Apply(p, f).qty == p.qty + Signed(f)
  {
    QtyStep(p, f);
  }

  /**
   Conservation with rounding: what the stored record accounts for differs from the
   cash that really moved by at most the accumulated slack.
   */
  lemma {:induction false} Conservation(fs: Fills)
    ensures Run(fs).qty == NetQty(fs)
    ensures Abs(NetCash(Run(fs)) - Cash(fs)) <= RoundingSlack(fs)
  {
    hide NetCash, CashOf, Apply, StepSlack;
    FlatCash();
    if fs == [] {
    } else {
      var before: Fills, f := fs[..|fs| - 1], fs[|fs| - 1];
      Conservation(before);
      AppliedQty(Run(before), f);
      RoundedStepConserves(Run(before), f);
      assert Cash(fs) == Cash(before) + CashOf(f);
      assert RoundingSlack(fs) == RoundingSlack(before) + StepSlack(NetQty(fs));
    }
  }

  /** Without rounding the law is exact, from any starting position. */
  lemma {:induction false} ConservationExact(p: Position, fs: Fills)
    ensures RunExact(p, fs).qty == p.qty + NetQty(fs)
    ensures NetCash(RunExact(p, fs)) == NetCash(p) + Cash(fs)
  {
    hide NetCash, CashOf, NewAvg, NewQty, DeltaRealized;
    if fs == [] {
    } else {
      ConservationExact(p, fs[..|fs| - 1]);
      QtyStep(RunExact(p, fs[..|fs| - 1]), fs[|fs| - 1]);
      ExactStepConserves(RunExact(p, fs[..|fs| - 1]), fs[|fs| - 1]);
    }
  }

  /** Two fills at one price leave the same book as one, even across a flip. */
  lemma SplitFill(p: Position, f: Fill, g: Fill)
    requires f.qty > 0 && g.qty > 0 && f.side == g.side && f.price == g.price
    ensures ApplyExact(ApplyExact(p, f), g) == ApplyExact(p, Fill(f.side, f.qty + g.qty, f.price, f.fees + g.fees))
  {
    hide NewQty, NewAvg, DeltaRealized, NetCash, CashOf;
    var h := Fill(f.side, f.qty + g.qty, f.price, f.fees + g.fees);
    var m := ApplyExact(p, f);
    QtyStep(p, f); QtyStep(m, g); QtyStep(p, h);
    ExactStepConserves(p, f); ExactStepConserves(m, g); ExactStepConserves(p, h);
    SplitAvg(p, f, g, h);
    SplitCash(f, g, h);
    SameByCash(ApplyExact(m, g), ApplyExact(p, h));
  }

  /** A position is determined by its quantity, average and accounted cash. */
  lemma SameByCash(a: Position, b: Position)
    requires a.qty == b.qty && a.avg == b.avg && NetCash(a) == NetCash(b)
    ensures a == b
  {}

  lemma SplitCash(f: Fill, g: Fill, h: Fill)
    requires f.side == g.side && f.price == g.price
    requires h == Fill(f.side, f.qty + g.qty, f.price, f.fees + g.fees)
    ensures CashOf(h) == CashOf(f) + CashOf(g)
  {
    ValueSplit(Signed(f), Signed(g), f.price);
  }

  lemma SplitAvg(p: Position, f: Fill, g: Fill, h: Fill)
    requires f.qty > 0 && g.qty > 0 && f.side == g.side && f.price == g.price
    requires h == Fill(f.side, f.qty + g.qty, f.price, f.fees + g.fees)
    ensures NewAvg(ApplyExact(p, f), g) == NewAvg(p, h)
  {
    hide DeltaRealized, Blend;
    var m := ApplyExact(p, f);
    if SameDirection(p, f) {
      assert SameDirection(m, g) && AbsInt(m.qty) == AbsInt(p.qty) + f.qty;
      SplitBlend(p.avg, AbsInt(p.qty), f.price, f.qty, g.qty);
    } else if f.qty >= AbsInt(p.qty) {
      BlendSame(f.price, AbsInt(m.qty), g.qty);
      BlendNothing(m.avg, f.price, g.qty);
    }
  }

  lemma BlendCost(a: real, n: int, b: real, m: int)
    requires n >= 0 && m > 0
    ensures Value(n + m, Blend(a, n, b, m)) == Value(n, a) + Value(m, b)
  {
    Quotient(Value(n, a) + Value(m, b), (n + m) as real);
    hide Value;
  }

  lemma Quotient(x: real, n: real)
    requires n != 0.0
    ensures n * (x / n) == x && (n * x) / n == x
  {}

  /** Blending in two steps is blending in one. */
  lemma SplitBlend(a: real, n: int, x: real, m: int, k: int)
    requires n >= 0 && m > 0 && k > 0
    ensures Blend(Blend(a, n, x, m), n + m, x, k) == Blend(a, n, x, m + k)
  {
    BlendCost(a, n, x, m);
    ValueSplit(m, k, x);
    hide Value;
  }

  lemma BlendSame(x: real, n: int, m: int)
    requires n >= 0 && m > 0
    ensures Blend(x, n, x, m) == x
  {
    ValueSplit(n, m, x);
    Quotient(x, (n + m) as real);
    assert Value(n + m, x) == (n + m) as real * x;
    hide Value;
  }

  lemma BlendNothing(a: real, x: real, m: int)
    requires m > 0
    ensures Blend(a, 0, x, m) == x
  {
    BlendSame(x, 0, m);
    assert Value(0, a) == Value(0, x);
    hide Value;
  }

  /**
   The average-cost rules: adding realizes nothing but fees and averages between the two
   prices, reducing leaves the average alone, crossing zero restarts at the fill price.
   */
  lemma AverageCostRules(p: Position, f: Fill)
    requires f.qty > 0
    ensures SameDirection(p, f) ==> DeltaRealized(p, f) == -f.fees
    ensures SameDirection(p, f) && p.qty != 0 ==>
              (p.avg <= NewAvg(p, f) <= f.price || f.price <= NewAvg(p, f) <= p.avg)
    ensures !SameDirection(p, f) && f.qty < AbsInt(p.qty) ==> NewAvg(p, f) == p.avg
    ensures !SameDirection(p, f) && f.qty > AbsInt(p.qty) ==> NewAvg(p, f) == f.price
    ensures !SameDirection(p, f) && f.qty == AbsInt(p.qty) ==> NewQty(p, f) == 0 && NewAvg(p, f) == 0.0
  {
    hide Blend, Value;
    BlendBetween(p.avg, AbsInt(p.qty), f.price, f.qty);
  }

  /** What is stored is on the decimal grid: six places for the average, four for the profit, each the nearest. */
  lemma StoredOnGrid(p: Position, f: Fill)
    requires f.qty > 0
    ensures var q := Apply(p, f);
      && (q.avg * 1_000_000 as real).Floor as real == q.avg * 1_000_000 as real
      && (q.realized * 10_000 as real).Floor as real == q.realized * 10_000 as real
      && Abs(q.avg - NewAvg(p, f)) <= 0.0000005 && Abs(q.realized - (p.realized + DeltaRealized(p, f))) <= 0.00005
  {
    hide NewAvg, DeltaRealized, Round;
    RoundIsGrid(0, NewAvg(p, f), 0.0, 1_000_000);
    RoundIsGrid(0, p.realized + DeltaRealized(p, f), 0.0, 10_000);
    RoundError6(NewAvg(p, f));
    RoundError4(p.realized + DeltaRealized(p, f));
  }

  lemma BlendBetween(a: real, n: int, b: real, m: int)
    requires n >= 0 && m > 0
    ensures a <= b ==> a <= Blend(a, n, b, m) <= b
    ensures b <= a ==> b <= Blend(a, n, b, m) <= a
  {
    hide Value, Blend;
    var x := Blend(a, n, b, m);
    BlendCost(a, n, b, m);
    ValueSplit(n, m, a); ValueSplit(n, m, b);
    if a <= b {
      ValueMonotone(m, a, b); ValueMonotone(n, a, b);
      ValueOrders(n + m, a, x); ValueOrders(n + m, x, b);
    } else {
      ValueMonotone(m, b, a); ValueMonotone(n, b, a);
      ValueOrders(n + m, b, x); ValueOrders(n + m, x, a);
    }
  }

  lemma ValueOrders(n: int, x: real, y: real)
    requires n > 0 && Value(n, x) <= Value(n, y)
    ensures x <= y
  {
    ValueDiff(n, y, x);
    ProductSign(n as real, y - x);
  }

  lemma ProductSign(k: real, d: real)
    requires k > 0.0
    ensures k * d >= 0.0 ==> d >= 0.0
  {}

  // ---- the book ----

  type InstrumentFill = (string, Fill)

  type Tape = t: seq<InstrumentFill> | forall i :: 0 <= i < |t| ==> t[i].1.qty > 0

  datatype State = State(positions: map<string, Position>, session: real)

  const EMPTY := State(map[], 0.0)

  function PositionOf(s: State, instrument: string): Position {
    if instrument in s.positions then s.positions[instrument] else FLAT
  }

  function Post(s: State, instrument: string, f: Fill): State
    requires f.qty > 0
  {
    var p := PositionOf(s, instrument);
    State(s.positions[instrument := Apply(p, f)], s.session + DeltaRealized(p, f))
  }

  function PostAll(t: Tape): State {
    if t == [] then EMPTY
    else Post(PostAll(t[..|t| - 1]), t[|t| - 1].0, t[|t| - 1].1)
  }

  /** The fills of one instrument, in order. */
  function FillsOf(t: Tape, instrument: string): Fills {
    if t == [] then []
    else
      var rest := FillsOf(t[..|t| - 1], instrument);
      if t[|t| - 1].0 == instrument then rest + [t[|t| - 1].1] else rest
  }

  /** Instruments do not interfere: each record is that of its own fills alone. */
  lemma {:induction false} BookSeparates(t: Tape, instrument: string)
    ensures PositionOf(PostAll(t), instrument) == Run(FillsOf(t, instrument))
  {
    if t == [] {
    } else {
      BookSeparates(t[..|t| - 1], instrument);
      var fs := FillsOf(t[..|t| - 1], instrument);
      assert (fs + [t[|t| - 1].1])[..|fs|] == fs;
    }
  }

  function Realized(p: Position): real { p.realized }

  /** The unrounded session total stays within half a paisa-hundredth per fill of the stored sum. */
  lemma {:induction false} SessionDrift(t: Tape)
    ensures Abs(PostAll(t).session - Total(PostAll(t).positions, Realized)) <= 0.00005 * |t| as real
  {
    if t == [] {
    } else {
      SessionDrift(t[..|t| - 1]);
      var s := PostAll(t[..|t| - 1]);
      var (name, f) := t[|t| - 1];
      var p := PositionOf(s, name);
      TotalUpdate(s.positions, Realized, name, Apply(p, f));
      RoundError4(p.realized + DeltaRealized(p, f));
    }
  }

  /** The mutable book with its mirror in the key-value store. */
  class Book {
    var positions: map<string, Position>
    var realizedPnl: real
    var storedPositions: map<string, Position>
    var storedRealized: Option<real>

    ghost predicate Valid()
      reads this
    {
      && storedPositions == positions
      && (storedRealized == None ==> realizedPnl == 0.0)
      && (storedRealized.Some? ==> storedRealized.value == realizedPnl)
    }

    ghost function Abstract(): State
      reads this
    {
      State(positions, realizedPnl)
    }

    /** Start on an empty store. */
    constructor ()
      ensures Valid() && Abstract() == EMPTY
    {
      positions, realizedPnl := map[], 0.0;
      storedPositions, storedRealized := map[], None;
    }

    /** Drop memory and load whatever the store holds: a restart loses nothing. */
    method Hydrate()
      requires Valid()
      modifies this
      ensures Valid() && Abstract() == old(Abstract())
    {
      positions := storedPositions;
      realizedPnl := if storedRealized.Some? then storedRealized.value else 0.0;
    }

    method ApplyFill(instrument: string, fill: Fill) returns (deltaRealized: real)
      requires Valid() && fill.qty > 0
      modifies this
      ensures Valid()
      ensures Abstract() == Post(old(Abstract()), instrument, fill)
      ensures deltaRealized == Round(realizedPnl - old(realizedPnl), 10_000)
    {
      hide Value, Blend, Round;
      var pos := if instrument in positions then positions[instrument] else FLAT;
      var signed := if fill.side == B then fill.qty else -fill.qty;
      var absPos := AbsInt(pos.qty);
      var sameDir := pos.qty == 0 || (pos.qty > 0 && signed > 0) || (pos.qty < 0 && signed < 0);

      var delta := 0.0;
      if !sameDir {
        var closing := Min(absPos, fill.qty);
        if pos.qty > 0 {
          delta := Value(closing, fill.price - pos.avg);
        } else {
          delta := Value(closing, pos.avg - fill.price);
        }
      }
      delta := delta - fill.fees;

      var newQty: int;
      var newAvg: real;
      if sameDir {
        newAvg := Blend(pos.avg, absPos, fill.price, fill.qty);
        newQty := pos.qty + signed;
      } else if fill.qty > absPos {
        var remaining := fill.qty - absPos;
        newQty := if fill.side == B then remaining else -remaining;
        newAvg := fill.price;
      } else {
        newQty := pos.qty + signed;
        newAvg := if newQty != 0 then pos.avg else 0.0;
      }

      pos := Position(newQty, Round(newAvg, 1_000_000), Round(pos.realized + delta, 10_000));
      positions := positions[instrument := pos];
      realizedPnl := realizedPnl + delta;
      storedPositions := storedPositions[instrument := pos];
      storedRealized := Some(realizedPnl);
      deltaRealized := Round(delta, 10_000);
    }
  }
}
