/** Exit decisions for a held position, and the levels fixed when it was opened. */
module ExitRules {
  import opened Common
  import opened Rounding

  datatype OptionType = CE | PE

  datatype Bias = LongBias | ShortBias | NeutralBias

  datatype Position = Position(
    index: string, strike: int, optionType: OptionType,
    lots: int, lotSize: int,
    entryLtp: real, entryTs: int,
    target: real, stop: real, timeStop: int,
    entryResistance: Option<int>, entrySupport: Option<int>)

  datatype ExitReason = Stop | DollarStop | Time | Target | RegimeFlip | WallBreak

  /** What the market looks like when a position is evaluated. */
  datatype Quote = Quote(ltp: real, now: int, bias: Bias, spot: Option<real>,
                         resistance: Option<int>, support: Option<int>)

  const MIN_SOFT_EXIT_AGE_MS := 5_000

  function SizedQty(lots: int, lotSize: int): (q: int)
    ensures q >= 1
  {
    Max(lots * lotSize, 1)
  }

  predicate DollarStopHit(p: Position, ltp: real, maxLoss: real) {
    (p.entryLtp - ltp) * SizedQty(p.lots, p.lotSize) as real >= maxLoss
  }

  /** A support level that was not already there at entry has been broken downwards. */
  predicate SupportBroken(p: Position, q: Quote, hysteresis: real) {
    && p.optionType == CE && q.spot.Some?
    && q.support.Some? && q.support.value != 0
    && q.spot.value < q.support.value as real - hysteresis
    && q.support != p.entrySupport
  }

  predicate ResistanceBroken(p: Position, q: Quote, hysteresis: real) {
    && p.optionType == PE && q.spot.Some?
    && q.resistance.Some? && q.resistance.value != 0
    && q.spot.value > q.resistance.value as real + hysteresis
    && q.resistance != p.entryResistance
  }

  /** The first rule that fires, or None to keep holding. */
  function Evaluate(p: Position, q: Quote, maxLoss: real, hysteresis: real): Option<ExitReason> {
    if DollarStopHit(p, q.ltp, maxLoss) then Some(DollarStop)
    else if q.ltp <= p.stop then Some(Stop)
    else if q.now >= p.timeStop then Some(Time)
    else if q.ltp >= p.target then Some(Target)
    else if q.now - p.entryTs < MIN_SOFT_EXIT_AGE_MS || q.ltp >= p.entryLtp then None
    else if p.optionType == CE && q.bias == ShortBias then Some(RegimeFlip)
    else if p.optionType == PE && q.bias == LongBias then Some(RegimeFlip)
    else if SupportBroken(p, q, hysteresis) then Some(WallBreak)
    else if ResistanceBroken(p, q, hysteresis) then Some(WallBreak)
    else None
  }

  // ---- what each answer means ----

  /** The bias has turned against the option held. */
  predicate BiasAgainst(side: OptionType, bias: Bias) {
    match side
    case CE => bias.ShortBias?
    case PE => bias.LongBias?
  }

  /** A level that is not the one known at entry is broken by more than the hysteresis. */
  ghost predicate NewWallBroken(p: Position, q: Quote, hysteresis: real) {
    match p.optionType
    case CE => exists spot, level :: q.spot == Some(spot) && q.support == Some(level) && level != 0
                                     && p.entrySupport != Some(level) && level as real - spot > hysteresis
    case PE => exists spot, level :: q.spot == Some(spot) && q.resistance == Some(level) && level != 0
                                     && p.entryResistance != Some(level) && spot - level as real > hysteresis
  }

  /** The loss at `ltp` on at least one unit stays below the cap. */
  predicate BelowCap(p: Position, ltp: real, maxLoss: real) {
    (p.entryLtp - ltp) * (if p.lots * p.lotSize >= 1 then p.lots * p.lotSize else 1) as real < maxLoss
  }

  /** Held at least five seconds and under water. */
  predicate AgedAndLosing(p: Position, q: Quote) { q.now >= p.entryTs + 5_000 && q.ltp < p.entryLtp }

  /** A quote leaves the position alone. */
  ghost predicate Holds(p: Position, q: Quote, maxLoss: real, hysteresis: real) {
    && BelowCap(p, q.ltp, maxLoss)
    && p.stop < q.ltp < p.target
    && q.now < p.timeStop
    && !(AgedAndLosing(p, q) && (BiasAgainst(p.optionType, q.bias) || NewWallBroken(p, q, hysteresis)))
  }

  /** A position is held exactly within cap, stop, target and time, with no soft exit due. */
  lemma HeldIff(p: Position, q: Quote, maxLoss: real, hysteresis: real)
    ensures Evaluate(p, q, maxLoss, hysteresis) == None <==> Holds(p, q, maxLoss, hysteresis)
  {
    WallsIff(p, q, hysteresis);
    assert DollarStopHit(p, q.ltp, maxLoss) <==> !BelowCap(p, q.ltp, maxLoss);
    hide DollarStopHit, BelowCap, NewWallBroken, SupportBroken, ResistanceBroken;
  }

  lemma WallsIff(p: Position, q: Quote, hysteresis: real)
    ensures NewWallBroken(p, q, hysteresis) <==> SupportBroken(p, q, hysteresis) || ResistanceBroken(p, q, hysteresis)
  {
    if SupportBroken(p, q, hysteresis) {
      assert q.spot == Some(q.spot.value) && q.support == Some(q.support.value);
    }
    if ResistanceBroken(p, q, hysteresis) {
      assert q.spot == Some(q.spot.value) && q.resistance == Some(q.resistance.value);
    }
  }

  /** A quote is answered with the target exactly at or above it, with no harder reason due. */
  lemma TargetAnswersIff(p: Position, q: Quote, maxLoss: real, hysteresis: real)
    ensures Evaluate(p, q, maxLoss, hysteresis) == Some(Target)
            <==> q.ltp >= p.target && q.ltp > p.stop && q.now < p.timeStop && BelowCap(p, q.ltp, maxLoss)
  {
    assert DollarStopHit(p, q.ltp, maxLoss) <==> !BelowCap(p, q.ltp, maxLoss);
    hide DollarStopHit, BelowCap;
  }

  /** The other reasons: cap first, then stop, then time, then target, then bias, then wall. */
  lemma ReasonsIff(p: Position, q: Quote, maxLoss: real, hysteresis: real)
    ensures var r, capped := Evaluate(p, q, maxLoss, hysteresis), !BelowCap(p, q.ltp, maxLoss);
      && (r == Some(DollarStop) <==> capped)
      && (r == Some(Stop) <==> !capped && q.ltp <= p.stop)
      && (r == Some(Time) <==> !capped && q.ltp > p.stop && q.now >= p.timeStop)
      && (r == Some(RegimeFlip) <==>
            && !capped && p.stop < q.ltp < p.target && q.now < p.timeStop
            && AgedAndLosing(p, q) && BiasAgainst(p.optionType, q.bias))
      && (r == Some(WallBreak) <==>
            && !capped && p.stop < q.ltp < p.target && q.now < p.timeStop
            && AgedAndLosing(p, q) && !BiasAgainst(p.optionType, q.bias) && NewWallBroken(p, q, hysteresis))
  {
    WallsIff(p, q, hysteresis);
    assert DollarStopHit(p, q.ltp, maxLoss) <==> !BelowCap(p, q.ltp, maxLoss);
    hide DollarStopHit, BelowCap, NewWallBroken, SupportBroken, ResistanceBroken;
  }

  const TARGET_MULTIPLE := 1.5
  const MIN_STOP_POINTS := 5.0

  /** Distance of the stop below the quoted price. */
  function StopBuffer(maxLoss: real, lots: int, lotSize: int): real {
    MaxReal(MIN_STOP_POINTS, maxLoss / SizedQty(lots, lotSize) as real)
  }

  datatype Levels = Levels(target: real, stop: real, timeStop: int)

  function BuildExitLevels(entry: real, maxLoss: real, lots: int, lotSize: int, timeStopS: int, now: int): Levels {
    var buffer := StopBuffer(maxLoss, lots, lotSize);
    Levels(CeilTick(entry + TARGET_MULTIPLE * buffer),
           FloorTick(MaxReal(0.0, entry - buffer)),
           now + timeStopS * 1000)
  }

  /** A position whose levels were built from quote `c` and which filled at or above it. */
  ghost predicate OpenedFrom(p: Position, c: real, maxLoss: real) {
    && c > 0.0 && p.entryLtp >= c
    && p.target == BuildExitLevels(c, maxLoss, p.lots, p.lotSize, 0, 0).target
    && p.stop == BuildExitLevels(c, maxLoss, p.lots, p.lotSize, 0, 0).stop
  }

  /**
   The rupee cap dominates the price stop: at any positive price at or below the stop
   the dollar stop is already due, so the answer is never `Stop`.
   */
  lemma DollarStopDominates(p: Position, c: real, q: Quote, maxLoss: real, hysteresis: real)
    requires OpenedFrom(p, c, maxLoss) && q.ltp > 0.0
    ensures q.ltp <= p.stop ==> DollarStopHit(p, q.ltp, maxLoss)
    ensures Evaluate(p, q, maxLoss, hysteresis) != Some(Stop)
  {
    hide DollarStopHit, BuildExitLevels, SupportBroken, ResistanceBroken;
    if q.ltp <= p.stop {
      StopDistance(c, maxLoss, p.lots, p.lotSize, q.ltp);
      CapReached(p, q.ltp, maxLoss);
    }
  }

  /** A positive price at or below the stop is at least the per-unit cap under the quote. */
  lemma StopDistance(c: real, maxLoss: real, lots: int, lotSize: int, ltp: real)
    requires 0.0 < ltp <= BuildExitLevels(c, maxLoss, lots, lotSize, 0, 0).stop
    ensures ltp <= c - maxLoss / SizedQty(lots, lotSize) as real
  {
    var buffer := StopBuffer(maxLoss, lots, lotSize);
    assert ltp <= MaxReal(0.0, c - buffer);
  }

  lemma CapReached(p: Position, ltp: real, maxLoss: real)
    requires ltp <= p.entryLtp - maxLoss / SizedQty(p.lots, p.lotSize) as real
    ensures DollarStopHit(p, ltp, maxLoss)
  {
    var qty := SizedQty(p.lots, p.lotSize) as real;
    assert (p.entryLtp - ltp) * qty >= (maxLoss / qty) * qty;
  }

  /**
   Levels bracket the trade: the stop is below the quote, the fill at or above it, and
   the target at or above the fill exactly when it is at or above the slipped quote, which
   slippage within the target distance guarantees and slippage a tick beyond it rules out.
   */
  lemma LevelsBracketFill(c: real, slip: real, maxLoss: real, lots: int, lotSize: int)
    requires c > 0.0 && slip >= 0.0
    ensures var l := BuildExitLevels(c, maxLoss, lots, lotSize, 0, 0);
      && OnTick(l.stop) && OnTick(l.target) && OnTick(CeilTick(c * (1.0 + slip)))
      && 0.0 <= l.stop < c <= CeilTick(c * (1.0 + slip))
    ensures var fill := CeilTick(c * (1.0 + slip));
      var l := BuildExitLevels(c, maxLoss, lots, lotSize, 0, 0);
      var reach := TARGET_MULTIPLE * StopBuffer(maxLoss, lots, lotSize);
      && (fill <= l.target <==> c * (1.0 + slip) <= l.target)
      && (c * slip <= reach ==> fill <= l.target)
      && (c * slip >= reach + TICK ==> fill > l.target)
  {
    hide CeilTick, BuildExitLevels, StopBuffer, OnTick;
    assert c * slip >= 0.0;
    var slipped := c * (1.0 + slip);
    assert slipped == c + c * slip;
    LevelsAroundQuote(c, maxLoss, lots, lotSize);
    FillAgainstTarget(slipped, c + TARGET_MULTIPLE * StopBuffer(maxLoss, lots, lotSize));
  }

  lemma LevelsAroundQuote(c: real, maxLoss: real, lots: int, lotSize: int)
    requires c > 0.0
    ensures var l := BuildExitLevels(c, maxLoss, lots, lotSize, 0, 0);
      && OnTick(l.stop) && OnTick(l.target) && 0.0 <= l.stop < c
      && l.target == CeilTick(c + TARGET_MULTIPLE * StopBuffer(maxLoss, lots, lotSize))
  {}

  /** Snapping both up, the fill passes the target exactly when the unsnapped fill does. */
  lemma FillAgainstTarget(slipped: real, goal: real)
    ensures CeilTick(slipped) <= CeilTick(goal) <==> slipped <= CeilTick(goal)
    ensures slipped <= goal ==> CeilTick(slipped) <= CeilTick(goal)
    ensures slipped >= goal + TICK ==> CeilTick(slipped) > CeilTick(goal)
  {
    CeilTickLeast(slipped, CeilTick(goal));
    hide CeilTick;
  }

  /**
   Where the levels lie: quoted at `c`, the stop gives up the wider of five points and the
   per-unit cap, by less than a tick more, and the target asks for one and a half times
   that, by less than a tick more. A quote closer to zero than that has its stop at zero.
   */
  lemma LevelDistances(c: real, maxLoss: real, lots: int, lotSize: int, timeStopS: int, now: int)
    requires c > 0.0
    ensures var l := BuildExitLevels(c, maxLoss, lots, lotSize, timeStopS, now);
      var cap := maxLoss / SizedQty(lots, lotSize) as real;
      var wider := if cap > 5.0 then cap else 5.0;
      && (c >= wider ==> wider <= c - l.stop < wider + TICK)
      && (c < wider ==> l.stop == 0.0)
      && 3.0 * wider <= 2.0 * (l.target - c) < 3.0 * wider + 2.0 * TICK
      && (timeStopS >= 0 ==> l.timeStop >= now) && l.timeStop - now == timeStopS * 1000
  {
    TicksAreCents(0);
    WholeFloor(0, 0.0);
  }

  /** Some quote at a positive price makes the price stop answer. */
  ghost predicate StopCanAnswer(p: Position, maxLoss: real, hysteresis: real) {
    exists q: Quote :: q.ltp > 0.0 && Evaluate(p, q, maxLoss, hysteresis) == Some(Stop)
  }

  /**
   For any position at all, some positive price makes the price stop answer exactly when
   the stop is positive and the rupee cap is not yet reached at the stop itself.
   */
  lemma StopAnswersIff(p: Position, maxLoss: real, hysteresis: real)
    ensures StopCanAnswer(p, maxLoss, hysteresis)
            <==> p.stop > 0.0 && !DollarStopHit(p, p.stop, maxLoss)
  {
    if p.stop > 0.0 && !DollarStopHit(p, p.stop, maxLoss) {
      assert Evaluate(p, Quote(p.stop, 0, NeutralBias, None, None, None), maxLoss, hysteresis) == Some(Stop);
    }
    if q: Quote :| q.ltp > 0.0 && Evaluate(p, q, maxLoss, hysteresis) == Some(Stop) {
      if DollarStopHit(p, p.stop, maxLoss) { LowerLosesMore(p, q.ltp, p.stop, maxLoss); }
    }
  }

  lemma LowerLosesMore(p: Position, low: real, high: real, maxLoss: real)
    requires low <= high && DollarStopHit(p, high, maxLoss)
    ensures DollarStopHit(p, low, maxLoss)
  {
    assert (high - low) * SizedQty(p.lots, p.lotSize) as real >= 0.0;
  }

  /**
   The same when the position is opened: with levels from quote `c` and the fill snapped up
   from the slipped quote `slipped`, the price stop can answer exactly when the fill lies below the
   stop plus the per-unit cap. That takes a fill below the quote.
   */
  lemma StopAnswersAtOpening(p: Position, c: real, slipped: real, maxLoss: real, hysteresis: real)
    requires p.entryLtp == CeilTick(slipped)
    requires p.stop == BuildExitLevels(c, maxLoss, p.lots, p.lotSize, 0, 0).stop
    ensures StopCanAnswer(p, maxLoss, hysteresis)
            <==> p.stop > 0.0 && CeilTick(slipped) < p.stop + maxLoss / SizedQty(p.lots, p.lotSize) as real
    ensures StopCanAnswer(p, maxLoss, hysteresis) ==> p.entryLtp < c
  {
    StopAnswersIff(p, maxLoss, hysteresis);
    CapPerUnit(p, p.stop, maxLoss);
    if p.stop > 0.0 { StopDistance(c, maxLoss, p.lots, p.lotSize, p.stop); }
    hide BuildExitLevels, Evaluate, DollarStopHit, CeilTick, StopCanAnswer;
  }

  lemma CapPerUnit(p: Position, ltp: real, maxLoss: real)
    ensures DollarStopHit(p, ltp, maxLoss) <==> p.entryLtp - ltp >= maxLoss / SizedQty(p.lots, p.lotSize) as real
  {
    var qty, drop := SizedQty(p.lots, p.lotSize) as real, p.entryLtp - ltp;
    assert maxLoss == (maxLoss / qty) * qty;
    assert drop >= maxLoss / qty ==> (drop - maxLoss / qty) * qty >= 0.0;
    assert drop < maxLoss / qty ==> (maxLoss / qty - drop) * qty > 0.0;
  }

  /** A concrete one: with negative slippage the price stop answers first. */
  lemma StopAnswersUnderNegativeSlippage()
    ensures var l := BuildExitLevels(100.0, 1500.0, 1, 20, 300, 0);
      var p := Position("SENSEX", 79000, CE, 1, 20, 90.0, 0, l.target, l.stop, l.timeStop, None, None);
      var q := Quote(20.0, 1000, NeutralBias, None, None, None);
      && p.entryLtp == CeilTick(100.0 * (1.0 + -0.1))
      && Evaluate(p, q, 1500.0, 5.0) == Some(Stop)
  {
    TicksAreCents(1800); TicksAreCents(500);
    assert 1500.0 / SizedQty(1, 20) as real == 75.0;
  }
}
