/** How much a trade can lose, and which exit rules can fire, over whole runs. */
module ScalperLoss {
  import opened Common
  import opened Rounding
  import PE = PaperExecution
  import opened ExitRules
  import opened TradeLog
  import opened Scalper
  import opened ScalperSafety
  import opened ScalperRuns

  // ---- the price stop never answers ----

  ghost predicate Unstoppable(cfg: Config, p: Position) { !StopCanAnswer(p, cfg.maxLoss, cfg.hysteresis) }

  ghost predicate AllUnstoppable(cfg: Config, s: Engine) {
    forall x :: x in s.perIndex && s.perIndex[x].position.Some? ==> Unstoppable(cfg, s.perIndex[x].position.value)
  }

  /** No position that was opened can meet its price stop. */
  ghost predicate EntriesUnstoppable(cfg: Config, h: History) {
    forall j :: 0 <= j < |h| && h[j].Entered? ==> Unstoppable(cfg, h[j].position)
  }

  predicate NoStops(h: History) {
    forall j :: 0 <= j < |h| && h[j].Evaluated? ==> h[j].reason != Some(Stop)
  }

  lemma DoKeepsNoStops(cfg: Config, s: Engine, a: Action)
    requires AllUnstoppable(cfg, s) && NoStops(s.history) && EntriesUnstoppable(cfg, Do(cfg, s, a).history)
    ensures AllUnstoppable(cfg, Do(cfg, s, a)) && NoStops(Do(cfg, s, a).history)
    ensures EntriesUnstoppable(cfg, s.history)
  {
    hide Unstoppable, Evaluate, Pnl, AllowEntry, PE.Executor.Submit, NewPosition;
    var t := Do(cfg, s, a);
    assert s.history <= t.history;
    match a {
      case Touch(_) =>
      case ResetDay(_) =>
      case Restart(_) =>
      case TryEntry(x, gateTs, c) => assert |t.history| > |s.history| ==> t.history[|s.history|].Entered?;
      case CheckExit(x, _, check) =>
        if ExitCheckRuns(s, a) { NeverStop(cfg, s.perIndex[x].position.value, check.quote.value); }
    }
  }

  lemma NeverStop(cfg: Config, p: Position, q: Quote)
    requires Unstoppable(cfg, p) && q.ltp > 0.0
    ensures Evaluate(p, q, cfg.maxLoss, cfg.hysteresis) != Some(Stop)
  {
    hide Evaluate;
  }

  /** In any run the price stop answers only for a position opened so that it can. */
  lemma {:induction false} StopNeedsReach(cfg: Config, log: Log, now: int, actions: seq<Action>)
    requires EntriesUnstoppable(cfg, Run(cfg, log, now, actions).history)
    ensures NoStops(Run(cfg, log, now, actions).history) && AllUnstoppable(cfg, Run(cfg, log, now, actions))
  {
    if actions == [] {
    } else {
      hide Do, AllUnstoppable, NoStops, EntriesUnstoppable;
      var before, a := actions[..|actions| - 1], actions[|actions| - 1];
      EntriesEarlier(cfg, Run(cfg, log, now, before), a);
      StopNeedsReach(cfg, log, now, before);
      DoKeepsNoStops(cfg, Run(cfg, log, now, before), a);
    }
  }

  lemma EntriesEarlier(cfg: Config, s: Engine, a: Action)
    requires EntriesUnstoppable(cfg, Do(cfg, s, a).history)
    ensures EntriesUnstoppable(cfg, s.history)
  {
    hide Unstoppable, Evaluate, Pnl, AllowEntry, PE.Executor.Submit, NewPosition;
    var t := Do(cfg, s, a);
    assert s.history <= t.history;
    forall j | 0 <= j < |s.history| ensures s.history[j] == t.history[j] {}
  }

  lemma EntryUnstoppable(cfg: Config, x: string, c: Candidate, f: PE.Fill)
    requires cfg.paper.slippageBps >= 0.0 && x in cfg.lots
    requires cfg.paper.Submit(BuyOrder(cfg, x, c)) == PE.Filled(f)
    ensures Unstoppable(cfg, NewPosition(cfg, x, c, f.price))
  {
    PE.FillNeverBeatsReference(cfg.paper, BuyOrder(cfg, x, c));
    EntryPrice(cfg, x, c, f);
    hide PE.Executor.Submit, PE.Executor.Slipped, CeilTick, FloorTick, StopCanAnswer;
    StopAnswersAtOpening(NewPosition(cfg, x, c, f.price), c.ltp, cfg.paper.Slipped(BuyOrder(cfg, x, c)),
                         cfg.maxLoss, cfg.hysteresis);
  }

  lemma DoOpensUnstoppable(cfg: Config, s: Engine, a: Action)
    requires cfg.paper.slippageBps >= 0.0 && EntriesUnstoppable(cfg, s.history)
    ensures EntriesUnstoppable(cfg, Do(cfg, s, a).history)
  {
    hide Unstoppable, Evaluate, Pnl, AllowEntry, PE.Executor.Submit, NewPosition;
    if a.TryEntry? && EntryRuns(cfg, s, a) {
      var result := cfg.paper.Submit(BuyOrder(cfg, a.index, a.candidate.value));
      if result.Filled? { EntryUnstoppable(cfg, a.index, a.candidate.value, result.fill); }
    }
  }

  /** With non-negative slippage every opened position is such that it never does. */
  lemma {:induction false} PriceStopNeverFires(cfg: Config, log: Log, now: int, actions: seq<Action>)
    requires cfg.paper.slippageBps >= 0.0
    ensures EntriesUnstoppable(cfg, Run(cfg, log, now, actions).history)
    ensures NoStops(Run(cfg, log, now, actions).history)
  {
    hide Do, NoStops, EntriesUnstoppable;
    if actions == [] {
      NoEntries(cfg);
    } else {
      PriceStopNeverFires(cfg, log, now, actions[..|actions| - 1]);
      DoOpensUnstoppable(cfg, Run(cfg, log, now, actions[..|actions| - 1]), actions[|actions| - 1]);
    }
    StopNeedsReach(cfg, log, now, actions);
  }

  lemma NoEntries(cfg: Config)
    ensures EntriesUnstoppable(cfg, [])
  {}

  /**
   For every position the engine opens, whatever the slippage: the price stop can answer
   exactly when the fill lies below the stop plus the per-unit cap.
   */
  lemma OpenedStopAnswersIff(cfg: Config, x: string, c: Candidate, f: PE.Fill)
    requires x in cfg.lots && cfg.paper.Submit(BuyOrder(cfg, x, c)) == PE.Filled(f)
    ensures var p := NewPosition(cfg, x, c, f.price);
      StopCanAnswer(p, cfg.maxLoss, cfg.hysteresis)
      <==> p.stop > 0.0 && CeilTick(cfg.paper.Slipped(BuyOrder(cfg, x, c))) < p.stop + cfg.maxLoss / UnitsOf(p)
  {
    hide PE.Executor.Submit, PE.Executor.Slipped, StopCanAnswer, CeilTick, FloorTick;
    EntryPrice(cfg, x, c, f);
    StopAnswersAtOpening(NewPosition(cfg, x, c, f.price), c.ltp, cfg.paper.Slipped(BuyOrder(cfg, x, c)),
                         cfg.maxLoss, cfg.hysteresis);
  }

  lemma EntryPrice(cfg: Config, x: string, c: Candidate, f: PE.Fill)
    requires x in cfg.lots && cfg.paper.Submit(BuyOrder(cfg, x, c)) == PE.Filled(f)
    ensures f.price == CeilTick(cfg.paper.Slipped(BuyOrder(cfg, x, c)))
  {
    hide PE.Executor.Submit, PE.Executor.Slipped, CeilTick, FloorTick;
    PE.FillBracket(cfg.paper, BuyOrder(cfg, x, c));
  }

  // ---- the worst-case loss ----

  function UnitsOf(p: Position): real { SizedQty(p.lots, p.lotSize) as real }

  /** Price `ltp` is at most the cap plus one gap `g` under the entry. */
  predicate WithinCap(cfg: Config, p: Position, ltp: real, g: real) {
    (p.entryLtp - ltp - g) * UnitsOf(p) <= MaxReal(cfg.maxLoss, 0.0)
  }

  predicate Sellable(cfg: Config, p: Position, ltp: real) {
    ltp > 0.0 && cfg.paper.Submit(SellOrder(p, ltp)).Filled?
  }

  /**
   What is known of a held position whose last seen price is `last`: it is no lower than
   the entry price, or the cap was not reached, or the price was too low to sell at and every
   sellable price is within the cap.
   */
  ghost predicate PriceKnown(cfg: Config, p: Position, last: real, g: real) {
    || last >= p.entryLtp
    || !DollarStopHit(p, last, cfg.maxLoss)
    || (forall ltp :: Sellable(cfg, p, ltp) ==> WithinCap(cfg, p, ltp, g))
  }

  /** One step down by at most `g` stays within the cap, unless no sale is possible at all below it. */
  lemma StepWithinCap(cfg: Config, p: Position, last: real, ltp: real, g: real)
    requires PriceKnown(cfg, p, last, g) && ltp >= last - g
    ensures WithinCap(cfg, p, ltp, g) || (forall l :: Sellable(cfg, p, l) ==> WithinCap(cfg, p, l, g))
  {
    hide Sellable;
    var drop := p.entryLtp - ltp - g;
    if last >= p.entryLtp {
      Times(drop, 0.0, UnitsOf(p));
    } else if !DollarStopHit(p, last, cfg.maxLoss) {
      Times(drop, p.entryLtp - last, UnitsOf(p));
    }
  }

  lemma Times(a: real, b: real, n: real)
    requires n >= 0.0 && a <= b
    ensures a * n <= b * n
  {}

  /** At least one of the two settings does not work in the trader's favour. */
  predicate OneSideFair(ex: PE.Executor) { ex.feeBps >= 0.0 || ex.slippageBps >= 0.0 }

  /** The fee at the entry price did not round below zero when the position was opened. */
  predicate EntryCleared(cfg: Config, p: Position) {
    cfg.paper.Charge(PE.Gross(p.entryLtp, SizedQty(p.lots, p.lotSize))) >= -0.00005
  }

  /** A sale that raises does so at or above the entry price, or below every price at which it goes through. */
  lemma RaisedMeansTooLow(cfg: Config, p: Position, low: real, ltp: real)
    requires OneSideFair(cfg.paper) && EntryCleared(cfg, p) && low > 0.0
    requires cfg.paper.Submit(SellOrder(p, low)).Raised? && Sellable(cfg, p, ltp)
    ensures low >= p.entryLtp || ltp > low
  {
    var ex, qty := cfg.paper, p.lots * p.lotSize;
    PE.SaleFillsIff(ex, SellOrder(p, ltp));
    PE.SaleFillsIff(ex, SellOrder(p, low));
    hide PE.Executor.Submit, PE.Executor.Charge, PE.Gross, OneSideFair;
    assert PE.SaleClears(ex, qty, ltp) && !PE.SaleClears(ex, qty, low);
    assert qty > 0;
    hide PE.SaleClears;
    if ltp <= low { ClearsOrDearer(ex, qty, p.entryLtp, ltp, low); }
  }

  lemma ClearsOrDearer(ex: PE.Executor, qty: int, entry: real, ltp: real, low: real)
    requires OneSideFair(ex) && ex.Charge(PE.Gross(entry, qty)) >= -0.00005 && 0.0 < ltp <= low
    requires PE.SaleClears(ex, qty, ltp) && !PE.SaleClears(ex, qty, low)
    ensures low >= entry
  {
    hide PE.Executor.Charge, PE.Gross, FloorTick, PE.Executor.Net;
    if ex.feeBps >= 0.0 {
      ClearsUpward(ex, qty, ltp, low);
    } else {
      NetUpward(ex, ltp, low);
      DearerThanEntry(ex, qty, entry, low);
    }
  }

  /** With a negative fee rate a fee too low for the record means a price above one whose fee was not. */
  lemma DearerThanEntry(ex: PE.Executor, qty: int, entry: real, low: real)
    requires ex.feeBps < 0.0 && ex.slippageBps >= 0.0 && qty > 0 && low > 0.0
    requires ex.Charge(PE.Gross(entry, qty)) >= -0.00005 > ex.Charge(PE.Gross(FloorTick(ex.Net(low)), qty))
    ensures low >= entry
  {
    var sold := FloorTick(ex.Net(low));
    hide FloorTick;
    assert sold <= ex.Net(low);
    if sold <= entry { ChargeDownward(ex, qty, sold, entry); }
    SlippedBelow(ex, low);
    hide PE.Executor.Net, PE.Executor.Charge;
  }

  lemma SlippedBelow(ex: PE.Executor, price: real)
    requires ex.slippageBps >= 0.0 && price > 0.0
    ensures ex.Net(price) <= price
  {
    assert price * ex.Slip() >= 0.0;
    assert price * (1.0 - ex.Slip()) == price - price * ex.Slip();
  }

  lemma ChargeDownward(ex: PE.Executor, qty: int, a: real, b: real)
    requires ex.feeBps <= 0.0 && qty > 0 && a <= b
    ensures ex.Charge(PE.Gross(a, qty)) >= ex.Charge(PE.Gross(b, qty))
  {
    var rate := ex.feeBps / 10_000.0;
    Times(a, b, qty as real);
    Times(PE.Gross(a, qty), PE.Gross(b, qty), -rate);
    assert PE.Gross(a, qty) * -rate == -(PE.Gross(a, qty) * rate);
    assert PE.Gross(b, qty) * -rate == -(PE.Gross(b, qty) * rate);
    hide PE.Gross;
  }

  lemma ClearsUpward(ex: PE.Executor, qty: int, low: real, high: real)
    requires ex.feeBps >= 0.0 && 0.0 < low <= high && PE.SaleClears(ex, qty, low)
    ensures PE.SaleClears(ex, qty, high)
  {
    hide FloorTick, CeilTick, PE.Gross, PE.Executor.Charge;
    NetUpward(ex, low, high);
    hide PE.Executor.Net;
    FloorTickMonotone(ex.Net(low), ex.Net(high));
    ChargeUpward(ex, qty, FloorTick(ex.Net(low)), FloorTick(ex.Net(high)));
  }

  lemma ChargeUpward(ex: PE.Executor, qty: int, a: real, b: real)
    requires ex.feeBps >= 0.0 && qty > 0 && a <= b
    ensures ex.Charge(PE.Gross(a, qty)) <= ex.Charge(PE.Gross(b, qty))
  {
    Times(a, b, qty as real);
    Times(PE.Gross(a, qty), PE.Gross(b, qty), ex.feeBps / 10_000.0);
    hide PE.Gross;
  }

  lemma NetUpward(ex: PE.Executor, low: real, high: real)
    requires 0.0 < low <= high && ex.Net(low) >= TICK
    ensures ex.Net(high) >= ex.Net(low)
  {
    ScaleUp(low, high, 1.0 - ex.Slip());
  }

  lemma ScaleUp(low: real, high: real, k: real)
    requires 0.0 < low <= high && low * k >= TICK
    ensures high * k >= low * k
  {
    assert k > 0.0 by { if k <= 0.0 { Times(k, 0.0, low); } }
    assert (high - low) * k >= 0.0;
  }

  // -- one trade in the history --

  /** Where `x` was last entered, -1 if never. */
  function LastEntry(h: History, x: string): (i: int)
    ensures -1 <= i < |h|
    ensures i >= 0 ==> h[i].Entered? && h[i].index == x
  {
    if h == [] then -1
    else if h[|h| - 1].Entered? && h[|h| - 1].index == x then |h| - 1
    else LastEntry(h[..|h| - 1], x)
  }

  /** Evaluated prices of `x` after position `i` of the history are at least the one before minus `g`. */
  ghost predicate SteadySince(h: History, i: int, x: string, g: real) {
    forall k :: 0 <= k < |h| && i < k && h[k].Evaluated? && h[k].index == x ==> h[k].ltp >= LastPrice(h[..k], x) - g
  }

  /** The trade in progress: gaps are counted from its own entry fill. */
  ghost predicate Steady(h: History, x: string, g: real) { SteadySince(h, LastEntry(h, x), x, g) }

  lemma SteadySnoc(h: History, o: Observation, x: string, g: real)
    ensures o.Entered? && o.index == x ==> Steady(h + [o], x, g)
    ensures Steady(h + [o], x, g) && !(o.Entered? && o.index == x) ==>
              Steady(h, x, g) && (o.Evaluated? && o.index == x ==> o.ltp >= LastPrice(h, x) - g)
  {
    hide LastPrice;
    var all := h + [o];
    assert all[..|h|] == h;
    if Steady(all, x, g) && !(o.Entered? && o.index == x) {
      forall k | LastEntry(h, x) < k < |h| && h[k].Evaluated? && h[k].index == x
        ensures h[k].ltp >= LastPrice(h[..k], x) - g
      {
        assert all[..k] == h[..k] && all[k] == h[k];
      }
      assert all[|h|] == o;
    }
  }

  /** No look at `x` after position `i` of the history asked to exit: nothing can have raised. */
  predicate SettledSince(h: History, i: int, x: string) {
    forall k :: 0 <= k < |h| && i < k && h[k].Evaluated? && h[k].index == x ==> h[k].reason == None
  }

  /** A raised sale does no harm with these settings, or there has been none in the trade in progress. */
  predicate Settled(cfg: Config, h: History, i: int, x: string) { OneSideFair(cfg.paper) || SettledSince(h, i, x) }

  /** The same up to the latest observation. */
  predicate SettledBefore(cfg: Config, h: History, x: string) {
    h == [] || Settled(cfg, h[..|h| - 1], LastEntry(h, x), x)
  }

  lemma SettledSnoc(cfg: Config, h: History, o: Observation, x: string)
    ensures o.Entered? && o.index == x ==> Settled(cfg, h + [o], LastEntry(h + [o], x), x)
    ensures !(o.Entered? && o.index == x) ==>
              && LastEntry(h + [o], x) == LastEntry(h, x)
              && (SettledBefore(cfg, h + [o], x) ==> Settled(cfg, h, LastEntry(h, x), x))
              && (Settled(cfg, h + [o], LastEntry(h + [o], x), x) ==>
                    && Settled(cfg, h, LastEntry(h, x), x)
                    && (o.Evaluated? && o.index == x ==> OneSideFair(cfg.paper) || o.reason == None))
  {
    hide OneSideFair;
    var all := h + [o];
    assert all[..|h|] == h && all[|h|] == o;
    forall k | 0 <= k < |h| ensures all[k] == h[k] {}
  }

  /** The loss bound for one close. */
  predicate LossBounded(cfg: Config, o: Observation, x: string, g: real) {
    o.Closed? && o.index == x ==>
      var qty := (o.held.lots * o.held.lotSize) as real;
      o.pnl > -(MaxReal(cfg.maxLoss, 0.0) + qty * (g + cfg.paper.Slip() * o.ltp + TICK)) - o.fill.fees
  }

  /** Every close of a steady trade in which no earlier sale raised harmfully is bounded. */
  ghost predicate LossesBounded(cfg: Config, h: History, x: string, g: real) {
    forall j :: 0 <= j < |h| && Steady(h[..j], x, g) && SettledBefore(cfg, h[..j], x) ==> LossBounded(cfg, h[j], x, g)
  }

  ghost predicate AllKnown(cfg: Config, s: Engine, x: string, g: real) {
    x in s.perIndex && s.perIndex[x].position.Some? ==>
      && EntryCleared(cfg, s.perIndex[x].position.value)
      && PriceKnown(cfg, s.perIndex[x].position.value, LastPrice(s.history, x), g)
  }

  ghost predicate Tracked(cfg: Config, s: Engine, x: string, g: real) {
    && (Steady(s.history, x, g) && Settled(cfg, s.history, LastEntry(s.history, x), x) ==> AllKnown(cfg, s, x, g))
    && LossesBounded(cfg, s.history, x, g)
  }

  lemma LossesSnoc(cfg: Config, h: History, o: Observation, x: string, g: real)
    requires LossesBounded(cfg, h, x, g)
    requires Steady(h, x, g) && SettledBefore(cfg, h, x) ==> LossBounded(cfg, o, x, g)
    ensures LossesBounded(cfg, h + [o], x, g)
  {
    hide LossBounded, Steady, SettledBefore;
    var all := h + [o];
    forall j | 0 <= j < |all| && Steady(all[..j], x, g) && SettledBefore(cfg, all[..j], x)
      ensures LossBounded(cfg, all[j], x, g)
    {
      assert all[..j] == h[..j];
      assert h[..|h|] == h;
    }
  }

  /** An observation that closes nothing of `x`. */
  lemma QuietSnoc(cfg: Config, h: History, o: Observation, x: string, g: real)
    requires LossesBounded(cfg, h, x, g) && !(o.Closed? && o.index == x)
    ensures LossesBounded(cfg, h + [o], x, g)
  {
    assert LossBounded(cfg, o, x, g);
    hide LossBounded, LossesBounded, Steady, SettledBefore;
    LossesSnoc(cfg, h, o, x, g);
  }

  lemma SellWithinCap(cfg: Config, p: Position, ltp: real, f: PE.Fill, g: real, closeTs: int)
    requires ltp > 0.0 && cfg.paper.Submit(SellOrder(p, ltp)) == PE.Filled(f) && WithinCap(cfg, p, ltp, g)
    ensures LossBounded(cfg, Closed(p.index, closeTs, ltp, p, f, Pnl(p, f)), p.index, g)
  {
    hide PE.Executor.Submit, PE.SnapFill;
    PE.FillBracket(cfg.paper, SellOrder(p, ltp));
    var slip, n := cfg.paper.Slip(), UnitsOf(p);
    SlippedSale(cfg.paper, p, ltp);
    hide PE.Executor.Slipped, PE.Executor.Slip;
    var cost := g + slip * ltp + TICK;
    Scale(f.price - p.entryLtp, -(p.entryLtp - ltp - g), cost, n);
  }

  lemma SlippedSale(ex: PE.Executor, p: Position, ltp: real)
    ensures ex.Slipped(SellOrder(p, ltp)) == ltp - ex.Slip() * ltp
  {
    assert ltp * (1.0 - ex.Slip()) == ltp - ex.Slip() * ltp;
  }

  lemma Scale(gain: real, margin: real, cost: real, n: real)
    requires n >= 1.0 && gain > margin - cost
    ensures gain * n > margin * n - n * cost
    ensures -(margin * n) == (-margin) * n
  {
    assert (gain - (margin - cost)) * n > 0.0;
  }

  /** Looking at the price of a steady trade leaves it steady, or closes it within the bound. */
  lemma CloseBounded(cfg: Config, s: Engine, x: string, check: ExitCheck, g: real)
    requires AllKnown(cfg, s, x, g)
    requires x in s.perIndex && s.perIndex[x].position.Some? && s.perIndex[x].position.value.index == x
    requires check.quote.Some? && check.quote.value.ltp > 0.0
    requires check.quote.value.ltp >= LastPrice(s.history, x) - g
    ensures var t := Exiting(cfg, s, x, s.perIndex[x].position.value, check.quote.value, check);
      && (OneSideFair(cfg.paper) || t.history[|s.history|].reason == None || |t.history| > |s.history| + 1 ==>
            AllKnown(cfg, t, x, g))
      && (|t.history| > |s.history| + 1 ==> LossBounded(cfg, t.history[|s.history| + 1], x, g))
  {
    var p, q := s.perIndex[x].position.value, check.quote.value;
    var t := Exiting(cfg, s, x, p, q, check);
    StepWithinCap(cfg, p, LastPrice(s.history, x), q.ltp, g);
    ExitNeverRejected(cfg.paper, SellOrder(p, q.ltp));
    var reason := Evaluate(p, q, cfg.maxLoss, cfg.hysteresis);
    HistorySnoc(cfg, s.history, Evaluated(x, q.ltp, reason), x);
    var sold := cfg.paper.Submit(SellOrder(p, q.ltp));
    if reason == None {
      assert !DollarStopHit(p, q.ltp, cfg.maxLoss);
    } else if sold.Raised? {
      if OneSideFair(cfg.paper) && q.ltp < p.entryLtp {
        forall l | Sellable(cfg, p, l) ensures WithinCap(cfg, p, l, g) {
          RaisedMeansTooLow(cfg, p, q.ltp, l);
          if WithinCap(cfg, p, q.ltp, g) { CapUpward(cfg, p, q.ltp, l, g); }
        }
      }
    } else {
      assert Sellable(cfg, p, q.ltp);
      SellWithinCap(cfg, p, q.ltp, sold.fill, g, check.closeTs);
    }
    hide PE.Executor.Submit, Evaluate, DollarStopHit, WithinCap, LossBounded, Pnl, LastPrice, OneSideFair;
  }

  lemma CapUpward(cfg: Config, p: Position, low: real, high: real, g: real)
    requires WithinCap(cfg, p, low, g) && high >= low
    ensures WithinCap(cfg, p, high, g)
  {
    assert (p.entryLtp - high - g) * UnitsOf(p) <= (p.entryLtp - low - g) * UnitsOf(p);
  }

  lemma CloseTracked(cfg: Config, s: Engine, x: string, check: ExitCheck, g: real)
    requires Tracked(cfg, s, x, g)
    requires x in s.perIndex && s.perIndex[x].position.Some? && s.perIndex[x].position.value.index == x
    requires check.quote.Some? && check.quote.value.ltp > 0.0
    ensures Tracked(cfg, Exiting(cfg, s, x, s.perIndex[x].position.value, check.quote.value, check), x, g)
  {
    hide LossBounded, PriceKnown, Evaluate, Pnl, PE.Executor.Submit, LastPrice, Steady, LossesBounded;
    hide Settled, SettledBefore, OneSideFair, LastEntry;
    var p, q := s.perIndex[x].position.value, check.quote.value;
    var t := Exiting(cfg, s, x, p, q, check);
    var o := Evaluated(x, q.ltp, Evaluate(p, q, cfg.maxLoss, cfg.hysteresis));
    SteadySnoc(s.history, o, x, g);
    SettledSnoc(cfg, s.history, o, x);
    QuietSnoc(cfg, s.history, o, x, g);
    if Steady(s.history + [o], x, g) && Settled(cfg, s.history, LastEntry(s.history, x), x) {
      CloseBounded(cfg, s, x, check, g);
    }
    if |t.history| > |s.history| + 1 {
      var c := t.history[|s.history| + 1];
      SteadySnoc(s.history + [o], c, x, g);
      SettledSnoc(cfg, s.history + [o], c, x);
      LossesSnoc(cfg, s.history + [o], c, x, g);
    }
  }

  lemma EntryTracked(cfg: Config, s: Engine, y: string, gateTs: int, c: Candidate, x: string, g: real)
    requires y in cfg.lots && Tracked(cfg, s, x, g)
    ensures Tracked(cfg, Entering(cfg, s, y, gateTs, c), x, g)
  {
    hide LossBounded, DollarStopHit, PE.Executor.Submit, PE.Executor.Charge, PE.Gross, LastPrice, BuildExitLevels;
    hide Sellable, WithinCap, Steady, LossesBounded, Settled, LastEntry;
    match cfg.paper.Submit(BuyOrder(cfg, y, c)) {
      case Filled(f) =>
        PE.FilledCharge(cfg.paper, BuyOrder(cfg, y, c));
        var o := Entered(y, gateTs, c.ltp, NewPosition(cfg, y, c, f.price));
        HistorySnoc(cfg, s.history, o, x);
        SteadySnoc(s.history, o, x, g);
        SettledSnoc(cfg, s.history, o, x);
        QuietSnoc(cfg, s.history, o, x, g);
      case Rejected(_) =>
      case Raised =>
    }
  }

  /** Closing another index changes nothing for `x`. */
  lemma OtherClose(cfg: Config, s: Engine, y: string, check: ExitCheck, x: string, g: real)
    requires x != y && Tracked(cfg, s, x, g)
    requires y in s.perIndex && s.perIndex[y].position.Some? && check.quote.Some?
    ensures Tracked(cfg, Exiting(cfg, s, y, s.perIndex[y].position.value, check.quote.value, check), x, g)
  {
    hide Tracked, Evaluate, Pnl, PE.Executor.Submit;
    var p, q := s.perIndex[y].position.value, check.quote.value;
    var t := Exiting(cfg, s, y, p, q, check);
    var o := Evaluated(y, q.ltp, Evaluate(p, q, cfg.maxLoss, cfg.hysteresis));
    var seen := s.(history := s.history + [o]);
    OtherObserved(cfg, s, seen, o, x, g);
    if |t.history| > |s.history| + 1 {
      OtherObserved(cfg, seen, t, t.history[|s.history| + 1], x, g);
    } else {
      SameTracked(cfg, seen, t, x, g);
    }
  }

  lemma SameTracked(cfg: Config, s: Engine, t: Engine, x: string, g: real)
    requires Tracked(cfg, s, x, g) && t.history == s.history
    requires x in t.perIndex ==> x in s.perIndex && t.perIndex[x].position == s.perIndex[x].position
    ensures Tracked(cfg, t, x, g)
  {
    hide PriceKnown, EntryCleared, LossesBounded, Steady, Settled, LastEntry, LastPrice;
  }

  /** What happens to other indices changes nothing for `x`. */
  lemma OtherObserved(cfg: Config, s: Engine, t: Engine, o: Observation, x: string, g: real)
    requires Tracked(cfg, s, x, g) && t.history == s.history + [o]
    requires x in t.perIndex ==> x in s.perIndex && t.perIndex[x].position == s.perIndex[x].position
    requires o.Entered? || o.Evaluated? || o.Closed? ==> o.index != x
    ensures Tracked(cfg, t, x, g)
  {
    hide PriceKnown, EntryCleared, LossBounded, LossesBounded, Steady, Settled, SettledBefore, LastEntry, LastPrice;
    HistorySnoc(cfg, s.history, o, x);
    SteadySnoc(s.history, o, x, g);
    SettledSnoc(cfg, s.history, o, x);
    QuietSnoc(cfg, s.history, o, x, g);
  }

  lemma DoTracked(cfg: Config, start: nat, s: Engine, a: Action, x: string, g: real)
    requires Inv(cfg, start, s) && Tracked(cfg, s, x, g)
    ensures Tracked(cfg, Do(cfg, s, a), x, g)
  {
    hide LossBounded, PriceKnown, Exiting, Entering, LastPrice, LogAgrees, StateIsHistory, Orderly, AllowEntry;
    hide Steady, LossesBounded, Settled, SettledBefore, LastEntry, EntryCleared;
    match a {
      case Touch(_) =>
      case ResetDay(today) =>
        OtherObserved(cfg, s, Do(cfg, s, a), DayReset(EffectiveResets(s.perIndex, today)), x, g);
      case Restart(_) => QuietSnoc(cfg, s.history, Restarted, x, g);
      case TryEntry(y, gateTs, c) =>
        if EntryRuns(cfg, s, a) { EntryTracked(cfg, s, y, gateTs, c.value, x, g); }
      case CheckExit(y, _, check) =>
        if ExitCheckRuns(s, a) {
          if y == x { CloseTracked(cfg, s, x, check, g); } else { OtherClose(cfg, s, y, check, x, g); }
        }
    }
  }

  /** In every run every steady trade closes within the bound. */
  lemma {:induction false} RunTracked(cfg: Config, log: Log, now: int, actions: seq<Action>, x: string, g: real)
    ensures Tracked(cfg, Run(cfg, log, now, actions), x, g)
  {
    hide Do, LossBounded, LastPrice, PriceKnown, Inv, Reconcile;
    if actions == [] {
    } else {
      var before, a := actions[..|actions| - 1], actions[|actions| - 1];
      RunTracked(cfg, log, now, before, x, g);
      RunPreserves(cfg, log, now, before);
      DoTracked(cfg, |Reconcile(log, now)|, Run(cfg, log, now, before), a, x, g);
    }
  }

  /** An open position is the one last entered. */
  lemma {:induction false} OpenIsLastEntered(h: History, x: string)
    ensures OpenIn(h, x).Some? ==> LastEntry(h, x) >= 0 && h[LastEntry(h, x)].position == OpenIn(h, x).value
  {
    if h == [] {
    } else {
      OpenIsLastEntered(h[..|h| - 1], x);
    }
  }

  /**
   Worst-case trade loss, trade by trade, in every run: each close has its own entry, and
   if the prices at which that trade was looked at never fell by more than `g` from one
   look to the next, starting at its entry fill, it loses less than the rupee cap plus,
   per unit, the gap, the slippage and one tick, plus the exit fees. A trade may even have
   survived sales that raised, unless fee rate and slippage are both negative.
   */
  lemma WorstCaseLoss(cfg: Config, log: Log, now: int, actions: seq<Action>, j: int, x: string, g: real)
    requires var h := Run(cfg, log, now, actions).history; 0 <= j < |h| && h[j].Closed? && h[j].index == x
    ensures var h := Run(cfg, log, now, actions).history;
      var i, o := LastEntry(h[..j], x), h[j];
      && 0 <= i < j && h[i].Entered? && h[i].index == x && h[i].position == o.held
      && (SteadySince(h[..j], i, x, g) && Settled(cfg, h[..j - 1], i, x) ==>
            o.pnl > -(MaxReal(cfg.maxLoss, 0.0)
                      + (o.held.lots * o.held.lotSize) as real * (g + cfg.paper.Slip() * o.ltp + TICK)) - o.fill.fees)
  {
    hide Run, LastPrice, Tracked, SteadySince, Settled;
    var h := Run(cfg, log, now, actions).history;
    RunTracked(cfg, log, now, actions, x, g);
    ClosedWasEntered(cfg, log, now, actions, j);
    assert h[..j][..j - 1] == h[..j - 1];
    if Steady(h[..j], x, g) && SettledBefore(cfg, h[..j], x) { TrackedAt(cfg, Run(cfg, log, now, actions), j, x, g); }
  }

  lemma TrackedAt(cfg: Config, s: Engine, j: int, x: string, g: real)
    requires Tracked(cfg, s, x, g) && 0 <= j < |s.history| && Steady(s.history[..j], x, g)
    requires SettledBefore(cfg, s.history[..j], x)
    ensures LossBounded(cfg, s.history[j], x, g)
  {
    hide LossBounded, Steady, AllKnown, Settled, SettledBefore;
  }

  lemma ClosedWasEntered(cfg: Config, log: Log, now: int, actions: seq<Action>, j: int)
    requires 0 <= j < |Run(cfg, log, now, actions).history| && Run(cfg, log, now, actions).history[j].Closed?
    ensures var h := Run(cfg, log, now, actions).history;
      var i := LastEntry(h[..j], h[j].index);
      0 <= i < j && h[i].Entered? && h[i].index == h[j].index && h[i].position == h[j].held
  {
    hide Run, OpenIn, HaltedBy, Streak, LastLossTs, WithinEntryWindow;
    var h := Run(cfg, log, now, actions).history;
    RunLawful(cfg, log, now, actions);
    assert LawfulAt(cfg, h[..j], h[j]);
    OpenIsLastEntered(h[..j], h[j].index);
  }

  /**
   Unless both settings are negative: when no evaluated price of the index ever gaps by
   more than `g`, every close of the run is bounded.
   */
  lemma WorstCaseLossOfRun(cfg: Config, log: Log, now: int, actions: seq<Action>, x: string, g: real)
    requires SteadySince(Run(cfg, log, now, actions).history, -1, x, g) && OneSideFair(cfg.paper)
    ensures var h := Run(cfg, log, now, actions).history;
      forall j :: 0 <= j < |h| ==> LossBounded(cfg, h[j], x, g)
  {
    hide Run, LastPrice, LossBounded;
    var h := Run(cfg, log, now, actions).history;
    RunTracked(cfg, log, now, actions, x, g);
    forall j | 0 <= j < |h| ensures LossBounded(cfg, h[j], x, g) {
      SteadyPrefix(h, j, x, g);
    }
  }

  lemma SteadyPrefix(h: History, j: int, x: string, g: real)
    requires 0 <= j <= |h| && SteadySince(h, -1, x, g)
    ensures Steady(h[..j], x, g)
  {
    hide LastPrice;
    forall k | 0 <= k < j && h[k].Evaluated? && h[k].index == x ensures h[..j][k].ltp >= LastPrice(h[..j][..k], x) - g {
      assert h[..j][..k] == h[..k] && h[..j][k] == h[k];
    }
  }

  // ---- both settings negative: a run beyond the bound ----

  const REBATED := DEMO.(maxLoss := 100.0, paper := PE.Executor(-1000.0, -100.0, 36.0))
  const REBATED_CANDIDATE := DEMO_CANDIDATE.(ltp := 200.0)
  const REBATED_ENTRY := OptionTick("SENSEX", ExitCheck(None, 0, 0, 0), NOON, Some(REBATED_CANDIDATE))

  function Look(ltp: real): Action {
    CheckExit("SENSEX", None, ExitCheck(Some(DEMO_QUOTE.(ltp := ltp)), NOON + 2, NOON + 2, NOON + 2))
  }

  /**
   Bought at 180 from a quote of 200, looked at at 170 and at 160. At 170 the cap is hit and
   the sale raises over its negative fee, at 160 it goes through: the loss is 80.80 where
   the bound for gaps of 10 promises a profit.
   */
  lemma RaisedSaleBreaksBound()
    ensures var h := Run(REBATED, [], 0, REBATED_ENTRY + [Look(170.0)] + [Look(160.0)]).history;
      && |h| == 4 && SteadySince(h[..3], 0, "SENSEX", 10.0) && h[3].Closed? && h[3].index == "SENSEX"
      && h[3].pnl == -80.8 && !LossBounded(REBATED, h[3], "SENSEX", 10.0)
  {
    var x, start := "SENSEX", Boot([], 0);
    DoAllConcat(REBATED, start, REBATED_ENTRY, [Look(170.0)]);
    DoAllConcat(REBATED, start, REBATED_ENTRY + [Look(170.0)], [Look(160.0)]);
    var s := DoAll(REBATED, start, REBATED_ENTRY);
    RebatedEnters();
    DoOne(REBATED, s, Look(170.0));
    RebatedRaises(s);
    var t := Do(REBATED, s, Look(170.0));
    DoOne(REBATED, t, Look(160.0));
    RebatedSells(t, s);
    hide DoAll, Do, LossBounded, RebatedHeld;
    SteadyLooks(Do(REBATED, t, Look(160.0)).history, s);
  }

  lemma DoOne(cfg: Config, s: Engine, a: Action)
    ensures DoAll(cfg, s, [a]) == Do(cfg, s, a)
  {
    assert [a][..0] == [];
  }

  ghost predicate RebatedHeld(s: Engine) {
    && "SENSEX" in s.perIndex && s.perIndex["SENSEX"].position.Some?
    && var p := s.perIndex["SENSEX"].position.value;
      p.entryLtp == 180.0 && p.lots == 1 && p.lotSize == 20
  }

  lemma RebatedEnters()
    ensures var s := DoAll(REBATED, Boot([], 0), REBATED_ENTRY);
      && RebatedHeld(s) && |s.history| == 1 && s.history[0].Entered?
      && s.history[0].index == "SENSEX" && s.history[0].position.entryLtp == 180.0
  {
    var x, s := "SENSEX", Boot([], 0);
    hide BuildExitLevels, PE.Executor.Submit, Reconcile, DoAll, Exiting;
    DoThree(REBATED, s, Touch(x), CheckExit(x, None, ExitCheck(None, 0, 0, 0)),
            TryEntry(x, NOON, Some(REBATED_CANDIDATE)));
    var touched := Do(REBATED, s, Touch(x));
    assert touched.perIndex == map[x := FRESH] && OpenIndices(touched.perIndex) == {};
    assert AllowEntry(REBATED, touched.perIndex, x, NOON) == Allowed;
    hide AllowEntry;
    RebatedFills();
    assert BuyOrder(REBATED, x, REBATED_CANDIDATE) == PE.Order(PE.BUY, 20, 200.0);
  }

  lemma RebatedRaises(s: Engine)
    requires RebatedHeld(s)
    ensures Do(REBATED, s, Look(170.0)) == s.(history := s.history + [Evaluated("SENSEX", 170.0, Some(DollarStop))])
  {
    hide PE.Executor.Submit;
    RebatedFills();
    var p := s.perIndex["SENSEX"].position.value;
    assert Evaluate(p, DEMO_QUOTE.(ltp := 170.0), 100.0, 5.0) == Some(DollarStop);
    hide Evaluate;
    assert SellOrder(p, 170.0) == PE.Order(PE.SELL, 20, 170.0);
  }

  lemma RebatedSells(t: Engine, s: Engine)
    requires RebatedHeld(s) && t.perIndex == s.perIndex
    requires t.history == s.history + [Evaluated("SENSEX", 170.0, Some(DollarStop))]
    ensures var h := Do(REBATED, t, Look(160.0)).history;
      && |h| == |t.history| + 2 && h[..|t.history|] == t.history
      && h[|t.history|] == Evaluated("SENSEX", 160.0, Some(DollarStop))
      && h[|t.history| + 1].Closed? && h[|t.history| + 1].index == "SENSEX"
      && h[|t.history| + 1].pnl == -80.8 && !LossBounded(REBATED, h[|t.history| + 1], "SENSEX", 10.0)
  {
    hide PE.Executor.Submit;
    RebatedFills();
    var p := s.perIndex["SENSEX"].position.value;
    assert Evaluate(p, DEMO_QUOTE.(ltp := 160.0), 100.0, 5.0) == Some(DollarStop);
    hide Evaluate;
    assert SellOrder(p, 160.0) == PE.Order(PE.SELL, 20, 160.0);
    assert Pnl(p, PE.Fill(PE.S, 20, 176.0, 0.8)) == -80.8;
    assert REBATED.paper.Slip() == -0.1;
  }

  lemma RebatedFills()
    ensures REBATED.paper.Submit(PE.Order(PE.BUY, 20, 200.0)) == PE.Filled(PE.Fill(PE.B, 20, 180.0, 0.0))
    ensures REBATED.paper.Submit(PE.Order(PE.SELL, 20, 170.0)).Raised?
    ensures REBATED.paper.Submit(PE.Order(PE.SELL, 20, 160.0)) == PE.Filled(PE.Fill(PE.S, 20, 176.0, 0.8))
  {
    var ex := REBATED.paper;
    PE.SnapWhole(3600); PE.SnapWhole(3740); PE.SnapWhole(3520);
    assert ex.Slip() == -0.1;
    assert ex.Slipped(PE.Order(PE.BUY, 20, 200.0)) == 180.0;
    assert ex.Slipped(PE.Order(PE.SELL, 20, 170.0)) == 187.0;
    assert ex.Slipped(PE.Order(PE.SELL, 20, 160.0)) == 176.0;
    RebatedFees();
    hide PE.SnapFill, PE.Executor.Fees, PE.Executor.Slipped;
  }

  lemma RebatedFees()
    ensures REBATED.paper.Fees(PE.Gross(180.0, 20)) == 0.0
    ensures REBATED.paper.Fees(PE.Gross(187.0, 20)) < 0.0
    ensures REBATED.paper.Fees(PE.Gross(176.0, 20)) == 0.8
  {
    var ex := REBATED.paper;
    assert ex.feeBps / 10_000.0 == -0.01;
    assert ex.Charge(3600.0) == 0.0 && ex.Charge(3740.0) == -1.4 && ex.Charge(3520.0) == 0.8;
    WholeFloor(0, 0.0); WholeFloor(-14_000, -14_000.0); WholeFloor(8_000, 8_000.0);
  }

  lemma SteadyLooks(h: History, s: Engine)
    requires |s.history| == 1 && s.history[0].Entered?
    requires s.history[0].index == "SENSEX" && s.history[0].position.entryLtp == 180.0
    requires |h| == 4 && h[..2] == s.history + [Evaluated("SENSEX", 170.0, Some(DollarStop))]
    requires h[2] == Evaluated("SENSEX", 160.0, Some(DollarStop))
    ensures SteadySince(h[..3], 0, "SENSEX", 10.0)
  {
    assert h[0] == s.history[0] && h[..2][1] == h[1];
    assert h[..3][..1] == h[..1] && h[..3][..2] == h[..2] && h[..1][..0] == [] && h[..2][..1] == h[..1];
    assert LastPrice(h[..1], "SENSEX") == 180.0 && LastPrice(h[..2], "SENSEX") == 170.0;
  }
}
