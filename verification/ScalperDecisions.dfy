/** What each scalper action does, stated on its inputs and effects rather than on its steps. */
module ScalperDecisions {
  import opened Common
  import opened Rounding
  import PE = PaperExecution
  import PB = PositionBook
  import opened ExitRules
  import opened TradeLog
  import opened Scalper
  import opened ScalperSafety
  import opened ScalperRuns
  import opened ScalperLedger

  // ---- the entry window ----

  /**
   Entries are open from 09:15 plus to 15:30 minus the configured minutes, both included,
   Indian time. Minutes that leave their hour make the window raise.
   */
  lemma WindowIff(cfg: Config, ts: int)
    ensures WithinEntryWindow(cfg, ts) == None
            <==> cfg.openMin < -15 || cfg.openMin > 44 || cfg.closeMin < -29 || cfg.closeMin > 30
    ensures WithinEntryWindow(cfg, ts).Some? ==>
              (WithinEntryWindow(cfg, ts).value
               <==> 555.0 + cfg.openMin as real <= MinuteOfDay(ts) <= 930.0 - cfg.closeMin as real)
  {}

  // ---- entries ----

  /** The units one lot of an index stands for. */
  predicate IsContract(x: string, units: int) {
    || (x == "NIFTY50" && units == 75)
    || (x == "BANKNIFTY" && units == 30)
    || (x == "SENSEX" && units == 20)
    || (x !in {"NIFTY50", "BANKNIFTY", "SENSEX"} && units == 1)
  }

  /** The buy order of an entry: the configured lots, at least one unit, at the quoted price. */
  ghost predicate IsEntryOrder(cfg: Config, x: string, c: Candidate, order: PE.Order)
    requires x in cfg.lots
  {
    && order.action == PE.BUY && order.refPrice == c.ltp
    && (forall units: int :: IsContract(x, units) ==>
          order.qty == if cfg.lots[x] * units >= 1 then cfg.lots[x] * units else 1)
  }

  /** A position opened by candidate `c` at price `price`. */
  ghost predicate OpenedBy(cfg: Config, x: string, c: Candidate, price: real, p: Position)
    requires x in cfg.lots
  {
    && p.index == x && p.strike == c.strike && p.optionType == c.side
    && p.lots == cfg.lots[x] && IsContract(x, p.lotSize)
    && p.entryLtp == price && p.entryTs == c.fillTs
    && p.entryResistance == c.resistance && p.entrySupport == c.support
    && p.timeStop - c.levelsTs == 1000 * cfg.timeStopS
    && p.target == BuildExitLevels(c.ltp, cfg.maxLoss, p.lots, p.lotSize, 0, 0).target
    && p.stop == BuildExitLevels(c.ltp, cfg.maxLoss, p.lots, p.lotSize, 0, 0).stop
  }

  lemma OrderIs(cfg: Config, x: string, c: Candidate)
    requires x in cfg.lots
    ensures IsContract(x, LotSize(x)) && IsEntryOrder(cfg, x, c, BuyOrder(cfg, x, c))
    ensures forall order :: IsEntryOrder(cfg, x, c, order) ==> order == BuyOrder(cfg, x, c)
  {
    forall order | IsEntryOrder(cfg, x, c, order) ensures order == BuyOrder(cfg, x, c) {
      assert IsContract(x, LotSize(x));
    }
  }

  /**
   What an entry attempt does. With lots configured, a candidate and the gate open, its
   order decides: a fill opens exactly the position the candidate describes and logs it, a
   rejection is logged and a raise does nothing. Otherwise nothing happens at all.
   */
  lemma EntryMeans(cfg: Config, s: Engine, a: Action, order: PE.Order)
    requires a.TryEntry? && a.candidate.Some?
    requires a.index in cfg.lots ==> IsEntryOrder(cfg, a.index, a.candidate.value, order)
    ensures var t, x, c, outcome := Do(cfg, s, a), a.index, a.candidate.value, cfg.paper.Submit(order);
      if x !in cfg.lots || AllowEntry(cfg, s.perIndex, x, a.gateTs) != Allowed || outcome.Raised? then t == s
      else if outcome.Rejected? then
        t == s.(log := s.log + [EntryRejected(Key(x, c.strike, c.side), c.logTs)])
      else
        exists p ::
          && OpenedBy(cfg, x, c, outcome.fill.price, p)
          && t.perIndex == s.perIndex[x := StateOf(s.perIndex, x).(position := Some(p))]
          && t.log == s.log + [Entry(Key(x, c.strike, c.side), c.logTs, cfg.lots[x], order.qty,
                                     outcome.fill.price, p.target, p.stop)]
          && t.history == s.history + [Entered(x, a.gateTs, c.ltp, p)]
  {
    if a.index in cfg.lots {
      OrderIs(cfg, a.index, a.candidate.value);
      hide PE.Executor.Submit, AllowEntry, BuildExitLevels, IsEntryOrder;
      var outcome := cfg.paper.Submit(order);
      if outcome.Filled? {
        FilledOpens(cfg, a.index, a.candidate.value, outcome.fill.price);
      }
    }
  }

  lemma FilledOpens(cfg: Config, x: string, c: Candidate, price: real)
    requires x in cfg.lots
    ensures OpenedBy(cfg, x, c, price, NewPosition(cfg, x, c, price))
  {
    hide CeilTick, FloorTick, StopBuffer;
  }

  /** Without a candidate nothing happens. */
  lemma NoCandidateNoEntry(cfg: Config, s: Engine, a: Action)
    requires a.TryEntry? && a.candidate == None
    ensures Do(cfg, s, a) == s
  {}

  // ---- exits ----

  /** The exit event and profit of selling `p` in full. */
  ghost predicate ClosedBy(cfg: Config, p: Position, ltp: real, check: ExitCheck, e: Event) {
    && e.Exit? && e.key == Key(p.index, p.strike, p.optionType) && !e.reconciled
    && e.ts == check.logTs && e.heldMs == check.fillTs - p.entryTs && e.entryLtp == p.entryLtp
    && cfg.paper.Net(ltp) - TICK < e.exitLtp <= cfg.paper.Net(ltp)
    && Abs(e.pnl - (Gain(p, e.exitLtp) - cfg.paper.Charge(PE.Gross(e.exitLtp, p.lots * p.lotSize)))) <= 0.00005
  }

  /** What the units held gain from the entry price to `price`. */
  function Gain(p: Position, price: real): real { (price - p.entryLtp) * (p.lots * p.lotSize) as real }

  lemma PnlIsGain(p: Position, f: PE.Fill)
    ensures Pnl(p, f) == Gain(p, f.price) - f.fees
  {}

  /**
   What a usable look does: it closes the position, with one exit in the log at its fill
   and profit, exactly when the quote is not one to hold at and the quantity can be sold.
   */
  lemma LookClosesIff(cfg: Config, s: Engine, a: Action)
    requires a.CheckExit? && ExitCheckRuns(s, a)
    ensures var t, p, q := Do(cfg, s, a), s.perIndex[a.index].position.value, a.check.quote.value;
      var due, sellable := !Holds(p, q, cfg.maxLoss, cfg.hysteresis), CanSell(cfg, p, q.ltp);
      && (t.perIndex[a.index].position == None <==> due && sellable)
      && (due && sellable ==>
            |t.log| == |s.log| + 1 && s.log <= t.log && ClosedBy(cfg, p, q.ltp, a.check, t.log[|s.log|]))
      && (!(due && sellable) ==> t.log == s.log && t.perIndex == s.perIndex)
      && (forall y :: y != a.index ==> (y in t.perIndex <==> y in s.perIndex))
      && (forall y :: y != a.index && y in s.perIndex ==> t.perIndex[y] == s.perIndex[y])
  {
    var p, q := s.perIndex[a.index].position.value, a.check.quote.value;
    HeldIff(p, q, cfg.maxLoss, cfg.hysteresis);
    PE.SaleFillsIff(cfg.paper, SellOrder(p, q.ltp));
    var sold := cfg.paper.Submit(SellOrder(p, q.ltp));
    if sold.Filled? { SaleCloses(cfg, p, q.ltp, a.check, sold.fill); }
    hide Evaluate, Holds, PE.Executor.Submit, PE.SaleClears, ClosedBy, Pnl;
  }

  lemma SaleCloses(cfg: Config, p: Position, ltp: real, check: ExitCheck, f: PE.Fill)
    requires cfg.paper.Submit(SellOrder(p, ltp)) == PE.Filled(f)
    ensures ClosedBy(cfg, p, ltp, check, ExitEvent(p, f, check))
  {
    PE.FillBracket(cfg.paper, SellOrder(p, ltp));
    PE.FillCharged(cfg.paper, SellOrder(p, ltp));
    PnlIsGain(p, f);
    hide Pnl, Gain, PE.Executor.Submit, PE.SnapFill, PE.Executor.Charge, PE.Gross, PE.Executor.Net;
  }

  /** At or above the target a usable look closes the position exactly when it can be sold. */
  lemma TargetIsClosedIff(cfg: Config, s: Engine, a: Action)
    requires a.CheckExit? && ExitCheckRuns(s, a)
    requires a.check.quote.value.ltp >= s.perIndex[a.index].position.value.target
    ensures Do(cfg, s, a).perIndex[a.index].position == None
            <==> CanSell(cfg, s.perIndex[a.index].position.value, a.check.quote.value.ltp)
  {
    hide Do, CanSell;
    LookClosesIff(cfg, s, a);
  }

  /** Without a usable quote, without a position, or early on the timer, nothing happens at all. */
  lemma NotLookedAt(cfg: Config, s: Engine, a: Action)
    requires a.CheckExit?
    requires a.index !in s.perIndex || s.perIndex[a.index].position == None
             || a.check.quote == None || a.check.quote.value.ltp <= 0.0
             || (a.clock.Some? && a.clock.value < s.perIndex[a.index].position.value.timeStop)
    ensures Do(cfg, s, a) == s
  {}

  /** The profit of a close is what an average-cost book realizes on selling the whole position. */
  lemma PnlIsBookProfit(p: Position, f: PE.Fill, realized: real)
    requires f.side == PE.S && f.qty == p.lots * p.lotSize > 0
    ensures Pnl(p, f) == PB.DeltaRealized(PB.Position(f.qty, p.entryLtp, realized), f)
  {}

  // ---- the order of things within a tick ----

  /** An index tick resets the day first, may then look and close, and never enters. */
  lemma IndexTickOrder(cfg: Config, s: Engine, x: string, today: string, check: ExitCheck)
    ensures var h, n := DoAll(cfg, s, IndexTick(x, today, check)).history, |s.history|;
      && s.history <= h && n + 1 <= |h| <= n + 3 && h[n].DayReset?
      && (|h| > n + 1 ==> h[n + 1].Evaluated?) && (|h| > n + 2 ==> h[n + 2].Closed?)
  {
    hide Evaluate, Pnl, PE.Executor.Submit;
    DoThree(cfg, s, ResetDay(today), Touch(x), CheckExit(x, None, check));
    hide DoAll;
  }

  /** An option tick looks and closes first; an entry comes last, so it is not looked at in its own tick. */
  lemma OptionTickOrder(cfg: Config, s: Engine, x: string, check: ExitCheck, gateTs: int, c: Option<Candidate>)
    ensures var h, n := DoAll(cfg, s, OptionTick(x, check, gateTs, c)).history, |s.history|;
      && s.history <= h && |h| <= n + 3
      && (forall i :: n <= i < |h| && h[i].Entered? ==> i == |h| - 1)
      && (forall i :: n <= i < |h| && h[i].Evaluated? ==> i == n)
      && (forall i :: n <= i < |h| && h[i].Closed? ==> i == n + 1 && h[n].Evaluated?)
      && (forall i :: n <= i < |h| ==> h[i].Entered? || h[i].Evaluated? || h[i].Closed?)
  {
    DoThree(cfg, s, Touch(x), CheckExit(x, None, check), TryEntry(x, gateTs, c));
    hide DoAll, Do;
    var s1 := Do(cfg, s, Touch(x));
    var s2 := Do(cfg, s1, CheckExit(x, None, check));
    TouchAdds(cfg, s, x);
    LookAdds(cfg, s1, CheckExit(x, None, check));
    EntryAdds(cfg, s2, TryEntry(x, gateTs, c));
  }

  lemma TouchAdds(cfg: Config, s: Engine, x: string)
    ensures Do(cfg, s, Touch(x)).history == s.history
  {}

  lemma LookAdds(cfg: Config, s: Engine, a: Action)
    requires a.CheckExit?
    ensures var h, n := Do(cfg, s, a).history, |s.history|;
      s.history <= h && |h| <= n + 2 && (|h| > n ==> h[n].Evaluated?) && (|h| > n + 1 ==> h[n + 1].Closed?)
  {
    hide Evaluate, Pnl, PE.Executor.Submit;
  }

  lemma EntryAdds(cfg: Config, s: Engine, a: Action)
    requires a.TryEntry?
    ensures var h, n := Do(cfg, s, a).history, |s.history|;
      s.history <= h && |h| <= n + 1 && (|h| > n ==> h[n].Entered?)
  {
    hide AllowEntry, PE.Executor.Submit, NewPosition;
  }
}
