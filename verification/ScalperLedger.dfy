/** Profit booked in the trade log, and when an overdue position really is closed. */
module ScalperLedger {
  import opened Common
  import opened Rounding
  import PE = PaperExecution
  import opened ExitRules
  import opened TradeLog
  import opened Scalper
  import opened ScalperSafety
  import opened ScalperRuns
  import opened ScalperLoss

  // ---- the log books exactly the profit that memory saw ----

  /** Profits on the log's own exits, in order; a reconciled exit is not a trade. */
  function BookedPnls(log: Log): seq<real> {
    if log == [] then []
    else
      var e := log[|log| - 1];
      if e.Exit? && !e.reconciled then BookedPnls(log[..|log| - 1]) + [e.pnl] else BookedPnls(log[..|log| - 1])
  }

  /** Profits the risk bookkeeping was told of, in order. */
  function ClosedPnls(h: History): seq<real> {
    if h == [] then []
    else
      var o := h[|h| - 1];
      if o.Closed? then ClosedPnls(h[..|h| - 1]) + [o.pnl] else ClosedPnls(h[..|h| - 1])
  }

  lemma BookedSnoc(log: Log, e: Event)
    ensures BookedPnls(log + [e])
            == if e.Exit? && !e.reconciled then BookedPnls(log) + [e.pnl] else BookedPnls(log)
  {
    assert (log + [e])[..|log|] == log;
  }

  lemma ClosedSnoc(h: History, o: Observation)
    ensures ClosedPnls(h + [o]) == if o.Closed? then ClosedPnls(h) + [o.pnl] else ClosedPnls(h)
  {
    assert (h + [o])[..|h|] == h;
  }

  lemma {:induction false} ReconcileBooksNothing(log: Log, extra: Log)
    requires forall i :: 0 <= i < |extra| ==> extra[i].Exit? && extra[i].reconciled
    ensures BookedPnls(log + extra) == BookedPnls(log)
  {
    if extra == [] {
      assert log + extra == log;
    } else {
      var n := |extra| - 1;
      ReconcileBooksNothing(log, extra[..n]);
      BookedSnoc(log + extra[..n], extra[n]);
      assert log + extra[..n] + [extra[n]] == log + extra;
    }
  }

  lemma SyntheticAreReconciled(log: Log, now: int)
    ensures forall i :: 0 <= i < |Synthetic(log, now)| ==>
              Synthetic(log, now)[i].Exit? && Synthetic(log, now)[i].reconciled
  {
    ItemsAreEntries(log);
  }

  /** `s` has booked `past`, and since then exactly the closes of its history. */
  predicate Booked(past: seq<real>, s: Engine) { BookedPnls(s.log) == past + ClosedPnls(s.history) }

  lemma DoBooks(cfg: Config, past: seq<real>, s: Engine, a: Action)
    requires Booked(past, s)
    ensures Booked(past, Do(cfg, s, a))
  {
    hide Pnl, Evaluate, AllowEntry, PE.Executor.Submit, Reconcile, BookedPnls, ClosedPnls;
    match a {
      case Touch(_) =>
      case ResetDay(today) => ClosedSnoc(s.history, DayReset(EffectiveResets(s.perIndex, today)));
      case Restart(now) =>
        RestartBooks(s.log, now);
        ClosedSnoc(s.history, Restarted);
      case TryEntry(x, gateTs, c) =>
        if EntryRuns(cfg, s, a) { EntryBooks(cfg, past, s, x, gateTs, c.value); }
      case CheckExit(x, _, check) =>
        if ExitCheckRuns(s, a) { ExitBooks(cfg, past, s, x, check); }
    }
  }

  lemma RestartBooks(log: Log, now: int)
    ensures BookedPnls(Reconcile(log, now)) == BookedPnls(log)
  {
    SyntheticAreReconciled(log, now);
    ReconcileBooksNothing(log, Synthetic(log, now));
  }

  lemma EntryBooks(cfg: Config, past: seq<real>, s: Engine, x: string, gateTs: int, c: Candidate)
    requires Booked(past, s) && x in cfg.lots
    ensures Booked(past, Entering(cfg, s, x, gateTs, c))
  {
    hide PE.Executor.Submit, BuildExitLevels, BookedPnls, ClosedPnls;
    match cfg.paper.Submit(BuyOrder(cfg, x, c)) {
      case Filled(f) =>
        var pos := NewPosition(cfg, x, c, f.price);
        BookedSnoc(s.log, EntryEvent(pos, c.logTs));
        ClosedSnoc(s.history, Entered(x, gateTs, c.ltp, pos));
      case Rejected(_) => BookedSnoc(s.log, EntryRejected(Key(x, c.strike, c.side), c.logTs));
      case Raised =>
    }
  }

  lemma ExitBooks(cfg: Config, past: seq<real>, s: Engine, x: string, check: ExitCheck)
    requires Booked(past, s) && x in s.perIndex && s.perIndex[x].position.Some?
    requires check.quote.Some?
    ensures Booked(past, Exiting(cfg, s, x, s.perIndex[x].position.value, check.quote.value, check))
  {
    hide Pnl, PE.Executor.Submit, Evaluate, BookedPnls, ClosedPnls;
    var pos, q := s.perIndex[x].position.value, check.quote.value;
    var t := Exiting(cfg, s, x, pos, q, check);
    var o := Evaluated(x, q.ltp, Evaluate(pos, q, cfg.maxLoss, cfg.hysteresis));
    ClosedSnoc(s.history, o);
    if t.log != s.log {
      BookedSnoc(s.log, t.log[|s.log|]);
      ClosedSnoc(s.history + [o], t.history[|s.history| + 1]);
    }
  }

  /**
   Over any run the log books the profits of exactly the closes that the risk state saw,
   in order, on top of what it had booked before startup; restarts and the exits they
   write book nothing.
   */
  lemma {:induction false} LogBooksEveryClose(cfg: Config, log: Log, now: int, actions: seq<Action>)
    ensures BookedPnls(Run(cfg, log, now, actions).log)
         == BookedPnls(log) + ClosedPnls(Run(cfg, log, now, actions).history)
  {
    hide Do, Reconcile;
    if actions == [] {
      RestartBooks(log, now);
      assert BookedPnls(log) + [] == BookedPnls(log);
    } else {
      LogBooksEveryClose(cfg, log, now, actions[..|actions| - 1]);
      DoBooks(cfg, BookedPnls(log), Run(cfg, log, now, actions[..|actions| - 1]), actions[|actions| - 1]);
    }
  }

  // ---- an overdue position is closed, if it can be sold at all ----

  /** The held quantity can be sold at this price. */
  predicate CanSell(cfg: Config, pos: Position, ltp: real) {
    PE.SaleClears(cfg.paper, pos.lots * pos.lotSize, ltp)
  }

  /**
   The timer's look at an overdue position whose instrument has a quote closes it, with
   one exit in the log, exactly when the held quantity can be sold at that price; else the
   sale raises and nothing but the evaluation happens.
   */
  lemma OverdueIsClosedIff(cfg: Config, s: Engine, x: string, now: int, check: ExitCheck)
    requires x in s.perIndex && s.perIndex[x].position.Some?
    requires check.quote.Some? && check.quote.value.ltp > 0.0
    requires s.perIndex[x].position.value.timeStop <= now <= check.quote.value.now
    ensures var pos, a := s.perIndex[x].position.value, CheckExit(x, Some(now), check);
      var t, sellable := Do(cfg, s, a), CanSell(cfg, pos, check.quote.value.ltp);
      && (t.perIndex[x].position == None <==> sellable)
      && (ExitRaises(cfg, s, a) <==> !sellable)
      && |t.log| == |s.log| + (if sellable then 1 else 0)
      && (sellable ==> t.log[|s.log|].Exit? && t.log[|s.log|].key == KeyOf(pos) && KeyOf(pos) !in OpenMap(t.log))
      && (!sellable ==> t.log == s.log && t.perIndex == s.perIndex)
  {
    hide Pnl, OpenMap, PE.Executor.Submit, PE.SaleClears;
    var pos, q := s.perIndex[x].position.value, check.quote.value;
    PE.SaleFillsIff(cfg.paper, SellOrder(pos, q.ltp));
    assert Evaluate(pos, q, cfg.maxLoss, cfg.hysteresis) != None;
    hide Evaluate;
    var sold := cfg.paper.Submit(SellOrder(pos, q.ltp));
    if sold.Filled? { OpenMapSnoc(s.log, ExitEvent(pos, sold.fill, check)); }
  }

  // ---- a position of no lots is never closed ----

  /**
   A position that holds no positive quantity outlives everything but a restart: every
   sale of it raises, at any price.
   */
  lemma {:induction false} NoLotsNeverClosed(cfg: Config, s: Engine, x: string, pos: Position, actions: seq<Action>)
    requires x in s.perIndex && s.perIndex[x].position == Some(pos) && pos.lots * pos.lotSize <= 0
    requires forall i :: 0 <= i < |actions| ==> !actions[i].Restart?
    ensures var t := DoAll(cfg, s, actions);
      x in t.perIndex && t.perIndex[x].position == Some(pos)
  {
    if actions == [] {
    } else {
      var before, a := actions[..|actions| - 1], actions[|actions| - 1];
      NoLotsNeverClosed(cfg, s, x, pos, before);
      hide DoAll;
      DoKeepsNoLots(cfg, DoAll(cfg, s, before), x, pos, a);
    }
  }

  lemma DoKeepsNoLots(cfg: Config, s: Engine, x: string, pos: Position, a: Action)
    requires x in s.perIndex && s.perIndex[x].position == Some(pos) && pos.lots * pos.lotSize <= 0
    requires !a.Restart?
    ensures var t := Do(cfg, s, a);
      x in t.perIndex && t.perIndex[x].position == Some(pos)
  {
    hide PE.Executor.Submit, Evaluate, Pnl, BuildExitLevels;
    if a.CheckExit? && a.index == x && ExitCheckRuns(s, a) {
      NoLotsRaise(cfg, pos, a.check.quote.value.ltp);
    }
  }

  lemma NoLotsRaise(cfg: Config, pos: Position, ltp: real)
    requires pos.lots * pos.lotSize <= 0
    ensures cfg.paper.Submit(SellOrder(pos, ltp)).Raised?
  {}

  /** Lots configured as zero: the entry buys one unit and leaves a position of none. */
  const NO_LOTS := DEMO.(lots := map["SENSEX" := 0])

  lemma NoLotsOpens()
    ensures var s := DoAll(NO_LOTS, Boot([], 0), DEMO_ENTRY);
      && "SENSEX" in s.perIndex && s.perIndex["SENSEX"].position.Some?
      && s.perIndex["SENSEX"].position.value.lots * s.perIndex["SENSEX"].position.value.lotSize == 0
      && |s.log| == 1 && s.log[0].Entry? && s.log[0].qty == 1
  {
    var x, s := "SENSEX", Boot([], 0);
    hide BuildExitLevels, PE.Executor.Submit, DoAll, Exiting, Synthetic;
    DoThree(NO_LOTS, s, Touch(x), CheckExit(x, None, ExitCheck(None, 0, 0, 0)),
            TryEntry(x, NOON, Some(DEMO_CANDIDATE)));
    var touched := Do(NO_LOTS, s, Touch(x));
    assert touched.perIndex == map[x := FRESH] && OpenIndices(touched.perIndex) == {};
    assert AllowEntry(NO_LOTS, touched.perIndex, x, NOON) == Allowed;
    hide AllowEntry;
    SyntheticLength([], 0);
    PE.FreeFill(PE.Order(PE.BUY, 1, 100.0), 2000);
    assert BuyOrder(NO_LOTS, x, DEMO_CANDIDATE) == PE.Order(PE.BUY, 1, 100.0);
  }

  // ---- a crash in the middle of an action ----

  /** A crash during `a` from `s` leaves this log behind: some of what the action would have written. */
  predicate LeftBehind(cfg: Config, s: Engine, a: Action, partial: Log) {
    s.log <= partial <= Do(cfg, s, a).log
  }

  /** Every action but a restart writes at most one event. */
  lemma WritesAtMostOne(cfg: Config, s: Engine, a: Action)
    requires !a.Restart?
    ensures s.log <= Do(cfg, s, a).log && |Do(cfg, s, a).log| <= |s.log| + 1
  {
    hide Pnl, Evaluate, AllowEntry, PE.Executor.Submit, BuildExitLevels;
  }

  /**
   A crash inside an action is never worse than one at its edge: restarting from what it
   left behind, even from a repair that was itself cut short, gives an orderly log with
   nothing open, and outside a repair exactly the log of a restart before or after the action.
   */
  lemma CrashInsideAction(cfg: Config, start: nat, s: Engine, a: Action, partial: Log, now: int)
    requires Inv(cfg, start, s) && LeftBehind(cfg, s, a, partial)
    ensures OpenMap(Reconcile(partial, now)) == map[] && Orderly(Reconcile(partial, now), start)
    ensures BookedPnls(Reconcile(partial, now)) in {BookedPnls(s.log), BookedPnls(Do(cfg, s, a).log)}
    ensures !a.Restart? ==>
              Reconcile(partial, now) in {Do(cfg, s, Restart(now)).log, Do(cfg, Do(cfg, s, a), Restart(now)).log}
  {
    hide Orderly, OpenMap, Exiting, Entering, BookedPnls;
    ReconcileClosesAll(partial, now);
    RestartBooks(partial, now);
    if a.Restart? {
      CutShort(s.log, a.now, partial);
      OrderlySynthetic(s.log, start, a.now, |partial| - |s.log|);
      ReconcileBooksNothing(s.log, partial[|s.log|..]) by { SyntheticAreReconciled(s.log, a.now); }
      assert partial == s.log + partial[|s.log|..];
    } else {
      WritesAtMostOne(cfg, s, a);
      DoPreserves(cfg, start, s, a);
      assert partial == s.log || partial == Do(cfg, s, a).log;
    }
    OrderlyReconcile(partial, start, now);
  }

  lemma CutShort(log: Log, now: int, partial: Log)
    requires log <= partial <= Reconcile(log, now)
    ensures |partial| - |log| <= |Synthetic(log, now)|
    ensures partial == log + Synthetic(log, now)[..|partial| - |log|]
  {
    hide Synthetic;
  }
}
