/**
 What holds over every run of the scalper: the risk state is a function of what
 happened, the log agrees with memory, the caps and halts are respected.
 */
module ScalperSafety {
  import opened Common
  import PE = PaperExecution
  import opened ExitRules
  import opened TradeLog
  import opened Scalper

  // ---- reading the history ----

  type History = seq<Observation>

  /** A restart or an effective day reset wipes the counters of `x`. */
  predicate Clears(o: Observation, x: string) {
    o.Restarted? || (o.DayReset? && x in o.indices)
  }

  predicate LossOf(o: Observation, x: string) { o.Closed? && o.index == x && o.pnl < 0.0 }

  predicate BigLossOf(cfg: Config, o: Observation, x: string) { LossOf(o, x) && -o.pnl >= cfg.bigLoss }

  function LastLossTs(h: History, x: string): int {
    if h == [] then 0
    else
      var o := h[|h| - 1];
      if Clears(o, x) then 0 else if LossOf(o, x) then o.closeTs else LastLossTs(h[..|h| - 1], x)
  }

  /** Losing closes in a row since the counters were last cleared or a close won. */
  function Streak(h: History, x: string): nat {
    if h == [] then 0
    else
      var o := h[|h| - 1];
      if Clears(o, x) then 0
      else if o.Closed? && o.index == x then (if o.pnl < 0.0 then Streak(h[..|h| - 1], x) + 1 else 0)
      else Streak(h[..|h| - 1], x)
  }

  function HaltedBy(cfg: Config, h: History, x: string): bool {
    if h == [] then false
    else
      var o := h[|h| - 1];
      if Clears(o, x) then false
      else HaltedBy(cfg, h[..|h| - 1], x)
           || BigLossOf(cfg, o, x)
           || (LossOf(o, x) && Streak(h, x) >= cfg.circuitLosses)
  }

  function OpenIn(h: History, x: string): Option<Position> {
    if h == [] then None
    else
      var o := h[|h| - 1];
      if o.Restarted? then None
      else if o.Entered? && o.index == x then Some(o.position)
      else if o.Closed? && o.index == x then None
      else OpenIn(h[..|h| - 1], x)
  }

  /** The last price at which the open position of `x` was looked at, first its entry fill. */
  function LastPrice(h: History, x: string): real {
    if h == [] then 0.0
    else
      var o := h[|h| - 1];
      if o.Entered? && o.index == x then o.position.entryLtp
      else if o.Evaluated? && o.index == x then o.ltp
      else LastPrice(h[..|h| - 1], x)
  }

  // ---- the invariant ----

  /** The fields of an index's state are what its history says. */
  predicate Matches(cfg: Config, st: IndexState, h: History, x: string) {
    && st.position == OpenIn(h, x)
    && st.lastLossTs == LastLossTs(h, x)
    && st.consecutiveLosses == Streak(h, x)
    && st.halted == HaltedBy(cfg, h, x)
  }

  ghost predicate StateIsHistory(cfg: Config, s: Engine) {
    forall x :: Matches(cfg, StateOf(s.perIndex, x), s.history, x)
  }

  /** The unmatched entries of the log are exactly the positions in memory. */
  ghost predicate LogAgrees(s: Engine) {
    && (forall k :: k in OpenMap(s.log) <==>
          k.index in s.perIndex && s.perIndex[k.index].position.Some?
          && KeyOf(s.perIndex[k.index].position.value) == k)
    && (forall k :: k in OpenMap(s.log) ==>
          OpenMap(s.log)[k] == EntryEvent(s.perIndex[k.index].position.value, OpenMap(s.log)[k].ts))
  }

  predicate PositionFits(cfg: Config, p: Position, x: string) {
    && p.index == x
    && x in cfg.lots && p.lots == cfg.lots[x] && p.lotSize == LotSize(x)
  }

  predicate Restrained(cfg: Config, st: IndexState) {
    && (st.position.Some? ==> !st.halted && st.consecutiveLosses < cfg.circuitLosses)
    && (1 <= cfg.circuitLosses <= st.consecutiveLosses ==> st.halted)
    && st.consecutiveLosses >= 0
  }

  ghost predicate Safe(cfg: Config, s: Engine) {
    && (forall x :: x in s.perIndex ==> Restrained(cfg, s.perIndex[x]))
    && (forall x :: x in s.perIndex && s.perIndex[x].position.Some? ==>
          PositionFits(cfg, s.perIndex[x].position.value, x))
    && ConcurrentOpen(s.perIndex) <= Max(cfg.maxConcurrent, 0)
  }

  ghost predicate Inv(cfg: Config, start: nat, s: Engine) {
    StateIsHistory(cfg, s) && LogAgrees(s) && Safe(cfg, s) && Orderly(s.log, start)
  }

  // ---- preservation ----

  lemma HistorySnoc(cfg: Config, h: History, o: Observation, x: string)
    ensures LastLossTs(h + [o], x)
            == (if Clears(o, x) then 0 else if LossOf(o, x) then o.closeTs else LastLossTs(h, x))
    ensures Streak(h + [o], x)
            == (if Clears(o, x) then 0
                else if o.Closed? && o.index == x then (if o.pnl < 0.0 then Streak(h, x) + 1 else 0)
                else Streak(h, x))
    ensures HaltedBy(cfg, h + [o], x)
            == (!Clears(o, x)
                && (HaltedBy(cfg, h, x) || BigLossOf(cfg, o, x)
                    || (LossOf(o, x) && Streak(h, x) + 1 >= cfg.circuitLosses)))
    ensures OpenIn(h + [o], x)
            == (if o.Restarted? then None
                else if o.Entered? && o.index == x then Some(o.position)
                else if o.Closed? && o.index == x then None
                else OpenIn(h, x))
    ensures LastPrice(h + [o], x)
            == (if o.Entered? && o.index == x then o.position.entryLtp
                else if o.Evaluated? && o.index == x then o.ltp
                else LastPrice(h, x))
  {
    assert (h + [o])[..|h|] == h;
  }

  /** An order at a positive price that is not HOLD is filled or raises, never rejected. */
  lemma ExitNeverRejected(ex: PE.Executor, order: PE.Order)
    requires order.refPrice > 0.0 && order.action != PE.HOLD
    ensures !ex.Submit(order).Rejected?
  {}

  // -- resetting and touching --

  lemma TouchPreserves(cfg: Config, start: nat, s: Engine, x: string)
    requires Inv(cfg, start, s)
    ensures Inv(cfg, start, Do(cfg, s, Touch(x)))
  {
    hide OpenMap, Orderly, Matches;
    var t := Do(cfg, s, Touch(x));
    assert forall y :: StateOf(t.perIndex, y) == StateOf(s.perIndex, y);
    SamePositions(cfg, s, t);
  }

  /** Log agreement and the caps depend on the positions, the counters only on the halts. */
  lemma SamePositions(cfg: Config, s: Engine, t: Engine)
    requires LogAgrees(s) && Safe(cfg, s) && t.log == s.log
    requires forall y :: y in s.perIndex ==> y in t.perIndex
    requires forall y :: StateOf(t.perIndex, y).position == StateOf(s.perIndex, y).position
    requires forall y :: y in t.perIndex ==> Restrained(cfg, t.perIndex[y])
    ensures LogAgrees(t) && Safe(cfg, t)
  {
    hide OpenMap, Restrained;
    assert forall y :: y in t.perIndex ==> t.perIndex[y].position == StateOf(s.perIndex, y).position;
    assert OpenIndices(t.perIndex) == OpenIndices(s.perIndex);
  }

  lemma ResetPreserves(cfg: Config, start: nat, s: Engine, today: string)
    requires Inv(cfg, start, s)
    ensures Inv(cfg, start, Do(cfg, s, ResetDay(today)))
  {
    hide LogAgrees, Orderly, Streak, LastLossTs, HaltedBy, OpenIn;
    var t := Do(cfg, s, ResetDay(today));
    forall y ensures Matches(cfg, StateOf(t.perIndex, y), t.history, y) {
      HistorySnoc(cfg, s.history, DayReset(EffectiveResets(s.perIndex, today)), y);
      assert Matches(cfg, StateOf(s.perIndex, y), s.history, y);
    }
    SamePositions(cfg, s, t);
  }

  // -- closing --

  lemma CloseKeepsHistory(cfg: Config, s: Engine, x: string, check: ExitCheck)
    requires StateIsHistory(cfg, s) && x in s.perIndex && s.perIndex[x].position.Some?
    requires check.quote.Some? && check.quote.value.ltp > 0.0
    ensures StateIsHistory(cfg, Exiting(cfg, s, x, s.perIndex[x].position.value, check.quote.value, check))
  {
    var pos, q := s.perIndex[x].position.value, check.quote.value;
    var t := Exiting(cfg, s, x, pos, q, check);
    ExitNeverRejected(cfg.paper, SellOrder(pos, q.ltp));
    hide Evaluate, Pnl, Streak, LastLossTs, HaltedBy, OpenIn, PE.Executor.Submit;
    var reason := Evaluate(pos, q, cfg.maxLoss, cfg.hysteresis);
    var seen := s.history + [Evaluated(x, q.ltp, reason)];
    forall y ensures Matches(cfg, StateOf(t.perIndex, y), t.history, y) {
      HistorySnoc(cfg, s.history, Evaluated(x, q.ltp, reason), y);
      assert Matches(cfg, StateOf(s.perIndex, y), s.history, y);
      if t.history != seen {
        HistorySnoc(cfg, seen, t.history[|seen|], y);
      }
    }
  }

  lemma CloseKeepsLog(cfg: Config, start: nat, s: Engine, x: string, check: ExitCheck)
    requires LogAgrees(s) && Orderly(s.log, start) && Safe(cfg, s)
    requires x in s.perIndex && s.perIndex[x].position.Some?
    requires check.quote.Some? && check.quote.value.ltp > 0.0
    ensures var t := Exiting(cfg, s, x, s.perIndex[x].position.value, check.quote.value, check);
      LogAgrees(t) && Orderly(t.log, start)
  {
    hide LogAgrees, Evaluate, Pnl, PE.Executor.Submit, OpenMap, Orderly;
    var pos, q := s.perIndex[x].position.value, check.quote.value;
    ExitNeverRejected(cfg.paper, SellOrder(pos, q.ltp));
    var t := Exiting(cfg, s, x, pos, q, check);
    if t.log != s.log {
      var e := t.log[|s.log|];
      ExitAgrees(s, x, pos, e, t.perIndex, t.history);
      OrderlyExit(s.log, start, e);
    } else {
      QuietAgrees(s, t);
    }
  }

  lemma ExitAgrees(s: Engine, x: string, pos: Position, e: Event, m: States, h: History)
    requires LogAgrees(s) && x in s.perIndex && s.perIndex[x].position == Some(pos) && pos.index == x
    requires e.Exit? && e.key == KeyOf(pos)
    requires m.Keys == s.perIndex.Keys && m[x].position == None
    requires forall y :: y in m && y != x ==> m[y].position == s.perIndex[y].position
    ensures e.key in OpenMap(s.log) && LogAgrees(Engine(m, s.log + [e], h))
  {
    OpenMapSnoc(s.log, e);
    hide OpenMap;
  }

  lemma QuietAgrees(s: Engine, t: Engine)
    requires LogAgrees(s) && t.log == s.log && t.perIndex == s.perIndex
    ensures LogAgrees(t)
  {
    hide OpenMap;
  }

  lemma CloseKeepsSafe(cfg: Config, s: Engine, x: string, check: ExitCheck)
    requires Safe(cfg, s) && x in s.perIndex && s.perIndex[x].position.Some?
    requires check.quote.Some? && check.quote.value.ltp > 0.0
    ensures Safe(cfg, Exiting(cfg, s, x, s.perIndex[x].position.value, check.quote.value, check))
  {
    var pos, q := s.perIndex[x].position.value, check.quote.value;
    hide Evaluate, Pnl, PE.Executor.Submit;
    var t := Exiting(cfg, s, x, pos, q, check);
    assert OpenIndices(t.perIndex) <= OpenIndices(s.perIndex);
    CardinalityMonotone(OpenIndices(t.perIndex), OpenIndices(s.perIndex));
  }

  lemma {:induction false} CardinalityMonotone(a: set<string>, b: set<string>)
    requires a <= b
    ensures |a| <= |b|
  {
    if a == {} {
    } else {
      var x :| x in a;
      CardinalityMonotone(a - {x}, b - {x});
    }
  }

  // -- opening --

  lemma OpenKeepsHistory(cfg: Config, s: Engine, x: string, gateTs: int, c: Candidate)
    requires StateIsHistory(cfg, s) && x in cfg.lots
    ensures StateIsHistory(cfg, Entering(cfg, s, x, gateTs, c))
  {
    var t := Entering(cfg, s, x, gateTs, c);
    hide Streak, LastLossTs, HaltedBy, OpenIn, PE.Executor.Submit, NewPosition;
    forall y ensures Matches(cfg, StateOf(t.perIndex, y), t.history, y) {
      assert Matches(cfg, StateOf(s.perIndex, y), s.history, y);
      if t.history != s.history {
        HistorySnoc(cfg, s.history, t.history[|s.history|], y);
      }
    }
  }

  lemma OpenKeepsLog(cfg: Config, start: nat, s: Engine, x: string, gateTs: int, c: Candidate)
    requires LogAgrees(s) && Orderly(s.log, start)
    requires x in cfg.lots && StateOf(s.perIndex, x).position == None
    ensures var t := Entering(cfg, s, x, gateTs, c);
      LogAgrees(t) && Orderly(t.log, start)
  {
    hide LogAgrees, PE.Executor.Submit, OpenMap, Orderly, BuildExitLevels, IndexOpen;
    NothingOpenFor(s, x);
    match cfg.paper.Submit(BuyOrder(cfg, x, c)) {
      case Filled(f) =>
        var pos := NewPosition(cfg, x, c, f.price);
        EntryAgrees(s, x, pos, c.logTs, s.history + [Entered(x, gateTs, c.ltp, pos)]);
        OrderlyEntry(s.log, start, EntryEvent(pos, c.logTs));
      case Rejected(_) =>
        var e := EntryRejected(Key(x, c.strike, c.side), c.logTs);
        RejectionAgrees(s, e);
        OrderlyRejection(s.log, start, e);
      case Raised =>
    }
  }

  lemma NothingOpenFor(s: Engine, x: string)
    requires LogAgrees(s) && StateOf(s.perIndex, x).position == None
    ensures !IndexOpen(s.log, x)
  {}

  lemma EntryAgrees(s: Engine, x: string, pos: Position, ts: int, h: History)
    requires LogAgrees(s) && pos.index == x && StateOf(s.perIndex, x).position == None
    ensures LogAgrees(Engine(s.perIndex[x := StateOf(s.perIndex, x).(position := Some(pos))],
                             s.log + [EntryEvent(pos, ts)], h))
  {
    OpenMapSnoc(s.log, EntryEvent(pos, ts));
    hide OpenMap;
  }

  lemma RejectionAgrees(s: Engine, e: Event)
    requires LogAgrees(s) && e.EntryRejected?
    ensures LogAgrees(s.(log := s.log + [e]))
  {
    OpenMapSnoc(s.log, e);
    hide OpenMap;
  }

  /** The gate lets an entry through exactly when nothing stands against it. */
  lemma GateMeans(cfg: Config, m: States, x: string, ts: int)
    ensures var st := StateOf(m, x); AllowEntry(cfg, m, x, ts) == Allowed <==>
      && WithinEntryWindow(cfg, ts) == Some(true)
      && st.position == None && !st.halted && st.consecutiveLosses < cfg.circuitLosses
      && ConcurrentOpen(m) < cfg.maxConcurrent
      && (st.lastLossTs != 0 ==> ts - st.lastLossTs >= cfg.cooldownS * 1000)
  {}

  lemma OpenKeepsSafe(cfg: Config, s: Engine, x: string, gateTs: int, c: Candidate)
    requires Safe(cfg, s)
    requires x in cfg.lots && AllowEntry(cfg, s.perIndex, x, gateTs) == Allowed
    ensures Safe(cfg, Entering(cfg, s, x, gateTs, c))
  {
    hide PE.Executor.Submit, BuildExitLevels, AllowEntry;
    GateMeans(cfg, s.perIndex, x, gateTs);
    match cfg.paper.Submit(BuyOrder(cfg, x, c)) {
      case Filled(f) => OpenOneMore(cfg, s, x, NewPosition(cfg, x, c, f.price));
      case Rejected(_) =>
      case Raised =>
    }
  }

  lemma OpenOneMore(cfg: Config, s: Engine, x: string, pos: Position)
    requires Safe(cfg, s) && PositionFits(cfg, pos, x)
    requires StateOf(s.perIndex, x).position == None && ConcurrentOpen(s.perIndex) < cfg.maxConcurrent
    requires !StateOf(s.perIndex, x).halted && StateOf(s.perIndex, x).consecutiveLosses < cfg.circuitLosses
    ensures Safe(cfg, s.(perIndex := s.perIndex[x := StateOf(s.perIndex, x).(position := Some(pos))]))
  {
    var m := s.perIndex[x := StateOf(s.perIndex, x).(position := Some(pos))];
    assert OpenIndices(m) == OpenIndices(s.perIndex) + {x};
  }

  // -- all actions, all runs --

  lemma RestartPreserves(cfg: Config, start: nat, s: Engine, now: int)
    requires Inv(cfg, start, s)
    ensures Inv(cfg, start, Do(cfg, s, Restart(now)))
  {
    hide OpenMap, Orderly, Streak, LastLossTs, HaltedBy, OpenIn, Reconcile;
    var t := Do(cfg, s, Restart(now));
    ReconcileClosesAll(s.log, now);
    OrderlyReconcile(s.log, start, now);
    forall y { HistorySnoc(cfg, s.history, Restarted, y); }
    assert OpenIndices(t.perIndex) == {};
  }

  lemma DoPreserves(cfg: Config, start: nat, s: Engine, a: Action)
    requires Inv(cfg, start, s)
    ensures Inv(cfg, start, Do(cfg, s, a))
  {
    hide StateIsHistory, LogAgrees, Safe, Orderly, Exiting, Entering;
    match a {
      case Touch(x) => TouchPreserves(cfg, start, s, x);
      case ResetDay(today) => ResetPreserves(cfg, start, s, today);
      case CheckExit(x, clock, check) =>
        if ExitCheckRuns(s, a) {
          CloseKeepsHistory(cfg, s, x, check);
          CloseKeepsLog(cfg, start, s, x, check);
          CloseKeepsSafe(cfg, s, x, check);
        }
      case TryEntry(x, gateTs, c) =>
        if EntryRuns(cfg, s, a) {
          OpenKeepsHistory(cfg, s, x, gateTs, c.value);
          OpenKeepsLog(cfg, start, s, x, gateTs, c.value);
          OpenKeepsSafe(cfg, s, x, gateTs, c.value);
        }
      case Restart(now) => RestartPreserves(cfg, start, s, now);
    }
  }

  /** Startup on any log whatsoever establishes the invariant. */
  lemma BootEstablishes(cfg: Config, log: Log, now: int)
    ensures Inv(cfg, |Reconcile(log, now)|, Boot(log, now))
  {
    var s := Boot(log, now);
    ReconcileClosesAll(log, now);
    assert s.log[|s.log|..] == [];
    assert OpenIndices(s.perIndex) == {};
  }

  lemma {:induction false} RunPreserves(cfg: Config, log: Log, now: int, actions: seq<Action>)
    ensures Inv(cfg, |Reconcile(log, now)|, DoAll(cfg, Boot(log, now), actions))
  {
    hide Inv, Do, Reconcile;
    BootEstablishes(cfg, log, now);
    if actions == [] {
    } else {
      var before := actions[..|actions| - 1];
      RunPreserves(cfg, log, now, before);
      DoPreserves(cfg, |Reconcile(log, now)|, DoAll(cfg, Boot(log, now), before), actions[|actions| - 1]);
    }
  }
}
