/**
 The scalper: per-index risk state, the entry gate, entries and exits through the paper
 executor, and the trade log. Every handler is a short list of atomic actions; market
 data, candidates and clock readings are inputs.
 */
module Scalper {
  import opened Common
  import opened Rounding
  import PE = PaperExecution
  import opened ExitRules
  import opened TradeLog

  datatype IndexState = IndexState(
    position: Option<Position>, lastLossTs: int, consecutiveLosses: int,
    dayResetDate: string, halted: bool)

  const FRESH := IndexState(None, 0, 0, "", false)

  type States = map<string, IndexState>

  datatype Config = Config(
    maxConcurrent: int, cooldownS: int, circuitLosses: int,
    bigLoss: real, maxLoss: real, hysteresis: real, timeStopS: int,
    openMin: int, closeMin: int, lots: map<string, int>, paper: PE.Executor)

  function LotSize(index: string): int {
    if index == "NIFTY50" then 75 else if index == "BANKNIFTY" then 30 else if index == "SENSEX" then 20 else 1
  }

  // ---- the risk gate ----

  const IST_OFFSET_MS := 19_800_000
  const DAY_MS := 86_400_000
  const MINUTE_MS := 60_000

  /** None when the configured minutes make the window itself invalid, which raises. */
  function WithinEntryWindow(cfg: Config, ts: int): Option<bool> {
    if !(0 <= 15 + cfg.openMin < 60) || !(0 <= 30 - cfg.closeMin < 60) then None
    else
      var t := (ts + IST_OFFSET_MS) % DAY_MS;
      Some((9 * 60 + 15 + cfg.openMin) * MINUTE_MS <= t <= (15 * 60 + 30 - cfg.closeMin) * MINUTE_MS)
  }

  datatype Gate = Allowed | OutsideEntryWindow | IndexAlreadyOpen | HaltedToday
                | MaxConcurrentReached | DailyCircuitBreaker | CooldownActive | GateRaised

  function StateOf(m: States, x: string): IndexState { if x in m then m[x] else FRESH }

  function OpenIndices(m: States): set<string> { set x | x in m && m[x].position.Some? }

  function ConcurrentOpen(m: States): nat { |OpenIndices(m)| }

  function AllowEntry(cfg: Config, m: States, x: string, ts: int): Gate {
    var st := StateOf(m, x);
    match WithinEntryWindow(cfg, ts)
    case None => GateRaised
    case Some(inside) =>
      if !inside then OutsideEntryWindow
      else if st.position.Some? then IndexAlreadyOpen
      else if st.halted then HaltedToday
      else if ConcurrentOpen(m) >= cfg.maxConcurrent then MaxConcurrentReached
      else if st.consecutiveLosses >= cfg.circuitLosses then DailyCircuitBreaker
      else if st.lastLossTs != 0 && ts - st.lastLossTs < cfg.cooldownS * 1000 then CooldownActive
      else Allowed
  }

  // ---- what happens, as seen from outside ----

  datatype Observation =
    | Entered(index: string, gateTs: int, quote: real, position: Position)
    | Evaluated(index: string, ltp: real, reason: Option<ExitReason>)
    | Closed(index: string, closeTs: int, ltp: real, held: Position, fill: PE.Fill, pnl: real)
    | DayReset(indices: set<string>)
    | Restarted

  datatype Engine = Engine(perIndex: States, log: Log, history: seq<Observation>)

  // ---- actions ----

  datatype ExitCheck = ExitCheck(quote: Option<Quote>, fillTs: int, logTs: int, closeTs: int)

  datatype Candidate = Candidate(
    strike: int, side: OptionType, ltp: real, resistance: Option<int>, support: Option<int>,
    levelsTs: int, fillTs: int, logTs: int)

  datatype Action =
    | Touch(index: string)
    | ResetDay(today: string)
    | CheckExit(index: string, clock: Option<int>, check: ExitCheck)
    | TryEntry(index: string, gateTs: int, candidate: Option<Candidate>)
    | Restart(now: int)

  function ResetForDay(st: IndexState, today: string): IndexState {
    if st.dayResetDate == today then st
    else st.(dayResetDate := today, consecutiveLosses := 0, lastLossTs := 0, halted := false)
  }

  function EffectiveResets(m: States, today: string): set<string> {
    set x | x in m && m[x].dayResetDate != today
  }

  /** Risk bookkeeping of a close. */
  function AfterClose(cfg: Config, st: IndexState, pnl: real, ts: int): IndexState {
    if pnl < 0.0 then
      var losses := st.consecutiveLosses + 1;
      st.(position := None, consecutiveLosses := losses, lastLossTs := ts,
          halted := st.halted || -pnl >= cfg.bigLoss || losses >= cfg.circuitLosses)
    else
      st.(position := None, consecutiveLosses := 0)
  }

  function Pnl(pos: Position, fill: PE.Fill): real {
    (fill.price - pos.entryLtp) * (pos.lots * pos.lotSize) as real - fill.fees
  }

  function KeyOf(pos: Position): Key { Key(pos.index, pos.strike, pos.optionType) }

  function EntryEvent(pos: Position, ts: int): Event {
    Entry(KeyOf(pos), ts, pos.lots, SizedQty(pos.lots, pos.lotSize), pos.entryLtp, pos.target, pos.stop)
  }

  function ExitEvent(pos: Position, fill: PE.Fill, check: ExitCheck): Event {
    Exit(KeyOf(pos), check.logTs, pos.entryLtp, fill.price, Pnl(pos, fill), check.fillTs - pos.entryTs, false)
  }

  function SellOrder(pos: Position, ltp: real): PE.Order {
    PE.Order(PE.SELL, pos.lots * pos.lotSize, ltp)
  }

  function NewPosition(cfg: Config, x: string, c: Candidate, price: real): Position
    requires x in cfg.lots
  {
    var levels := BuildExitLevels(c.ltp, cfg.maxLoss, cfg.lots[x], LotSize(x), cfg.timeStopS, c.levelsTs);
    Position(x, c.strike, c.side, cfg.lots[x], LotSize(x), price, c.fillTs,
             levels.target, levels.stop, levels.timeStop, c.resistance, c.support)
  }

  function BuyOrder(cfg: Config, x: string, c: Candidate): PE.Order
    requires x in cfg.lots
  {
    PE.Order(PE.BUY, SizedQty(cfg.lots[x], LotSize(x)), c.ltp)
  }

  /** The exit path for a held position and a usable quote. */
  function Exiting(cfg: Config, s: Engine, x: string, pos: Position, q: Quote, check: ExitCheck): Engine
    requires x in s.perIndex
  {
    var st := s.perIndex[x];
    var reason := Evaluate(pos, q, cfg.maxLoss, cfg.hysteresis);
    var seen := s.history + [Evaluated(x, q.ltp, reason)];
    if reason == None then s.(history := seen)
    else match cfg.paper.Submit(SellOrder(pos, q.ltp))
      case Filled(f) =>
        Engine(s.perIndex[x := AfterClose(cfg, st, Pnl(pos, f), check.closeTs)],
               s.log + [ExitEvent(pos, f, check)],
               seen + [Closed(x, check.closeTs, q.ltp, pos, f, Pnl(pos, f))])
      case Rejected(_) => s.(perIndex := s.perIndex[x := st.(position := None)], history := seen)
      case Raised => s.(history := seen)
  }

  /** The entry path once the gate has let a candidate through. */
  function Entering(cfg: Config, s: Engine, x: string, gateTs: int, c: Candidate): Engine
    requires x in cfg.lots
  {
    match cfg.paper.Submit(BuyOrder(cfg, x, c))
    case Filled(f) =>
      var pos := NewPosition(cfg, x, c, f.price);
      Engine(s.perIndex[x := StateOf(s.perIndex, x).(position := Some(pos))],
             s.log + [EntryEvent(pos, c.logTs)],
             s.history + [Entered(x, gateTs, c.ltp, pos)])
    case Rejected(_) => s.(log := s.log + [EntryRejected(Key(x, c.strike, c.side), c.logTs)])
    case Raised => s
  }

  /** A position is checked when a quote is usable and, for the timer, when it is overdue. */
  predicate ExitCheckRuns(s: Engine, a: Action)
    requires a.CheckExit?
  {
    && a.index in s.perIndex && s.perIndex[a.index].position.Some?
    && (a.clock.Some? ==> a.clock.value >= s.perIndex[a.index].position.value.timeStop)
    && a.check.quote.Some? && a.check.quote.value.ltp > 0.0
  }

  predicate EntryRuns(cfg: Config, s: Engine, a: Action)
    requires a.TryEntry?
  {
    a.index in cfg.lots && a.candidate.Some? && AllowEntry(cfg, s.perIndex, a.index, a.gateTs) == Allowed
  }

  /** The sale itself fails to validate: the handler raises and the position stays. */
  predicate ExitRaises(cfg: Config, s: Engine, a: Action)
    requires a.CheckExit?
  {
    && ExitCheckRuns(s, a)
    && var pos, q := s.perIndex[a.index].position.value, a.check.quote.value;
      Evaluate(pos, q, cfg.maxLoss, cfg.hysteresis) != None && cfg.paper.Submit(SellOrder(pos, q.ltp)).Raised?
  }

  function Do(cfg: Config, s: Engine, a: Action): Engine {
    match a
    case Touch(x) => s.(perIndex := s.perIndex[x := StateOf(s.perIndex, x)])
    case ResetDay(today) =>
      s.(perIndex := map x | x in s.perIndex :: ResetForDay(s.perIndex[x], today),
         history := s.history + [DayReset(EffectiveResets(s.perIndex, today))])
    case CheckExit(x, _, check) =>
      if ExitCheckRuns(s, a) then
        Exiting(cfg, s, x, s.perIndex[x].position.value, check.quote.value, check)
      else s
    case TryEntry(x, gateTs, c) =>
      if EntryRuns(cfg, s, a) then Entering(cfg, s, x, gateTs, c.value) else s
    case Restart(now) => Engine(map[], Reconcile(s.log, now), s.history + [Restarted])
  }

  function DoAll(cfg: Config, s: Engine, actions: seq<Action>): Engine {
    if actions == [] then s
    else Do(cfg, DoAll(cfg, s, actions[..|actions| - 1]), actions[|actions| - 1])
  }

  /** A process start on whatever log is there: repaired log, empty memory. */
  function Boot(log: Log, now: int): Engine { Engine(map[], Reconcile(log, now), []) }

  // ---- handlers as lists of actions ----

  function IndexTick(x: string, today: string, check: ExitCheck): seq<Action> {
    [ResetDay(today), Touch(x), CheckExit(x, None, check)]
  }

  function OptionTick(x: string, check: ExitCheck, gateTs: int, c: Option<Candidate>): seq<Action> {
    [Touch(x), CheckExit(x, None, check), TryEntry(x, gateTs, c)]
  }

  /** One pass of the timer loop over the configured indices. */
  function ManagePass(indices: seq<string>, clock: map<string, int>, checks: map<string, ExitCheck>): seq<Action>
    requires forall x :: x in indices ==> x in clock && x in checks
  {
    if indices == [] then []
    else
      var x := indices[|indices| - 1];
      ManagePass(indices[..|indices| - 1], clock, checks)
      + [Touch(x), CheckExit(x, Some(clock[x]), checks[x])]
  }

  lemma {:induction false} DoAllConcat(cfg: Config, s: Engine, a: seq<Action>, b: seq<Action>)
    ensures DoAll(cfg, s, a + b) == DoAll(cfg, DoAll(cfg, s, a), b)
  {
    if b == [] {
      assert a + b == a;
    } else {
      assert (a + b)[..|a + b| - 1] == a + b[..|b| - 1];
      DoAllConcat(cfg, s, a, b[..|b| - 1]);
    }
  }

  lemma DoThree(cfg: Config, s: Engine, a: Action, b: Action, c: Action)
    ensures DoAll(cfg, s, [a, b, c]) == Do(cfg, Do(cfg, Do(cfg, s, a), b), c)
  {
    DoTwo(cfg, s, a, b);
    assert [a, b, c][..2] == [a, b];
  }

  lemma DoTwo(cfg: Config, s: Engine, a: Action, b: Action)
    ensures DoAll(cfg, s, [a, b]) == Do(cfg, Do(cfg, s, a), b)
  {
    assert [a, b][..1] == [a];
    assert DoAll(cfg, s, [a]) == Do(cfg, s, a);
  }

  // ---- the running engine ----

  class CriticalEngine {
    const cfg: Config
    const journal: Journal
    var perIndex: States
    ghost var history: seq<Observation>

    ghost function Abstract(): Engine
      reads this, journal
    {
      Engine(perIndex, journal.events, history)
    }

    /** Startup: repair the log, then start with empty memory. */
    constructor (cfg: Config, journal: Journal, now: int)
      modifies journal
      ensures this.cfg == cfg && this.journal == journal
      ensures Abstract() == Boot(old(journal.events), now)
    {
      this.cfg, this.journal := cfg, journal;
      perIndex, history := map[], [];
      new;
      var _ := journal.ReconcileOrphans(now);
    }

    method Get(x: string)
      modifies this
      ensures Abstract() == Do(cfg, old(Abstract()), Touch(x))
    {
      if x !in perIndex { perIndex := perIndex[x := FRESH]; }
      assert perIndex == old(perIndex)[x := StateOf(old(perIndex), x)];
    }

    method ResetIfNewDay(today: string)
      modifies this
      ensures Abstract() == Do(cfg, old(Abstract()), ResetDay(today))
    {
      history := history + [DayReset(EffectiveResets(perIndex, today))];
      var todo := perIndex.Keys;
      while todo != {}
        invariant todo <= perIndex.Keys == old(perIndex).Keys
        invariant history == old(history) + [DayReset(EffectiveResets(old(perIndex), today))]
        invariant forall x :: x in perIndex ==>
          perIndex[x] == if x in todo then old(perIndex)[x] else ResetForDay(old(perIndex)[x], today)
      {
        var x :| x in todo;
        if perIndex[x].dayResetDate != today {
          perIndex := perIndex[x := perIndex[x].(
            dayResetDate := today, consecutiveLosses := 0, lastLossTs := 0, halted := false)];
        }
        todo := todo - {x};
      }
    }

    method ClosePosition(x: string, pos: Position, q: Quote, check: ExitCheck) returns (raised: bool)
      requires x in perIndex && Evaluate(pos, q, cfg.maxLoss, cfg.hysteresis) != None
      requires q.ltp > 0.0
      modifies this, journal
      ensures Abstract() == Exiting(cfg, old(Abstract()), x, pos, q, check)
      ensures raised == cfg.paper.Submit(SellOrder(pos, q.ltp)).Raised?
    {
      history := history + [Evaluated(x, q.ltp, Evaluate(pos, q, cfg.maxLoss, cfg.hysteresis))];
      var outcome := cfg.paper.Submit(SellOrder(pos, q.ltp));
      if outcome.Raised? { return true; }
      var st := perIndex[x];
      if outcome.Filled? {
        journal.Append(ExitEvent(pos, outcome.fill, check));
        var pnl := Pnl(pos, outcome.fill);
        history := history + [Closed(x, check.closeTs, q.ltp, pos, outcome.fill, pnl)];
        if pnl < 0.0 {
          st := st.(consecutiveLosses := st.consecutiveLosses + 1, lastLossTs := check.closeTs);
          if -pnl >= cfg.bigLoss {
            st := st.(halted := true);
          } else if st.consecutiveLosses >= cfg.circuitLosses {
            st := st.(halted := true);
          }
        } else {
          st := st.(consecutiveLosses := 0);
        }
      }
      perIndex := perIndex[x := st.(position := None)];
      return false;
    }

    method TryExit(x: string, ghost clock: Option<int>, check: ExitCheck) returns (raised: bool)
      requires x in perIndex && perIndex[x].position.Some?
      requires clock.Some? ==> clock.value >= perIndex[x].position.value.timeStop
      modifies this, journal
      ensures Abstract() == Do(cfg, old(Abstract()), CheckExit(x, clock, check))
      ensures raised == ExitRaises(cfg, old(Abstract()), CheckExit(x, clock, check))
    {
      if check.quote == None || check.quote.value.ltp <= 0.0 { return false; }
      var pos, q := perIndex[x].position.value, check.quote.value;
      var decision := Evaluate(pos, q, cfg.maxLoss, cfg.hysteresis);
      if decision == None {
        history := history + [Evaluated(x, q.ltp, None)];
        return false;
      }
      raised := ClosePosition(x, pos, q, check);
    }

    method EnterIfAllowed(x: string, gateTs: int, candidate: Option<Candidate>)
      requires x in perIndex
      modifies this, journal
      ensures Abstract() == Do(cfg, old(Abstract()), TryEntry(x, gateTs, candidate))
    {
      if x !in cfg.lots { return; }
      if AllowEntry(cfg, perIndex, x, gateTs) != Allowed { return; }
      if candidate == None { return; }
      var c := candidate.value;
      var result := cfg.paper.Submit(BuyOrder(cfg, x, c));
      if result.Raised? { return; }
      if result.Rejected? {
        journal.Append(EntryRejected(Key(x, c.strike, c.side), c.logTs));
        return;
      }
      var pos := NewPosition(cfg, x, c, result.fill.price);
      journal.Append(EntryEvent(pos, c.logTs));
      perIndex := perIndex[x := perIndex[x].(position := Some(pos))];
      history := history + [Entered(x, gateTs, c.ltp, pos)];
    }

    method OnIndexTick(x: string, today: string, check: ExitCheck)
      modifies this, journal
      ensures Abstract() == DoAll(cfg, old(Abstract()), IndexTick(x, today, check))
    {
      DoThree(cfg, Abstract(), ResetDay(today), Touch(x), CheckExit(x, None, check));
      ResetIfNewDay(today);
      Get(x);
      if perIndex[x].position.Some? { var _ := TryExit(x, None, check); }
    }

    method OnOptionTick(x: string, check: ExitCheck, gateTs: int, candidate: Option<Candidate>)
      modifies this, journal
      ensures Abstract() == DoAll(cfg, old(Abstract()), OptionTick(x, check, gateTs, candidate))
    {
      DoThree(cfg, Abstract(), Touch(x), CheckExit(x, None, check), TryEntry(x, gateTs, candidate));
      Get(x);
      if perIndex[x].position.Some? { var _ := TryExit(x, None, check); }
      if perIndex[x].position == None { EnterIfAllowed(x, gateTs, candidate); }
    }

    /**
     One pass of the timer loop. A raising exit ends the timer thread, so a pass stops
     early exactly when the last index it looked at raised.
     */
    method ManageLoopPass(indices: seq<string>, clock: map<string, int>, checks: map<string, ExitCheck>)
      returns (done: nat)
      requires forall x :: x in indices ==> x in clock && x in checks
      modifies this, journal
      ensures done <= |indices|
      ensures Abstract() == DoAll(cfg, old(Abstract()), ManagePass(indices[..done], clock, checks))
      ensures done < |indices| ==> done > 0 && var x := indices[done - 1];
                var before := DoAll(cfg, old(Abstract()), ManagePass(indices[..done - 1], clock, checks));
                ExitRaises(cfg, Do(cfg, before, Touch(x)), CheckExit(x, Some(clock[x]), checks[x]))
    {
      hide ExitRaises, Do;
      done := 0;
      while done < |indices|
        invariant done <= |indices|
        invariant Abstract() == DoAll(cfg, old(Abstract()), ManagePass(indices[..done], clock, checks))
      {
        var x := indices[done];
        var raised := ManageIndex(x, clock[x], checks[x]);
        ManageOneMore(cfg, old(Abstract()), indices, done, clock, checks);
        done := done + 1;
        if raised { return; }
      }
    }

    method ManageIndex(x: string, now: int, check: ExitCheck) returns (raised: bool)
      modifies this, journal
      ensures var touched := Do(cfg, old(Abstract()), Touch(x));
        && Abstract() == Do(cfg, touched, CheckExit(x, Some(now), check))
        && raised == ExitRaises(cfg, touched, CheckExit(x, Some(now), check))
    {
      Get(x);
      raised := false;
      if perIndex[x].position.Some? && now >= perIndex[x].position.value.timeStop {
        raised := TryExit(x, Some(now), check);
      }
    }
  }

  lemma ManageOneMore(
    cfg: Config, s: Engine, indices: seq<string>, n: nat, clock: map<string, int>, checks: map<string, ExitCheck>)
    requires n < |indices| && forall x :: x in indices ==> x in clock && x in checks
    ensures var x, before := indices[n], DoAll(cfg, s, ManagePass(indices[..n], clock, checks));
      DoAll(cfg, s, ManagePass(indices[..n + 1], clock, checks))
      == Do(cfg, Do(cfg, before, Touch(x)), CheckExit(x, Some(clock[x]), checks[x]))
  {
    hide Do;
    var x := indices[n];
    assert indices[..n + 1][..n] == indices[..n];
    var pair := [Touch(x), CheckExit(x, Some(clock[x]), checks[x])];
    DoAllConcat(cfg, s, ManagePass(indices[..n], clock, checks), pair);
    DoTwo(cfg, DoAll(cfg, s, ManagePass(indices[..n], clock, checks)), pair[0], pair[1]);
  }
}
