/** The guarantees of the scalper over whole runs, stated on its log and its history. */
module ScalperRuns {
  import opened Common
  import PE = PaperExecution
  import opened ExitRules
  import opened TradeLog
  import opened Scalper
  import opened ScalperSafety

  function Run(cfg: Config, log: Log, now: int, actions: seq<Action>): Engine {
    DoAll(cfg, Boot(log, now), actions)
  }

  /**
   In every reachable state the log's unmatched entries are exactly the positions in
   memory, and since startup the entries and exits of each index have alternated.
   */
  lemma LogMatchesMemory(cfg: Config, log: Log, now: int, actions: seq<Action>)
    ensures var s := Run(cfg, log, now, actions);
      && (forall k :: k in OpenMap(s.log) <==>
            k.index in s.perIndex && s.perIndex[k.index].position.Some?
            && KeyOf(s.perIndex[k.index].position.value) == k)
      && (forall k :: k in OpenMap(s.log) ==>
            OpenMap(s.log)[k] == EntryEvent(s.perIndex[k.index].position.value, OpenMap(s.log)[k].ts))
    ensures var s := Run(cfg, log, now, actions);
      var start := |Reconcile(log, now)|;
      && start <= |s.log|
      && (forall x :: Alternating(Kinds(s.log[start..], x)))
      && (forall x :: |Kinds(s.log[start..], x)| % 2 == 1 <==> StateOf(s.perIndex, x).position.Some?)
  {
    hide DoAll, OpenMap, Kinds, Reconcile;
    RunPreserves(cfg, log, now, actions);
    var s := Run(cfg, log, now, actions);
    forall x ensures IndexOpen(s.log, x) <==> StateOf(s.perIndex, x).position.Some? {
      if StateOf(s.perIndex, x).position.Some? {
        assert KeyOf(s.perIndex[x].position.value) in OpenMap(s.log);
      }
    }
  }

  /** Caps and halts hold in every reachable state; a breaker below one lets nothing be opened. */
  lemma RiskStateIsSafe(cfg: Config, log: Log, now: int, actions: seq<Action>)
    ensures var s := Run(cfg, log, now, actions);
      && ConcurrentOpen(s.perIndex) <= Max(cfg.maxConcurrent, 0)
      && (forall x :: x in s.perIndex && s.perIndex[x].position.Some? ==>
            !s.perIndex[x].halted && s.perIndex[x].consecutiveLosses < cfg.circuitLosses)
      && (forall x :: x in s.perIndex && 1 <= cfg.circuitLosses <= s.perIndex[x].consecutiveLosses ==>
            s.perIndex[x].halted)
      && (cfg.circuitLosses <= 0 ==> ConcurrentOpen(s.perIndex) == 0)
  {
    hide DoAll;
    RunPreserves(cfg, log, now, actions);
  }

  // ---- what each observation says about the history before it ----

  /** Entries respect the gate and closes belong to unhalted open positions. */
  predicate LawfulAt(cfg: Config, h: History, o: Observation) {
    && (o.Entered? ==>
          && WithinEntryWindow(cfg, o.gateTs) == Some(true)
          && OpenIn(h, o.index) == None
          && !HaltedBy(cfg, h, o.index)
          && Streak(h, o.index) < cfg.circuitLosses
          && (LastLossTs(h, o.index) != 0 ==> o.gateTs - LastLossTs(h, o.index) >= cfg.cooldownS * 1000))
    && (o.Closed? ==> OpenIn(h, o.index) == Some(o.held) && !HaltedBy(cfg, h, o.index))
  }

  ghost predicate Lawful(cfg: Config, h: History) {
    forall j :: 0 <= j < |h| ==> LawfulAt(cfg, h[..j], h[j])
  }

  lemma LawfulSnoc(cfg: Config, h: History, o: Observation)
    requires Lawful(cfg, h) && LawfulAt(cfg, h, o)
    ensures Lawful(cfg, h + [o])
  {
    hide LawfulAt;
    forall j | 0 <= j < |h + [o]| ensures LawfulAt(cfg, (h + [o])[..j], (h + [o])[j]) {
      if j < |h| {
        assert (h + [o])[..j] == h[..j];
      } else {
        assert (h + [o])[..j] == h;
      }
    }
  }

  lemma DoLawful(cfg: Config, start: nat, s: Engine, a: Action)
    requires Inv(cfg, start, s) && Lawful(cfg, s.history)
    ensures Lawful(cfg, Do(cfg, s, a).history)
  {
    hide Lawful, LogAgrees, Orderly;
    match a {
      case Touch(_) =>
      case ResetDay(today) => LawfulSnoc(cfg, s.history, DayReset(EffectiveResets(s.perIndex, today)));
      case Restart(_) => LawfulSnoc(cfg, s.history, Restarted);
      case TryEntry(x, gateTs, c) =>
        if EntryRuns(cfg, s, a) { EntryLawful(cfg, s, x, gateTs, c.value); }
      case CheckExit(x, _, check) =>
        if ExitCheckRuns(s, a) { CloseLawful(cfg, s, x, check); }
    }
  }

  lemma EntryLawful(cfg: Config, s: Engine, x: string, gateTs: int, c: Candidate)
    requires StateIsHistory(cfg, s) && Lawful(cfg, s.history)
    requires x in cfg.lots && AllowEntry(cfg, s.perIndex, x, gateTs) == Allowed
    ensures Lawful(cfg, Entering(cfg, s, x, gateTs, c).history)
  {
    hide Lawful, PE.Executor.Submit, AllowEntry, BuildExitLevels, OpenIn, Streak, LastLossTs, HaltedBy;
    GateMeans(cfg, s.perIndex, x, gateTs);
    match cfg.paper.Submit(BuyOrder(cfg, x, c)) {
      case Filled(f) =>
        assert StateOf(s.perIndex, x).position == OpenIn(s.history, x);
        LawfulSnoc(cfg, s.history, Entered(x, gateTs, c.ltp, NewPosition(cfg, x, c, f.price)));
      case Rejected(_) =>
      case Raised =>
    }
  }

  lemma CloseLawful(cfg: Config, s: Engine, x: string, check: ExitCheck)
    requires StateIsHistory(cfg, s) && Safe(cfg, s) && Lawful(cfg, s.history)
    requires x in s.perIndex && s.perIndex[x].position.Some?
    requires check.quote.Some? && check.quote.value.ltp > 0.0
    ensures Lawful(cfg, Exiting(cfg, s, x, s.perIndex[x].position.value, check.quote.value, check).history)
  {
    var pos, q := s.perIndex[x].position.value, check.quote.value;
    hide Lawful, PE.Executor.Submit, Evaluate, Pnl, OpenIn, Streak, LastLossTs, HaltedBy;
    assert StateOf(s.perIndex, x).position == OpenIn(s.history, x);
    var o := Evaluated(x, q.ltp, Evaluate(pos, q, cfg.maxLoss, cfg.hysteresis));
    LawfulSnoc(cfg, s.history, o);
    HistorySnoc(cfg, s.history, o, x);
    var t := Exiting(cfg, s, x, pos, q, check);
    if |t.history| > |s.history| + 1 {
      LawfulSnoc(cfg, s.history + [o], t.history[|s.history| + 1]);
    }
  }

  lemma {:induction false} RunLawful(cfg: Config, log: Log, now: int, actions: seq<Action>)
    ensures Lawful(cfg, Run(cfg, log, now, actions).history)
  {
    hide Lawful, Do, Boot;
    if actions == [] {
      BootLawful(cfg, log, now);
    } else {
      var before := actions[..|actions| - 1];
      RunLawful(cfg, log, now, before);
      RunPreserves(cfg, log, now, before);
      DoLawful(cfg, |Reconcile(log, now)|, Run(cfg, log, now, before), actions[|actions| - 1]);
    }
  }

  lemma BootLawful(cfg: Config, log: Log, now: int)
    ensures Lawful(cfg, Boot(log, now).history)
  {}

  /** Minutes since midnight in India, with a fraction. */
  function MinuteOfDay(ts: int): real { ((ts + 19_800_000) % 86_400_000) as real / 60_000.0 }

  /** Every entry of every run passes its gate within trading hours less the configured margins. */
  lemma EntriesInsideHours(cfg: Config, log: Log, now: int, actions: seq<Action>, j: int)
    requires 0 <= j < |Run(cfg, log, now, actions).history| && Run(cfg, log, now, actions).history[j].Entered?
    ensures var t := MinuteOfDay(Run(cfg, log, now, actions).history[j].gateTs);
      555.0 + cfg.openMin as real <= t <= 930.0 - cfg.closeMin as real
  {
    hide Run, HaltedBy, Streak, OpenIn, LastLossTs;
    var h := Run(cfg, log, now, actions).history;
    RunLawful(cfg, log, now, actions);
    assert LawfulAt(cfg, h[..j], h[j]);
  }

  // ---- halts, big losses and the cooldown, between two clears ----

  predicate ClearedBetween(h: History, i: int, j: int, x: string)
    requires 0 <= i <= j <= |h|
  {
    exists k :: i < k < j && Clears(h[k], x)
  }

  /** A big loss keeps its index halted until the counters are cleared. */
  lemma {:induction false} HaltPersists(cfg: Config, h: History, i: int, j: int, x: string)
    requires 0 <= i < j <= |h| && BigLossOf(cfg, h[i], x) && !ClearedBetween(h, i, j, x)
    ensures HaltedBy(cfg, h[..j], x)
    decreases j
  {
    assert h[..j][..j - 1] == h[..j - 1];
    if j == i + 1 {
    } else {
      assert !Clears(h[j - 1], x);
      HaltPersists(cfg, h, i, j - 1, x);
    }
  }

  /**
   Between two clears of its counters an index sees at most one big loss, and no entry
   after it.
   */
  lemma OneBigLossPerSession(cfg: Config, log: Log, now: int, actions: seq<Action>, i: int, j: int, x: string)
    requires var h := Run(cfg, log, now, actions).history;
      && 0 <= i < j < |h| && BigLossOf(cfg, h[i], x)
      && (BigLossOf(cfg, h[j], x) || (h[j].Entered? && h[j].index == x))
    ensures ClearedBetween(Run(cfg, log, now, actions).history, i, j, x)
  {
    hide Run, HaltedBy;
    var h := Run(cfg, log, now, actions).history;
    RunLawful(cfg, log, now, actions);
    assert LawfulAt(cfg, h[..j], h[j]);
    if !ClearedBetween(h, i, j, x) {
      HaltPersists(cfg, h, i, j, x);
    }
  }

  /** Clock readings at losing closes of one index are positive and do not go back. */
  ghost predicate LossClockMonotone(h: History, x: string) {
    && (forall a :: 0 <= a < |h| && LossOf(h[a], x) ==> h[a].closeTs > 0)
    && (forall a, b :: 0 <= a < b < |h| && LossOf(h[a], x) && LossOf(h[b], x) ==> h[a].closeTs <= h[b].closeTs)
  }

  lemma {:induction false} LastLossAtLeast(h: History, i: int, j: int, x: string)
    requires 0 <= i < j <= |h| && LossOf(h[i], x) && LossClockMonotone(h, x) && !ClearedBetween(h, i, j, x)
    ensures LastLossTs(h[..j], x) >= h[i].closeTs
    decreases j
  {
    assert h[..j][..j - 1] == h[..j - 1];
    if j == i + 1 {
    } else {
      assert !Clears(h[j - 1], x);
      LastLossAtLeast(h, i, j - 1, x);
    }
  }

  /** After a losing close no entry on that index until the cooldown has passed. */
  lemma CooldownRespected(cfg: Config, log: Log, now: int, actions: seq<Action>, i: int, j: int, x: string)
    requires var h := Run(cfg, log, now, actions).history;
      && 0 <= i < j < |h| && LossOf(h[i], x) && h[j].Entered? && h[j].index == x
      && LossClockMonotone(h, x) && !ClearedBetween(h, i, j, x)
    ensures var h := Run(cfg, log, now, actions).history;
      h[j].gateTs - h[i].closeTs >= cfg.cooldownS * 1000
  {
    hide Run, HaltedBy, Streak, OpenIn;
    var h := Run(cfg, log, now, actions).history;
    RunLawful(cfg, log, now, actions);
    LastLossAtLeast(h, i, j, x);
    assert LawfulAt(cfg, h[..j], h[j]);
  }

  // ---- a halt does not always last the day ----

  /** One index tick keeps a halt exactly when the index was already reset on that date. */
  lemma HaltSurvivesReset(cfg: Config, s: Engine, x: string, today: string)
    requires x in s.perIndex && s.perIndex[x].halted
    ensures Do(cfg, s, ResetDay(today)).perIndex[x].halted <==> s.perIndex[x].dayResetDate == today
  {}

  predicate SameDay(a: Action, today: string) {
    !a.Restart? && (a.ResetDay? ==> a.today == today)
  }

  /** From then on the halt holds for the rest of that day, whatever happens. */
  lemma {:induction false} HaltHolds(cfg: Config, s: Engine, x: string, today: string, actions: seq<Action>)
    requires x in s.perIndex && s.perIndex[x].halted && s.perIndex[x].dayResetDate == today
    requires forall i :: 0 <= i < |actions| ==> SameDay(actions[i], today)
    ensures var t := DoAll(cfg, s, actions);
      x in t.perIndex && t.perIndex[x].halted && t.perIndex[x].dayResetDate == today
  {
    if actions == [] {
    } else {
      var before, a := actions[..|actions| - 1], actions[|actions| - 1];
      HaltHolds(cfg, s, x, today, before);
      assert SameDay(a, today);
      hide DoAll;
      DoKeepsHalt(cfg, DoAll(cfg, s, before), x, today, a);
    }
  }

  lemma DoKeepsHalt(cfg: Config, s: Engine, x: string, today: string, a: Action)
    requires x in s.perIndex && s.perIndex[x].halted && s.perIndex[x].dayResetDate == today
    requires SameDay(a, today)
    ensures var t := Do(cfg, s, a);
      x in t.perIndex && t.perIndex[x].halted && t.perIndex[x].dayResetDate == today
  {
    hide PE.Executor.Submit, Evaluate, Pnl, BuildExitLevels;
  }

  // A concrete run that loses a halt on the very day it was earned.

  const DEMO := Config(2, 180, 2, 1000.0, 1000.0, 5.0, 300, 15, 30, map["SENSEX" := 1], PE.FREE)
  const NOON := 23_400_000 // 12:00 in India on the epoch date
  const DEMO_CANDIDATE := Candidate(79000, CE, 100.0, None, None, NOON, NOON, NOON)
  const DEMO_QUOTE := Quote(40.0, NOON + 2, NeutralBias, None, None, None)
  const DEMO_ENTRY := OptionTick("SENSEX", ExitCheck(None, 0, 0, 0), NOON, Some(DEMO_CANDIDATE))
  const DEMO_CHECK := ExitCheck(Some(DEMO_QUOTE), NOON + 2, NOON + 2, NOON + 2)
  const DEMO_EXIT := OptionTick("SENSEX", DEMO_CHECK, NOON + 2, None)

  /**
   The index's state is created by an option tick, a big loss halts it, and the first
   index tick after that counts as its day reset.
   */
  lemma HaltLostSameDay(today: string)
    requires today != ""
    ensures var halted := DoAll(DEMO, DoAll(DEMO, Boot([], 0), DEMO_ENTRY), DEMO_EXIT);
      && "SENSEX" in halted.perIndex && halted.perIndex["SENSEX"].halted
      && !Do(DEMO, halted, ResetDay(today)).perIndex["SENSEX"].halted
  {
    hide Do;
    DemoEnters();
    var s := DoAll(DEMO, Boot([], 0), DEMO_ENTRY);
    DemoExits(s);
    hide DoAll, DemoHeld;
    HaltSurvivesReset(DEMO, DoAll(DEMO, s, DEMO_EXIT), "SENSEX", today);
  }

  ghost predicate DemoHeld(s: Engine) {
    && "SENSEX" in s.perIndex && s.perIndex["SENSEX"].position.Some?
    && s.perIndex["SENSEX"].dayResetDate == ""
    && s.perIndex["SENSEX"].position.value.entryLtp == 100.0
    && s.perIndex["SENSEX"].position.value.lots == 1 && s.perIndex["SENSEX"].position.value.lotSize == 20
  }

  lemma DemoEnters()
    ensures DemoHeld(DoAll(DEMO, Boot([], 0), DEMO_ENTRY))
  {
    var x, s := "SENSEX", Boot([], 0);
    hide BuildExitLevels, PE.Executor.Submit, Reconcile, DoAll, Exiting;
    DoThree(DEMO, s, Touch(x), CheckExit(x, None, ExitCheck(None, 0, 0, 0)), TryEntry(x, NOON, Some(DEMO_CANDIDATE)));
    var touched := Do(DEMO, s, Touch(x));
    assert touched.perIndex == map[x := FRESH] && OpenIndices(touched.perIndex) == {};
    assert AllowEntry(DEMO, touched.perIndex, x, NOON) == Allowed;
    hide AllowEntry;
    PE.FreeFill(PE.Order(PE.BUY, 20, 100.0), 2000);
    assert BuyOrder(DEMO, x, DEMO_CANDIDATE) == PE.Order(PE.BUY, 20, 100.0);
  }

  lemma DemoExits(s: Engine)
    requires DemoHeld(s)
    ensures var t := DoAll(DEMO, s, DEMO_EXIT);
      "SENSEX" in t.perIndex && t.perIndex["SENSEX"].halted && t.perIndex["SENSEX"].dayResetDate == ""
  {
    var x := "SENSEX";
    hide PE.Executor.Submit, DoAll, Entering, AllowEntry;
    DoThree(DEMO, s, Touch(x), CheckExit(x, None, DEMO_CHECK), TryEntry(x, NOON + 2, None));
    assert s.perIndex[x := StateOf(s.perIndex, x)] == s.perIndex;
    var p := s.perIndex[x].position.value;
    assert Evaluate(p, DEMO_QUOTE, 1000.0, 5.0) == Some(DollarStop);
    hide Evaluate;
    PE.FreeFill(PE.Order(PE.SELL, 20, 40.0), 800);
    assert Pnl(p, PE.Fill(PE.S, 20, 40.0, 0.0)) == -1200.0;
  }
}
