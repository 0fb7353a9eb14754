/**
 The signal gate: a cooldown per strategy and instrument, then a sliding-window rate
 limit that keeps only an evicted queue per strategy, then emission and counting.
 */
module SignalGate {
  import opened Common
  import opened PaperExecution

  datatype Signal = Signal(strategy: string, instrument: string, index: string, action: Action, ts: int)

  type CooldownKey = (string, string)

  const HOUR_MS := 3_600_000
  const DAY_MS := 86_400_000

  datatype Limits = Limits(maxPerHour: int, maxPerDay: int, indices: Option<set<string>>, actions: set<Action>) {
    predicate Listed(sig: Signal) {
      && (indices.Some? ==> sig.index in indices.value)
      && (actions == {} || sig.action in actions)
    }
  }

  // ---- the two gates ----

  function KeyOf(sig: Signal): CooldownKey { (sig.strategy, sig.instrument) }

  predicate TooSoon(cooldownMs: int, last: map<CooldownKey, int>, sig: Signal) {
    KeyOf(sig) in last && sig.ts - last[KeyOf(sig)] < cooldownMs
  }

  type Queues = map<string, seq<int>>

  /** Drop from the front while the oldest entry is before the cutoff. */
  function Evict(q: seq<int>, cutoff: int): seq<int> {
    if q != [] && q[0] < cutoff then Evict(q[1..], cutoff) else q
  }

  /** Entries at or after the cutoff. */
  function CountSince(q: seq<int>, cutoff: int): nat {
    if q == [] then 0 else CountSince(q[..|q| - 1], cutoff) + (if q[|q| - 1] >= cutoff then 1 else 0)
  }

  function QueueOf(queues: Queues, strategy: string): seq<int> {
    if strategy in queues then queues[strategy] else []
  }

  function Evicted(queues: Queues, sig: Signal): seq<int> { Evict(QueueOf(queues, sig.strategy), sig.ts - DAY_MS) }

  predicate Allows(lim: Limits, queues: Queues, sig: Signal) {
    var q := Evicted(queues, sig);
    lim.Listed(sig) && CountSince(q, sig.ts - HOUR_MS) < lim.maxPerHour && |q| < lim.maxPerDay
  }

  function AfterRisk(lim: Limits, queues: Queues, sig: Signal): Queues {
    if !lim.Listed(sig) then queues
    else
      var q := Evicted(queues, sig);
      queues[sig.strategy := if Allows(lim, queues, sig) then q + [sig.ts] else q]
  }

  // ---- the reference rule over the whole history ----

  /** The rate limit as counting over everything ever admitted. */
  predicate ReferenceAllows(lim: Limits, history: seq<int>, sig: Signal) {
    && (lim.indices == None || sig.index in lim.indices.value)
    && (lim.actions != {} ==> sig.action in lim.actions)
    && CountSince(history, sig.ts - HOUR_MS) < lim.maxPerHour
    && CountSince(history, sig.ts - DAY_MS) < lim.maxPerDay
  }

  function QueuesAfter(lim: Limits, sigs: seq<Signal>): Queues {
    if sigs == [] then map[] else AfterRisk(lim, QueuesAfter(lim, sigs[..|sigs| - 1]), sigs[|sigs| - 1])
  }

  /** Times of all signals of a strategy admitted so far. */
  function Admitted(lim: Limits, sigs: seq<Signal>, strategy: string): seq<int> {
    if sigs == [] then []
    else
      var before, sig := sigs[..|sigs| - 1], sigs[|sigs| - 1];
      var rest := Admitted(lim, before, strategy);
      if sig.strategy == strategy && Allows(lim, QueuesAfter(lim, before), sig) then rest + [sig.ts] else rest
  }

  predicate InOrder(sigs: seq<Signal>, strategy: string) {
    forall i, j :: 0 <= i < j < |sigs| && sigs[i].strategy == strategy && sigs[j].strategy == strategy ==>
      sigs[i].ts <= sigs[j].ts
  }

  predicate Sorted(q: seq<int>) { forall i, j :: 0 <= i < j < |q| ==> q[i] <= q[j] }

  lemma {:induction false} CountAll(q: seq<int>, cutoff: int)
    requires forall i :: 0 <= i < |q| ==> q[i] >= cutoff
    ensures CountSince(q, cutoff) == |q|
  {
    if q == [] {
    } else {
      CountAll(q[..|q| - 1], cutoff);
    }
  }

  lemma {:induction false} CountNone(q: seq<int>, cutoff: int)
    requires forall i :: 0 <= i < |q| ==> q[i] < cutoff
    ensures CountSince(q, cutoff) == 0
  {
    if q == [] {
    } else {
      CountNone(q[..|q| - 1], cutoff);
    }
  }

  lemma {:induction false} CountConcat(a: seq<int>, b: seq<int>, cutoff: int)
    ensures CountSince(a + b, cutoff) == CountSince(a, cutoff) + CountSince(b, cutoff)
  {
    if b == [] {
      assert a + b == a;
    } else {
      assert (a + b)[..|a + b| - 1] == a + b[..|b| - 1];
      CountConcat(a, b[..|b| - 1], cutoff);
    }
  }

  /** Evicting takes off entries before the cutoff and stops at the first that is not. */
  lemma {:induction false} EvictSplits(q: seq<int>, cutoff: int)
    ensures var e := Evict(q, cutoff);
      && |e| <= |q| && q == q[..|q| - |e|] + e
      && (forall i :: 0 <= i < |q| - |e| ==> q[i] < cutoff)
      && (e != [] ==> e[0] >= cutoff)
  {
    if q == [] || q[0] >= cutoff {
    } else {
      EvictSplits(q[1..], cutoff);
      var e := Evict(q[1..], cutoff);
      forall i | 0 <= i < |q| - |e| ensures q[i] < cutoff {
        if i > 0 { assert q[i] == q[1..][i - 1]; }
      }
      assert q == q[..|q| - |e|] + e;
    }
  }

  // ---- the queue and the history, for times in any order ----

  /** No signal of the strategy is later than `top`. */
  predicate Below(sigs: seq<Signal>, strategy: string, top: int) {
    forall i :: 0 <= i < |sigs| && sigs[i].strategy == strategy ==> sigs[i].ts <= top
  }

  /** `history` is what was evicted, all more than a day before `top`, followed by the queue. */
  ghost predicate QueueKept(history: seq<int>, q: seq<int>, top: int) {
    && |q| <= |history| && history == history[..|history| - |q|] + q
    && (forall i :: 0 <= i < |history| - |q| ==> history[i] < top - DAY_MS)
  }

  lemma {:induction false} QueueIsSuffix(lim: Limits, sigs: seq<Signal>, strategy: string, top: int)
    requires Below(sigs, strategy, top)
    ensures QueueKept(Admitted(lim, sigs, strategy), QueueOf(QueuesAfter(lim, sigs), strategy), top)
  {
    hide Evict, CountSince;
    if sigs == [] {
    } else {
      var before, sig := sigs[..|sigs| - 1], sigs[|sigs| - 1];
      QueueIsSuffix(lim, before, strategy, top);
      if sig.strategy == strategy {
        var history := Admitted(lim, before, strategy);
        EvictionKept(history, QueueOf(QueuesAfter(lim, before), strategy), sig.ts, top);
        var q := Evicted(QueuesAfter(lim, before), sig);
        assert QueueKept(history, q, top);
        assert history + [sig.ts] == (history[..|history| - |q|] + q) + [sig.ts]
               == history[..|history| - |q|] + (q + [sig.ts]);
        assert (history + [sig.ts])[..|history| - |q|] == history[..|history| - |q|];
      }
    }
  }

  lemma EvictionKept(history: seq<int>, q: seq<int>, now: int, top: int)
    requires QueueKept(history, q, top) && now <= top
    ensures QueueKept(history, Evict(q, now - DAY_MS), top)
  {
    hide Evict;
    EvictSplits(q, now - DAY_MS);
    var e := Evict(q, now - DAY_MS);
    var n, m := |history| - |q|, |history| - |e|;
    assert history == history[..n] + (q[..|q| - |e|] + e) == (history[..n] + q[..|q| - |e|]) + e;
    assert history[..m] == history[..n] + q[..|q| - |e|];
    forall i | 0 <= i < m ensures history[i] < top - DAY_MS {
      if i >= n { assert history[i] == q[i - n]; }
    }
  }

  /** The admitted times the queue no longer holds when `sig` is judged. */
  function Gone(lim: Limits, sigs: seq<Signal>, sig: Signal): seq<int> {
    var history, q := Admitted(lim, sigs, sig.strategy), Evicted(QueuesAfter(lim, sigs), sig);
    history[..Max(|history| - |q|, 0)]
  }

  /** Whatever the order of times, the history is what is gone followed by the queue. */
  lemma HistorySplits(lim: Limits, sigs: seq<Signal>, sig: Signal, top: int)
    requires Below(sigs, sig.strategy, top) && sig.ts <= top
    ensures Admitted(lim, sigs, sig.strategy) == Gone(lim, sigs, sig) + Evicted(QueuesAfter(lim, sigs), sig)
    ensures forall i :: 0 <= i < |Gone(lim, sigs, sig)| ==> Gone(lim, sigs, sig)[i] < top - DAY_MS
  {
    hide Evict, Admitted, QueuesAfter;
    QueueIsSuffix(lim, sigs, sig.strategy, top);
    EvictionKept(Admitted(lim, sigs, sig.strategy), QueueOf(QueuesAfter(lim, sigs), sig.strategy), sig.ts, top);
  }

  /**
   Both window counts agree: no evicted time is back inside the hour, and as many evicted
   times are back inside the day as queued ones lie outside it.
   */
  predicate CountsAgree(lim: Limits, sigs: seq<Signal>, sig: Signal) {
    var gone, q := Gone(lim, sigs, sig), Evicted(QueuesAfter(lim, sigs), sig);
    && CountSince(gone, sig.ts - HOUR_MS) == 0
    && CountSince(gone, sig.ts - DAY_MS) == |q| - CountSince(q, sig.ts - DAY_MS)
  }

  predicate UnderCaps(inHour: nat, inDay: nat, perHour: int, perDay: int) { inHour < perHour && inDay < perDay }

  /** Under every pair of caps both pairs of counts answer alike. */
  ghost predicate SameVerdicts(a: nat, b: nat, c: nat, d: nat) {
    forall perHour, perDay :: UnderCaps(a, b, perHour, perDay) <==> UnderCaps(c, d, perHour, perDay)
  }

  /**
   The exact condition, for times in any order: judged under every pair of caps, the counts
   the queue gives and those of the whole history answer alike exactly when both agree.
   */
  lemma LimiterExactIff(lim: Limits, sigs: seq<Signal>, sig: Signal)
    ensures var q, history := Evicted(QueuesAfter(lim, sigs), sig), Admitted(lim, sigs, sig.strategy);
      CountsAgree(lim, sigs, sig) <==>
        SameVerdicts(CountSince(q, sig.ts - HOUR_MS), |q|,
                     CountSince(history, sig.ts - HOUR_MS), CountSince(history, sig.ts - DAY_MS))
    ensures CountsAgree(lim, sigs, sig) ==>
              (Allows(lim, QueuesAfter(lim, sigs), sig)
               <==> ReferenceAllows(lim, Admitted(lim, sigs, sig.strategy), sig))
  {
    hide CountSince, Evicted, Admitted, QueuesAfter, Gone;
    var top := UpperBound(sigs + [sig]);
    assert forall i :: 0 <= i < |sigs| ==> (sigs + [sig])[i] == sigs[i];
    assert (sigs + [sig])[|sigs|] == sig;
    HistorySplits(lim, sigs, sig, top);
    var gone, q := Gone(lim, sigs, sig), Evicted(QueuesAfter(lim, sigs), sig);
    CountConcat(gone, q, sig.ts - HOUR_MS);
    CountConcat(gone, q, sig.ts - DAY_MS);
    SameUnderAllCaps(CountSince(q, sig.ts - HOUR_MS), |q|,
                     CountSince(gone + q, sig.ts - HOUR_MS), CountSince(gone + q, sig.ts - DAY_MS));
  }

  lemma SameUnderAllCaps(a: nat, b: nat, c: nat, d: nat)
    ensures SameVerdicts(a, b, c, d) <==> a == c && b == d
  {
    if SameVerdicts(a, b, c, d) {
      assert UnderCaps(a, b, a + 1, b + 1) && UnderCaps(c, d, a + 1, b + 1);
      assert UnderCaps(c, d, c + 1, d + 1) && UnderCaps(a, b, c + 1, d + 1);
    }
  }

  function UpperBound(sigs: seq<Signal>): (m: int)
    ensures forall i :: 0 <= i < |sigs| ==> sigs[i].ts <= m
  {
    if sigs == [] then 0 else Max(UpperBound(sigs[..|sigs| - 1]), sigs[|sigs| - 1].ts)
  }

  /** A signal at or after all earlier ones is never admitted against the history. */
  lemma NeverTooLenient(lim: Limits, sigs: seq<Signal>, sig: Signal)
    requires Below(sigs, sig.strategy, sig.ts)
    ensures Allows(lim, QueuesAfter(lim, sigs), sig) ==> ReferenceAllows(lim, Admitted(lim, sigs, sig.strategy), sig)
  {
    hide CountSince, Evicted, Admitted, QueuesAfter, Gone;
    HistorySplits(lim, sigs, sig, sig.ts);
    var gone, q := Gone(lim, sigs, sig), Evicted(QueuesAfter(lim, sigs), sig);
    CountConcat(gone, q, sig.ts - HOUR_MS);
    CountConcat(gone, q, sig.ts - DAY_MS);
    CountNone(gone, sig.ts - HOUR_MS);
    CountNone(gone, sig.ts - DAY_MS);
    CountAtMost(q, sig.ts - DAY_MS);
  }

  lemma {:induction false} CountAtMost(q: seq<int>, cutoff: int)
    ensures CountSince(q, cutoff) <= |q|
  {
    if q == [] {
    } else {
      CountAtMost(q[..|q| - 1], cutoff);
    }
  }

  /** While the admitted times are in order, nothing is refused against the history, even a late signal. */
  lemma NeverTooStrict(lim: Limits, sigs: seq<Signal>, sig: Signal)
    requires Sorted(Admitted(lim, sigs, sig.strategy))
    ensures ReferenceAllows(lim, Admitted(lim, sigs, sig.strategy), sig) ==> Allows(lim, QueuesAfter(lim, sigs), sig)
  {
    hide CountSince, Admitted, QueuesAfter, Gone, Evict;
    var top := UpperBound(sigs + [sig]);
    assert forall i :: 0 <= i < |sigs| ==> (sigs + [sig])[i] == sigs[i];
    assert (sigs + [sig])[|sigs|] == sig;
    HistorySplits(lim, sigs, sig, top);
    EvictSplits(QueueOf(QueuesAfter(lim, sigs), sig.strategy), sig.ts - DAY_MS);
    var gone, q := Gone(lim, sigs, sig), Evicted(QueuesAfter(lim, sigs), sig);
    hide Evicted, QueueOf;
    forall i | 0 <= i < |q| ensures q[i] >= sig.ts - DAY_MS {
      assert (gone + q)[|gone|] == q[0] && (gone + q)[|gone| + i] == q[i];
    }
    CountAll(q, sig.ts - DAY_MS);
    CountConcat(gone, q, sig.ts - HOUR_MS);
    CountConcat(gone, q, sig.ts - DAY_MS);
  }

  /** Signals in order are admitted in order. */
  lemma {:induction false} AdmittedInOrder(lim: Limits, sigs: seq<Signal>, strategy: string, top: int)
    requires InOrder(sigs, strategy) && Below(sigs, strategy, top)
    ensures Sorted(Admitted(lim, sigs, strategy))
    ensures forall i :: 0 <= i < |Admitted(lim, sigs, strategy)| ==> Admitted(lim, sigs, strategy)[i] <= top
  {
    hide Allows, QueuesAfter;
    if sigs == [] {
    } else {
      var before, sig := sigs[..|sigs| - 1], sigs[|sigs| - 1];
      AdmittedInOrder(lim, before, strategy, if sig.strategy == strategy then sig.ts else top);
    }
  }

  /**
   The evicting queue answers exactly as counting over the whole admitted history would,
   for any signals whose times do not go back per strategy.
   */
  lemma RateLimitRefines(lim: Limits, sigs: seq<Signal>, sig: Signal)
    requires InOrder(sigs + [sig], sig.strategy)
    ensures Allows(lim, QueuesAfter(lim, sigs), sig)
            <==> ReferenceAllows(lim, Admitted(lim, sigs, sig.strategy), sig)
  {
    hide Allows, ReferenceAllows, QueuesAfter, Admitted;
    var all := sigs + [sig];
    assert all[|sigs|] == sig && forall i :: 0 <= i < |sigs| ==> all[i] == sigs[i];
    AdmittedInOrder(lim, sigs, sig.strategy, sig.ts);
    NeverTooLenient(lim, sigs, sig);
    NeverTooStrict(lim, sigs, sig);
  }

  const LOOSE := Limits(2, 2, None, {})

  function At(t: int): Signal { Signal("s", "x", "NIFTY50", BUY, t) }

  lemma LooseFirst()
    ensures QueuesAfter(LOOSE, [At(10)]) == map["s" := [10]] && Admitted(LOOSE, [At(10)], "s") == [10]
  {
    assert [At(10)][..0] == [] && QueuesAfter(LOOSE, []) == map[];
    assert Evicted(map[], At(10)) == [] && [] + [10] == [10];
    assert Allows(LOOSE, map[], At(10));
  }

  lemma LooseSecond()
    ensures var sigs := [At(10), At(DAY_MS + 11)];
      QueuesAfter(LOOSE, sigs) == map["s" := [DAY_MS + 11]] && Admitted(LOOSE, sigs, "s") == [10, DAY_MS + 11]
  {
    LooseFirst();
    assert [At(10), At(DAY_MS + 11)][..1] == [At(10)];
    assert [10][1..] == [] && [] + [DAY_MS + 11] == [DAY_MS + 11];
    assert Evict([10], 11) == Evict([], 11) == [];
    assert Evicted(map["s" := [10]], At(DAY_MS + 11)) == [];
    assert Allows(LOOSE, map["s" := [10]], At(DAY_MS + 11));
  }

  /** With times out of order the queue can forget a signal the history still counts. */
  lemma OutOfOrderForgets()
    ensures var sigs := [At(10), At(DAY_MS + 11)];
      && Allows(LOOSE, QueuesAfter(LOOSE, sigs), At(10))
      && !ReferenceAllows(LOOSE, Admitted(LOOSE, sigs, "s"), At(10))
  {
    hide QueuesAfter, Admitted;
    LooseSecond();
    var history := [10, DAY_MS + 11];
    assert history[..1] == [10] && CountSince([10], 10 - HOUR_MS) == 1 && CountSince(history, 10 - HOUR_MS) == 2;
    var q := [DAY_MS + 11];
    assert Evicted(map["s" := q], At(10)) == q && q[..0] == [] && CountSince(q, 10 - HOUR_MS) == 1;
  }

  lemma LooseStale()
    ensures var sigs := [At(10), At(5)];
      QueuesAfter(LOOSE, sigs) == map["s" := [10, 5]] && Admitted(LOOSE, sigs, "s") == [10, 5]
  {
    LooseFirst();
    assert [At(10), At(5)][..1] == [At(10)];
    var q := [10];
    assert Evicted(map["s" := q], At(5)) == q && q[..0] == [] && CountSince(q, 5 - HOUR_MS) == 1;
    assert q + [5] == [10, 5];
    assert Allows(LOOSE, map["s" := q], At(5));
  }

  /** And it can refuse what the history would admit: a stale time counts on behind a newer front. */
  lemma OutOfOrderOvercounts()
    ensures var sigs, sig := [At(10), At(5)], At(DAY_MS + 7);
      && !Allows(LOOSE, QueuesAfter(LOOSE, sigs), sig)
      && ReferenceAllows(LOOSE, Admitted(LOOSE, sigs, "s"), sig)
  {
    hide QueuesAfter, Admitted;
    LooseStale();
    var q, sig := [10, 5], At(DAY_MS + 7);
    assert Evicted(map["s" := q], sig) == q;
    assert q[..1] == [10] && [10][..0] == [];
    assert CountSince([10], 7) == 1 && CountSince(q, 7) == 1;
    assert CountSince([10], sig.ts - HOUR_MS) == 0 && CountSince(q, sig.ts - HOUR_MS) == 0;
  }

  // ---- windows ----

  /** Entries within the closed window [lo, hi]. */
  function CountIn(q: seq<int>, lo: int, hi: int): nat {
    if q == [] then 0 else CountIn(q[..|q| - 1], lo, hi) + (if lo <= q[|q| - 1] <= hi then 1 else 0)
  }

  lemma {:induction false} CountInBelow(q: seq<int>, lo: int, hi: int, cutoff: int)
    requires cutoff <= lo
    ensures CountIn(q, lo, hi) <= CountSince(q, cutoff)
  {
    if q == [] {
    } else {
      CountInBelow(q[..|q| - 1], lo, hi, cutoff);
    }
  }

  /** Admitting one more signal keeps both windows within their caps. */
  lemma WindowStep(lim: Limits, history: seq<int>, sig: Signal, lo: int)
    requires ReferenceAllows(lim, history, sig)
    requires CountIn(history, lo, lo + HOUR_MS) <= Max(lim.maxPerHour, 0)
    requires CountIn(history, lo, lo + DAY_MS) <= Max(lim.maxPerDay, 0)
    ensures CountIn(history + [sig.ts], lo, lo + HOUR_MS) <= Max(lim.maxPerHour, 0)
    ensures CountIn(history + [sig.ts], lo, lo + DAY_MS) <= Max(lim.maxPerDay, 0)
  {
    hide CountSince, Limits.Listed;
    assert (history + [sig.ts])[..|history|] == history;
    if sig.ts <= lo + HOUR_MS { CountInBelow(history, lo, lo + HOUR_MS, sig.ts - HOUR_MS); }
    if sig.ts <= lo + DAY_MS { CountInBelow(history, lo, lo + DAY_MS, sig.ts - DAY_MS); }
  }

  /** No closed hour holds more than the hourly cap, no closed day more than the daily one. */
  lemma {:induction false} WindowsCapped(lim: Limits, sigs: seq<Signal>, strategy: string, lo: int)
    requires InOrder(sigs, strategy)
    ensures CountIn(Admitted(lim, sigs, strategy), lo, lo + 3_600_000) <= Max(lim.maxPerHour, 0)
    ensures CountIn(Admitted(lim, sigs, strategy), lo, lo + 86_400_000) <= Max(lim.maxPerDay, 0)
  {
    hide Allows, CountSince, QueuesAfter, ReferenceAllows;
    if sigs == [] {
    } else {
      var before, sig := sigs[..|sigs| - 1], sigs[|sigs| - 1];
      assert sigs == before + [sig];
      WindowsCapped(lim, before, strategy, lo);
      if sig.strategy == strategy && Allows(lim, QueuesAfter(lim, before), sig) {
        RateLimitRefines(lim, before, sig);
        WindowStep(lim, Admitted(lim, before, strategy), sig, lo);
      }
    }
  }

  // ---- the whole gate ----

  /** Either gate can be switched off. */
  datatype Config = Config(cooldownMs: Option<int>, limits: Option<Limits>)

  /** `reached` are the signals that got past the cooldown, `emitted` past both gates. */
  datatype Gate = Gate(
    last: map<CooldownKey, int>, queues: Queues,
    reached: seq<Signal>, emitted: seq<Signal>,
    suppressedCooldown: nat, suppressedRisk: nat,
    byStrategy: map<string, nat>, byAction: map<Action, nat>)

  function Emit(g: Gate, sig: Signal): Gate {
    g.(emitted := g.emitted + [sig],
       byStrategy := Bump(g.byStrategy, sig.strategy), byAction := Bump(g.byAction, sig.action))
  }

  function Handle(c: Config, g: Gate, sig: Signal): Gate {
    if c.cooldownMs.Some? && TooSoon(c.cooldownMs.value, g.last, sig) then
      g.(suppressedCooldown := g.suppressedCooldown + 1)
    else
      var passed := g.(last := if c.cooldownMs.Some? then g.last[KeyOf(sig) := sig.ts] else g.last,
                       reached := g.reached + [sig]);
      if c.limits == None then Emit(passed, sig)
      else
        var risked := passed.(queues := AfterRisk(c.limits.value, g.queues, sig));
        if Allows(c.limits.value, g.queues, sig) then Emit(risked, sig)
        else risked.(suppressedRisk := risked.suppressedRisk + 1)
  }

  const IDLE := Gate(map[], map[], [], [], 0, 0, map[], map[])

  function HandleAll(c: Config, sigs: seq<Signal>): Gate {
    if sigs == [] then IDLE else Handle(c, HandleAll(c, sigs[..|sigs| - 1]), sigs[|sigs| - 1])
  }

  /** What each outcome does to the books. */
  lemma HandleCases(c: Config, g: Gate, sig: Signal)
    ensures var t := Handle(c, g, sig);
      || (t.emitted == g.emitted + [sig] && t.suppressedCooldown == g.suppressedCooldown
          && t.suppressedRisk == g.suppressedRisk
          && t.byStrategy == Bump(g.byStrategy, sig.strategy) && t.byAction == Bump(g.byAction, sig.action))
      || (t.emitted == g.emitted && t.byStrategy == g.byStrategy && t.byAction == g.byAction
          && t.suppressedCooldown + t.suppressedRisk == g.suppressedCooldown + g.suppressedRisk + 1)
  {
    hide Allows, AfterRisk, TooSoon, Bump;
  }

  /** Every offered signal is emitted or suppressed once, and the breakdowns add up. */
  lemma {:induction false} EverySignalCounted(c: Config, sigs: seq<Signal>)
    ensures var g := HandleAll(c, sigs);
      && |g.emitted| + g.suppressedCooldown + g.suppressedRisk == |sigs|
      && Total(g.byStrategy, AsReal) == |g.emitted| as real
      && Total(g.byAction, AsReal) == |g.emitted| as real
  {
    hide Handle, Bump;
    if sigs == [] {
    } else {
      var g, sig := HandleAll(c, sigs[..|sigs| - 1]), sigs[|sigs| - 1];
      EverySignalCounted(c, sigs[..|sigs| - 1]);
      HandleCases(c, g, sig);
      BumpTotal(g.byStrategy, sig.strategy);
      BumpTotal(g.byAction, sig.action);
    }
  }

  // ---- the breakdowns key by key ----

  function StrategyCount(emitted: seq<Signal>, strategy: string): nat {
    if emitted == [] then 0
    else
      StrategyCount(emitted[..|emitted| - 1], strategy) + (if emitted[|emitted| - 1].strategy == strategy then 1 else 0)
  }

  function ActionCount(emitted: seq<Signal>, action: Action): nat {
    if emitted == [] then 0
    else ActionCount(emitted[..|emitted| - 1], action) + (if emitted[|emitted| - 1].action == action then 1 else 0)
  }

  /** Each breakdown counts the emitted signals of each strategy and of each action. */
  ghost predicate BrokenDown(g: Gate) {
    && (forall k :: k in g.byStrategy ==> g.byStrategy[k] == StrategyCount(g.emitted, k))
    && (forall k :: k !in g.byStrategy ==> StrategyCount(g.emitted, k) == 0)
    && (forall a :: a in g.byAction ==> g.byAction[a] == ActionCount(g.emitted, a))
    && (forall a :: a !in g.byAction ==> ActionCount(g.emitted, a) == 0)
  }

  lemma EmitBreaksDown(g: Gate, sig: Signal)
    requires BrokenDown(g)
    ensures BrokenDown(Emit(g, sig))
  {
    assert (g.emitted + [sig])[..|g.emitted|] == g.emitted;
  }

  lemma BrokenDownBy(g: Gate, t: Gate)
    requires BrokenDown(g) && t.emitted == g.emitted && t.byStrategy == g.byStrategy && t.byAction == g.byAction
    ensures BrokenDown(t)
  {
    hide StrategyCount, ActionCount;
  }

  lemma {:induction false} CountsByKey(c: Config, sigs: seq<Signal>)
    ensures BrokenDown(HandleAll(c, sigs))
  {
    if sigs == [] {
    } else {
      hide BrokenDown, Handle;
      var g, sig := HandleAll(c, sigs[..|sigs| - 1]), sigs[|sigs| - 1];
      CountsByKey(c, sigs[..|sigs| - 1]);
      HandleBreaksDown(c, g, sig);
    }
  }

  lemma HandleBreaksDown(c: Config, g: Gate, sig: Signal)
    requires BrokenDown(g)
    ensures BrokenDown(Handle(c, g, sig))
  {
    hide BrokenDown, Allows, AfterRisk, TooSoon, Bump;
    var t := Handle(c, g, sig);
    if t.emitted == g.emitted {
      BrokenDownBy(g, t);
    } else {
      EmitBreaksDown(g, sig);
      BrokenDownBy(Emit(g, sig), t);
    }
  }

  /** Without a limiter everything past the cooldown is emitted, in order, and nothing is suppressed by risk. */
  lemma {:induction false} NoLimiterEmitsAll(c: Config, sigs: seq<Signal>)
    requires c.limits == None
    ensures var g := HandleAll(c, sigs); g.emitted == g.reached && g.suppressedRisk == 0
  {
    if sigs == [] {
    } else {
      hide TooSoon, Bump;
      NoLimiterEmitsAll(c, sigs[..|sigs| - 1]);
    }
  }

  function Distance(a: int, b: int): int { if a >= b then a - b else b - a }

  /** Emitted signals of one strategy and instrument are pairwise a cooldown apart. */
  ghost predicate Spaced(cooldownMs: int, emitted: seq<Signal>) {
    forall i, j :: 0 <= i < j < |emitted| && KeyOf(emitted[i]) == KeyOf(emitted[j]) ==>
      Distance(emitted[i].ts, emitted[j].ts) >= cooldownMs
  }

  /** Every emitted signal is at or before the last time recorded for its key. */
  ghost predicate Covered(g: Gate) {
    forall i :: 0 <= i < |g.emitted| ==>
      KeyOf(g.emitted[i]) in g.last && g.emitted[i].ts <= g.last[KeyOf(g.emitted[i])]
  }

  lemma HandleSpaces(c: Config, g: Gate, sig: Signal)
    requires c.cooldownMs.Some? && Spaced(c.cooldownMs.value, g.emitted)
    requires c.cooldownMs.value >= 0 ==> Covered(g)
    ensures Spaced(c.cooldownMs.value, Handle(c, g, sig).emitted)
    ensures c.cooldownMs.value >= 0 ==> Covered(Handle(c, g, sig))
  {
    hide Allows, AfterRisk, Bump;
    if !TooSoon(c.cooldownMs.value, g.last, sig) { SpacedSnoc(c.cooldownMs.value, g, sig); }
    hide TooSoon, Spaced;
  }

  lemma SpacedSnoc(cooldownMs: int, g: Gate, sig: Signal)
    requires Spaced(cooldownMs, g.emitted) && (cooldownMs >= 0 ==> Covered(g))
    requires !TooSoon(cooldownMs, g.last, sig)
    ensures Spaced(cooldownMs, g.emitted + [sig])
  {}

  /** Whatever the order of timestamps, the cooldown spaces what is emitted. */
  lemma {:induction false} CooldownSpaces(c: Config, sigs: seq<Signal>)
    requires c.cooldownMs.Some?
    ensures Spaced(c.cooldownMs.value, HandleAll(c, sigs).emitted)
    ensures c.cooldownMs.value >= 0 ==> Covered(HandleAll(c, sigs))
  {
    hide Handle;
    if sigs == [] {
    } else {
      CooldownSpaces(c, sigs[..|sigs| - 1]);
      HandleSpaces(c, HandleAll(c, sigs[..|sigs| - 1]), sigs[|sigs| - 1]);
    }
  }

  // ---- exactly which signals the cooldown holds back ----

  /** Signal `i` got past the cooldown. */
  predicate Passed(c: Config, sigs: seq<Signal>, i: int)
    requires 0 <= i < |sigs|
  {
    |HandleAll(c, sigs[..i + 1]).reached| > |HandleAll(c, sigs[..i]).reached|
  }

  /** Signal `i` was counted as suppressed by the cooldown. */
  predicate HeldBack(c: Config, sigs: seq<Signal>, i: int)
    requires 0 <= i < |sigs|
  {
    HandleAll(c, sigs[..i + 1]).suppressedCooldown > HandleAll(c, sigs[..i]).suppressedCooldown
  }

  predicate SameKey(a: Signal, b: Signal) { a.strategy == b.strategy && a.instrument == b.instrument }

  /** `j` is the latest signal before `i` on its strategy and instrument to get past the cooldown. */
  ghost predicate LatestPassed(c: Config, sigs: seq<Signal>, j: int, i: int)
    requires 0 <= i <= |sigs|
  {
    && 0 <= j < i && Passed(c, sigs, j)
    && forall k :: j < k < i && SameKey(sigs[k], sigs[j]) ==> !Passed(c, sigs, k)
  }

  lemma PassedPrefix(c: Config, sigs: seq<Signal>, n: int, i: int)
    requires 0 <= i < n <= |sigs|
    ensures Passed(c, sigs[..n], i) == Passed(c, sigs, i) && HeldBack(c, sigs[..n], i) == HeldBack(c, sigs, i)
  {
    assert sigs[..n][..i + 1] == sigs[..i + 1] && sigs[..n][..i] == sigs[..i];
  }

  /** Handling either gets past the cooldown or is held back by it, and records the time only in the first case. */
  lemma HandleCooldown(c: Config, g: Gate, sig: Signal)
    ensures var t := Handle(c, g, sig);
      if c.cooldownMs.Some? && TooSoon(c.cooldownMs.value, g.last, sig) then
        t.last == g.last && t.reached == g.reached && t.suppressedCooldown == g.suppressedCooldown + 1
      else
        && t.last == (if c.cooldownMs.Some? then g.last[KeyOf(sig) := sig.ts] else g.last)
        && t.reached == g.reached + [sig] && t.suppressedCooldown == g.suppressedCooldown
  {
    hide Allows, AfterRisk, Bump, TooSoon;
  }

  /** The recorded times are those of the latest signals past the cooldown. */
  lemma {:induction false} LastIsLatestPassed(c: Config, sigs: seq<Signal>, key: CooldownKey)
    requires c.cooldownMs.Some?
    ensures var last := HandleAll(c, sigs).last;
      && (key in last ==>
            exists j :: LatestPassed(c, sigs, j, |sigs|) && KeyOf(sigs[j]) == key && sigs[j].ts == last[key])
      && (key !in last ==> forall j :: 0 <= j < |sigs| && KeyOf(sigs[j]) == key ==> !Passed(c, sigs, j))
  {
    hide Handle, TooSoon, Passed, HeldBack;
    if sigs == [] {
    } else {
      var n := |sigs| - 1;
      var before, sig := sigs[..n], sigs[n];
      LastIsLatestPassed(c, before, key);
      StepPassed(c, sigs);
      forall j | 0 <= j < n ensures Passed(c, before, j) == Passed(c, sigs, j) { PassedPrefix(c, sigs, n, j); }
      var last := HandleAll(c, sigs).last;
      if key in last {
        if Passed(c, sigs, n) && KeyOf(sig) == key {
          assert LatestPassed(c, sigs, n, |sigs|);
        } else {
          var j :| LatestPassed(c, before, j, n) && KeyOf(before[j]) == key && before[j].ts == last[key];
          assert LatestPassed(c, sigs, j, |sigs|);
        }
      }
    }
  }

  /** The last signal's fate and what it does to the recorded times. */
  lemma StepPassed(c: Config, sigs: seq<Signal>)
    requires sigs != [] && c.cooldownMs.Some?
    ensures var n := |sigs| - 1;
      var before, after := HandleAll(c, sigs[..n]), HandleAll(c, sigs);
      && HeldBack(c, sigs, n) == !Passed(c, sigs, n) == TooSoon(c.cooldownMs.value, before.last, sigs[n])
      && after.last == if Passed(c, sigs, n) then before.last[KeyOf(sigs[n]) := sigs[n].ts] else before.last
  {
    hide TooSoon, Handle;
    var n := |sigs| - 1;
    assert sigs[..n + 1] == sigs;
    HandleCooldown(c, HandleAll(c, sigs[..n]), sigs[n]);
  }

  /**
   For any signals in any order: a signal is held back by the cooldown exactly when some
   earlier one of its strategy and instrument got past it and the latest such one is less
   than the cooldown before it.
   */
  lemma HeldBackIff(c: Config, sigs: seq<Signal>, i: int)
    requires 0 <= i < |sigs| && c.cooldownMs.Some?
    ensures HeldBack(c, sigs, i) == !Passed(c, sigs, i)
    ensures HeldBack(c, sigs, i) <==>
              exists j :: LatestPassed(c, sigs, j, i) && SameKey(sigs[j], sigs[i])
                          && sigs[i].ts - sigs[j].ts < c.cooldownMs.value
  {
    hide Handle, HandleAll, Passed, HeldBack;
    var upTo, before := sigs[..i + 1], sigs[..i];
    assert upTo[..i] == before;
    StepPassed(c, upTo);
    LastIsLatestPassed(c, before, KeyOf(sigs[i]));
    PassedPrefix(c, sigs, i + 1, i);
    forall j | 0 <= j < i ensures Passed(c, before, j) == Passed(c, sigs, j) { PassedPrefix(c, sigs, i, j); }
    if TooSoon(c.cooldownMs.value, HandleAll(c, before).last, sigs[i]) {
      var j :| LatestPassed(c, before, j, i) && KeyOf(before[j]) == KeyOf(sigs[i])
               && before[j].ts == HandleAll(c, before).last[KeyOf(sigs[i])];
      assert LatestPassed(c, sigs, j, i) && SameKey(sigs[j], sigs[i]);
    }
    if j :| LatestPassed(c, sigs, j, i) && SameKey(sigs[j], sigs[i]) && sigs[i].ts - sigs[j].ts < c.cooldownMs.value {
      assert KeyOf(before[j]) == KeyOf(sigs[i]);
      var k :| LatestPassed(c, before, k, i) && KeyOf(before[k]) == KeyOf(sigs[i])
               && before[k].ts == HandleAll(c, before).last[KeyOf(sigs[i])];
      assert k == j;
    }
  }

  /** A signal at least a cooldown after every earlier one on its key always reaches the limiter. */
  lemma LateEnoughPasses(c: Config, sigs: seq<Signal>, i: int)
    requires 0 <= i < |sigs|
    requires c.cooldownMs.Some? ==>
               forall j :: 0 <= j < i && SameKey(sigs[j], sigs[i]) ==> sigs[i].ts - sigs[j].ts >= c.cooldownMs.value
    ensures Passed(c, sigs, i)
  {
    if c.cooldownMs.Some? {
      hide Passed, HeldBack;
      HeldBackIff(c, sigs, i);
    } else {
      assert sigs[..i + 1][..i] == sigs[..i];
      hide Handle;
      HandleCooldown(c, HandleAll(c, sigs[..i]), sigs[i]);
    }
  }

  /** The times of the emitted signals of a strategy. */
  function EmittedTimes(sigs: seq<Signal>, strategy: string): seq<int> {
    if sigs == [] then []
    else
      var rest := EmittedTimes(sigs[..|sigs| - 1], strategy);
      if sigs[|sigs| - 1].strategy == strategy then rest + [sigs[|sigs| - 1].ts] else rest
  }

  /** The gate's queues and emitted times are those of the limiter on the reaching signals. */
  ghost predicate RunsLimiter(lim: Limits, g: Gate, strategy: string) {
    && g.queues == QueuesAfter(lim, g.reached)
    && EmittedTimes(g.emitted, strategy) == Admitted(lim, g.reached, strategy)
  }

  lemma HandleRunsLimiter(c: Config, g: Gate, sig: Signal, strategy: string)
    requires c.limits.Some? && RunsLimiter(c.limits.value, g, strategy)
    ensures RunsLimiter(c.limits.value, Handle(c, g, sig), strategy)
  {
    hide Allows, AfterRisk, TooSoon, Bump, QueuesAfter, Admitted, EmittedTimes;
    LimiterSnoc(c.limits.value, g, sig, strategy);
  }

  lemma LimiterSnoc(lim: Limits, g: Gate, sig: Signal, strategy: string)
    requires RunsLimiter(lim, g, strategy)
    ensures QueuesAfter(lim, g.reached + [sig]) == AfterRisk(lim, g.queues, sig)
    ensures EmittedTimes(if Allows(lim, g.queues, sig) then g.emitted + [sig] else g.emitted, strategy)
         == Admitted(lim, g.reached + [sig], strategy)
  {
    hide Allows, AfterRisk;
    assert (g.reached + [sig])[..|g.reached|] == g.reached;
    assert (g.emitted + [sig])[..|g.emitted|] == g.emitted;
  }

  /** Behind the cooldown, the gate is the rate limiter run on the signals that reach it. */
  lemma {:induction false} GateRunsLimiter(c: Config, sigs: seq<Signal>, strategy: string)
    requires c.limits.Some?
    ensures RunsLimiter(c.limits.value, HandleAll(c, sigs), strategy)
  {
    hide Handle;
    if sigs == [] {
    } else {
      GateRunsLimiter(c, sigs[..|sigs| - 1], strategy);
      HandleRunsLimiter(c, HandleAll(c, sigs[..|sigs| - 1]), sigs[|sigs| - 1], strategy);
    }
  }

  /** Emitted signals respect the caps in every window when the reaching times are in order. */
  lemma EmittedWindowsCapped(c: Config, sigs: seq<Signal>, strategy: string, lo: int)
    requires c.limits.Some? && InOrder(HandleAll(c, sigs).reached, strategy)
    ensures var times := EmittedTimes(HandleAll(c, sigs).emitted, strategy);
      && CountIn(times, lo, lo + 3_600_000) <= Max(c.limits.value.maxPerHour, 0)
      && CountIn(times, lo, lo + 86_400_000) <= Max(c.limits.value.maxPerDay, 0)
  {
    GateRunsLimiter(c, sigs, strategy);
    WindowsCapped(c.limits.value, HandleAll(c, sigs).reached, strategy, lo);
  }

  // ---- the objects ----

  class CooldownManager {
    const cooldownMs: int
    var last: map<CooldownKey, int>

    constructor (cooldownSeconds: int)
      ensures cooldownMs == cooldownSeconds * 1000 && last == map[]
    {
      cooldownMs, last := cooldownSeconds * 1000, map[];
    }

    method ShouldSuppress(sig: Signal) returns (suppress: bool)
      modifies this
      ensures suppress == TooSoon(cooldownMs, old(last), sig)
      ensures last == if suppress then old(last) else old(last)[KeyOf(sig) := sig.ts]
    {
      if KeyOf(sig) in last && sig.ts - last[KeyOf(sig)] < cooldownMs { return true; }
      last := last[KeyOf(sig) := sig.ts];
      return false;
    }
  }

  class RiskEngine {
    const limits: Limits
    var eventsByStrategy: Queues

    constructor (limits: Limits)
      ensures this.limits == limits && eventsByStrategy == map[]
    {
      this.limits, eventsByStrategy := limits, map[];
    }

    method Admit(sig: Signal) returns (ok: bool)
      modifies this
      ensures ok == Allows(limits, old(eventsByStrategy), sig)
      ensures eventsByStrategy == AfterRisk(limits, old(eventsByStrategy), sig)
    {
      if limits.indices.Some? && sig.index !in limits.indices.value { return false; }
      if limits.actions != {} && sig.action !in limits.actions { return false; }
      var q := QueueOf(eventsByStrategy, sig.strategy);
      var dayCutoff := sig.ts - DAY_MS;
      while q != [] && q[0] < dayCutoff
        invariant Evict(q, dayCutoff) == Evicted(eventsByStrategy, sig)
        decreases |q|
      {
        q := q[1..];
      }
      eventsByStrategy := eventsByStrategy[sig.strategy := q];
      var inHour := 0;
      for i := 0 to |q|
        invariant inHour == CountSince(q[..i], sig.ts - HOUR_MS)
      {
        assert q[..i + 1][..i] == q[..i];
        if q[i] >= sig.ts - HOUR_MS { inHour := inHour + 1; }
      }
      assert q[..|q|] == q;
      if inHour >= limits.maxPerHour || |q| >= limits.maxPerDay { return false; }
      eventsByStrategy := eventsByStrategy[sig.strategy := q + [sig.ts]];
      return true;
    }
  }

  /** The replay engine's signal handler; either gate may be absent. */
  class SignalHandler {
    const cooldown: CooldownManager?
    const risk: RiskEngine?
    var recorded: seq<Signal>
    var suppressedCooldown: nat
    var suppressedRisk: nat
    var byStrategy: map<string, nat>
    var byAction: map<Action, nat>
    ghost var reached: seq<Signal>

    ghost function Setup(): Config {
      Config(if cooldown == null then None else Some(cooldown.cooldownMs),
             if risk == null then None else Some(risk.limits))
    }

    ghost function Abstract(): Gate
      reads this, cooldown, risk
    {
      Gate(if cooldown == null then map[] else cooldown.last,
           if risk == null then map[] else risk.eventsByStrategy,
           reached, recorded, suppressedCooldown, suppressedRisk, byStrategy, byAction)
    }

    constructor (cooldown: CooldownManager?, risk: RiskEngine?)
      requires cooldown != null ==> cooldown.last == map[]
      requires risk != null ==> risk.eventsByStrategy == map[]
      ensures this.cooldown == cooldown && this.risk == risk && Abstract() == IDLE
    {
      this.cooldown, this.risk := cooldown, risk;
      recorded, reached, suppressedCooldown, suppressedRisk := [], [], 0, 0;
      byStrategy, byAction := map[], map[];
    }

    method HandleSignal(sig: Signal)
      modifies this, cooldown, risk
      ensures Abstract() == Handle(Setup(), old(Abstract()), sig)
    {
      hide Allows, AfterRisk;
      if cooldown != null {
        var suppress := cooldown.ShouldSuppress(sig);
        if suppress {
          suppressedCooldown := suppressedCooldown + 1;
          return;
        }
      }
      reached := reached + [sig];
      if risk != null {
        var ok := risk.Admit(sig);
        if !ok {
          suppressedRisk := suppressedRisk + 1;
          return;
        }
      }
      recorded := recorded + [sig];
      byStrategy := Bump(byStrategy, sig.strategy);
      byAction := Bump(byAction, sig.action);
    }
  }
}
