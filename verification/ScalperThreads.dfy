/**
 The concurrency cap with the two threads interleaved. The subscriber thread reads the
 gate and only later installs the position; the timer thread picks a position and either
 leaves it (no quote, no exit reason) or sells it, clears it and updates the counters, in
 separate steps. Only the subscriber opens.
 */
module ScalperThreads {
  import opened Common
  import opened ExitRules
  import opened Scalper
  import opened ScalperSafety

  /** What the subscriber is about to do. */
  datatype Subscriber = Waiting | Gated(index: string, position: Position)

  /** Where the timer thread stands in its close. */
  datatype Timer = Sleeping | Picked(index: string) | Cleared(index: string)

  datatype Threads = Threads(perIndex: States, subscriber: Subscriber, timer: Timer)

  datatype Step =
    | PassGate(x: string, ts: int, position: Position)
    | Install
    | GiveUp
    | SubscriberClears(x: string)
    | SubscriberCounts(x: string, pnl: real, ts: int)
    | SubscriberResets(today: string)
    | TimerPicks(x: string)
    | TimerGivesUp
    | TimerClears
    | TimerCounts(pnl: real, ts: int)

  function WithPosition(m: States, x: string, p: Option<Position>): States {
    m[x := StateOf(m, x).(position := p)]
  }

  /** Counter updates touch everything but the position. */
  function WithCounters(cfg: Config, m: States, x: string, pnl: real, ts: int): States {
    var st := StateOf(m, x);
    m[x := AfterClose(cfg, st, pnl, ts).(position := st.position)]
  }

  predicate Enabled(cfg: Config, t: Threads, s: Step) {
    match s
    case PassGate(x, ts, _) => t.subscriber == Waiting && AllowEntry(cfg, t.perIndex, x, ts) == Allowed
    case Install => t.subscriber.Gated?
    case GiveUp => t.subscriber.Gated?
    case SubscriberClears(_) => t.subscriber == Waiting
    case SubscriberCounts(_, _, _) => t.subscriber == Waiting
    case SubscriberResets(_) => t.subscriber == Waiting
    case TimerPicks(x) => t.timer == Sleeping && StateOf(t.perIndex, x).position.Some?
    case TimerGivesUp => t.timer.Picked?
    case TimerClears => t.timer.Picked?
    case TimerCounts(_, _) => t.timer.Cleared?
  }

  function Next(cfg: Config, t: Threads, s: Step): Threads
    requires Enabled(cfg, t, s)
  {
    match s
    case PassGate(x, _, p) => t.(subscriber := Gated(x, p))
    case Install =>
      t.(perIndex := WithPosition(t.perIndex, t.subscriber.index, Some(t.subscriber.position)), subscriber := Waiting)
    case GiveUp => t.(subscriber := Waiting)
    case SubscriberClears(x) => t.(perIndex := WithPosition(t.perIndex, x, None))
    case SubscriberCounts(x, pnl, ts) => t.(perIndex := WithCounters(cfg, t.perIndex, x, pnl, ts))
    case SubscriberResets(today) =>
      t.(perIndex := map x | x in t.perIndex :: ResetForDay(t.perIndex[x], today))
    case TimerPicks(x) => t.(timer := Picked(x))
    case TimerGivesUp => t.(timer := Sleeping)
    case TimerClears =>
      t.(perIndex := WithPosition(t.perIndex, t.timer.index, None), timer := Cleared(t.timer.index))
    case TimerCounts(pnl, ts) =>
      t.(perIndex := WithCounters(cfg, t.perIndex, t.timer.index, pnl, ts), timer := Sleeping)
  }

  /** A schedule is a finite interleaving in which every step is enabled. */
  predicate Schedule(cfg: Config, ts: seq<Threads>, steps: seq<Step>) {
    && |ts| == |steps| + 1
    && ts[0] == Threads(map[], Waiting, Sleeping)
    && forall i :: 0 <= i < |steps| ==> Enabled(cfg, ts[i], steps[i]) && ts[i + 1] == Next(cfg, ts[i], steps[i])
  }

  /** The cap holds, and a passed gate still has room: nobody else can have used it up. */
  predicate Capped(cfg: Config, t: Threads) {
    && ConcurrentOpen(t.perIndex) <= Max(cfg.maxConcurrent, 0)
    && (t.subscriber.Gated? ==> ConcurrentOpen(t.perIndex) < cfg.maxConcurrent)
  }

  lemma SetPositionCount(m: States, x: string, p: Option<Position>)
    ensures p == None ==> ConcurrentOpen(WithPosition(m, x, p)) <= ConcurrentOpen(m)
    ensures ConcurrentOpen(WithPosition(m, x, p)) <= ConcurrentOpen(m) + 1
  {
    var n := WithPosition(m, x, p);
    assert OpenIndices(n) <= OpenIndices(m) + {x};
    if p == None { assert x !in OpenIndices(n); CardinalityMonotone(OpenIndices(n), OpenIndices(m)); }
    CardinalityMonotone(OpenIndices(n), OpenIndices(m) + {x});
  }

  lemma SetCountersCount(cfg: Config, m: States, x: string, pnl: real, ts: int)
    ensures ConcurrentOpen(WithCounters(cfg, m, x, pnl, ts)) == ConcurrentOpen(m)
  {
    hide AfterClose;
    assert OpenIndices(WithCounters(cfg, m, x, pnl, ts)) == OpenIndices(m);
  }

  lemma ResetCount(m: States, today: string)
    ensures ConcurrentOpen(map x | x in m :: ResetForDay(m[x], today)) == ConcurrentOpen(m)
  {
    assert OpenIndices(map x | x in m :: ResetForDay(m[x], today)) == OpenIndices(m);
  }

  lemma NextCapped(cfg: Config, t: Threads, s: Step)
    requires Capped(cfg, t) && Enabled(cfg, t, s)
    ensures Capped(cfg, Next(cfg, t, s))
  {
    hide AllowEntry, WithPosition, WithCounters, ConcurrentOpen, ResetForDay;
    match s {
      case PassGate(x, ts, _) => GateMeans(cfg, t.perIndex, x, ts);
      case Install => SetPositionCount(t.perIndex, t.subscriber.index, Some(t.subscriber.position));
      case GiveUp =>
      case SubscriberClears(x) => SetPositionCount(t.perIndex, x, None);
      case SubscriberCounts(x, pnl, ts) => SetCountersCount(cfg, t.perIndex, x, pnl, ts);
      case SubscriberResets(today) => ResetCount(t.perIndex, today);
      case TimerPicks(_) =>
      case TimerGivesUp =>
      case TimerClears => SetPositionCount(t.perIndex, t.timer.index, None);
      case TimerCounts(pnl, ts) => SetCountersCount(cfg, t.perIndex, t.timer.index, pnl, ts);
    }
  }

  /** In every interleaving, at every point, at most `maxConcurrent` positions are open. */
  lemma {:induction false} CapUnderInterleaving(cfg: Config, ts: seq<Threads>, steps: seq<Step>, i: nat)
    requires Schedule(cfg, ts, steps) && i <= |steps|
    ensures Capped(cfg, ts[i])
  {
    if i == 0 {
      assert OpenIndices(ts[0].perIndex) == {};
    } else {
      CapUnderInterleaving(cfg, ts, steps, i - 1);
      NextCapped(cfg, ts[i - 1], steps[i - 1]);
    }
  }
}
