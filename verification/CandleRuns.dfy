/**
 What ends up in the candle table: for ticks in any order that do not reopen a bucket a
 sweep has closed, any interleaving of ticks, sweeps and restarts, once swept clean,
 leaves exactly the batch candles of the accepted ticks.
 */
module CandleRuns {
  import opened Common
  import opened Candles
  import opened CandleEngine

  predicate Usable(t: Tick) { t.ts > 0 && t.price > 0.0 }

  /** The ticks of one index that pass the handler's guard, in order. */
  function TicksOf(steps: seq<Step>, index: string): seq<Tick> {
    if steps == [] then []
    else
      var rest, step := TicksOf(steps[..|steps| - 1], index), steps[|steps| - 1];
      if step.Ticked? && step.index == index && Usable(step.tick) then rest + [step.tick] else rest
  }

  /** The latest bucket's bar, had nothing been swept. */
  function Latest(w: Width, steps: seq<Step>, index: string): Option<Bar> {
    StreamAll(w, TicksOf(steps, index)).current
  }

  /** A sweep or restart has passed the end of the latest bucket, and no later bucket has begun since. */
  predicate Shut(w: Width, steps: seq<Step>, index: string) {
    if steps == [] then false
    else
      var before, step := steps[..|steps| - 1], steps[|steps| - 1];
      if step.Ticked? then
        Shut(w, before, index)
        && (step.index == index && Usable(step.tick) ==>
              Latest(w, before, index).Some? && Bucket(w, step.tick.ts) <= Latest(w, before, index).value.openTs)
      else Shut(w, before, index) || IsStale(w, Latest(w, before, index), step.now)
  }

  /** No usable tick of the index falls into the latest bucket, or before it, once that is shut. */
  ghost predicate NoneReopens(w: Width, steps: seq<Step>, index: string) {
    forall j :: 0 <= j < |steps| && steps[j].Ticked? && steps[j].index == index && Usable(steps[j].tick)
                && Shut(w, steps[..j], index) && Latest(w, steps[..j], index).Some? ==>
      Bucket(w, steps[j].tick.ts) > Latest(w, steps[..j], index).value.openTs
  }

  // ---- what one key sees ----

  /** The two states agree on the key's aggregator and its table rows. */
  ghost predicate SameView(s: Engine, t: Engine, key: Key) {
    && key in s.aggs && key in t.aggs && s.aggs[key] == t.aggs[key]
    && (forall o :: (key, o) in s.table <==> (key, o) in t.table)
    && (forall o :: (key, o) in s.table ==> s.table[(key, o)] == t.table[(key, o)])
  }

  lemma TickOther(s: Engine, other: Key, t: Tick, key: Key)
    requires other != key && key in s.aggs
    ensures SameView(TickKey(s, other, t), s, key)
  {
    hide Ingest;
  }

  lemma TickCongruent(s: Engine, s': Engine, t: Tick, key: Key)
    requires SameView(s', s, key)
    ensures SameView(TickKey(s', key, t), TickKey(s, key, t), key)
  {
    hide Ingest;
  }

  /** A tick reaches a key once when its timeframe is listed once. */
  lemma {:induction false} FramesReachKey(s: Engine, index: string, tfs: seq<Timeframe>, t: Tick, key: Key)
    requires key in s.aggs && forall i, j :: 0 <= i < j < |tfs| ==> tfs[i] != tfs[j]
    ensures SameView(TickFrames(s, index, tfs, t),
                     if index == key.index && key.tf in tfs then TickKey(s, key, t) else s, key)
  {
    hide TickKey, SameView;
    if tfs == [] {
      ViewReflexive(s, key);
    } else {
      var n := |tfs| - 1;
      var before, other := TickFrames(s, index, tfs[..n], t), Key(index, tfs[n]);
      FramesReachKey(s, index, tfs[..n], t, key);
      assert key.tf in tfs <==> key.tf in tfs[..n] || key.tf == tfs[n];
      if other == key {
        assert key.tf !in tfs[..n];
        TickCongruent(s, before, t, key);
      } else {
        ViewKeys(before, if index == key.index && key.tf in tfs[..n] then TickKey(s, key, t) else s, key);
        TickOther(before, other, t, key);
        ViewTransitive(TickFrames(s, index, tfs, t), before,
                       if index == key.index && key.tf in tfs then TickKey(s, key, t) else s, key);
      }
    }
  }

  lemma ViewReflexive(s: Engine, key: Key)
    requires key in s.aggs
    ensures SameView(s, s, key)
  {}

  lemma ViewKeys(s: Engine, t: Engine, key: Key)
    requires SameView(s, t, key)
    ensures key in s.aggs && key in t.aggs
  {}

  lemma ViewTransitive(r: Engine, s: Engine, t: Engine, key: Key)
    requires SameView(r, s, key) && SameView(s, t, key)
    ensures SameView(r, t, key)
  {}

  /** A sweep reaches a listed key exactly once. */
  lemma {:induction false} SweepReachesKey(s: Engine, keys: seq<Key>, now: int, key: Key)
    requires key in s.aggs && forall i, j :: 0 <= i < j < |keys| ==> keys[i] != keys[j]
    ensures SameView(SweepKeys(s, keys, now), if key in keys then SweepKey(s, key, now) else s, key)
  {
    if keys == [] {
    } else {
      var n := |keys| - 1;
      SweepReachesKey(s, keys[..n], now, key);
      assert key in keys <==> key in keys[..n] || key == keys[n];
      if keys[n] == key { assert key !in keys[..n]; }
    }
  }

  // ---- the table follows the stream ----

  /** The key's rows are exactly `bars`. */
  ghost predicate RowsAre(s: Engine, key: Key, bars: seq<Bar>) {
    && (forall o :: (key, o) in s.table <==> Covers(bars, o))
    && (forall i :: 0 <= i < |bars| ==> (key, bars[i].openTs) in s.table && s.table[(key, bars[i].openTs)] == bars[i])
  }

  /**
   The engine's aggregator is the stream's and the rows are what the stream has emitted;
   or, when shut, a sweep has closed the stream's current bar too.
   */
  ghost predicate Follows(s: Engine, key: Key, full: Stream, shut: bool) {
    && key in s.aggs && Increasing(Output(full))
    && (if shut then s.aggs[key] == None && full.current.Some? && RowsAre(s, key, Output(full))
        else s.aggs[key] == full.current && RowsAre(s, key, full.emitted))
  }

  lemma RowsAppend(s: Engine, t: Engine, key: Key, bars: seq<Bar>, b: Bar)
    requires RowsAre(s, key, bars) && Increasing(bars + [b])
    requires t.table == s.table[(key, b.openTs) := b]
    ensures RowsAre(t, key, bars + [b])
  {
    var all := bars + [b];
    assert all[|bars|] == b;
    forall o ensures (key, o) in t.table <==> Covers(all, o) {
      if Covers(bars, o) {
        var i :| 0 <= i < |bars| && bars[i].openTs == o;
        assert all[i].openTs == o;
      }
      if Covers(all, o) && o != b.openTs {
        var i :| 0 <= i < |all| && all[i].openTs == o;
        assert bars[i].openTs == o;
      }
    }
    forall i | 0 <= i < |all| ensures (key, all[i].openTs) in t.table && t.table[(key, all[i].openTs)] == all[i] {
      if i < |bars| { assert all[i].openTs < all[|bars|].openTs; }
    }
  }

  lemma RowsView(s: Engine, t: Engine, key: Key, bars: seq<Bar>)
    requires SameView(s, t, key) && RowsAre(t, key, bars)
    ensures RowsAre(s, key, bars)
  {
    hide Covers;
  }

  lemma FollowsView(s: Engine, t: Engine, key: Key, full: Stream, shut: bool)
    requires SameView(s, t, key) && Follows(t, key, full, shut)
    ensures Follows(s, key, full, shut)
  {
    RowsView(s, t, key, if shut then Output(full) else full.emitted);
    hide RowsAre, SameView;
  }

  lemma FollowsTick(s: Engine, key: Key, full: Stream, shut: bool, t: Tick)
    requires var w := WidthOf(key.tf);
      && Follows(s, key, full, shut) && Increasing(Output(StreamTick(w, full, t)))
      && (shut ==> Bucket(w, t.ts) > full.current.value.openTs)
    ensures Follows(TickKey(s, key, t), key, StreamTick(WidthOf(key.tf), full, t), false)
  {
    var w := WidthOf(key.tf);
    hide Bucket, RowsAre, Covers;
    var u, next := TickKey(s, key, t), StreamTick(w, full, t);
    if shut {
      RowsSame(s, u, key, Output(full));
    } else if full.current.Some? && Bucket(w, t.ts) > full.current.value.openTs {
      assert Output(next) == full.emitted + [full.current.value] + [Begin(w, t)];
      IncreasingPrefix(full.emitted + [full.current.value], Begin(w, t));
      RowsAppend(s, u, key, full.emitted, full.current.value);
    } else {
      RowsSame(s, u, key, full.emitted);
    }
  }

  lemma IncreasingPrefix(bars: seq<Bar>, b: Bar)
    requires Increasing(bars + [b])
    ensures Increasing(bars)
  {
    forall i, j | 0 <= i < j < |bars| ensures bars[i].openTs < bars[j].openTs {
      assert (bars + [b])[i].openTs < (bars + [b])[j].openTs;
    }
  }

  lemma RowsSame(s: Engine, t: Engine, key: Key, bars: seq<Bar>)
    requires RowsAre(s, key, bars) && t.table == s.table
    ensures RowsAre(t, key, bars)
  {}

  lemma FollowsSweep(s: Engine, key: Key, full: Stream, shut: bool, now: int)
    requires Follows(s, key, full, shut)
    ensures Follows(SweepKey(s, key, now), key, full, shut || IsStale(WidthOf(key.tf), full.current, now))
  {
    var w, u := WidthOf(key.tf), SweepKey(s, key, now);
    hide RowsAre, Covers;
    if !shut && IsStale(w, s.aggs[key], now) { RowsAppend(s, u, key, full.emitted, full.current.value); }
  }

  // ---- whole runs ----

  ghost predicate ReachesOnce(c: Setup, key: Key) {
    && c.Valid() && key in c.keys && key.tf in c.tfs && key.index != ""
    && forall i, j :: 0 <= i < j < |c.tfs| ==> c.tfs[i] != c.tfs[j]
  }

  /** The run's state for a key after these steps. */
  ghost predicate RunIs(c: Setup, key: Key, steps: seq<Step>, s: Engine) {
    var w: Width := WidthOf(key.tf);
    Follows(s, key, StreamAll(w, TicksOf(steps, key.index)), Shut(w, steps, key.index))
  }

  lemma {:induction false} RunFollows(c: Setup, key: Key, steps: seq<Step>)
    requires ReachesOnce(c, key) && NoneReopens(WidthOf(key.tf), steps, key.index)
    ensures RunIs(c, key, steps, Run(c, steps))
  {
    if steps == [] {
      assert key in Run(c, steps).aggs;
    } else {
      var n := |steps| - 1;
      var before, step := steps[..n], steps[n];
      assert steps == before + [step];
      ReopensLater(WidthOf(key.tf), before, step, key.index);
      RunFollows(c, key, before);
      AlwaysInSync(c, before);
      FollowsStep(c, key, before, step);
    }
  }

  lemma ReopensLater(w: Width, before: seq<Step>, step: Step, index: string)
    requires NoneReopens(w, before + [step], index)
    ensures NoneReopens(w, before, index)
    ensures step.Ticked? && step.index == index && Usable(step.tick)
            && Shut(w, before, index) && Latest(w, before, index).Some? ==>
              Bucket(w, step.tick.ts) > Latest(w, before, index).value.openTs
  {
    hide Shut, Latest, Bucket;
    var all := before + [step];
    assert all[|before|] == step && all[..|before|] == before;
    forall j | 0 <= j < |before| ensures all[j] == before[j] && all[..j] == before[..j] {}
  }

  lemma FollowsStep(c: Setup, key: Key, before: seq<Step>, step: Step)
    requires ReachesOnce(c, key) && InSync(c, Run(c, before)) && RunIs(c, key, before, Run(c, before))
    requires NoneReopens(WidthOf(key.tf), before + [step], key.index)
    ensures RunIs(c, key, before + [step], Run(c, before + [step]))
  {
    assert (before + [step])[..|before|] == before;
    hide Follows, StreamAll, SweepKeys, TickFrames, Restart, NoneReopens;
    match step {
      case Ticked(index, t) => if index != "" && Usable(t) { FollowsTicked(c, key, before, index, t); }
      case Swept(now) => FollowsSwept(c, key, before, step, now);
      case Restarted(now) =>
        RestartIsSweep(c, Run(c, before), now);
        FollowsSwept(c, key, before, step, now);
    }
  }

  lemma FollowsTicked(c: Setup, key: Key, before: seq<Step>, index: string, t: Tick)
    requires ReachesOnce(c, key) && Usable(t) && RunIs(c, key, before, Run(c, before))
    requires NoneReopens(WidthOf(key.tf), before + [Ticked(index, t)], key.index)
    ensures RunIs(c, key, before + [Ticked(index, t)], TickFrames(Run(c, before), index, c.tfs, t))
  {
    var w: Width, s := WidthOf(key.tf), Run(c, before);
    var steps := before + [Ticked(index, t)];
    assert steps[..|before|] == before;
    assert key in s.aggs;
    hide Follows, SameView, StreamAll, TickFrames, TickKey, NoneReopens, Run, Bucket;
    FramesReachKey(s, index, c.tfs, t, key);
    var reached := TickFrames(s, index, c.tfs, t);
    var full, shut := StreamAll(w, TicksOf(steps, key.index)), Shut(w, steps, key.index);
    if index == key.index {
      TickOnKey(c, key, before, t);
      FollowsView(reached, TickKey(s, key, t), key, full, shut);
    } else {
      FollowsView(reached, s, key, full, shut);
    }
  }

  lemma FollowsSwept(c: Setup, key: Key, before: seq<Step>, step: Step, now: int)
    requires ReachesOnce(c, key) && RunIs(c, key, before, Run(c, before))
    requires !step.Ticked? && step.now == now
    ensures RunIs(c, key, before + [step], SweepKeys(Run(c, before), c.keys, now))
  {
    assert (before + [step])[..|before|] == before && key in Run(c, before).aggs;
    hide Follows, SameView, StreamAll, SweepKeys, SweepKey, Run;
    var w: Width, s := WidthOf(key.tf), Run(c, before);
    var full, shut := StreamAll(w, TicksOf(before, key.index)), Shut(w, before, key.index);
    SweepReachesKey(s, c.keys, now, key);
    FollowsSweep(s, key, full, shut, now);
    FollowsView(SweepKeys(s, c.keys, now), SweepKey(s, key, now), key, full, shut || IsStale(w, full.current, now));
  }

  lemma TickOnKey(c: Setup, key: Key, before: seq<Step>, t: Tick)
    requires Usable(t) && RunIs(c, key, before, Run(c, before))
    requires NoneReopens(WidthOf(key.tf), before + [Ticked(key.index, t)], key.index)
    ensures RunIs(c, key, before + [Ticked(key.index, t)], TickKey(Run(c, before), key, t))
  {
    var w: Width, step := WidthOf(key.tf), Ticked(key.index, t);
    var ticks := TicksOf(before, key.index);
    assert (before + [step])[..|before|] == before && TicksOf(before + [step], key.index) == ticks + [t];
    assert (ticks + [t])[..|ticks|] == ticks;
    var full, shut := StreamAll(w, ticks), Shut(w, before, key.index);
    assert shut ==> full.current.Some?;
    hide Follows, Bucket, Run, TickKey, CandlesOf, NoneReopens;
    StreamIncreases(w, ticks + [t]);
    ReopensLater(w, before, step, key.index);
    FollowsTick(Run(c, before), key, full, shut, t);
  }

  lemma StreamIncreases(w: Width, ticks: seq<Tick>)
    ensures Increasing(Output(StreamAll(w, ticks)))
  {
    StreamingIsBatch(w, ticks);
    hide IsCandle, Covers;
  }

  /** Time-ordered ticks are all accepted. */
  lemma {:induction false} OrderedAllAccepted(w: Width, ticks: seq<Tick>)
    requires TimeOrdered(ticks)
    ensures Accepted(w, ticks) == ticks
  {
    if ticks == [] {
    } else {
      var n := |ticks| - 1;
      OrderedAllAccepted(w, ticks[..n]);
      forall j | 0 <= j < n ensures Bucket(w, ticks[j].ts) <= Bucket(w, ticks[n].ts) {
        BucketMonotone(w, ticks[j].ts, ticks[n].ts);
      }
      hide Bucket;
      assert ticks == ticks[..n] + [ticks[n]];
    }
  }

  /** Swept late enough, the rows of a key are the bars of its stream. */
  lemma RowsAreStream(c: Setup, key: Key, steps: seq<Step>, now: int)
    requires ReachesOnce(c, key) && NoneReopens(WidthOf(key.tf), steps, key.index)
    requires var cur := Latest(WidthOf(key.tf), steps, key.index); cur.Some? ==> IsStale(WidthOf(key.tf), cur, now)
    ensures RowsAre(Run(c, steps + [Swept(now)]), key, Output(StreamAll(WidthOf(key.tf), TicksOf(steps, key.index))))
  {
    var w: Width, ticks := WidthOf(key.tf), TicksOf(steps, key.index);
    var full, s, shut := StreamAll(w, ticks), Run(c, steps), Shut(w, steps, key.index);
    RunFollows(c, key, steps);
    SweepReachesKey(s, c.keys, now, key);
    FollowsSweep(s, key, full, shut, now);
    assert (steps + [Swept(now)])[..|steps|] == steps;
    var t := Run(c, steps + [Swept(now)]);
    hide NoneReopens, Shut;
    FollowsView(t, SweepKey(s, key, now), key, full, shut || IsStale(w, full.current, now));
    assert full.current == None ==> Output(full) == full.emitted;
  }

  /**
   The candle table is the batch result. After any interleaving of ticks in any order,
   sweeps and restarts in which no tick reopens a shut bucket, and one last sweep late
   enough to close the current bucket, the rows of a key are exactly the candles of its
   index's accepted ticks.
   */
  lemma TableIsBatch(c: Setup, key: Key, steps: seq<Step>, now: int)
    requires ReachesOnce(c, key) && NoneReopens(WidthOf(key.tf), steps, key.index)
    requires var cur := Latest(WidthOf(key.tf), steps, key.index); cur.Some? ==> IsStale(WidthOf(key.tf), cur, now)
    ensures var w := WidthOf(key.tf);
      var ticks, table := Accepted(w, TicksOf(steps, key.index)), Run(c, steps + [Swept(now)]).table;
      && (forall o :: (key, o) in table <==> InBucket(w, ticks, o) != [])
      && (forall o :: (key, o) in table ==> table[(key, o)] == CandleOf(o, InBucket(w, ticks, o)))
  {
    var w: Width, ticks := WidthOf(key.tf), TicksOf(steps, key.index);
    RowsAreStream(c, key, steps, now);
    hide NoneReopens;
    StreamingIsBatch(w, ticks);
    RowsAreBatch(w, Run(c, steps + [Swept(now)]), key, Output(StreamAll(w, ticks)), Accepted(w, ticks));
  }

  /** When the ticks are also in time order, none is dropped. */
  lemma OrderedTableIsBatch(c: Setup, key: Key, steps: seq<Step>, now: int)
    requires ReachesOnce(c, key) && NoneReopens(WidthOf(key.tf), steps, key.index)
    requires TimeOrdered(TicksOf(steps, key.index))
    requires var cur := Latest(WidthOf(key.tf), steps, key.index); cur.Some? ==> IsStale(WidthOf(key.tf), cur, now)
    ensures var w := WidthOf(key.tf);
      var ticks, table := TicksOf(steps, key.index), Run(c, steps + [Swept(now)]).table;
      && (forall o :: (key, o) in table <==> InBucket(w, ticks, o) != [])
      && (forall o :: (key, o) in table ==> table[(key, o)] == CandleOf(o, InBucket(w, ticks, o)))
  {
    TableIsBatch(c, key, steps, now);
    OrderedAllAccepted(WidthOf(key.tf), TicksOf(steps, key.index));
  }

  // ---- the three timeframes in one table ----

  /** One minute, five minutes and a quarter of an hour, in milliseconds. */
  lemma Widths()
    ensures WidthOf(M1) == 60 * 1000 && WidthOf(M5) == 5 * WidthOf(M1) && WidthOf(M15) == 3 * WidthOf(M5)
  {}

  /** Every row of `coarse` is the roll-up of the rows of `fine` in its window. */
  ghost predicate TableRollsUp(s: Engine, coarse: Key, fine: Key) {
    exists rows, parts ::
      && RowsAre(s, coarse, rows) && RowsAre(s, fine, parts) && Increasing(parts)
      && RollsUp(WidthOf(coarse.tf), rows, parts)
  }

  /** The last sweep closes the key's current bar, and no tick before it reopens one. */
  ghost predicate Settles(c: Setup, key: Key, steps: seq<Step>, now: int) {
    var w: Width := WidthOf(key.tf);
    && ReachesOnce(c, key) && NoneReopens(w, steps, key.index)
    && (Latest(w, steps, key.index).Some? ==> IsStale(w, Latest(w, steps, key.index), now))
  }

  /**
   In the live table too, whatever the sweeps and restarts: for ticks in time order the
   five-minute rows are the roll-ups of the one-minute rows, and the quarter-hour rows of both.
   */
  lemma LiveTableRollsUp(c: Setup, index: string, steps: seq<Step>, now: int)
    requires forall tf :: Settles(c, Key(index, tf), steps, now)
    requires TimeOrdered(TicksOf(steps, index))
    ensures var t := Run(c, steps + [Swept(now)]);
      && TableRollsUp(t, Key(index, M5), Key(index, M1))
      && TableRollsUp(t, Key(index, M15), Key(index, M1))
      && TableRollsUp(t, Key(index, M15), Key(index, M5))
  {
    var ticks := TicksOf(steps, index);
    forall tf ensures RowsAre(Run(c, steps + [Swept(now)]), Key(index, tf), Output(StreamAll(WidthOf(tf), ticks)))
    ensures Increasing(Output(StreamAll(WidthOf(tf), ticks))) {
      assert Settles(c, Key(index, tf), steps, now);
      RowsAreStream(c, Key(index, tf), steps, now);
      StreamIncreases(WidthOf(tf), ticks);
    }
    hide RowsAre, RollsUp, StreamAll, Settles, Run;
    FiveAndFifteenRollUp(ticks);
  }

  // ---- what one sweep does ----

  /**
   A sweep closes exactly the bars whose bucket has ended: such a bar becomes a row, its
   aggregator is emptied and its stored record dropped; every other aggregator stays.
   */
  lemma SweepMeans(c: Setup, s: Engine, now: int, key: Key)
    requires c.Valid() && InSync(c, s) && key in c.keys
    ensures var t := SweepKeys(s, c.keys, now);
      && key in s.aggs && key in t.aggs
      && (s.aggs[key].Some? && s.aggs[key].value.openTs + WidthOf(key.tf) <= now ==>
            && t.aggs[key] == None && key !in t.store
            && (key, s.aggs[key].value.openTs) in t.table
            && t.table[(key, s.aggs[key].value.openTs)] == s.aggs[key].value)
      && (!(s.aggs[key].Some? && s.aggs[key].value.openTs + WidthOf(key.tf) <= now) ==>
            && t.aggs[key] == s.aggs[key] && (key in t.store <==> key in s.store)
            && (forall o :: (key, o) in t.table <==> (key, o) in s.table))
  {
    SweepReachesKey(s, c.keys, now, key);
    SweepKeysSync(c, s, c.keys, now);
  }

  /** No usable tick lies in a bucket that was already over at an earlier sweep or restart. */
  predicate Timely(w: Width, steps: seq<Step>, index: string) {
    forall i, j :: 0 <= i < j < |steps| && !steps[i].Ticked?
                   && steps[j].Ticked? && steps[j].index == index && Usable(steps[j].tick) ==>
      steps[i].now < Bucket(w, steps[j].tick.ts) + w
  }

  /** A bucket is shut by a sweep at or past its end. */
  lemma {:induction false} ShutBySweep(w: Width, steps: seq<Step>, index: string)
    requires Shut(w, steps, index) && Latest(w, steps, index).Some?
    ensures exists i ::
              0 <= i < |steps| && !steps[i].Ticked? && steps[i].now >= Latest(w, steps, index).value.openTs + w
  {
    if steps == [] {
    } else {
      var before, step := steps[..|steps| - 1], steps[|steps| - 1];
      assert steps == before + [step];
      TicksSnoc(before, step, index);
      StreamSnoc(w, TicksOf(before, index), if step.Ticked? then step.tick else Tick(0, 0.0));
      hide Bucket, StreamAll;
      if Shut(w, before, index) {
        ShutBySweep(w, before, index);
        var i :| 0 <= i < |before| && !before[i].Ticked? && before[i].now >= Latest(w, before, index).value.openTs + w;
        assert steps[i] == before[i];
      }
    }
  }

  /** A tick that opens no later bucket leaves the latest one where it is. */
  lemma StreamSnoc(w: Width, ticks: seq<Tick>, t: Tick)
    ensures var cur, next := StreamAll(w, ticks).current, StreamAll(w, ticks + [t]).current;
      cur.Some? && Bucket(w, t.ts) <= cur.value.openTs ==> next.Some? && next.value.openTs == cur.value.openTs
  {
    assert (ticks + [t])[..|ticks|] == ticks;
    hide Bucket;
  }

  /** Clocks no further ahead than the ticks' buckets are enough for nothing to reopen. */
  lemma TimelyNeverReopens(w: Width, steps: seq<Step>, index: string)
    requires Timely(w, steps, index)
    ensures NoneReopens(w, steps, index)
  {
    hide Bucket, Shut, Latest;
    forall j | 0 <= j < |steps| && steps[j].Ticked? && steps[j].index == index && Usable(steps[j].tick)
               && Shut(w, steps[..j], index) && Latest(w, steps[..j], index).Some?
      ensures Bucket(w, steps[j].tick.ts) > Latest(w, steps[..j], index).value.openTs
    {
      ShutBySweep(w, steps[..j], index);
      var i :| 0 <= i < j && !steps[..j][i].Ticked?
               && steps[..j][i].now >= Latest(w, steps[..j], index).value.openTs + w;
      assert steps[i] == steps[..j][i];
    }
  }

  const NIFTY_1M := Key("NIFTY50", M1)
  const ONE_KEY := Setup([NIFTY_1M], [M1])
  const REOPENING := [
    Ticked("NIFTY50", Tick(1, 10.0)), Swept(60_000), Ticked("NIFTY50", Tick(2, 11.0)), Swept(60_000)]

  /**
   A tick that falls back into a bucket after a sweep has closed it starts that bucket's
   bar over, and the row ends up without the ticks before the sweep.
   */
  lemma ReopenedRowLosesTicks()
    ensures !NoneReopens(60_000, REOPENING, "NIFTY50")
    ensures InBucket(60_000, TicksOf(REOPENING, "NIFTY50"), 0) == [Tick(1, 10.0), Tick(2, 11.0)]
    ensures var table := Run(ONE_KEY, REOPENING).table;
      (NIFTY_1M, 0) in table && table[(NIFTY_1M, 0)] == Bar(0, 11.0, 11.0, 11.0, 11.0, 1)
  {
    ReopeningTicks();
    ReopeningRow();
    var before := REOPENING[..2];
    assert before[..1][..0] == [] && before[..1] == REOPENING[..1];
    assert Shut(60_000, before, "NIFTY50");
    hide Shut, Latest, InBucket;
    assert REOPENING[2].Ticked? && Usable(REOPENING[2].tick);
  }

  lemma ReopeningTicks()
    ensures TicksOf(REOPENING[..1], "NIFTY50") == TicksOf(REOPENING[..2], "NIFTY50") == [Tick(1, 10.0)]
    ensures TicksOf(REOPENING, "NIFTY50") == [Tick(1, 10.0), Tick(2, 11.0)]
    ensures InBucket(60_000, TicksOf(REOPENING, "NIFTY50"), 0) == [Tick(1, 10.0), Tick(2, 11.0)]
    ensures Latest(60_000, REOPENING[..1], "NIFTY50") == Some(Begin(60_000, Tick(1, 10.0)))
    ensures Latest(60_000, REOPENING[..2], "NIFTY50") == Some(Begin(60_000, Tick(1, 10.0)))
  {
    var a, b, r := Tick(1, 10.0), Tick(2, 11.0), REOPENING;
    assert r[..1] == [] + [r[0]] && r[..2] == r[..1] + [r[1]] && r[..3] == r[..2] + [r[2]] && r == r[..3] + [r[3]];
    TicksSnoc([], r[0], "NIFTY50"); TicksSnoc(r[..1], r[1], "NIFTY50");
    TicksSnoc(r[..2], r[2], "NIFTY50"); TicksSnoc(r[..3], r[3], "NIFTY50");
    assert [] + [a] == [a] && [a] + [b] == [a, b];
    assert [a][..0] == [] && StreamAll(60_000, []) == Stream([], None);
    assert StreamAll(60_000, [a]) == StreamTick(60_000, Stream([], None), a);
    InBucketSnoc(60_000, [], a, 0); InBucketSnoc(60_000, [a], b, 0);
  }

  lemma ReopeningRow()
    ensures var table := Run(ONE_KEY, REOPENING).table;
      (NIFTY_1M, 0) in table && table[(NIFTY_1M, 0)] == Bar(0, 11.0, 11.0, 11.0, 11.0, 1)
  {
    hide Do, TickKey, SweepKey;
    var a, b, r := Tick(1, 10.0), Tick(2, 11.0), REOPENING;
    assert r[..1] == [] + [r[0]] && r[..2] == r[..1] + [r[1]] && r[..3] == r[..2] + [r[2]] && r == r[..3] + [r[3]];
    RunSnoc(ONE_KEY, [], r[0]); RunSnoc(ONE_KEY, r[..1], r[1]);
    RunSnoc(ONE_KEY, r[..2], r[2]); RunSnoc(ONE_KEY, r[..3], r[3]);
    TickOnEmpty(Run(ONE_KEY, []), a);
    SweepBegun(Run(ONE_KEY, r[..1]), a);
    TickOnEmpty(Run(ONE_KEY, r[..2]), b);
    SweepBegun(Run(ONE_KEY, r[..3]), b);
  }

  lemma TickOnEmpty(s: Engine, t: Tick)
    requires Usable(t) && t.ts < 60_000 && NIFTY_1M in s.aggs && s.aggs[NIFTY_1M] == None
    ensures var u := Do(ONE_KEY, s, Ticked("NIFTY50", t));
      NIFTY_1M in u.aggs && u.aggs[NIFTY_1M] == Some(Begin(60_000, t))
  {
    assert ONE_KEY.tfs == [M1] && [M1][..0] == [] && TickFrames(s, "NIFTY50", [], t) == s;
    assert TickFrames(s, "NIFTY50", [M1], t) == TickKey(s, NIFTY_1M, t);
    assert "NIFTY50"[0] == 'N';
  }

  lemma SweepBegun(s: Engine, t: Tick)
    requires NIFTY_1M in s.aggs && s.aggs[NIFTY_1M] == Some(Begin(60_000, t)) && 0 <= t.ts < 60_000
    ensures var u := Do(ONE_KEY, s, Swept(60_000));
      && NIFTY_1M in u.aggs && u.aggs[NIFTY_1M] == None
      && (NIFTY_1M, 0) in u.table && u.table[(NIFTY_1M, 0)] == Begin(60_000, t)
  {
    assert ONE_KEY.keys == [NIFTY_1M] && [NIFTY_1M][..0] == [] && SweepKeys(s, [], 60_000) == s;
    assert SweepKeys(s, [NIFTY_1M], 60_000) == SweepKey(s, NIFTY_1M, 60_000);
  }

  lemma TicksSnoc(steps: seq<Step>, step: Step, index: string)
    ensures TicksOf(steps + [step], index)
            == if step.Ticked? && step.index == index && Usable(step.tick) then TicksOf(steps, index) + [step.tick]
               else TicksOf(steps, index)
  {
    assert (steps + [step])[..|steps|] == steps;
  }

  lemma RunSnoc(c: Setup, steps: seq<Step>, step: Step)
    ensures Run(c, steps + [step]) == Do(c, Run(c, steps), step)
  {
    assert (steps + [step])[..|steps|] == steps;
  }

  lemma RowsAreBatch(w: Width, t: Engine, key: Key, bars: seq<Bar>, ticks: seq<Tick>)
    requires RowsAre(t, key, bars) && CandlesOf(w, bars, ticks)
    ensures forall o :: (key, o) in t.table <==> InBucket(w, ticks, o) != []
    ensures forall o :: (key, o) in t.table ==> t.table[(key, o)] == CandleOf(o, InBucket(w, ticks, o))
  {
    hide Bucket, CandleOf;
    forall o ensures (key, o) in t.table <==> InBucket(w, ticks, o) != []
    ensures (key, o) in t.table ==> t.table[(key, o)] == CandleOf(o, InBucket(w, ticks, o)) {
      if Covers(bars, o) {
        var i :| 0 <= i < |bars| && bars[i].openTs == o;
        assert IsCandle(w, bars[i], ticks);
      } else {
        forall j | 0 <= j < |ticks| ensures Bucket(w, ticks[j].ts) != o {
          assert Covers(bars, Bucket(w, ticks[j].ts));
        }
        InBucketEmpty(w, ticks, o);
      }
    }
  }
}
