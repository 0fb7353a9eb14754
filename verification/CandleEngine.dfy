/**
 The candle engine: one aggregator per index and timeframe, an in-progress record per
 aggregator in the live store, and the candle table, upserted by (key, bucket start).
 Restarting is shown to be the same as sweeping.
 */
module CandleEngine {
  import opened Common
  import opened Candles

  datatype Timeframe = M1 | M5 | M15

  function WidthOf(tf: Timeframe): Width {
    match tf case M1 => 60_000 case M5 => 300_000 case M15 => 900_000
  }

  datatype Key = Key(index: string, tf: Timeframe)

  // ---- the aggregator object and its persisted form ----

  /** The stored record; None stands for the JSON null of an empty aggregator. */
  datatype Saved = Saved(
    openTs: Option<int>, closeTs: Option<int>, open: Option<real>,
    high: Option<real>, low: Option<real>, close: Option<real>, tickCount: int)

  function ToState(w: Width, cur: Option<Bar>): Saved {
    match cur
    case None => Saved(None, None, None, None, None, None, 0)
    case Some(b) =>
      Saved(Some(b.openTs), Some(b.openTs + w), Some(b.open), Some(b.high), Some(b.low), Some(b.close), b.count)
  }

  class CandleAggregator {
    const bucketMs: Width
    var openTs: Option<int>
    var closeTs: Option<int>
    var openPrice: Option<real>
    var high: Option<real> // None stands for minus infinity
    var low: Option<real> // None stands for plus infinity
    var closePrice: Option<real>
    var tickCount: int

    /** Either nothing is set, or all of it is. */
    predicate Valid()
      reads this
    {
      && (openTs.Some? <==> closeTs.Some? && openPrice.Some? && high.Some? && low.Some? && closePrice.Some?)
      && (openTs.None? ==>
            closeTs.None? && openPrice.None? && high.None? && low.None? && closePrice.None? && tickCount == 0)
      && (openTs.Some? ==> closeTs.value == openTs.value + bucketMs)
    }

    function Abstract(): Option<Bar>
      requires Valid()
      reads this
    {
      if openTs.None? then None
      else Some(Bar(openTs.value, openPrice.value, high.value, low.value, closePrice.value, tickCount))
    }

    constructor (bucketMs: Width)
      ensures Valid() && Abstract() == None && this.bucketMs == bucketMs
    {
      this.bucketMs := bucketMs;
      openTs, closeTs, openPrice, high, low, closePrice, tickCount := None, None, None, None, None, None, 0;
    }

    /** Rebuild from any stored record, field by field: whatever bar was saved comes back. */
    constructor FromState(bucketMs: Width, state: Saved)
      ensures this.bucketMs == bucketMs
      ensures Saved(openTs, closeTs, openPrice, high, low, closePrice, tickCount) == state
      ensures forall saved :: ToState(bucketMs, saved) == state ==> Valid() && Abstract() == saved
    {
      this.bucketMs := bucketMs;
      openTs, closeTs, openPrice := state.openTs, state.closeTs, state.open;
      high, low, closePrice, tickCount := state.high, state.low, state.close, state.tickCount;
    }

    method ToSaved() returns (state: Saved)
      requires Valid()
      ensures state == ToState(bucketMs, Abstract())
    {
      state := Saved(openTs, closeTs, openPrice, high, low, closePrice, tickCount);
    }

    method BeginBucket(start: int, ltp: real)
      modifies this
      ensures Valid() && Abstract() == Some(Bar(start, ltp, ltp, ltp, ltp, 1))
    {
      openTs, closeTs := Some(start), Some(start + bucketMs);
      openPrice, high, low, closePrice := Some(ltp), Some(ltp), Some(ltp), Some(ltp);
      tickCount := 1;
    }

    method Snapshot() returns (candle: Bar)
      requires Valid() && openTs.Some?
      ensures Some(candle) == Abstract()
    {
      candle := Bar(openTs.value, openPrice.value, high.value, low.value, closePrice.value, tickCount);
    }

    method Reset()
      modifies this
      ensures Valid() && Abstract() == None
    {
      openTs, closeTs, openPrice, high, low, closePrice, tickCount := None, None, None, None, None, None, 0;
    }

    /** Absorb a tick; the result is the candle this tick closed, if any. */
    method IngestTick(ts: int, ltp: real) returns (closed: Option<Bar>)
      requires Valid()
      modifies this
      ensures Valid() && (Abstract(), closed) == Ingest(bucketMs, old(Abstract()), Tick(ts, ltp))
    {
      var start := Bucket(bucketMs, ts);
      if openTs.None? {
        BeginBucket(start, ltp);
        return None;
      }
      if start > openTs.value {
        var c := Snapshot();
        BeginBucket(start, ltp);
        return Some(c);
      }
      if start < openTs.value { return None; }
      if ltp > high.value { high := Some(ltp); }
      if ltp < low.value { low := Some(ltp); }
      closePrice := Some(ltp);
      tickCount := tickCount + 1;
      return None;
    }

    method MaybeCloseStale(now: int) returns (closed: Option<Bar>)
      requires Valid()
      modifies this
      ensures Valid() && Abstract() == AfterSweep(bucketMs, old(Abstract()), now)
      ensures closed == if IsStale(bucketMs, old(Abstract()), now) then old(Abstract()) else None
    {
      if openTs.None? || closeTs.None? { return None; }
      if now >= closeTs.value {
        var c := Snapshot();
        Reset();
        return Some(c);
      }
      return None;
    }
  }

  // ---- the engine's state ----

  datatype Engine = Engine(aggs: map<Key, Option<Bar>>, store: map<Key, Saved>, table: map<(Key, int), Bar>)

  /** Upsert the candle and drop the in-progress record. */
  function Emit(s: Engine, key: Key, c: Option<Bar>): Engine {
    if c == None then s
    else s.(table := s.table[(key, c.value.openTs) := c.value], store := s.store - {key})
  }

  /** Persist after a tick; an empty aggregator is not written. */
  function Persist(s: Engine, key: Key, cur: Option<Bar>): Engine {
    if cur == None then s else s.(store := s.store[key := ToState(WidthOf(key.tf), cur)])
  }

  function TickKey(s: Engine, key: Key, t: Tick): Engine {
    if key !in s.aggs then s
    else
      var (cur, closed) := Ingest(WidthOf(key.tf), s.aggs[key], t);
      Persist(Emit(s.(aggs := s.aggs[key := cur]), key, closed), key, cur)
  }

  function TickFrames(s: Engine, index: string, tfs: seq<Timeframe>, t: Tick): Engine {
    if tfs == [] then s
    else TickKey(TickFrames(s, index, tfs[..|tfs| - 1], t), Key(index, tfs[|tfs| - 1]), t)
  }

  function OnTick(s: Engine, index: string, tfs: seq<Timeframe>, t: Tick): Engine {
    if index == "" || t.ts <= 0 || t.price <= 0.0 then s else TickFrames(s, index, tfs, t)
  }

  function SweepKey(s: Engine, key: Key, now: int): Engine {
    if key !in s.aggs then s
    else
      var w, cur := WidthOf(key.tf), s.aggs[key];
      if IsStale(w, cur, now) then Emit(s.(aggs := s.aggs[key := None]), key, cur) else s
  }

  function SweepKeys(s: Engine, keys: seq<Key>, now: int): Engine {
    if keys == [] then s else SweepKey(SweepKeys(s, keys[..|keys| - 1], now), keys[|keys| - 1], now)
  }

  /** What a record says the aggregator held; a malformed record holds nothing. */
  function Restored(state: Saved): Option<Bar> {
    match state
    case Saved(Some(o), Some(_), Some(p), Some(h), Some(l), Some(c), n) => Some(Bar(o, p, h, l, c, n))
    case _ => None
  }

  lemma SavedRestores(w: Width, cur: Option<Bar>)
    ensures Restored(ToState(w, cur)) == cur
  {}

  function RecoverKey(s: Engine, key: Key, now: int): Engine {
    if key !in s.store then s
    else
      var w, cur := WidthOf(key.tf), Restored(s.store[key]);
      if IsStale(w, cur, now) then Emit(s, key, cur) else s.(aggs := s.aggs[key := cur])
  }

  function RecoverKeys(s: Engine, keys: seq<Key>, now: int): Engine {
    if keys == [] then s else RecoverKey(RecoverKeys(s, keys[..|keys| - 1], now), keys[|keys| - 1], now)
  }

  /** A new process: empty aggregators, then recovery from the store. */
  function Fresh(keys: seq<Key>): map<Key, Option<Bar>> { map k | k in keys :: None }

  function Restart(s: Engine, keys: seq<Key>, now: int): Engine {
    RecoverKeys(s.(aggs := Fresh(keys)), keys, now)
  }

  // ---- runs ----

  datatype Step = Ticked(index: string, tick: Tick) | Swept(now: int) | Restarted(now: int)

  /** The keys in dictionary order (no duplicates) and the timeframe list. */
  datatype Setup = Setup(keys: seq<Key>, tfs: seq<Timeframe>) {
    predicate Valid() { forall i, j :: 0 <= i < j < |keys| ==> keys[i] != keys[j] }
  }

  function Do(c: Setup, s: Engine, step: Step): Engine {
    match step
    case Ticked(index, t) => OnTick(s, index, c.tfs, t)
    case Swept(now) => SweepKeys(s, c.keys, now)
    case Restarted(now) => Restart(s, c.keys, now)
  }

  function Run(c: Setup, steps: seq<Step>): Engine {
    if steps == [] then Engine(Fresh(c.keys), map[], map[])
    else Do(c, Run(c, steps[..|steps| - 1]), steps[|steps| - 1])
  }

  /** The same run with every restart replaced by a sweep at that time. */
  function Uninterrupted(steps: seq<Step>): seq<Step> {
    seq(|steps|, i requires 0 <= i < |steps| =>
      if steps[i].Restarted? then Swept(steps[i].now) else steps[i])
  }

  // ---- memory and store agree at every handler boundary ----

  /** The stored record is the aggregator's, or absent when the aggregator is empty. */
  ghost predicate InSync(c: Setup, s: Engine) {
    && (forall k :: k in s.aggs <==> k in c.keys)
    && (forall k :: k in s.store ==> k in c.keys)
    && (forall k :: k in s.aggs ==> (s.aggs[k] == None <==> k !in s.store))
    && (forall k :: k in s.store && k in s.aggs ==> s.store[k] == ToState(WidthOf(k.tf), s.aggs[k]))
  }

  lemma TickKeySync(c: Setup, s: Engine, key: Key, t: Tick)
    requires InSync(c, s)
    ensures InSync(c, TickKey(s, key, t))
  {
    hide Bucket;
  }

  lemma {:induction false} TickFramesSync(c: Setup, s: Engine, index: string, tfs: seq<Timeframe>, t: Tick)
    requires InSync(c, s)
    ensures InSync(c, TickFrames(s, index, tfs, t))
  {
    hide InSync, TickKey;
    if tfs == [] {
    } else {
      TickFramesSync(c, s, index, tfs[..|tfs| - 1], t);
      TickKeySync(c, TickFrames(s, index, tfs[..|tfs| - 1], t), Key(index, tfs[|tfs| - 1]), t);
    }
  }

  lemma {:induction false} SweepKeysSync(c: Setup, s: Engine, keys: seq<Key>, now: int)
    requires InSync(c, s)
    ensures InSync(c, SweepKeys(s, keys, now))
  {
    if keys == [] {
    } else {
      SweepKeysSync(c, s, keys[..|keys| - 1], now);
    }
  }

  // ---- restarting is sweeping ----

  /** After `keys`, recovery has rebuilt exactly what sweeping would have left; the rest is empty. */
  ghost predicate Halfway(keys: seq<Key>, recovered: Engine, swept: Engine) {
    && recovered.store == swept.store && recovered.table == swept.table
    && recovered.aggs.Keys == swept.aggs.Keys
    && (forall k :: k in swept.aggs ==> recovered.aggs[k] == if k in keys then swept.aggs[k] else None)
  }

  lemma {:induction false} SweepLeavesOthers(c: Setup, s: Engine, keys: seq<Key>, now: int, k: Key)
    requires InSync(c, s) && k !in keys && k in s.aggs
    ensures var t := SweepKeys(s, keys, now);
      && k in t.aggs && t.aggs[k] == s.aggs[k]
      && (k in t.store <==> k in s.store) && (k in s.store ==> t.store[k] == s.store[k])
  {
    if keys == [] {
    } else {
      SweepLeavesOthers(c, s, keys[..|keys| - 1], now, k);
    }
  }

  lemma HalfwayStep(c: Setup, keys: seq<Key>, recovered: Engine, swept: Engine, key: Key, now: int)
    requires Halfway(keys, recovered, swept) && InSync(c, swept) && key !in keys && key in swept.aggs
    ensures Halfway(keys + [key], RecoverKey(recovered, key, now), SweepKey(swept, key, now))
  {
    SavedRestores(WidthOf(key.tf), swept.aggs[key]);
    var r, t := RecoverKey(recovered, key, now), SweepKey(swept, key, now);
    assert r.aggs.Keys == t.aggs.Keys;
  }

  lemma {:induction false} RecoverFollowsSweep(c: Setup, s: Engine, n: nat, now: int)
    requires c.Valid() && InSync(c, s) && n <= |c.keys|
    ensures Halfway(c.keys[..n], RecoverKeys(s.(aggs := Fresh(c.keys)), c.keys[..n], now),
                    SweepKeys(s, c.keys[..n], now))
  {
    if n == 0 {
    } else {
      var keys, key := c.keys[..n - 1], c.keys[n - 1];
      assert c.keys[..n][..n - 1] == keys && c.keys[..n] == keys + [key];
      RecoverFollowsSweep(c, s, n - 1, now);
      SweepKeysSync(c, s, keys, now);
      SweepLeavesOthers(c, s, keys, now, key);
      HalfwayStep(c, keys, RecoverKeys(s.(aggs := Fresh(c.keys)), keys, now), SweepKeys(s, keys, now), key, now);
    }
  }

  /** From a synchronised state a restart has exactly the effect of a sweep. */
  lemma RestartIsSweep(c: Setup, s: Engine, now: int)
    requires c.Valid() && InSync(c, s)
    ensures Restart(s, c.keys, now) == SweepKeys(s, c.keys, now)
  {
    hide RecoverKeys, SweepKeys, Fresh;
    RecoverFollowsSweep(c, s, |c.keys|, now);
    SweepKeysSync(c, s, c.keys, now);
    assert c.keys[..|c.keys|] == c.keys;
    var r, t := Restart(s, c.keys, now), SweepKeys(s, c.keys, now);
    assert r.aggs == t.aggs;
  }

  /** At every handler boundary of every run the stored records mirror memory. */
  lemma {:induction false} AlwaysInSync(c: Setup, steps: seq<Step>)
    requires c.Valid()
    ensures InSync(c, Run(c, steps))
  {
    if steps == [] {
    } else {
      hide InSync, TickFrames, SweepKeys, Restart;
      var s, step := Run(c, steps[..|steps| - 1]), steps[|steps| - 1];
      AlwaysInSync(c, steps[..|steps| - 1]);
      match step {
        case Ticked(index, t) => TickFramesSync(c, s, index, c.tfs, t);
        case Swept(now) => SweepKeysSync(c, s, c.keys, now);
        case Restarted(now) =>
          RestartIsSweep(c, s, now);
          SweepKeysSync(c, s, c.keys, now);
      }
    }
  }

  /**
   Restart transparency: any interleaving of ticks, sweeps and restarts leaves the same
   candle table, store and aggregators as the run that sweeps instead of restarting.
   */
  lemma {:induction false} RestartsAreTransparent(c: Setup, steps: seq<Step>)
    requires c.Valid()
    ensures Run(c, steps) == Run(c, Uninterrupted(steps))
  {
    if steps == [] {
    } else {
      hide TickFrames, SweepKeys, Restart, InSync;
      var n := |steps| - 1;
      RestartsAreTransparent(c, steps[..n]);
      assert Uninterrupted(steps)[..n] == Uninterrupted(steps[..n]);
      AlwaysInSync(c, steps[..n]);
      if steps[n].Restarted? { RestartIsSweep(c, Run(c, steps[..n]), steps[n].now); }
    }
  }

  // ---- the running engine ----

  class Builder {
    const setup: Setup
    var aggs: map<Key, Option<Bar>>
    var store: map<Key, Saved>
    var table: map<(Key, int), Bar>

    ghost function Abstract(): Engine
      reads this
    {
      Engine(aggs, store, table)
    }

    /** A process start on whatever the live store and the table hold. */
    constructor (setup: Setup, store: map<Key, Saved>, table: map<(Key, int), Bar>, now: int)
      requires setup.Valid()
      ensures this.setup == setup
      ensures forall old_aggs :: Abstract() == Restart(Engine(old_aggs, store, table), setup.keys, now)
    {
      this.setup, this.store, this.table := setup, store, table;
      aggs := Fresh(setup.keys);
      new;
      RecoverFromStore(now);
    }

    method RecoverFromStore(now: int)
      modifies this
      ensures Abstract() == RecoverKeys(old(Abstract()), setup.keys, now)
    {
      for i := 0 to |setup.keys|
        invariant Abstract() == RecoverKeys(old(Abstract()), setup.keys[..i], now)
      {
        var key := setup.keys[i];
        assert setup.keys[..i + 1][..i] == setup.keys[..i];
        if key in store {
          var restored := Restored(store[key]);
          if IsStale(WidthOf(key.tf), restored, now) {
            EmitClosed(key, restored.value);
          } else {
            aggs := aggs[key := restored];
          }
        }
      }
      assert setup.keys[..|setup.keys|] == setup.keys;
    }

    method EmitClosed(key: Key, candle: Bar)
      modifies this
      ensures Abstract() == Emit(old(Abstract()), key, Some(candle))
    {
      table := table[(key, candle.openTs) := candle];
      store := store - {key};
    }

    method HandleTick(index: string, t: Tick)
      modifies this
      ensures Abstract() == OnTick(old(Abstract()), index, setup.tfs, t)
    {
      if index == "" || t.ts <= 0 || t.price <= 0.0 { return; }
      hide Ingest;
      for i := 0 to |setup.tfs|
        invariant Abstract() == TickFrames(old(Abstract()), index, setup.tfs[..i], t)
      {
        var key := Key(index, setup.tfs[i]);
        assert setup.tfs[..i + 1][..i] == setup.tfs[..i];
        if key in aggs {
          var (cur, closed) := Ingest(WidthOf(key.tf), aggs[key], t);
          aggs := aggs[key := cur];
          if closed.Some? { EmitClosed(key, closed.value); }
          if cur.Some? { store := store[key := ToState(WidthOf(key.tf), cur)]; }
        }
      }
      assert setup.tfs[..|setup.tfs|] == setup.tfs;
    }

    /** One pass of the closer loop. */
    method Sweep(now: int)
      modifies this
      ensures Abstract() == SweepKeys(old(Abstract()), setup.keys, now)
    {
      for i := 0 to |setup.keys|
        invariant Abstract() == SweepKeys(old(Abstract()), setup.keys[..i], now)
      {
        var key := setup.keys[i];
        assert setup.keys[..i + 1][..i] == setup.keys[..i];
        if key in aggs && IsStale(WidthOf(key.tf), aggs[key], now) {
          var closed := aggs[key].value;
          aggs := aggs[key := None];
          EmitClosed(key, closed);
        }
      }
      assert setup.keys[..|setup.keys|] == setup.keys;
    }
  }
}
