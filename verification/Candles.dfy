/**
 Candle aggregation. `Ingest` and `CloseStale` are the aggregator's two transitions; the
 batch reading groups the accepted ticks by bucket; roll-up combines finer candles.
 */
module Candles {
  import opened Common

  datatype Tick = Tick(ts: int, price: real)

  /** An OHLC bar; its bucket is [openTs, openTs + width). */
  datatype Bar = Bar(openTs: int, open: real, high: real, low: real, close: real, count: int)

  type Width = w: int | w > 0 witness 1

  function Bucket(w: Width, ts: int): int { (ts / w) * w }

  function MinReal(a: real, b: real): real { if a <= b then a else b }

  function Begin(w: Width, t: Tick): Bar { Bar(Bucket(w, t.ts), t.price, t.price, t.price, t.price, 1) }

  function Extend(b: Bar, price: real): Bar {
    Bar(b.openTs, b.open, MaxReal(b.high, price), MinReal(b.low, price), price, b.count + 1)
  }

  /** The new in-progress bar and the bar this tick closed, if any. A late tick is dropped. */
  function Ingest(w: Width, cur: Option<Bar>, t: Tick): (Option<Bar>, Option<Bar>) {
    var start := Bucket(w, t.ts);
    if cur == None then (Some(Begin(w, t)), None)
    else if start > cur.value.openTs then (Some(Begin(w, t)), cur)
    else if start < cur.value.openTs then (cur, None)
    else (Some(Extend(cur.value, t.price)), None)
  }

  function IsStale(w: Width, cur: Option<Bar>, now: int): bool { cur.Some? && now >= cur.value.openTs + w }

  /** The in-progress bar after a sweep; a stale one is closed. */
  function AfterSweep(w: Width, cur: Option<Bar>, now: int): Option<Bar> {
    if IsStale(w, cur, now) then None else cur
  }

  // ---- streaming ----

  datatype Stream = Stream(emitted: seq<Bar>, current: Option<Bar>)

  function Push(bars: seq<Bar>, b: Option<Bar>): seq<Bar> { if b == None then bars else bars + [b.value] }

  function StreamTick(w: Width, s: Stream, t: Tick): Stream {
    var (cur, closed) := Ingest(w, s.current, t);
    Stream(Push(s.emitted, closed), cur)
  }

  function StreamAll(w: Width, ticks: seq<Tick>): Stream {
    if ticks == [] then Stream([], None)
    else StreamTick(w, StreamAll(w, ticks[..|ticks| - 1]), ticks[|ticks| - 1])
  }

  /** Everything the stream emits once its last bar is closed too. */
  function Output(s: Stream): seq<Bar> { Push(s.emitted, s.current) }

  // ---- the batch reading ----

  /** Accepted: no earlier tick lies in a later bucket. */
  predicate IsAccepted(w: Width, ticks: seq<Tick>, i: int)
    requires 0 <= i < |ticks|
  {
    forall j :: 0 <= j < i ==> Bucket(w, ticks[j].ts) <= Bucket(w, ticks[i].ts)
  }

  function Accepted(w: Width, ticks: seq<Tick>): seq<Tick> {
    if ticks == [] then []
    else
      var n := |ticks| - 1;
      var rest := Accepted(w, ticks[..n]);
      if IsAccepted(w, ticks, n) then rest + [ticks[n]] else rest
  }

  function InBucket(w: Width, ticks: seq<Tick>, start: int): seq<Tick> {
    if ticks == [] then []
    else
      var n := |ticks| - 1;
      var rest := InBucket(w, ticks[..n], start);
      if Bucket(w, ticks[n].ts) == start then rest + [ticks[n]] else rest
  }

  function Highest(ticks: seq<Tick>): real
    requires ticks != []
  {
    if |ticks| == 1 then ticks[0].price
    else MaxReal(Highest(ticks[..|ticks| - 1]), ticks[|ticks| - 1].price)
  }

  function Lowest(ticks: seq<Tick>): real
    requires ticks != []
  {
    if |ticks| == 1 then ticks[0].price
    else MinReal(Lowest(ticks[..|ticks| - 1]), ticks[|ticks| - 1].price)
  }

  /** First, highest, lowest, last and number of a group of ticks. */
  function CandleOf(start: int, group: seq<Tick>): Bar
    requires group != []
  {
    Bar(start, group[0].price, Highest(group), Lowest(group), group[|group| - 1].price, |group|)
  }

  function CountSum(bars: seq<Bar>): int {
    if bars == [] then 0 else CountSum(bars[..|bars| - 1]) + bars[|bars| - 1].count
  }

  predicate Increasing(bars: seq<Bar>) {
    forall i, j :: 0 <= i < j < |bars| ==> bars[i].openTs < bars[j].openTs
  }

  /** `bar` is the candle of the ticks in its bucket. */
  predicate IsCandle(w: Width, bar: Bar, ticks: seq<Tick>) {
    var group := InBucket(w, ticks, bar.openTs);
    group != [] && bar == CandleOf(bar.openTs, group)
  }

  predicate Covers(bars: seq<Bar>, start: int) { exists i :: 0 <= i < |bars| && bars[i].openTs == start }

  /** `bars` are the candles of `ticks`, one per bucket that occurs, in order. */
  ghost predicate CandlesOf(w: Width, bars: seq<Bar>, ticks: seq<Tick>) {
    && Increasing(bars)
    && (forall i :: 0 <= i < |bars| ==> IsCandle(w, bars[i], ticks))
    && (forall j :: 0 <= j < |ticks| ==> Covers(bars, Bucket(w, ticks[j].ts)))
  }

  lemma InBucketSnoc(w: Width, ticks: seq<Tick>, t: Tick, start: int)
    ensures InBucket(w, ticks + [t], start)
            == if Bucket(w, t.ts) == start then InBucket(w, ticks, start) + [t] else InBucket(w, ticks, start)
  {
    assert (ticks + [t])[..|ticks|] == ticks;
  }

  lemma {:induction false} InBucketEmpty(w: Width, ticks: seq<Tick>, start: int)
    requires forall j :: 0 <= j < |ticks| ==> Bucket(w, ticks[j].ts) != start
    ensures InBucket(w, ticks, start) == []
  {
    hide Bucket;
    if ticks == [] {
    } else {
      InBucketEmpty(w, ticks[..|ticks| - 1], start);
    }
  }

  lemma CandleSnoc(start: int, group: seq<Tick>, t: Tick)
    requires group != []
    ensures CandleOf(start, group + [t]) == Extend(CandleOf(start, group), t.price)
  {
    assert (group + [t])[..|group|] == group;
  }

  /** A tick in a later bucket than all before opens a new candle. */
  lemma CandlesNewBucket(w: Width, bars: seq<Bar>, ticks: seq<Tick>, t: Tick)
    requires CandlesOf(w, bars, ticks)
    requires forall j :: 0 <= j < |ticks| ==> Bucket(w, ticks[j].ts) < Bucket(w, t.ts)
    requires forall i :: 0 <= i < |bars| ==> bars[i].openTs < Bucket(w, t.ts)
    ensures CandlesOf(w, bars + [Begin(w, t)], ticks + [t])
  {
    hide Bucket, InBucket;
    var b := Bucket(w, t.ts);
    InBucketEmpty(w, ticks, b);
    InBucketSnoc(w, ticks, t, b);
    var all := bars + [Begin(w, t)];
    assert IsCandle(w, Begin(w, t), ticks + [t]);
    forall i | 0 <= i < |all| ensures IsCandle(w, all[i], ticks + [t]) {
      if i < |bars| {
        assert IsCandle(w, bars[i], ticks);
        InBucketSnoc(w, ticks, t, bars[i].openTs);
      }
    }
    forall j | 0 <= j < |ticks + [t]| ensures Covers(all, Bucket(w, (ticks + [t])[j].ts)) {
      if j < |ticks| {
        assert Covers(bars, Bucket(w, ticks[j].ts));
        var i :| 0 <= i < |bars| && bars[i].openTs == Bucket(w, ticks[j].ts);
        assert all[i] == bars[i];
      } else {
        assert all[|bars|].openTs == b;
      }
    }
  }

  /** A tick in the last candle's bucket extends that candle. */
  lemma CandlesSameBucket(w: Width, bars: seq<Bar>, ticks: seq<Tick>, t: Tick)
    requires CandlesOf(w, bars, ticks) && bars != []
    requires bars[|bars| - 1].openTs == Bucket(w, t.ts)
    ensures CandlesOf(w, bars[..|bars| - 1] + [Extend(bars[|bars| - 1], t.price)], ticks + [t])
  {
    hide Bucket, InBucket;
    var n := |bars| - 1;
    var all := bars[..n] + [Extend(bars[n], t.price)];
    forall i | 0 <= i < |all| ensures IsCandle(w, all[i], ticks + [t]) {
      assert IsCandle(w, bars[i], ticks);
      InBucketSnoc(w, ticks, t, bars[i].openTs);
      CandleSnoc(bars[i].openTs, InBucket(w, ticks, bars[i].openTs), t);
    }
    forall j | 0 <= j < |ticks + [t]| ensures Covers(all, Bucket(w, (ticks + [t])[j].ts)) {
      if j < |ticks| {
        assert Covers(bars, Bucket(w, ticks[j].ts));
        var i :| 0 <= i < |bars| && bars[i].openTs == Bucket(w, ticks[j].ts);
        assert all[i].openTs == bars[i].openTs;
      } else {
        assert all[n].openTs == Bucket(w, t.ts);
      }
    }
  }

  /** The in-progress bar sits at the highest bucket seen so far. */
  ghost predicate AtTop(w: Width, s: Stream, ticks: seq<Tick>) {
    && (s.current == None <==> ticks == [])
    && (s.current.Some? ==>
          && (forall j :: 0 <= j < |ticks| ==> Bucket(w, ticks[j].ts) <= s.current.value.openTs)
          && (exists j :: 0 <= j < |ticks| && Bucket(w, ticks[j].ts) == s.current.value.openTs))
  }

  lemma {:induction false} StreamStaysAtTop(w: Width, ticks: seq<Tick>)
    ensures AtTop(w, StreamAll(w, ticks), ticks)
  {
    hide Bucket;
    if ticks == [] {
    } else {
      var before, t := ticks[..|ticks| - 1], ticks[|ticks| - 1];
      StreamStaysAtTop(w, before);
      var s, s' := StreamAll(w, before), StreamAll(w, ticks);
      if s'.current == s.current {
        var j :| 0 <= j < |before| && Bucket(w, before[j].ts) == s.current.value.openTs;
        assert ticks[j] == before[j];
      } else {
        assert Bucket(w, ticks[|ticks| - 1].ts) == s'.current.value.openTs;
      }
    }
  }

  lemma AcceptedIffNotLate(w: Width, ticks: seq<Tick>, t: Tick)
    ensures IsAccepted(w, ticks + [t], |ticks|)
            <==> (StreamAll(w, ticks).current.Some? ==> Bucket(w, t.ts) >= StreamAll(w, ticks).current.value.openTs)
  {
    hide Bucket, StreamAll;
    StreamStaysAtTop(w, ticks);
    var s := StreamAll(w, ticks);
    if s.current.Some? {
      var j :| 0 <= j < |ticks| && Bucket(w, ticks[j].ts) == s.current.value.openTs;
      assert (ticks + [t])[j] == ticks[j];
    }
  }

  lemma {:induction false} AcceptedBelowTop(w: Width, ticks: seq<Tick>)
    ensures forall a :: a in Accepted(w, ticks) ==> a in ticks
  {
    if ticks == [] {
    } else {
      AcceptedBelowTop(w, ticks[..|ticks| - 1]);
    }
  }

  /**
   Streaming is batch grouping: for any ticks, in any order, the emitted bars are exactly
   the candles of the accepted ticks, and no accepted tick goes uncounted.
   */
  lemma {:induction false} StreamingIsBatch(w: Width, ticks: seq<Tick>)
    ensures CandlesOf(w, Output(StreamAll(w, ticks)), Accepted(w, ticks))
    ensures CountSum(Output(StreamAll(w, ticks))) == |Accepted(w, ticks)|
  {
    hide Bucket, CandlesOf, IsAccepted;
    if ticks == [] {
      NoCandles(w);
      assert Output(StreamAll(w, ticks)) == [];
    } else {
      var before, t := ticks[..|ticks| - 1], ticks[|ticks| - 1];
      assert ticks == before + [t];
      StreamingIsBatch(w, before);
      BatchStep(w, before, t);
    }
  }

  lemma NoCandles(w: Width)
    ensures CandlesOf(w, [], [])
  {}

  lemma {:induction false} BatchStep(w: Width, before: seq<Tick>, t: Tick)
    requires CandlesOf(w, Output(StreamAll(w, before)), Accepted(w, before))
    requires CountSum(Output(StreamAll(w, before))) == |Accepted(w, before)|
    ensures CandlesOf(w, Output(StreamAll(w, before + [t])), Accepted(w, before + [t]))
    ensures CountSum(Output(StreamAll(w, before + [t]))) == |Accepted(w, before + [t])|
  {
    hide Bucket, InBucket, CandleOf, IsAccepted, CandlesOf, AtTop;
    var s, ticks := StreamAll(w, before), before + [t];
    assert ticks[..|before|] == before;
    AcceptedIffNotLate(w, before, t);
    var out := Output(s);
    if s.current == None || Bucket(w, t.ts) > s.current.value.openTs {
      AllBelow(w, before, t);
      assert Output(StreamAll(w, ticks)) == out + [Begin(w, t)];
      CandlesNewBucket(w, out, Accepted(w, before), t);
    } else if Bucket(w, t.ts) == s.current.value.openTs {
      assert out[..|out| - 1] == s.emitted && out[|out| - 1] == s.current.value;
      CandlesSameBucket(w, out, Accepted(w, before), t);
    }
  }

  /** Before a tick that opens a new bucket everything lies in earlier buckets. */
  lemma AllBelow(w: Width, before: seq<Tick>, t: Tick)
    requires CandlesOf(w, Output(StreamAll(w, before)), Accepted(w, before))
    requires var cur := StreamAll(w, before).current; cur == None || Bucket(w, t.ts) > cur.value.openTs
    ensures var out := Output(StreamAll(w, before)); forall i :: 0 <= i < |out| ==> out[i].openTs < Bucket(w, t.ts)
    ensures var acc := Accepted(w, before); forall j :: 0 <= j < |acc| ==> Bucket(w, acc[j].ts) < Bucket(w, t.ts)
    ensures StreamAll(w, before).current == None ==> Output(StreamAll(w, before)) == []
  {
    hide Bucket, IsCandle, StreamAll, Accepted, IsAccepted;
    var s := StreamAll(w, before);
    StreamStaysAtTop(w, before);
    AcceptedBelowTop(w, before);
    if s.current == None {
      NoTicksNoOutput(w, before);
    } else {
      forall i | 0 <= i < |Output(s)| ensures Output(s)[i].openTs < Bucket(w, t.ts) { TopIsLast(s, i); }
    }
  }

  lemma NoTicksNoOutput(w: Width, ticks: seq<Tick>)
    requires StreamAll(w, ticks).current == None
    ensures Output(StreamAll(w, ticks)) == []
  {
    StreamStaysAtTop(w, ticks);
  }

  // ---- roll-up ----

  /** The bars of `bars` that lie in the window of width `w` starting at `start`. */
  function InWindow(w: Width, bars: seq<Bar>, start: int): seq<Bar> {
    if bars == [] then []
    else
      var n := |bars| - 1;
      var rest := InWindow(w, bars[..n], start);
      if Bucket(w, bars[n].openTs) == start then rest + [bars[n]] else rest
  }

  function MaxHigh(bars: seq<Bar>): real
    requires bars != []
  {
    if |bars| == 1 then bars[0].high else MaxReal(MaxHigh(bars[..|bars| - 1]), bars[|bars| - 1].high)
  }

  function MinLow(bars: seq<Bar>): real
    requires bars != []
  {
    if |bars| == 1 then bars[0].low else MinReal(MinLow(bars[..|bars| - 1]), bars[|bars| - 1].low)
  }

  /** First open, highest high, lowest low, last close, summed count. */
  function Rollup(start: int, bars: seq<Bar>): Bar
    requires bars != []
  {
    Bar(start, bars[0].open, MaxHigh(bars), MinLow(bars), bars[|bars| - 1].close, CountSum(bars))
  }

  predicate IsRollup(w: Width, bar: Bar, fine: seq<Bar>) {
    var window := InWindow(w, fine, bar.openTs);
    window != [] && bar == Rollup(bar.openTs, window)
  }

  predicate RollsUp(w: Width, coarse: seq<Bar>, fine: seq<Bar>) {
    forall i :: 0 <= i < |coarse| ==> IsRollup(w, coarse[i], fine)
  }

  predicate TimeOrdered(ticks: seq<Tick>) {
    forall i, j :: 0 <= i < j < |ticks| ==> ticks[i].ts <= ticks[j].ts
  }

  lemma BucketMonotone(w: Width, a: int, b: int)
    requires a <= b
    ensures Bucket(w, a) <= Bucket(w, b)
  {
    DivMonotone(w, a, b);
    assert (b / w - a / w) * w >= 0;
  }

  lemma DivMonotone(n: int, a: int, b: int)
    requires n > 0 && a <= b
    ensures a / n <= b / n
  {
    EuclidOrder(n, a / n, a % n, b / n, b % n);
  }

  /** Comparing two numbers written as quotient and remainder. */
  lemma EuclidOrder(n: int, p: int, r: int, q: int, s: int)
    requires n > 0 && 0 <= r < n && 0 <= s < n && p * n + r <= q * n + s
    ensures p <= q
  {
    if p > q { AtLeastOne(n, p, q); }
  }

  lemma AtLeastOne(n: int, p: int, q: int)
    requires n > 0 && p > q
    ensures p * n >= q * n + n
  {
    assert (p - q - 1) * n >= 0;
    assert (p - q - 1) * n == p * n - q * n - n;
  }

  lemma DivNest(a: int, m: int, k: int)
    requires m > 0 && k > 0
    ensures (a / m) / k == a / (k * m)
  {
    var q := (a / m) / k;
    var r, s := a % m, (a / m) % k;
    assert a == (q * k + s) * m + r;
    assert (q * k + s) * m == q * (k * m) + s * m;
    assert s * m + m <= k * m by { assert (s + 1) * m <= k * m; }
    DivUnique(a, k * m, q, s * m + r);
  }

  lemma DivUnique(a: int, n: int, q: int, r: int)
    requires n > 0 && a == q * n + r && 0 <= r < n
    ensures a / n == q
  {
    EuclidOrder(n, q, r, a / n, a % n);
    EuclidOrder(n, a / n, a % n, q, r);
  }

  /** A bucket starts at a multiple of the width and holds its tick. */
  lemma BucketWindow(w: Width, ts: int)
    ensures Bucket(w, ts) % w == 0 && Bucket(w, ts) <= ts < Bucket(w, ts) + w
  {
    var q := ts / w;
    assert ts == q * w + ts % w;
    DivUnique(q * w, w, q, 0);
    assert q * w == ((q * w) / w) * w + (q * w) % w;
  }

  /** Fine buckets nest in coarse ones. */
  lemma BucketNest(w: Width, k: int, ts: int)
    requires k > 0
    ensures k * w > 0 && Bucket(k * w, Bucket(w, ts)) == Bucket(k * w, ts)
  {
    var q := ts / w;
    assert k * w > 0;
    assert (q * w) / w == q by { DivUnique(q * w, w, q, 0); }
    DivNest(q * w, w, k);
    DivNest(ts, w, k);
  }

  lemma InWindowSnoc(w: Width, bars: seq<Bar>, b: Bar, start: int)
    ensures InWindow(w, bars + [b], start)
            == if Bucket(w, b.openTs) == start then InWindow(w, bars, start) + [b] else InWindow(w, bars, start)
  {
    assert (bars + [b])[..|bars|] == bars;
  }

  lemma RollupAppend(start: int, bars: seq<Bar>, b: Bar, price: real)
    requires bars != [] && b.high == price && b.low == price && b.close == price && b.count == 1
    ensures Rollup(start, bars + [b]) == Extend(Rollup(start, bars), price)
  {
    assert (bars + [b])[..|bars|] == bars;
  }

  lemma RollupExtend(start: int, bars: seq<Bar>, b: Bar, price: real)
    ensures Rollup(start, bars + [Extend(b, price)]) == Extend(Rollup(start, bars + [b]), price)
  {
    assert (bars + [b])[..|bars|] == bars && (bars + [Extend(b, price)])[..|bars|] == bars;
  }

  /** Both streams have seen the same ticks; the coarse top covers the fine top. */
  predicate Aligned(c: Width, fine: Stream, coarse: Stream) {
    && (fine.current == None <==> coarse.current == None)
    && (fine.current == None ==> Output(fine) == [] && Output(coarse) == [])
    && (fine.current.Some? ==> Bucket(c, fine.current.value.openTs) == coarse.current.value.openTs)
    && (forall i :: 0 <= i < |Output(fine)| && coarse.current.Some? ==>
          Bucket(c, Output(fine)[i].openTs) <= coarse.current.value.openTs)
    && Increasing(Output(coarse))
  }

  ghost predicate Nested(c: Width, fine: Stream, coarse: Stream) {
    Aligned(c, fine, coarse) && RollsUp(c, Output(coarse), Output(fine))
  }

  lemma {:induction false} WindowEmpty(c: Width, bars: seq<Bar>, start: int)
    requires forall i :: 0 <= i < |bars| ==> Bucket(c, bars[i].openTs) != start
    ensures InWindow(c, bars, start) == []
  {
    hide Bucket;
    if bars == [] {
    } else {
      WindowEmpty(c, bars[..|bars| - 1], start);
    }
  }

  /** A bar outside its window does not concern a candle. */
  lemma RollupElsewhere(c: Width, bar: Bar, fine: seq<Bar>, b: Bar)
    requires Bucket(c, b.openTs) != bar.openTs
    ensures IsRollup(c, bar, fine + [b]) <==> IsRollup(c, bar, fine)
  {
    InWindowSnoc(c, fine, b, bar.openTs);
  }

  /** A one-tick bar opens a new window and a new candle. */
  lemma RollupNew(c: Width, fine: seq<Bar>, b: Bar, top: int)
    requires forall i :: 0 <= i < |fine| ==> Bucket(c, fine[i].openTs) != top
    requires Bucket(c, b.openTs) == top
    ensures IsRollup(c, Bar(top, b.open, b.high, b.low, b.close, b.count), fine + [b])
  {
    hide Bucket;
    WindowEmpty(c, fine, top);
    InWindowSnoc(c, fine, b, top);
    assert InWindow(c, fine + [b], top) == [b];
    assert CountSum([b]) == b.count;
  }

  /** A one-tick bar in the window extends the candle. */
  lemma RollupGrows(c: Width, bar: Bar, fine: seq<Bar>, b: Bar, price: real)
    requires IsRollup(c, bar, fine) && Bucket(c, b.openTs) == bar.openTs
    requires b.high == price && b.low == price && b.close == price && b.count == 1
    ensures IsRollup(c, Extend(bar, price), fine + [b])
  {
    InWindowSnoc(c, fine, b, bar.openTs);
    RollupAppend(bar.openTs, InWindow(c, fine, bar.openTs), b, price);
  }

  /** Extending the last fine bar extends the candle. */
  lemma RollupFollows(c: Width, bar: Bar, fine: seq<Bar>, b: Bar, price: real)
    requires IsRollup(c, bar, fine + [b]) && Bucket(c, b.openTs) == bar.openTs
    ensures IsRollup(c, Extend(bar, price), fine + [Extend(b, price)])
  {
    InWindowSnoc(c, fine, b, bar.openTs);
    InWindowSnoc(c, fine, Extend(b, price), bar.openTs);
    RollupExtend(bar.openTs, InWindow(c, fine, bar.openTs), b, price);
  }

  /** A tick that opens a new coarse bucket opens a new fine one too. */
  lemma RollNewCoarse(w: Width, c: Width, fine: Stream, coarse: Stream, t: Tick)
    requires Nested(c, fine, coarse) && Bucket(c, Bucket(w, t.ts)) == Bucket(c, t.ts)
    requires coarse.current.Some? ==> Bucket(c, t.ts) > coarse.current.value.openTs
    requires fine.current.Some? ==> Bucket(w, t.ts) > fine.current.value.openTs
    ensures Nested(c, StreamTick(w, fine, t), StreamTick(c, coarse, t))
  {
    hide Bucket, IsRollup;
    var f, g, b := Output(fine), Output(coarse), Begin(w, t);
    assert Output(StreamTick(w, fine, t)) == f + [b];
    assert Output(StreamTick(c, coarse, t)) == g + [Begin(c, t)];
    forall i | 0 <= i < |g| ensures g[i].openTs < Bucket(c, t.ts) { TopIsLast(coarse, i); }
    RollupNew(c, f, b, Bucket(c, t.ts));
    forall i | 0 <= i < |g| ensures IsRollup(c, g[i], f + [b]) {
      RollupElsewhere(c, g[i], f, b);
    }
    var f', g' := StreamTick(w, fine, t), StreamTick(c, coarse, t);
    assert RollsUp(c, Output(g'), Output(f'));
    assert forall i :: 0 <= i < |f| ==> Output(f')[i] == f[i];
    assert Aligned(c, f', g');
  }

  lemma TopIsLast(s: Stream, i: int)
    requires Increasing(Output(s)) && s.current.Some? && 0 <= i < |Output(s)|
    ensures Output(s)[i].openTs <= s.current.value.openTs
    ensures Output(s)[i].openTs == s.current.value.openTs ==> i == |Output(s)| - 1
  {
    assert Output(s)[|Output(s)| - 1] == s.current.value;
  }

  /** A tick in the current coarse bucket extends it, whether or not a new fine bar begins. */
  lemma RollSameCoarse(w: Width, c: Width, fine: Stream, coarse: Stream, t: Tick)
    requires Nested(c, fine, coarse) && Bucket(c, Bucket(w, t.ts)) == Bucket(c, t.ts)
    requires coarse.current.Some? && Bucket(c, t.ts) == coarse.current.value.openTs
    requires Bucket(w, t.ts) >= fine.current.value.openTs
    ensures Nested(c, StreamTick(w, fine, t), StreamTick(c, coarse, t))
  {
    hide Bucket, IsRollup;
    var f, g := Output(fine), Output(coarse);
    var n, f' := |g| - 1, Output(StreamTick(w, fine, t));
    var g' := g[..n] + [Extend(g[n], t.price)];
    assert Output(StreamTick(c, coarse, t)) == g' && g[n] == coarse.current.value;
    forall i | 0 <= i < n ensures g[i].openTs < g[n].openTs { TopIsLast(coarse, i); }
    if Bucket(w, t.ts) > fine.current.value.openTs {
      var b := Begin(w, t);
      assert f' == f + [b];
      RollupGrows(c, g[n], f, b, t.price);
      forall i | 0 <= i < n ensures IsRollup(c, g[i], f') { RollupElsewhere(c, g[i], f, b); }
    } else {
      var e, last := fine.emitted, fine.current.value;
      assert f == e + [last] && f' == e + [Extend(last, t.price)];
      RollupFollows(c, g[n], e, last, t.price);
      forall i | 0 <= i < n ensures IsRollup(c, g[i], f') {
        RollupElsewhere(c, g[i], e, last);
        RollupElsewhere(c, g[i], e, Extend(last, t.price));
      }
      assert forall i :: 0 <= i < |f'| ==> f'[i].openTs == f[i].openTs;
    }
    assert RollsUp(c, g', f');
    assert Increasing(g');
    assert Aligned(c, StreamTick(w, fine, t), StreamTick(c, coarse, t));
  }

  /** Every tick accepted at the coarse width `c` is accepted at the fine width `w`. */
  ghost predicate SameAccepted(w: Width, c: Width, ticks: seq<Tick>) {
    forall i :: 0 <= i < |ticks| && IsAccepted(c, ticks, i) ==> IsAccepted(w, ticks, i)
  }

  lemma AcceptedPrefix(w: Width, before: seq<Tick>, t: Tick, i: int)
    requires 0 <= i < |before|
    ensures IsAccepted(w, before + [t], i) <==> IsAccepted(w, before, i)
  {
    hide Bucket;
    var all := before + [t];
    assert forall j :: 0 <= j < |before| ==> all[j] == before[j];
  }

  lemma SamePrefix(w: Width, c: Width, before: seq<Tick>, t: Tick)
    requires SameAccepted(w, c, before + [t])
    ensures SameAccepted(w, c, before)
  {
    hide IsAccepted;
    forall i | 0 <= i < |before| && IsAccepted(c, before, i) ensures IsAccepted(w, before, i) {
      AcceptedPrefix(w, before, t, i);
      AcceptedPrefix(c, before, t, i);
    }
  }

  lemma {:induction false} StreamsNest(w: Width, k: int, ticks: seq<Tick>)
    requires k > 0 && k * w > 0 && SameAccepted(w, k * w, ticks)
    ensures Nested(k * w, StreamAll(w, ticks), StreamAll(k * w, ticks))
  {
    var c: Width := k * w;
    hide Bucket, IsRollup, IsAccepted;
    if ticks == [] {
    } else {
      var before, t := ticks[..|ticks| - 1], ticks[|ticks| - 1];
      assert ticks == before + [t];
      SamePrefix(w, c, before, t);
      StreamsNest(w, k, before);
      BucketNest(w, k, t.ts);
      NestTick(w, c, before, t);
    }
  }

  lemma {:induction false} NestTick(w: Width, c: Width, before: seq<Tick>, t: Tick)
    requires Nested(c, StreamAll(w, before), StreamAll(c, before)) && Bucket(c, Bucket(w, t.ts)) == Bucket(c, t.ts)
    requires IsAccepted(c, before + [t], |before|) ==> IsAccepted(w, before + [t], |before|)
    ensures Nested(c, StreamAll(w, before + [t]), StreamAll(c, before + [t]))
  {
    assert (before + [t])[..|before|] == before;
    hide Bucket, IsRollup, IsAccepted, RollsUp;
    AcceptedIffNotLate(w, before, t);
    AcceptedIffNotLate(c, before, t);
    var fine, coarse := StreamAll(w, before), StreamAll(c, before);
    if fine.current.Some? {
      if Bucket(w, t.ts) >= fine.current.value.openTs {
        BucketMonotone(c, fine.current.value.openTs, Bucket(w, t.ts));
      } else {
        BucketMonotone(c, Bucket(w, t.ts), fine.current.value.openTs);
      }
    }
    if coarse.current == None || Bucket(c, t.ts) > coarse.current.value.openTs {
      RollNewCoarse(w, c, fine, coarse, t);
    } else if Bucket(c, t.ts) == coarse.current.value.openTs {
      RollSameCoarse(w, c, fine, coarse, t);
    }
  }

  /**
   Timeframe roll-up: when no tick is late for the finer timeframe alone, every candle of a
   timeframe `k` times as wide is the roll-up of the finer candles in its window.
   */
  lemma TimeframesRollUp(w: Width, k: int, ticks: seq<Tick>)
    requires k > 0 && k * w > 0 && SameAccepted(w, k * w, ticks)
    ensures RollsUp(k * w, Output(StreamAll(k * w, ticks)), Output(StreamAll(w, ticks)))
  {
    StreamsNest(w, k, ticks);
  }

  /** In time order no tick is late at all. */
  lemma OrderedSameAccepted(w: Width, c: Width, ticks: seq<Tick>)
    requires TimeOrdered(ticks)
    ensures SameAccepted(w, c, ticks)
  {
    hide Bucket;
    forall i | 0 <= i < |ticks| ensures IsAccepted(w, ticks, i) {
      forall j | 0 <= j < i ensures Bucket(w, ticks[j].ts) <= Bucket(w, ticks[i].ts) {
        BucketMonotone(w, ticks[j].ts, ticks[i].ts);
      }
    }
  }

  /** The three timeframes in use, each built from the same time-ordered ticks on its own. */
  lemma FiveAndFifteenRollUp(ticks: seq<Tick>)
    requires TimeOrdered(ticks)
    ensures RollsUp(300_000, Output(StreamAll(300_000, ticks)), Output(StreamAll(60_000, ticks)))
    ensures RollsUp(900_000, Output(StreamAll(900_000, ticks)), Output(StreamAll(60_000, ticks)))
    ensures RollsUp(900_000, Output(StreamAll(900_000, ticks)), Output(StreamAll(300_000, ticks)))
  {
    OrderedSameAccepted(60_000, 300_000, ticks);
    OrderedSameAccepted(60_000, 900_000, ticks);
    OrderedSameAccepted(300_000, 900_000, ticks);
    TimeframesRollUp(60_000, 5, ticks);
    TimeframesRollUp(60_000, 15, ticks);
    TimeframesRollUp(300_000, 3, ticks);
  }
}
