/**
 When candles of a wider timeframe are the roll-up of those of a narrower one: exactly
 when no tick is late for the narrower timeframe alone.
 */
module CandleNesting {
  import opened Common
  import opened Candles

  // ---- a tick accepted at the fine width is accepted at the coarse one ----

  lemma FineIsCoarse(w: Width, k: int, ticks: seq<Tick>, i: int)
    requires k > 0 && k * w > 0 && 0 <= i < |ticks| && IsAccepted(w, ticks, i)
    ensures IsAccepted(k * w, ticks, i)
  {
    forall j | 0 <= j < i ensures Bucket(k * w, ticks[j].ts) <= Bucket(k * w, ticks[i].ts) {
      BucketNest(w, k, ticks[j].ts);
      BucketNest(w, k, ticks[i].ts);
      BucketMonotone(k * w, Bucket(w, ticks[j].ts), Bucket(w, ticks[i].ts));
    }
  }

  /** Fewer ticks are accepted at the fine width, and as many only when they are the same. */
  lemma {:induction false} AcceptedCounts(w: Width, k: int, ticks: seq<Tick>)
    requires k > 0 && k * w > 0
    ensures |Accepted(w, ticks)| <= |Accepted(k * w, ticks)|
    ensures |Accepted(w, ticks)| == |Accepted(k * w, ticks)| ==> SameAccepted(w, k * w, ticks)
    ensures forall t :: t in Accepted(w, ticks) ==> t in Accepted(k * w, ticks)
  {
    var c: Width := k * w;
    hide IsAccepted;
    if ticks == [] {
    } else {
      var n := |ticks| - 1;
      var before, t := ticks[..n], ticks[n];
      assert ticks == before + [t];
      AcceptedCounts(w, k, before);
      if IsAccepted(w, ticks, n) { FineIsCoarse(w, k, ticks, n); }
      if |Accepted(w, ticks)| == |Accepted(c, ticks)| {
        forall i | 0 <= i < |ticks| && IsAccepted(c, ticks, i) ensures IsAccepted(w, ticks, i) {
          if i < n {
            AcceptedPrefix(w, before, t, i);
            AcceptedPrefix(c, before, t, i);
          }
        }
      }
    }
  }

  // ---- counting by windows ----

  /** The ticks counted in the windows of these coarse bars. */
  function WindowSum(c: Width, coarse: seq<Bar>, fine: seq<Bar>): int {
    if coarse == [] then 0
    else WindowSum(c, coarse[..|coarse| - 1], fine) + CountSum(InWindow(c, fine, coarse[|coarse| - 1].openTs))
  }

  lemma {:induction false} WindowSumSnoc(c: Width, coarse: seq<Bar>, fine: seq<Bar>, b: Bar)
    requires Increasing(coarse)
    ensures WindowSum(c, coarse, fine + [b])
         == WindowSum(c, coarse, fine) + (if Covers(coarse, Bucket(c, b.openTs)) then b.count else 0)
  {
    hide Bucket;
    if coarse == [] {
    } else {
      var n := |coarse| - 1;
      var rest, start := coarse[..n], Bucket(c, b.openTs);
      WindowSumSnoc(c, rest, fine, b);
      InWindowSnoc(c, fine, b, coarse[n].openTs);
      var window := InWindow(c, fine, coarse[n].openTs);
      assert (window + [b])[..|window|] == window;
      if coarse[n].openTs == start {
        assert !Covers(rest, start);
      } else if Covers(coarse, start) {
        var i :| 0 <= i < |coarse| && coarse[i].openTs == start;
        assert rest[i].openTs == start;
      }
    }
  }

  /** Windows that cover every fine bar count every tick once. */
  lemma {:induction false} WindowsCountAll(c: Width, coarse: seq<Bar>, fine: seq<Bar>)
    requires Increasing(coarse) && forall i :: 0 <= i < |fine| ==> Covers(coarse, Bucket(c, fine[i].openTs))
    ensures WindowSum(c, coarse, fine) == CountSum(fine)
  {
    hide Bucket, Covers;
    if fine == [] {
      NoWindows(c, coarse);
    } else {
      var n := |fine| - 1;
      WindowsCountAll(c, coarse, fine[..n]);
      WindowSumSnoc(c, coarse, fine[..n], fine[n]);
      assert fine == fine[..n] + [fine[n]];
    }
  }

  lemma {:induction false} NoWindows(c: Width, coarse: seq<Bar>)
    ensures WindowSum(c, coarse, []) == 0
  {
    if coarse == [] {
    } else {
      NoWindows(c, coarse[..|coarse| - 1]);
    }
  }

  /** Roll-ups carry the counts of their windows. */
  lemma {:induction false} RollupCounts(c: Width, coarse: seq<Bar>, fine: seq<Bar>)
    requires RollsUp(c, coarse, fine)
    ensures CountSum(coarse) == WindowSum(c, coarse, fine)
  {
    if coarse == [] {
    } else {
      var n := |coarse| - 1;
      assert IsRollup(c, coarse[n], fine);
      forall i | 0 <= i < n ensures IsRollup(c, coarse[..n][i], fine) { assert IsRollup(c, coarse[i], fine); }
      hide IsRollup;
      RollupCounts(c, coarse[..n], fine);
    }
  }

  // ---- every fine candle lies in the window of a coarse one ----

  lemma {:induction false} SomeInBucket(w: Width, ticks: seq<Tick>, start: int) returns (j: nat)
    requires InBucket(w, ticks, start) != []
    ensures j < |ticks| && Bucket(w, ticks[j].ts) == start
  {
    hide Bucket;
    var n := |ticks| - 1;
    if Bucket(w, ticks[n].ts) == start {
      j := n;
    } else {
      j := SomeInBucket(w, ticks[..n], start);
    }
  }

  lemma FineCovered(w: Width, k: int, ticks: seq<Tick>, i: int)
    requires k > 0 && k * w > 0 && 0 <= i < |Output(StreamAll(w, ticks))|
    ensures Covers(Output(StreamAll(k * w, ticks)), Bucket(k * w, Output(StreamAll(w, ticks))[i].openTs))
  {
    var c: Width := k * w;
    hide Bucket, InBucket, CandleOf, Covers, StreamAll, Accepted;
    StreamingIsBatch(w, ticks);
    StreamingIsBatch(c, ticks);
    AcceptedCounts(w, k, ticks);
    var bar := Output(StreamAll(w, ticks))[i];
    assert IsCandle(w, bar, Accepted(w, ticks));
    var j := SomeInBucket(w, Accepted(w, ticks), bar.openTs);
    var t := Accepted(w, ticks)[j];
    assert t in Accepted(c, ticks);
    BucketNest(w, k, t.ts);
  }

  /**
   On any ticks at all, the candles of a timeframe `k` times as wide are the roll-ups of the
   finer ones exactly when every tick accepted by the wider aggregator is accepted by the
   finer one. The rest are ticks that fall back into an earlier fine bucket but not into an
   earlier coarse one.
   */
  lemma RollUpIff(w: Width, k: int, ticks: seq<Tick>)
    requires k > 0 && k * w > 0
    ensures RollsUp(k * w, Output(StreamAll(k * w, ticks)), Output(StreamAll(w, ticks)))
            <==> SameAccepted(w, k * w, ticks)
  {
    var c: Width := k * w;
    var fine, coarse := Output(StreamAll(w, ticks)), Output(StreamAll(c, ticks));
    if SameAccepted(w, c, ticks) {
      TimeframesRollUp(w, k, ticks);
    } else if RollsUp(c, coarse, fine) {
      RollUpMeansSame(w, k, ticks);
    }
  }

  lemma RollUpMeansSame(w: Width, k: int, ticks: seq<Tick>)
    requires k > 0 && k * w > 0 && RollsUp(k * w, Output(StreamAll(k * w, ticks)), Output(StreamAll(w, ticks)))
    ensures SameAccepted(w, k * w, ticks)
  {
    var c: Width := k * w;
    hide StreamAll, RollsUp, IsCandle, Covers, Bucket, Accepted, SameAccepted, InBucket;
    var fine, coarse := Output(StreamAll(w, ticks)), Output(StreamAll(c, ticks));
    StreamingIsBatch(w, ticks);
    StreamingIsBatch(c, ticks);
    AcceptedCounts(w, k, ticks);
    RollupCounts(c, coarse, fine);
    forall i | 0 <= i < |fine| ensures Covers(coarse, Bucket(c, fine[i].openTs)) { FineCovered(w, k, ticks, i); }
    WindowsCountAll(c, coarse, fine);
  }

  /** A tick one minute back in the same five minutes: the 5m candle counts it, the 1m candles do not. */
  lemma BackwardsTickBreaksRollUp()
    ensures var ticks := [Tick(60_000, 10.0), Tick(0, 11.0)];
      !RollsUp(300_000, Output(StreamAll(300_000, ticks)), Output(StreamAll(60_000, ticks)))
  {
    var ticks := [Tick(60_000, 10.0), Tick(0, 11.0)];
    hide RollsUp;
    assert !IsAccepted(60_000, ticks, 1) by { assert Bucket(60_000, ticks[0].ts) == 60_000; }
    assert IsAccepted(300_000, ticks, 1);
    RollUpIff(60_000, 5, ticks);
  }
}
