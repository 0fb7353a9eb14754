/**
 Replay: merging ordered sources into one stream, and the engine that rebuilds candles
 from the stream's index ticks and sweeps its aggregators at the end.
 */
module Replay {
  import opened Common
  import opened Candles
  import opened CandleEngine
  import opened CandleRuns

  /** The kinds in the order of their names: candle, index_tick, option_tick. */
  datatype Event =
    | CandleEvent(ts: int, seqNo: int, candleTf: Timeframe)
    | IndexEvent(ts: int, seqNo: int, index: string, ltp: real)
    | OptionEvent(ts: int, seqNo: int)

  datatype SortKey = SortKey(ts: int, seqNo: int, kind: int)

  function KeyOf(e: Event): SortKey {
    SortKey(e.ts, e.seqNo, if e.CandleEvent? then 0 else if e.IndexEvent? then 1 else 2)
  }

  predicate AtMost(a: SortKey, b: SortKey) {
    a.ts < b.ts || (a.ts == b.ts && (a.seqNo < b.seqNo || (a.seqNo == b.seqNo && a.kind <= b.kind)))
  }

  predicate Sorted(s: seq<Event>) {
    forall i, j :: 0 <= i < j < |s| ==> AtMost(KeyOf(s[i]), KeyOf(s[j]))
  }

  /** The name an event's kind is ordered by. */
  function KindName(e: Event): string {
    match e
    case CandleEvent(_, _, _) => "candle"
    case IndexEvent(_, _, _, _) => "index_tick"
    case OptionEvent(_, _) => "option_tick"
  }

  /** Strings in dictionary order. */
  predicate StringAtMost(a: string, b: string) {
    a == [] || (b != [] && (a[0] < b[0] || (a[0] == b[0] && StringAtMost(a[1..], b[1..]))))
  }

  /** Events are ordered by time, then sequence number, then the name of their kind. */
  lemma OrderIs(a: Event, b: Event)
    ensures AtMost(KeyOf(a), KeyOf(b)) <==>
              a.ts < b.ts || (a.ts == b.ts && (a.seqNo < b.seqNo
                || (a.seqNo == b.seqNo && StringAtMost(KindName(a), KindName(b)))))
  {
    KindsOrdered();
  }

  lemma {:induction false} StringReflexive(a: string)
    ensures StringAtMost(a, a)
  {
    if a == [] {
    } else {
      StringReflexive(a[1..]);
    }
  }

  lemma KindsOrdered()
    ensures StringAtMost("candle", "index_tick") && !StringAtMost("index_tick", "candle")
    ensures StringAtMost("index_tick", "option_tick") && !StringAtMost("option_tick", "index_tick")
    ensures StringAtMost("candle", "option_tick") && !StringAtMost("option_tick", "candle")
    ensures forall a: string :: StringAtMost(a, a)
  {
    assert "candle"[0] == 'c' && "index_tick"[0] == 'i' && "option_tick"[0] == 'o';
    forall a: string ensures StringAtMost(a, a) { StringReflexive(a); }
  }

  // ---- merging ----

  type Sources = seq<seq<Event>>

  function Concat(sources: Sources): seq<Event> {
    if sources == [] then [] else sources[0] + Concat(sources[1..])
  }

  /** The source whose head comes next: the least key, the earliest source on a tie. */
  predicate IsNext(sources: Sources, n: int) {
    && 0 <= n < |sources| && sources[n] != []
    && (forall i :: 0 <= i < |sources| && sources[i] != [] ==> AtMost(KeyOf(sources[n][0]), KeyOf(sources[i][0])))
    && (forall i :: 0 <= i < n && sources[i] != [] ==> KeyOf(sources[i][0]) != KeyOf(sources[n][0]))
  }

  function Next(sources: Sources): (n: Option<int>)
    ensures n.Some? ==> IsNext(sources, n.value)
    ensures n == None ==> forall i :: 0 <= i < |sources| ==> sources[i] == []
  {
    if sources == [] then None
    else
      var k := |sources| - 1;
      match Next(sources[..k])
      case None => if sources[k] == [] then None else Some(k)
      case Some(n) =>
        if sources[k] != [] && !AtMost(KeyOf(sources[n][0]), KeyOf(sources[k][0])) then Some(k) else Some(n)
  }

  function Advance(sources: Sources, n: int): Sources
    requires 0 <= n < |sources| && sources[n] != []
  {
    sources[n := sources[n][1..]]
  }

  lemma {:induction false} AdvanceShrinks(sources: Sources, n: int)
    requires 0 <= n < |sources| && sources[n] != []
    ensures |Concat(Advance(sources, n))| == |Concat(sources)| - 1
  {
    if n == 0 {
      assert Advance(sources, n)[1..] == sources[1..];
    } else {
      AdvanceShrinks(sources[1..], n - 1);
      assert Advance(sources, n)[1..] == Advance(sources[1..], n - 1);
    }
  }

  function Merge(sources: Sources): seq<Event>
    decreases |Concat(sources)|
  {
    match Next(sources)
    case None => []
    case Some(n) =>
      AdvanceShrinks(sources, n);
      [sources[n][0]] + Merge(Advance(sources, n))
  }

  /** The events of one key, in order. */
  function OfKey(s: seq<Event>, k: SortKey): seq<Event> {
    if s == [] then []
    else if KeyOf(s[0]) == k then [s[0]] + OfKey(s[1..], k)
    else OfKey(s[1..], k)
  }

  /** A stable sort of `s`: sorted, and events with equal keys keep their order. */
  ghost predicate StableSort(s: seq<Event>, t: seq<Event>) {
    Sorted(t) && forall k :: OfKey(t, k) == OfKey(s, k)
  }

  lemma {:induction false} OfKeyConcat(a: seq<Event>, b: seq<Event>, k: SortKey)
    ensures OfKey(a + b, k) == OfKey(a, k) + OfKey(b, k)
  {
    if a == [] {
      assert a + b == b;
    } else {
      assert (a + b)[1..] == a[1..] + b;
      OfKeyConcat(a[1..], b, k);
    }
  }

  lemma {:induction false} OfKeyEmpty(s: seq<Event>, k: SortKey)
    requires forall i :: 0 <= i < |s| ==> KeyOf(s[i]) != k
    ensures OfKey(s, k) == []
  {
    if s == [] {
    } else {
      OfKeyEmpty(s[1..], k);
    }
  }

  predicate AllSorted(sources: Sources) { forall i :: 0 <= i < |sources| ==> Sorted(sources[i]) }

  /** Taking the next head removes it from the front of its key's events and from no other key. */
  lemma {:induction false} AdvanceOfKey(sources: Sources, n: int, k: SortKey)
    requires AllSorted(sources) && 0 <= n < |sources| && sources[n] != []
    requires forall i :: 0 <= i < n && sources[i] != [] ==>
               AtMost(KeyOf(sources[n][0]), KeyOf(sources[i][0])) && KeyOf(sources[i][0]) != KeyOf(sources[n][0])
    ensures OfKey(Concat(sources), k)
            == if KeyOf(sources[n][0]) == k then [sources[n][0]] + OfKey(Concat(Advance(sources, n)), k)
               else OfKey(Concat(Advance(sources, n)), k)
  {
    var next, rest := Advance(sources, n), Concat(sources[1..]);
    OfKeyConcat(sources[0], rest, k);
    if n == 0 {
      assert next[1..] == sources[1..];
      OfKeyConcat(sources[0][1..], rest, k);
    } else {
      assert next[1..] == Advance(sources[1..], n - 1) && next[0] == sources[0];
      AdvanceOfKey(sources[1..], n - 1, k);
      OfKeyConcat(sources[0], Concat(next[1..]), k);
      if KeyOf(sources[n][0]) == k { LaterKeysOnly(sources[0], k); }
    }
  }

  lemma LaterKeysOnly(s: seq<Event>, k: SortKey)
    requires Sorted(s) && (s != [] ==> AtMost(k, KeyOf(s[0])) && KeyOf(s[0]) != k)
    ensures OfKey(s, k) == []
  {
    OfKeyEmpty(s, k);
  }

  lemma AdvanceSorted(sources: Sources, n: int)
    requires AllSorted(sources) && 0 <= n < |sources| && sources[n] != []
    ensures AllSorted(Advance(sources, n))
  {}

  /** The merge starts with the next head. */
  lemma {:induction false} MergeStartsAtNext(sources: Sources)
    requires AllSorted(sources)
    ensures Merge(sources) == [] <==> Next(sources) == None
    ensures Merge(sources) != [] ==> Merge(sources)[0] == sources[Next(sources).value][0]
  {}

  /** Merging sorted sources gives the stable sort of their concatenation. */
  lemma {:induction false} MergeIsStableSort(sources: Sources)
    requires AllSorted(sources)
    ensures StableSort(Concat(sources), Merge(sources))
    decreases |Concat(sources)|
  {
    match Next(sources) {
      case None => NothingLeft(sources);
      case Some(n) =>
        var rest := Advance(sources, n);
        AdvanceShrinks(sources, n);
        AdvanceSorted(sources, n);
        MergeIsStableSort(rest);
        MergeStep(sources, n);
    }
  }

  lemma MergeStep(sources: Sources, n: int)
    requires AllSorted(sources) && Next(sources) == Some(n)
    requires StableSort(Concat(Advance(sources, n)), Merge(Advance(sources, n)))
    ensures StableSort(Concat(sources), Merge(sources))
  {
    hide Concat;
    var head, rest := sources[n][0], Advance(sources, n);
    var tail := Merge(rest);
    assert Merge(sources) == [head] + tail;
    forall k ensures OfKey([head] + tail, k) == OfKey(Concat(sources), k) {
      AdvanceOfKey(sources, n, k);
      assert ([head] + tail)[1..] == tail;
    }
    HeadIsLeast(sources, n);
    SortedCons(head, tail);
  }

  /** The next head is at most whatever is merged after it. */
  lemma HeadIsLeast(sources: Sources, n: int)
    requires AllSorted(sources) && Next(sources) == Some(n)
    ensures var tail := Merge(Advance(sources, n));
      tail != [] ==> AtMost(KeyOf(sources[n][0]), KeyOf(tail[0]))
  {
    var rest := Advance(sources, n);
    AdvanceSorted(sources, n);
    MergeStartsAtNext(rest);
    hide Merge;
    if Merge(rest) != [] {
      var m := Next(rest).value;
      if m == n { assert AtMost(KeyOf(sources[n][0]), KeyOf(sources[n][1])); }
    }
  }

  lemma SortedCons(head: Event, tail: seq<Event>)
    requires Sorted(tail) && (tail != [] ==> AtMost(KeyOf(head), KeyOf(tail[0])))
    ensures Sorted([head] + tail)
  {
    var s := [head] + tail;
    forall i, j | 0 <= i < j < |s| ensures AtMost(KeyOf(s[i]), KeyOf(s[j])) {
      if i == 0 && j > 1 { assert AtMost(KeyOf(tail[0]), KeyOf(tail[j - 1])); }
    }
  }

  lemma {:induction false} NothingLeft(sources: Sources)
    requires Next(sources) == None
    ensures Concat(sources) == [] && Merge(sources) == []
  {
    AllEmpty(sources);
  }

  lemma {:induction false} AllEmpty(sources: Sources)
    requires forall i :: 0 <= i < |sources| ==> sources[i] == []
    ensures Concat(sources) == []
  {
    if sources == [] {
    } else {
      AllEmpty(sources[1..]);
    }
  }

  /** There is only one stable sort, so the merge is it. */
  lemma {:induction false} StableSortUnique(s: seq<Event>, a: seq<Event>, b: seq<Event>)
    requires StableSort(s, a) && StableSort(s, b)
    ensures a == b
    decreases |a|
  {
    forall k ensures OfKey(a, k) == OfKey(b, k) { assert OfKey(a, k) == OfKey(s, k); }
    SameKeysSame(a, b);
  }

  lemma {:induction false} OfKeyMembers(s: seq<Event>, k: SortKey)
    ensures OfKey(s, k) != [] ==> exists i :: 0 <= i < |s| && KeyOf(s[i]) == k
  {
    if s == [] || KeyOf(s[0]) == k {
    } else {
      OfKeyMembers(s[1..], k);
      if OfKey(s[1..], k) != [] {
        var i :| 0 <= i < |s[1..]| && KeyOf(s[1..][i]) == k;
        assert s[i + 1] == s[1..][i];
      }
    }
  }

  lemma HeadHasKey(s: seq<Event>)
    requires s != []
    ensures OfKey(s, KeyOf(s[0])) != []
  {}

  lemma {:induction false} SameKeysSame(a: seq<Event>, b: seq<Event>)
    requires Sorted(a) && Sorted(b) && forall k :: OfKey(a, k) == OfKey(b, k)
    ensures a == b
    decreases |a|
  {
    if a == [] {
      if b != [] { HeadHasKey(b); }
    } else {
      var ka := KeyOf(a[0]);
      assert OfKey(b, ka) == OfKey(a, ka) != [];
      OfKeyMembers(b, ka);
      var kb := KeyOf(b[0]);
      assert OfKey(a, kb) == OfKey(b, kb) != [];
      OfKeyMembers(a, kb);
      assert ka == kb;
      assert a[0] == OfKey(a, ka)[0] == b[0];
      forall k ensures OfKey(a[1..], k) == OfKey(b[1..], k) {
        assert OfKey(a, k) == OfKey(b, k);
        if k == ka { assert OfKey(a[1..], k) == OfKey(a, k)[1..] && OfKey(b[1..], k) == OfKey(b, k)[1..]; }
      }
      SameKeysSame(a[1..], b[1..]);
      assert a == [a[0]] + a[1..] && b == [b[0]] + b[1..];
    }
  }

  // ---- the engine ----

  datatype Counts = Counts(
    recordsRead: nat, ticksIndex: nat, ticksOption: nat,
    fromSource: nat, synthesized: nat, closedByTf: map<Timeframe, nat>)

  /** `built` lists the synthesized candles in the order they are dispatched. */
  datatype State = State(
    aggs: map<Key, Option<Bar>>, lastTs: Option<int>, counts: Counts,
    built: seq<(Key, Bar)>, aborted: bool)

  datatype Plan = Plan(indices: seq<string>, tfs: seq<Timeframe>, keys: seq<Key>) {
    /** One dictionary key per index and timeframe. */
    ghost predicate Valid() {
      && (forall i, j :: 0 <= i < j < |keys| ==> keys[i] != keys[j])
      && (forall i, j :: 0 <= i < j < |tfs| ==> tfs[i] != tfs[j])
      && (forall k :: k in keys <==> k.index in indices && k.tf in tfs)
    }
  }

  function Start(p: Plan): State { State(Fresh(p.keys), None, Counts(0, 0, 0, 0, 0, map[]), [], false) }

  function Dispatch(s: State, key: Key, closed: Option<Bar>): State {
    if closed == None then s
    else s.(built := s.built + [(key, closed.value)],
            counts := s.counts.(synthesized := s.counts.synthesized + 1,
                                closedByTf := Bump(s.counts.closedByTf, key.tf)))
  }

  function FeedKey(s: State, key: Key, t: Tick): State {
    if key !in s.aggs then s
    else
      var (cur, closed) := Ingest(WidthOf(key.tf), s.aggs[key], t);
      Dispatch(s.(aggs := s.aggs[key := cur]), key, closed)
  }

  function FeedFrames(s: State, index: string, tfs: seq<Timeframe>, t: Tick): State {
    if tfs == [] then s
    else FeedKey(FeedFrames(s, index, tfs[..|tfs| - 1], t), Key(index, tfs[|tfs| - 1]), t)
  }

  /** An index without aggregators is a lookup error, which ends the run. */
  function Handle(p: Plan, s: State, e: Event): State {
    if s.aborted then s
    else
      var read := s.(lastTs := Some(e.ts), counts := s.counts.(recordsRead := s.counts.recordsRead + 1));
      match e
      case OptionEvent(_, _) => read.(counts := read.counts.(ticksOption := read.counts.ticksOption + 1))
      case CandleEvent(_, _, tf) =>
        read.(counts := read.counts.(fromSource := read.counts.fromSource + 1,
                                     closedByTf := Bump(read.counts.closedByTf, tf)))
      case IndexEvent(ts, _, index, ltp) =>
        var counted := read.(counts := read.counts.(ticksIndex := read.counts.ticksIndex + 1));
        if index !in p.indices && p.tfs != [] then counted.(aborted := true)
        else FeedFrames(counted, index, p.tfs, Tick(ts, ltp))
  }

  function HandleAll(p: Plan, evs: seq<Event>): State {
    if evs == [] then Start(p) else Handle(p, HandleAll(p, evs[..|evs| - 1]), evs[|evs| - 1])
  }

  function CloseKey(s: State, key: Key, last: int): State {
    if key !in s.aggs then s
    else
      var w, cur := WidthOf(key.tf), s.aggs[key];
      if IsStale(w, cur, last + w) then Dispatch(s.(aggs := s.aggs[key := None]), key, cur) else s
  }

  function CloseKeys(s: State, keys: seq<Key>, last: int): State {
    if keys == [] then s else CloseKey(CloseKeys(s, keys[..|keys| - 1], last), keys[|keys| - 1], last)
  }

  /** The whole run: all events, then the final sweep. */
  function Replayed(p: Plan, evs: seq<Event>): State {
    var s := HandleAll(p, evs);
    if s.aborted || s.lastTs == None then s else CloseKeys(s, p.keys, s.lastTs.value)
  }

  // ---- what one key sees ----

  function BarsOf(built: seq<(Key, Bar)>, key: Key): seq<Bar> {
    if built == [] then []
    else
      var rest, last := BarsOf(built[..|built| - 1], key), built[|built| - 1];
      if last.0 == key then rest + [last.1] else rest
  }

  /** The key's aggregator and the candles built for it so far, as a stream. */
  function View(s: State, key: Key): Stream
    requires key in s.aggs
  {
    Stream(BarsOf(s.built, key), s.aggs[key])
  }

  function IndexTicks(evs: seq<Event>, index: string): seq<Tick> {
    if evs == [] then []
    else
      var rest, e := IndexTicks(evs[..|evs| - 1], index), evs[|evs| - 1];
      if e.IndexEvent? && e.index == index then rest + [Tick(e.ts, e.ltp)] else rest
  }

  lemma BarsOfSnoc(built: seq<(Key, Bar)>, key: Key, b: Bar, other: Key)
    ensures BarsOf(built + [(other, b)], key) == if other == key then BarsOf(built, key) + [b] else BarsOf(built, key)
  {
    assert (built + [(other, b)])[..|built|] == built;
  }

  lemma FeedView(s: State, key: Key, t: Tick, other: Key)
    requires key in s.aggs
    ensures key in FeedKey(s, other, t).aggs
    ensures View(FeedKey(s, other, t), key)
            == if other == key then StreamTick(WidthOf(key.tf), View(s, key), t) else View(s, key)
  {
    hide BarsOf, Bucket;
    if other in s.aggs {
      var (_, closed) := Ingest(WidthOf(other.tf), s.aggs[other], t);
      if closed.Some? { BarsOfSnoc(s.built, key, closed.value, other); }
    }
  }

  lemma {:induction false} FramesView(s: State, key: Key, index: string, tfs: seq<Timeframe>, t: Tick)
    requires key in s.aggs && forall i, j :: 0 <= i < j < |tfs| ==> tfs[i] != tfs[j]
    ensures key in FeedFrames(s, index, tfs, t).aggs
    ensures View(FeedFrames(s, index, tfs, t), key)
            == if index == key.index && key.tf in tfs then StreamTick(WidthOf(key.tf), View(s, key), t)
               else View(s, key)
  {
    hide FeedKey, View, StreamTick;
    if tfs == [] {
    } else {
      var n := |tfs| - 1;
      FramesView(s, key, index, tfs[..n], t);
      FeedView(FeedFrames(s, index, tfs[..n], t), key, t, Key(index, tfs[n]));
      assert key.tf in tfs <==> key.tf in tfs[..n] || key.tf == tfs[n];
      if key.tf == tfs[n] { assert key.tf !in tfs[..n]; }
    }
  }

  predicate Known(p: Plan, evs: seq<Event>) {
    forall i :: 0 <= i < |evs| && evs[i].IndexEvent? ==> evs[i].index in p.indices
  }

  predicate TsSorted(evs: seq<Event>) { forall i, j :: 0 <= i < j < |evs| ==> evs[i].ts <= evs[j].ts }

  /** Each key's aggregator and candles are the stream of its index's ticks. */
  lemma {:induction false} KeysFollowStreams(p: Plan, evs: seq<Event>, key: Key)
    requires p.Valid() && Known(p, evs) && key in p.keys
    ensures var s := HandleAll(p, evs);
      && !s.aborted && key in s.aggs && s.aggs.Keys == Fresh(p.keys).Keys
      && View(s, key) == StreamAll(WidthOf(key.tf), IndexTicks(evs, key.index))
      && s.lastTs == (if evs == [] then None else Some(evs[|evs| - 1].ts))
  {
    if evs == [] {
    } else {
      hide View, StreamTick, FeedFrames;
      var before, e := evs[..|evs| - 1], evs[|evs| - 1];
      KeysFollowStreams(p, before, key);
      HandleView(p, HandleAll(p, before), e, key);
      StreamSnoc(WidthOf(key.tf), IndexTicks(before, key.index), e);
    }
  }

  lemma StreamSnoc(w: Width, ticks: seq<Tick>, e: Event)
    ensures e.IndexEvent? ==>
              StreamAll(w, ticks + [Tick(e.ts, e.ltp)]) == StreamTick(w, StreamAll(w, ticks), Tick(e.ts, e.ltp))
  {
    if e.IndexEvent? {
      var t := Tick(e.ts, e.ltp);
      assert (ticks + [t])[..|ticks|] == ticks;
    }
  }

  lemma HandleView(p: Plan, s: State, e: Event, key: Key)
    requires p.Valid() && !s.aborted && key in p.keys && key in s.aggs && s.aggs.Keys == Fresh(p.keys).Keys
    requires e.IndexEvent? ==> e.index in p.indices
    ensures var t := Handle(p, s, e);
      && !t.aborted && key in t.aggs && t.aggs.Keys == s.aggs.Keys && t.lastTs == Some(e.ts)
      && View(t, key) == (if e.IndexEvent? && e.index == key.index
                          then StreamTick(WidthOf(key.tf), View(s, key), Tick(e.ts, e.ltp)) else View(s, key))
  {
    hide StreamTick, View, FeedFrames, Fresh, Bump;
    match e {
      case OptionEvent(_, _) => SameView(s, Handle(p, s, e), key);
      case CandleEvent(_, _, _) => SameView(s, Handle(p, s, e), key);
      case IndexEvent(ts, _, index, ltp) =>
        var counted := s.(lastTs := Some(ts), counts := s.counts.(recordsRead := s.counts.recordsRead + 1,
                                                                   ticksIndex := s.counts.ticksIndex + 1));
        FramesView(counted, key, index, p.tfs, Tick(ts, ltp));
        FramesKeep(counted, index, p.tfs, Tick(ts, ltp));
        SameView(s, counted, key);
    }
  }

  lemma SameView(s: State, t: State, key: Key)
    requires key in s.aggs && t.aggs == s.aggs && t.built == s.built
    ensures View(t, key) == View(s, key)
  {}

  lemma {:induction false} FramesKeep(s: State, index: string, tfs: seq<Timeframe>, t: Tick)
    ensures var u := FeedFrames(s, index, tfs, t);
      u.aggs.Keys == s.aggs.Keys && u.lastTs == s.lastTs && u.aborted == s.aborted
  {
    hide Ingest;
    if tfs == [] {
    } else {
      FramesKeep(s, index, tfs[..|tfs| - 1], t);
    }
  }

  // ---- the final sweep ----

  lemma CloseView(s: State, key: Key, other: Key, last: int)
    requires key in s.aggs
    ensures key in CloseKey(s, other, last).aggs && CloseKey(s, other, last).aggs.Keys == s.aggs.Keys
    ensures other != key ==> View(CloseKey(s, other, last), key) == View(s, key)
    ensures other == key ==> View(CloseKey(s, other, last), key) == AfterFinalSweep(View(s, key), last)
  {
    hide BarsOf;
    if other in s.aggs && s.aggs[other].Some? { BarsOfSnoc(s.built, key, s.aggs[other].value, other); }
  }

  /** A stream whose open bar is closed unless it starts after `last`. */
  function AfterFinalSweep(full: Stream, last: int): Stream {
    if full.current.Some? && full.current.value.openTs > last then full else Stream(Output(full), None)
  }

  lemma {:induction false} CloseKeysView(s: State, keys: seq<Key>, key: Key, last: int)
    requires key in s.aggs && forall i, j :: 0 <= i < j < |keys| ==> keys[i] != keys[j]
    ensures key in CloseKeys(s, keys, last).aggs && CloseKeys(s, keys, last).aggs.Keys == s.aggs.Keys
    ensures View(CloseKeys(s, keys, last), key)
            == if key in keys then AfterFinalSweep(View(s, key), last) else View(s, key)
  {
    hide CloseKey, View, AfterFinalSweep;
    if keys == [] {
    } else {
      var n := |keys| - 1;
      CloseKeysView(s, keys[..n], key, last);
      CloseView(CloseKeys(s, keys[..n], last), key, keys[n], last);
      assert key in keys <==> key in keys[..n] || key == keys[n];
      if key == keys[n] { assert key !in keys[..n]; }
    }
  }

  lemma {:induction false} TicksBelow(evs: seq<Event>, index: string, last: int)
    requires forall i :: 0 <= i < |evs| ==> evs[i].ts <= last
    ensures forall i :: 0 <= i < |IndexTicks(evs, index)| ==> IndexTicks(evs, index)[i].ts <= last
  {
    if evs == [] {
    } else {
      TicksBelow(evs[..|evs| - 1], index, last);
    }
  }

  lemma BucketBelow(w: Width, ts: int)
    ensures Bucket(w, ts) <= ts
  {}

  /** Some tick of the index lies in a bucket that starts after `last`. */
  predicate AheadOf(w: Width, ticks: seq<Tick>, last: int) {
    exists j :: 0 <= j < |ticks| && Bucket(w, ticks[j].ts) > last
  }

  /** The current bucket is the highest of all, so it starts after `last` exactly when some tick's does. */
  lemma CurrentAhead(w: Width, ticks: seq<Tick>, last: int)
    ensures var cur := StreamAll(w, ticks).current;
      cur.Some? && cur.value.openTs > last <==> AheadOf(w, ticks, last)
  {
    hide Bucket, StreamAll;
    StreamStaysAtTop(w, ticks);
  }

  /**
   A replay of any stream, in any order of times: the candles built for a key and the bar
   still open, if any, are exactly the candles of its index's accepted ticks, and a bar is
   still open exactly when some tick's bucket starts after the last event.
   */
  lemma ReplayBuildsAccepted(p: Plan, evs: seq<Event>, key: Key)
    requires p.Valid() && Known(p, evs) && key in p.keys
    ensures var w, ticks := WidthOf(key.tf), IndexTicks(evs, key.index);
      var s := Replayed(p, evs);
      && key in s.aggs
      && CandlesOf(w, Push(BarsOf(s.built, key), s.aggs[key]), Accepted(w, ticks))
      && CountSum(Push(BarsOf(s.built, key), s.aggs[key])) == |Accepted(w, ticks)|
      && (s.aggs[key].Some? <==> evs != [] && AheadOf(w, ticks, evs[|evs| - 1].ts))
  {
    var w: Width, ticks := WidthOf(key.tf), IndexTicks(evs, key.index);
    hide CandlesOf, CountSum, BarsOf, Accepted, AheadOf;
    KeysFollowStreams(p, evs, key);
    StreamingIsBatch(w, ticks);
    var s, t := HandleAll(p, evs), Replayed(p, evs);
    if evs != [] {
      CurrentAhead(w, ticks, evs[|evs| - 1].ts);
      CloseKeysView(s, p.keys, key, s.lastTs.value);
      assert View(t, key) == AfterFinalSweep(StreamAll(w, ticks), evs[|evs| - 1].ts);
    }
    assert Output(View(t, key)) == Output(StreamAll(w, ticks));
  }

  /** In a time-ordered stream no tick is ahead of the last event. */
  lemma NoneAhead(evs: seq<Event>, w: Width, index: string)
    requires evs != [] && TsSorted(evs)
    ensures !AheadOf(w, IndexTicks(evs, index), evs[|evs| - 1].ts)
  {
    hide Bucket, IndexTicks;
    var ticks := IndexTicks(evs, index);
    TicksBelow(evs, index, evs[|evs| - 1].ts);
    forall j | 0 <= j < |ticks| ensures Bucket(w, ticks[j].ts) <= evs[|evs| - 1].ts { BucketBelow(w, ticks[j].ts); }
  }

  /**
   After a replay of a time-ordered stream no aggregator is open, and the candles built
   for each key are exactly the candles of its index's ticks: none lost, none double.
   */
  lemma ReplayBuildsAll(p: Plan, evs: seq<Event>, key: Key)
    requires p.Valid() && Known(p, evs) && TsSorted(evs) && key in p.keys
    ensures var s := Replayed(p, evs);
      && key in s.aggs && s.aggs[key] == None
      && CandlesOf(WidthOf(key.tf), BarsOf(s.built, key), IndexTicks(evs, key.index))
      && CountSum(BarsOf(s.built, key)) == |IndexTicks(evs, key.index)|
  {
    hide CandlesOf, CountSum, BarsOf, Accepted, TsSorted, AheadOf, Replayed;
    ReplayBuildsAccepted(p, evs, key);
    if evs != [] { NoneAhead(evs, WidthOf(key.tf), key.index); }
    TicksOrdered(evs, key.index);
    OrderedAllAccepted(WidthOf(key.tf), IndexTicks(evs, key.index));
  }

  lemma {:induction false} TicksOrdered(evs: seq<Event>, index: string)
    requires TsSorted(evs)
    ensures TimeOrdered(IndexTicks(evs, index))
  {
    if evs == [] {
    } else {
      var n := |evs| - 1;
      TicksOrdered(evs[..n], index);
      TicksBelow(evs[..n], index, evs[n].ts);
    }
  }

  // ---- the counters ----

  /** Closes by timeframe add up to the candles read and built, and so does the built list. */
  ghost predicate Balanced(s: State) {
    && Total(s.counts.closedByTf, AsReal) == (s.counts.fromSource + s.counts.synthesized) as real
    && s.counts.synthesized == |s.built|
  }

  lemma DispatchBalanced(s: State, key: Key, closed: Option<Bar>)
    requires Balanced(s)
    ensures Balanced(Dispatch(s, key, closed))
  {
    BumpTotal(s.counts.closedByTf, key.tf);
    hide Bump;
  }

  lemma {:induction false} FeedFramesBalanced(s: State, index: string, tfs: seq<Timeframe>, t: Tick)
    requires Balanced(s)
    ensures Balanced(FeedFrames(s, index, tfs, t))
  {
    hide Ingest, Dispatch;
    if tfs == [] {
    } else {
      var before, key := FeedFrames(s, index, tfs[..|tfs| - 1], t), Key(index, tfs[|tfs| - 1]);
      FeedFramesBalanced(s, index, tfs[..|tfs| - 1], t);
      if key in before.aggs {
        var (cur, closed) := Ingest(WidthOf(key.tf), before.aggs[key], t);
        DispatchBalanced(before.(aggs := before.aggs[key := cur]), key, closed);
      }
    }
  }

  lemma {:induction false} CloseKeysBalanced(s: State, keys: seq<Key>, last: int)
    requires Balanced(s)
    ensures Balanced(CloseKeys(s, keys, last))
  {
    hide Dispatch;
    if keys == [] {
    } else {
      var before, key := CloseKeys(s, keys[..|keys| - 1], last), keys[|keys| - 1];
      CloseKeysBalanced(s, keys[..|keys| - 1], last);
      if key in before.aggs { DispatchBalanced(before.(aggs := before.aggs[key := None]), key, before.aggs[key]); }
    }
  }

  lemma HandleBalanced(p: Plan, s: State, e: Event)
    requires Balanced(s)
    ensures Balanced(Handle(p, s, e))
  {
    hide Bump, FeedFrames;
    if !s.aborted {
      if e.CandleEvent? { BumpTotal(s.counts.closedByTf, e.candleTf); }
      if e.IndexEvent? {
        var counted := s.(lastTs := Some(e.ts), counts := s.counts.(recordsRead := s.counts.recordsRead + 1,
                                                                     ticksIndex := s.counts.ticksIndex + 1));
        FeedFramesBalanced(counted, e.index, p.tfs, Tick(e.ts, e.ltp));
      }
    }
  }

  lemma {:induction false} HandleAllBalanced(p: Plan, evs: seq<Event>)
    ensures Balanced(HandleAll(p, evs))
  {
    hide Handle;
    if evs == [] {
    } else {
      HandleAllBalanced(p, evs[..|evs| - 1]);
      HandleBalanced(p, HandleAll(p, evs[..|evs| - 1]), evs[|evs| - 1]);
    }
  }

  /** For every run, complete or aborted, the close counts add up. */
  lemma CountsBalance(p: Plan, evs: seq<Event>)
    ensures Balanced(Replayed(p, evs))
  {
    hide Balanced;
    HandleAllBalanced(p, evs);
    var s := HandleAll(p, evs);
    if s.lastTs.Some? { CloseKeysBalanced(s, p.keys, s.lastTs.value); }
  }

  function CountIndex(evs: seq<Event>): nat {
    if evs == [] then 0 else CountIndex(evs[..|evs| - 1]) + (if evs[|evs| - 1].IndexEvent? then 1 else 0)
  }

  function CountOption(evs: seq<Event>): nat {
    if evs == [] then 0 else CountOption(evs[..|evs| - 1]) + (if evs[|evs| - 1].OptionEvent? then 1 else 0)
  }

  function CountCandles(evs: seq<Event>): nat {
    if evs == [] then 0 else CountCandles(evs[..|evs| - 1]) + (if evs[|evs| - 1].CandleEvent? then 1 else 0)
  }

  /** The events handled: all of them, or those up to the first of an unknown index. */
  function Handled(p: Plan, evs: seq<Event>): seq<Event> {
    if evs == [] then []
    else
      var before := evs[..|evs| - 1];
      if Known(p, before) || p.tfs == [] then evs else Handled(p, before)
  }

  predicate CountsMatch(s: State, evs: seq<Event>) {
    && s.counts.recordsRead == |evs| && s.counts.ticksIndex == CountIndex(evs)
    && s.counts.ticksOption == CountOption(evs) && s.counts.fromSource == CountCandles(evs)
  }

  /**
   Each event is counted once, under its kind, up to and including the first tick of an
   index without aggregators; a run aborts exactly when there is one.
   */
  lemma {:induction false} EventsCounted(p: Plan, evs: seq<Event>)
    ensures CountsMatch(HandleAll(p, evs), Handled(p, evs))
    ensures HandleAll(p, evs).aborted <==> p.tfs != [] && !Known(p, evs)
  {
    if evs == [] {
    } else {
      var n := |evs| - 1;
      var before, e := evs[..n], evs[n];
      EventsCounted(p, before);
      KnownSnoc(p, before, e);
      assert evs == before + [e];
      if Known(p, before) || p.tfs == [] {
        HandledSame(p, before);
        HandleCounts(p, HandleAll(p, before), e);
        CountsSnoc(before, e);
        hide Handle;
      }
    }
  }

  lemma KnownSnoc(p: Plan, before: seq<Event>, e: Event)
    ensures Known(p, before + [e]) <==> Known(p, before) && (e.IndexEvent? ==> e.index in p.indices)
  {
    var all := before + [e];
    assert all[|before|] == e && forall i :: 0 <= i < |before| ==> all[i] == before[i];
  }

  lemma {:induction false} HandledSame(p: Plan, evs: seq<Event>)
    requires Known(p, evs) || p.tfs == []
    ensures Handled(p, evs) == evs
  {
    if evs != [] {
      var before := evs[..|evs| - 1];
      assert evs == before + [evs[|evs| - 1]];
      KnownSnoc(p, before, evs[|evs| - 1]);
    }
  }

  lemma CountsSnoc(before: seq<Event>, e: Event)
    ensures CountIndex(before + [e]) == CountIndex(before) + (if e.IndexEvent? then 1 else 0)
    ensures CountOption(before + [e]) == CountOption(before) + (if e.OptionEvent? then 1 else 0)
    ensures CountCandles(before + [e]) == CountCandles(before) + (if e.CandleEvent? then 1 else 0)
  {
    assert (before + [e])[..|before|] == before;
  }

  /** What one event does to the counters of a run that has not aborted. */
  lemma HandleCounts(p: Plan, s: State, e: Event)
    requires !s.aborted
    ensures var t := Handle(p, s, e);
      && t.counts.recordsRead == s.counts.recordsRead + 1
      && t.counts.ticksIndex == s.counts.ticksIndex + (if e.IndexEvent? then 1 else 0)
      && t.counts.ticksOption == s.counts.ticksOption + (if e.OptionEvent? then 1 else 0)
      && t.counts.fromSource == s.counts.fromSource + (if e.CandleEvent? then 1 else 0)
      && (t.aborted <==> e.IndexEvent? && e.index !in p.indices && p.tfs != [])
  {
    hide Bump;
    if e.IndexEvent? && (e.index in p.indices || p.tfs == []) {
      var counted := s.(lastTs := Some(e.ts), counts := s.counts.(recordsRead := s.counts.recordsRead + 1,
                                                                   ticksIndex := s.counts.ticksIndex + 1));
      FramesKeep(counted, e.index, p.tfs, Tick(e.ts, e.ltp));
      FramesKeepCounts(counted, e.index, p.tfs, Tick(e.ts, e.ltp));
    }
    hide FeedFrames;
  }

  lemma {:induction false} FramesKeepCounts(s: State, index: string, tfs: seq<Timeframe>, t: Tick)
    ensures var u := FeedFrames(s, index, tfs, t);
      && u.counts.recordsRead == s.counts.recordsRead && u.counts.ticksIndex == s.counts.ticksIndex
      && u.counts.ticksOption == s.counts.ticksOption && u.counts.fromSource == s.counts.fromSource
  {
    hide Ingest, Bump;
    if tfs == [] {
    } else {
      FramesKeepCounts(s, index, tfs[..|tfs| - 1], t);
    }
  }

  // ---- closes, timeframe by timeframe ----

  function BuiltCount(built: seq<(Key, Bar)>, tf: Timeframe): nat {
    if built == [] then 0
    else BuiltCount(built[..|built| - 1], tf) + (if built[|built| - 1].0.tf == tf then 1 else 0)
  }

  function SourceCount(evs: seq<Event>, tf: Timeframe): nat {
    if evs == [] then 0
    else
      var e := evs[|evs| - 1];
      SourceCount(evs[..|evs| - 1], tf) + (if e.CandleEvent? && e.candleTf == tf then 1 else 0)
  }

  function ClosedOf(s: State, tf: Timeframe): nat {
    if tf in s.counts.closedByTf then s.counts.closedByTf[tf] else 0
  }

  /** The closes counted for a timeframe, less the candles built for it. */
  function FromElsewhere(s: State, tf: Timeframe): int { ClosedOf(s, tf) - BuiltCount(s.built, tf) }

  lemma DispatchCounts(s: State, key: Key, closed: Option<Bar>, tf: Timeframe)
    ensures FromElsewhere(Dispatch(s, key, closed), tf) == FromElsewhere(s, tf)
  {
    if closed.Some? { assert (s.built + [(key, closed.value)])[..|s.built|] == s.built; }
  }

  lemma {:induction false} FramesCount(s: State, index: string, tfs: seq<Timeframe>, t: Tick, tf: Timeframe)
    ensures FromElsewhere(FeedFrames(s, index, tfs, t), tf) == FromElsewhere(s, tf)
  {
    if tfs == [] {
    } else {
      hide Ingest, Dispatch, BuiltCount;
      var before, key := FeedFrames(s, index, tfs[..|tfs| - 1], t), Key(index, tfs[|tfs| - 1]);
      FramesCount(s, index, tfs[..|tfs| - 1], t, tf);
      if key in before.aggs {
        var (cur, closed) := Ingest(WidthOf(key.tf), before.aggs[key], t);
        DispatchCounts(before.(aggs := before.aggs[key := cur]), key, closed, tf);
      }
    }
  }

  lemma {:induction false} CloseKeysCount(s: State, keys: seq<Key>, last: int, tf: Timeframe)
    ensures FromElsewhere(CloseKeys(s, keys, last), tf) == FromElsewhere(s, tf)
  {
    if keys == [] {
    } else {
      hide Dispatch, BuiltCount;
      var before, key := CloseKeys(s, keys[..|keys| - 1], last), keys[|keys| - 1];
      CloseKeysCount(s, keys[..|keys| - 1], last, tf);
      if key in before.aggs {
        DispatchCounts(before.(aggs := before.aggs[key := None]), key, before.aggs[key], tf);
      }
    }
  }

  lemma {:induction false} HandledClosed(p: Plan, evs: seq<Event>, tf: Timeframe)
    ensures FromElsewhere(HandleAll(p, evs), tf) == SourceCount(Handled(p, evs), tf)
  {
    if evs == [] {
    } else {
      var before, e := evs[..|evs| - 1], evs[|evs| - 1];
      HandledClosed(p, before, tf);
      EventsCounted(p, before);
      if Known(p, before) || p.tfs == [] {
        HandledSame(p, before);
        HandleClosed(p, HandleAll(p, before), e, tf);
      }
      hide Handle, FromElsewhere;
    }
  }

  lemma HandleClosed(p: Plan, s: State, e: Event, tf: Timeframe)
    requires !s.aborted
    ensures FromElsewhere(Handle(p, s, e), tf)
         == FromElsewhere(s, tf) + (if e.CandleEvent? && e.candleTf == tf then 1 else 0)
  {
    hide BuiltCount, FeedFrames;
    if e.IndexEvent? {
      var counted := s.(lastTs := Some(e.ts), counts := s.counts.(recordsRead := s.counts.recordsRead + 1,
                                                                   ticksIndex := s.counts.ticksIndex + 1));
      FramesCount(counted, e.index, p.tfs, Tick(e.ts, e.ltp), tf);
    }
  }

  /** For every run the closes counted for a timeframe are its built candles and those read from the source. */
  lemma ClosesByTimeframe(p: Plan, evs: seq<Event>, tf: Timeframe)
    ensures var s := Replayed(p, evs);
      ClosedOf(s, tf) == BuiltCount(s.built, tf) + SourceCount(Handled(p, evs), tf)
  {
    HandledClosed(p, evs, tf);
    var s := HandleAll(p, evs);
    if s.lastTs.Some? { CloseKeysCount(s, p.keys, s.lastTs.value, tf); }
    hide CloseKeys, BuiltCount, HandleAll;
  }

  /** Merging sorted sources yields a stream on which all of this holds. */
  lemma MergedIsTimeOrdered(sources: Sources)
    requires AllSorted(sources)
    ensures TsSorted(Merge(sources))
  {
    MergeIsStableSort(sources);
    var m := Merge(sources);
    hide Merge;
    forall i, j | 0 <= i < j < |m| ensures m[i].ts <= m[j].ts { assert AtMost(KeyOf(m[i]), KeyOf(m[j])); }
  }

  // ---- the running engine ----

  class ReplayEngine {
    const plan: Plan
    var aggs: map<Key, Option<Bar>>
    var lastTs: Option<int>
    var counts: Counts
    ghost var built: seq<(Key, Bar)>
    var aborted: bool

    ghost function Abstract(): State
      reads this
    {
      State(aggs, lastTs, counts, built, aborted)
    }

    constructor (plan: Plan)
      ensures this.plan == plan && Abstract() == Start(plan)
    {
      this.plan := plan;
      aggs, lastTs, counts, built, aborted := Fresh(plan.keys), None, Counts(0, 0, 0, 0, 0, map[]), [], false;
    }

    method DispatchBuilt(key: Key, candle: Bar)
      modifies this
      ensures Abstract() == Dispatch(old(Abstract()), key, Some(candle))
    {
      counts := counts.(synthesized := counts.synthesized + 1, closedByTf := Bump(counts.closedByTf, key.tf));
      built := built + [(key, candle)];
    }

    method OnIndexTick(index: string, t: Tick)
      modifies this
      ensures Abstract() == FeedFrames(old(Abstract()), index, plan.tfs, t)
    {
      hide Ingest;
      for i := 0 to |plan.tfs|
        invariant Abstract() == FeedFrames(old(Abstract()), index, plan.tfs[..i], t)
      {
        var key := Key(index, plan.tfs[i]);
        assert plan.tfs[..i + 1][..i] == plan.tfs[..i];
        if key in aggs {
          var (cur, closed) := Ingest(WidthOf(key.tf), aggs[key], t);
          aggs := aggs[key := cur];
          if closed.Some? { DispatchBuilt(key, closed.value); }
        }
      }
      assert plan.tfs[..|plan.tfs|] == plan.tfs;
    }

    /** Handle every event, then sweep the aggregators that are still open. */
    method Run(evs: seq<Event>)
      requires Abstract() == Start(plan)
      modifies this
      ensures Abstract() == Replayed(plan, evs)
    {
      hide FeedFrames;
      for i := 0 to |evs|
        invariant Abstract() == HandleAll(plan, evs[..i])
      {
        assert evs[..i + 1][..i] == evs[..i];
        HandleOne(evs[i]);
      }
      assert evs[..|evs|] == evs;
      if !aborted && lastTs.Some? { FinalSweep(lastTs.value); }
    }

    method HandleOne(e: Event)
      modifies this
      ensures Abstract() == Handle(plan, old(Abstract()), e)
    {
      hide FeedFrames;
      if aborted { return; }
      counts := counts.(recordsRead := counts.recordsRead + 1);
      lastTs := Some(e.ts);
      match e {
        case OptionEvent(_, _) => counts := counts.(ticksOption := counts.ticksOption + 1);
        case CandleEvent(_, _, tf) =>
          counts := counts.(fromSource := counts.fromSource + 1, closedByTf := Bump(counts.closedByTf, tf));
        case IndexEvent(ts, _, index, ltp) =>
          counts := counts.(ticksIndex := counts.ticksIndex + 1);
          if index !in plan.indices && plan.tfs != [] {
            aborted := true;
          } else {
            OnIndexTick(index, Tick(ts, ltp));
          }
      }
    }

    method FinalSweep(last: int)
      modifies this
      ensures Abstract() == CloseKeys(old(Abstract()), plan.keys, last)
    {
      for i := 0 to |plan.keys|
        invariant Abstract() == CloseKeys(old(Abstract()), plan.keys[..i], last)
      {
        var key := plan.keys[i];
        assert plan.keys[..i + 1][..i] == plan.keys[..i];
        if key in aggs && IsStale(WidthOf(key.tf), aggs[key], last + WidthOf(key.tf)) {
          var closed := aggs[key].value;
          aggs := aggs[key := None];
          DispatchBuilt(key, closed);
        }
      }
      assert plan.keys[..|plan.keys|] == plan.keys;
    }
  }
}
