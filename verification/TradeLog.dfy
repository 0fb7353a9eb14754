/**
 The append-only trade log, the pairing of entries with exits that its readers do, and
 the startup reconciliation that closes whatever a crash left open.
 */
module TradeLog {
  import opened Common
  import opened ExitRules

  datatype Key = Key(index: string, strike: int, side: OptionType)

  datatype Event =
    | Entry(key: Key, ts: int, lots: int, qty: int, entryLtp: real, target: real, stop: real)
    | Exit(key: Key, ts: int, entryLtp: real, exitLtp: real, pnl: real, heldMs: int, reconciled: bool)
    | EntryRejected(key: Key, ts: int)

  type Log = seq<Event>

  /** The unmatched entry under each key: later entries replace, exits remove. */
  function OpenMap(log: Log): map<Key, Event> {
    if log == [] then map[]
    else
      var m, e := OpenMap(log[..|log| - 1]), log[|log| - 1];
      match e
      case Entry(_, _, _, _, _, _, _) => m[e.key := e]
      case Exit(_, _, _, _, _, _, _) => m - {e.key}
      case EntryRejected(_, _) => m
  }

  lemma OpenMapSnoc(log: Log, e: Event)
    ensures OpenMap(log + [e]) == if e.Entry? then OpenMap(log)[e.key := e]
                                  else if e.Exit? then OpenMap(log) - {e.key}
                                  else OpenMap(log)
  {
    assert (log + [e])[..|log|] == log;
  }

  /** An entry with no later entry or exit under its key. */
  ghost predicate Unmatched(log: Log, i: int)
    requires 0 <= i < |log|
  {
    && log[i].Entry?
    && forall j :: i < j < |log| && log[j].key == log[i].key ==> log[j].EntryRejected?
  }

  /** The map holds exactly the unmatched entries of the log. */
  lemma {:induction false} OpenMapIsUnmatched(log: Log, k: Key, e: Event)
    ensures k in OpenMap(log) && OpenMap(log)[k] == e
            <==> exists i :: 0 <= i < |log| && log[i] == e && e.key == k && Unmatched(log, i)
  {
    if log == [] {
    } else {
      var n := |log| - 1;
      var before := log[..n];
      OpenMapIsUnmatched(before, k, e);
      if k in OpenMap(log) && OpenMap(log)[k] == e {
        if log[n] == e && e.Entry? && e.key == k {
          assert Unmatched(log, n);
        } else {
          var i :| 0 <= i < n && before[i] == e && e.key == k && Unmatched(before, i);
          assert Unmatched(log, i);
        }
      }
      if i :| 0 <= i < |log| && log[i] == e && e.key == k && Unmatched(log, i) {
        if i < n {
          assert forall j :: i < j < n ==> before[j] == log[j];
          assert before[i] == e && Unmatched(before, i);
        }
      }
    }
  }

  // ---- the insertion-ordered dictionary the readers build ----

  type Items = seq<(Key, Event)>

  /** `items` is a duplicate-free listing of `m`. */
  ghost predicate Lists(items: Items, m: map<Key, Event>) {
    && (forall i, j :: 0 <= i < j < |items| ==> items[i].0 != items[j].0)
    && (forall i :: 0 <= i < |items| ==> items[i].0 in m && m[items[i].0] == items[i].1)
    && (forall k :: k in m ==> (k, m[k]) in items)
  }

  /** Replace in place, or append: a Python dictionary keeps the first insertion's place. */
  function Put(items: Items, k: Key, e: Event): Items {
    if items == [] then [(k, e)]
    else if items[0].0 == k then [(k, e)] + items[1..]
    else [items[0]] + Put(items[1..], k, e)
  }

  function Drop(items: Items, k: Key): Items {
    if items == [] then []
    else if items[0].0 == k then items[1..]
    else [items[0]] + Drop(items[1..], k)
  }

  lemma {:induction false} PutLists(items: Items, m: map<Key, Event>, k: Key, e: Event)
    requires Lists(items, m)
    ensures Lists(Put(items, k, e), m[k := e])
    decreases |items|
  {
    if items == [] {
    } else {
      var (h, v) := items[0];
      var rest := items[1..];
      TailLists(items, m);
      if h != k {
        PutLists(rest, m - {h}, k, e);
        ConsLists(h, v, Put(rest, k, e), (m - {h})[k := e]);
        assert (m - {h})[k := e][h := v] == m[k := e];
      } else {
        ConsLists(k, e, rest, m - {h});
        assert (m - {h})[k := e] == m[k := e];
      }
    }
  }

  lemma {:induction false} DropLists(items: Items, m: map<Key, Event>, k: Key)
    requires Lists(items, m)
    ensures Lists(Drop(items, k), m - {k})
    decreases |items|
  {
    if items == [] {
    } else {
      var (h, v) := items[0];
      var rest := items[1..];
      TailLists(items, m);
      if h != k {
        DropLists(rest, m - {h}, k);
        ConsLists(h, v, Drop(rest, k), m - {h} - {k});
        assert (m - {h} - {k})[h := v] == m - {k};
      }
    }
  }

  lemma TailLists(items: Items, m: map<Key, Event>)
    requires items != [] && Lists(items, m)
    ensures Lists(items[1..], m - {items[0].0})
  {
    var rest, r := items[1..], m - {items[0].0};
    forall k | k in r ensures (k, r[k]) in rest {
      assert (k, m[k]) in items;
    }
  }

  lemma ConsLists(k: Key, e: Event, items: Items, m: map<Key, Event>)
    requires Lists(items, m) && k !in m
    ensures Lists([(k, e)] + items, m[k := e])
  {
    var all, r := [(k, e)] + items, m[k := e];
    assert all[0] == (k, e);
    forall j | j in r ensures (j, r[j]) in all {
      if j != k { assert (j, m[j]) in items; }
    }
  }

  /** The dictionary after reading the whole log. */
  function OpenItems(log: Log): Items {
    if log == [] then []
    else ReadEvent(OpenItems(log[..|log| - 1]), log[|log| - 1])
  }

  function ReadEvent(items: Items, e: Event): Items {
    if e.Entry? then Put(items, e.key, e)
    else if e.Exit? then Drop(items, e.key)
    else items
  }

  lemma {:induction false} OpenItemsList(log: Log)
    ensures Lists(OpenItems(log), OpenMap(log))
  {
    if log == [] {
    } else {
      var before, e := log[..|log| - 1], log[|log| - 1];
      OpenItemsList(before);
      if e.Entry? { PutLists(OpenItems(before), OpenMap(before), e.key, e); }
      if e.Exit? { DropLists(OpenItems(before), OpenMap(before), e.key); }
    }
  }

  // ---- reconciliation ----

  function SyntheticExit(e: Event, now: int): Event
    requires e.Entry?
  {
    Exit(e.key, now, e.entryLtp, e.entryLtp, 0.0, if e.ts == 0 then 0 else now - e.ts, true)
  }

  /** Everything `OpenItems` lists is an entry under its own key. */
  lemma {:induction false} OpenAreEntries(log: Log, k: Key)
    requires k in OpenMap(log)
    ensures OpenMap(log)[k].Entry? && OpenMap(log)[k].key == k
  {
    var n := |log| - 1;
    if log[n].Entry? && log[n].key == k {
    } else {
      OpenAreEntries(log[..n], k);
    }
  }

  lemma ItemsAreEntries(log: Log)
    ensures forall i :: 0 <= i < |OpenItems(log)| ==>
              OpenItems(log)[i].1.Entry? && OpenItems(log)[i].1.key == OpenItems(log)[i].0
  {
    OpenItemsList(log);
    forall i | 0 <= i < |OpenItems(log)|
      ensures OpenItems(log)[i].1.Entry? && OpenItems(log)[i].1.key == OpenItems(log)[i].0
    {
      OpenAreEntries(log, OpenItems(log)[i].0);
    }
  }

  /** The exits written at startup, one per orphan. */
  function Synthetic(log: Log, now: int): Log {
    ItemsAreEntries(log);
    var items := OpenItems(log);
    seq(|items|, i requires 0 <= i < |items| && items[i].1.Entry? => SyntheticExit(items[i].1, now))
  }

  function Reconcile(log: Log, now: int): Log { log + Synthetic(log, now) }

  /** The first `n` listed keys. */
  function FirstKeys(items: Items, n: nat): set<Key>
    requires n <= |items|
  {
    set i | 0 <= i < n :: items[i].0
  }

  lemma SyntheticLength(log: Log, now: int)
    ensures |Synthetic(log, now)| == |OpenItems(log)|
  {}

  lemma SyntheticAt(log: Log, now: int, i: nat)
    requires i < |OpenItems(log)|
    ensures |Synthetic(log, now)| == |OpenItems(log)|
    ensures Synthetic(log, now)[i].Exit? && Synthetic(log, now)[i].key == OpenItems(log)[i].0
  {
    ItemsAreEntries(log);
  }

  /** After the first `n` synthetic exits exactly the first `n` listed keys are gone. */
  lemma {:induction false} SyntheticPrefix(log: Log, now: int, n: nat)
    requires n <= |OpenItems(log)| == |Synthetic(log, now)|
    ensures OpenMap(log + Synthetic(log, now)[..n]) == OpenMap(log) - FirstKeys(OpenItems(log), n)
  {
    hide OpenMap, OpenItems, Synthetic;
    var items, ex := OpenItems(log), Synthetic(log, now);
    if n == 0 {
      assert log + ex[..0] == log;
      assert FirstKeys(items, 0) == {};
    } else {
      SyntheticPrefix(log, now, n - 1);
      SyntheticAt(log, now, n - 1);
      assert log + ex[..n] == (log + ex[..n - 1]) + [ex[n - 1]];
      OpenMapSnoc(log + ex[..n - 1], ex[n - 1]);
      assert FirstKeys(items, n) == FirstKeys(items, n - 1) + {items[n - 1].0};
    }
  }

  /**
   Each orphan gets one exit under its key, at its own price, with no profit, dated now. An
   entry time of 0 stands for none.
   */
  lemma SyntheticMeans(log: Log, now: int, i: nat)
    requires i < |OpenItems(log)|
    ensures |Synthetic(log, now)| == |OpenItems(log)|
    ensures var entry, e := OpenItems(log)[i].1, Synthetic(log, now)[i];
      && entry.Entry? && e.Exit? && e.key == entry.key && e.reconciled && e.ts == now
      && e.exitLtp == e.entryLtp == entry.entryLtp && e.pnl == 0.0
      && (entry.ts != 0 ==> entry.ts + e.heldMs == now) && (entry.ts == 0 ==> e.heldMs == 0)
  {
    ItemsAreEntries(log);
  }

  /** Pairing a log extended with its own synthetic exits leaves nothing open. */
  lemma ReconcileClosesAll(log: Log, now: int)
    ensures OpenMap(Reconcile(log, now)) == map[]
  {
    var items := OpenItems(log);
    SyntheticPrefix(log, now, |items|);
    assert Synthetic(log, now)[..|items|] == Synthetic(log, now);
    OpenItemsList(log);
    forall k | k in OpenMap(log) ensures k in FirstKeys(items, |items|) {
      var i :| 0 <= i < |items| && items[i] == (k, OpenMap(log)[k]);
      assert items[i].0 == k;
    }
  }

  // ---- alternation per index ----

  /** The entry (true) and exit (false) events of one index, in order. */
  function Kinds(log: Log, x: string): seq<bool> {
    if log == [] then []
    else
      var ks, e := Kinds(log[..|log| - 1], x), log[|log| - 1];
      if e.key.index == x && !e.EntryRejected? then ks + [e.Entry?] else ks
  }

  predicate Alternating(ks: seq<bool>) {
    forall i :: 0 <= i < |ks| ==> ks[i] == (i % 2 == 0)
  }

  ghost predicate IndexOpen(log: Log, x: string) {
    exists k :: k in OpenMap(log) && k.index == x
  }

  /**
   From position `start` on the log is orderly: per index entries and exits alternate,
   beginning with an entry, an odd count means open, and an index has at most one open key.
   */
  ghost predicate Orderly(log: Log, start: nat) {
    && start <= |log|
    && (forall k, l :: k in OpenMap(log) && l in OpenMap(log) && k.index == l.index ==> k == l)
    && (forall x :: Alternating(Kinds(log[start..], x)))
    && (forall x :: |Kinds(log[start..], x)| % 2 == 1 <==> IndexOpen(log, x))
  }

  lemma KindsSnoc(log: Log, start: nat, e: Event, x: string)
    requires start <= |log|
    ensures Kinds((log + [e])[start..], x)
            == Kinds(log[start..], x) + (if e.key.index == x && !e.EntryRejected? then [e.Entry?] else [])
  {
    var suffix := (log + [e])[start..];
    assert suffix == log[start..] + [e];
    assert suffix[..|suffix| - 1] == log[start..];
  }

  lemma OrderlyEntry(log: Log, start: nat, e: Event)
    requires Orderly(log, start) && e.Entry? && !IndexOpen(log, e.key.index)
    ensures Orderly(log + [e], start)
  {
    hide Kinds, OpenMap;
    OpenMapSnoc(log, e);
    assert forall k :: k in OpenMap(log) ==> k.index != e.key.index;
    forall x ensures Alternating(Kinds((log + [e])[start..], x))
    ensures |Kinds((log + [e])[start..], x)| % 2 == 1 <==> IndexOpen(log + [e], x) {
      KindsSnoc(log, start, e, x);
      assert Alternating(Kinds(log[start..], x));
      IndexOpenAfterEntry(log, e, x);
    }
  }

  lemma IndexOpenAfterEntry(log: Log, e: Event, x: string)
    requires e.Entry?
    ensures IndexOpen(log + [e], x) <==> IndexOpen(log, x) || x == e.key.index
  {
    OpenMapSnoc(log, e);
    assert e.key in OpenMap(log + [e]);
    if IndexOpen(log, x) {
      var k :| k in OpenMap(log) && k.index == x;
      assert k in OpenMap(log + [e]);
    }
  }

  lemma OrderlyExit(log: Log, start: nat, e: Event)
    requires Orderly(log, start) && e.Exit? && e.key in OpenMap(log)
    ensures Orderly(log + [e], start)
  {
    OpenMapSnoc(log, e);
    forall x ensures Alternating(Kinds((log + [e])[start..], x))
    ensures |Kinds((log + [e])[start..], x)| % 2 == 1 <==> IndexOpen(log + [e], x) {
      KindsSnoc(log, start, e, x);
      assert Alternating(Kinds(log[start..], x));
      if x == e.key.index {
        assert IndexOpen(log, x);
      } else if IndexOpen(log, x) {
        var k :| k in OpenMap(log) && k.index == x;
        assert k in OpenMap(log + [e]);
      }
    }
  }

  lemma OrderlyRejection(log: Log, start: nat, e: Event)
    requires Orderly(log, start) && e.EntryRejected?
    ensures Orderly(log + [e], start)
  {
    OpenMapSnoc(log, e);
    forall x ensures Alternating(Kinds((log + [e])[start..], x))
    ensures |Kinds((log + [e])[start..], x)| % 2 == 1 <==> IndexOpen(log + [e], x) {
      KindsSnoc(log, start, e, x);
      assert Alternating(Kinds(log[start..], x));
      assert IndexOpen(log, x) <==> IndexOpen(log + [e], x);
    }
  }

  /** Each synthetic exit finds its key still open. */
  lemma SyntheticKeyOpen(log: Log, now: int, n: nat)
    requires n < |Synthetic(log, now)|
    ensures Synthetic(log, now)[n].Exit?
    ensures Synthetic(log, now)[n].key in OpenMap(log + Synthetic(log, now)[..n])
  {
    hide OpenMap, OpenItems, Synthetic;
    SyntheticLength(log, now);
    SyntheticAt(log, now, n);
    SyntheticPrefix(log, now, n);
    OpenItemsList(log);
    var items := OpenItems(log);
    assert items[n].0 in OpenMap(log) && items[n].0 !in FirstKeys(items, n);
  }

  lemma {:induction false} OrderlySynthetic(log: Log, start: nat, now: int, n: nat)
    requires Orderly(log, start) && n <= |Synthetic(log, now)|
    ensures Orderly(log + Synthetic(log, now)[..n], start)
  {
    hide Orderly, Kinds, OpenMap, OpenItems, Synthetic;
    var ex := Synthetic(log, now);
    if n == 0 {
      assert log + ex[..0] == log;
    } else {
      OrderlySynthetic(log, start, now, n - 1);
      SyntheticKeyOpen(log, now, n - 1);
      assert log + ex[..n] == (log + ex[..n - 1]) + [ex[n - 1]];
      OrderlyExit(log + ex[..n - 1], start, ex[n - 1]);
    }
  }

  /** Reconciliation keeps the log orderly. */
  lemma OrderlyReconcile(log: Log, start: nat, now: int)
    requires Orderly(log, start)
    ensures Orderly(Reconcile(log, now), start)
  {
    OrderlySynthetic(log, start, now, |Synthetic(log, now)|);
    assert Synthetic(log, now)[..|Synthetic(log, now)|] == Synthetic(log, now);
  }

  // ---- the trade table of the user interface ----

  datatype Row =
    | RejectedRow(event: Event)
    | ClosedRow(entry: Option<Event>, exit: Event)
    | OpenRow(open: Event)

  function Lookup(items: Items, k: Key): Option<Event> {
    if items == [] then None
    else if items[0].0 == k then Some(items[0].1)
    else Lookup(items[1..], k)
  }

  /** Rows for rejections and exits, in log order. */
  function SettledRows(log: Log): seq<Row> {
    if log == [] then []
    else
      var before, e := log[..|log| - 1], log[|log| - 1];
      SettledRows(before) +
      (if e.EntryRejected? then [RejectedRow(e)]
       else if e.Exit? then [ClosedRow(Lookup(OpenItems(before), e.key), e)]
       else [])
  }

  function OpenRows(items: Items): seq<Row> {
    seq(|items|, i requires 0 <= i < |items| => OpenRow(items[i].1))
  }

  lemma {:induction false} LookupListed(items: Items, m: map<Key, Event>, k: Key)
    requires Lists(items, m)
    ensures Lookup(items, k) == if k in m then Some(m[k]) else None
    decreases |items|
  {
    if items == [] {
    } else {
      TailLists(items, m);
      if items[0].0 != k { LookupListed(items[1..], m - {items[0].0}, k); }
    }
  }

  /** An exit row carries exactly the entry that was unmatched when the exit was written. */
  lemma ClosedRowPairs(log: Log, e: Event)
    requires e.Exit?
    ensures SettledRows(log + [e])
            == SettledRows(log) + [ClosedRow(if e.key in OpenMap(log) then Some(OpenMap(log)[e.key]) else None, e)]
  {
    assert (log + [e])[..|log|] == log;
    OpenItemsList(log);
    LookupListed(OpenItems(log), OpenMap(log), e.key);
  }

  /** The events of the log that are not entries, in order. */
  function Settling(log: Log): Log {
    if log == [] then []
    else if log[|log| - 1].Entry? then Settling(log[..|log| - 1])
    else Settling(log[..|log| - 1]) + [log[|log| - 1]]
  }

  /** The settled rows are the rejections and exits of the log, one row each, in log order. */
  lemma {:induction false} SettledRowsAre(log: Log)
    ensures |SettledRows(log)| == |Settling(log)|
    ensures forall i :: 0 <= i < |Settling(log)| ==>
              var e, row := Settling(log)[i], SettledRows(log)[i];
              if e.Exit? then row.ClosedRow? && row.exit == e else e.EntryRejected? && row == RejectedRow(e)
  {
    if log == [] {
    } else {
      SettledRowsAre(log[..|log| - 1]);
    }
  }

  // ---- the readers as loops ----

  /** Entries that have no matching later exit. */
  method PairEntries(events: Log) returns (orphans: seq<Event>)
    ensures |orphans| == |OpenItems(events)|
    ensures forall i :: 0 <= i < |orphans| ==> orphans[i] == OpenItems(events)[i].1
    ensures forall e :: e in orphans <==> exists i :: 0 <= i < |events| && events[i] == e && Unmatched(events, i)
  {
    var openByKey: Items := [];
    for n := 0 to |events|
      invariant openByKey == OpenItems(events[..n])
    {
      var ev := events[n];
      assert events[..n + 1][..n] == events[..n];
      if ev.Entry? {
        openByKey := Put(openByKey, ev.key, ev);
      } else if ev.Exit? {
        openByKey := Drop(openByKey, ev.key);
      }
    }
    assert events[..|events|] == events;
    orphans := seq(|openByKey|, i requires 0 <= i < |openByKey| => openByKey[i].1);
    UnmatchedListed(events, orphans);
  }

  lemma UnmatchedListed(events: Log, orphans: seq<Event>)
    requires |orphans| == |OpenItems(events)|
    requires forall i :: 0 <= i < |orphans| ==> orphans[i] == OpenItems(events)[i].1
    ensures forall e :: e in orphans <==> exists i :: 0 <= i < |events| && events[i] == e && Unmatched(events, i)
  {
    var items := OpenItems(events);
    OpenItemsList(events);
    ItemsAreEntries(events);
    forall e ensures e in orphans <==> exists i :: 0 <= i < |events| && events[i] == e && Unmatched(events, i) {
      OpenMapIsUnmatched(events, e.key, e);
      if e in orphans {
        var i :| 0 <= i < |orphans| && orphans[i] == e;
        assert items[i].0 in OpenMap(events) && items[i].0 == e.key;
      }
      if e.key in OpenMap(events) && OpenMap(events)[e.key] == e {
        var i :| 0 <= i < |items| && items[i] == (e.key, e);
        assert orphans[i] == e;
      }
    }
  }

  lemma {:induction false} SettledRowsAreNotOpen(log: Log, e: Event)
    ensures OpenRow(e) !in SettledRows(log)
  {
    if log == [] {
    } else {
      SettledRowsAreNotOpen(log[..|log| - 1], e);
    }
  }

  /** The table shows as open exactly the entries the reconciliation would close. */
  lemma OpenRowsAreUnmatched(log: Log, rows: seq<Row>)
    requires rows == SettledRows(log) + OpenRows(OpenItems(log))
    ensures forall e :: OpenRow(e) in rows <==> exists i :: 0 <= i < |log| && log[i] == e && Unmatched(log, i)
  {
    var items := OpenItems(log);
    var orphans := seq(|items|, i requires 0 <= i < |items| => items[i].1);
    UnmatchedListed(log, orphans);
    forall e ensures OpenRow(e) in rows <==> e in orphans {
      SettledRowsAreNotOpen(log, e);
      if e in orphans {
        var i :| 0 <= i < |orphans| && orphans[i] == e;
        assert OpenRows(items)[i] == OpenRow(e);
      }
      if OpenRow(e) in OpenRows(items) {
        var i :| 0 <= i < |items| && OpenRows(items)[i] == OpenRow(e);
        assert orphans[i] == e;
      }
    }
  }

  /** The table's rows before its final sort and cut. */
  method CriticalTrades(events: Log) returns (paired: seq<Row>)
    ensures paired == SettledRows(events) + OpenRows(OpenItems(events))
    ensures forall e :: OpenRow(e) in paired
              <==> exists i :: 0 <= i < |events| && events[i] == e && Unmatched(events, i)
  {
    var openByKey: Items := [];
    paired := [];
    for n := 0 to |events|
      invariant openByKey == OpenItems(events[..n]) && paired == SettledRows(events[..n])
    {
      var ev := events[n];
      assert events[..n + 1][..n] == events[..n];
      if ev.EntryRejected? {
        paired := paired + [RejectedRow(ev)];
      } else if ev.Entry? {
        openByKey := Put(openByKey, ev.key, ev);
      } else {
        var entry := Lookup(openByKey, ev.key);
        openByKey := Drop(openByKey, ev.key);
        paired := paired + [ClosedRow(entry, ev)];
      }
    }
    assert events[..|events|] == events;
    for i := 0 to |openByKey|
      invariant paired == SettledRows(events) + OpenRows(openByKey)[..i]
    {
      paired := paired + [OpenRow(openByKey[i].1)];
    }
    OpenRowsAreUnmatched(events, paired);
  }

  /** The log file and its startup repair. */
  class Journal {
    var events: Log

    constructor (existing: Log)
      ensures events == existing
    {
      events := existing;
    }

    method Append(e: Event)
      modifies this
      ensures events == old(events) + [e]
    {
      events := events + [e];
    }

    /** Write one synthetic exit per orphan entry; afterwards nothing is open. */
    method ReconcileOrphans(now: int) returns (synthetic: Log)
      modifies this
      ensures synthetic == Synthetic(old(events), now)
      ensures events == Reconcile(old(events), now)
      ensures OpenMap(events) == map[]
    {
      var orphans := PairEntries(events);
      ItemsAreEntries(events);
      synthetic := [];
      for i := 0 to |orphans|
        invariant events == old(events)
        invariant synthetic == Synthetic(events, now)[..i]
      {
        synthetic := synthetic + [SyntheticExit(orphans[i], now)];
      }
      events := events + synthetic;
      ReconcileClosesAll(old(events), now);
    }
  }
}
