/**
 The order in which unmatched entries are listed. The dictionary keeps the place of a
 key's first insertion, so an entry written over an open one is listed at the older place.
 */
module LogOrder {
  import opened Common
  import PE = PaperExecution
  import opened ExitRules
  import opened TradeLog
  import opened Scalper
  import opened ScalperSafety
  import opened ScalperRuns

  /** Position of the last entry under a key, -1 if there is none. */
  function LastAt(log: Log, k: Key): (n: int)
    ensures -1 <= n < |log|
  {
    if log == [] then -1
    else if log[|log| - 1].Entry? && log[|log| - 1].key == k then |log| - 1
    else LastAt(log[..|log| - 1], k)
  }

  /** Position at which a key last went from not open to open, -1 if never. */
  function InsertedAt(log: Log, k: Key): (n: int)
    ensures -1 <= n < |log|
  {
    if log == [] then -1
    else
      var before, e := log[..|log| - 1], log[|log| - 1];
      if e.Entry? && e.key == k && k !in OpenMap(before) then |log| - 1 else InsertedAt(before, k)
  }

  /** The unmatched entry of an open key is the last one under it, no older than the insertion. */
  lemma {:induction false} OpenIsLast(log: Log, k: Key)
    requires k in OpenMap(log)
    ensures 0 <= InsertedAt(log, k) <= LastAt(log, k) && OpenMap(log)[k] == log[LastAt(log, k)]
  {
    if log == [] {
    } else {
      var before, e := log[..|log| - 1], log[|log| - 1];
      if !(e.Entry? && e.key == k) || k in OpenMap(before) { OpenIsLast(before, k); }
    }
  }

  // ---- the listing goes by insertion ----

  predicate HasKey(items: Items, k: Key) { exists i :: 0 <= i < |items| && items[i].0 == k }

  lemma {:induction false} PutShape(items: Items, k: Key, e: Event)
    ensures HasKey(items, k) ==>
              |Put(items, k, e)| == |items| && forall i :: 0 <= i < |items| ==> Put(items, k, e)[i].0 == items[i].0
    ensures !HasKey(items, k) ==> Put(items, k, e) == items + [(k, e)]
  {
    if items == [] {
    } else if items[0].0 == k {
    } else {
      var rest := items[1..];
      PutShape(rest, k, e);
      if HasKey(items, k) {
        var i :| 0 <= i < |items| && items[i].0 == k;
        assert rest[i - 1].0 == k;
      }
      if HasKey(rest, k) {
        var i :| 0 <= i < |rest| && rest[i].0 == k;
        assert items[i + 1].0 == k;
      }
      assert items == [items[0]] + rest;
    }
  }

  /** Dropping takes out one place, or none. */
  lemma {:induction false} DropShape(items: Items, k: Key) returns (n: nat)
    ensures n <= |items| && Drop(items, k) == items[..n] + (if n < |items| then items[n + 1..] else [])
  {
    if items == [] || items[0].0 == k {
      n := 0;
    } else {
      n := DropShape(items[1..], k);
      n := n + 1;
    }
  }

  ghost predicate ByInsertion(log: Log, items: Items) {
    forall i, j :: 0 <= i < j < |items| ==> InsertedAt(log, items[i].0) < InsertedAt(log, items[j].0)
  }

  lemma InsertedSnoc(log: Log, e: Event, k: Key)
    ensures InsertedAt(log + [e], k)
            == if e.Entry? && e.key == k && k !in OpenMap(log) then |log| else InsertedAt(log, k)
  {
    assert (log + [e])[..|log|] == log;
  }

  lemma EntryByInsertion(log: Log, e: Event, items: Items)
    requires e.Entry? && Lists(items, OpenMap(log)) && ByInsertion(log, items)
    ensures ByInsertion(log + [e], Put(items, e.key, e))
  {
    hide OpenMap, InsertedAt;
    PutShape(items, e.key, e);
    if e.key in OpenMap(log) {
      var i :| 0 <= i < |items| && items[i] == (e.key, OpenMap(log)[e.key]);
      assert items[i].0 == e.key;
    }
    var put := Put(items, e.key, e);
    hide Put;
    forall i, j | 0 <= i < j < |put| ensures InsertedAt(log + [e], put[i].0) < InsertedAt(log + [e], put[j].0) {
      InsertedSnoc(log, e, put[i].0);
      InsertedSnoc(log, e, put[j].0);
    }
  }

  lemma ExitByInsertion(log: Log, e: Event, items: Items)
    requires !e.Entry? && ByInsertion(log, items)
    ensures ByInsertion(log + [e], Drop(items, e.key)) && ByInsertion(log + [e], items)
  {
    hide InsertedAt, Drop;
    var n := DropShape(items, e.key);
    var kept := Drop(items, e.key);
    forall k ensures InsertedAt(log + [e], k) == InsertedAt(log, k) { InsertedSnoc(log, e, k); }
  }

  /** For any log the listing is in order of insertion. */
  lemma {:induction false} ListedByInsertion(log: Log)
    ensures ByInsertion(log, OpenItems(log))
  {
    hide ByInsertion, Lists, Put, Drop, OpenMap;
    if log == [] {
      NothingListed();
    } else {
      var before, e := log[..|log| - 1], log[|log| - 1];
      assert log == before + [e];
      ListedByInsertion(before);
      OpenItemsList(before);
      if e.Entry? {
        EntryByInsertion(before, e, OpenItems(before));
      } else {
        ExitByInsertion(before, e, OpenItems(before));
      }
    }
  }

  lemma NothingListed()
    ensures ByInsertion([], [])
  {}

  // ---- when that is also oldest first ----

  /** The listing is in log order: each unmatched entry stands before those written after it. */
  ghost predicate OldestFirst(log: Log) {
    forall i, j :: 0 <= i < j < |OpenItems(log)| ==>
      LastAt(log, OpenItems(log)[i].0) < LastAt(log, OpenItems(log)[j].0)
  }

  /** `k` was entered again after the last entry of `l`, which was first inserted behind it. */
  predicate Overtakes(log: Log, k: Key, l: Key) {
    && k in OpenMap(log) && l in OpenMap(log)
    && InsertedAt(log, k) < InsertedAt(log, l) && LastAt(log, k) > LastAt(log, l)
  }

  /** The unmatched entries are listed oldest first exactly when no open key overtakes another. */
  lemma OldestFirstIff(log: Log)
    ensures OldestFirst(log) <==> forall k, l :: !Overtakes(log, k, l)
  {
    hide OpenMap, OpenItems, InsertedAt, LastAt;
    var items := OpenItems(log);
    ListedByInsertion(log);
    OpenItemsList(log);
    if OldestFirst(log) {
      forall k, l ensures !Overtakes(log, k, l) {
        if k in OpenMap(log) && l in OpenMap(log) {
          var i := ListedAt(items, OpenMap(log), k);
          var j := ListedAt(items, OpenMap(log), l);
        }
      }
    }
    if forall k, l :: !Overtakes(log, k, l) {
      forall i, j | 0 <= i < j < |items| ensures LastAt(log, items[i].0) < LastAt(log, items[j].0) {
        assert !Overtakes(log, items[i].0, items[j].0);
        LastAtDiffers(log, items[i].0, items[j].0);
      }
    }
  }

  lemma ListedAt(items: Items, m: map<Key, Event>, k: Key) returns (i: nat)
    requires Lists(items, m) && k in m
    ensures i < |items| && items[i].0 == k
  {
    i :| 0 <= i < |items| && items[i] == (k, m[k]);
  }

  /** Two open keys have their last entries at different places. */
  lemma LastAtDiffers(log: Log, k: Key, l: Key)
    requires k in OpenMap(log) && l in OpenMap(log) && k != l
    ensures LastAt(log, k) != LastAt(log, l)
  {
    hide LastAt, InsertedAt, OpenMap;
    OpenIsLast(log, k);
    OpenIsLast(log, l);
    OpenAreEntries(log, k);
    OpenAreEntries(log, l);
  }

  const KEY_A := Key("NIFTY50", 25000, CE)
  const KEY_B := Key("SENSEX", 79000, CE)

  function EntryAt(k: Key, ts: int): Event { Entry(k, ts, 1, 1, 1.0, 2.0, 0.5) }

  /** Entries A, B and A again: the listing puts the newest entry first. */
  lemma RepeatListedFirst()
    ensures var log := [EntryAt(KEY_A, 1), EntryAt(KEY_B, 2), EntryAt(KEY_A, 3)];
      OpenItems(log) == [(KEY_A, EntryAt(KEY_A, 3)), (KEY_B, EntryAt(KEY_B, 2))] && !OldestFirst(log)
  {
    var a, b, c := EntryAt(KEY_A, 1), EntryAt(KEY_B, 2), EntryAt(KEY_A, 3);
    var log := [a, b, c];
    assert [a][..0] == [] && [a, b][..1] == [a] && log[..2] == [a, b];
    var one, two: Items := [(KEY_A, a)], [(KEY_A, a), (KEY_B, b)];
    assert one[1..] == [] && two[1..] == [(KEY_B, b)];
    assert OpenItems([a]) == one;
    assert Put([], KEY_B, b) == [(KEY_B, b)] && Put(one, KEY_B, b) == one[..1] + Put([], KEY_B, b);
    assert OpenItems([a, b]) == two;
    assert OpenItems(log) == [(KEY_A, c), (KEY_B, b)];
    assert LastAt(log, KEY_A) == 2 && LastAt(log, KEY_B) == 1;
    assert OpenItems(log)[0].0 == KEY_A && OpenItems(log)[1].0 == KEY_B;
  }

  // ---- logs without an entry under an open key ----

  /** From `start` on no entry is written while its key is open. */
  ghost predicate FreshFrom(log: Log, start: nat) {
    forall i :: start <= i < |log| && log[i].Entry? ==> log[i].key !in OpenMap(log[..i])
  }

  lemma FreshSnoc(log: Log, start: nat, e: Event)
    requires FreshFrom(log, start) && (e.Entry? ==> e.key !in OpenMap(log))
    ensures FreshFrom(log + [e], start)
  {
    hide OpenMap;
    var all := log + [e];
    forall i | start <= i < |all| && all[i].Entry? ensures all[i].key !in OpenMap(all[..i]) {
      if i < |log| {
        assert all[..i] == log[..i] && all[i] == log[i];
      } else {
        assert all[..i] == log;
      }
    }
  }

  lemma {:induction false} FreshExits(log: Log, start: nat, extra: Log)
    requires FreshFrom(log, start) && forall i :: 0 <= i < |extra| ==> extra[i].Exit?
    ensures FreshFrom(log + extra, start)
  {
    hide FreshFrom;
    if extra == [] {
      assert log + extra == log;
    } else {
      var n := |extra| - 1;
      FreshExits(log, start, extra[..n]);
      FreshSnoc(log + extra[..n], start, extra[n]);
      assert log + extra[..n] + [extra[n]] == log + extra;
    }
  }

  lemma {:induction false} FreshKeepsPlace(log: Log, start: nat, k: Key)
    requires start <= |log| && OpenMap(log[..start]) == map[] && FreshFrom(log, start) && k in OpenMap(log)
    ensures InsertedAt(log, k) == LastAt(log, k)
  {
    assert log[..|log|] == log;
    if |log| == start {
    } else {
      var before, e := log[..|log| - 1], log[|log| - 1];
      if e.Entry? && e.key == k {
        assert log[|log| - 1].key !in OpenMap(before);
      } else {
        assert before[..start] == log[..start];
        forall i | start <= i < |before| && before[i].Entry? ensures before[i].key !in OpenMap(before[..i]) {
          assert before[..i] == log[..i] && log[i] == before[i];
        }
        FreshKeepsPlace(before, start, k);
      }
    }
  }

  /** A log repaired at `start` and fresh from there on lists its unmatched entries oldest first. */
  lemma FreshIsOldestFirst(log: Log, start: nat)
    requires start <= |log| && OpenMap(log[..start]) == map[] && FreshFrom(log, start)
    ensures OldestFirst(log)
  {
    forall k, l ensures !Overtakes(log, k, l) {
      if k in OpenMap(log) && l in OpenMap(log) {
        FreshKeepsPlace(log, start, k);
        FreshKeepsPlace(log, start, l);
      }
    }
    hide OpenMap, LastAt, InsertedAt, Overtakes, FreshFrom, OldestFirst;
    OldestFirstIff(log);
  }

  // ---- the scalper's own log ----

  lemma DoFresh(cfg: Config, start: nat, s: Engine, a: Action)
    requires Inv(cfg, start, s) && FreshFrom(s.log, start)
    ensures FreshFrom(Do(cfg, s, a).log, start) && s.log <= Do(cfg, s, a).log
  {
    hide FreshFrom, Pnl, Evaluate, PE.Executor.Submit, BuildExitLevels, Reconcile;
    hide OpenMap, AllowEntry, StateIsHistory, Orderly;
    match a {
      case Touch(_) =>
      case ResetDay(_) =>
      case Restart(now) => RepairFresh(s.log, start, now);
      case TryEntry(x, gateTs, c) =>
        if EntryRuns(cfg, s, a) {
          var e := EntryRejected(Key(x, c.value.strike, c.value.side), c.value.logTs);
          FreshSnoc(s.log, start, e);
          GateMeans(cfg, s.perIndex, x, gateTs);
          NothingOpenFor(s, x);
          var sold := cfg.paper.Submit(BuyOrder(cfg, x, c.value));
          if sold.Filled? {
            FreshSnoc(s.log, start, EntryEvent(NewPosition(cfg, x, c.value, sold.fill.price), c.value.logTs));
          }
        }
      case CheckExit(x, _, check) =>
        if ExitCheckRuns(s, a) {
          var pos, q := s.perIndex[x].position.value, check.quote.value;
          var sold := cfg.paper.Submit(SellOrder(pos, q.ltp));
          if sold.Filled? { FreshSnoc(s.log, start, ExitEvent(pos, sold.fill, check)); }
        }
    }
  }

  lemma RepairFresh(log: Log, start: nat, now: int)
    requires FreshFrom(log, start)
    ensures FreshFrom(Reconcile(log, now), start) && log <= Reconcile(log, now)
  {
    ItemsAreEntries(log);
    FreshExits(log, start, Synthetic(log, now));
  }

  lemma {:induction false} RunFresh(cfg: Config, log: Log, now: int, actions: seq<Action>)
    ensures Reconcile(log, now) <= Run(cfg, log, now, actions).log
    ensures FreshFrom(Run(cfg, log, now, actions).log, |Reconcile(log, now)|)
  {
    hide Do, Inv, Reconcile;
    if actions == [] {
    } else {
      var before := actions[..|actions| - 1];
      RunFresh(cfg, log, now, before);
      RunPreserves(cfg, log, now, before);
      DoFresh(cfg, |Reconcile(log, now)|, Run(cfg, log, now, before), actions[|actions| - 1]);
    }
  }

  /** Whatever log it started on, a scalper's log always lists its unmatched entries oldest first. */
  lemma RunListsOldestFirst(cfg: Config, log: Log, now: int, actions: seq<Action>)
    ensures OldestFirst(Run(cfg, log, now, actions).log)
  {
    hide Run, OldestFirst, FreshFrom, OpenMap, Reconcile;
    RunFresh(cfg, log, now, actions);
    var all, start := Run(cfg, log, now, actions).log, |Reconcile(log, now)|;
    assert all[..start] == Reconcile(log, now);
    ReconcileClosesAll(log, now);
    FreshIsOldestFirst(all, start);
  }
}
