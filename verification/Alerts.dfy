/**
 The alert notifier: per rule a "last fired" key and a "resolved sent" marker, both with
 an expiry, and a trimmed history list. The key scan may return keys in any order and
 more than once.
 */
module Alerts {
  import opened Common

  datatype Alert = Alert(rule: string, severity: string)

  datatype Event = Fired(rule: string, ts: int) | Resolved(rule: string, ts: int)

  datatype Config = Config(minSeverity: string, dedupSeconds: int, maxEntries: int) {
    function MinRank(): int {
      if minSeverity == "info" then 0 else if minSeverity == "warn" then 1 else 2
    }

    function CooldownMs(): int { dedupSeconds * 1000 }

    function TtlMs(): int { Max(dedupSeconds * 2, 60) * 1000 }
  }

  function Rank(severity: string): int { if severity == "warn" then 1 else if severity == "crit" then 2 else 0 }

  function Eligible(c: Config, alerts: seq<Alert>): seq<string> {
    if alerts == [] then []
    else
      var rest, a := Eligible(c, alerts[..|alerts| - 1]), alerts[|alerts| - 1];
      if Rank(a.severity) >= c.MinRank() then rest + [a.rule] else rest
  }

  /** A stored key: its value and the last moment it can be read. */
  datatype Stamp = Stamp(value: int, deadline: int)

  const MARKER_TTL_MS := 3_600_000

  /** `history` is the stored list, newest first; `events` everything that ever happened, in order. */
  datatype Store = Store(
    fired: map<string, Stamp>, markers: map<string, Stamp>, history: seq<Event>, events: seq<Event>)

  const EMPTY := Store(map[], map[], [], [])

  predicate Live(keys: map<string, Stamp>, rule: string, now: int) { rule in keys && now <= keys[rule].deadline }

  /** LPUSH, then LTRIM when a limit is set. */
  function PushHistory(c: Config, history: seq<Event>, e: Event): seq<Event> {
    var pushed := [e] + history;
    if c.maxEntries > 0 && |pushed| > c.maxEntries then pushed[..c.maxEntries] else pushed
  }

  predicate Deduplicated(c: Config, s: Store, now: int, rule: string) {
    var last := if Live(s.fired, rule, now) then s.fired[rule].value else 0;
    last != 0 && now - last <= c.CooldownMs()
  }

  function Fire(c: Config, s: Store, now: int, rule: string): Store {
    if Deduplicated(c, s, now, rule) then s
    else
      Store(s.fired[rule := Stamp(now, now + c.TtlMs())], s.markers - {rule},
            PushHistory(c, s.history, Fired(rule, now)), s.events + [Fired(rule, now)])
  }

  function Resolve(c: Config, s: Store, now: int, eligible: seq<string>, rule: string): Store {
    if rule in eligible || Live(s.markers, rule, now) then s
    else
      Store(s.fired - {rule}, s.markers[rule := Stamp(1, now + MARKER_TTL_MS)],
            PushHistory(c, s.history, Resolved(rule, now)), s.events + [Resolved(rule, now)])
  }

  function FireAll(c: Config, s: Store, now: int, rules: seq<string>): Store {
    if rules == [] then s else Fire(c, FireAll(c, s, now, rules[..|rules| - 1]), now, rules[|rules| - 1])
  }

  function ResolveAll(c: Config, s: Store, now: int, eligible: seq<string>, scan: seq<string>): Store {
    if scan == [] then s
    else Resolve(c, ResolveAll(c, s, now, eligible, scan[..|scan| - 1]), now, eligible, scan[|scan| - 1])
  }

  /** One notifier tick: fire what is eligible, then resolve what the scan finds cleared. */
  function Tick(c: Config, s: Store, now: int, alerts: seq<Alert>, scan: seq<string>): Store {
    var eligible := Eligible(c, alerts);
    ResolveAll(c, FireAll(c, s, now, eligible), now, eligible, scan)
  }

  /** The scan returns exactly the readable keys, each at least once. */
  predicate ScanOf(s: Store, now: int, scan: seq<string>) {
    && (forall r :: r in scan ==> Live(s.fired, r, now))
    && (forall r :: r in s.fired && now <= s.fired[r].deadline ==> r in scan)
  }

  // ---- the newest events are kept ----

  function Reversed(events: seq<Event>): seq<Event> {
    if events == [] then [] else [events[|events| - 1]] + Reversed(events[..|events| - 1])
  }

  function Newest(c: Config, events: seq<Event>): seq<Event> {
    var all := Reversed(events);
    if c.maxEntries > 0 && |all| > c.maxEntries then all[..c.maxEntries] else all
  }

  lemma PushKeepsNewest(c: Config, events: seq<Event>, e: Event)
    ensures PushHistory(c, Newest(c, events), e) == Newest(c, events + [e])
  {
    assert (events + [e])[..|events|] == events;
  }

  // ---- the last event of a rule ----

  function LastEvent(events: seq<Event>, rule: string): Option<Event> {
    if events == [] then None
    else if events[|events| - 1].rule == rule then Some(events[|events| - 1])
    else LastEvent(events[..|events| - 1], rule)
  }

  lemma LastEventSnoc(events: seq<Event>, e: Event, rule: string)
    ensures LastEvent(events + [e], rule) == if e.rule == rule then Some(e) else LastEvent(events, rule)
  {
    assert (events + [e])[..|events|] == events;
  }

  /**
   A key exists exactly while the rule's last event is a firing, and remembers its time;
   no rule has both a key and a marker; what is stored of the history is its newest part.
   */
  ghost predicate Inv(c: Config, s: Store, now: int) {
    && (forall r :: r in s.fired <==> LastEvent(s.events, r).Some? && LastEvent(s.events, r).value.Fired?)
    && (forall r :: r in s.fired ==>
          s.fired[r].value == LastEvent(s.events, r).value.ts && s.fired[r].deadline == s.fired[r].value + c.TtlMs())
    && (forall r :: r in s.fired ==> r !in s.markers)
    && (forall i :: 0 <= i < |s.events| ==> 1 <= s.events[i].ts <= now)
    && (forall i, j :: 0 <= i < j < |s.events| ==> s.events[i].ts <= s.events[j].ts)
    && s.history == Newest(c, s.events)
  }

  lemma LaterInv(c: Config, s: Store, earlier: int, now: int)
    requires Inv(c, s, earlier) && earlier <= now
    ensures Inv(c, s, now)
  {
    hide LastEvent, Newest;
  }

  lemma FireKeepsInv(c: Config, s: Store, now: int, rule: string)
    requires Inv(c, s, now) && now >= 1
    ensures Inv(c, Fire(c, s, now, rule), now)
  {
    hide LastEvent, Newest, Deduplicated, PushHistory;
    var e := Fired(rule, now);
    PushKeepsNewest(c, s.events, e);
    forall r { LastEventSnoc(s.events, e, r); }
  }

  lemma ResolveKeepsInv(c: Config, s: Store, now: int, eligible: seq<string>, rule: string)
    requires Inv(c, s, now) && now >= 1
    ensures Inv(c, Resolve(c, s, now, eligible, rule), now)
  {
    hide LastEvent, Newest, PushHistory;
    var e := Resolved(rule, now);
    PushKeepsNewest(c, s.events, e);
    forall r { LastEventSnoc(s.events, e, r); }
  }

  // ---- lawful events ----

  /** An event allowed after `before`: spaced firings, and resolutions only of what last fired. */
  ghost predicate LawfulAt(c: Config, before: seq<Event>, e: Event) {
    var last := LastEvent(before, e.rule);
    && (e.Resolved? ==> last.Some? && last.value.Fired?)
    && (e.Fired? && last.Some? && last.value.Fired? ==> e.ts - last.value.ts > c.CooldownMs())
  }

  ghost predicate Lawful(c: Config, events: seq<Event>) {
    forall j :: 0 <= j < |events| ==> LawfulAt(c, events[..j], events[j])
  }

  lemma LawfulSnoc(c: Config, events: seq<Event>, e: Event)
    requires Lawful(c, events) && LawfulAt(c, events, e)
    ensures Lawful(c, events + [e])
  {
    hide LawfulAt;
    forall j | 0 <= j < |events + [e]| ensures LawfulAt(c, (events + [e])[..j], (events + [e])[j]) {
      if j < |events| { assert (events + [e])[..j] == events[..j]; } else { assert (events + [e])[..j] == events; }
    }
  }

  lemma FireIsLawful(c: Config, s: Store, now: int, rule: string)
    requires Inv(c, s, now) && now >= 1 && Lawful(c, s.events)
    ensures Lawful(c, Fire(c, s, now, rule).events)
  {
    hide LastEvent, Newest, Lawful;
    if !Deduplicated(c, s, now, rule) {
      TtlCoversCooldown(c);
      if rule in s.fired { LastEventDated(s.events, rule); }
      LawfulSnoc(c, s.events, Fired(rule, now));
    }
  }

  lemma {:induction false} LastEventDated(events: seq<Event>, rule: string)
    requires LastEvent(events, rule).Some?
    ensures exists i :: 0 <= i < |events| && events[i] == LastEvent(events, rule).value && events[i].rule == rule
  {
    var n := |events| - 1;
    if events[n].rule == rule {
    } else {
      LastEventDated(events[..n], rule);
      var i :| 0 <= i < n && events[..n][i] == LastEvent(events[..n], rule).value && events[..n][i].rule == rule;
      assert events[i] == events[..n][i];
    }
  }

  /** A key outlives the dedup interval. */
  lemma TtlCoversCooldown(c: Config)
    ensures c.TtlMs() >= c.CooldownMs()
  {}

  // ---- a whole tick ----

  ghost predicate Good(c: Config, s: Store, now: int) { Inv(c, s, now) && Lawful(c, s.events) }

  /** Every scanned rule still has its key, or has already been resolved in this tick. */
  ghost predicate Pending(s: Store, now: int, scan: seq<string>) {
    forall r :: r in scan ==> r in s.fired || Live(s.markers, r, now)
  }

  /** Only eligible rules fire and only others resolve. */
  predicate Sided(before: seq<Event>, after: seq<Event>, eligible: seq<string>) {
    before <= after
    && forall j :: |before| <= j < |after| ==> (after[j].Fired? <==> after[j].rule in eligible)
  }

  lemma {:induction false} FireAllGood(c: Config, s: Store, now: int, rules: seq<string>, eligible: seq<string>)
    requires Good(c, s, now) && now >= 1 && forall r :: r in rules ==> r in eligible
    ensures Good(c, FireAll(c, s, now, rules), now)
    ensures Sided(s.events, FireAll(c, s, now, rules).events, eligible)
  {
    hide Inv, Lawful, Deduplicated;
    if rules == [] {
    } else {
      var before, rule := FireAll(c, s, now, rules[..|rules| - 1]), rules[|rules| - 1];
      FireAllGood(c, s, now, rules[..|rules| - 1], eligible);
      FireKeepsInv(c, before, now, rule);
      FireIsLawful(c, before, now, rule);
    }
  }

  lemma ResolveIsLawful(c: Config, s: Store, now: int, eligible: seq<string>, rule: string)
    requires Inv(c, s, now) && Lawful(c, s.events) && (rule in s.fired || Live(s.markers, rule, now))
    ensures Lawful(c, Resolve(c, s, now, eligible, rule).events)
  {
    hide LastEvent, Newest, Lawful;
    if rule !in eligible && !Live(s.markers, rule, now) {
      LawfulSnoc(c, s.events, Resolved(rule, now));
    }
  }

  lemma {:induction false} ResolveAllGood(
    c: Config, s: Store, now: int, eligible: seq<string>, scan: seq<string>, todo: seq<string>)
    requires Good(c, s, now) && now >= 1 && Pending(s, now, todo) && forall r :: r in scan ==> r in todo
    ensures var t := ResolveAll(c, s, now, eligible, scan);
      && Good(c, t, now) && Pending(t, now, todo) && Sided(s.events, t.events, eligible)
      && (forall r :: r in scan && r !in eligible ==> r !in t.fired)
      && (forall r :: r in t.fired ==> r in s.fired && t.fired[r] == s.fired[r])
  {
    hide Lawful, Newest, LastEvent, PushHistory;
    if scan == [] {
    } else {
      var rest, rule := scan[..|scan| - 1], scan[|scan| - 1];
      assert scan == rest + [rule];
      var before := ResolveAll(c, s, now, eligible, rest);
      ResolveAllGood(c, s, now, eligible, rest, todo);
      ResolveKeepsInv(c, before, now, eligible, rule);
      ResolveIsLawful(c, before, now, eligible, rule);
      ResolveStep(c, before, now, eligible, rule, todo);
    }
  }

  lemma ResolveStep(c: Config, s: Store, now: int, eligible: seq<string>, rule: string, todo: seq<string>)
    requires Inv(c, s, now) && Pending(s, now, todo) && rule in todo
    ensures var t := Resolve(c, s, now, eligible, rule);
      && Pending(t, now, todo) && Sided(s.events, t.events, eligible)
      && (rule !in eligible ==> rule !in t.fired)
      && (forall r :: r in t.fired ==> r in s.fired && t.fired[r] == s.fired[r])
  {
    hide Newest, LastEvent, PushHistory;
  }

  /** One tick from a good store leaves a good store, keeps the sides apart and leaves nothing unresolved. */
  lemma TickIsGood(c: Config, s: Store, earlier: int, now: int, alerts: seq<Alert>, scan: seq<string>)
    requires Good(c, s, earlier) && earlier <= now && now >= 1
    requires ScanOf(FireAll(c, s, now, Eligible(c, alerts)), now, scan)
    ensures Good(c, Tick(c, s, now, alerts, scan), now)
    ensures Sided(s.events, Tick(c, s, now, alerts, scan).events, Eligible(c, alerts))
    ensures forall r :: Live(Tick(c, s, now, alerts, scan).fired, r, now) ==> r in Eligible(c, alerts)
  {
    var eligible := Eligible(c, alerts);
    LaterInv(c, s, earlier, now);
    hide Inv, Lawful, Eligible, FireAll, ResolveAll;
    FireAllGood(c, s, now, eligible, eligible);
    var t := FireAll(c, s, now, eligible);
    ResolveAllGood(c, t, now, eligible, scan, scan);
  }

  // ---- whole runs ----

  datatype Step = Step(now: int, alerts: seq<Alert>, scan: seq<string>)

  function Run(c: Config, steps: seq<Step>): Store {
    if steps == [] then EMPTY
    else
      var step := steps[|steps| - 1];
      Tick(c, Run(c, steps[..|steps| - 1]), step.now, step.alerts, step.scan)
  }

  function Clock(steps: seq<Step>): int { if steps == [] then 1 else steps[|steps| - 1].now }

  /** A positive clock that does not go back, and scans of what is there. */
  ghost predicate Faithful(c: Config, steps: seq<Step>) {
    steps == [] ||
    (var before, step := steps[..|steps| - 1], steps[|steps| - 1];
     && Faithful(c, before) && step.now >= Clock(before)
     && ScanOf(FireAll(c, Run(c, before), step.now, Eligible(c, step.alerts)), step.now, step.scan))
  }

  lemma {:induction false} RunIsGood(c: Config, steps: seq<Step>)
    requires Faithful(c, steps)
    ensures Good(c, Run(c, steps), Clock(steps)) && Clock(steps) >= 1
  {
    hide Inv, Lawful, Tick, ScanOf;
    if steps == [] {
      EmptyIsGood(c);
    } else {
      var before, step := steps[..|steps| - 1], steps[|steps| - 1];
      RunIsGood(c, before);
      TickIsGood(c, Run(c, before), Clock(before), step.now, step.alerts, step.scan);
    }
  }

  lemma EmptyIsGood(c: Config)
    ensures Good(c, EMPTY, 1)
  {}

  predicate ResolvedBetween(events: seq<Event>, i: int, j: int, rule: string)
    requires 0 <= i <= j <= |events|
  {
    exists k :: i < k < j && events[k] == Resolved(rule, events[k].ts)
  }

  /** The last event of a rule in a prefix, as an index with only other rules behind it. */
  lemma {:induction false} LastEventIndex(events: seq<Event>, n: nat, rule: string) returns (i: nat)
    requires n <= |events| && LastEvent(events[..n], rule).Some?
    ensures i < n && events[i] == LastEvent(events[..n], rule).value && events[i].rule == rule
    ensures forall k :: i < k < n ==> events[k].rule != rule
    decreases n
  {
    if events[n - 1].rule == rule {
      i := n - 1;
    } else {
      assert events[..n][..n - 1] == events[..n - 1];
      i := LastEventIndex(events, n - 1, rule);
    }
  }

  /** Every resolution has its own earlier firing with no other resolution in between. */
  lemma ResolvedAfterFired(c: Config, steps: seq<Step>, j: int)
    requires Faithful(c, steps) && 0 <= j < |Run(c, steps).events| && Run(c, steps).events[j].Resolved?
    ensures var events := Run(c, steps).events;
      exists i :: 0 <= i < j && events[i].Fired? && events[i].rule == events[j].rule
                  && !ResolvedBetween(events, i, j, events[j].rule)
  {
    hide Run, Faithful, Inv;
    RunIsGood(c, steps);
    var events := Run(c, steps).events;
    assert LawfulAt(c, events[..j], events[j]);
    var i := LastEventIndex(events, j, events[j].rule);
  }

  /** Firings of a rule with no resolution in between are more than the dedup interval apart. */
  lemma FiringsAreSpaced(c: Config, steps: seq<Step>, i: int, j: int, rule: string)
    requires Faithful(c, steps) && 0 <= i < j < |Run(c, steps).events|
    requires var events := Run(c, steps).events;
      && events[i].Fired? && events[i].rule == rule && events[j].Fired? && events[j].rule == rule
      && !ResolvedBetween(events, i, j, rule)
    ensures Run(c, steps).events[j].ts - Run(c, steps).events[i].ts > c.dedupSeconds * 1000
  {
    hide Run, Faithful, Newest;
    RunIsGood(c, steps);
    var events := Run(c, steps).events;
    assert LawfulAt(c, events[..j], events[j]);
    HasLastEvent(events, i, j, rule);
    var k := LastEventIndex(events, j, rule);
    if k != i && events[k].Resolved? { ResolvedIsBetween(events, i, j, k, rule); }
    assert events[i].ts <= events[k].ts;
  }

  lemma ResolvedIsBetween(events: seq<Event>, i: int, j: int, k: int, rule: string)
    requires 0 <= i < k < j <= |events| && events[k].Resolved? && events[k].rule == rule
    ensures ResolvedBetween(events, i, j, rule)
  {
    assert events[k] == Resolved(rule, events[k].ts);
  }

  lemma {:induction false} HasLastEvent(events: seq<Event>, i: nat, n: nat, rule: string)
    requires i < n <= |events| && events[i].rule == rule
    ensures LastEvent(events[..n], rule).Some?
    decreases n
  {
    assert events[..n][..n - 1] == events[..n - 1];
    if events[n - 1].rule == rule {
    } else {
      HasLastEvent(events, i, n - 1, rule);
    }
  }

  /** In any run the stored list is the newest part of everything that happened. */
  lemma HistoryIsNewest(c: Config, steps: seq<Step>)
    requires Faithful(c, steps)
    ensures Run(c, steps).history == Newest(c, Run(c, steps).events)
  {
    hide Run, Faithful, Newest, LastEvent;
    RunIsGood(c, steps);
  }

  // ---- which alerts fire and which rules resolve in a tick ----

  /** Severities from the lowest: info, warn, crit. An unknown minimum asks for crit. */
  predicate AtLeast(severity: string, minimum: string) {
    match minimum
    case "info" => true
    case "warn" => severity == "warn" || severity == "crit"
    case _ => severity == "crit"
  }

  /** Some reported alert of the rule is severe enough. */
  predicate Severe(c: Config, alerts: seq<Alert>, rule: string) {
    exists i :: 0 <= i < |alerts| && alerts[i].rule == rule && AtLeast(alerts[i].severity, c.minSeverity)
  }

  /** A rule is eligible exactly when some reported alert of it is severe enough. */
  lemma {:induction false} EligibleIff(c: Config, alerts: seq<Alert>, rule: string)
    ensures rule in Eligible(c, alerts) <==> Severe(c, alerts, rule)
  {
    if alerts == [] {
    } else {
      var n := |alerts| - 1;
      EligibleIff(c, alerts[..n], rule);
      SeverityIff(c, alerts[n].severity);
      hide AtLeast, Rank, Config.MinRank;
      if i :| 0 <= i < n && alerts[..n][i].rule == rule && AtLeast(alerts[..n][i].severity, c.minSeverity) {
        assert alerts[i] == alerts[..n][i];
      }
      if i :| 0 <= i < |alerts| && alerts[i].rule == rule && AtLeast(alerts[i].severity, c.minSeverity) {
        assert i < n ==> alerts[..n][i] == alerts[i];
      }
    }
  }

  lemma SeverityIff(c: Config, severity: string)
    ensures Rank(severity) >= c.MinRank() <==> AtLeast(severity, c.minSeverity)
  {
    assert "warn"[0] == 'w' && "crit"[0] == 'c' && "info"[0] == 'i';
  }

  /** `after` continues `before` and the new part holds `e`. */
  predicate Adds(before: seq<Event>, after: seq<Event>, e: Event) {
    before <= after && exists j :: |before| <= j < |after| && after[j] == e
  }

  lemma AddsSnoc(before: seq<Event>, middle: seq<Event>, e: Event, f: Event)
    requires before <= middle
    ensures Adds(before, middle + [e], f) <==> Adds(before, middle, f) || e == f
  {
    var after := middle + [e];
    if e == f { assert after[|middle|] == f; }
    if j :| |before| <= j < |middle| && middle[j] == f { assert after[j] == f; }
  }

  /** Nothing about a rule's key and marker differs. */
  predicate SameKeys(s: Store, t: Store, r: string) {
    && (r in s.fired <==> r in t.fired) && (r in s.fired ==> t.fired[r] == s.fired[r])
    && (r in s.markers <==> r in t.markers) && (r in s.markers ==> t.markers[r] == s.markers[r])
  }

  /** The last event of the rule is a firing no longer ago than `ms`. */
  predicate FiredWithin(events: seq<Event>, rule: string, now: int, ms: int) {
    match LastEvent(events, rule)
    case Some(Fired(_, ts)) => now - ts <= ms
    case _ => false
  }

  /** Twice the dedup interval, at least a minute. */
  function KeyLifeMs(c: Config): int { if 2 * c.dedupSeconds >= 60 then 2000 * c.dedupSeconds else 60_000 }

  /** Keys and markers read as the events say: the dedup looks at the last firing, and so does the key's expiry. */
  lemma KeysAreEvents(c: Config, s: Store, now: int, rule: string)
    requires Inv(c, s, now)
    ensures Deduplicated(c, s, now, rule) <==> FiredWithin(s.events, rule, now, c.dedupSeconds * 1000)
    ensures Live(s.fired, rule, now)
            <==> FiredWithin(s.events, rule, now, KeyLifeMs(c))
  {
    TtlCoversCooldown(c);
    if LastEvent(s.events, rule).Some? { LastEventDated(s.events, rule); }
    hide LastEvent, Newest;
  }

  /** What firing a list of rules does to one rule. */
  lemma {:induction false} FireAllEffect(c: Config, s: Store, now: int, rules: seq<string>, r: string)
    requires Inv(c, s, now) && now >= 1
    ensures var t := FireAll(c, s, now, rules);
      && Inv(c, t, now) && s.events <= t.events
      && (Adds(s.events, t.events, Fired(r, now)) <==> r in rules && !Deduplicated(c, s, now, r))
      && !Adds(s.events, t.events, Resolved(r, now))
      && (r in rules ==> Live(t.fired, r, now))
      && (r in rules && !Deduplicated(c, s, now, r) ==> r !in t.markers)
      && (r !in rules || Deduplicated(c, s, now, r) ==> SameKeys(s, t, r))
  {
    hide Inv, LastEvent, PushHistory;
    if rules == [] {
    } else {
      var rest, rule := rules[..|rules| - 1], rules[|rules| - 1];
      FireAllEffect(c, s, now, rest, r);
      var t := FireAll(c, s, now, rest);
      FireKeepsInv(c, t, now, rule);
      if !Deduplicated(c, t, now, rule) {
        AddsSnoc(s.events, t.events, Fired(rule, now), Fired(r, now));
        AddsSnoc(s.events, t.events, Fired(rule, now), Resolved(r, now));
      }
      assert rules == rest + [rule];
    }
  }

  /** What resolving a scan does to one rule. */
  lemma {:induction false} ResolveAllEffect(
    c: Config, s: Store, now: int, eligible: seq<string>, scan: seq<string>, r: string)
    requires Inv(c, s, now) && now >= 1
    ensures var t := ResolveAll(c, s, now, eligible, scan);
      && Inv(c, t, now) && s.events <= t.events
      && !Adds(s.events, t.events, Fired(r, now))
      && (Adds(s.events, t.events, Resolved(r, now)) <==> r in scan && r !in eligible && !Live(s.markers, r, now))
      && (r !in scan || r in eligible ==> SameKeys(s, t, r))
      && (r in scan && r !in eligible ==> Live(t.markers, r, now))
      && (Adds(s.events, t.events, Resolved(r, now)) ==> t.markers[r] == Stamp(1, now + 3_600_000))
  {
    hide Inv, LastEvent, PushHistory;
    if scan == [] {
    } else {
      var rest, rule := scan[..|scan| - 1], scan[|scan| - 1];
      ResolveAllEffect(c, s, now, eligible, rest, r);
      var t := ResolveAll(c, s, now, eligible, rest);
      ResolveKeepsInv(c, t, now, eligible, rule);
      if rule !in eligible && !Live(t.markers, rule, now) {
        AddsSnoc(s.events, t.events, Resolved(rule, now), Fired(r, now));
        AddsSnoc(s.events, t.events, Resolved(rule, now), Resolved(r, now));
      }
      assert scan == rest + [rule];
    }
  }

  /**
   What a tick does, rule by rule. A rule fires exactly when an alert of it is severe enough
   and it has not fired, unresolved, within the dedup interval; afterwards every such rule
   has a readable key. A rule resolves exactly when no alert of it is severe enough and it
   last fired, unresolved, within the lifetime of its key: twice the interval, at least a
   minute.
   */
  lemma TickMeans(c: Config, s: Store, earlier: int, now: int, alerts: seq<Alert>, scan: seq<string>, rule: string)
    requires Inv(c, s, earlier) && earlier <= now && now >= 1
    requires ScanOf(FireAll(c, s, now, Eligible(c, alerts)), now, scan)
    ensures var t := Tick(c, s, now, alerts, scan);
      var severe := Severe(c, alerts, rule);
      && (Adds(s.events, t.events, Fired(rule, now))
          <==> severe && !FiredWithin(s.events, rule, now, c.dedupSeconds * 1000))
      && (severe ==> Live(t.fired, rule, now))
      && (Adds(s.events, t.events, Resolved(rule, now))
          <==> !severe && FiredWithin(s.events, rule, now, KeyLifeMs(c)))
      && (Adds(s.events, t.events, Resolved(rule, now)) ==>
            rule !in t.fired && rule in t.markers && t.markers[rule].deadline == now + 3_600_000)
  {
    var eligible := Eligible(c, alerts);
    EligibleIff(c, alerts, rule);
    LaterInv(c, s, earlier, now);
    KeysAreEvents(c, s, now, rule);
    FireAllEffect(c, s, now, eligible, rule);
    var fired := FireAll(c, s, now, eligible);
    ResolveAllEffect(c, fired, now, eligible, scan, rule);
    KeyHasNoMarker(c, fired, now, rule);
    var t := ResolveAll(c, fired, now, eligible, scan);
    AddsThrough(s.events, fired.events, t.events, Fired(rule, now));
    AddsThrough(s.events, fired.events, t.events, Resolved(rule, now));
    hide Inv, Eligible, FireAll, ResolveAll, Adds, FiredWithin, Deduplicated, Severe;
  }

  /** In any run, that is what its last tick has done. */
  lemma LastTickMeans(c: Config, steps: seq<Step>, rule: string)
    requires Faithful(c, steps) && steps != []
    ensures var before, after := Run(c, steps[..|steps| - 1]).events, Run(c, steps).events;
      var step := steps[|steps| - 1];
      var severe := Severe(c, step.alerts, rule);
      && (Adds(before, after, Fired(rule, step.now))
          <==> severe && !FiredWithin(before, rule, step.now, c.dedupSeconds * 1000))
      && (severe ==> Live(Run(c, steps).fired, rule, step.now))
      && (Adds(before, after, Resolved(rule, step.now))
          <==> !severe && FiredWithin(before, rule, step.now, KeyLifeMs(c)))
  {
    hide Adds, FiredWithin, Severe, Tick, Inv, Lawful;
    var before, step := steps[..|steps| - 1], steps[|steps| - 1];
    RunIsGood(c, before);
    TickMeans(c, Run(c, before), Clock(before), step.now, step.alerts, step.scan, rule);
  }

  lemma KeyHasNoMarker(c: Config, s: Store, now: int, rule: string)
    requires Inv(c, s, now)
    ensures rule in s.fired ==> rule !in s.markers
  {}

  lemma AddsThrough(a: seq<Event>, b: seq<Event>, d: seq<Event>, e: Event)
    requires a <= b <= d
    ensures Adds(a, d, e) <==> Adds(a, b, e) || Adds(b, d, e)
  {
    if j :| |a| <= j < |d| && d[j] == e { assert j < |b| ==> b[j] == e; }
    if j :| |a| <= j < |b| && b[j] == e { assert d[j] == e; }
  }

  // ---- the notifier object ----

  class AlertNotifier {
    const config: Config
    var fired: map<string, Stamp>
    var markers: map<string, Stamp>
    var history: seq<Event>
    ghost var events: seq<Event>

    ghost function Abstract(): Store
      reads this
    {
      Store(fired, markers, history, events)
    }

    constructor (config: Config)
      ensures this.config == config && Abstract() == EMPTY
    {
      this.config := config;
      fired, markers, history, events := map[], map[], [], [];
    }

    method Push(e: Event)
      modifies this`history, this`events
      ensures history == PushHistory(config, old(history), e) && events == old(events) + [e]
    {
      history := [e] + history;
      events := events + [e];
      if config.maxEntries > 0 && |history| > config.maxEntries { history := history[..config.maxEntries]; }
    }

    method FireOne(now: int, rule: string) returns (fires: bool)
      modifies this
      ensures Abstract() == Fire(config, old(Abstract()), now, rule)
      ensures fires == !Deduplicated(config, old(Abstract()), now, rule)
      ensures |events| == |old(events)| + (if fires then 1 else 0)
    {
      var last := if Live(fired, rule, now) then fired[rule].value else 0;
      if last != 0 && now - last <= config.CooldownMs() { return false; }
      fired := fired[rule := Stamp(now, now + config.TtlMs())];
      markers := markers - {rule};
      Push(Fired(rule, now));
      return true;
    }

    /** One tick; the first number counts the firings, the second the skipped alerts. */
    method RunTick(now: int, alerts: seq<Alert>, scan: seq<string>) returns (sent: nat, skipped: nat)
      modifies this
      ensures Abstract() == Tick(config, old(Abstract()), now, alerts, scan)
      ensures sent + skipped == |Eligible(config, alerts)|
      ensures sent == |FireAll(config, old(Abstract()), now, Eligible(config, alerts)).events| - |old(events)|
    {
      var eligible: seq<string> := [];
      for i := 0 to |alerts|
        invariant unchanged(this) && eligible == Eligible(config, alerts[..i])
      {
        assert alerts[..i + 1][..i] == alerts[..i];
        if Rank(alerts[i].severity) >= config.MinRank() { eligible := eligible + [alerts[i].rule]; }
      }
      assert alerts[..|alerts|] == alerts;
      sent, skipped := 0, 0;
      for i := 0 to |eligible|
        invariant sent + skipped == i && sent == |events| - |old(events)|
        invariant Abstract() == FireAll(config, old(Abstract()), now, eligible[..i])
      {
        assert eligible[..i + 1][..i] == eligible[..i];
        var fires := FireOne(now, eligible[i]);
        if fires { sent := sent + 1; } else { skipped := skipped + 1; }
      }
      assert eligible[..|eligible|] == eligible;
      EmitResolutions(now, eligible, scan);
    }

    method EmitResolutions(now: int, eligible: seq<string>, scan: seq<string>)
      modifies this
      ensures Abstract() == ResolveAll(config, old(Abstract()), now, eligible, scan)
    {
      for i := 0 to |scan|
        invariant Abstract() == ResolveAll(config, old(Abstract()), now, eligible, scan[..i])
      {
        var rule := scan[i];
        assert scan[..i + 1][..i] == scan[..i];
        if rule !in eligible && !Live(markers, rule, now) {
          markers := markers[rule := Stamp(1, now + MARKER_TTL_MS)];
          fired := fired - {rule};
          Push(Resolved(rule, now));
        }
      }
      assert scan[..|scan|] == scan;
    }
  }
}
